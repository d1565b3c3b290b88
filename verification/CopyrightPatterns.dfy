/** The three year patterns of update_copyright_year.py: as direct scans, as
    regular expressions, and the proof that the scans find what `re` finds. */
module CopyrightPatterns {
  import opened Text
  import opened Regex

  // ----- characters -----

  type Digit = d: nat | d < 10

  /** What a Unicode database says about the characters beyond ASCII: decimal
      digit values (`\d`) and white space (`\s`). Nothing else about the
      database is assumed. */
  datatype Unicode = Unicode(moreDigits: char -> Option<Digit>, moreSpaces: char -> bool)

  const EN_DASH: char := '\U{2013}'
  const EM_DASH: char := '\U{2014}'
  const TOKEN := "SPDX-FileCopyrightText:"

  predicate IsDash(c: char) { c == '-' || c == EN_DASH || c == EM_DASH }

  function DigitOf(u: Unicode, c: char): Option<Digit> {
    if '0' <= c <= '9' then Some(c as int - '0' as int)
    else if c < '\U{80}' || IsDash(c) then None
    else u.moreDigits(c)
  }

  predicate IsDigit(u: Unicode, c: char) { DigitOf(u, c).Some? }

  /** A character is never both a digit and white space. */
  predicate IsSpace(u: Unicode, c: char) {
    || '\t' <= c <= '\r'
    || '\U{1C}' <= c <= ' '
    || (c >= '\U{80}' && !IsDash(c) && !IsDigit(u, c) && u.moreSpaces(c))
  }

  function DigitValue(u: Unicode, c: char): Digit {
    match DigitOf(u, c) case None => 0 case Some(d) => d
  }

  /** Python's `int` of a string of digits. */
  function IntOf(u: Unicode, s: string): nat {
    if s == [] then 0 else 10 * IntOf(u, s[..|s| - 1]) + DigitValue(u, s[|s| - 1])
  }

  // ----- direct scans -----

  predicate IsYear(u: Unicode, s: string, i: nat) {
    i + 4 <= |s| && IsDigit(u, s[i]) && IsDigit(u, s[i + 1]) && IsDigit(u, s[i + 2]) && IsDigit(u, s[i + 3])
  }

  function YearAt(u: Unicode, s: string, i: nat): (y: nat)
    requires IsYear(u, s, i)
    ensures y <= 9999
  {
    1000 * DigitValue(u, s[i]) + 100 * DigitValue(u, s[i + 1]) + 10 * DigitValue(u, s[i + 2]) + DigitValue(u, s[i + 3])
  }

  /** The leftmost four digits at or after `from`. */
  function FirstYear(u: Unicode, s: string, from: nat): (r: Option<nat>)
    ensures r.Some? ==> from <= r.value && IsYear(u, s, r.value)
    ensures r.Some? ==> forall k: nat :: from <= k < r.value ==> !IsYear(u, s, k)
    ensures r.None? ==> forall k: nat :: from <= k ==> !IsYear(u, s, k)
    decreases |s| - from
  {
    if |s| < from + 4 then None
    else if IsYear(u, s, from) then Some(from)
    else FirstYear(u, s, from + 1)
  }

  function SkipSpaces(u: Unicode, s: string, i: nat): (r: nat)
    ensures i <= r && (i <= |s| ==> r <= |s|)
    ensures forall k :: i <= k < r ==> k < |s| && IsSpace(u, s[k])
    ensures r < |s| ==> !IsSpace(u, s[r])
    decreases |s| - i
  {
    if i < |s| && IsSpace(u, s[i]) then SkipSpaces(u, s, i + 1) else i
  }

  /** Where the end year of a year range starting at `i` is, if there is a
      range: four digits, a dash among optional spaces, four digits. */
  function RangeEnd(u: Unicode, s: string, i: nat): (r: Option<nat>)
    ensures r.Some? ==> IsYear(u, s, i) && i + 5 <= r.value && IsYear(u, s, r.value)
  {
    if !IsYear(u, s, i) then None
    else
      var a := SkipSpaces(u, s, i + 4);
      if a < |s| && IsDash(s[a]) then
        var b := SkipSpaces(u, s, a + 1);
        if IsYear(u, s, b) then Some(b) else None
      else None
  }

  function FirstRange(u: Unicode, s: string, from: nat): (r: Option<nat>)
    ensures r.Some? ==> from <= r.value && RangeEnd(u, s, r.value).Some?
    ensures r.Some? ==> forall k: nat :: from <= k < r.value ==> RangeEnd(u, s, k).None?
    ensures r.None? ==> forall k: nat :: from <= k ==> RangeEnd(u, s, k).None?
    decreases |s| - from
  {
    if |s| < from + 4 then None
    else if RangeEnd(u, s, from).Some? then Some(from)
    else FirstRange(u, s, from + 1)
  }

  /** What `parse_copyright_year` reads off a line. */
  datatype Years = Years(start: int, end: Option<int>)

  function YearsAt(u: Unicode, s: string, i: nat): Years
    requires IsYear(u, s, i)
  {
    Years(YearAt(u, s, i),
          match RangeEnd(u, s, i) case None => None case Some(b) => Some(YearAt(u, s, b)))
  }

  function ParseFrom(u: Unicode, s: string, from: nat): Option<Years> {
    match FirstYear(u, s, from)
    case None => None
    case Some(j) => Some(YearsAt(u, s, j))
  }

  function ParseLine(u: Unicode, line: string): Option<Years> {
    match Find(line, TOKEN, 0)
    case None => None
    case Some(i) => ParseFrom(u, line, i + |TOKEN|)
  }

  /** The single-year rewriting: the first four digits gain " - target". */
  function ExtendYear(u: Unicode, line: string, target: int): string {
    match FirstYear(u, line, 0)
    case None => line
    case Some(k) => line[..k + 4] + " - " + IntNumeral(target) + line[k + 4..]
  }

  /** The year-range rewriting: the end year of the first range is replaced. */
  function ReplaceEnd(u: Unicode, line: string, target: int): string {
    match FirstRange(u, line, 0)
    case None => line
    case Some(k) =>
      var b := RangeEnd(u, line, k).value;
      line[..b] + IntNumeral(target) + line[b + 4..]
  }

  // ----- the same patterns as regular expressions -----

  function Digits(u: Unicode): char -> bool { c => IsDigit(u, c) }
  function Space(u: Unicode): char -> bool { c => IsSpace(u, c) }
  function Dash(): char -> bool { c => IsDash(c) }
  function Dot(): char -> bool { c => c != '\n' }
  function Spaces(u: Unicode): Pattern { Star(Space(u), true) }
  function FourDigit(u: Unicode): Pattern { Exactly(Digits(u), 4) }

  /** (\d{4}) */
  function SinglePattern(u: Unicode): Pattern { Group(1, FourDigit(u)) }

  /** \s*[-–—]\s*(\d{4}) */
  function RangeTail(u: Unicode): Pattern {
    Cat(Spaces(u), Cat(Class(Dash()), Cat(Spaces(u), Group(2, FourDigit(u)))))
  }

  /** \d{4}\s*[-–—]\s* */
  function RangeHead(u: Unicode): Pattern {
    Cat(FourDigit(u), Cat(Spaces(u), Cat(Class(Dash()), Spaces(u))))
  }

  /** (\d{4}\s*[-–—]\s*)(\d{4}) */
  function RangePattern(u: Unicode): Pattern {
    Cat(Group(1, RangeHead(u)), Group(2, FourDigit(u)))
  }

  /** (\d{4})(?:\s*[-–—]\s*(\d{4}))? */
  function YearsPattern(u: Unicode): Pattern {
    Cat(Group(1, FourDigit(u)), Maybe(RangeTail(u)))
  }

  /** SPDX-FileCopyrightText:.*?(\d{4})(?:\s*[-–—]\s*(\d{4}))? */
  function ParsePattern(u: Unicode): Pattern {
    Cat(Lit(TOKEN), Cat(Star(Dot(), false), YearsPattern(u)))
  }

  /** The classes spelled out: the three dashes of the patterns, and what `\d`
      and `\s` accept below U+0080. */
  lemma {:induction false} CharacterClasses(u: Unicode, c: char)
    ensures IsDash(c) <==> c in "-\U{2013}\U{2014}"
    ensures c < '\U{80}' ==> (IsDigit(u, c) <==> c in "0123456789")
    ensures c < '\U{80}' ==> (IsSpace(u, c) <==> c in "\t\n\U{B}\U{C}\r\U{1C}\U{1D}\U{1E}\U{1F} ")
    ensures IsDigit(u, c) ==> !IsSpace(u, c) && !IsDash(c)
    ensures forall d: nat :: d < 10 && "0123456789"[d] == c ==> DigitValue(u, c) == d
  {
    var digits := "0123456789";
    assert forall d: nat :: d < 10 ==> digits[d] as int == '0' as int + d;
    if '0' <= c <= '9' {
      assert digits[c as int - '0' as int] == c;
    }
  }

  // ----- matches of the pieces -----

  lemma {:induction false} FourDigitMatches(u: Unicode, s: string, m: Match)
    ensures Matches(FourDigit(u), s, m) == if IsYear(u, s, m.end) then [m.(end := m.end + 4)] else []
  {
    var d := Digits(u);
    if IsYear(u, s, m.end) {
      forall k | m.end <= k < m.end + 4 ensures d(s[k]) {
        assert k == m.end || k == m.end + 1 || k == m.end + 2 || k == m.end + 3;
      }
      assert AllAccepted(d, s, m.end, 4);
    } else if m.end + 4 <= |s| {
      assert exists k :: m.end <= k < m.end + 4 && !d(s[k]) by {
        assert !d(s[m.end]) || !d(s[m.end + 1]) || !d(s[m.end + 2]) || !d(s[m.end + 3]);
      }
    }
  }

  lemma {:induction false} YearGroupMatches(u: Unicode, n: nat, s: string, m: Match)
    ensures Matches(Group(n, FourDigit(u)), s, m)
         == if IsYear(u, s, m.end) then [Match(m.end + 4, m.groups[n := (m.end, m.end + 4)])] else []
  {
    FourDigitMatches(u, s, m);
  }

  lemma {:induction false} DashThen(next: Pattern, s: string, m: Match)
    ensures Matches(Cat(Class(Dash()), next), s, m)
         == if m.end < |s| && IsDash(s[m.end]) then Matches(next, s, m.(end := m.end + 1)) else []
  {
    var d := Dash();
    if m.end < |s| && d(s[m.end]) {
      EachOne(next, s, m.(end := m.end + 1));
      assert Matches(Class(d), s, m) == [m.(end := m.end + 1)];
    } else {
      assert Matches(Class(d), s, m) == [];
    }
  }

  lemma {:induction false} SpacesThen(u: Unicode, next: Pattern, s: string, m: Match)
    requires m.end <= |s|
    requires forall k: nat :: k < |s| && IsSpace(u, s[k]) ==> Matches(next, s, m.(end := k)) == []
    ensures Matches(Cat(Spaces(u), next), s, m) == Matches(next, s, m.(end := SkipSpaces(u, s, m.end)))
  {
    GreedyRun(Space(u), next, s, m, SkipSpaces(u, s, m.end));
  }

  lemma {:induction false} SpacesYear(u: Unicode, s: string, m: Match, b: nat)
    requires m.end <= |s| && b == SkipSpaces(u, s, m.end)
    ensures Matches(Cat(Spaces(u), Group(2, FourDigit(u))), s, m)
         == if IsYear(u, s, b) then [Match(b + 4, m.groups[2 := (b, b + 4)])] else []
  {
    hide Matches;
    var year := Group(2, FourDigit(u));
    forall k: nat | k < |s| && IsSpace(u, s[k]) ensures Matches(year, s, m.(end := k)) == [] {
      YearGroupMatches(u, 2, s, m.(end := k));
    }
    SpacesThen(u, year, s, m);
    YearGroupMatches(u, 2, s, m.(end := b));
  }

  lemma {:induction false} SpacesDashThen(u: Unicode, next: Pattern, s: string, m: Match, a: nat)
    requires m.end <= |s| && a == SkipSpaces(u, s, m.end)
    ensures Matches(Cat(Spaces(u), Cat(Class(Dash()), next)), s, m)
         == if a < |s| && IsDash(s[a]) then Matches(next, s, m.(end := a + 1)) else []
  {
    forall k: nat | k < |s| && IsSpace(u, s[k]) ensures Matches(Cat(Class(Dash()), next), s, m.(end := k)) == [] {
      DashThen(next, s, m.(end := k));
    }
    SpacesThen(u, Cat(Class(Dash()), next), s, m);
    DashThen(next, s, m.(end := a));
  }

  lemma {:induction false} RangeTailMatches(u: Unicode, s: string, m: Match, i: nat)
    requires IsYear(u, s, i) && m.end == i + 4
    ensures Matches(RangeTail(u), s, m)
         == match RangeEnd(u, s, i)
            case None => []
            case Some(b) => [Match(b + 4, m.groups[2 := (b, b + 4)])]
  {
    hide Matches;
    var a := SkipSpaces(u, s, m.end);
    SpacesDashThen(u, Cat(Spaces(u), Group(2, FourDigit(u))), s, m, a);
    if a < |s| && IsDash(s[a]) {
      SpacesYear(u, s, m.(end := a + 1), SkipSpaces(u, s, a + 1));
    }
  }

  /** The engine's first choice for the year and its optional range. */
  lemma {:induction false} YearsMatches(u: Unicode, s: string, m: Match)
    ensures !IsYear(u, s, m.end) ==> Matches(YearsPattern(u), s, m) == []
    ensures IsYear(u, s, m.end) ==>
              var j := m.end;
              var ms := Matches(YearsPattern(u), s, m);
              var g := m.groups[1 := (j, j + 4)];
              && ms != []
              && ms[0] == match RangeEnd(u, s, j)
                          case None => Match(j + 4, g)
                          case Some(b) => Match(b + 4, g[2 := (b, b + 4)])
  {
    hide Matches;
    CatMatches(Group(1, FourDigit(u)), Maybe(RangeTail(u)), s, m);
    YearGroupMatches(u, 1, s, m);
    if IsYear(u, s, m.end) {
      var m' := Match(m.end + 4, m.groups[1 := (m.end, m.end + 4)]);
      EachOne(Maybe(RangeTail(u)), s, m');
      MaybeMatches(RangeTail(u), s, m');
      RangeTailMatches(u, s, m', m.end);
    }
  }

  // ----- the scans agree with the engine -----

  /** `match.group(1)` and `match.group(2)` turned into years. */
  predicate ReadsAs(u: Unicode, s: string, m: Match, years: Years) {
    && 1 in m.groups && m.groups[1].0 <= m.groups[1].1 <= |s|
    && (forall c :: c in s[m.groups[1].0..m.groups[1].1] ==> IsDigit(u, c))
    && years.start == IntOf(u, s[m.groups[1].0..m.groups[1].1])
    && (2 in m.groups <==> years.end.Some?)
    && (2 in m.groups ==>
          && m.groups[2].0 <= m.groups[2].1 <= |s|
          && (forall c :: c in s[m.groups[2].0..m.groups[2].1] ==> IsDigit(u, c))
          && years.end == Some(IntOf(u, s[m.groups[2].0..m.groups[2].1])))
  }

  lemma {:induction false} IntOfSnoc(u: Unicode, s: string, c: char)
    ensures IntOf(u, s + [c]) == 10 * IntOf(u, s) + DigitValue(u, c)
  {
    assert (s + [c])[..|s|] == s;
  }

  lemma {:induction false} YearIsInt(u: Unicode, s: string, i: nat)
    requires IsYear(u, s, i)
    ensures forall c :: c in s[i..i + 4] ==> IsDigit(u, c)
    ensures IntOf(u, s[i..i + 4]) == YearAt(u, s, i)
  {
    assert s[i..i + 4] == [s[i], s[i + 1], s[i + 2], s[i + 3]];
    assert [] + [s[i]] == [s[i]] && [s[i]] + [s[i + 1]] == [s[i], s[i + 1]];
    assert [s[i], s[i + 1]] + [s[i + 2]] == [s[i], s[i + 1], s[i + 2]];
    assert [s[i], s[i + 1], s[i + 2]] + [s[i + 3]] == [s[i], s[i + 1], s[i + 2], s[i + 3]];
    IntOfSnoc(u, [], s[i]);
    IntOfSnoc(u, [s[i]], s[i + 1]);
    IntOfSnoc(u, [s[i], s[i + 1]], s[i + 2]);
    IntOfSnoc(u, [s[i], s[i + 1], s[i + 2]], s[i + 3]);
  }

  /** `re.search` with the parse pattern finds a match exactly when ParseLine
      finds years, and its groups are those years. */
  lemma {:induction false} ParseLineIsSearch(u: Unicode, line: string)
    requires '\n' !in line
    ensures Search(ParsePattern(u), line, 0).None? <==> ParseLine(u, line).None?
    ensures Search(ParsePattern(u), line, 0).Some? ==>
              ReadsAs(u, line, Search(ParsePattern(u), line, 0).value.1, ParseLine(u, line).value)
  {
    hide Matches;
    var p := ParsePattern(u);
    forall k: nat | !At(line, TOKEN, k) ensures Matches(p, line, Start(k)) == [] {
      TokenThen(u, line, k);
    }
    match Find(line, TOKEN, 0)
    case None =>
      SearchNone(p, line, 0);
    case Some(i) =>
      match FirstYear(u, line, i + |TOKEN|) {
        case None =>
          forall k: nat | i <= k ensures Matches(p, line, Start(k)) == [] {
            NoYearNoMatch(u, line, k);
          }
          SearchNone(p, line, 0);
        case Some(j) =>
          ParseMatch(u, line, i, j);
          SearchIs(p, line, 0, i);
          ReadYears(u, line, j);
      }
  }

  lemma {:induction false} TokenThen(u: Unicode, line: string, k: nat)
    ensures Matches(ParsePattern(u), line, Start(k))
         == if At(line, TOKEN, k)
            then Matches(Cat(Star(Dot(), false), YearsPattern(u)), line, Start(k + |TOKEN|))
            else []
  {
    var next := Cat(Star(Dot(), false), YearsPattern(u));
    if At(line, TOKEN, k) {
      EachOne(next, line, Start(k + |TOKEN|));
      assert Matches(Lit(TOKEN), line, Start(k)) == [Start(k + |TOKEN|)];
    } else {
      assert Matches(Lit(TOKEN), line, Start(k)) == [];
    }
  }

  lemma {:induction false} NoYearNoMatch(u: Unicode, line: string, k: nat)
    requires FirstYear(u, line, k + |TOKEN|).None?
    ensures Matches(ParsePattern(u), line, Start(k)) == []
  {
    TokenThen(u, line, k);
    var m := Start(k + |TOKEN|);
    forall e: nat | m.end <= e ensures Matches(YearsPattern(u), line, m.(end := e)) == [] {
      YearsMatches(u, line, m.(end := e));
    }
    StarDead(Dot(), false, YearsPattern(u), line, m);
  }

  /** The match whose groups are the years at `j`. */
  function YearsMatch(u: Unicode, s: string, j: nat): Match
    requires IsYear(u, s, j)
  {
    match RangeEnd(u, s, j)
    case None => Match(j + 4, map[1 := (j, j + 4)])
    case Some(b) => Match(b + 4, map[1 := (j, j + 4), 2 := (b, b + 4)])
  }

  lemma {:induction false} ReadYears(u: Unicode, s: string, j: nat)
    requires IsYear(u, s, j)
    ensures ReadsAs(u, s, YearsMatch(u, s, j), YearsAt(u, s, j))
  {
    YearIsInt(u, s, j);
    if RangeEnd(u, s, j).Some? {
      YearIsInt(u, s, RangeEnd(u, s, j).value);
    }
  }

  lemma {:induction false} ParseMatch(u: Unicode, line: string, i: nat, j: nat)
    requires '\n' !in line && At(line, TOKEN, i) && FirstYear(u, line, i + |TOKEN|) == Some(j)
    ensures Matches(ParsePattern(u), line, Start(i)) != []
    ensures Matches(ParsePattern(u), line, Start(i))[0] == YearsMatch(u, line, j)
  {
    hide Matches;
    var m, dot := Start(i + |TOKEN|), Dot();
    TokenThen(u, line, i);
    forall k: nat | m.end <= k < j ensures Matches(YearsPattern(u), line, m.(end := k)) == [] {
      YearsMatches(u, line, m.(end := k));
    }
    YearsMatches(u, line, m.(end := j));
    LazyRun(dot, YearsPattern(u), line, m, j);
    var none: map<nat, (nat, nat)> := map[];
    assert none[1 := (j, j + 4)] == map[1 := (j, j + 4)];
  }

  /** `re.sub(r'(\d{4})', r'\g<1> - target', line, count=1)`. */
  lemma {:induction false} ExtendYearIsSub(u: Unicode, line: string, target: int)
    ensures ExtendYear(u, line, target) == SubOnce(SinglePattern(u), line, " - " + IntNumeral(target))
  {
    hide Matches;
    var p := SinglePattern(u);
    forall k: nat | !IsYear(u, line, k) ensures Matches(p, line, Start(k)) == [] {
      YearGroupMatches(u, 1, line, Start(k));
    }
    match FirstYear(u, line, 0)
    case None => SearchNone(p, line, 0);
    case Some(k) =>
      YearGroupMatches(u, 1, line, Start(k));
      SearchIs(p, line, 0, k);
      assert line[..k + 4] == line[..k] + line[k..k + 4];
  }

  /** `re.sub(r'(\d{4}\s*[-–—]\s*)(\d{4})', r'\g<1>target', line, count=1)`. */
  lemma {:induction false} ReplaceEndIsSub(u: Unicode, line: string, target: int)
    ensures ReplaceEnd(u, line, target) == SubOnce(RangePattern(u), line, IntNumeral(target))
  {
    hide Matches;
    var p := RangePattern(u);
    forall k: nat | k <= |line| && RangeEnd(u, line, k).None? ensures Matches(p, line, Start(k)) == [] {
      RangeMatches(u, line, k);
    }
    hide RangePattern;
    match FirstRange(u, line, 0)
    case None => SearchNone(p, line, 0);
    case Some(k) =>
      RangeMatches(u, line, k);
      SearchIs(p, line, 0, k);
      ReplaceText(u, line, target, k, RangeEnd(u, line, k).value);
  }

  lemma {:induction false} ReplaceText(u: Unicode, line: string, target: int, k: nat, b: nat)
    requires FirstRange(u, line, 0) == Some(k) && RangeEnd(u, line, k) == Some(b)
    ensures ReplaceEnd(u, line, target) == line[..k] + line[k..b] + IntNumeral(target) + line[b + 4..]
  {
    assert line[..b] == line[..k] + line[k..b];
  }

  lemma {:induction false} RangeHeadMatches(u: Unicode, s: string, i: nat)
    ensures Matches(RangeHead(u), s, Start(i))
         == if IsYear(u, s, i) && SkipSpaces(u, s, i + 4) < |s| && IsDash(s[SkipSpaces(u, s, i + 4)])
            then StarMatches(Space(u), true, s, Start(SkipSpaces(u, s, i + 4) + 1))
            else []
  {
    var next := Cat(Spaces(u), Cat(Class(Dash()), Spaces(u)));
    FourDigitMatches(u, s, Start(i));
    if IsYear(u, s, i) {
      assert Matches(RangeHead(u), s, Start(i)) == Each(next, s, [Start(i + 4)]);
      EachOne(next, s, Start(i + 4));
      SpacesDashThen(u, Spaces(u), s, Start(i + 4), SkipSpaces(u, s, i + 4));
    } else {
      assert Matches(RangeHead(u), s, Start(i)) == Each(next, s, []);
    }
  }

  function RangeMatch(i: nat, b: nat): Match {
    Match(b + 4, map[1 := (i, b)][2 := (b, b + 4)])
  }

  lemma {:induction false} RangeMatches(u: Unicode, s: string, i: nat)
    ensures Matches(RangePattern(u), s, Start(i))
         == match RangeEnd(u, s, i)
            case None => []
            case Some(b) => [RangeMatch(i, b)]
  {
    hide Matches;
    CatMatches(Group(1, RangeHead(u)), Group(2, FourDigit(u)), s, Start(i));
    GroupMatches(1, RangeHead(u), s, Start(i));
    RangeHeadMatches(u, s, i);
    if IsYear(u, s, i) && SkipSpaces(u, s, i + 4) < |s| && IsDash(s[SkipSpaces(u, s, i + 4)]) {
      RangeYear(u, s, i, SkipSpaces(u, s, i + 4) + 1);
    } else {
      assert Capture(1, i, []) == [];
    }
  }

  /** Group 2 after group 1 stopped somewhere among the spaces after the dash. */
  lemma {:induction false} RangeYear(u: Unicode, s: string, i: nat, a: nat)
    requires a <= |s|
    ensures var b := SkipSpaces(u, s, a);
         && Each(Group(2, FourDigit(u)), s, Capture(1, i, StarMatches(Space(u), true, s, Start(a))))
         == if IsYear(u, s, b) then [RangeMatch(i, b)] else []
  {
    hide Matches;
    var b := SkipSpaces(u, s, a);
    CapturedRun(u, s, i, Start(a), b);
    YearGroupMatches(u, 2, s, Match(b, map[1 := (i, b)]));
  }

  lemma {:induction false} CaptureAppend(n: nat, start: nat, a: seq<Match>, b: seq<Match>)
    ensures Capture(n, start, a + b) == Capture(n, start, a) + Capture(n, start, b)
  {
  }

  /** Capturing a greedy run of spaces before a year: only the longest run survives. */
  lemma {:induction false} CapturedRun(u: Unicode, s: string, start: nat, m: Match, stop: nat)
    requires m.groups == map[] && m.end <= stop <= |s|
    requires forall k :: m.end <= k < stop ==> IsSpace(u, s[k])
    requires stop < |s| ==> !IsSpace(u, s[stop])
    ensures Each(Group(2, FourDigit(u)), s, Capture(1, start, StarMatches(Space(u), true, s, m)))
         == Matches(Group(2, FourDigit(u)), s, Match(stop, map[1 := (start, stop)]))
    decreases stop - m.end
  {
    hide Matches;
    var year := Group(2, FourDigit(u));
    var captured := Match(m.end, map[1 := (start, m.end)]);
    assert Capture(1, start, [m]) == [captured];
    EachOne(year, s, captured);
    if m.end < stop {
      var m' := m.(end := m.end + 1);
      CapturedRun(u, s, start, m', stop);
      var longer := StarMatches(Space(u), true, s, m');
      assert StarMatches(Space(u), true, s, m) == longer + [m];
      CaptureAppend(1, start, longer, [m]);
      EachAppend(year, s, Capture(1, start, longer), [captured]);
      YearGroupMatches(u, 2, s, captured);
    } else {
      assert StarMatches(Space(u), true, s, m) == [m];
    }
  }
}
