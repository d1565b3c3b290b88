/** Rewriting lines and whole files, and what a second run reads back. */
module CopyrightRewrite {
  import opened Text
  import opened Regex
  import opened CopyrightPatterns

  // ----- lines -----

  predicate Tagged(line: string) { Find(line, TOKEN, 0).Some? }

  /** `update_copyright_line`: `end` is the end year of the file's parsed line. */
  function UpdateLine(u: Unicode, line: string, end: Option<int>, target: int): string {
    if end.None? then ExtendYear(u, line, target) else ReplaceEnd(u, line, target)
  }

  predicate NeedsUpdate(years: Years, target: int) {
    match years.end
    case None => years.start != target
    case Some(e) => e != target
  }

  /** The update's own pattern matches somewhere before the SPDX token. */
  ghost predicate MatchBeforeToken(u: Unicode, line: string, end: Option<int>) {
    && Tagged(line)
    && var i := Find(line, TOKEN, 0).value;
    && if end.None? then exists k: nat :: k < i && IsYear(u, line, k)
       else exists k: nat :: k < i && RangeEnd(u, line, k).Some?
  }

  /** The text right after the parsed year, or after the parsed end year. */
  function Rest(u: Unicode, line: string): string
    requires ParseLine(u, line).Some?
  {
    var j := FirstYear(u, line, Find(line, TOKEN, 0).value + |TOKEN|).value;
    match RangeEnd(u, line, j)
    case None => line[j + 4..]
    case Some(b) => line[b + 4..]
  }

  /** The years a reader sees once the target has been written in front of `rest`. */
  function ReadBack(u: Unicode, years: Years, target: int, rest: string): Years {
    var tail := IntNumeral(target) + rest;
    Years(years.start, if IsYear(u, tail, 0) then Some(YearAt(u, tail, 0)) else None)
  }

  // ----- locality of the scans -----

  lemma {:induction false} SkipSpacesIs(u: Unicode, s: string, i: nat, r: nat)
    requires i <= r <= |s|
    requires forall k :: i <= k < r ==> IsSpace(u, s[k])
    requires r < |s| ==> !IsSpace(u, s[r])
    ensures SkipSpaces(u, s, i) == r
    decreases r - i
  {
    if i < r {
      SkipSpacesIs(u, s, i + 1, r);
    }
  }

  lemma {:induction false} FirstYearIs(u: Unicode, s: string, from: nat, j: nat)
    requires from <= j && IsYear(u, s, j)
    requires forall k: nat :: from <= k < j ==> !IsYear(u, s, k)
    ensures FirstYear(u, s, from) == Some(j)
    decreases j - from
  {
    if from < j {
      FirstYearIs(u, s, from + 1, j);
    }
  }

  lemma {:induction false} YearShift(u: Unicode, a: string, b: string, i: nat)
    ensures IsYear(u, a + b, |a| + i) == IsYear(u, b, i)
    ensures IsYear(u, b, i) ==> YearAt(u, a + b, |a| + i) == YearAt(u, b, i)
  {
    var s := a + b;
    if i + 4 <= |b| {
      assert s[|a| + i] == b[i] && s[|a| + i + 1] == b[i + 1] && s[|a| + i + 2] == b[i + 2] && s[|a| + i + 3] == b[i + 3];
    }
  }

  lemma {:induction false} SkipSpacesShift(u: Unicode, a: string, b: string, i: nat, k: nat)
    requires i <= |b| && k == |a| + i
    ensures SkipSpaces(u, a + b, k) == |a| + SkipSpaces(u, b, i)
  {
    SkipSpacesIs(u, a + b, k, |a| + SkipSpaces(u, b, i));
  }

  lemma {:induction false} RangeEndIs(u: Unicode, s: string, i: nat, a: nat, b: nat)
    requires a == SkipSpaces(u, s, i + 4) && b == SkipSpaces(u, s, a + 1)
    ensures RangeEnd(u, s, i)
         == if IsYear(u, s, i) && a < |s| && IsDash(s[a]) && IsYear(u, s, b) then Some(b) else None
  {
  }

  lemma {:induction false} RangeEndShift(u: Unicode, a: string, b: string, i: nat)
    ensures RangeEnd(u, a + b, |a| + i)
         == match RangeEnd(u, b, i) case None => None case Some(e) => Some(|a| + e)
  {
    hide RangeEnd, SkipSpaces, IsYear;
    if |b| <= i + 4 {
      RangeEndShort(u, b, i);
      RangeEndShort(u, a + b, |a| + i);
    } else {
      var k, x := |a| + i, SkipSpaces(u, b, i + 4);
      var y, e := |a| + x, SkipSpaces(u, b, x + 1);
      YearShift(u, a, b, i);
      SkipSpacesShift(u, a, b, i + 4, k + 4);
      if x < |b| {
        SkipSpacesShift(u, a, b, x + 1, y + 1);
        YearShift(u, a, b, e);
        RangeEndIs(u, b, i, x, e);
        RangeEndIs(u, a + b, k, y, |a| + e);
        assert (a + b)[y] == b[x];
      } else {
        RangeEndIs(u, b, i, x, e);
        RangeEndIs(u, a + b, k, y, SkipSpaces(u, a + b, y + 1));
      }
    }
  }

  lemma {:induction false} RangeEndShort(u: Unicode, s: string, i: nat)
    requires |s| <= i + 4
    ensures RangeEnd(u, s, i) == None
  {
  }

  /** Parsing from a position depends only on the text from there on. */
  lemma {:induction false} ParseFromShift(u: Unicode, a: string, b: string)
    ensures ParseFrom(u, a + b, |a|) == ParseFrom(u, b, 0)
  {
    YearShift(u, a, b, match FirstYear(u, b, 0) case None => 0 case Some(j) => j);
    match FirstYear(u, b, 0)
    case None =>
      forall k: nat | |a| <= k ensures !IsYear(u, a + b, k) {
        YearShift(u, a, b, k - |a|);
      }
    case Some(j) =>
      forall k: nat | |a| <= k < |a| + j ensures !IsYear(u, a + b, k) {
        YearShift(u, a, b, k - |a|);
      }
      FirstYearIs(u, a + b, |a|, |a| + j);
      YearsShift(u, a, b, j);
  }

  lemma {:induction false} YearsShift(u: Unicode, a: string, b: string, j: nat)
    requires IsYear(u, b, j) && IsYear(u, a + b, |a| + j)
    ensures YearsAt(u, a + b, |a| + j) == YearsAt(u, b, j)
  {
    hide IsYear;
    YearShift(u, a, b, j);
    RangeEndShift(u, a, b, j);
    match RangeEnd(u, b, j)
    case None =>
    case Some(e) => YearShift(u, a, b, e);
  }

  // ----- the token -----

  lemma {:induction false} AtChar(s: string, t: string, i: nat, q: nat)
    requires At(s, t, i) && q < |t|
    ensures s[i + q] == t[q]
  {
    assert s[i..i + |t|][q] == t[q];
  }

  lemma {:induction false} OnlyLastIsColon(q: nat)
    requires q < |TOKEN|
    ensures TOKEN[q] == ':' <==> q == |TOKEN| - 1
  {
  }

  ghost predicate TokenFree(s: string) { forall k: nat :: !At(s, TOKEN, k) }

  /** The token does not overlap itself, so gluing it on after a text free of it
      makes the join its first occurrence. */
  lemma {:induction false} FirstToken(pre: string, post: string)
    requires TokenFree(pre)
    ensures Find(pre + TOKEN + post, TOKEN, 0) == Some(|pre|)
  {
    var s := pre + TOKEN + post;
    assert s[|pre|..|pre| + |TOKEN|] == TOKEN;
    forall k: nat | k < |pre| ensures !At(s, TOKEN, k) {
      assert s == pre + (TOKEN + post);
      if k + |TOKEN| <= |pre| {
        AtPrefix(pre, TOKEN + post, TOKEN, k);
      } else {
        var last := k + |TOKEN| - 1;
        assert s[last] == TOKEN[last - |pre|];
        OnlyLastIsColon(last - |pre|);
        if At(s, TOKEN, k) {
          AtChar(s, TOKEN, k, |TOKEN| - 1);
        }
      }
    }
    FindIs(s, TOKEN, 0, |pre|);
  }

  /** Text that can be inserted anywhere without forming a token. */
  predicate Inert(ins: string) {
    && |ins| >= 1
    && 'S' !in ins
    && (ins[0] !in TOKEN || (ins[0] == '-' && |ins| >= 2 && ins[1] != 'F'))
  }

  lemma {:induction false} TargetInert(target: int)
    ensures Inert(IntNumeral(target))
    ensures Inert(" - " + IntNumeral(target))
    ensures '\n' !in IntNumeral(target)
  {
    var t := IntNumeral(target);
    var digits := if target < 0 then Numeral(-target) else Numeral(target);
    forall c | c in digits ensures '0' <= c <= '9' {
    }
    assert t == if target < 0 then "-" + digits else digits;
    assert '0' <= digits[0] <= '9';
    assert forall c :: c in TOKEN ==> !('0' <= c <= '9') && c != ' ';
  }

  lemma {:induction false} TokenStartsWithS(s: string, k: nat)
    requires k < |s| && s[k] != 'S'
    ensures !At(s, TOKEN, k)
  {
    if k + |TOKEN| <= |s| {
      assert s[k..k + |TOKEN|][0] == s[k];
    }
  }

  /** Inside the token, a dash is followed by an 'F'. */
  lemma {:induction false} InsertedInToken(s: string, k: nat, a: nat)
    requires At(s, TOKEN, k) && k <= a < k + |TOKEN|
    ensures s[a] in TOKEN
    ensures s[a] == '-' ==> a + 1 < |s| && s[a + 1] == 'F'
  {
    AtChar(s, TOKEN, k, a - k);
    if s[a] == '-' {
      assert a - k == 4;
      AtChar(s, TOKEN, k, 5);
    }
  }

  lemma {:induction false} NoTokenMade(pre: string, a: nat, b: nat, ins: string)
    requires a <= b <= |pre| && Inert(ins)
    requires TokenFree(pre)
    ensures TokenFree(pre[..a] + ins + pre[b..])
  {
    var s := pre[..a] + ins + pre[b..];
    forall k: nat ensures !At(s, TOKEN, k) {
      if k + |TOKEN| <= a {
        AtPrefix(pre[..a], ins + pre[b..], TOKEN, k);
        AtPrefix(pre[..a], pre[a..], TOKEN, k);
        assert s == pre[..a] + (ins + pre[b..]) && pre == pre[..a] + pre[a..];
      } else if k >= a + |ins| {
        var q := k - a - |ins|;
        AtSuffix(pre[..a] + ins, pre[b..], TOKEN, q);
        AtSuffix(pre[..b], pre[b..], TOKEN, q);
        assert pre == pre[..b] + pre[b..];
        assert !At(pre, TOKEN, b + q);
      } else if k + |TOKEN| <= |s| {
        if k > a {
          assert s[k] == ins[k - a] && ins[k - a] in ins;
          TokenStartsWithS(s, k);
        } else {
          assert s[a] == ins[0] && (|ins| >= 2 ==> s[a + 1] == ins[1]);
          if At(s, TOKEN, k) {
            InsertedInToken(s, k, a);
          }
        }
      }
    }
  }

  /** Editing the text before the token leaves what is parsed unchanged. */
  lemma {:induction false} EditBeforeToken(u: Unicode, line: string, i: nat, a: nat, b: nat, ins: string)
    requires Find(line, TOKEN, 0) == Some(i) && a <= b <= i && Inert(ins)
    ensures ParseLine(u, line[..a] + ins + line[b..]) == ParseLine(u, line)
    ensures Find(line[..a] + ins + line[b..], TOKEN, 0) == Some(i + |ins| - (b - a))
  {
    hide *;
    TokenFits(line, i);
    PrefixTokenFree(line, i);
    EditGlued(u, line[..i], line[i + |TOKEN|..], a, b, ins);
    Around(line, TOKEN, i, a, b, ins);
  }

  lemma {:induction false} EditGlued(u: Unicode, pre: string, post: string, a: nat, b: nat, ins: string)
    requires TokenFree(pre) && a <= b <= |pre| && Inert(ins)
    ensures ParseLine(u, pre[..a] + ins + pre[b..] + TOKEN + post) == ParseLine(u, pre + TOKEN + post)
    ensures Find(pre[..a] + ins + pre[b..] + TOKEN + post, TOKEN, 0) == Some(|pre| + |ins| - (b - a))
  {
    hide *;
    NoTokenMade(pre, a, b, ins);
    ParseGlued(u, pre, post);
    ParseGlued(u, pre[..a] + ins + pre[b..], post);
  }

  lemma {:induction false} TokenFits(line: string, i: nat)
    requires Find(line, TOKEN, 0) == Some(i)
    ensures i + |TOKEN| <= |line|
  {
    hide Find;
  }

  lemma {:induction false} PrefixTokenFree(line: string, i: nat)
    requires Find(line, TOKEN, 0) == Some(i)
    ensures TokenFree(line[..i])
  {
    forall k: nat ensures !At(line[..i], TOKEN, k) {
      NoneInPrefix(line, TOKEN, i, k);
    }
  }

  lemma {:induction false} ParseGlued(u: Unicode, pre: string, post: string)
    requires TokenFree(pre)
    ensures ParseLine(u, pre + TOKEN + post) == ParseFrom(u, post, 0)
    ensures Find(pre + TOKEN + post, TOKEN, 0) == Some(|pre|)
  {
    hide ParseFrom, TokenFree;
    FirstToken(pre, post);
    ParseFromShift(u, pre + TOKEN, post);
  }

  lemma {:induction false} Around(line: string, t: string, i: nat, a: nat, b: nat, ins: string)
    requires Find(line, t, 0) == Some(i) && a <= b <= i
    ensures line == line[..i] + t + line[i + |t|..]
    ensures line[..a] + ins + line[b..] == line[..i][..a] + ins + line[..i][b..] + t + line[i + |t|..]
  {
    assert line == line[..i] + line[i..i + |t|] + line[i + |t|..];
    assert line[b..] == line[..i][b..] + t + line[i + |t|..];
  }

  lemma {:induction false} NoneInPrefix(line: string, t: string, i: nat, k: nat)
    requires |t| >= 1 && Find(line, t, 0) == Some(i)
    ensures !At(line[..i], t, k)
  {
    assert line == line[..i] + line[i..];
    if k + |t| <= i {
      AtPrefix(line[..i], line[i..], t, k);
    }
  }

  // ----- where an update can touch a tagged line -----

  lemma {:induction false} TokenHasNoDigit(u: Unicode, line: string, i: nat, q: nat)
    requires At(line, TOKEN, i) && q < |TOKEN|
    ensures !IsDigit(u, line[i + q]) && !IsSpace(u, line[i + q])
  {
    AtChar(line, TOKEN, i, q);
  }

  lemma {:induction false} YearMissesToken(u: Unicode, line: string, i: nat, k: nat)
    requires At(line, TOKEN, i) && IsYear(u, line, k) && k < i + |TOKEN|
    ensures k + 4 <= i
  {
    if i < k + 4 {
      var q := if k < i then 0 else k - i;
      assert i + q == k || i + q == k + 1 || i + q == k + 2 || i + q == k + 3;
      TokenHasNoDigit(u, line, i, q);
    }
  }

  lemma {:induction false} RangeMissesToken(u: Unicode, line: string, i: nat, k: nat)
    requires At(line, TOKEN, i) && RangeEnd(u, line, k).Some? && k < i + |TOKEN|
    ensures RangeEnd(u, line, k).value + 4 <= i
  {
    YearMissesToken(u, line, i, k);
    AtChar(line, TOKEN, i, 0);
    TokenHasNoDigit(u, line, i, 0);
    var a := SkipSpaces(u, line, k + 4);
    var b := SkipSpaces(u, line, a + 1);
    assert a < i && b < i;
    YearMissesToken(u, line, i, b);
  }

  /** A line whose parse position is kept keeps its first year there. */
  lemma {:induction false} KeepPrefix(u: Unicode, line: string, line': string, i: nat, j: nat)
    requires Find(line, TOKEN, 0) == Some(i) && FirstYear(u, line, i + |TOKEN|) == Some(j)
    requires j + 4 <= |line'| && line'[..j + 4] == line[..j + 4]
    ensures Find(line', TOKEN, 0) == Some(i) && FirstYear(u, line', i + |TOKEN|) == Some(j)
    ensures YearAt(u, line', j) == YearAt(u, line, j)
  {
    var p := line[..j + 4];
    assert line == p + line[j + 4..] && line' == p + line'[j + 4..];
    forall k: nat | k <= i ensures At(line', TOKEN, k) == At(line, TOKEN, k) {
      AtPrefix(p, line[j + 4..], TOKEN, k);
      AtPrefix(p, line'[j + 4..], TOKEN, k);
    }
    FindIs(line', TOKEN, 0, i);
    forall k | 0 <= k < j + 4 ensures line'[k] == line[k] {
      assert line'[k] == line'[..j + 4][k];
    }
    forall k: nat | i + |TOKEN| <= k < j ensures !IsYear(u, line', k) {
      assert !IsYear(u, line, k);
    }
    FirstYearIs(u, line', i + |TOKEN|, j);
  }

  /** The range read after a year that gained " - tail". */
  lemma {:induction false} RangeAfterExtend(u: Unicode, head: string, tail: string, j: nat)
    requires |head| == j + 4 && IsYear(u, head, j) && |tail| >= 1 && !IsSpace(u, tail[0])
    ensures var s := head + " - " + tail;
         && IsYear(u, s, j)
         && RangeEnd(u, s, j) == (if IsYear(u, tail, 0) then Some(j + 7) else None)
         && (IsYear(u, tail, 0) ==> YearAt(u, s, j + 7) == YearAt(u, tail, 0))
  {
    var s := head + " - " + tail;
    assert s[j] == head[j] && s[j + 1] == head[j + 1] && s[j + 2] == head[j + 2] && s[j + 3] == head[j + 3];
    assert s[j + 4] == ' ' && s[j + 5] == '-' && s[j + 6] == ' ' && s[j + 7] == tail[0];
    SkipSpacesIs(u, s, j + 4, j + 5);
    SkipSpacesIs(u, s, j + 6, j + 7);
    YearShift(u, head + " - ", tail, 0);
  }

  /** The range read when everything from its end year on is replaced. */
  lemma {:induction false} RangeAfterReplace(u: Unicode, line: string, tail: string, j: nat, b: nat)
    requires RangeEnd(u, line, j) == Some(b) && |tail| >= 1 && !IsSpace(u, tail[0])
    ensures var s := line[..b] + tail;
         && IsYear(u, s, j)
         && RangeEnd(u, s, j) == (if IsYear(u, tail, 0) then Some(b) else None)
         && (IsYear(u, tail, 0) ==> YearAt(u, s, b) == YearAt(u, tail, 0))
  {
    var s := line[..b] + tail;
    var a := SkipSpaces(u, line, j + 4);
    assert forall k :: 0 <= k < b ==> s[k] == line[k];
    assert s[b] == tail[0];
    SkipSpacesIs(u, s, j + 4, a);
    SkipSpacesIs(u, s, a + 1, b);
    YearShift(u, line[..b], tail, 0);
  }

  lemma {:induction false} FirstNotSpace(u: Unicode, target: int)
    ensures !IsSpace(u, IntNumeral(target)[0])
  {
    var c := IntNumeral(target)[0];
    assert c == '-' || '0' <= c <= '9';
  }

  /** Any text put after " - " behind the parsed year: what is parsed afterwards. */
  lemma {:induction false} TailAppended(u: Unicode, line: string, i: nat, j: nat, tail: string)
    requires Find(line, TOKEN, 0) == Some(i) && FirstYear(u, line, i + |TOKEN|) == Some(j)
    requires |tail| >= 1 && !IsSpace(u, tail[0])
    ensures ParseLine(u, line[..j + 4] + " - " + tail)
         == Some(Years(YearAt(u, line, j), if IsYear(u, tail, 0) then Some(YearAt(u, tail, 0)) else None))
  {
    hide ParseLine, Find, At, SkipSpaces;
    var s := line[..j + 4] + " - " + tail;
    assert s[..j + 4] == line[..j + 4];
    KeepPrefix(u, line, s, i, j);
    ParseIs(u, s, i, j);
    RangeAfterExtend(u, line[..j + 4], tail, j);
  }

  /** Extending the parsed year: what is parsed afterwards. */
  lemma {:induction false} ExtendParsed(u: Unicode, line: string, i: nat, j: nat, target: int)
    requires Find(line, TOKEN, 0) == Some(i) && FirstYear(u, line, i + |TOKEN|) == Some(j)
    requires FirstYear(u, line, 0) == Some(j)
    ensures ParseLine(u, ExtendYear(u, line, target))
         == Some(ReadBack(u, YearsAt(u, line, j), target, line[j + 4..]))
  {
    hide ParseLine, Find, FirstYear, RangeEnd, IntNumeral;
    Reassociate(line[..j + 4], " - ", IntNumeral(target), line[j + 4..]);
    FirstNotSpace(u, target);
    TailAppended(u, line, i, j, IntNumeral(target) + line[j + 4..]);
  }

  lemma {:induction false} Reassociate(a: string, b: string, c: string, d: string)
    ensures a + b + c + d == (a + b) + (c + d)
    ensures a + b + c + d == a + (b + c) + d
    ensures a + c + d == a + (c + d)
    ensures a + b + c == a + (b + c)
  {
  }

  lemma {:induction false} KeepHead(line: string, b: nat, tail: string, n: nat)
    requires n <= b <= |line|
    ensures (line[..b] + tail)[..n] == line[..n]
  {
  }

  /** Any text put in place of the parsed end year and the rest: what is
      parsed afterwards. */
  lemma {:induction false} TailReplaced(u: Unicode, line: string, i: nat, j: nat, b: nat, tail: string)
    requires Find(line, TOKEN, 0) == Some(i) && FirstYear(u, line, i + |TOKEN|) == Some(j)
    requires RangeEnd(u, line, j) == Some(b) && |tail| >= 1 && !IsSpace(u, tail[0])
    ensures ParseLine(u, line[..b] + tail)
         == Some(Years(YearAt(u, line, j), if IsYear(u, tail, 0) then Some(YearAt(u, tail, 0)) else None))
  {
    KeepHead(line, b, tail, j + 4);
    KeepPrefix(u, line, line[..b] + tail, i, j);
    ParseIs(u, line[..b] + tail, i, j);
    RangeAfterReplace(u, line, tail, j, b);
  }

  /** Replacing the parsed end year: what is parsed afterwards. */
  lemma {:induction false} ReplaceParsed(u: Unicode, line: string, i: nat, j: nat, b: nat, target: int)
    requires Find(line, TOKEN, 0) == Some(i) && FirstYear(u, line, i + |TOKEN|) == Some(j)
    requires FirstRange(u, line, 0) == Some(j) && RangeEnd(u, line, j) == Some(b)
    ensures ParseLine(u, ReplaceEnd(u, line, target))
         == Some(ReadBack(u, YearsAt(u, line, j), target, line[b + 4..]))
  {
    hide ParseLine, Find, FirstYear, FirstRange, RangeEnd, IntNumeral;
    Reassociate(line[..b], [], IntNumeral(target), line[b + 4..]);
    FirstNotSpace(u, target);
    TailReplaced(u, line, i, j, b, IntNumeral(target) + line[b + 4..]);
  }

  lemma {:induction false} ParseIs(u: Unicode, line: string, i: nat, j: nat)
    requires Find(line, TOKEN, 0) == Some(i) && FirstYear(u, line, i + |TOKEN|) == Some(j)
    ensures ParseLine(u, line) == Some(YearsAt(u, line, j))
  {
  }

  // ----- what one update does to a line -----

  lemma {:induction false} ExtendBeforeToken(u: Unicode, line: string, i: nat, k: nat, target: int)
    requires Find(line, TOKEN, 0) == Some(i) && FirstYear(u, line, 0) == Some(k) && k < i + |TOKEN|
    ensures k < i && ParseLine(u, ExtendYear(u, line, target)) == ParseLine(u, line)
  {
    hide ParseLine;
    YearMissesToken(u, line, i, k);
    TargetInert(target);
    EditBeforeToken(u, line, i, k + 4, k + 4, " - " + IntNumeral(target));
    Reassociate(line[..k + 4], " - ", IntNumeral(target), line[k + 4..]);
  }

  lemma {:induction false} ReplaceEndIs(u: Unicode, line: string, target: int, k: nat, b: nat)
    requires FirstRange(u, line, 0) == Some(k) && RangeEnd(u, line, k) == Some(b)
    ensures ReplaceEnd(u, line, target) == line[..b] + IntNumeral(target) + line[b + 4..]
  {
  }

  lemma {:induction false} ReplaceBeforeToken(u: Unicode, line: string, i: nat, k: nat, target: int)
    requires Find(line, TOKEN, 0) == Some(i) && FirstRange(u, line, 0) == Some(k) && k < i + |TOKEN|
    ensures k < i && ParseLine(u, ReplaceEnd(u, line, target)) == ParseLine(u, line)
  {
    hide ParseLine;
    hide RangeEnd, FirstRange, IsYear, Find, At, SkipSpaces, ReplaceEnd;
    var b := RangeEnd(u, line, k).value;
    RangeMissesToken(u, line, i, k);
    ReplaceEndIs(u, line, target, k, b);
    TargetInert(target);
    EditBeforeToken(u, line, i, b, b + 4, IntNumeral(target));
  }

  /** After its own update, the parsed line reads back with the target as its
      end year, unless the update hit text before the token: then it reads back
      exactly as before. */
  lemma {:induction false} UpdatedLineReads(u: Unicode, line: string, target: int)
    requires ParseLine(u, line).Some?
    ensures var years := ParseLine(u, line).value;
         && ParseLine(u, UpdateLine(u, line, years.end, target))
         == Some(if MatchBeforeToken(u, line, years.end) then years
                 else ReadBack(u, years, target, Rest(u, line)))
  {
    hide IsYear, At, Find, FirstYear, RangeEnd, YearAt, ExtendYear, ReplaceEnd, MatchBeforeToken, ReadBack;
    var i := Find(line, TOKEN, 0).value;
    var j := FirstYear(u, line, i + |TOKEN|).value;
    match RangeEnd(u, line, j)
    case None => ExtendedLineReads(u, line, i, j, target);
    case Some(b) => ReplacedLineReads(u, line, i, j, b, target);
  }

  lemma {:induction false} ExtendedLineReads(u: Unicode, line: string, i: nat, j: nat, target: int)
    requires Find(line, TOKEN, 0) == Some(i) && FirstYear(u, line, i + |TOKEN|) == Some(j)
    ensures ParseLine(u, ExtendYear(u, line, target))
         == Some(if MatchBeforeToken(u, line, None) then YearsAt(u, line, j)
                 else ReadBack(u, YearsAt(u, line, j), target, line[j + 4..]))
  {
    hide At, Find, FirstYear, RangeEnd, YearAt, ExtendYear, ReadBack;
    var k := FirstYear(u, line, 0).value;
    if k < i + |TOKEN| {
      ExtendBeforeToken(u, line, i, k, target);
      assert MatchBeforeToken(u, line, None);
    } else {
      hide ParseLine, YearsAt;
      assert k == j;
      ExtendParsed(u, line, i, j, target);
    }
  }

  lemma {:induction false} ReplacedLineReads(u: Unicode, line: string, i: nat, j: nat, b: nat, target: int)
    requires Find(line, TOKEN, 0) == Some(i) && FirstYear(u, line, i + |TOKEN|) == Some(j)
    requires RangeEnd(u, line, j) == Some(b)
    ensures ParseLine(u, ReplaceEnd(u, line, target))
         == Some(if MatchBeforeToken(u, line, Some(YearAt(u, line, b))) then YearsAt(u, line, j)
                 else ReadBack(u, YearsAt(u, line, j), target, line[b + 4..]))
  {
    hide IsYear, At, Find, FirstYear, RangeEnd, YearAt, ReplaceEnd, ReadBack, FirstRange;
    var k := FirstRange(u, line, 0).value;
    if k < i + |TOKEN| {
      ReplaceBeforeToken(u, line, i, k, target);
      assert MatchBeforeToken(u, line, Some(YearAt(u, line, b)));
    } else {
      hide ParseLine, YearsAt;
      assert k == j;
      ReplaceParsed(u, line, i, j, b, target);
    }
  }

  /** A line without a year after its token still has none after any update. */
  lemma {:induction false} UnparsedStaysUnparsed(u: Unicode, line: string, end: Option<int>, target: int)
    requires ParseLine(u, line).None? && Tagged(line)
    ensures ParseLine(u, UpdateLine(u, line, end, target)).None?
  {
    var i := Find(line, TOKEN, 0).value;
    assert FirstYear(u, line, i + |TOKEN|).None?;
    hide ParseLine, IsYear, At;
    if end.None? {
      match FirstYear(u, line, 0)
      case None =>
      case Some(k) => ExtendBeforeToken(u, line, i, k, target);
    } else {
      match FirstRange(u, line, 0)
      case None =>
      case Some(k) => ReplaceBeforeToken(u, line, i, k, target);
    }
  }

  lemma {:induction false} AsciiYear(u: Unicode, s: string, a: nat, b: nat, c: nat, d: nat)
    requires a < 10 && b < 10 && c < 10 && d < 10
    requires [DigitChar(a), DigitChar(b), DigitChar(c), DigitChar(d)] <= s
    ensures IsYear(u, s, 0) && YearAt(u, s, 0) == 1000 * a + 100 * b + 10 * c + d
  {
    assert s[0] == DigitChar(a) && s[1] == DigitChar(b) && s[2] == DigitChar(c) && s[3] == DigitChar(d);
  }

  /** A four-digit target is read back whatever follows it. */
  lemma {:induction false} FourDigitTargetReads(u: Unicode, years: Years, target: int, rest: string)
    requires 1000 <= target <= 9999
    ensures ReadBack(u, years, target, rest) == Years(years.start, Some(target))
  {
    var a, b, c, d := FourDigits(target);
    hide IntNumeral, IsYear, YearAt, DigitChar;
    AsciiYear(u, IntNumeral(target) + rest, a, b, c, d);
  }

  /** A target that no four digits can denote is never read back. */
  lemma {:induction false} OtherTargetNeverReads(u: Unicode, years: Years, target: int, rest: string)
    requires target < 0 || 9999 < target
    requires 0 <= years.start <= 9999
    ensures NeedsUpdate(ReadBack(u, years, target, rest), target)
  {
  }

  // ----- files -----

  const HEADER_LINES := 20

  /** The first of the leading lines, from `i` on, that has a year after its token. */
  function SelectFrom(u: Unicode, lines: seq<string>, i: nat): (r: Option<nat>)
    ensures r.Some? ==> i <= r.value < |lines| && r.value < HEADER_LINES
    decreases |lines| - i
  {
    if i >= |lines| || i >= HEADER_LINES then None
    else if ParseLine(u, lines[i]).Some? then Some(i)
    else SelectFrom(u, lines, i + 1)
  }

  lemma {:induction false} SelectIs(u: Unicode, lines: seq<string>, i: nat, r: nat)
    requires i <= r < |lines| && r < HEADER_LINES
    requires ParseLine(u, lines[r]).Some?
    requires forall k :: i <= k < r ==> ParseLine(u, lines[k]).None?
    ensures SelectFrom(u, lines, i) == Some(r)
    decreases r - i
  {
    hide ParseLine;
    if i < r {
      SelectIs(u, lines, i + 1, r);
    }
  }

  lemma {:induction false} Selected(u: Unicode, lines: seq<string>, i: nat)
    requires SelectFrom(u, lines, i).Some?
    ensures ParseLine(u, lines[SelectFrom(u, lines, i).value]).Some?
    ensures forall k :: i <= k < SelectFrom(u, lines, i).value ==> ParseLine(u, lines[k]).None?
    decreases |lines| - i
  {
    hide ParseLine;
    if ParseLine(u, lines[i]).None? {
      Selected(u, lines, i + 1);
    }
  }

  function ParseLines(u: Unicode, lines: seq<string>): Option<Years> {
    match SelectFrom(u, lines, 0)
    case None => None
    case Some(i) => ParseLine(u, lines[i])
  }

  function RewriteLine(u: Unicode, line: string, end: Option<int>, target: int): string {
    if Tagged(line) then UpdateLine(u, line, end, target) else line
  }

  function RewriteLines(u: Unicode, lines: seq<string>, end: Option<int>, target: int): (r: seq<string>)
    ensures |r| == |lines|
    ensures forall i {:trigger r[i]} :: 0 <= i < |lines| ==> r[i] == RewriteLine(u, lines[i], end, target)
  {
    seq(|lines|, i requires 0 <= i < |lines| => RewriteLine(u, lines[i], end, target))
  }

  datatype Verdict = NoCopyright | UpToDate | Rewritten(text: string)

  /** What processing decides about a file with this content. */
  function Process(u: Unicode, content: string, target: int): Verdict {
    var lines := Split(content, '\n');
    match ParseLines(u, lines)
    case None => NoCopyright
    case Some(years) =>
      if NeedsUpdate(years, target)
      then Rewritten(Join(RewriteLines(u, lines, years.end, target), '\n'))
      else UpToDate
  }

  /** The line that decides about the file. */
  function SelectedLine(u: Unicode, content: string): Option<string> {
    var lines := Split(content, '\n');
    match SelectFrom(u, lines, 0)
    case None => None
    case Some(i) => Some(lines[i])
  }

  // ----- the verdict, in terms of the patterns -----

  /** Which line decides, and in which mode: the first of the first twenty lines
      in which `re.search` finds the parse pattern. */
  lemma {:induction false} SelectedBySearch(u: Unicode, lines: seq<string>, i: nat)
    requires i < 20 && i < |lines| && forall l :: l in lines ==> '\n' !in l
    requires Search(ParsePattern(u), lines[i], 0).Some?
    requires forall k: nat :: k < i ==> Search(ParsePattern(u), lines[k], 0).None?
    ensures SelectFrom(u, lines, 0) == Some(i)
    ensures ParseLines(u, lines) == ParseLine(u, lines[i]) && ParseLine(u, lines[i]).Some?
    ensures ReadsAs(u, lines[i], Search(ParsePattern(u), lines[i], 0).value.1, ParseLine(u, lines[i]).value)
  {
    hide Search, ParsePattern, ParseLine, ReadsAs;
    assert lines[i] in lines;
    ParseLineIsSearch(u, lines[i]);
    forall k | 0 <= k < i ensures ParseLine(u, lines[k]).None? {
      assert lines[k] in lines;
      ParseLineIsSearch(u, lines[k]);
    }
    SelectIs(u, lines, 0, i);
  }

  /** A file is up to date exactly when the last year of the first match, its end
      year or else its only year, is the target; it is rewritten otherwise. */
  lemma {:induction false} VerdictBySearch(u: Unicode, content: string, target: int, i: nat)
    requires i < 20 && i < |Split(content, '\n')|
    requires Search(ParsePattern(u), Split(content, '\n')[i], 0).Some?
    requires forall k: nat :: k < i ==> Search(ParsePattern(u), Split(content, '\n')[k], 0).None?
    ensures var line := Split(content, '\n')[i];
            var m := Search(ParsePattern(u), line, 0).value.1;
            && 1 in m.groups
            && var year := if 2 in m.groups then m.groups[2] else m.groups[1];
            && year.0 <= year.1 <= |line|
            && (Process(u, content, target).UpToDate? <==> IntOf(u, line[year.0..year.1]) == target)
            && !Process(u, content, target).NoCopyright?
  {
    hide Search, ParsePattern, ParseLines, IntOf;
    SelectedBySearch(u, Split(content, '\n'), i);
  }

  /** A file counts as one without a notice exactly when none of its first twenty
      lines matches the parse pattern. */
  lemma {:induction false} NoNoticeBySearch(u: Unicode, content: string, target: int)
    ensures Process(u, content, target).NoCopyright?
       <==> forall k: nat :: k < 20 && k < |Split(content, '\n')| ==>
              Search(ParsePattern(u), Split(content, '\n')[k], 0).None?
  {
    var lines := Split(content, '\n');
    hide Search, ParsePattern, ParseLine;
    forall k: nat | k < |lines| ensures Search(ParsePattern(u), lines[k], 0).None? <==> ParseLine(u, lines[k]).None? {
      assert lines[k] in lines;
      ParseLineIsSearch(u, lines[k]);
    }
    match SelectFrom(u, lines, 0)
    case None => NoneSelected(u, lines, 0);
    case Some(i) =>
      Selected(u, lines, 0);
      assert ParseLines(u, lines).Some?;
      assert !Process(u, content, target).NoCopyright?;
      assert i < 20 && i < |Split(content, '\n')| && Search(ParsePattern(u), Split(content, '\n')[i], 0).Some?;
  }

  lemma {:induction false} NoneSelected(u: Unicode, lines: seq<string>, i: nat)
    requires SelectFrom(u, lines, i).None?
    ensures forall k: nat :: i <= k < |lines| && k < 20 ==> ParseLine(u, lines[k]).None?
    decreases |lines| - i
  {
    hide ParseLine;
    if i < |lines| && i < 20 {
      NoneSelected(u, lines, i + 1);
    }
  }

  /** What a rewritten file holds: each line with the token is what `re.sub` makes
      of it, with the range pattern if the deciding match has an end year and with
      the year pattern otherwise; the other lines are as they were. */
  lemma {:induction false} RewrittenBySearch(u: Unicode, content: string, target: int, i: nat, k: nat)
    requires i < 20 && i < |Split(content, '\n')|
    requires Search(ParsePattern(u), Split(content, '\n')[i], 0).Some?
    requires forall k: nat :: k < i ==> Search(ParsePattern(u), Split(content, '\n')[k], 0).None?
    requires Process(u, content, target).Rewritten? && k < |Split(content, '\n')|
    ensures var line := Split(content, '\n')[k];
            var m := Search(ParsePattern(u), Split(content, '\n')[i], 0).value.1;
            var after := Split(Process(u, content, target).text, '\n');
            && |after| == |Split(content, '\n')|
            && after[k] == if forall q: nat :: !At(line, "SPDX-FileCopyrightText:", q) then line
                           else if 2 in m.groups then SubOnce(RangePattern(u), line, IntNumeral(target))
                           else SubOnce(SinglePattern(u), line, " - " + IntNumeral(target))
  {
    hide Search, ParsePattern, IntNumeral, SubOnce, RangePattern, SinglePattern, ExtendYear, ReplaceEnd;
    var lines := Split(content, '\n');
    SelectedBySearch(u, lines, i);
    hide ParseLines, ParseLine, At;
    RewriteSplits(u, content, ParseLines(u, lines).value.end, target);
    ExtendYearIsSub(u, lines[k], target);
    ReplaceEndIsSub(u, lines[k], target);
  }

  // ----- a second run -----

  /** When a rewritten file counts as up to date the next time: the update's
      pattern does not match before the token of the selected line, and the
      target, written in front of what follows, reads as the target. */
  ghost predicate Settles(u: Unicode, line: string, target: int)
    requires ParseLine(u, line).Some?
  {
    var years := ParseLine(u, line).value;
    !MatchBeforeToken(u, line, years.end) && !NeedsUpdate(ReadBack(u, years, target, Rest(u, line)), target)
  }

  lemma {:induction false} UpdateAddsNoNewline(u: Unicode, line: string, end: Option<int>, target: int)
    requires '\n' !in line
    ensures '\n' !in RewriteLine(u, line, end, target)
  {
    TargetInert(target);
  }

  lemma {:induction false} RewriteSplits(u: Unicode, content: string, end: Option<int>, target: int)
    ensures var edited := RewriteLines(u, Split(content, '\n'), end, target);
            && Split(Join(edited, '\n'), '\n') == edited
  {
    var lines := Split(content, '\n');
    var edited := RewriteLines(u, lines, end, target);
    forall l | l in edited ensures '\n' !in l {
      var i :| 0 <= i < |edited| && edited[i] == l;
      UpdateAddsNoNewline(u, lines[i], end, target);
    }
    SplitJoin(edited, '\n');
  }

  /** Rewriting every tagged line moves neither the selected line nor its start year. */
  lemma {:induction false} SelectionStable(u: Unicode, lines: seq<string>, target: int)
    requires ParseLines(u, lines).Some?
    ensures var i := SelectFrom(u, lines, 0).value;
            var years := ParseLines(u, lines).value;
            var edited := RewriteLines(u, lines, years.end, target);
            && SelectFrom(u, edited, 0) == Some(i)
            && ParseLines(u, edited) == ParseLine(u, UpdateLine(u, lines[i], years.end, target))
            && ParseLines(u, edited).Some?
            && ParseLines(u, edited).value.start == years.start
  {
    assert forall l :: ParseLine(u, l).Some? ==> Tagged(l);
    hide ParseLine, UpdateLine;
    var i := SelectFrom(u, lines, 0).value;
    var years := ParseLines(u, lines).value;
    var edited := RewriteLines(u, lines, years.end, target);
    Selected(u, lines, 0);
    forall k | 0 <= k < i ensures ParseLine(u, edited[k]).None? {
      if Tagged(lines[k]) {
        UnparsedStaysUnparsed(u, lines[k], years.end, target);
      }
    }
    UpdatedLineReads(u, lines[i], target);
    SelectIs(u, edited, 0, i);
  }

  /** Processing a rewritten file again finds it up to date exactly when the
      selected line settles; otherwise it is rewritten once more. */
  lemma {:induction false} SecondRun(u: Unicode, content: string, target: int)
    requires Process(u, content, target).Rewritten?
    ensures var again := Process(u, Process(u, content, target).text, target);
            && (again.UpToDate? <==> Settles(u, SelectedLine(u, content).value, target))
            && (again.UpToDate? || again.Rewritten?)
  {
    var lines := Split(content, '\n');
    var years := ParseLines(u, lines).value;
    RewriteSplits(u, content, years.end, target);
    SelectionStable(u, lines, target);
    UpdatedLineReads(u, SelectedLine(u, content).value, target);
  }

  /** The update's pattern matches before the token of the selected line. */
  ghost predicate Unsettled(u: Unicode, content: string) {
    && SelectedLine(u, content).Some?
    && var line := SelectedLine(u, content).value;
    && ParseLine(u, line).Some?
    && MatchBeforeToken(u, line, ParseLine(u, line).value.end)
  }

  /** For the targets the script is meant for, only text before the token matters. */
  lemma {:induction false} SecondRunFourDigits(u: Unicode, content: string, target: int)
    requires 1000 <= target <= 9999
    requires Process(u, content, target).Rewritten?
    ensures Process(u, Process(u, content, target).text, target)
         == if Unsettled(u, content) then Rewritten(AfterRuns(u, content, target, 2)) else UpToDate
  {
    SecondRun(u, content, target);
    var line := SelectedLine(u, content).value;
    FourDigitTargetReads(u, ParseLine(u, line).value, target, Rest(u, line));
    assert AfterRuns(u, content, target, 0) == content;
    assert AfterRuns(u, content, target, 1) == Process(u, content, target).text;
  }

  lemma {:induction false} ExtendKeepsMatch(u: Unicode, line: string, i: nat, k: nat, target: int)
    requires Find(line, TOKEN, 0) == Some(i) && FirstYear(u, line, 0) == Some(k) && k < i
    ensures MatchBeforeToken(u, ExtendYear(u, line, target), None)
  {
    hide Find, FirstYear, ExtendYear, At, IntNumeral, ParseLine;
    ExtendIs(u, line, target, k);
    YearMissesToken(u, line, i, k);
    TargetInert(target);
    EditBeforeToken(u, line, i, k + 4, k + 4, " - " + IntNumeral(target));
    KeepYear(u, line, k, " - " + IntNumeral(target) + line[k + 4..]);
  }

  lemma {:induction false} ExtendIs(u: Unicode, line: string, target: int, k: nat)
    requires FirstYear(u, line, 0) == Some(k)
    ensures ExtendYear(u, line, target) == line[..k + 4] + (" - " + IntNumeral(target)) + line[k + 4..]
    ensures ExtendYear(u, line, target) == line[..k + 4] + (" - " + IntNumeral(target) + line[k + 4..])
  {
  }

  lemma {:induction false} KeepYear(u: Unicode, line: string, k: nat, tail: string)
    requires IsYear(u, line, k)
    ensures IsYear(u, line[..k + 4] + tail, k)
  {
    var s := line[..k + 4] + tail;
    assert s[k] == line[k] && s[k + 1] == line[k + 1] && s[k + 2] == line[k + 2] && s[k + 3] == line[k + 3];
  }

  lemma {:induction false} ReplaceKeepsMatch(u: Unicode, line: string, i: nat, k: nat, target: int)
    requires 1000 <= target <= 9999
    requires Find(line, TOKEN, 0) == Some(i) && FirstRange(u, line, 0) == Some(k) && k < i
    ensures MatchBeforeToken(u, ReplaceEnd(u, line, target), Some(target))
  {
    hide Find, FirstRange, ReplaceEnd, At, IntNumeral, RangeEnd, SkipSpaces;
    var b := RangeEnd(u, line, k).value;
    var tail := IntNumeral(target) + line[b + 4..];
    ReplaceEndIs(u, line, target, k, b);
    RangeMissesToken(u, line, i, k);
    TargetInert(target);
    EditBeforeToken(u, line, i, b, b + 4, IntNumeral(target));
    FirstNotSpace(u, target);
    Reassociate(line[..b], [], IntNumeral(target), line[b + 4..]);
    RangeAfterReplace(u, line, tail, k, b);
    FourDigitTargetReads(u, Years(0, None), target, line[b + 4..]);
  }

  /** The update of a line that matches before its token keeps that match. */
  lemma {:induction false} MatchBeforeTokenStays(u: Unicode, line: string, end: Option<int>, target: int)
    requires MatchBeforeToken(u, line, end) && 1000 <= target <= 9999
    ensures MatchBeforeToken(u, UpdateLine(u, line, end, target), end)
  {
    var i := Find(line, TOKEN, 0).value;
    hide ExtendYear, ReplaceEnd, At, Find, RangeEnd, IsYear;
    if end.None? {
      ExtendKeepsMatch(u, line, i, FirstYear(u, line, 0).value, target);
    } else {
      ReplaceKeepsMatch(u, line, i, FirstRange(u, line, 0).value, target);
      SameKind(u, UpdateLine(u, line, end, target), end, Some(target));
    }
  }

  /** A target outside 0..9999 is never reached: the next run rewrites the file again. */
  lemma {:induction false} SecondRunOtherTargets(u: Unicode, content: string, target: int)
    requires target < 0 || 9999 < target
    requires Process(u, content, target).Rewritten?
    ensures Process(u, Process(u, content, target).text, target).Rewritten?
  {
    SecondRun(u, content, target);
    var line := SelectedLine(u, content).value;
    OtherTargetNeverReads(u, ParseLine(u, line).value, target, Rest(u, line));
  }

  /** The file after `n` runs. */
  function AfterRuns(u: Unicode, content: string, target: int, n: nat): string {
    if n == 0 then content
    else
      var before := AfterRuns(u, content, target, n - 1);
      match Process(u, before, target)
      case Rewritten(text) => text
      case _ => before
  }

  /** So for such a target every run, however many, rewrites the file. */
  lemma {:induction false} LaterRunsOtherTargets(u: Unicode, content: string, target: int, n: nat)
    requires target < 0 || 9999 < target
    requires Process(u, content, target).Rewritten?
    ensures Process(u, AfterRuns(u, content, target, n), target).Rewritten?
  {
    hide Process;
    if n > 0 {
      LaterRunsOtherTargets(u, content, target, n - 1);
      SecondRunOtherTargets(u, AfterRuns(u, content, target, n - 1), target);
    }
  }

  /** All later runs: a file that needs updating is rewritten by the first run
      and by every later run if its selected line matches before the token, and
      by the first run only otherwise. */
  lemma {:induction false} LaterRuns(u: Unicode, content: string, target: int, n: nat)
    requires 1000 <= target <= 9999 && n >= 1
    requires Process(u, content, target).Rewritten?
    ensures Process(u, AfterRuns(u, content, target, n), target)
         == if Unsettled(u, content) then Rewritten(AfterRuns(u, content, target, n + 1)) else UpToDate
    decreases n
  {
    hide Process, Unsettled;
    var text := Process(u, content, target).text;
    SecondRunFourDigits(u, content, target);
    assert AfterRuns(u, content, target, 0) == content;
    assert AfterRuns(u, content, target, 1) == text;
    if n >= 2 {
      if Unsettled(u, content) {
        UnsettledStays(u, content, target);
        LaterRuns(u, text, target, n - 1);
        ShiftRuns(u, content, target, n - 1);
        ShiftRuns(u, content, target, n);
      } else {
        LaterRuns(u, content, target, n - 1);
      }
    }
  }

  lemma {:induction false} ShiftRuns(u: Unicode, content: string, target: int, n: nat)
    requires Process(u, content, target).Rewritten?
    ensures AfterRuns(u, content, target, n + 1) == AfterRuns(u, Process(u, content, target).text, target, n)
  {
    hide Process;
    if n == 0 {
      assert AfterRuns(u, content, target, 0) == content;
    } else {
      ShiftRuns(u, content, target, n - 1);
    }
  }

  /** One run keeps an unsettled file unsettled. */
  lemma {:induction false} UnsettledStays(u: Unicode, content: string, target: int)
    requires 1000 <= target <= 9999
    requires Process(u, content, target).Rewritten? && Unsettled(u, content)
    ensures Process(u, Process(u, content, target).text, target).Rewritten?
    ensures Unsettled(u, Process(u, content, target).text)
  {
    SecondRunFourDigits(u, content, target);
    hide MatchBeforeToken, UpdateLine, ParseLine;
    var lines := Split(content, '\n');
    var years := ParseLines(u, lines).value;
    var i := SelectFrom(u, lines, 0).value;
    RewriteSplits(u, content, years.end, target);
    SelectionStable(u, lines, target);
    UpdatedLineReads(u, lines[i], target);
    MatchBeforeTokenStays(u, lines[i], years.end, target);
    TaggedWhenParsed(u, lines[i]);
  }

  lemma {:induction false} TaggedWhenParsed(u: Unicode, line: string)
    requires ParseLine(u, line).Some?
    ensures Tagged(line)
  {
  }

  /** Such files exist: a year in front of the token is extended on every run. */
  lemma {:induction false} UnsettledExample(u: Unicode)
    ensures var content := "1999 " + TOKEN + " 2020";
         && Process(u, content, 2026).Rewritten?
         && Process(u, Process(u, content, 2026).text, 2026).Rewritten?
  {
    var content := "1999 " + TOKEN + " 2020";
    ExampleLine(u, content);
    SplitOne(content, '\n');
    SelectIs(u, [content], 0, 0);
    hide ParseLine, MatchBeforeToken;
    SecondRunFourDigits(u, content, 2026);
  }

  lemma {:induction false} ExampleLine(u: Unicode, line: string)
    requires line == "1999 " + TOKEN + " 2020"
    ensures '\n' !in line
    ensures ParseLine(u, line) == Some(Years(2020, None)) && MatchBeforeToken(u, line, None)
  {
    assert '\n' !in TOKEN && |TOKEN| > 5;
    hide *;
    assert TokenFree("1999 ") by { ShortIsFree("1999 "); }
    ParseGlued(u, "1999 ", " 2020");
    ExamplePost(u, " 2020");
    assert line[0] == '1' && line[1] == line[2] == line[3] == '9';
    ExampleMatch(u, line, 5);
  }

  lemma {:induction false} ShortIsFree(s: string)
    requires |s| < |TOKEN|
    ensures TokenFree(s)
  {
  }

  lemma {:induction false} ExampleMatch(u: Unicode, line: string, i: nat)
    requires Find(line, TOKEN, 0) == Some(i) && i > 0 && |line| >= 4
    requires line[0] == '1' && line[1] == line[2] == line[3] == '9'
    ensures MatchBeforeToken(u, line, None)
  {
    hide Find, At;
    assert IsYear(u, line, 0);
  }

  lemma {:induction false} ExamplePost(u: Unicode, post: string)
    requires post == " 2020"
    ensures ParseFrom(u, post, 0) == Some(Years(2020, None))
  {
    assert !IsYear(u, post, 0) && IsYear(u, post, 1) && YearAt(u, post, 1) == 2020;
    assert RangeEnd(u, post, 1).None?;
    FirstYearIs(u, post, 0, 1);
  }

  // ----- what happens to the other lines -----

  lemma {:induction false} SkipStops(u: Unicode, s: string, p: nat, k: nat)
    requires p <= k < |s| && !IsSpace(u, s[k])
    ensures SkipSpaces(u, s, p) <= k
  {
  }

  predicate SamePrefix(s: string, s': string, b: nat) {
    b <= |s| && b <= |s'| && forall q :: 0 <= q < b ==> s'[q] == s[q]
  }

  lemma {:induction false} SameSkip(u: Unicode, s: string, s': string, p: nat, b: nat)
    requires SamePrefix(s, s', b) && SkipSpaces(u, s, p) < b
    ensures SkipSpaces(u, s', p) == SkipSpaces(u, s, p)
  {
    SkipSpacesIs(u, s', p, SkipSpaces(u, s, p));
  }

  lemma {:induction false} SameAt(u: Unicode, s: string, s': string, q: nat, b: nat)
    requires SamePrefix(s, s', b)
    ensures q < b ==> s'[q] == s[q]
    ensures q + 4 <= b ==> IsYear(u, s', q) == IsYear(u, s, q)
  {
  }

  lemma {:induction false} YearChars(u: Unicode, s: string, k: nat, q: nat)
    requires IsYear(u, s, k) && k <= q < k + 4
    ensures !IsSpace(u, s[q]) && !IsDash(s[q])
  {
    assert q == k || q == k + 1 || q == k + 2 || q == k + 3;
  }

  /** A text that agrees up to a later year, inclusive, with one where the year
      at `j` starts no range. */
  lemma {:induction false} NoRangeMade(u: Unicode, line: string, s: string, j: nat, k: nat)
    requires IsYear(u, line, j) && RangeEnd(u, line, j).None? && j < k && IsYear(u, line, k)
    requires SamePrefix(line, s, k + 4)
    ensures IsYear(u, s, j) && RangeEnd(u, s, j).None?
  {
    SameAt(u, line, s, j, k + 4);
    SameAt(u, line, s, k, k + 4);
    hide RangeEnd, SkipSpaces, IsYear, IsSpace, IsDash, SamePrefix;
    if k < j + 4 {
      YearChars(u, s, k, j + 4);
      SkipStops(u, s, j + 4, j + 4);
      RangeEndIs(u, s, j, j + 4, SkipSpaces(u, s, j + 5));
    } else {
      NoRangeFar(u, line, s, j, k);
    }
  }

  lemma {:induction false} NoRangeFar(u: Unicode, line: string, s: string, j: nat, k: nat)
    requires IsYear(u, line, j) && RangeEnd(u, line, j).None? && j + 4 <= k && IsYear(u, line, k)
    requires SamePrefix(line, s, k + 4)
    ensures RangeEnd(u, s, j).None?
  {
    hide *;
    var a := SkipSpaces(u, line, j + 4);
    DashPlace(u, line, s, j + 4, k);
    RangeEndIs(u, line, j, a, SkipSpaces(u, line, a + 1));
    if IsDash(line[a]) {
      NoYearAfterDash(u, line, s, a, k);
    }
    RangeEndIs(u, s, j, a, SkipSpaces(u, s, a + 1));
  }

  lemma {:induction false} DashPlace(u: Unicode, line: string, s: string, p: nat, k: nat)
    requires p <= k && IsYear(u, line, k) && SamePrefix(line, s, k + 4)
    ensures var a := SkipSpaces(u, line, p);
         && a <= k && k + 4 <= |line| && k + 4 <= |s|
         && SkipSpaces(u, s, p) == a && s[a] == line[a]
         && (IsDash(line[a]) ==> a < k)
  {
    YearFits(u, line, k);
    YearChars(u, line, k, k);
    assert k + 4 <= |s|;
    hide *;
    SkipStops(u, line, p, k);
    SameSkip(u, line, s, p, k + 4);
    SameAt(u, line, s, SkipSpaces(u, line, p), k + 4);
  }

  lemma {:induction false} NoYearAfterDash(u: Unicode, line: string, s: string, a: nat, k: nat)
    requires a < k && IsYear(u, line, k) && !IsYear(u, line, SkipSpaces(u, line, a + 1))
    requires SamePrefix(line, s, k + 4)
    ensures !IsYear(u, s, SkipSpaces(u, s, a + 1))
  {
    hide SkipSpaces, IsYear, IsSpace, IsDash, SamePrefix;
    assert k + 4 <= |line| by { hide *; YearFits(u, line, k); }
    YearChars(u, line, k, k);
    SkipStops(u, line, a + 1, k);
    SameSkip(u, line, s, a + 1, k + 4);
    SameAt(u, line, s, SkipSpaces(u, line, a + 1), k + 4);
  }

  lemma {:induction false} YearFits(u: Unicode, s: string, k: nat)
    requires IsYear(u, s, k)
    ensures k + 4 <= |s|
  {
  }

  lemma {:induction false} YearOfRange(u: Unicode, line: string, from: nat, j: nat, k: nat)
    requires FirstYear(u, line, from) == Some(j) && from <= k && RangeEnd(u, line, k).Some?
    ensures j <= k
  {
    assert IsYear(u, line, k);
  }

  /** Range mode on a line that reads as a single year: a range somewhere else on
      the line may change, what is read does not. */
  lemma {:induction false} SingleYearKept(u: Unicode, line: string, target: int)
    requires ParseLine(u, line).Some? && ParseLine(u, line).value.end.None?
    ensures ParseLine(u, ReplaceEnd(u, line, target)) == ParseLine(u, line)
  {
    var i := Find(line, TOKEN, 0).value;
    var j := FirstYear(u, line, i + |TOKEN|).value;
    assert RangeEnd(u, line, j).None?;
    if FirstRange(u, line, 0).Some? {
      OtherRangeReplaced(u, line, i, j, FirstRange(u, line, 0).value, target);
    }
  }

  lemma {:induction false} OtherRangeReplaced(u: Unicode, line: string, i: nat, j: nat, k: nat, target: int)
    requires Find(line, TOKEN, 0) == Some(i) && FirstYear(u, line, i + |TOKEN|) == Some(j)
    requires RangeEnd(u, line, j).None? && FirstRange(u, line, 0) == Some(k)
    ensures ParseLine(u, ReplaceEnd(u, line, target)) == ParseLine(u, line)
  {
    hide *;
    if k < i + |TOKEN| {
      ReplaceBeforeToken(u, line, i, k, target);
    } else {
      YearOfRange(u, line, i + |TOKEN|, j, k);
      LaterRangeReplaced(u, line, i, j, k, target);
    }
  }

  lemma {:induction false} LaterRangeReplaced(u: Unicode, line: string, i: nat, j: nat, k: nat, target: int)
    requires Find(line, TOKEN, 0) == Some(i) && FirstYear(u, line, i + |TOKEN|) == Some(j)
    requires RangeEnd(u, line, j).None? && j < k && FirstRange(u, line, 0) == Some(k)
    ensures ParseLine(u, ReplaceEnd(u, line, target)) == ParseLine(u, line)
  {
    hide ParseLine, Find, FirstYear, FirstRange, RangeEnd, IntNumeral, ReplaceEnd, At, IsYear, SamePrefix;
    var b := RangeEnd(u, line, k).value;
    YearFits(u, line, b);
    var s := line[..b] + (IntNumeral(target) + line[b + 4..]);
    ReplaceEndIs(u, line, target, k, b);
    Reassociate(line[..b], [], IntNumeral(target), line[b + 4..]);
    KeepHead(line, b, IntNumeral(target) + line[b + 4..], j + 4);
    HeadsAgree(line, b, IntNumeral(target) + line[b + 4..], k + 4);
    KeepPrefix(u, line, s, i, j);
    NoRangeMade(u, line, s, j, k);
    ParseIs(u, line, i, j);
    ParseIs(u, s, i, j);
  }

  lemma {:induction false} HeadsAgree(line: string, b: nat, tail: string, n: nat)
    requires n <= b <= |line|
    ensures SamePrefix(line, line[..b] + tail, n)
  {
  }

  /** Every line with a year after its token, selected or not, reads with the
      target as end year afterwards, with two exceptions that leave what is read
      as it was: the update's pattern matches before the token, or the file's
      selected line holds a range and this one reads as a single year. */
  lemma {:induction false} EveryLineUpdated(u: Unicode, line: string, end: Option<int>, target: int)
    requires 1000 <= target <= 9999
    requires ParseLine(u, line).Some?
    ensures var years := ParseLine(u, line).value;
         && ParseLine(u, RewriteLine(u, line, end, target))
         == Some(if MatchBeforeToken(u, line, end) || (end.Some? && years.end.None?) then years
                 else Years(years.start, Some(target)))
  {
    hide MatchBeforeToken, ReadBack;
    var i := Find(line, TOKEN, 0).value;
    var j := FirstYear(u, line, i + |TOKEN|).value;
    if end.None? {
      ExtendedLineReads(u, line, i, j, target);
      FourDigitTargetReads(u, YearsAt(u, line, j), target, line[j + 4..]);
    } else if ParseLine(u, line).value.end.Some? {
      UpdatedLineReads(u, line, target);
      SameKind(u, line, end, ParseLine(u, line).value.end);
      FourDigitTargetReads(u, ParseLine(u, line).value, target, Rest(u, line));
    } else {
      SingleYearKept(u, line, target);
    }
  }

  lemma {:induction false} SameKind(u: Unicode, line: string, a: Option<int>, b: Option<int>)
    requires a.Some? == b.Some?
    ensures MatchBeforeToken(u, line, a) == MatchBeforeToken(u, line, b)
  {
  }

  // ----- conservation of text -----

  /** Whether an update in this mode edits the line at all. */
  predicate Touched(u: Unicode, line: string, end: Option<int>) {
    Tagged(line) && if end.None? then FirstYear(u, line, 0).Some? else FirstRange(u, line, 0).Some?
  }

  function CountTouched(u: Unicode, lines: seq<string>, end: Option<int>): nat {
    if lines == [] then 0
    else (if Touched(u, lines[0], end) then 1 else 0) + CountTouched(u, lines[1..], end)
  }

  /** How many characters an edited line gains. */
  function Growth(end: Option<int>, target: int): int {
    if end.None? then 3 + |IntNumeral(target)| else |IntNumeral(target)| - 4
  }

  lemma {:induction false} LineGrowth(u: Unicode, line: string, end: Option<int>, target: int)
    ensures |RewriteLine(u, line, end, target)|
         == |line| + if Touched(u, line, end) then Growth(end, target) else 0
    ensures !Touched(u, line, end) ==> RewriteLine(u, line, end, target) == line
  {
    hide IntNumeral;
  }

  lemma {:induction false} LinesGrowth(u: Unicode, lines: seq<string>, end: Option<int>, target: int)
    requires |lines| >= 1
    ensures |Join(RewriteLines(u, lines, end, target), '\n')|
         == |Join(lines, '\n')| + Growth(end, target) * CountTouched(u, lines, end)
  {
    hide Touched, RewriteLine, Growth;
    var edited := RewriteLines(u, lines, end, target);
    LineGrowth(u, lines[0], end, target);
    var g, n := Growth(end, target), CountTouched(u, lines[1..], end);
    assert g * (1 + n) == g + g * n;
    if |lines| > 1 {
      LinesGrowth(u, lines[1..], end, target);
      assert edited[1..] == RewriteLines(u, lines[1..], end, target);
    } else {
      assert n == 0;
    }
  }

  /** The text of a rewritten file: same lines in the same order, those not
      touched unchanged, and every touched line longer by the same amount;
      with a four-digit target that is 7 for a single year and 0 for a range. */
  lemma {:induction false} TextConserved(u: Unicode, content: string, target: int)
    requires Process(u, content, target).Rewritten?
    ensures var text := Process(u, content, target).text;
         && var lines, after := Split(content, '\n'), Split(text, '\n');
         && var end := ParseLines(u, lines).value.end;
         && |after| == |lines|
         && (forall k :: 0 <= k < |lines| && !Touched(u, lines[k], end) ==> after[k] == lines[k])
         && |text| == |content| + Growth(end, target) * CountTouched(u, lines, end)
    ensures 1000 <= target <= 9999 ==>
              Growth(ParseLines(u, Split(content, '\n')).value.end, target)
              == if ParseLines(u, Split(content, '\n')).value.end.None? then 7 else 0
  {
    hide Touched, UpdateLine, ParseLines;
    var lines := Split(content, '\n');
    var end := ParseLines(u, lines).value.end;
    RewriteSplits(u, content, end, target);
    LinesGrowth(u, lines, end, target);
    JoinSplit(content, '\n');
    forall k | 0 <= k < |lines| && !Touched(u, lines[k], end)
      ensures RewriteLine(u, lines[k], end, target) == lines[k]
    {
      LineGrowth(u, lines[k], end, target);
    }
    if 1000 <= target <= 9999 {
      var a, b, c, d := FourDigits(target);
    }
  }

  // ----- targets of fewer than four digits -----

  lemma {:induction false} ShortNumeral(n: nat)
    requires n < 1000
    ensures |Numeral(n)| <= 3
  {
    if n >= 10 {
      assert Numeral(n) == Numeral(n / 10) + [DigitChar(n % 10)];
      if n >= 100 {
        assert Numeral(n / 10) == Numeral(n / 10 / 10) + [DigitChar(n / 10 % 10)];
      }
    }
  }

  lemma {:induction false} YearFromDigit(u: Unicode, s: string)
    requires IsYear(u, s, 0) && '1' <= s[0] <= '9'
    ensures YearAt(u, s, 0) >= 1000
  {
  }

  /** Four digits that start with a short target do not denote it. */
  lemma {:induction false} ShortTargetNeverReads(u: Unicode, years: Years, target: int, rest: string)
    requires 1 <= target <= 999 && years.start != target
    ensures NeedsUpdate(ReadBack(u, years, target, rest), target)
  {
    var tail := IntNumeral(target) + rest;
    NumeralStart(target);
    hide YearAt, Numeral;
    assert '0' <= Numeral(target)[0] <= '9' && tail[0] == Numeral(target)[0];
    if IsYear(u, tail, 0) {
      YearFromDigit(u, tail);
    }
  }

  /** The start year the script reads off a file. */
  function StartYear(u: Unicode, content: string): Option<int> {
    match ParseLines(u, Split(content, '\n'))
    case None => None
    case Some(years) => Some(years.start)
  }

  lemma {:induction false} StartYearStays(u: Unicode, content: string, target: int)
    requires Process(u, content, target).Rewritten?
    ensures StartYear(u, Process(u, content, target).text) == StartYear(u, content)
  {
    var lines := Split(content, '\n');
    RewriteSplits(u, content, ParseLines(u, lines).value.end, target);
    SelectionStable(u, lines, target);
  }

  lemma {:induction false} ShortTargetMissed(u: Unicode, content: string, target: int)
    requires 1 <= target <= 999
    requires Process(u, content, target).Rewritten? && StartYear(u, content) != Some(target)
    ensures Process(u, Process(u, content, target).text, target).Rewritten?
  {
    SecondRun(u, content, target);
    var line := SelectedLine(u, content).value;
    ShortTargetNeverReads(u, ParseLine(u, line).value, target, Rest(u, line));
  }

  lemma {:induction false} CountsTouched(u: Unicode, lines: seq<string>, end: Option<int>, i: nat)
    requires i < |lines| && Touched(u, lines[i], end)
    ensures CountTouched(u, lines, end) >= 1
  {
    hide Touched;
    if i > 0 {
      CountsTouched(u, lines[1..], end, i - 1);
    }
  }

  lemma {:induction false} ParsedRangeTouched(u: Unicode, line: string, end: Option<int>)
    requires end.Some? && ParseLine(u, line).Some? && ParseLine(u, line).value.end.Some?
    ensures Touched(u, line, end)
  {
    hide RangeEnd, IsYear;
  }

  /** With the start year as target, an update replaces an end year by fewer digits. */
  lemma {:induction false} ShortTargetShrinks(u: Unicode, content: string, target: int)
    requires 1 <= target <= 999
    requires Process(u, content, target).Rewritten? && StartYear(u, content) == Some(target)
    ensures |Process(u, content, target).text| < |content|
  {
    var lines := Split(content, '\n');
    var end := ParseLines(u, lines).value.end;
    TextConserved(u, content, target);
    ShortNumeral(target);
    Selected(u, lines, 0);
    var i := SelectFrom(u, lines, 0).value;
    hide ParseLine, Touched, Numeral;
    ParsedRangeTouched(u, lines[i], end);
    CountsTouched(u, lines, end, i);
    GrowsDown(Growth(end, target), CountTouched(u, lines, end));
  }

  lemma {:induction false} GrowsDown(g: int, n: int)
    requires g < 0 && n >= 1
    ensures g * n < 0
  {
  }

  lemma {:induction false} SecondVerdict(u: Unicode, content: string, target: int)
    requires Process(u, content, target).Rewritten?
    ensures !Process(u, Process(u, content, target).text, target).NoCopyright?
  {
    hide *;
    SecondRun(u, content, target);
  }

  lemma {:induction false} OneRun(u: Unicode, content: string, target: int)
    requires Process(u, content, target).Rewritten?
    ensures AfterRuns(u, content, target, 1) == Process(u, content, target).text
  {
    hide Process;
    assert AfterRuns(u, content, target, 0) == content;
  }

  lemma {:induction false} ShortTargetStep(u: Unicode, content: string, target: int)
    requires 1 <= target <= 999
    requires Process(u, content, target).Rewritten? && StartYear(u, content) == Some(target)
    ensures var text := Process(u, content, target).text;
         && |text| < |content| && StartYear(u, text) == Some(target)
         && (Process(u, text, target).UpToDate? || Process(u, text, target).Rewritten?)
  {
    hide *;
    SecondVerdict(u, content, target);
    StartYearStays(u, content, target);
    ShortTargetShrinks(u, content, target);
  }

  lemma {:induction false} ShortTargetSettles(u: Unicode, content: string, target: int) returns (n: nat)
    requires 1 <= target <= 999
    requires Process(u, content, target).Rewritten? && StartYear(u, content) == Some(target)
    ensures Process(u, AfterRuns(u, content, target, n), target).UpToDate?
    decreases |content|
  {
    hide *;
    ShortTargetStep(u, content, target);
    OneRun(u, content, target);
    var text := Process(u, content, target).text;
    n := 1;
    if Process(u, text, target).Rewritten? {
      var m := ShortTargetSettles(u, text, target);
      ShiftRuns(u, content, target, m);
      n := m + 1;
    }
  }

  lemma {:induction false} ShortTargetRuns(u: Unicode, content: string, target: int, n: nat)
    requires 1 <= target <= 999
    requires Process(u, content, target).Rewritten? && StartYear(u, content) != Some(target)
    ensures var now := AfterRuns(u, content, target, n);
            Process(u, now, target).Rewritten? && StartYear(u, now) == StartYear(u, content)
  {
    hide Process, StartYear;
    if n > 0 {
      var before := AfterRuns(u, content, target, n - 1);
      ShortTargetRuns(u, content, target, n - 1);
      ShortTargetMissed(u, before, target);
      StartYearStays(u, before, target);
    }
  }

  /** A target of one to three digits is never read as an end year: a file that
      needs it is brought up to date by some run exactly when its start year is
      the target, and is rewritten by every run otherwise. */
  lemma {:induction false} LaterRunsShortTargets(u: Unicode, content: string, target: int)
    requires 1 <= target <= 999
    requires Process(u, content, target).Rewritten?
    ensures (exists n: nat :: Process(u, AfterRuns(u, content, target, n), target).UpToDate?)
       <==> StartYear(u, content) == Some(target)
    ensures StartYear(u, content) != Some(target) ==>
              forall n: nat :: Process(u, AfterRuns(u, content, target, n), target).Rewritten?
  {
    hide Process, StartYear, AfterRuns;
    if StartYear(u, content) == Some(target) {
      var n := ShortTargetSettles(u, content, target);
    } else {
      forall n: nat ensures Process(u, AfterRuns(u, content, target, n), target).Rewritten? {
        ShortTargetRuns(u, content, target, n);
      }
    }
  }
}
