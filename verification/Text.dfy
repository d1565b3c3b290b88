/** Strings: leftmost substring search, splitting and joining on a separator,
    and decimal numerals. */
module Text {

  datatype Option<+T> = None | Some(value: T)

  /** White space of the C locale. */
  predicate IsBlank(c: char) { '\t' <= c <= '\r' || c == ' ' }

  // ----- substring search -----

  predicate At(s: string, t: string, i: nat) {
    i + |t| <= |s| && s[i..i + |t|] == t
  }

  /** The leftmost occurrence of `t` in `s` at or after `from`. */
  function Find(s: string, t: string, from: nat): (r: Option<nat>)
    ensures r.Some? ==> from <= r.value && At(s, t, r.value)
    ensures r.Some? ==> forall k: nat :: from <= k < r.value ==> !At(s, t, k)
    ensures r.None? ==> forall k: nat :: from <= k ==> !At(s, t, k)
    decreases |s| - from
  {
    if |s| < from + |t| then None
    else if At(s, t, from) then Some(from)
    else Find(s, t, from + 1)
  }

  /** `Find` is pinned down by its contract. */
  lemma FindIs(s: string, t: string, from: nat, i: nat)
    requires from <= i && At(s, t, i)
    requires forall k: nat :: from <= k < i ==> !At(s, t, k)
    ensures Find(s, t, from) == Some(i)
  {
    var r := Find(s, t, from);
    assert r.Some?;
    if r.value < i {
      assert false;
    } else if i < r.value {
      assert false;
    }
  }

  /** An occurrence lying inside the first `|a|` characters is an occurrence in `a`. */
  lemma AtPrefix(a: string, b: string, t: string, i: nat)
    requires i + |t| <= |a|
    ensures At(a + b, t, i) == At(a, t, i)
  {
    assert (a + b)[i..i + |t|] == a[i..i + |t|];
  }

  lemma AtSuffix(a: string, b: string, t: string, i: nat)
    ensures At(a + b, t, |a| + i) == At(b, t, i)
  {
    if i + |t| <= |b| {
      assert (a + b)[|a| + i..|a| + i + |t|] == b[i..i + |t|];
    }
  }

  // ----- split and join -----

  function Split(s: string, c: char): (r: seq<string>)
    ensures |r| >= 1
    ensures forall l :: l in r ==> c !in l
  {
    if s == [] then [[]]
    else
      var r := Split(s[1..], c);
      if s[0] == c then [[]] + r else [[s[0]] + r[0]] + r[1..]
  }

  function Join(lines: seq<string>, c: char): string {
    if |lines| == 0 then []
    else if |lines| == 1 then lines[0]
    else lines[0] + [c] + Join(lines[1..], c)
  }

  lemma {:induction false} JoinSplit(s: string, c: char)
    ensures Join(Split(s, c), c) == s
  {
    if s != [] {
      JoinSplit(s[1..], c);
      var r := Split(s[1..], c);
      if s[0] == c {
        assert ([[]] + r)[1..] == r;
      } else if |r| > 1 {
        assert ([[s[0]] + r[0]] + r[1..])[1..] == r[1..];
      }
      assert s == [s[0]] + s[1..];
    }
  }

  lemma {:induction false} SplitOne(l: string, c: char)
    requires c !in l
    ensures Split(l, c) == [l]
  {
    if l != [] {
      SplitOne(l[1..], c);
      assert l == [l[0]] + l[1..];
    }
  }

  lemma {:induction false} SplitFirst(l: string, rest: string, c: char)
    requires c !in l
    ensures Split(l + [c] + rest, c) == [l] + Split(rest, c)
  {
    var s := l + [c] + rest;
    if l == [] {
      assert s[1..] == rest;
    } else {
      SplitFirst(l[1..], rest, c);
      assert s[1..] == l[1..] + [c] + rest;
      assert l == [l[0]] + l[1..];
    }
  }

  lemma {:induction false} SplitJoin(lines: seq<string>, c: char)
    requires |lines| >= 1
    requires forall l :: l in lines ==> c !in l
    ensures Split(Join(lines, c), c) == lines
  {
    if |lines| == 1 {
      SplitOne(lines[0], c);
    } else {
      SplitJoin(lines[1..], c);
      SplitFirst(lines[0], Join(lines[1..], c), c);
    }
  }

  // ----- decimal numerals -----

  function DigitChar(d: nat): (c: char)
    requires d < 10
    ensures '0' <= c <= '9'
    ensures c as int == '0' as int + d
  {
    ('0' as int + d) as char
  }

  predicate IsNumeral(s: string) {
    forall i :: 0 <= i < |s| ==> '0' <= s[i] <= '9'
  }

  function Numeral(n: nat): (s: string)
    ensures |s| >= 1 && IsNumeral(s)
    ensures n < 10 ==> |s| == 1
  {
    if n < 10 then [DigitChar(n)] else Numeral(n / 10) + [DigitChar(n % 10)]
  }

  /** Python's str(int) and Qt's QString::number. */
  function IntNumeral(n: int): (s: string)
    ensures |s| >= 1
    ensures n >= 0 ==> IsNumeral(s)
  {
    if n < 0 then "-" + Numeral(-n) else Numeral(n)
  }

  function NumeralValue(s: string): nat
    requires IsNumeral(s)
  {
    if s == [] then 0
    else 10 * NumeralValue(s[..|s| - 1]) + (s[|s| - 1] as int - '0' as int)
  }

  lemma {:induction false} NumeralRoundTrip(n: nat)
    ensures NumeralValue(Numeral(n)) == n
  {
    if n >= 10 {
      NumeralRoundTrip(n / 10);
      assert Numeral(n)[..|Numeral(n)| - 1] == Numeral(n / 10);
    }
  }

  lemma {:induction false} NumeralStart(n: nat)
    requires n >= 1
    ensures Numeral(n)[0] != '0'
  {
    if n >= 10 {
      NumeralStart(n / 10);
      assert Numeral(n)[0] == Numeral(n / 10)[0];
    }
  }

  /** A numeral is what str(int) prints: a minus sign if the number is negative,
      then its digits without leading zeros. */
  lemma {:induction false} IntNumeralReads(n: int)
    ensures n < 0 <==> IntNumeral(n)[0] == '-'
    ensures var digits := if n < 0 then IntNumeral(n)[1..] else IntNumeral(n);
         && digits != [] && IsNumeral(digits) && NumeralValue(digits) == (if n < 0 then -n else n)
         && (digits[0] == '0' ==> n == 0)
  {
    var m: nat := if n < 0 then -n else n;
    NumeralRoundTrip(m);
    if m >= 1 {
      NumeralStart(m);
    }
    hide Numeral;
    assert '0' <= Numeral(m)[0] <= '9';
    assert n < 0 ==> IntNumeral(n)[1..] == Numeral(m);
  }

  /** The numeral of a four-digit number, digit by digit. */
  lemma {:induction false} FourDigits(n: int) returns (a: nat, b: nat, c: nat, d: nat)
    requires 1000 <= n <= 9999
    ensures a < 10 && b < 10 && c < 10 && d < 10
    ensures n == 1000 * a + 100 * b + 10 * c + d
    ensures IntNumeral(n) == [DigitChar(a), DigitChar(b), DigitChar(c), DigitChar(d)]
  {
    var n2 := n / 10;
    var n3 := n2 / 10;
    a, b, c, d := n3 / 10, n3 % 10, n2 % 10, n % 10;
    assert Numeral(a) == [DigitChar(a)];
    assert Numeral(n3) == Numeral(a) + [DigitChar(b)];
    assert Numeral(n2) == Numeral(n3) + [DigitChar(c)];
    assert Numeral(n) == Numeral(n2) + [DigitChar(d)];
  }
}
