/** The size shown for a number of bytes, and the text shown for a `du` result. */
module SizeFormat {
  import opened Text

  function UnitName(idx: nat): string
    requires idx <= 4
  {
    match idx
    case 0 => "B"
    case 1 => "KB"
    case 2 => "MB"
    case 3 => "GB"
    case _ => "TB"
  }

  function UnitSize(idx: nat): (size: nat)
    requires idx <= 4
    ensures size >= 1
  {
    match idx
    case 0 => 1
    case 1 => 1024
    case 2 => 1_048_576
    case 3 => 1_073_741_824
    case _ => 1_099_511_627_776
  }

  /** `x` of the unit, in bytes. */
  function InBytes(x: real, idx: nat): real
    requires idx <= 4
  {
    x * UnitSize(idx) as real
  }

  // ----- scaling -----

  /** The value shown and the index of its unit. */
  datatype Scaled = Scaled(val: real, idx: nat)

  function Scale(val: real, idx: nat): (r: Scaled)
    requires idx <= 4 && val >= 0.0
    ensures r.idx <= 4 && r.val >= 0.0
    decreases 4 - idx
  {
    if val >= 1024.0 && idx < 4 then Scale(val / 1024.0, idx + 1) else Scaled(val, idx)
  }

  /** The loop keeps the number of bytes and stops at the largest unit not above it. */
  lemma {:induction false} ScaleKeepsBytes(val: real, idx: nat, bytes: real)
    requires idx <= 4 && val * UnitSize(idx) as real == bytes
    requires val >= 1.0
    ensures var r := Scale(val, idx);
         && idx <= r.idx <= 4
         && r.val * UnitSize(r.idx) as real == bytes
         && r.val >= 1.0
         && (r.val < 1024.0 || r.idx == 4)
         && (idx < r.idx ==> val >= 1024.0)
    decreases 4 - idx
  {
    if val >= 1024.0 && idx < 4 {
      assert UnitSize(idx + 1) == 1024 * UnitSize(idx);
      assert (val / 1024.0) * (UnitSize(idx) as real * 1024.0) == val * UnitSize(idx) as real;
      ScaleKeepsBytes(val / 1024.0, idx + 1, bytes);
    }
  }

  // ----- decimal rounding -----

  /** Rounding to the nearest integer, halves upwards. */
  function Round(v: real): int { (v + 0.5).Floor }

  /** The printed mantissa in hundredths: two decimals below ten, one from ten on. */
  function Hundredths(val: real): int {
    if val < 10.0 then Round(100.0 * val) else 10 * Round(10.0 * val)
  }

  /** `QString::arg(val, 0, 'f', prec)` for one or two decimals of a non-negative value. */
  function Fixed(val: real, prec: nat): string
    requires val >= 0.0 && (prec == 1 || prec == 2)
  {
    if prec == 1 then
      var n := Round(10.0 * val);
      Numeral(n / 10) + "." + [DigitChar(n % 10)]
    else
      var n := Round(100.0 * val);
      Numeral(n / 100) + "." + [DigitChar(n / 10 % 10), DigitChar(n % 10)]
  }

  function SizeText(bytes: int): string {
    if bytes < 0 then "—"
    else if bytes == 0 then "0 B"
    else
      var r := Scale(bytes as real, 0);
      if r.idx == 0 then Numeral(bytes) + " B"
      else Fixed(r.val, if r.val < 10.0 then 2 else 1) + " " + UnitName(r.idx)
  }

  method FormatSize(bytes: int) returns (text: string)
    ensures text == SizeText(bytes)
  {
    if bytes < 0 {
      return "—";
    }
    if bytes == 0 {
      return "0 B";
    }
    var idx := 0;
    var val := bytes as real;
    while val >= 1024.0 && idx < 4
      invariant 0 <= idx <= 4 && val >= 1.0
      invariant Scale(bytes as real, 0) == Scale(val, idx)
      decreases 4 - idx
    {
      val := val / 1024.0;
      idx := idx + 1;
    }
    if idx == 0 {
      text := Numeral(bytes) + " B";
    } else {
      text := Fixed(val, if val < 10.0 then 2 else 1) + " " + UnitName(idx);
    }
  }

  // ----- reading a displayed size back -----

  function ReadNumber(s: string): Option<real> {
    match Find(s, ".", 0)
    case None => if s != [] && IsNumeral(s) then Some(NumeralValue(s) as real) else None
    case Some(i) =>
      var whole, decimals := s[..i], s[i + 1..];
      if whole != [] && decimals != [] && IsNumeral(whole) && IsNumeral(decimals)
      then Some(DecimalValue(NumeralValue(whole), NumeralValue(decimals), PowerOfTen(|decimals|)))
      else None
  }

  function DecimalValue(whole: nat, decimals: nat, scale: nat): real
    requires scale >= 1
  {
    whole as real + decimals as real / scale as real
  }

  function PowerOfTen(n: nat): (p: nat)
    ensures p >= 1
  {
    if n == 0 then 1 else 10 * PowerOfTen(n - 1)
  }

  function UnitIndex(s: string): (r: Option<nat>)
    ensures r.Some? ==> r.value <= 4
  {
    if s == "B" then Some(0)
    else if s == "KB" then Some(1)
    else if s == "MB" then Some(2)
    else if s == "GB" then Some(3)
    else if s == "TB" then Some(4)
    else None
  }

  /** The number of bytes a displayed size stands for: number, space, unit. */
  function ReadSize(s: string): Option<real> {
    match Find(s, " ", 0)
    case None => None
    case Some(i) =>
      match UnitIndex(s[i + 1..])
      case None => None
      case Some(idx) =>
        match ReadNumber(s[..i])
        case None => None
        case Some(x) => Some(InBytes(x, idx))
  }

  /** The bytes the text for `bytes` stands for. */
  function ShownBytes(bytes: nat): real {
    if bytes == 0 then 0.0
    else
      var r := Scale(bytes as real, 0);
      if r.idx == 0 then bytes as real
      else InBytes(Hundredths(r.val) as real / 100.0, r.idx)
  }

  lemma {:induction false} FindChar(a: string, c: char, b: string)
    requires c !in a
    ensures Find(a + [c] + b, [c], 0) == Some(|a|)
  {
    var s := a + [c] + b;
    forall k: nat | k < |a| ensures !At(s, [c], k) {
      assert s[k] == a[k];
      assert s[k..k + 1] == [a[k]];
    }
    assert s[|a|..|a| + 1] == [c];
    FindIs(s, [c], 0, |a|);
  }

  lemma {:induction false} NumeralHasNo(s: string, c: char)
    requires IsNumeral(s) && !('0' <= c <= '9')
    ensures c !in s
  {
  }

  lemma {:induction false} ReadWhole(n: nat)
    ensures ReadNumber(Numeral(n)) == Some(n as real)
  {
    NumeralRoundTrip(n);
    NumeralHasNo(Numeral(n), '.');
    NotFound(Numeral(n), '.');
  }

  lemma {:induction false} NotFound(s: string, c: char)
    requires c !in s
    ensures Find(s, [c], 0) == None
  {
    forall k: nat ensures !At(s, [c], k) {
      if k + 1 <= |s| {
        assert s[k..k + 1] == [s[k]];
      }
    }
  }

  lemma {:induction false} ReadDecimal(n: nat, decimals: string)
    requires decimals != [] && IsNumeral(decimals)
    ensures ReadNumber(Numeral(n) + "." + decimals)
         == Some(DecimalValue(n, NumeralValue(decimals), PowerOfTen(|decimals|)))
  {
    var s := Numeral(n) + "." + decimals;
    NumeralRoundTrip(n);
    NumeralHasNo(Numeral(n), '.');
    FindChar(Numeral(n), '.', decimals);
    assert s[..|Numeral(n)|] == Numeral(n) && s[|Numeral(n)| + 1..] == decimals;
  }

  lemma {:induction false} OneDecimal(n: nat, q: nat, x: nat)
    requires x < 10 && n == 10 * q + x
    ensures ReadNumber(Numeral(q) + "." + [DigitChar(x)]) == Some(n as real / 10.0)
  {
    OneDigitValue(x);
    PowersOfTen();
    assert DecimalValue(q, x, 10) == n as real / 10.0;
    hide NumeralValue, ReadNumber, PowerOfTen, Numeral, DigitChar, DecimalValue, IsNumeral;
    ReadDecimal(q, [DigitChar(x)]);
  }

  lemma {:induction false} TwoDecimals(n: nat, q: nat, x: nat, y: nat)
    requires x < 10 && y < 10 && n == 100 * q + 10 * x + y
    ensures ReadNumber(Numeral(q) + "." + [DigitChar(x), DigitChar(y)]) == Some(n as real / 100.0)
  {
    TwoDigitValue(x, y);
    PowersOfTen();
    assert DecimalValue(q, 10 * x + y, 100) == n as real / 100.0;
    hide NumeralValue, ReadNumber, PowerOfTen, Numeral, DigitChar, DecimalValue, IsNumeral;
    ReadDecimal(q, [DigitChar(x), DigitChar(y)]);
  }

  lemma {:induction false} OneDigitValue(x: nat)
    requires x < 10
    ensures IsNumeral([DigitChar(x)]) && NumeralValue([DigitChar(x)]) == x
  {
    assert [DigitChar(x)][..0] == [];
  }

  lemma {:induction false} TwoDigitValue(x: nat, y: nat)
    requires x < 10 && y < 10
    ensures IsNumeral([DigitChar(x), DigitChar(y)])
    ensures NumeralValue([DigitChar(x), DigitChar(y)]) == 10 * x + y
  {
    var d := [DigitChar(x), DigitChar(y)];
    assert d[..1] == [DigitChar(x)] && d[..1][..0] == [];
    assert NumeralValue(d[..1]) == x;
  }

  lemma {:induction false} DecimalParts(n: nat)
    ensures n == 10 * (n / 10) + n % 10
    ensures n == 100 * (n / 100) + 10 * (n / 10 % 10) + n % 10
  {
    var q := n / 10;
    assert q / 10 == n / 100;
  }

  lemma {:induction false} PowersOfTen()
    ensures PowerOfTen(1) == 10 && PowerOfTen(2) == 100
  {
    assert PowerOfTen(1) == 10 * PowerOfTen(0);
  }

  lemma {:induction false} ReadFixed(val: real)
    requires val >= 0.0
    ensures var s := Fixed(val, if val < 10.0 then 2 else 1);
         && ReadNumber(s) == Some(Hundredths(val) as real / 100.0)
         && ' ' !in s
  {
    hide ReadNumber, Numeral, DigitChar;
    if val < 10.0 {
      var n := Round(100.0 * val);
      DecimalParts(n);
      TwoDecimals(n, n / 100, n / 10 % 10, n % 10);
      NumeralHasNo(Numeral(n / 100), ' ');
    } else {
      var n := Round(10.0 * val);
      DecimalParts(n);
      OneDecimal(n, n / 10, n % 10);
      NumeralHasNo(Numeral(n / 10), ' ');
    }
  }

  lemma {:induction false} UnitNameIs(idx: nat)
    requires idx <= 4
    ensures UnitIndex(UnitName(idx)) == Some(idx)
  {
  }

  lemma {:induction false} ReadWithUnit(number: string, idx: nat)
    requires ' ' !in number && idx <= 4 && ReadNumber(number).Some?
    ensures ReadSize(number + " " + UnitName(idx)) == Some(InBytes(ReadNumber(number).value, idx))
  {
    hide ReadNumber, UnitName, UnitIndex, InBytes;
    var s := number + " " + UnitName(idx);
    FindChar(number, ' ', UnitName(idx));
    UnitNameIs(idx);
    assert s[..|number|] == number && s[|number| + 1..] == UnitName(idx);
  }

  lemma {:induction false} WholeReadsBack(n: nat)
    ensures ReadSize(Numeral(n) + " B") == Some(n as real)
  {
    assert InBytes(n as real, 0) == n as real;
    hide ReadNumber, ReadSize, Numeral, InBytes;
    ReadWhole(n);
    NumeralHasNo(Numeral(n), ' ');
    ReadWithUnit(Numeral(n), 0);
    assert Numeral(n) + " " + UnitName(0) == Numeral(n) + " B";
  }

  lemma {:induction false} ScaledReadsBack(val: real, idx: nat)
    requires val >= 0.0 && idx <= 4
    ensures ReadSize(Fixed(val, if val < 10.0 then 2 else 1) + " " + UnitName(idx))
         == Some(InBytes(Hundredths(val) as real / 100.0, idx))
  {
    hide ReadSize, ReadNumber, Fixed, Hundredths, UnitName, InBytes;
    ReadFixed(val);
    ReadWithUnit(Fixed(val, if val < 10.0 then 2 else 1), idx);
  }

  /** What is displayed can be read back. */
  lemma {:induction false} SizeReadsBack(bytes: nat)
    ensures ReadSize(SizeText(bytes)) == Some(ShownBytes(bytes))
  {
    hide ReadSize, ReadNumber, Fixed, Hundredths, Scale, UnitName, InBytes;
    if bytes == 0 {
      WholeReadsBack(0);
      assert Numeral(0) + " B" == "0 B";
    } else {
      var r := Scale(bytes as real, 0);
      if r.idx == 0 {
        WholeReadsBack(bytes);
      } else {
        ScaledReadsBack(r.val, r.idx);
      }
    }
  }

  /** Below 1024 bytes the text is the number itself. */
  lemma {:induction false} SmallSizeText(bytes: int)
    requires bytes < 1024
    ensures SizeText(bytes) == if bytes < 0 then "—" else Numeral(bytes) + " B"
  {
    if bytes == 0 {
      assert Numeral(0) == "0";
    }
  }

  /** From 1024 bytes on, the text is a number with a point, a space, and the
      largest unit not above the size; it has two decimals below ten units, one
      from there on. */
  lemma {:induction false} LargeSizeText(bytes: nat) returns (whole: nat, decimals: string, idx: nat)
    requires bytes >= 1024
    ensures 1 <= idx <= 4 && UnitSize(idx) <= bytes && (idx < 4 ==> bytes < UnitSize(idx + 1))
    ensures SizeText(bytes) == Numeral(whole) + "." + decimals + " " + ["B", "KB", "MB", "GB", "TB"][idx]
    ensures IsNumeral(decimals) && |decimals| == if bytes < 10 * UnitSize(idx) then 2 else 1
  {
    var r := Scale(bytes as real, 0);
    ScaledBytes(bytes);
    idx := r.idx;
    hide Scale, Fixed, InBytes, UnitSize;
    ScaledUnit(bytes, r.val, idx);
    whole, decimals := FixedText(r.val);
    assert UnitName(idx) == ["B", "KB", "MB", "GB", "TB"][idx];
  }

  lemma {:induction false} FixedText(val: real) returns (whole: nat, decimals: string)
    requires val >= 0.0
    ensures Fixed(val, if val < 10.0 then 2 else 1) == Numeral(whole) + "." + decimals
    ensures IsNumeral(decimals) && |decimals| == if val < 10.0 then 2 else 1
  {
    hide Numeral, DigitChar;
    if val < 10.0 {
      var n := Round(100.0 * val);
      whole, decimals := n / 100, [DigitChar(n / 10 % 10), DigitChar(n % 10)];
    } else {
      var n := Round(10.0 * val);
      whole, decimals := n / 10, [DigitChar(n % 10)];
    }
  }

  lemma {:induction false} ScaledUnit(bytes: nat, val: real, idx: nat)
    requires idx <= 4 && InBytes(val, idx) == bytes as real && 1.0 <= val
    requires val < 1024.0 || idx == 4
    ensures UnitSize(idx) <= bytes && (idx < 4 ==> bytes < UnitSize(idx + 1))
    ensures val < 10.0 <==> bytes < 10 * UnitSize(idx)
  {
    var size := UnitSize(idx) as real;
    assert size <= val * size;
    assert idx < 4 ==> UnitSize(idx + 1) == 1024 * UnitSize(idx);
    assert val < 1024.0 ==> val * size < 1024.0 * size;
    assert val < 10.0 ==> val * size < 10.0 * size;
    assert val >= 10.0 ==> val * size >= 10.0 * size;
  }

  /** Half of the last decimal printed for `val`. */
  function HalfDigit(val: real): real {
    if val < 10.0 then 0.005 else 0.05
  }

  /** `shown` bytes are within half a last digit of `val` units, above if exactly
      half a digit off; they are at least one unit, and at most 1024.0 of them if `val` is below 1024. */
  predicate Near(shown: real, val: real, idx: nat)
    requires idx <= 4
  {
    && InBytes(val - HalfDigit(val), idx) < shown <= InBytes(val + HalfDigit(val), idx)
    && InBytes(1.0, idx) <= shown
    && (val < 1024.0 ==> shown <= InBytes(1024.0, idx))
  }

  /** The displayed size is exact below 1024 bytes; above, it is off by at most
      half a last digit of the unit shown, and never reads above 1024.0 of a
      unit that has a larger one. */
  lemma {:induction false} SizeIsClose(bytes: nat)
    requires bytes >= 1
    ensures var r := Scale(bytes as real, 0);
         && InBytes(r.val, r.idx) == bytes as real
         && (r.val < 1024.0 || r.idx == 4)
         && (bytes < 1024 <==> r.idx == 0)
         && (bytes < 1024 ==> ShownBytes(bytes) == bytes as real)
         && Near(ShownBytes(bytes), r.val, r.idx)
  {
    ScaledBytes(bytes);
    hide Hundredths, Near, UnitSize, HalfDigit, Scale, InBytes;
    var r := Scale(bytes as real, 0);
    if r.idx != 0 {
      Close(r.val, r.idx);
    } else {
      ExactIsNear(bytes);
    }
  }

  lemma {:induction false} ScaledBytes(bytes: nat)
    requires bytes >= 1
    ensures var r := Scale(bytes as real, 0);
         && InBytes(r.val, r.idx) == bytes as real
         && r.val >= 1.0
         && (r.val < 1024.0 || r.idx == 4)
         && (bytes < 1024 <==> r.idx == 0)
         && (r.idx == 0 ==> r.val == bytes as real)
  {
    ScaleKeepsBytes(bytes as real, 0, bytes as real);
  }

  lemma {:induction false} ExactIsNear(bytes: nat)
    requires 1 <= bytes < 1024
    ensures Near(bytes as real, bytes as real, 0)
  {
  }

  lemma {:induction false} Close(val: real, idx: nat)
    requires val >= 1.0 && idx <= 4
    ensures Near(InBytes(Hundredths(val) as real / 100.0, idx), val, idx)
  {
    var m := Hundredths(val) as real / 100.0;
    assert val - HalfDigit(val) < m <= val + HalfDigit(val);
    assert 1.0 <= m && (val < 1024.0 ==> m <= 1024.0);
    hide InBytes, Hundredths, HalfDigit;
    InBytesMonotone(val - HalfDigit(val), m, idx);
    InBytesMonotone(m, val + HalfDigit(val), idx);
    InBytesMonotone(1.0, m, idx);
    if val < 1024.0 {
      InBytesMonotone(m, 1024.0, idx);
    }
  }

  lemma {:induction false} InBytesMonotone(x: real, y: real, idx: nat)
    requires x <= y && idx <= 4
    ensures InBytes(x, idx) <= InBytes(y, idx)
    ensures x < y ==> InBytes(x, idx) < InBytes(y, idx)
  {
  }

  // ----- order -----

  lemma {:induction false} HundredthsMonotone(x: real, y: real)
    requires x <= y
    ensures Hundredths(x) <= Hundredths(y)
  {
  }

  /** More bytes never use a smaller unit. */
  lemma {:induction false} UnitMonotone(x: real, y: real, idx: nat)
    requires 0.0 <= x <= y && idx <= 4
    ensures Scale(x, idx).idx <= Scale(y, idx).idx
    ensures Scale(x, idx).idx == Scale(y, idx).idx ==> Scale(x, idx).val <= Scale(y, idx).val
    decreases 4 - idx
  {
    if x >= 1024.0 && idx < 4 {
      UnitMonotone(x / 1024.0, y / 1024.0, idx + 1);
    } else if y >= 1024.0 && idx < 4 {
      ScaleRaises(y / 1024.0, idx + 1);
    }
  }

  lemma {:induction false} ScaleRaises(y: real, idx: nat)
    requires idx <= 4 && y >= 0.0
    ensures Scale(y, idx).idx >= idx
    decreases 4 - idx
  {
    if y >= 1024.0 && idx < 4 {
      ScaleRaises(y / 1024.0, idx + 1);
    }
  }

  lemma {:induction false} NextUnit(i: nat, j: nat)
    requires i < j <= 4
    ensures InBytes(1024.0, i) <= InBytes(1.0, j)
  {
  }

  lemma {:induction false} ShownMonotone(a: nat, b: nat)
    requires 1 <= a <= b
    ensures ShownBytes(a) <= ShownBytes(b)
  {
    var x, y := Scale(a as real, 0), Scale(b as real, 0);
    SizeIsClose(a);
    SizeIsClose(b);
    UnitMonotone(a as real, b as real, 0);
    hide Scale, InBytes, Hundredths;
    if x.idx < y.idx {
      NextUnit(x.idx, y.idx);
    } else if x.idx != 0 {
      HundredthsMonotone(x.val, y.val);
      InBytesMonotone(Hundredths(x.val) as real / 100.0, Hundredths(y.val) as real / 100.0, x.idx);
    }
  }

  /** The display never orders two sizes the wrong way round. */
  lemma {:induction false} DisplayMonotone(a: nat, b: nat)
    requires a <= b
    ensures ReadSize(SizeText(a)).Some? && ReadSize(SizeText(b)).Some?
    ensures ReadSize(SizeText(a)).value <= ReadSize(SizeText(b)).value
  {
    hide ReadSize, SizeText, Scale, Near;
    SizeReadsBack(a);
    SizeReadsBack(b);
    if a >= 1 {
      ShownMonotone(a, b);
    } else if b >= 1 {
      ShownNonNegative(b);
    }
  }

  lemma {:induction false} ShownNonNegative(bytes: nat)
    requires bytes >= 1
    ensures 0.0 <= ShownBytes(bytes)
  {
    hide Scale, ShownBytes;
    SizeIsClose(bytes);
    assert InBytes(1.0, Scale(bytes as real, 0).idx) >= 0.0;
  }

  /** Every displayed size starts with a digit. */
  lemma {:induction false} SizeStartsWithDigit(bytes: nat)
    ensures SizeText(bytes) != [] && '0' <= SizeText(bytes)[0] <= '9'
  {
    hide Numeral, Scale, UnitName;
  }

  // ----- the text for a du result -----

  function TrimLeft(s: string): string {
    if s != [] && IsBlank(s[0]) then TrimLeft(s[1..]) else s
  }

  function TrimRight(s: string): string {
    if s != [] && IsBlank(s[|s| - 1]) then TrimRight(s[..|s| - 1]) else s
  }

  const INT64_LIMIT := 0x8000_0000_0000_0000

  /** A signed 64-bit decimal integer, or nothing. */
  function ParseInt64(s: string): Option<int> {
    var negative := s != [] && s[0] == '-';
    var digits := if s != [] && (s[0] == '-' || s[0] == '+') then s[1..] else s;
    if digits == [] || !IsNumeral(digits) then None
    else
      var n: int := if negative then -(NumeralValue(digits) as int) else NumeralValue(digits);
      if -INT64_LIMIT <= n < INT64_LIMIT then Some(n) else None
  }

  /** The output without blanks around it, up to its first tab. */
  function FirstPart(output: string): string {
    Split(TrimRight(TrimLeft(output)), '\t')[0]
  }

  /** What the size badge shows when `du` ends. */
  function DuText(exitCode: int, output: string): string {
    if exitCode != 0 then "N/A"
    else
      match ParseInt64(FirstPart(output))
      case None => "N/A"
      case Some(bytes) => if bytes < 0 then "N/A" else SizeText(bytes)
  }

  predicate AllBlank(s: string) { forall i :: 0 <= i < |s| ==> IsBlank(s[i]) }

  lemma {:induction false} TrimLeftBlank(pre: string, s: string)
    requires AllBlank(pre) && (s != [] ==> !IsBlank(s[0]))
    ensures TrimLeft(pre + s) == s
  {
    if pre == [] {
      assert pre + s == s;
    } else {
      assert (pre + s)[1..] == pre[1..] + s;
      TrimLeftBlank(pre[1..], s);
    }
  }

  lemma {:induction false} TrimRightKeeps(a: string, b: string) returns (k: nat)
    requires a != [] && !IsBlank(a[|a| - 1])
    ensures k <= |b| && TrimRight(a + b) == a + b[..k]
    ensures k > 0 ==> !IsBlank(b[k - 1])
    decreases |b|
  {
    if b == [] {
      k := 0;
      assert a + b == a;
    } else if IsBlank(b[|b| - 1]) {
      var b' := b[..|b| - 1];
      k := TrimRightKeeps(a, b');
      assert (a + b)[..|a + b| - 1] == a + b';
      assert b'[..k] == b[..k];
    } else {
      k := |b|;
      assert b[..k] == b;
    }
  }

  lemma {:induction false} ParseNumeral(n: nat)
    ensures ParseInt64(Numeral(n)) == if n < INT64_LIMIT then Some(n) else None
  {
    NumeralRoundTrip(n);
  }

  /** The first part of an output is what stands between leading blanks and the
      first tab or the trailing blanks. */
  lemma {:induction false} FirstPartIs(pre: string, first: string, rest: string)
    requires AllBlank(pre) && (AllBlank(rest) || rest[0] == '\t')
    requires first != [] && '\t' !in first && !IsBlank(first[0]) && !IsBlank(first[|first| - 1])
    ensures FirstPart(pre + first + rest) == first
  {
    assert pre + first + rest == pre + (first + rest);
    TrimLeftBlank(pre, first + rest);
    var k := TrimRightKeeps(first, rest);
    if k == 0 {
      assert first + rest[..k] == first;
      SplitOne(first, '\t');
    } else {
      assert first + rest[..k] == first + ['\t'] + rest[1..k];
      SplitFirst(first, rest[1..k], '\t');
    }
  }

  /** Empty output has an empty first part. */
  lemma {:induction false} FirstPartOfBlank(output: string)
    requires AllBlank(output)
    ensures FirstPart(output) == ""
  {
    assert output + [] == output;
    TrimLeftBlank(output, []);
  }

  /** A line in du's format shows the formatted number, whatever the path, as
      long as the number fits a qint64. */
  lemma {:induction false} DuLineShowsSize(n: nat, path: string)
    ensures DuText(0, Numeral(n) + "\t" + (path + "\n")) == if n < INT64_LIMIT then SizeText(n) else "N/A"
  {
    hide SizeText, ParseInt64, Numeral, FirstPart;
    NumeralHasNo(Numeral(n), '\t');
    ParseNumeral(n);
    FirstPartIs("", Numeral(n), "\t" + (path + "\n"));
    assert "" + Numeral(n) + ("\t" + (path + "\n")) == Numeral(n) + "\t" + (path + "\n");
  }

  /** `s` spells the number `n` and it fits a qint64: digits, perhaps after a plus
      sign, or zeros after a minus sign. */
  predicate Spells(s: string, n: nat) {
    && n < INT64_LIMIT
    && s != []
    && var digits := if s[0] == '+' || s[0] == '-' then s[1..] else s;
    && digits != [] && IsNumeral(digits) && NumeralValue(digits) == n
    && (s[0] == '-' ==> n == 0)
  }

  /** The badge shows the size if `du` succeeds and the first part of its output,
      with or without a tab after it, spells a number; and N/A exactly otherwise. */
  lemma {:induction false} DuFailureShowsNothing(exitCode: int, output: string)
    ensures DuText(exitCode, output) == "N/A" <==> exitCode != 0 || forall n: nat :: !Spells(FirstPart(output), n)
    ensures forall n: nat :: exitCode == 0 && Spells(FirstPart(output), n) ==> DuText(exitCode, output) == SizeText(n)
    ensures AllBlank(output) ==> DuText(exitCode, output) == "N/A"
  {
    hide SizeText, FirstPart;
    var part := FirstPart(output);
    match ParseInt64(part) {
      case None =>
      case Some(n) =>
        if n >= 0 {
          assert Spells(part, n);
          SizeStartsWithDigit(n);
        }
    }
    if AllBlank(output) {
      FirstPartOfBlank(output);
    }
  }
}
