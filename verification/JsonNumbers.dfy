/**
 The two number printers behind canonical JSON: decimal integers and the shortest
 repr of a float, with the readers of RFC 8259 section 6 that undo them.
 */
module JsonNumbers {
  import opened Prelude
  import opened Utf8

  type Digit = d: int | 0 <= d < 10

  /** A finite double, named by its shortest decimal: 0.d1d2... times 10^point. The
      rounding between a double and that decimal is not part of this model. */
  datatype Decimal = Decimal(negative: bool, digits: seq<Digit>, point: int)

  predicate IsDecimal(f: Decimal) {
    && f.digits != []
    && (f.digits == [0] ==> f.point == 1)
    && (f.digits != [0] ==> f.digits[0] != 0 && f.digits[|f.digits| - 1] != 0)
  }

  type FiniteFloat = f: Decimal | IsDecimal(f) witness Decimal(false, [0], 1)

  const ZERO: CodePoint := '0' as int
  const MINUS: CodePoint := '-' as int
  const PLUS: CodePoint := '+' as int
  const DOT: CodePoint := '.' as int
  const SMALL_E: CodePoint := 'e' as int
  const BIG_E: CodePoint := 'E' as int

  // ---------------------------------------------------------------- digits

  predicate IsDigit(c: CodePoint) {
    ZERO <= c <= ZERO + 9
  }

  function Shown(ds: seq<Digit>): Text {
    seq(|ds|, i requires 0 <= i < |ds| => (ZERO + ds[i]) as CodePoint)
  }

  function Zeros(n: nat): seq<Digit> {
    seq(n, _ => 0)
  }

  function NatDigits(n: nat): (ds: seq<Digit>)
    ensures |ds| >= 1
    ensures n > 0 ==> ds[0] != 0
    ensures n == 0 ==> ds == [0]
  {
    if n < 10 then [n] else NatDigits(n / 10) + [n % 10]
  }

  function NatOf(ds: seq<Digit>): nat {
    if ds == [] then 0 else 10 * NatOf(ds[..|ds| - 1]) + ds[|ds| - 1]
  }

  lemma {:induction false} NatDigitsRoundTrip(n: nat)
    ensures NatOf(NatDigits(n)) == n
  {
    if n >= 10 {
      NatDigitsRoundTrip(n / 10);
      assert NatDigits(n)[..|NatDigits(n)| - 1] == NatDigits(n / 10);
    } else {
      assert NatDigits(n)[..0] == [];
    }
  }

  lemma {:induction false} LeadingZeros(k: nat, ds: seq<Digit>)
    ensures NatOf(Zeros(k) + ds) == NatOf(ds)
  {
    if ds == [] {
      assert Zeros(k) + ds == Zeros(k);
      ZerosAreZero(k);
    } else {
      assert (Zeros(k) + ds)[..k + |ds| - 1] == Zeros(k) + ds[..|ds| - 1];
      LeadingZeros(k, ds[..|ds| - 1]);
    }
  }

  lemma {:induction false} ZerosAreZero(k: nat)
    ensures NatOf(Zeros(k)) == 0
  {
    if k > 0 {
      assert Zeros(k)[..k - 1] == Zeros(k - 1);
      ZerosAreZero(k - 1);
    }
  }

  /** The longest run of digits a text starts with. */
  function TakeDigits(s: Text): (r: (seq<Digit>, Text))
    ensures |r.0| + |r.1| == |s|
  {
    if s == [] || !IsDigit(s[0]) then ([], s)
    else
      var rest := TakeDigits(s[1..]);
      ([s[0] - ZERO] + rest.0, rest.1)
  }

  predicate StartsWithDigit(s: Text) {
    s != [] && IsDigit(s[0])
  }

  lemma {:induction false} TakeShown(ds: seq<Digit>, rest: Text)
    requires !StartsWithDigit(rest)
    ensures TakeDigits(Shown(ds) + rest) == (ds, rest)
  {
    if ds == [] {
      assert Shown(ds) + rest == rest;
    } else {
      assert (Shown(ds) + rest)[1..] == Shown(ds[1..]) + rest;
      TakeShown(ds[1..], rest);
      assert ds == [ds[0]] + ds[1..];
    }
  }

  // ---------------------------------------------------------------- printing

  function Signed(negative: bool, t: Text): Text {
    if negative then [MINUS] + t else t
  }

  function IntText(i: int): Text {
    if i < 0 then Signed(true, Shown(NatDigits(-i))) else Shown(NatDigits(i))
  }

  /** float.__repr__: exponent form outside 10^-4 .. 10^16, else with a dot. */
  function FloatText(f: Decimal): Text
    requires f.digits != []
  {
    Signed(f.negative, if f.point <= -4 || f.point > 16 then ExponentText(f) else FixedText(f))
  }

  /** The digits before and after the dot. */
  function FixedParts(f: Decimal): (seq<Digit>, seq<Digit>) {
    if f.point <= 0 then ([0], Zeros(-f.point) + f.digits)
    else if f.point >= |f.digits| then (f.digits + Zeros(f.point - |f.digits|), [0])
    else (f.digits[..f.point], f.digits[f.point..])
  }

  function FixedText(f: Decimal): Text {
    Shown(FixedParts(f).0) + [DOT] + Shown(FixedParts(f).1)
  }

  function FractionText(frac: seq<Digit>): Text {
    if frac == [] then [] else [DOT] + Shown(frac)
  }

  function ExponentText(f: Decimal): Text
    requires f.digits != []
  {
    Shown(f.digits[..1]) +
    FractionText(f.digits[1..]) +
    ([SMALL_E] + PowerText(f.point - 1))
  }

  /** A signed exponent of at least two digits. */
  function PowerText(e: int): Text {
    if e < 0 then [MINUS] + Shown(Padded(-e)) else [PLUS] + Shown(Padded(e))
  }

  function Padded(n: nat): (ds: seq<Digit>)
    ensures |ds| >= 2
  {
    if n < 10 then [0] + NatDigits(n) else PaddedIsLong(n); NatDigits(n)
  }

  lemma PaddedIsLong(n: nat)
    requires n >= 10
    ensures |NatDigits(n)| >= 2
  {
  }

  // ---------------------------------------------------------------- reading

  function WithSign(negative: bool, magnitude: int): int {
    if negative then -magnitude else magnitude
  }

  datatype Number = Whole(i: int) | Real(f: Decimal)

  /** A number token at the start of a text, and what follows it. */
  function ReadNumber(s: Text): (r: Option<(Number, Text)>)
    ensures r.Some? ==> |r.value.1| < |s|
  {
    var negative := s != [] && s[0] == MINUS;
    var body := if negative then s[1..] else s;
    var whole := TakeWhole(body);
    if whole.0 == [] then None else Some(ReadTail(negative, whole.0, whole.1))
  }

  /** What follows the integer part decides between an int and a float. */
  function ReadTail(negative: bool, whole: seq<Digit>, s: Text): (r: (Number, Text))
    ensures |r.1| <= |s|
  {
    var frac := ReadFraction(s);
    var power := ReadPower(frac.1);
    if frac.0 == [] && power.0.None? then (Whole(WithSign(negative, NatOf(whole))), s)
    else
      var e := match power.0 case None => 0 case Some(e) => e;
      (Real(Normalized(negative, whole + frac.0, |whole| + e)), power.1)
  }

  /** The integer part: a single zero, or digits that do not start with one. */
  function TakeWhole(s: Text): (r: (seq<Digit>, Text))
    ensures |r.0| + |r.1| == |s|
  {
    if s != [] && s[0] == ZERO then ([0], s[1..]) else TakeDigits(s)
  }

  lemma TakeWholeShown(ds: seq<Digit>, rest: Text)
    requires !StartsWithDigit(rest) && ds != [] && (ds[0] == 0 ==> |ds| == 1)
    ensures TakeWhole(Shown(ds) + rest) == (ds, rest)
  {
    TakeShown(ds, rest);
    if ds[0] == 0 {
      assert ds == [0];
      assert (Shown(ds) + rest)[1..] == rest;
    } else {
      assert (Shown(ds) + rest)[0] != ZERO;
    }
  }

  /** The optional fraction: a dot and at least one digit, or nothing. */
  function ReadFraction(s: Text): (r: (seq<Digit>, Text))
    ensures |r.1| <= |s|
    ensures r.0 == [] ==> r.1 == s
  {
    if s != [] && s[0] == DOT && TakeDigits(s[1..]).0 != [] then TakeDigits(s[1..]) else ([], s)
  }

  function ReadPower(s: Text): (r: (Option<int>, Text))
    ensures |r.1| <= |s|
    ensures r.0.None? ==> r.1 == s
  {
    if s == [] || (s[0] != SMALL_E && s[0] != BIG_E) then (None, s)
    else
      var signed := |s| > 1 && (s[1] == PLUS || s[1] == MINUS);
      var ds := TakeDigits(if signed then s[2..] else s[1..]);
      if ds.0 == [] then (None, s)
      else (Some(WithSign(signed && s[1] == MINUS, NatOf(ds.0))), ds.1)
  }

  /** The shortest decimal with the value 0.D times 10^point: no zero at either end. */
  function Normalized(negative: bool, ds: seq<Digit>, point: int): Decimal
    decreases |ds|
  {
    if ds == [] then Decimal(negative, [0], 1)
    else if ds[0] == 0 then Normalized(negative, ds[1..], point - 1)
    else if ds[|ds| - 1] == 0 then Normalized(negative, ds[..|ds| - 1], point)
    else Decimal(negative, ds, point)
  }

  lemma {:induction false} NormalizedIsDecimal(negative: bool, ds: seq<Digit>, point: int)
    ensures IsDecimal(Normalized(negative, ds, point))
    decreases |ds|
  {
    if ds != [] && ds[0] == 0 {
      NormalizedIsDecimal(negative, ds[1..], point - 1);
    } else if ds != [] && ds[|ds| - 1] == 0 {
      NormalizedIsDecimal(negative, ds[..|ds| - 1], point);
    }
  }

  lemma ReadsDecimals(s: Text)
    ensures var r := ReadNumber(s); r.Some? && r.value.0.Real? ==> IsDecimal(r.value.0.f)
  {
    var negative := s != [] && s[0] == MINUS;
    var whole := TakeWhole(if negative then s[1..] else s);
    var frac := ReadFraction(whole.1);
    var power := ReadPower(frac.1);
    var e := match power.0 case None => 0 case Some(e) => e;
    NormalizedIsDecimal(negative, whole.0 + frac.0, |whole.0| + e);
  }

  lemma {:induction false} NormalizeStripped(negative: bool, a: nat, ds: seq<Digit>, c: nat, point: int)
    requires ds != [] && ds[0] != 0 && ds[|ds| - 1] != 0
    ensures Normalized(negative, Zeros(a) + ds + Zeros(c), point) == Decimal(negative, ds, point - a)
    decreases a + c
  {
    var all := Zeros(a) + ds + Zeros(c);
    if a > 0 {
      LeadingZero(a, ds + Zeros(c));
      assert all == Zeros(a) + (ds + Zeros(c)) && Zeros(a - 1) + (ds + Zeros(c)) == Zeros(a - 1) + ds + Zeros(c);
      NormalizeStripped(negative, a - 1, ds, c, point - 1);
    } else if c > 0 {
      assert all == ds + Zeros(c) && Zeros(0) + ds + Zeros(c - 1) == ds + Zeros(c - 1);
      TrailingZero(ds, c);
      NormalizeStripped(negative, a, ds, c - 1, point);
    } else {
      assert all == ds;
    }
  }

  lemma LeadingZero(a: nat, rest: seq<Digit>)
    requires a > 0
    ensures var all := Zeros(a) + rest; all[0] == 0 && all[1..] == Zeros(a - 1) + rest
  {
  }

  lemma TrailingZero(ds: seq<Digit>, c: nat)
    requires ds != [] && c > 0
    ensures var all := ds + Zeros(c);
      all[0] == ds[0] && all[|all| - 1] == 0 && all[..|all| - 1] == ds + Zeros(c - 1)
  {
  }

  lemma {:induction false} NormalizeZeros(negative: bool, n: nat, point: int)
    ensures Normalized(negative, Zeros(n), point) == Decimal(negative, [0], 1)
    decreases n
  {
    if n > 0 {
      assert Zeros(n)[1..] == Zeros(n - 1);
      NormalizeZeros(negative, n - 1, point - 1);
    }
  }

  // ---------------------------------------------------------------- round trips

  /** A text that cannot continue a number. */
  predicate EndsNumber(rest: Text) {
    rest == [] || !(IsDigit(rest[0]) || rest[0] == DOT || rest[0] == SMALL_E || rest[0] == BIG_E)
  }

  predicate IsWhole(ds: seq<Digit>) {
    ds != [] && (ds[0] == 0 ==> |ds| == 1)
  }

  lemma ReadWhole(negative: bool, ds: seq<Digit>, tail: Text)
    requires IsWhole(ds) && !StartsWithDigit(tail)
    ensures ReadNumber(Signed(negative, Shown(ds) + tail)) == Some(ReadTail(negative, ds, tail))
  {
    var body := Shown(ds) + tail;
    assert body[0] == ZERO + ds[0];
    assert ([MINUS] + body)[1..] == body;
    TakeWholeShown(ds, tail);
  }

  lemma IntRoundTrip(i: int, rest: Text)
    requires EndsNumber(rest)
    ensures ReadNumber(IntText(i) + rest) == Some((Whole(i), rest))
  {
    var n := if i < 0 then -i else i;
    var ds := NatDigits(n);
    assert IntText(i) + rest == Signed(i < 0, Shown(ds) + rest);
    ReadWhole(i < 0, ds, rest);
    NatDigitsRoundTrip(n);
  }

  lemma ReadShownFraction(ds: seq<Digit>, rest: Text)
    requires ds != [] && !StartsWithDigit(rest)
    ensures ReadFraction([DOT] + Shown(ds) + rest) == (ds, rest)
  {
    var s := [DOT] + Shown(ds) + rest;
    assert s[1..] == Shown(ds) + rest;
    TakeShown(ds, rest);
  }

  lemma PaddedValue(n: nat)
    ensures NatOf(Padded(n)) == n
  {
    NatDigitsRoundTrip(n);
    if n < 10 {
      LeadingZeros(1, NatDigits(n));
      assert Zeros(1) + NatDigits(n) == Padded(n);
    }
  }

  lemma ReadShownPower(e: int, rest: Text)
    requires EndsNumber(rest)
    ensures ReadPower([SMALL_E] + PowerText(e) + rest) == (Some(e), rest)
  {
    var ds := Padded(if e < 0 then -e else e);
    var s := [SMALL_E] + PowerText(e) + rest;
    assert s[2..] == Shown(ds) + rest;
    TakeShown(ds, rest);
    PaddedValue(if e < 0 then -e else e);
  }

  lemma TailFixed(negative: bool, whole: seq<Digit>, frac: seq<Digit>, rest: Text)
    requires frac != [] && EndsNumber(rest)
    ensures ReadTail(negative, whole, [DOT] + Shown(frac) + rest) ==
            (Real(Normalized(negative, whole + frac, |whole|)), rest)
  {
    ReadShownFraction(frac, rest);
  }

  lemma TailScaled(negative: bool, whole: seq<Digit>, frac: seq<Digit>, e: int, rest: Text)
    requires EndsNumber(rest)
    ensures ReadTail(negative, whole, FractionText(frac) + ([SMALL_E] + PowerText(e) + rest)) ==
            (Real(Normalized(negative, whole + frac, |whole| + e)), rest)
  {
    var power := [SMALL_E] + PowerText(e) + rest;
    ReadShownPower(e, rest);
    if frac == [] {
      assert FractionText(frac) + power == power;
    } else {
      ReadShownFraction(frac, power);
    }
  }

  lemma SmallNormalizes(f: Decimal)
    requires IsDecimal(f) && f.point <= 0
    ensures Normalized(f.negative, FixedParts(f).0 + FixedParts(f).1, 1) == f
  {
    assert [0] + (Zeros(-f.point) + f.digits) == Zeros(1 - f.point) + f.digits + Zeros(0);
    NormalizeStripped(f.negative, 1 - f.point, f.digits, 0, 1);
  }

  lemma LargeNormalizes(f: Decimal)
    requires IsDecimal(f) && f.point > 0 && f.point >= |f.digits|
    ensures Normalized(f.negative, FixedParts(f).0 + FixedParts(f).1, f.point) == f
  {
    var k := f.point - |f.digits|;
    if f.digits == [0] {
      assert f.digits + Zeros(0) + [0] == Zeros(2);
      NormalizeZeros(f.negative, 2, 1);
    } else {
      assert f.digits + Zeros(k) + [0] == Zeros(0) + f.digits + Zeros(k + 1);
      NormalizeStripped(f.negative, 0, f.digits, k + 1, f.point);
    }
  }

  lemma SplitNormalizes(f: Decimal, n: nat)
    requires IsDecimal(f) && f.digits != [0] && n <= |f.digits|
    ensures Normalized(f.negative, f.digits[..n] + f.digits[n..], f.point) == f
  {
    assert f.digits[..n] + f.digits[n..] == f.digits == Zeros(0) + f.digits + Zeros(0);
    NormalizeStripped(f.negative, 0, f.digits, 0, f.point);
  }

  lemma FixedNormalizes(f: Decimal)
    requires IsDecimal(f)
    ensures IsWhole(FixedParts(f).0) && FixedParts(f).1 != []
    ensures Normalized(f.negative, FixedParts(f).0 + FixedParts(f).1, |FixedParts(f).0|) == f
  {
    if f.point <= 0 {
      SmallNormalizes(f);
    } else if f.point >= |f.digits| {
      LargeNormalizes(f);
    } else {
      SplitNormalizes(f, f.point);
    }
  }

  lemma SignedTail(negative: bool, a: Text, c: Text, d: Text, rest: Text)
    ensures Signed(negative, a + c + d) + rest == Signed(negative, a + (c + (d + rest)))
  {
    assert a + c + d + rest == a + (c + (d + rest));
  }

  lemma FixedRoundTrip(f: Decimal, rest: Text)
    requires IsDecimal(f) && EndsNumber(rest)
    ensures ReadNumber(Signed(f.negative, FixedText(f)) + rest) == Some((Real(f), rest))
  {
    var whole, frac := FixedParts(f).0, FixedParts(f).1;
    SignedTail(f.negative, Shown(whole), [DOT], Shown(frac), rest);
    assert [DOT] + (Shown(frac) + rest) == [DOT] + Shown(frac) + rest;
    FixedNormalizes(f);
    ReadWhole(f.negative, whole, [DOT] + Shown(frac) + rest);
    TailFixed(f.negative, whole, frac, rest);
  }

  lemma ScaledRoundTrip(negative: bool, first: seq<Digit>, others: seq<Digit>, e: int, rest: Text, f: Decimal)
    requires |first| == 1 && EndsNumber(rest) && Normalized(negative, first + others, 1 + e) == f
    ensures ReadNumber(Signed(negative, Shown(first) + FractionText(others) + ([SMALL_E] + PowerText(e))) + rest) ==
            Some((Real(f), rest))
  {
    var power := [SMALL_E] + PowerText(e);
    var tail := FractionText(others) + (power + rest);
    SignedTail(negative, Shown(first), FractionText(others), power, rest);
    assert !StartsWithDigit(tail);
    ReadWhole(negative, first, tail);
    TailScaled(negative, first, others, e, rest);
  }

  lemma ExponentRoundTrip(f: Decimal, rest: Text)
    requires IsDecimal(f) && f.digits != [0] && EndsNumber(rest)
    ensures ReadNumber(Signed(f.negative, ExponentText(f)) + rest) == Some((Real(f), rest))
  {
    SplitNormalizes(f, 1);
    ScaledRoundTrip(f.negative, f.digits[..1], f.digits[1..], f.point - 1, rest, f);
  }

  /** repr of a float reads back as that float, never as an integer. */
  lemma FloatRoundTrip(f: Decimal, rest: Text)
    requires IsDecimal(f) && EndsNumber(rest)
    ensures ReadNumber(FloatText(f) + rest) == Some((Real(f), rest))
  {
    if f.point <= -4 || f.point > 16 {
      ExponentRoundTrip(f, rest);
    } else {
      FixedRoundTrip(f, rest);
    }
  }
}
