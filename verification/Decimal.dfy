/** Exact decimals (`experiments/baseline/decimal.ts`): a value is units × 10^-scale. */
module Decimals {
  import opened Text

  datatype Decimal = Decimal(units: int, scale: nat)

  function Pow10(n: nat): (p: int)
    ensures p > 0
  {
    if n == 0 then 1 else 10 * Pow10(n - 1)
  }

  /** The value counted in units of 10^-s, at any scale that is fine enough. */
  function Scaled(d: Decimal, s: nat): int
    requires d.scale <= s
  {
    d.units * Pow10(s - d.scale)
  }

  /** The two stand for the same number. */
  predicate Same(a: Decimal, b: Decimal) {
    var s := if a.scale > b.scale then a.scale else b.scale;
    Scaled(a, s) == Scaled(b, s)
  }

  // ---- digits ----

  function Digit(n: int): char
    requires 0 <= n < 10
  {
    ['0', '1', '2', '3', '4', '5', '6', '7', '8', '9'][n]
  }

  predicate IsDigit(c: char) { '0' <= c <= '9' }

  function DigitValue(c: char): int
    requires IsDigit(c)
  {
    c as int - '0' as int
  }

  /** `toString` of a bigint that is not negative. */
  function Digits(n: nat): (t: string)
    ensures |t| > 0 && AllDigits(t)
  {
    if n < 10 then [Digit(n)] else Digits(n / 10) + [Digit(n % 10)]
  }

  predicate AllDigits(t: string) { forall i | 0 <= i < |t| :: IsDigit(t[i]) }

  /** `BigInt` of a text of digits. */
  function NatOf(t: string): nat
    requires AllDigits(t)
  {
    if |t| == 0 then 0 else NatOf(t[..|t| - 1]) * 10 + DigitValue(t[|t| - 1])
  }

  // ---- reading a number ----

  /** The text of a number: a sign, digits, digits after the point, and a power of ten. */
  datatype Numeral = Numeral(negative: bool, whole: string, fraction: string, exponent: int)

  /** `decimal` */
  function FromNumeral(n: Numeral): Decimal
    requires AllDigits(n.whole) && AllDigits(n.fraction)
  {
    var scale := |n.fraction| - n.exponent;
    var magnitude: int := NatOf(n.whole + n.fraction);
    var units: int := if n.negative then -magnitude else magnitude;
    if scale < 0 then Decimal(units * Pow10(-scale), 0) else Decimal(units, scale)
  }

  // ---- adding ----

  function MaxScale(values: seq<Decimal>): (s: nat)
    ensures forall i | 0 <= i < |values| :: values[i].scale <= s
  {
    if |values| == 0 then 0
    else
      var rest := MaxScale(values[..|values| - 1]);
      if values[|values| - 1].scale > rest then values[|values| - 1].scale else rest
  }

  predicate FineEnough(values: seq<Decimal>, s: nat) { forall i | 0 <= i < |values| :: values[i].scale <= s }

  function Total(values: seq<Decimal>, s: nat): int
    requires FineEnough(values, s)
  {
    if |values| == 0 then 0 else Total(values[..|values| - 1], s) + Scaled(values[|values| - 1], s)
  }

  /** `addDecimals` */
  function AddDecimals(values: seq<Decimal>): Decimal {
    Decimal(Total(values, MaxScale(values)), MaxScale(values))
  }

  lemma {:induction false} PowAdd(a: nat, b: nat)
    ensures Pow10(a + b) == Pow10(a) * Pow10(b)
  {
    if a > 0 {
      PowAdd(a - 1, b);
    }
  }

  lemma Rescale(d: Decimal, s: nat, more: nat)
    requires d.scale <= s
    ensures Scaled(d, s + more) == Scaled(d, s) * Pow10(more)
  {
    hide Pow10;
    PowAdd(s - d.scale, more);
    assert s + more - d.scale == (s - d.scale) + more;
    MulAssociates(d.units, Pow10(s - d.scale), Pow10(more));
  }

  lemma MulAssociates(a: int, b: int, c: int)
    ensures a * (b * c) == a * b * c
  {
  }

  lemma MulDistributes(a: int, b: int, c: int)
    ensures (a + b) * c == a * c + b * c
  {
  }

  lemma {:induction false} RescaleTotal(values: seq<Decimal>, s: nat, more: nat)
    requires FineEnough(values, s)
    ensures Total(values, s + more) == Total(values, s) * Pow10(more)
  {
    hide Pow10, Scaled;
    if |values| > 0 {
      RescaleTotal(values[..|values| - 1], s, more);
      Rescale(values[|values| - 1], s, more);
      MulDistributes(Total(values[..|values| - 1], s), Scaled(values[|values| - 1], s), Pow10(more));
    }
  }

  /** The sum is exact: at every scale that can hold the values, it counts what they count together. */
  lemma SumIsExact(values: seq<Decimal>, s: nat)
    requires FineEnough(values, s)
    ensures AddDecimals(values).scale <= s && Scaled(AddDecimals(values), s) == Total(values, s)
  {
    LeastScale(values, s);
    RescaleTotal(values, MaxScale(values), s - MaxScale(values));
  }

  lemma {:induction false} LeastScale(values: seq<Decimal>, s: nat)
    requires FineEnough(values, s)
    ensures MaxScale(values) <= s
  {
    if |values| > 0 {
      LeastScale(values[..|values| - 1], s);
    }
  }

  lemma {:induction false} TotalParts(a: seq<Decimal>, b: seq<Decimal>, s: nat)
    requires FineEnough(a, s) && FineEnough(b, s)
    ensures FineEnough(a + b, s) && Total(a + b, s) == Total(a, s) + Total(b, s)
  {
    if |b| == 0 {
      assert a + b == a;
    } else {
      assert (a + b)[..|a + b| - 1] == a + b[..|b| - 1];
      TotalParts(a, b[..|b| - 1], s);
    }
  }

  /** The sum of two lists together is the sum of their sums, that of one value is the value, and that of none is zero. */
  lemma SumIsAdditive(a: seq<Decimal>, b: seq<Decimal>, d: Decimal, s: nat)
    requires FineEnough(a, s) && FineEnough(b, s)
    ensures AddDecimals(a + b).scale <= s && AddDecimals(a).scale <= s && AddDecimals(b).scale <= s
    ensures Scaled(AddDecimals(a + b), s) == Scaled(AddDecimals(a), s) + Scaled(AddDecimals(b), s)
    ensures AddDecimals([d]) == d && AddDecimals([]).units == 0
  {
    hide Pow10, Scaled, Total, AddDecimals;
    TotalParts(a, b, s);
    SumIsExact(a + b, s);
    SumIsExact(a, s);
    SumIsExact(b, s);
    OneAlone(d);
  }

  lemma OneAlone(d: Decimal)
    ensures AddDecimals([d]) == d && AddDecimals([]).units == 0
  {
    var one := [d];
    assert one[..0] == [];
    assert MaxScale([]) == 0 && MaxScale(one) == d.scale;
    assert Pow10(0) == 1 && Scaled(d, d.scale) == d.units * 1;
    assert Total(one, d.scale) == Total([], d.scale) + Scaled(d, d.scale);
  }

  lemma {:induction false} TotalWithout(values: seq<Decimal>, i: nat, s: nat)
    requires FineEnough(values, s) && i < |values|
    ensures Total(values, s) == Total(values[..i] + values[i + 1..], s) + Scaled(values[i], s)
  {
    var rest := values[..i] + values[i + 1..];
    if i == |values| - 1 {
      assert rest == values[..i];
    } else {
      var init := values[..|values| - 1];
      TotalWithout(init, i, s);
      assert rest[..|rest| - 1] == init[..i] + init[i + 1..];
    }
  }

  lemma {:induction false} SameTotal(a: seq<Decimal>, b: seq<Decimal>, s: nat)
    requires multiset(a) == multiset(b) && FineEnough(a, s) && FineEnough(b, s)
    ensures Total(a, s) == Total(b, s)
    decreases |a|
  {
    hide Scaled, Total, FineEnough;
    if |a| == 0 {
      assert |multiset(b)| == 0;
      assert a == b;
    } else {
      var x := a[|a| - 1];
      var init := a[..|a| - 1];
      assert x in multiset(a);
      assert x in multiset(b);
      var i :| 0 <= i < |b| && b[i] == x;
      SameRest(b, i);
      SameRest(a, |a| - 1);
      assert a[..|a| - 1] + a[|a|..] == init;
      FineRest(a, |a| - 1, s);
      FineRest(b, i, s);
      SameTotal(init, b[..i] + b[i + 1..], s);
      TotalWithout(a, |a| - 1, s);
      TotalWithout(b, i, s);
    }
  }

  lemma FineRest(values: seq<Decimal>, i: nat, s: nat)
    requires FineEnough(values, s) && i < |values|
    ensures FineEnough(values[..i] + values[i + 1..], s)
  {
  }

  lemma SameRest(b: seq<Decimal>, i: nat)
    requires i < |b|
    ensures multiset(b[..i] + b[i + 1..]) == multiset(b) - multiset{b[i]}
  {
    assert b == b[..i] + [b[i]] + b[i + 1..];
  }

  /** The order of the values does not matter, not even for the scale. */
  lemma SumIgnoresOrder(a: seq<Decimal>, b: seq<Decimal>)
    requires multiset(a) == multiset(b)
    ensures AddDecimals(a) == AddDecimals(b)
  {
    Within(a, b);
    Within(b, a);
    LeastScale(a, MaxScale(b));
    LeastScale(b, MaxScale(a));
    SameTotal(a, b, MaxScale(a));
  }

  lemma Within(a: seq<Decimal>, b: seq<Decimal>)
    requires multiset(a) == multiset(b)
    ensures FineEnough(a, MaxScale(b))
  {
    forall i | 0 <= i < |a| ensures a[i].scale <= MaxScale(b) {
      assert a[i] in multiset(a);
      assert a[i] in multiset(b);
    }
  }

  // ---- text ----

  function Zeros(n: nat): (t: string)
    ensures |t| == n && AllDigits(t) && forall i | 0 <= i < n :: t[i] == '0'
  {
    if n == 0 then "" else Zeros(n - 1) + "0"
  }

  /** `padStart` with zeros. */
  function Padded(t: string, n: nat): (r: string)
    ensures |r| >= n && |r| >= |t|
    ensures AllDigits(t) ==> AllDigits(r)
  {
    if |t| >= n then t else Zeros(n - |t|) + t
  }

  function TrailingZeros(t: string): (n: nat)
    ensures n <= |t|
  {
    if |t| == 0 || t[|t| - 1] != '0' then 0 else 1 + TrailingZeros(t[..|t| - 1])
  }

  /** `replace(/\.?0+$/, '')` */
  function WithoutZeros(t: string): string {
    var n := TrailingZeros(t);
    var kept := t[..|t| - n];
    if n > 0 && |kept| > 0 && kept[|kept| - 1] == '.' then kept[..|kept| - 1] else kept
  }

  function Pointed(digits: string, scale: nat): string
    requires scale <= |digits|
  {
    digits[..|digits| - scale] + "." + digits[|digits| - scale..]
  }

  /** `decimalText` of a value that is not negative. */
  function DecimalText(d: Decimal): string
    requires d.units >= 0
  {
    var digits := Padded(Digits(d.units), d.scale + 1);
    if d.scale == 0 then digits else WithoutZeros(Pointed(digits, d.scale))
  }

  function FindPoint(t: string): (at: Option<nat>)
    ensures at.Some? ==> at.value < |t| && t[at.value] == '.' && forall i | 0 <= i < at.value :: t[i] != '.'
    ensures at.None? ==> forall i | 0 <= i < |t| :: t[i] != '.'
  {
    if |t| == 0 then None
    else if t[0] == '.' then Some(0)
    else
      var more := FindPoint(t[1..]);
      if more.None? then None else Some(1 + more.value)
  }

  /** Reading such a text back: digits, and digits after a point if there is one. */
  function ReadDecimal(t: string): Option<Decimal> {
    var point := FindPoint(t);
    if point.None? then ReadParts(t, "") else ReadParts(t[..point.value], t[point.value + 1..])
  }

  function ReadParts(whole: string, fraction: string): Option<Decimal> {
    if AllDigits(whole + fraction) then Some(Decimal(NatOf(whole + fraction), |fraction|)) else None
  }

  lemma DigitReads(n: int)
    requires 0 <= n < 10
    ensures IsDigit(Digit(n)) && DigitValue(Digit(n)) == n
  {
  }

  lemma {:induction false} DigitsRead(n: nat)
    ensures NatOf(Digits(n)) == n && DigitValue(Digits(n)[|Digits(n)| - 1]) == n % 10
  {
    DigitReads(n % 10);
    if n >= 10 {
      DigitsRead(n / 10);
      var t := Digits(n / 10);
      assert (t + [Digit(n % 10)])[..|t|] == t;
    } else {
      assert [Digit(n)][..0] == [];
    }
  }

  lemma {:induction false} ZerosRead(n: nat, t: string)
    requires AllDigits(t)
    ensures AllDigits(Zeros(n) + t) && NatOf(Zeros(n) + t) == NatOf(t)
  {
    if |t| == 0 {
      assert Zeros(n) + t == Zeros(n);
      if n > 0 {
        ZerosRead(n - 1, t);
        assert Zeros(n - 1) + t == Zeros(n - 1);
        assert Zeros(n)[..n - 1] == Zeros(n - 1);
      }
    } else {
      ZerosRead(n, t[..|t| - 1]);
      var all := Zeros(n) + t;
      assert all[..|all| - 1] == Zeros(n) + t[..|t| - 1];
    }
  }

  lemma PaddedReads(n: nat, size: nat)
    ensures NatOf(Padded(Digits(n), size)) == n
  {
    DigitsRead(n);
    if |Digits(n)| < size {
      ZerosRead(size - |Digits(n)|, Digits(n));
    }
  }

  lemma NoPoint(t: string)
    requires AllDigits(t)
    ensures FindPoint(t) == None
  {
  }

  lemma PointAt(digits: string, scale: nat)
    requires scale <= |digits| && AllDigits(digits)
    ensures FindPoint(Pointed(digits, scale)) == Some(|digits| - scale)
  {
    var t := Pointed(digits, scale);
    var at := |digits| - scale;
    assert forall i | 0 <= i < at :: t[i] == digits[i];
    assert t[at] == '.';
  }

  /** One zero more at the end, and one digit more after the point, make the same text. */
  lemma TimesTen(u: nat, s: nat)
    ensures DecimalText(Decimal(10 * u, s + 1)) == DecimalText(Decimal(u, s))
  {
    hide Padded, Digits, Zeros, WithoutZeros, Pointed;
    PaddedTen(u, s);
    PaddedDigits(u, s + 1);
    if s == 0 {
      OnlyZero(Padded(Digits(u), 1));
    } else {
      LongerText(Padded(Digits(u), s + 1), s);
    }
  }

  lemma PaddedDigits(u: nat, n: nat)
    ensures AllDigits(Padded(Digits(u), n))
  {
    hide Zeros;
  }

  lemma OnlyZero(digits: string)
    requires |digits| > 0 && AllDigits(digits)
    ensures WithoutZeros(Pointed(digits + "0", 1)) == digits
  {
    var longer := Pointed(digits + "0", 1);
    assert (digits + "0")[..|digits|] == digits && (digits + "0")[|digits|..] == "0";
    assert longer == digits + "." + "0";
    assert longer[..|longer| - 1] == digits + ".";
    assert TrailingZeros(digits + ".") == 0;
    assert (digits + ".")[..|digits|] == digits;
  }

  lemma LongerText(digits: string, s: nat)
    requires 0 < s < |digits| && AllDigits(digits)
    ensures WithoutZeros(Pointed(digits + "0", s + 1)) == WithoutZeros(Pointed(digits, s))
  {
    hide WithoutZeros;
    var text := Pointed(digits, s);
    var longer := digits + "0";
    assert longer[..|longer| - (s + 1)] == digits[..|digits| - s];
    assert longer[|longer| - (s + 1)..] == digits[|digits| - s..] + "0";
    assert Pointed(longer, s + 1) == text + "0";
    assert text[|text| - 1] == digits[|digits| - 1];
    assert IsDigit(digits[|digits| - 1]);
    OneZeroMore(text);
  }

  lemma OneZeroMore(t: string)
    requires |t| > 0 && t[|t| - 1] != '.'
    ensures WithoutZeros(t + "0") == WithoutZeros(t)
  {
    var n := TrailingZeros(t);
    assert (t + "0")[..|t|] == t;
    assert (t + "0")[..|t| - n] == t[..|t| - n];
  }

  lemma PaddedTen(u: nat, s: nat)
    ensures Padded(Digits(10 * u), s + 2) == Padded(Digits(u), s + 1) + "0"
  {
    hide Digits, Zeros;
    if u == 0 {
      ZeroDigits();
      ZeroPadded(s + 1);
      ZeroPadded(s + 2);
      ZerosMore(s + 1);
    } else {
      TenDigits(u);
      if |Digits(u)| < s + 1 {
        assert Zeros(s + 1 - |Digits(u)|) + Digits(u) + "0" == Zeros(s + 1 - |Digits(u)|) + (Digits(u) + "0");
      }
    }
  }

  lemma ZeroDigits()
    ensures Digits(0) == "0"
  {
  }

  lemma ZerosMore(n: nat)
    ensures Zeros(n + 1) == Zeros(n) + "0"
  {
  }

  lemma TenDigits(u: nat)
    requires u > 0
    ensures Digits(10 * u) == Digits(u) + "0"
  {
  }

  lemma ZeroPadded(n: nat)
    requires n > 0
    ensures Padded("0", n) == Zeros(n)
  {
    if n == 1 {
      assert Zeros(1) == Zeros(0) + "0" == "0";
    }
  }

  /** Without the zeros that the text drops. */
  function Reduced(d: Decimal): (r: Decimal)
    requires d.units >= 0
    ensures r.units >= 0 && (r.scale == 0 || r.units % 10 != 0) && r.scale <= d.scale
    decreases d.scale
  {
    if d.scale == 0 || d.units % 10 != 0 then d else Reduced(Decimal(d.units / 10, d.scale - 1))
  }

  lemma {:induction false} ReducedIsSame(d: Decimal)
    requires d.units >= 0
    ensures DecimalText(Reduced(d)) == DecimalText(d)
    ensures Reduced(d).units * Pow10(d.scale - Reduced(d).scale) == d.units
    decreases d.scale
  {
    hide DecimalText;
    if d.scale > 0 && d.units % 10 == 0 {
      var less := Decimal(d.units / 10, d.scale - 1);
      ReducedIsSame(less);
      TimesTen(less.units, less.scale);
      var r := Reduced(d);
      assert Pow10(d.scale - r.scale) == 10 * Pow10(less.scale - r.scale);
      assert r.units * (10 * Pow10(less.scale - r.scale)) == 10 * (r.units * Pow10(less.scale - r.scale));
    }
  }

  lemma ReducedText(d: Decimal)
    requires d.units >= 0 && (d.scale == 0 || d.units % 10 != 0)
    ensures ReadDecimal(DecimalText(d)) == Some(d)
  {
    hide Digits, Padded, Pointed, NatOf, WithoutZeros;
    var digits := Padded(Digits(d.units), d.scale + 1);
    PaddedReads(d.units, d.scale + 1);
    PaddedDigits(d.units, d.scale + 1);
    if d.scale == 0 {
      NoPoint(digits);
      assert digits + "" == digits;
    } else {
      DigitsRead(d.units);
      LastOfPadded(Digits(d.units), d.scale + 1);
      NothingToDrop(digits, d.scale);
      PointedReads(digits, d.scale);
    }
  }

  lemma NothingToDrop(digits: string, scale: nat)
    requires 0 < scale < |digits| && AllDigits(digits) && DigitValue(digits[|digits| - 1]) != 0
    ensures WithoutZeros(Pointed(digits, scale)) == Pointed(digits, scale)
  {
    var text := Pointed(digits, scale);
    assert text[|text| - 1] == digits[|digits| - 1];
    assert TrailingZeros(text) == 0;
    assert text[..|text|] == text;
  }

  lemma PointedReads(digits: string, scale: nat)
    requires scale <= |digits| && AllDigits(digits)
    ensures ReadDecimal(Pointed(digits, scale)) == Some(Decimal(NatOf(digits), scale))
  {
    hide NatOf, FindPoint, Pointed, AllDigits, ReadParts;
    PointAt(digits, scale);
    PointedParts(digits, scale);
    PartsRead(digits, scale);
  }

  lemma PartsRead(digits: string, scale: nat)
    requires scale <= |digits| && AllDigits(digits)
    ensures ReadParts(digits[..|digits| - scale], digits[|digits| - scale..]) == Some(Decimal(NatOf(digits), scale))
  {
    hide NatOf, AllDigits;
    Halves(digits, |digits| - scale);
  }

  lemma Halves(t: string, n: nat)
    requires n <= |t|
    ensures t[..n] + t[n..] == t
  {
  }

  lemma PointedParts(digits: string, scale: nat)
    requires scale <= |digits|
    ensures var text, at := Pointed(digits, scale), |digits| - scale;
            |text| == |digits| + 1 && text[..at] == digits[..at] && text[at + 1..] == digits[at..]
  {
    var text, at := Pointed(digits, scale), |digits| - scale;
    assert text[..at] == digits[..at];
    assert text[at + 1..] == digits[at..];
  }

  lemma LastOfPadded(t: string, n: nat)
    requires |t| > 0
    ensures Padded(t, n)[|Padded(t, n)| - 1] == t[|t| - 1]
  {
  }

  /** The text reads back to the same number: to its reduced form. */
  lemma TextReadsBack(d: Decimal)
    requires d.units >= 0
    ensures ReadDecimal(DecimalText(d)) == Some(Reduced(d)) && Same(Reduced(d), d)
  {
    ReducedIsSame(d);
    ReducedText(Reduced(d));
    assert Pow10(0) == 1;
  }

  lemma DividesTen(a: int, b: int, k: nat)
    requires k > 0 && a == b * Pow10(k)
    ensures a % 10 == 0
  {
    assert Pow10(k) == 10 * Pow10(k - 1);
    assert b * (10 * Pow10(k - 1)) == 10 * (b * Pow10(k - 1));
  }

  lemma ReducedUnique(a: Decimal, b: Decimal)
    requires a.units >= 0 && b.units >= 0 && Same(a, b)
    requires (a.scale == 0 || a.units % 10 != 0) && (b.scale == 0 || b.units % 10 != 0)
    ensures a == b
  {
    assert Pow10(0) == 1;
    if a.scale > b.scale {
      DividesTen(a.units, b.units, a.scale - b.scale);
    } else if b.scale > a.scale {
      DividesTen(b.units, a.units, b.scale - a.scale);
    }
  }

  lemma SameAt(a: Decimal, b: Decimal, s: nat)
    requires a.scale <= s && b.scale <= s
    ensures Same(a, b) <==> Scaled(a, s) == Scaled(b, s)
  {
    var top := if a.scale > b.scale then a.scale else b.scale;
    Rescale(a, top, s - top);
    Rescale(b, top, s - top);
    Cancel(Scaled(a, top), Scaled(b, top), Pow10(s - top));
  }

  lemma Cancel(x: int, y: int, p: int)
    requires p > 0
    ensures x * p == y * p <==> x == y
  {
  }

  /** Equal text exactly for equal numbers. */
  lemma TextIsCanonical(a: Decimal, b: Decimal)
    requires a.units >= 0 && b.units >= 0
    ensures DecimalText(a) == DecimalText(b) <==> Same(a, b)
  {
    hide DecimalText, Same, ReadDecimal;
    TextReadsBack(a);
    TextReadsBack(b);
    var s := a.scale + b.scale;
    var x, y := Reduced(a), Reduced(b);
    SameAt(x, a, s);
    SameAt(y, b, s);
    SameAt(a, b, s);
    SameAt(x, y, s);
    ReducedIsSame(a);
    ReducedIsSame(b);
    if Same(a, b) {
      ReducedUnique(x, y);
    }
  }

  // ---- excess ----

  /** `decimalExcess` */
  function DecimalExcess(value: Decimal, cap: Decimal): Decimal {
    var difference := AddDecimals([value, Decimal(-cap.units, cap.scale)]);
    if difference.units > 0 then difference else difference.(units := 0)
  }

  /** The excess is exactly the larger of zero and value minus cap, at every scale. */
  lemma ExcessIsExact(value: Decimal, cap: Decimal, s: nat)
    requires value.scale <= s && cap.scale <= s
    ensures var d := Scaled(value, s) - Scaled(cap, s);
            DecimalExcess(value, cap).scale <= s && Scaled(DecimalExcess(value, cap), s) == if d > 0 then d else 0
  {
    var values := [value, Decimal(-cap.units, cap.scale)];
    SumIsExact(values, s);
    assert values[..1] == [value] && [value][..0] == [];
    assert Total([value], s) == Scaled(value, s);
    assert Scaled(values[1], s) == -Scaled(cap, s);
    var difference := AddDecimals(values);
    SignKept(difference.units, Pow10(s - difference.scale));
  }

  lemma SignKept(x: int, p: int)
    requires p > 0
    ensures x > 0 <==> x * p > 0
    ensures 0 * p == 0
  {
  }

  lemma PowZero()
    ensures Pow10(0) == 1
  {
  }

  lemma SignTimes(m: int, p: int)
    ensures -m * p == -1 * m * p
  {
  }

  /** What was read stands for the digits, the sign and the power of ten of the text. */
  lemma NumeralIsExact(n: Numeral, s: nat)
    requires AllDigits(n.whole) && AllDigits(n.fraction) && 0 <= s + n.exponent - |n.fraction| && FromNumeral(n).scale <= s
    ensures Scaled(FromNumeral(n), s) == (if n.negative then -1 else 1) * NatOf(n.whole + n.fraction) * Pow10(s + n.exponent - |n.fraction|)
  {
    var scale := |n.fraction| - n.exponent;
    var magnitude: int := NatOf(n.whole + n.fraction);
    var units: int := if n.negative then -magnitude else magnitude;
    hide Pow10, NatOf;
    if scale < 0 {
      PowAdd(-scale, s);
      MulAssociates(units, Pow10(-scale), Pow10(s));
      PowZero();
      assert Scaled(FromNumeral(n), s) == units * Pow10(-scale) * Pow10(s);
      assert Pow10(-scale) * Pow10(s) == Pow10(s - scale);
    }
    SignTimes(magnitude, Pow10(s - scale));
  }
}
