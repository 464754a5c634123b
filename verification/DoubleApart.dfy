/** Seventeen digits are enough: different doubles of one sign have different texts. */
module DoubleApart {
  import opened Decimals
  import opened Limbs
  import opened BigDecimal
  import opened NumberLayout
  import opened DoubleText
  import opened NumberParse
  import opened DoubleRoundTrip

  // ---------- Numbers on a common scale ----------

  lemma MulCancel(a: nat, b: nat, p: nat)
    requires p > 0
    ensures a * p == b * p <==> a == b
  {
    if a < b { MulLt(a, b, p, p); } else if b < a { MulLt(b, a, p, p); }
  }

  lemma Assoc(a: nat, b: nat, c: nat)
    ensures a * b * c == a * (b * c)
  {}

  /** Equality of a * 10^x and b * 10^y, multiplied by a power of ten. */
  lemma OnScale(a: nat, x: int, b: nat, y: int, scale: nat)
    requires x + scale >= 0 && y + scale >= 0
    ensures SameNumber(a, x, b, y) <==> a * Pow(10, x + scale) == b * Pow(10, y + scale)
  {
    hide Pow;
    if x >= y {
      PowAdd(10, x - y, y + scale);
      Assoc(a, Pow(10, x - y), Pow(10, y + scale));
      MulCancel(a * Pow(10, x - y), b, Pow(10, y + scale));
    } else {
      PowAdd(10, y - x, x + scale);
      Assoc(b, Pow(10, y - x), Pow(10, x + scale));
      MulCancel(a, b * Pow(10, y - x), Pow(10, x + scale));
    }
  }

  lemma SameBoth(a: nat, x: int, b: nat, y: int, c: nat, z: int)
    requires SameNumber(a, x, b, y) && (SameNumber(a, x, c, z) || SameNumber(c, z, a, x))
    ensures SameNumber(b, y, c, z)
  {
    hide SameNumber, Pow;
    var scale := (if x < 0 then -x else 0) + (if y < 0 then -y else 0) + (if z < 0 then -z else 0);
    OnScale(a, x, b, y, scale);
    OnScale(a, x, c, z, scale);
    OnScale(c, z, a, x, scale);
    OnScale(b, y, c, z, scale);
  }

  // ---------- Equal texts come from equal rounded numbers ----------

  /** A text without point or exponent denotes the integer it spells. */
  lemma FullText(s: nat, k: nat, n: int)
    requires s > 0 && k == |Dec(s)| && k <= n <= 21
    ensures IsDigits(Layout(s, k, n)) && DecOf(Layout(s, k, n)) == s * Pow(10, n - k)
  {
    hide Pow, DecOf, Digits;
    DecSame(s);
    DigitsShape(s);
    DecOfCat(Dec(s), Zeros(n - k));
    DecOfZeros(n - k);
  }

  lemma SameTextSameNumber(a: nat, b: nat)
    requires Proper(a) && Proper(b) && TextOf(a) == TextOf(b)
    ensures var ((v, x), (w, y)) := (Exact(a), Exact(b)); SameNumber(Round17(v), x, Round17(w), y)
  {
    hide Pow, Round17, Strip, Layout, Digits, Parse, Parts, SameNumber, TextOf, Exact, Dec;
    var s, k, n := DoubleReadsBack(a);
    var t, l, m := DoubleReadsBack(b);
    var ((v, x), (w, y)) := (Exact(a), Exact(b));
    var p := Parse(TextOf(a));
    if p.None? {
      FullText(s, k, n);
      FullText(t, l, m);
      OnScale(s, n - k, t, m - l, 0);
    } else {
      SameBoth(p.value.s, p.value.n - p.value.k, s, n - k, t, m - l);
    }
    SameBoth(s, n - k, t, m - l, Round17(v), x);
    SameBoth(t, m - l, Round17(v), x, Round17(w), y);
  }

  // ---------- Rounding moves little ----------

  const TEN16: nat := 10_000_000_000_000_000
  const TWO53: nat := 0x20_0000_0000_0000
  const SCALE: nat := 1074

  lemma Ten16()
    ensures Pow(10, 16) == TEN16
  {
    assert Pow(10, 4) == 10_000;
    PowAdd(10, 4, 4);
    PowAdd(10, 8, 8);
  }

  /** By at most one part in 2 * 10^16. */
  lemma RoundedNear(v: nat)
    requires v > 0
    ensures var r := Round17(v); 2 * TEN16 * (v - r) <= v && 2 * TEN16 * (r - v) <= v
  {
    hide Pow, Digits, Nearest;
    var nd := |Digits(v)|;
    if nd > 17 {
      var unit := Pow(10, nd - 17);
      Round17Near(v);
      DecOfDigits(v);
      DigitsShape(v);
      DecOfBound(Digits(v));
      Ten16();
      PowAdd(10, 16, nd - 17);
      UnitsBelow(v, Round17(v), unit);
    }
  }

  lemma UnitsBelow(v: nat, r: nat, unit: nat)
    requires 2 * (v - r) < unit && 2 * (r - v) <= unit && TEN16 * unit <= v
    ensures 2 * TEN16 * (v - r) <= v && 2 * TEN16 * (r - v) <= v
  {}

  lemma ScaledNear(v: nat, r: nat, p: nat)
    requires 2 * TEN16 * (v - r) <= v && 2 * TEN16 * (r - v) <= v
    ensures 2 * TEN16 * (v * p - r * p) <= v * p && 2 * TEN16 * (r * p - v * p) <= v * p
  {
    var (a, b) := (2 * TEN16 * (v - r), 2 * TEN16 * (r - v));
    Below(a, v, p);
    Below(b, v, p);
    assert a * p == 2 * TEN16 * (v * p - r * p) && b * p == 2 * TEN16 * (r * p - v * p);
  }

  lemma Below(a: int, v: int, p: nat)
    requires a <= v
    ensures a * p <= v * p
  {
    assert (v - a) * p >= 0;
  }

  // ---------- Doubles stand apart ----------

  /** The magnitude of a double, in units of 2^-1074. */
  function Units(bits: nat): nat
    requires bits < W && ExponentField(bits) != 0x7FF
  {
    PartsBound(bits);
    Parts(bits).0 * Pow(2, Parts(bits).1 + SCALE)
  }

  /** The exact expansion on the scale 10^-1074 is the number of units times 5^1074. */
  lemma ExactUnits(bits: nat)
    requires Proper(bits)
    ensures Exact(bits).1 + SCALE >= 0
    ensures Exact(bits).0 * Pow(10, Exact(bits).1 + SCALE) == Units(bits) * Pow(5, SCALE)
  {
    hide Pow, Parts;
    PartsBound(bits);
    var (m, e) := Parts(bits);
    TwoFives(e + SCALE);
    if e >= 0 {
      TwoFives(SCALE);
      PowAdd(2, e, SCALE);
      Shuffle(m, Pow(2, e), Pow(5, SCALE), Pow(2, SCALE));
    } else {
      PowAdd(5, -e, e + SCALE);
      Shuffle(m, Pow(5, -e), Pow(5, e + SCALE), Pow(2, e + SCALE));
    }
  }

  lemma Shuffle(m: nat, a: nat, b: nat, c: nat)
    ensures m * a * (b * c) == m * (a * c) * b == m * c * (a * b)
  {
    assert m * a * (b * c) == m * a * b * c;
    assert m * (a * c) * b == m * a * c * b;
    assert m * c * (a * b) == m * c * a * b;
  }

  lemma PartsShape(bits: nat)
    requires bits < W && ExponentField(bits) != 0x7FF
    ensures var (m, e) := Parts(bits); m < TWO53 && e >= -1074 && (e > -1074 ==> m >= FRACTION)
    ensures bits * 2 % W == 2 * ((if Parts(bits).0 >= FRACTION then Parts(bits).1 + 1075 else 0) * FRACTION + Parts(bits).0 % FRACTION)
  {
  }

  /** Moving to the smaller of two exponents. */
  lemma Shift(m: nat, e: nat, f: nat)
    requires f <= e
    ensures m * Pow(2, e) == m * Pow(2, e - f) * Pow(2, f)
    ensures f < e ==> m * Pow(2, e - f) >= 2 * m
  {
    PowAdd(2, e - f, f);
    Assoc(m, Pow(2, e - f), Pow(2, f));
    hide Pow;
    if f < e {
      PowExp(2, 1, e - f);
      assert Pow(2, 1) == 2 by { PowTwo(); }
      MulLe(m, m, 2, Pow(2, e - f));
    }
  }

  lemma PowTwo()
    ensures Pow(2, 1) == 2
  {}

  /** Of different doubles the smaller is at most 2^53 times the distance between them. */
  lemma FarApart(a: nat, b: nat)
    requires Proper(a) && Proper(b) && Units(a) < Units(b)
    ensures Units(a) < TWO53 * (Units(b) - Units(a))
  {
    hide Pow, Parts;
    PartsBound(a);
    PartsBound(b);
    PartsShape(a);
    PartsShape(b);
    var ((m, e), (k, f)) := (Parts(a), Parts(b));
    var (x, y) := (e + SCALE, f + SCALE);
    if x <= y {
      Shift(k, y, x);
      Gap(m, k * Pow(2, y - x), Pow(2, x));
    } else {
      Shift(m, x, y);
      MulLe(k, m * Pow(2, x - y), Pow(2, y), Pow(2, y));
      assert false;
    }
  }

  lemma Gap(m: nat, k: nat, p: nat)
    requires m < TWO53 && m * p < k * p
    ensures m * p < TWO53 * (k * p - m * p)
  {
    if k <= m {
      MulLe(k, m, p, p);
    } else {
      var d := (k - m) * p;
      assert k * p - m * p == d;
      Below(1, k - m, p);
      MulLt(m, TWO53, p, p) by { Positive(k, p); }
      Linear(m * p, p, d);
    }
  }

  lemma Positive(k: nat, p: nat)
    requires 0 < k * p
    ensures 0 < p
  {}

  lemma Linear(mp: nat, p: nat, d: int)
    requires mp < TWO53 * p && p <= d
    ensures mp < TWO53 * d
  {}

  lemma SameUnits(a: nat, b: nat)
    requires Proper(a) && Proper(b) && Units(a) == Units(b) && Parts(a).1 <= Parts(b).1
    ensures Parts(a) == Parts(b)
  {
    hide Pow, Parts;
    PartsBound(a);
    PartsBound(b);
    PartsShape(a);
    PartsShape(b);
    var ((m, e), (k, f)) := (Parts(a), Parts(b));
    Shift(k, f + SCALE, e + SCALE);
    MulCancel(m, k * Pow(2, f - e), Pow(2, e + SCALE));
    if e == f { PowOne2(k, f - e); }
  }

  lemma PowOne2(k: nat, e: nat)
    ensures e == 0 ==> k * Pow(2, e) == k
  {}

  // ---------- The theorem ----------

  /** Two numbers that round alike are close together. */
  lemma CloseTogether(n: nat, m: nat, five: nat, r: int)
    requires n < m && five > 0
    requires 2 * TEN16 * (m * five - r) <= m * five && 2 * TEN16 * (r - n * five) <= n * five
    ensures n >= TWO53 * (m - n)
  {
    var (x, y) := (n * five, m * five);
    Enough(x, y, r);
    assert TWO53 * (y - x) == TWO53 * (m - n) * five;
    if n < TWO53 * (m - n) { Below(n + 1, TWO53 * (m - n), five); }
  }

  lemma Enough(x: nat, y: nat, r: int)
    requires 2 * TEN16 * (y - r) <= y && 2 * TEN16 * (r - x) <= x && x <= y
    ensures x >= TWO53 * (y - x)
  {}

  lemma NotLess(a: nat, b: nat)
    requires Proper(a) && Proper(b) && TextOf(a) == TextOf(b)
    ensures Units(a) >= Units(b)
  {
    hide Pow, Round17, Units, Exact, TextOf;
    SameTextSameNumber(a, b);
    ExactSize(a);
    ExactSize(b);
    ExactUnits(a);
    ExactUnits(b);
    var ((v, x), (w, y)) := (Exact(a), Exact(b));
    var (p, q) := (Pow(10, x + SCALE), Pow(10, y + SCALE));
    OnScale(Round17(v), x, Round17(w), y, SCALE);
    RoundedNear(v);
    RoundedNear(w);
    ScaledNear(v, Round17(v), p);
    ScaledNear(w, Round17(w), q);
    if Units(a) < Units(b) {
      CloseTogether(Units(a), Units(b), Pow(5, SCALE), Round17(v) * p);
      FarApart(a, b);
    }
  }

  lemma SameParts(a: nat, b: nat)
    requires a < W && b < W && ExponentField(a) != 0x7FF && ExponentField(b) != 0x7FF && Parts(a) == Parts(b)
    ensures a * 2 % W == b * 2 % W
    ensures Negative(a) == Negative(b) ==> a == b
  {
    PartsShape(a);
    PartsShape(b);
    hide Parts, ExponentField;
  }

  /** Nothing is lost in a text: doubles of equal texts are equal, but for the sign. */
  lemma TextsTellApart(a: nat, b: nat)
    requires Proper(a) && Proper(b) && TextOf(a) == TextOf(b)
    ensures a * 2 % W == b * 2 % W
    ensures Negative(a) == Negative(b) ==> a == b
  {
    hide TextOf, Parts, Pow, Units, Negative;
    NotLess(a, b);
    NotLess(b, a);
    if Parts(a).1 <= Parts(b).1 { SameUnits(a, b); } else { SameUnits(b, a); }
    SameParts(a, b);
  }
}
