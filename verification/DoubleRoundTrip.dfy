/** End to end: the text of a double's bits, read back, is the exact value rounded to seventeen digits. */
module DoubleRoundTrip {
  import opened Decimals
  import opened Limbs
  import opened BigDecimal
  import opened NumberLayout
  import opened DoubleText
  import opened NumberParse

  /** A finite double other than zero. */
  predicate Proper(bits: nat) { bits < W && ExponentField(bits) != 0x7FF && bits * 2 % W != 0 }

  // ---------- Sizes ----------

  lemma TenFives(k: nat)
    ensures Pow(10, 6 * k) <= Pow(5, 10 * k)
  {
    PowMul(10, 6, k);
    PowMul(5, 10, k);
    SixTen();
    PowBase(Pow(10, 6), Pow(5, 10), k);
  }

  lemma SixTen()
    ensures Pow(10, 6) <= Pow(5, 10)
  {
    assert Pow(10, 6) == 1_000_000;
    PowMul(5, 5, 2);
    assert Pow(5, 5) == 3125 && Pow(3125, 2) == 9_765_625;
  }

  /** Enough digits: m * 5^q is at least 10^(6 * (q / 10)). */
  lemma FivesLarge(m: nat, q: nat)
    requires m > 0
    ensures Pow(10, 6 * (q / 10)) <= m * Pow(5, q)
  {
    hide Pow;
    TenFives(q / 10);
    PowExp(5, 10 * (q / 10), q);
    MulLe(1, m, Pow(5, q), Pow(5, q));
  }

  // ---------- The theorem ----------

  /** Where a double's leading digit can stand. */
  lemma ExactSize(bits: nat)
    requires Proper(bits)
    ensures var (v, x) := Exact(bits);
      v > 0 && x <= 0 && -436 < |Digits(v)| + x && |Digits(v)| <= DIGITS
  {
    hide Pow, Digits, Room;
    PartsBound(bits);
    var (m, e) := Parts(bits);
    if e >= 0 {
      PositiveFits(m, e);
      ProductSteps(2, m, 0, e);
      DigitsBound(m * Pow(2, e), DIGITS) by { RoomDigits(m * Pow(2, e)); }
    } else {
      NegativeFits(m, -e);
      ProductSteps(5, m, 0, -e);
      DigitsBound(m * Pow(5, -e), DIGITS) by { RoomDigits(m * Pow(5, -e)); }
      FivesLarge(m, -e);
      AtLeastDigits(m * Pow(5, -e), 6 * (-e / 10));
    }
  }

  /** The text of a proper double is laid out from at most seventeen digits denoting the exact magnitude
      rounded half up; the parser gives that number back, unless it is an integer of more than 64 bits
      written out in full. */
  lemma DoubleReadsBack(bits: nat) returns (s: nat, k: nat, n: int)
    requires Proper(bits)
    ensures 0 < s < W && s % 10 != 0 && k == |Dec(s)| <= 17
    ensures TextOf(bits) == Layout(s, k, n)
    ensures var (v, x) := Exact(bits); SameNumber(s, n - k, Round17(v), x)
    ensures var p := Parse(TextOf(bits));
      if k <= n <= 21 && s * Pow(10, n - k) >= W then p.None?
      else p.Some? && p.value.s > 0 && SameNumber(p.value.s, p.value.n - p.value.k, s, n - k)
  {
    hide Pow, Round17, Strip, Layout, Digits, Parse, Parts;
    ExactSize(bits);
    var (v, x) := Exact(bits);
    RoundedDigits(v);
    StripDigits(Round17(v), x);
    RoundedShort(v, x);
    s := Strip(Round17(v), x).0;
    DecSame(s);
    k := |Dec(s)|;
    n := k + Strip(Round17(v), x).1;
    SmallDigits(s);
    RoundTrip(s, k, n);
  }

  lemma DecSame(s: nat)
    requires s > 0
    ensures Dec(s) == Digits(s)
  {}

  lemma SmallDigits(s: nat)
    requires |Digits(s)| <= 17
    ensures s < W
  {
    hide Digits, DecOf;
    DecOfDigits(s);
    SmallWord(Digits(s));
  }
}
