/** The text of a number: rounding to seventeen digits, the layout of section 6.1.6.1.20 of ECMA-262,
    and the parser that reads it back. */
module NumberLayout {
  import opened Decimals

  /** a * 10^x and b * 10^y are the same number. */
  predicate SameNumber(a: nat, x: int, b: nat, y: int) {
    if x >= y then a * Pow(10, x - y) == b else a == b * Pow(10, y - x)
  }

  // ---------- Layout ----------

  /** The digits without their trailing zeros, but for the first. */
  function Trim(t: seq<char>): (r: seq<char>)
    ensures |r| <= |t| && r == t[..|r|] && (t != [] ==> r != [])
  {
    if |t| > 1 && t[|t| - 1] == '0' then Trim(t[..|t| - 1]) else t
  }

  /** A character of the exponent; beyond 999 it is no longer a digit. */
  function ExpChar(d: nat): char { ((48 + d) % 256) as char }

  function ExpDigits(v: nat): seq<char> {
    if v >= 100 then [ExpChar(v / 100), Digit(v % 100 / 10), Digit(v % 10)]
    else if v >= 10 then [Digit(v / 10), Digit(v % 10)]
    else [Digit(v)]
  }

  function ExpText(ev: int): seq<char> {
    if ev >= 0 then ['e', '+'] + ExpDigits(ev) else ['e', '-'] + ExpDigits(-ev)
  }

  /** Number::toString in base ten for the number s * 10^(n - k), s having k digits. */
  function Layout(s: nat, k: nat, n: int): seq<char>
    requires |Dec(s)| == k
  {
    var d := Dec(s);
    if k <= n <= 21 then d + Zeros(n - k)
    else if 0 < n <= 21 then d[..n] + ['.'] + d[n..]
    else if -6 < n <= 0 then ['0', '.'] + Zeros(-n) + d
    else
      var t := Trim(d);
      [t[0]] + (if |t| > 1 then ['.'] + t[1..] else []) + ExpText(n - 1)
  }

  /** v * 10^e without trailing zeros in the significand. */
  function Strip(v: nat, e: int): (r: (nat, int))
    requires v > 0
    ensures r.0 > 0 && r.0 % 10 != 0
  {
    if v % 10 == 0 then Strip(v / 10, e + 1) else (v, e)
  }

  /** The text of v * 10^e. */
  function Show(v: nat, e: int): seq<char>
    requires v > 0
  {
    var (s, x) := Strip(v, e);
    Layout(s, |Dec(s)|, |Dec(s)| + x)
  }

  lemma {:induction false} StripShift(v: nat, e: int, j: nat)
    requires v > 0
    ensures v * Pow(10, j) > 0
    ensures Strip(v * Pow(10, j), e) == Strip(v, e + j)
    decreases j
  {
    if j > 0 {
      StripShift(v, e + 1, j - 1);
      TenTimes(v, j);
      StripTen(v * Pow(10, j - 1), e);
    }
  }

  lemma TenTimes(v: nat, j: nat)
    requires j > 0
    ensures v * Pow(10, j) == 10 * (v * Pow(10, j - 1))
  {
    assert v * (10 * Pow(10, j - 1)) == 10 * (v * Pow(10, j - 1));
  }

  lemma StripTen(w: nat, e: int)
    requires w > 0
    ensures Strip(10 * w, e) == Strip(w, e + 1)
  {
    assert 10 * w % 10 == 0 && 10 * w / 10 == w;
  }

  /** The text depends on the number alone: s without a trailing zero, shifted. */
  lemma ShowIs(v: nat, e: int, s: nat, j: nat)
    requires s > 0 && s % 10 != 0 && v == s * Pow(10, j)
    ensures v > 0 && Show(v, e) == Layout(s, |Dec(s)|, |Dec(s)| + e + j)
  {
    StripShift(s, e, j);
  }

  /** Equal numbers have equal texts. */
  lemma ShowSame(a: nat, x: int, b: nat, y: int)
    requires a > 0 && b > 0 && SameNumber(a, x, b, y)
    ensures Show(a, x) == Show(b, y)
  {
    hide Pow, Strip, Layout;
    if x >= y { StripShift(a, y, x - y); } else { StripShift(b, x, y - x); }
  }

  // ---------- Rounding ----------

  /** The multiple of unit nearest to x, the upper one when both are. */
  function Nearest(x: nat, unit: nat): nat
    requires unit > 0
  {
    (x + unit / 2) / unit * unit
  }

  /** x rounded, halves up, at its seventeenth significant digit. */
  function Round17(x: nat): nat {
    if |Digits(x)| <= 17 then x else Nearest(x, Pow(10, |Digits(x)| - 17))
  }

  /** Rounding moves a number by at most half a unit of the seventeenth digit, upwards from the half,
      and leaves at most seventeen digits before zeros. */
  lemma Round17Near(x: nat)
    requires |Digits(x)| > 17
    ensures var r, unit := Round17(x), Pow(10, |Digits(x)| - 17);
      r % unit == 0 && 0 < r <= Pow(10, 17) * unit && 2 * (x - r) < unit && 2 * (r - x) <= unit
  {
    hide Pow, Digits, Nearest;
    var nd := |Digits(x)|;
    var unit := Pow(10, nd - 17);
    TenEven(nd - 17);
    NearestRight(x, unit, unit / 2);
    DecOfDigits(x);
    DecOfBound(Digits(x));
    PowAdd(10, 17, nd - 17);
    NearestTop(x, unit, unit / 2, Pow(10, 17));
    PowExp(10, nd - 17, nd - 1);
  }

  lemma TenEven(e: nat)
    ensures e > 0 ==> Pow(10, e) == 10 * Pow(10, e - 1) && Pow(10, e) == 2 * (Pow(10, e) / 2)
  {}

  lemma NearestRight(x: nat, unit: nat, half: nat)
    requires unit == 2 * half > 0
    ensures Nearest(x, unit) % unit == 0 && 2 * (x - Nearest(x, unit)) < unit && 2 * (Nearest(x, unit) - x) <= unit
  {
    RoundDiv(x, half, unit);
    assert ((x + half) / unit + 1) * unit == (x + half) / unit * unit + unit;
  }

  lemma NearestTop(x: nat, unit: nat, half: nat, top: nat)
    requires unit == 2 * half > 0 && x < top * unit
    ensures Nearest(x, unit) <= top * unit
  {
    RoundTop(x, half, unit, top);
    MulLe((x + half) / unit, top, unit, unit);
  }

  lemma RoundDiv(x: nat, half: nat, unit: nat)
    requires unit == 2 * half > 0
    ensures var q := (x + half) / unit; q * unit <= x + half < (q + 1) * unit
    ensures (x + half) / unit * unit % unit == 0
  {
    var v := x + half;
    assert v == v / unit * unit + v % unit;
    assert (v / unit + 1) * unit == v / unit * unit + unit;
    ModZero(v / unit, unit);
  }

  lemma ModZero(a: nat, b: nat)
    requires b > 0
    ensures a * b % b == 0 && a * b / b == a
  {
    DivUnique(a * b, b, a, 0);
  }

  lemma DivUnique(v: nat, b: nat, q: nat, r: nat)
    requires b > 0 && r < b && v == q * b + r
    ensures v / b == q && v % b == r
  {
    assert v == v / b * b + v % b;
    if v / b > q {
      MulLe(q + 1, v / b, b, b);
    } else if v / b < q {
      MulLe(v / b + 1, q, b, b);
    }
  }

  lemma RoundTop(x: nat, half: nat, unit: nat, top: nat)
    requires unit == 2 * half > 0 && x < top * unit
    ensures (x + half) / unit <= top
  {
    var q := (x + half) / unit;
    RoundDiv(x, half, unit);
    assert (top + 1) * unit == top * unit + unit;
    if q > top { MulLe(top + 1, q, unit, unit); }
  }
}
