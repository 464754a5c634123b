/**
 The form of a number's text, said of its characters: which of the four layouts of section 6.1.6.1.20 of
 ECMA-262 it has, where the point and the exponent stand, and what the exponent reads.
 */
module TextForm {
  import opened Decimals
  import opened NumberLayout

  function Abs(x: int): nat { if x >= 0 then x else -x }

  /** The text of s * 10^(n - k), k being the number of digits of s. */
  ghost predicate Written(t: seq<char>, s: nat, n: int) {
    var (d, k) := (Dec(s), |Dec(s)|);
    && ('e' in t <==> n > 21 || n <= -6)
    && (k <= n <= 21 ==> WholeForm(t, d, n))
    && (0 < n < k && n <= 21 ==> PointForm(t, d, n))
    && (-6 < n <= 0 ==> FractionForm(t, d, -n))
    && ((n > 21 || n <= -6) && Abs(n - 1) <= 999 ==> ExponentForm(t, d, n - 1))
  }

  /** n digits, the digits of s first and zeros after them, and no point. */
  predicate WholeForm(t: seq<char>, d: seq<char>, n: nat) {
    |t| == n && |d| <= n && t[..|d|] == d && '.' !in t && forall i :: |d| <= i < n ==> t[i] == '0'
  }

  /** The digits of s with one point, which stands at index n. */
  predicate PointForm(t: seq<char>, d: seq<char>, n: nat) {
    && |t| == |d| + 1 && n <= |d| && t[..n] == d[..n] && t[n + 1..] == d[n..]
    && forall i :: 0 <= i < |t| ==> (t[i] == '.' <==> i == n)
  }

  /** A zero, the point, z zeros and the digits of s. */
  predicate FractionForm(t: seq<char>, d: seq<char>, z: nat) {
    && |t| == 2 + z + |d| && t[0] == '0' && t[1] == '.' && t[2 + z..] == d
    && (forall i :: 2 <= i < 2 + z ==> t[i] == '0') && '.' !in t[2..]
  }

  /** One digit, then a point and the other digits of s up to its trailing zeros, if there are others; after them
      the only 'e', a sign, and the digits of |x|. */
  ghost predicate ExponentForm(t: seq<char>, d: seq<char>, x: int) {
    exists p :: ExponentAt(t, d, x, p)
  }

  predicate ExponentAt(t: seq<char>, d: seq<char>, x: int, p: nat) {
    && 1 <= p < |t| - 2 && t[p] == 'e' && 'e' !in t[..p] && 'e' !in t[p + 1..]
    && t[p + 1] == (if x >= 0 then '+' else '-')
    && IsDigits(t[p + 2..]) && DecOf(t[p + 2..]) == Abs(x) && (|t| > p + 3 ==> t[p + 2] != '0')
    && Mantissa(t[..p], d)
  }

  predicate Mantissa(t: seq<char>, d: seq<char>) {
    && t != [] && d != [] && t[0] == d[0]
    && if |t| == 1 then forall i :: 1 <= i < |d| ==> d[i] == '0'
       else
         && |t| >= 3 && t[1] == '.' && |t| - 1 <= |d| && t[2..] == d[1..|t| - 1] && t[|t| - 1] != '0'
         && forall i :: |t| - 1 <= i < |d| ==> d[i] == '0'
  }

  // ---------- The layout has this form ----------

  lemma DigitsOnly(t: seq<char>)
    requires IsDigits(t)
    ensures 'e' !in t && '.' !in t && '-' !in t
  {}

  lemma LayoutWritten(s: nat, n: int)
    ensures Written(Layout(s, |Dec(s)|, n), s, n)
  {
    hide Dec, ExpText, Trim, Zeros, Layout, WholeForm, PointForm, FractionForm, ExponentForm, IsDigits;
    var (d, k) := (Dec(s), |Dec(s)|);
    LayoutIs(s, n);
    if k <= n <= 21 {
      Whole(d, n);
    } else if 0 < n <= 21 {
      Point(d, n);
    } else if -6 < n <= 0 {
      Fraction(d, -n);
    } else {
      Exponent(d, n - 1);
    }
  }

  lemma LayoutIs(s: nat, n: int)
    ensures var (t, d) := (Layout(s, |Dec(s)|, n), Dec(s));
      && (|d| <= n <= 21 ==> t == d + Zeros(n - |d|))
      && (0 < n < |d| && n <= 21 ==> t == d[..n] + ['.'] + d[n..])
      && (-6 < n <= 0 ==> t == ['0', '.'] + Zeros(-n) + d)
      && (n > 21 || n <= -6 ==>
           var m := Trim(d); t == [m[0]] + (if |m| > 1 then ['.'] + m[1..] else []) + ExpText(n - 1))
  {
    hide Dec, ExpText, Trim, Zeros;
  }

  lemma Whole(d: seq<char>, n: nat)
    requires IsDigits(d) && |d| <= n
    ensures var t := d + Zeros(n - |d|); WholeForm(t, d, n) && 'e' !in t
  {}

  lemma Point(d: seq<char>, n: nat)
    requires IsDigits(d) && 0 < n < |d|
    ensures var t := d[..n] + ['.'] + d[n..]; PointForm(t, d, n) && 'e' !in t
  {}

  lemma Fraction(d: seq<char>, z: nat)
    requires IsDigits(d)
    ensures var t := ['0', '.'] + Zeros(z) + d; FractionForm(t, d, z) && 'e' !in t
  {
    var t := ['0', '.'] + Zeros(z) + d;
    assert t[2..] == Zeros(z) + d;
  }

  lemma Exponent(d: seq<char>, x: int)
    requires IsDigits(d) && d != []
    ensures var m := Trim(d);
            var t := [m[0]] + (if |m| > 1 then ['.'] + m[1..] else []) + ExpText(x);
            'e' in t && (Abs(x) <= 999 ==> ExponentForm(t, d, x))
  {
    hide ExpDigits, DecOf, ExponentAt, Mantissa, Trim;
    var m := Trim(d);
    var head := [m[0]] + (if |m| > 1 then ['.'] + m[1..] else []);
    assert (head + ExpText(x))[|head|] == 'e';
    if Abs(x) <= 999 {
      ExpReads(Abs(x));
      MantissaIs(d);
      NoExponent(d);
      Placed(head, ExpDigits(Abs(x)), d, x);
    }
  }

  lemma NoExponent(d: seq<char>)
    requires IsDigits(d) && d != []
    ensures var m := Trim(d); 'e' !in [m[0]] + (if |m| > 1 then ['.'] + m[1..] else [])
  {
    hide Trim;
    var m := Trim(d);
    DigitsOnly(d);
  }

  lemma Placed(head: seq<char>, e: seq<char>, d: seq<char>, x: int)
    requires Mantissa(head, d) && 'e' !in head
    requires IsDigits(e) && e != [] && DecOf(e) == Abs(x) && (|e| > 1 ==> e[0] != '0')
    ensures ExponentAt(head + (['e', if x >= 0 then '+' else '-'] + e), d, x, |head|)
  {
    hide Mantissa, DecOf, IsDigits;
    var sign := if x >= 0 then '+' else '-';
    var t := head + (['e', sign] + e);
    var p := |head|;
    assert t[..p] == head;
    assert t[p + 1..] == [sign] + e;
    Later(t, p, sign, e);
    MantissaThere(head, d);
  }

  lemma Later(t: seq<char>, p: nat, sign: char, e: seq<char>)
    requires p < |t| && t[p + 1..] == [sign] + e && sign != 'e' && IsDigits(e)
    ensures t[p + 1] == sign && t[p + 2..] == e && 'e' !in t[p + 1..]
  {
    hide IsDigits;
    assert t[p + 1] == t[p + 1..][0];
    assert t[p + 2..] == t[p + 1..][1..];
    DigitsOnly(e);
  }

  lemma MantissaThere(t: seq<char>, d: seq<char>)
    requires Mantissa(t, d)
    ensures t != []
  {}

  lemma {:induction false} TrimEnds(d: seq<char>)
    requires d != []
    ensures var m := Trim(d);
      && 1 <= |m| <= |d| && m == d[..|m|] && (|m| > 1 ==> m[|m| - 1] != '0')
      && forall i :: |m| <= i < |d| ==> d[i] == '0'
  {
    if |d| > 1 && d[|d| - 1] == '0' {
      var d1 := d[..|d| - 1];
      TrimEnds(d1);
      assert forall i :: 0 <= i < |d1| ==> d1[i] == d[i];
    }
  }

  lemma MantissaIs(d: seq<char>)
    requires d != []
    ensures var m := Trim(d); Mantissa([m[0]] + (if |m| > 1 then ['.'] + m[1..] else []), d)
  {
    hide Trim;
    var m := Trim(d);
    TrimEnds(d);
    if |m| > 1 {
      var t := [m[0]] + (['.'] + m[1..]);
      assert t[2..] == m[1..] == d[1..|t| - 1];
      assert t[|t| - 1] == m[|m| - 1];
    }
  }

  /** The digits of an exponent read it, without leading zeros. */
  lemma ExpReads(v: nat)
    requires v <= 999
    ensures IsDigits(ExpDigits(v)) && DecOf(ExpDigits(v)) == v && |ExpDigits(v)| >= 1
    ensures |ExpDigits(v)| > 1 ==> ExpDigits(v)[0] != '0'
  {
    var t := ExpDigits(v);
    if v >= 100 {
      assert ExpChar(v / 100) == Digit(v / 100);
      DecOfThree(Digit(v / 100), Digit(v % 100 / 10), Digit(v % 10));
      assert v == 100 * (v / 100) + 10 * (v % 100 / 10) + v % 10;
    } else if v >= 10 {
      DecOfTwo(Digit(v / 10), Digit(v % 10));
    } else {
      DecOfTwo('0', Digit(v));
    }
  }

  lemma DecOfTwo(a: char, b: char)
    requires IsDigit(a) && IsDigit(b)
    ensures DecOf([a, b]) == 10 * DigitValue(a) + DigitValue(b) && DecOf([b]) == DigitValue(b)
  {
    assert [a, b][..1] == [a];
    DecOfDigit(a);
    DecOfDigit(b);
  }

  lemma DecOfDigit(a: char)
    requires IsDigit(a)
    ensures DecOf([a]) == DigitValue(a)
  {
    assert [a][..0] == [];
  }

  lemma DecOfThree(a: char, b: char, c: char)
    requires IsDigit(a) && IsDigit(b) && IsDigit(c)
    ensures DecOf([a, b, c]) == 100 * DigitValue(a) + 10 * DigitValue(b) + DigitValue(c)
  {
    assert [a, b, c][..2] == [a, b];
    DecOfTwo(a, b);
  }
}
