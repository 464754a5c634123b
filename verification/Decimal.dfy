/** Powers and decimal digits. */
module Decimals {
  function Pow(b: nat, e: nat): (r: nat)
    ensures b > 0 ==> r > 0
  {
    if e == 0 then 1 else b * Pow(b, e - 1)
  }

  lemma Times(a: nat, b: nat, c: nat)
    ensures a * (b * c) == a * b * c
  {}

  lemma {:induction false} PowAdd(b: nat, x: nat, y: nat)
    ensures Pow(b, x + y) == Pow(b, x) * Pow(b, y)
  {
    if x > 0 {
      PowAdd(b, x - 1, y);
      var (p, q) := (Pow(b, x - 1), Pow(b, y));
      assert Pow(b, x) == b * p && Pow(b, x + y) == b * Pow(b, x - 1 + y);
      Times(b, p, q);
    }
  }

  lemma {:induction false} PowMul(b: nat, x: nat, y: nat)
    ensures Pow(b, x * y) == Pow(Pow(b, x), y)
  {
    if y > 0 {
      PowMul(b, x, y - 1);
      assert x * y == x + x * (y - 1);
      PowAdd(b, x, x * (y - 1));
    } else {
      assert x * y == 0;
    }
  }

  lemma {:induction false} PowBase(a: nat, b: nat, e: nat)
    requires a <= b
    ensures Pow(a, e) <= Pow(b, e)
  {
    if e > 0 {
      PowBase(a, b, e - 1);
      MulLe(a, b, Pow(a, e - 1), Pow(b, e - 1));
    }
  }

  lemma MulLe(a: nat, b: nat, x: nat, y: nat)
    requires a <= b && x <= y
    ensures a * x <= b * y
  {
    assert b * y == a * x + (b - a) * x + b * (y - x);
  }

  lemma PowExp(b: nat, x: nat, y: nat)
    requires b > 0 && x <= y
    ensures Pow(b, x) <= Pow(b, y)
  {
    PowAdd(b, x, y - x);
    MulLe(Pow(b, x), Pow(b, x), 1, Pow(b, y - x));
  }

  // ---------- Digits ----------

  predicate IsDigit(c: char) { '0' <= c <= '9' }

  predicate IsDigits(t: seq<char>) { forall i :: 0 <= i < |t| ==> IsDigit(t[i]) }

  function Digit(d: nat): (c: char)
    requires d < 10
    ensures IsDigit(c) && c as int - '0' as int == d
  {
    ('0' as int + d) as char
  }

  function DigitValue(c: char): (d: nat)
    requires IsDigit(c)
    ensures d < 10 && Digit(d) == c
  {
    c as int - '0' as int
  }

  /** The decimal digits of v, none for zero. */
  function Digits(v: nat): (t: seq<char>)
    ensures IsDigits(t) && (t == [] <==> v == 0) && (v > 0 ==> t[0] != '0')
  {
    if v == 0 then [] else Digits(v / 10) + [Digit(v % 10)]
  }

  /** The decimal text of v. */
  function Dec(v: nat): (t: seq<char>)
    ensures IsDigits(t) && t != []
  {
    if v == 0 then "0" else Digits(v)
  }

  /** The number a text of digits denotes. */
  function DecOf(t: seq<char>): nat
    requires IsDigits(t)
  {
    if t == [] then 0 else 10 * DecOf(t[..|t| - 1]) + DigitValue(t[|t| - 1])
  }

  lemma {:induction false} DecOfDigits(v: nat)
    ensures DecOf(Digits(v)) == v
  {
    if v > 0 {
      DecOfDigits(v / 10);
      assert Digits(v)[..|Digits(v)| - 1] == Digits(v / 10);
    }
  }

  lemma {:induction false} DigitsOfDec(t: seq<char>)
    requires IsDigits(t) && (t != [] ==> t[0] != '0')
    ensures Digits(DecOf(t)) == t
  {
    if t != [] {
      var (init, last) := (t[..|t| - 1], t[|t| - 1]);
      DigitsOfDec(init);
      var (p, d) := (DecOf(init), DigitValue(last));
      assert DecOf(t) == 10 * p + d && Digits(p) == init && Digit(d) == last;
      assert p == 0 ==> init == [];
      DigitsStep(p, d);
      assert t == init + [last];
    }
  }

  lemma DigitsStep(p: nat, d: nat)
    requires d < 10 && 10 * p + d > 0
    ensures Digits(10 * p + d) == Digits(p) + [Digit(d)]
  {
    assert (10 * p + d) / 10 == p && (10 * p + d) % 10 == d;
  }

  lemma {:induction false} DecOfCat(a: seq<char>, b: seq<char>)
    requires IsDigits(a) && IsDigits(b)
    ensures IsDigits(a + b) && DecOf(a + b) == DecOf(a) * Pow(10, |b|) + DecOf(b)
  {
    if b == [] {
      assert a + b == a;
    } else {
      var n := |b| - 1;
      DecOfCat(a, b[..n]);
      assert (a + b)[..|a + b| - 1] == a + b[..n];
      assert 10 * (DecOf(a) * Pow(10, n)) == DecOf(a) * (10 * Pow(10, n));
    }
  }

  lemma {:induction false} DecOfBound(t: seq<char>)
    requires IsDigits(t)
    ensures DecOf(t) < Pow(10, |t|)
    ensures t != [] && t[0] != '0' ==> Pow(10, |t| - 1) <= DecOf(t)
  {
    if t != [] {
      var n := |t| - 1;
      DecOfBound(t[..n]);
      if n == 0 { assert t[..n] == []; assert Pow(10, 0) == 1; }
    }
  }

  /** A number below 10^n has at most n digits. */
  lemma DigitsBound(v: nat, n: nat)
    requires v < Pow(10, n)
    ensures |Digits(v)| <= n
  {
    DecOfDigits(v);
    DecOfBound(Digits(v));
    if |Digits(v)| > n { PowExp(10, n, |Digits(v)| - 1); }
  }

  function Zeros(n: nat): (t: seq<char>)
    ensures |t| == n && IsDigits(t)
  {
    seq(n, _ => '0')
  }

  lemma {:induction false} DecOfZeros(n: nat)
    ensures DecOf(Zeros(n)) == 0
  {
    if n > 0 {
      DecOfZeros(n - 1);
      assert Zeros(n)[..n - 1] == Zeros(n - 1);
    }
  }
}

/** Numbers as little-endian 64-bit limbs in a fixed buffer. */
module Limbs {
  import opened Decimals

  const W: nat := 0x1_0000_0000_0000_0000
  const HALF: nat := 0x1_0000_0000

  /** How many limbs, and how many digits, a conversion's buffers hold. */
  const LIMBS: nat := 40
  const DIGITS: nat := 800

  predicate Words(l: seq<nat>) { forall i :: 0 <= i < |l| ==> l[i] < W }

  function Val(l: seq<nat>): nat { if l == [] then 0 else l[0] + W * Val(l[1..]) }

  /** Five times l plus a carry; a carry out of the last limb makes one more. */
  function Mul5(l: seq<nat>, carry: nat): seq<nat> {
    if l == [] then (if carry == 0 then [] else [carry])
    else [(5 * l[0] + carry) % W] + Mul5(l[1..], (5 * l[0] + carry) / W)
  }

  function Shl1(l: seq<nat>, carry: nat): seq<nat> {
    if l == [] then (if carry == 0 then [] else [carry])
    else [(2 * l[0] + carry) % W] + Shl1(l[1..], (2 * l[0] + carry) / W)
  }

  /** Division by ten, from the highest limb down: quotient and remainder. */
  function Div10(l: seq<nat>): (r: (seq<nat>, nat))
    ensures |r.0| == |l| && r.1 < 10
  {
    if l == [] then ([], 0)
    else
      var (q, r) := Div10(l[1..]);
      ([(r * W + l[0]) / 10] + q, (r * W + l[0]) % 10)
  }

  lemma {:induction false} Mul5Right(l: seq<nat>, carry: nat)
    requires Words(l) && carry <= 4
    ensures Val(Mul5(l, carry)) == 5 * Val(l) + carry && Words(Mul5(l, carry))
    ensures |l| <= |Mul5(l, carry)| <= |l| + 1
    ensures |Mul5(l, carry)| > |l| ==> Mul5(l, carry)[|l|] > 0
  {
    if l != [] { Mul5Right(l[1..], (5 * l[0] + carry) / W); }
  }

  lemma {:induction false} Shl1Right(l: seq<nat>, carry: nat)
    requires Words(l) && carry <= 1
    ensures Val(Shl1(l, carry)) == 2 * Val(l) + carry && Words(Shl1(l, carry))
    ensures |l| <= |Shl1(l, carry)| <= |l| + 1
    ensures |Shl1(l, carry)| > |l| ==> Shl1(l, carry)[|l|] > 0
  {
    if l != [] { Shl1Right(l[1..], (2 * l[0] + carry) / W); }
  }

  lemma {:induction false} Div10Right(l: seq<nat>)
    requires Words(l)
    ensures 10 * Val(Div10(l).0) + Div10(l).1 == Val(l) && Words(Div10(l).0)
  {
    if l != [] {
      Div10Right(l[1..]);
      var (q, r) := Div10(l[1..]);
      assert (r * W + l[0]) / 10 < W;
    }
  }

  /** A number whose top limb is not zero needs all its limbs. */
  lemma {:induction false} TopLimb(l: seq<nat>)
    requires l != [] && l[|l| - 1] > 0
    ensures Pow(W, |l| - 1) <= Val(l)
  {
    if |l| > 1 { TopLimb(l[1..]); }
  }

  lemma {:induction false} ValCat(a: seq<nat>, b: seq<nat>)
    ensures b == [0] ==> Val(a + b) == Val(a)
    ensures (forall i :: 0 <= i < |b| ==> b[i] == 0) ==> Val(a + b) == Val(a)
  {
    if a == [] {
      assert a + b == b;
      if forall i :: 0 <= i < |b| ==> b[i] == 0 { ValZero(b); }
    } else {
      assert (a + b)[1..] == a[1..] + b;
      ValCat(a[1..], b);
    }
  }

  lemma {:induction false} ValZero(l: seq<nat>)
    ensures Val(l) == 0 <==> forall i :: 0 <= i < |l| ==> l[i] == 0
  {
    if l != [] {
      ValZero(l[1..]);
      assert (forall i :: 0 <= i < |l| ==> l[i] == 0) <==> l[0] == 0 && forall i :: 0 <= i < |l[1..]| ==> l[1..][i] == 0;
    }
  }
}
