/** Multiplying and dividing a fixed buffer of limbs in place, and reading off its digits. */
module BigDecimal {
  import opened Decimals
  import opened Limbs

  // ---------- One word ----------

  const QUARTER: nat := 0x4000_0000_0000_0000

  /** The low and high words of 5x + c, by shifts and wrapped additions. */
  method MulWord(x: nat, c: nat) returns (lo: nat, hi: nat)
    requires x < W && c <= 4
    ensures lo == (5 * x + c) % W && hi == (5 * x + c) / W
  {
    hi := x / QUARTER;
    var quad := 4 * x % W;
    Quadruple(x);
    ghost var top := hi;
    lo := (quad + x) % W;
    if lo < quad { hi := hi + 1; }
    assert lo + W * (hi - top) == quad + x;
    ghost var mid, sum := hi, lo;
    lo := (lo + c) % W;
    if lo < c { hi := hi + 1; }
    assert lo + W * (hi - mid) == sum + c;
    DivMod(5 * x + c, hi, lo);
  }

  lemma Quadruple(x: nat)
    requires x < W
    ensures x / QUARTER * W + 4 * x % W == 4 * x
  {
    assert x == x / QUARTER * QUARTER + x % QUARTER;
    DivMod(4 * x, x / QUARTER, 4 * (x % QUARTER));
  }

  lemma DivMod(v: nat, q: nat, r: nat)
    requires v == q * W + r && r < W
    ensures v / W == q && v % W == r
  {}

  /** (hi * 2^64 + lo) / 10 and the remainder, by two halves; only hi mod 10 counts. */
  method DivWord(hi: nat, lo: nat) returns (q: nat, r: nat)
    requires lo < W
    ensures q == (hi % 10 * W + lo) / 10 && r == (hi % 10 * W + lo) % 10 && q < W
  {
    var x := hi % 10 * HALF + lo / HALF;
    var y := x % 10 * HALF + lo % HALF;
    q := x / 10 * HALF + y / 10;
    r := y % 10;
    assert lo == lo / HALF * HALF + lo % HALF;
    assert hi % 10 * W + lo == x * HALF + lo % HALF;
    assert x == 10 * (x / 10) + x % 10 && y == 10 * (y / 10) + y % 10;
    assert hi % 10 * W + lo == 10 * q + r;
  }

  // ---------- Limbs ----------

  predicate Buffer(limb: array<nat>)
    reads limb
  {
    limb.Length == LIMBS && Words(limb[..])
  }

  /** Results longer than the buffer lose their last limb. */
  function Kept(l: seq<nat>): (r: seq<nat>) { if |l| <= LIMBS then l else l[..LIMBS] }

  lemma Mul5Step(full: seq<nat>, l: seq<nat>, i: nat, carry: nat)
    requires i < |l| && i <= |full| && full[i..] == Mul5(l[i..], carry)
    ensures i < |full| && full[i] == (5 * l[i] + carry) % W
    ensures full[i + 1..] == Mul5(l[i + 1..], (5 * l[i] + carry) / W)
  {
    assert l[i..][1..] == l[i + 1..] && l[i..][0] == l[i];
    assert full[i..][1..] == full[i + 1..] && full[i..][0] == full[i];
  }

  lemma Mul5End(full: seq<nat>, l: seq<nat>, carry: nat)
    requires |l| <= |full| && |l| <= LIMBS && full[|l|..] == Mul5(l[|l|..], carry)
    ensures if carry == 0 then |full| == |l| else |full| == |l| + 1 && full[|l|] == carry
    ensures Kept(full) == if carry != 0 && |l| == LIMBS then full[..|l|] else full
  {
    assert l[|l|..] == [];
    assert full == full[..|l|] + full[|l|..];
  }

  /** Multiplies the number in the first n0 limbs by five; n limbs now hold it, but for a carry
      past the end of the buffer. */
  method LimbsMul5(limb: array<nat>, n0: nat) returns (n: nat)
    requires Buffer(limb)
    modifies limb
    ensures Buffer(limb) && n <= LIMBS
    ensures n0 <= LIMBS ==> limb[..n] == Kept(Mul5(old(limb[..n0]), 0))
  {
    hide Mul5, Val, Kept;
    n := if limb.Length < n0 then limb.Length else n0;
    var i, carry := 0, 0;
    ghost var before := limb[..n];
    ghost var full := Mul5(before, 0);
    Mul5Right(before, 0);
    assert full[0..] == full && before[0..] == before;
    while i < n
      invariant 0 <= i <= n <= LIMBS && i <= |full| && carry <= 4
      invariant full[i..] == Mul5(before[i..], carry)
      invariant forall j :: 0 <= j < i ==> limb[j] == full[j]
      invariant forall j :: i <= j < n ==> limb[j] == before[j]
      invariant forall j :: 0 <= j < LIMBS ==> limb[j] < W
    {
      Mul5Step(full, before, i, carry);
      limb[i], carry := MulWord(limb[i], carry);
      i := i + 1;
    }
    Mul5End(full, before, carry);
    if carry != 0 {
      if n < LIMBS {
        limb[n] := carry;
        n := n + 1;
      }
    }
    assert limb[..n] == Kept(full);
  }

  lemma Shl1Step(full: seq<nat>, l: seq<nat>, i: nat, carry: nat)
    requires i < |l| && i <= |full| && full[i..] == Shl1(l[i..], carry)
    ensures i < |full| && full[i] == (2 * l[i] + carry) % W
    ensures full[i + 1..] == Shl1(l[i + 1..], (2 * l[i] + carry) / W)
  {
    assert l[i..][1..] == l[i + 1..] && l[i..][0] == l[i];
    assert full[i..][1..] == full[i + 1..] && full[i..][0] == full[i];
  }

  lemma Shl1End(full: seq<nat>, l: seq<nat>, carry: nat)
    requires |l| <= |full| && |l| <= LIMBS && full[|l|..] == Shl1(l[|l|..], carry)
    ensures if carry == 0 then |full| == |l| else |full| == |l| + 1 && full[|l|] == carry
    ensures Kept(full) == if carry != 0 && |l| == LIMBS then full[..|l|] else full
  {
    assert l[|l|..] == [];
    assert full == full[..|l|] + full[|l|..];
  }

  /** Doubling one word: the bit shifted out is the next carry, the incoming one fills the low bit. */
  method DoubleWord(x: nat, c: nat) returns (lo: nat, hi: nat)
    requires x < W && c <= 1
    ensures lo == (2 * x + c) % W && hi == (2 * x + c) / W
  {
    lo := 2 * x % W + c;
    hi := x / (W / 2);
    assert x == x / (W / 2) * (W / 2) + x % (W / 2);
    DivMod(2 * x + c, x / (W / 2), 2 * (x % (W / 2)) + c);
    DivMod(2 * x, x / (W / 2), 2 * (x % (W / 2)));
  }

  /** Doubles the number in the first n0 limbs. */
  method LimbsShl1(limb: array<nat>, n0: nat) returns (n: nat)
    requires Buffer(limb)
    modifies limb
    ensures Buffer(limb) && n <= LIMBS
    ensures n0 <= LIMBS ==> limb[..n] == Kept(Shl1(old(limb[..n0]), 0))
  {
    hide Shl1, Val, Kept;
    n := if limb.Length < n0 then limb.Length else n0;
    var i, carry := 0, 0;
    ghost var before := limb[..n];
    ghost var full := Shl1(before, 0);
    Shl1Right(before, 0);
    assert full[0..] == full && before[0..] == before;
    while i < n
      invariant 0 <= i <= n <= LIMBS && i <= |full| && carry <= 1
      invariant full[i..] == Shl1(before[i..], carry)
      invariant forall j :: 0 <= j < i ==> limb[j] == full[j]
      invariant forall j :: i <= j < n ==> limb[j] == before[j]
      invariant forall j :: 0 <= j < LIMBS ==> limb[j] < W
    {
      Shl1Step(full, before, i, carry);
      limb[i], carry := DoubleWord(limb[i], carry);
      i := i + 1;
    }
    Shl1End(full, before, carry);
    if carry != 0 {
      if n < LIMBS {
        limb[n] := carry;
        n := n + 1;
      }
    }
    assert limb[..n] == Kept(full);
  }

  lemma Div10Step(l: seq<nat>, i: nat)
    requires i < |l|
    ensures var (q, r) := Div10(l[i + 1..]);
            Div10(l[i..]) == ([(r * W + l[i]) / 10] + q, (r * W + l[i]) % 10)
  {
    assert l[i..][1..] == l[i + 1..];
  }

  /** Divides the number in the first n limbs by ten and gives the remainder. */
  method LimbsDiv10Rem(limb: array<nat>, n0: nat) returns (r: nat)
    requires Buffer(limb)
    modifies limb
    ensures Buffer(limb)
    ensures n0 <= LIMBS ==> (limb[..n0], r) == Div10(old(limb[..n0])) && limb[n0..] == old(limb[n0..])
  {
    hide Div10, Val;
    var n := if limb.Length < n0 then limb.Length else n0;
    r := 0;
    var i := 0;
    ghost var before := limb[..n];
    Div10None(before);
    while i < n
      invariant 0 <= i <= n && r < 10
      invariant var (q, r1) := Div10(before[n - i..]); r == r1 && |q| == i && forall j :: 0 <= j < i ==> limb[n - i + j] == q[j]
      invariant forall j :: 0 <= j < n - i ==> limb[j] == before[j]
      invariant forall j :: 0 <= j < LIMBS ==> limb[j] < W
      invariant limb[n..] == old(limb[n..])
    {
      var k := n - 1 - i;
      Div10Step(before, k);
      ghost var q := Div10(before[k + 1..]).0;
      limb[k], r := DivWord(r, limb[k]);
      assert Div10(before[k..]) == ([limb[k]] + q, r);
      i := i + 1;
    }
    assert before[0..] == before;
    assert limb[..n] == Div10(before).0;
  }

  lemma Div10None(l: seq<nat>)
    ensures Div10(l[|l|..]) == ([], 0)
  {
    assert l[|l|..] == [];
  }

  method LimbsZero(limb: array<nat>, n0: nat) returns (zero: bool)
    requires Buffer(limb)
    ensures n0 <= LIMBS ==> (zero <==> Val(limb[..n0]) == 0)
  {
    hide Val;
    var n := if limb.Length < n0 then limb.Length else n0;
    ValZero(limb[..n]);
    for i := 0 to n
      invariant forall j :: 0 <= j < i ==> limb[j] == 0
    {
      if limb[i] != 0 {
        assert limb[..n][i] != 0;
        return false;
      }
    }
    return true;
  }

  // ---------- Whole conversions ----------

  /** The buffers are large enough for v: no carry is dropped and every digit has a place. */
  predicate Room(v: nat) { v < Pow(W, LIMBS) && v < Pow(10, DIGITS) }

  lemma KeptAll(l: seq<nat>, v: nat)
    requires Val(l) == v < Pow(W, LIMBS) && |l| <= LIMBS + 1 && (|l| > LIMBS ==> l[LIMBS] > 0)
    ensures Kept(l) == l
  {
    if |l| > LIMBS { TopLimb(l); }
  }

  lemma RoomBelow(v: nat, w: nat)
    requires Room(w) && v <= w
    ensures Room(v)
  {}

  /** limb := m * 5^q, for a product that has room. */
  method FillMul5(limb: array<nat>, m: nat, q: nat) returns (n: nat)
    requires limb.Length == LIMBS && m < W && Room(m * Pow(5, q))
    modifies limb
    ensures Buffer(limb) && 1 <= n <= LIMBS && Val(limb[..n]) == m * Pow(5, q)
  {
    hide Val, Pow, Kept, Room, Mul5;
    n := Load(limb, m);
    ProductSteps(5, m, 0, q);
    var i := 0;
    while i < q
      invariant 0 <= i <= q && Buffer(limb) && 1 <= n <= LIMBS && Val(limb[..n]) == m * Pow(5, i)
    {
      ghost var l := limb[..n];
      ProductSteps(5, m, i, q);
      ProductSteps(5, m, i + 1, q);
      n := LimbsMul5(limb, n);
      Mul5Right(l, 0);
      KeptAll(Mul5(l, 0), m * Pow(5, i + 1)) by { RoomBelow(m * Pow(5, i + 1), m * Pow(5, q)); RoomWords(m * Pow(5, i + 1)); }
      i := i + 1;
    }
  }

  lemma RoomWords(v: nat)
    requires Room(v)
    ensures v < Pow(W, LIMBS)
  {}

  lemma ProductSteps(b: nat, m: nat, i: nat, q: nat)
    requires b > 0 && i <= q
    ensures m * Pow(b, 0) == m
    ensures m * Pow(b, i) <= m * Pow(b, q)
    ensures m * Pow(b, i + 1) == b * (m * Pow(b, i))
  {
    PowExp(b, i, q);
    MulLe(m, m, Pow(b, i), Pow(b, q));
    assert b * (m * Pow(b, i)) == m * (b * Pow(b, i));
  }

  /** A cleared buffer with m in its first limb. */
  method Load(limb: array<nat>, m: nat) returns (n: nat)
    requires limb.Length == LIMBS && m < W
    modifies limb
    ensures Buffer(limb) && n == 1 && Val(limb[..n]) == m
  {
    for i := 0 to LIMBS
      invariant forall j :: 0 <= j < i ==> limb[j] == 0
    {
      limb[i] := 0;
    }
    limb[0] := m;
    n := 1;
    assert limb[..1] == [m];
  }

  /** limb := m * 2^q. */
  method FillShl1(limb: array<nat>, m: nat, q: nat) returns (n: nat)
    requires limb.Length == LIMBS && m < W && Room(m * Pow(2, q))
    modifies limb
    ensures Buffer(limb) && 1 <= n <= LIMBS && Val(limb[..n]) == m * Pow(2, q)
  {
    hide Val, Pow, Kept, Room, Shl1;
    n := Load(limb, m);
    ProductSteps(2, m, 0, q);
    var i := 0;
    while i < q
      invariant 0 <= i <= q && Buffer(limb) && 1 <= n <= LIMBS && Val(limb[..n]) == m * Pow(2, i)
    {
      ghost var l := limb[..n];
      ProductSteps(2, m, i, q);
      ProductSteps(2, m, i + 1, q);
      n := LimbsShl1(limb, n);
      Shl1Right(l, 0);
      KeptAll(Shl1(l, 0), m * Pow(2, i + 1)) by { RoomBelow(m * Pow(2, i + 1), m * Pow(2, q)); RoomWords(m * Pow(2, i + 1)); }
      i := i + 1;
    }
  }

  /** Reads the number off digit by digit, lowest first. */
  method Collect(limb: array<nat>, n0: nat, rev: array<char>) returns (nd: nat)
    requires Buffer(limb) && 1 <= n0 <= LIMBS && rev.Length == DIGITS && Room(Val(limb[..n0]))
    modifies limb, rev
    ensures nd <= DIGITS && Digits(old(Val(limb[..n0]))) == Reversed(rev[..nd])
  {
    hide Val, Room, Pow, Digits, Div10, Reversed;
    ghost var v := Val(limb[..n0]);
    DigitsBound(v, DIGITS) by { RoomDigits(v); }
    var n := n0;
    nd := 0;
    var zero := LimbsZero(limb, n);
    NoDigits();
    while !zero
      invariant Buffer(limb) && 1 <= n <= LIMBS && 0 <= nd <= DIGITS
      invariant Digits(v) == Digits(Val(limb[..n])) + Reversed(rev[..nd])
      invariant zero <==> Val(limb[..n]) == 0
      decreases Val(limb[..n])
    {
      ghost var l, done := limb[..n], rev[..nd];
      NextDigit(Val(l));
      Div10Right(l);
      var d := LimbsDiv10Rem(limb, n);
      rev[nd] := Digit(d);
      assert rev[..nd + 1] == done + [Digit(d)];
      ReversedAdd(done, Digit(d));
      nd := nd + 1;
      if n > 1 {
        if limb[n - 1] == 0 {
          DropTop(limb[..n]);
          assert limb[..n][..n - 1] == limb[..n - 1];
          n := n - 1;
        }
      }
      zero := LimbsZero(limb, n);
    }
  }

  lemma DropTop(l: seq<nat>)
    requires l != [] && l[|l| - 1] == 0
    ensures Val(l[..|l| - 1]) == Val(l)
  {
    assert l == l[..|l| - 1] + [0];
    ValCat(l[..|l| - 1], [0]);
  }

  /** The digits of the number in the buffer, highest first. */
  method ReadDigits(limb: array<nat>, n: nat, digs: array<char>) returns (nd: nat)
    requires Buffer(limb) && 1 <= n <= LIMBS && digs.Length == DIGITS && Room(Val(limb[..n]))
    modifies limb, digs
    ensures nd <= DIGITS && digs[..nd] == Digits(old(Val(limb[..n])))
  {
    hide Val, Room, Digits;
    var rev := new char[DIGITS];
    nd := Collect(limb, n, rev);
    ghost var t := rev[..nd];
    for i := 0 to nd
      invariant rev[..nd] == t
      invariant forall j :: 0 <= j < i ==> digs[j] == rev[nd - 1 - j]
    {
      digs[i] := rev[nd - 1 - i];
    }
    assert digs[..nd] == Reversed(t);
  }

  function Reversed(t: seq<char>): (r: seq<char>)
    ensures |r| == |t|
  {
    seq(|t|, i requires 0 <= i < |t| => t[|t| - 1 - i])
  }

  lemma ReversedAdd(t: seq<char>, c: char)
    ensures Reversed(t + [c]) == [c] + Reversed(t)
  {}

  lemma NextDigit(v: nat)
    requires v > 0
    ensures Digits(v) == Digits(v / 10) + [Digit(v % 10)]
  {}

  lemma NoDigits()
    ensures Digits(0) == [] && Reversed([]) == []
  {}

  lemma RoomDigits(v: nat)
    requires Room(v)
    ensures v < Pow(10, DIGITS)
  {}

  // ---------- The buffers are large enough for every double ----------

  lemma {:induction false} FivePow(k: nat)
    ensures Pow(5, 3 * k) <= Pow(2, 7 * k)
  {
    PowMul(5, 3, k);
    PowMul(2, 7, k);
    Cubes();
    PowBase(Pow(5, 3), Pow(2, 7), k);
  }

  lemma Cubes()
    ensures Pow(5, 3) <= Pow(2, 7) && Pow(2, 13) <= Pow(10, 4) && Pow(2, 11) < Pow(10, 4) && Pow(2, 64) == W
  {
    PowMul(2, 4, 16);
    assert Pow(2, 4) == 16;
    assert Pow(16, 4) == 65536;
    PowMul(16, 4, 4);
    assert Pow(65536, 4) == W;
  }

  lemma TwoPow(k: nat)
    ensures Pow(2, 13 * k) <= Pow(10, 4 * k) && Pow(2, 64 * k) == Pow(W, k)
  {
    Cubes();
    PowMul(2, 13, k);
    PowMul(10, 4, k);
    PowBase(Pow(2, 13), Pow(10, 4), k);
    PowMul(2, 64, k);
  }

  /** Any number below 2^(64 * 40 - 1) has room: at most 788 digits. */
  lemma BitsFit(v: nat, bits: nat)
    requires v < Pow(2, bits) && bits < 64 * LIMBS
    ensures Room(v)
  {
    hide Pow;
    TwoPow(LIMBS);
    PowExp(2, bits, 64 * LIMBS);
    BitsDigits(bits, bits / 13, bits % 13);
    PowExp(10, 4 * (bits / 13) + 4, DIGITS);
  }

  lemma BitsDigits(bits: nat, k: nat, r: nat)
    requires bits == 13 * k + r && r < 13
    ensures Pow(2, bits) <= Pow(10, 4 * k + 4)
  {
    hide Pow;
    TwoPow(k);
    PowAdd(2, 13 * k, r);
    PowExp(2, r, 12);
    PowAdd(10, 4 * k, 4);
    Twelve();
    MulLe(Pow(2, 13 * k), Pow(10, 4 * k), Pow(2, r), Pow(10, 4));
  }

  lemma Twelve()
    ensures Pow(2, 12) <= Pow(10, 4)
  {}

  /** Five to the power of a double's negative exponent, times its significand. */
  lemma NegativeFits(m: nat, q: nat)
    requires m < Pow(2, 53) && q <= 1074
    ensures Room(m * Pow(5, q))
  {
    hide Pow;
    var k := 358;
    FivePow(k);
    PowExp(5, q, 3 * k);
    PowAdd(2, 53, 7 * k);
    MulLt(m, Pow(2, 53), Pow(5, q), Pow(2, 7 * k));
    BitsFit(m * Pow(5, q), 53 + 7 * k);
  }

  lemma MulLt(a: nat, b: nat, x: nat, y: nat)
    requires a < b && x <= y && 0 < y
    ensures a * x < b * y
  {
    assert b * y == a * x + (b - a) * y + a * (y - x);
    assert (b - a) * y > 0;
  }

  lemma PositiveFits(m: nat, q: nat)
    requires m < Pow(2, 53) && q <= 971
    ensures Room(m * Pow(2, q))
  {
    hide Pow;
    PowAdd(2, 53, q);
    MulLt(m, Pow(2, 53), Pow(2, q), Pow(2, q));
    BitsFit(m * Pow(2, q), 53 + q);
  }
}
