/** The text of a double from its bits: exact decimal expansion, rounding to seventeen digits, layout. */
module DoubleText {
  import opened Decimals
  import opened Limbs
  import opened BigDecimal
  import opened NumberLayout
  import opened NumberEmit
  import opened TextForm

  // ---------- Digits with one changed ----------

  lemma SplitAt(t: seq<char>, i: nat)
    requires IsDigits(t) && i < |t|
    ensures DecOf(t) == DecOf(t[..i]) * Pow(10, |t| - i) + (DigitValue(t[i]) * Pow(10, |t| - 1 - i) + DecOf(t[i + 1..]))
  {
    hide Pow, DecOf;
    var b := t[i + 1..];
    assert t == t[..i] + ([t[i]] + b);
    DecOfCat([t[i]], b);
    DecOfCat(t[..i], [t[i]] + b);
    DecOfOne(t[i]);
  }

  lemma DecUpdate(t: seq<char>, i: nat, c: char)
    requires IsDigits(t) && i < |t| && IsDigit(c)
    ensures IsDigits(t[i := c])
    ensures DecOf(t[i := c]) == DecOf(t) + (DigitValue(c) - DigitValue(t[i])) * Pow(10, |t| - 1 - i)
  {
    hide Pow, DecOf;
    var u := t[i := c];
    assert u[..i] == t[..i] && u[i + 1..] == t[i + 1..];
    SplitAt(t, i);
    SplitAt(u, i);
    Distribute(DigitValue(c), DigitValue(t[i]), Pow(10, |t| - 1 - i));
  }

  lemma DecOfOne(c: char)
    requires IsDigit(c)
    ensures DecOf([c]) == DigitValue(c)
  {
    assert [c][..0] == [];
  }

  lemma Distribute(a: int, b: int, p: int)
    ensures (a - b) * p == a * p - b * p
  {}

  /** Adds one unit in the last place to the seventeen digits; a carry out of all nines leaves a one
      in front of zeros. */
  method Increment(digs: array<char>) returns (over: bool)
    requires digs.Length >= 17 && IsDigits(digs[..17])
    modifies digs
    ensures IsDigits(digs[..17]) && digs[17..] == old(digs[17..])
    ensures over <==> DecOf(old(digs[..17])) + 1 == Pow(10, 17)
    ensures if over then digs[0] == '1' else DecOf(digs[..17]) == DecOf(old(digs[..17])) + 1
  {
    hide DecOf, Pow;
    ghost var y := DecOf(digs[..17]);
    var i := 16;
    PowZero();
    while true
      invariant 0 <= i <= 16 && IsDigits(digs[..17]) && digs[17..] == old(digs[17..])
      invariant forall j :: i < j < 17 ==> digs[j] == '0'
      invariant DecOf(digs[..17]) + Pow(10, 16 - i) == y + 1
      decreases i
    {
      ghost var t := digs[..17];
      if digs[i] < '9' {
        var c := Digit(DigitValue(digs[i]) + 1);
        DecUpdate(t, i, c);
        digs[i] := c;
        assert digs[..17] == t[i := c];
        DecOfBound(digs[..17]);
        return false;
      }
      DecUpdate(t, i, '0');
      digs[i] := '0';
      assert digs[..17] == t[i := '0'];
      PowNext(16 - i);
      if i == 0 {
        assert digs[..17] == Zeros(17);
        DecOfZeros(17);
        digs[0] := '1';
        assert digs[17..] == old(digs[17..]);
        return true;
      }
      i := i - 1;
    }
  }

  lemma PowZero()
    ensures Pow(10, 0) == 1
  {}

  lemma PowNext(e: nat)
    ensures Pow(10, e + 1) == 10 * Pow(10, e)
  {}

  // ---------- Rounding ----------

  /** The text of the digits up to `last`, followed by zeros up to z. */
  lemma ShownDigits(d: seq<char>, z: nat, e: int)
    requires IsDigits(d) && 1 <= |d| <= z && d[0] != '0' && d[|d| - 1] != '0'
    ensures |Dec(DecOf(d))| == |d| && DecOf(d) * Pow(10, z - |d|) > 0
    ensures Show(DecOf(d) * Pow(10, z - |d|), e) == Layout(DecOf(d), |d|, z + e)
  {
    hide Pow, DecOf, Show, Layout;
    DigitsOfDec(d);
    LastDigit(d);
    ShowIs(DecOf(d) * Pow(10, z - |d|), e, DecOf(d), z - |d|);
  }

  lemma LastDigit(d: seq<char>)
    requires IsDigits(d) && d != [] && d[|d| - 1] != '0'
    ensures DecOf(d) % 10 != 0 && DecOf(d) > 0
  {}

  /** Zeros after the last non-zero digit only shift. */
  lemma TrailingZeros(t: seq<char>, last: nat)
    requires IsDigits(t) && last <= |t| && forall j :: last <= j < |t| ==> t[j] == '0'
    ensures DecOf(t) == DecOf(t[..last]) * Pow(10, |t| - last)
  {
    assert t == t[..last] + Zeros(|t| - last);
    DecOfCat(t[..last], Zeros(|t| - last));
    DecOfZeros(|t| - last);
  }

  /** Rounding to seventeen digits, on the digits: cut, and one more when the eighteenth is at least five. */
  lemma Round17Digits(t: seq<char>)
    requires IsDigits(t) && t != [] && t[0] != '0'
    ensures |t| <= 17 ==> Round17(DecOf(t)) == DecOf(t)
    ensures |t| > 17 ==> Round17(DecOf(t)) == (DecOf(t[..17]) + if t[17] >= '5' then 1 else 0) * Pow(10, |t| - 17)
  {
    hide Pow, DecOf, Nearest, Digits, IsDigits;
    DigitsOfDec(t);
    if |t| > 17 {
      var a, b := t[..17], t[17..];
      assert t == a + b;
      SubDigits(t, 17);
      DecOfCat(a, b);
      FirstAndRest(b);
      NearestCut(DecOf(a), DecOf(b), Pow(10, |b|), Pow(10, |b| - 1), DigitValue(b[0]), DecOf(b[1..]));
    }
  }

  lemma FirstAndRest(b: seq<char>)
    requires IsDigits(b) && b != []
    ensures IsDigit(b[0]) && IsDigits(b[1..]) && DecOf(b[1..]) < Pow(10, |b| - 1)
    ensures DecOf(b) == DigitValue(b[0]) * Pow(10, |b| - 1) + DecOf(b[1..]) && Pow(10, |b|) == 10 * Pow(10, |b| - 1)
  {
    hide DecOf;
    assert b == [b[0]] + b[1..];
    DecOfCat([b[0]], b[1..]);
    DecOfOne(b[0]);
    DecOfBound(b[1..]);
  }

  lemma NearestCut(y: nat, tail: nat, unit: nat, tenth: nat, d: nat, rest: nat)
    requires unit == 10 * tenth && tail == d * tenth + rest && d < 10 && rest < tenth
    ensures Nearest(y * unit + tail, unit) == (y + if d >= 5 then 1 else 0) * unit
  {
    var up := if d >= 5 then 1 else 0;
    assert unit / 2 == 5 * tenth;
    if d >= 5 { MulLe(5, d, tenth, tenth); } else { MulLe(d, 4, tenth, tenth); }
    MulLe(d, 9, tenth, tenth);
    Distribute(y + up, y, unit);
    DivUnique(y * unit + tail + unit / 2, unit, y + up, tail + unit / 2 - up * unit);
  }

  /** The text of v * 10^e rounded to seventeen digits. */
  function Text17(v: nat, e: int): seq<char> {
    if Round17(v) > 0 then Show(Round17(v), e) else "0"
  }

  /** Leaves the rounded digits in the front of digs: `last` of them, and the exponent they go with. */
  method RoundDigits(digs: array<char>, nd: nat, nform: int) returns (last: nat, n: int)
    requires 1 <= nd <= digs.Length && IsDigits(digs[..nd]) && digs[0] != '0'
    modifies digs
    ensures 1 <= last <= 17 && last <= digs.Length && IsDigits(digs[..last])
    ensures var s := DecOf(digs[..last]);
      |Dec(s)| == last && s % 10 != 0 && SameNumber(s, n - last, Round17(DecOf(old(digs[..nd]))), nform - nd)
    ensures Round17(DecOf(old(digs[..nd]))) > 0
    ensures Show(Round17(DecOf(old(digs[..nd]))), nform - nd) == Layout(DecOf(digs[..last]), last, n)
  {
    hide Pow, DecOf, Show, Layout, Round17, Trim, Dec, IsDigits;
    ghost var t := digs[..nd];
    n := nform;
    Round17Digits(t);
    last := LastNonZero(digs, nd);
    if last <= 17 {
      RoundExact(t, last, nform - nd);
      assert digs[..last] == t[..last];
      return;
    }
    SubDigits(t, 17);
    assert digs[..17] == t[..17];
    ghost var up := 0;
    if digs[17] >= '5' {
      up := 1;
      assert digs[17..] == digs[17..];
      var over := Increment(digs);
      if over {
        RoundOver(t, nform - nd);
        assert digs[..1] == ['1'];
        return 1, nform + 1;
      }
    }
    last := LastNonZero(digs, 17);
    assert digs[..17][..last] == digs[..last];
    RoundCut(t, digs[..17], up, last, nform - nd);
  }

  lemma SubDigits(t: seq<char>, n: nat)
    requires IsDigits(t) && n <= |t|
    ensures IsDigits(t[..n]) && IsDigits(t[n..])
  {}

  lemma RoundExact(t: seq<char>, last: nat, e: int)
    requires IsDigits(t) && 1 <= last <= |t| && last <= 17 && t[0] != '0'
    requires (last > 1 ==> t[last - 1] != '0') && forall j :: last <= j < |t| ==> t[j] == '0'
    ensures IsDigits(t[..last]) && |Dec(DecOf(t[..last]))| == last && DecOf(t[..last]) % 10 != 0
    ensures Round17(DecOf(t)) == DecOf(t[..last]) * Pow(10, |t| - last)
    ensures Round17(DecOf(t)) > 0 && Show(Round17(DecOf(t)), e) == Layout(DecOf(t[..last]), last, |t| + e)
  {
    hide Pow, DecOf, Show, Layout, Dec, Round17;
    TrailingZeros(t, last);
    Round17Digits(t);
    if |t| > 17 {
      TrailingZeros(t, 17);
      assert t[17] == '0';
    }
    ShownDigits(t[..last], |t|, e);
    LastDigit(t[..last]);
  }

  lemma RoundOver(t: seq<char>, e: int)
    requires IsDigits(t) && |t| > 17 && t[0] != '0' && t[17] >= '5' && DecOf(t[..17]) + 1 == Pow(10, 17)
    ensures DecOf(['1']) == 1 && |Dec(1)| == 1 && IsDigits(['1']) && Round17(DecOf(t)) == 1 * Pow(10, |t|)
    ensures Round17(DecOf(t)) > 0 && Show(Round17(DecOf(t)), e) == Layout(1, 1, |t| + e + 1)
  {
    hide Pow, Show, Layout, Round17;
    Round17Digits(t);
    PowAdd(10, 17, |t| - 17);
    DecOfOne('1');
    DigitsOfDec(['1']);
    ShowIs(Round17(DecOf(t)), e, 1, |t|);
  }

  lemma RoundCut(t: seq<char>, d: seq<char>, up: nat, last: nat, e: int)
    requires IsDigits(t) && |t| > 17 && t[0] != '0' && up == (if t[17] >= '5' then 1 else 0)
    requires IsDigits(d) && |d| == 17 && DecOf(d) == DecOf(t[..17]) + up
    requires 1 <= last <= 17 && (last > 1 ==> d[last - 1] != '0') && forall j :: last <= j < 17 ==> d[j] == '0'
    ensures IsDigits(d[..last]) && |Dec(DecOf(d[..last]))| == last && DecOf(d[..last]) % 10 != 0
    ensures Round17(DecOf(t)) == DecOf(d[..last]) * Pow(10, |t| - last)
    ensures Round17(DecOf(t)) > 0 && Show(Round17(DecOf(t)), e) == Layout(DecOf(d[..last]), last, |t| + e)
  {
    hide Pow, DecOf, Show, Layout, Round17, Dec;
    Round17Digits(t);
    DecOfBound(t[..17]);
    FirstDigit(d);
    TrailingZeros(d, last);
    Regroup(DecOf(d[..last]), 17 - last, |t| - 17);
    ShownDigits(d[..last], |t|, e);
    LastDigit(d[..last]);
  }

  lemma Regroup(s: nat, a: nat, b: nat)
    ensures s * Pow(10, a) * Pow(10, b) == s * Pow(10, a + b)
  {
    PowAdd(10, a, b);
  }

  lemma FirstDigit(d: seq<char>)
    requires IsDigits(d) && |d| == 17 && DecOf(d) >= Pow(10, 16)
    ensures d[0] != '0'
  {
    hide Pow, DecOf;
    if d[0] == '0' {
      assert d == ['0'] + d[1..];
      DecOfCat(['0'], d[1..]);
      DecOfOne('0');
      DecOfBound(d[1..]);
    }
  }

  /** Writes the number whose nd digits are in digs and whose point stands after the first nform of them,
      rounded to seventeen digits. */
  method EmitFromDigits(dst: array<char>, digs: array<char>, nd: nat, nform: int) returns (r: nat)
    requires dst != digs && 1 <= nd <= digs.Length && IsDigits(digs[..nd]) && digs[0] != '0' && dst.Length >= TEXT
    modifies dst, digs
    ensures r < dst.Length && dst[..r] == Text17(DecOf(old(digs[..nd])), nform - nd)
  {
    hide Pow, Show, Layout, Round17, Dec, DecOf, IsDigits;
    var last, n := RoundDigits(digs, nd, nform);
    var s := 0;
    ghost var d := digs[..last];
    DecEmpty();
    for i := 0 to last
      invariant IsDigits(d[..i]) && s == DecOf(d[..i]) && digs[..last] == d
    {
      DecMore(d, i);
      s := s * 10 + DigitValue(digs[i]);
    }
    assert d[..last] == d;
    SmallWord(d);
    r := EmitEcma(dst, false, s, last, n);
    assert [] + Layout(s, last, n) == Layout(s, last, n);
  }

  lemma DecEmpty()
    ensures IsDigits([]) && DecOf([]) == 0
  {}

  lemma DecMore(d: seq<char>, i: nat)
    requires IsDigits(d) && i < |d|
    ensures IsDigit(d[i]) && IsDigits(d[..i + 1]) && DecOf(d[..i + 1]) == DecOf(d[..i]) * 10 + DigitValue(d[i])
  {
    assert d[..i + 1][..i] == d[..i];
  }

  lemma SmallWord(d: seq<char>)
    requires IsDigits(d) && |d| <= 17
    ensures DecOf(d) < W
  {
    hide DecOf;
    DecOfBound(d);
    PowExp(10, |d|, 17);
    TenSeventeen();
  }

  lemma TenSeventeen()
    ensures Pow(10, 17) < W
  {
    PowMul(10, 4, 4);
    assert Pow(10, 4) == 10000;
    assert Pow(10000, 4) == 10_000_000_000_000_000;
    PowAdd(10, 16, 1);
    assert Pow(10, 1) == 10;
  }

  // ---------- Exact digits ----------

  lemma DigitsShape(v: nat)
    requires v > 0
    ensures IsDigits(Digits(v)) && Digits(v) != [] && Digits(v)[0] != '0' && DecOf(Digits(v)) == v
  {
    DecOfDigits(v);
  }

  /** Writes m / 2^q: the digits of m * 5^q with the point q places from the right. */
  method NegexpToDec(m: nat, q: nat, dst: array<char>) returns (r: nat)
    requires 0 < m < W && Room(m * Pow(5, q)) && dst.Length >= TEXT
    modifies dst
    ensures r < dst.Length && dst[..r] == Text17(m * Pow(5, q), -(q as int))
  {
    hide Room, Pow, Digits, DecOf, Text17, IsDigits, Val;
    var limb, digs := new nat[LIMBS], new char[DIGITS];
    var n := FillMul5(limb, m, q);
    var nd := ReadDigits(limb, n, digs);
    ProductSteps(5, m, 0, q);
    DigitsShape(m * Pow(5, q));
    r := EmitFromDigits(dst, digs, nd, nd - q);
  }

  /** Writes m * 2^q. */
  method PosexpToDec(m: nat, q: nat, dst: array<char>) returns (r: nat)
    requires 0 < m < W && Room(m * Pow(2, q)) && dst.Length >= TEXT
    modifies dst
    ensures r < dst.Length && dst[..r] == Text17(m * Pow(2, q), 0)
  {
    hide Room, Pow, Digits, DecOf, Text17, IsDigits, Val;
    var limb, digs := new nat[LIMBS], new char[DIGITS];
    var n := FillShl1(limb, m, q);
    var nd := ReadDigits(limb, n, digs);
    ProductSteps(2, m, 0, q);
    DigitsShape(m * Pow(2, q));
    r := EmitFromDigits(dst, digs, nd, nd);
  }

  lemma U128Digits(hi: nat, lo: nat)
    requires hi < W && lo < W
    ensures |Digits(hi * W + lo)| <= 40
  {
    WordDigits(hi);
    PowMul(10, 20, 2);
    WordBelow();
    PowAdd(10, 20, 20);
    MulLe(W, Pow(10, 20), W, Pow(10, 20));
    DigitsBound(hi * W + lo, 40);
  }

  lemma WordBelow()
    ensures W < Pow(10, 20)
  {
    PowMul(10, 5, 4);
    assert Pow(10, 5) == 100000;
    assert Pow(100000, 4) == 100_000_000_000_000_000_000;
  }

  /** The digits of a 128-bit number. */
  method U128ToDec(hi0: nat, lo0: nat, digs: array<char>) returns (nd: nat)
    requires hi0 < W && lo0 < W && digs.Length >= 48
    modifies digs
    ensures nd <= 40 && digs[..nd] == Digits(hi0 * W + lo0)
  {
    hide Digits, Reversed;
    U128Digits(hi0, lo0);
    var rev := new char[48];
    var hi: nat, lo: nat := hi0, lo0;
    nd := 0;
    NoDigits();
    while hi != 0 || lo != 0
      invariant hi < W && lo < W && 0 <= nd <= 40
      invariant Digits(hi0 * W + lo0) == Digits(hi * W + lo) + Reversed(rev[..nd])
      decreases hi * W + lo
    {
      ghost var v, done := hi * W + lo, rev[..nd];
      NextDigit(v);
      DivideParts(hi, lo);
      var q, d := DivWord(hi, lo);
      rev[nd] := Digit(d);
      assert rev[..nd + 1] == done + [Digit(d)];
      ReversedAdd(done, Digit(d));
      nd := nd + 1;
      lo := q;
      hi := hi / 10;
    }
    ghost var t := rev[..nd];
    ReversedIs(t);
    for i := 0 to nd
      invariant rev[..nd] == t && forall j :: 0 <= j < i ==> digs[j] == t[nd - 1 - j]
    {
      digs[i] := rev[(nd - 1) - i];
    }
    digs[nd] := 0 as char;
    assert digs[..nd] == Reversed(t);
  }

  lemma DivideParts(hi: nat, lo: nat)
    requires lo < W
    ensures var v, p := hi * W + lo, hi % 10 * W + lo; v / 10 == hi / 10 * W + p / 10 && v % 10 == p % 10
  {
    assert hi == 10 * (hi / 10) + hi % 10;
    var p := hi % 10 * W + lo;
    assert hi * W + lo == 10 * (hi / 10 * W) + p;
    assert p == 10 * (p / 10) + p % 10;
  }

  /** hi * 2^64 + lo := m * 2^e, one bit at a time. */
  method ShiftU128(m: nat, e: nat) returns (hi: nat, lo: nat)
    requires m < W && m * Pow(2, e) < W * W
    ensures hi < W && lo < W && hi * W + lo == m * Pow(2, e)
  {
    hide Pow;
    hi, lo := 0, m;
    var i := e;
    ProductSteps(2, m, 0, e);
    while i > 0
      invariant 0 <= i <= e && hi < W && lo < W && hi * W + lo == m * Pow(2, e - i)
    {
      ProductSteps(2, m, e - i, e);
      ProductSteps(2, m, e - i + 1, e);
      ShiftParts(hi, lo);
      var bit := lo / (W / 2);
      lo := 2 * lo % W;
      hi := 2 * hi % W + bit;
      i := i - 1;
    }
  }

  lemma ShiftParts(hi: nat, lo: nat)
    requires lo < W && 2 * (hi * W + lo) < W * W
    ensures 2 * hi % W == 2 * hi && 2 * hi + lo / (W / 2) < W
    ensures (2 * hi + lo / (W / 2)) * W + 2 * lo % W == 2 * (hi * W + lo)
  {
    assert lo == lo / (W / 2) * (W / 2) + lo % (W / 2);
    DivMod(2 * lo, lo / (W / 2), 2 * (lo % (W / 2)));
    assert 2 * hi < W;
  }

  lemma AtLeastDigits(v: nat, n: nat)
    requires Pow(10, n) <= v
    ensures |Digits(v)| > n
  {
    hide Pow;
    DecOfDigits(v);
    DecOfBound(Digits(v));
    if |Digits(v)| <= n { PowExp(10, |Digits(v)|, n); }
  }

  /** Rounding keeps a positive number positive, and of at least as many digits. */
  lemma RoundedDigits(v: nat)
    requires v > 0
    ensures Round17(v) > 0 && |Digits(v)| <= |Digits(Round17(v))| <= |Digits(v)| + 1
  {
    hide Pow, DecOf;
    var t := Digits(v);
    DigitsShape(v);
    Round17Digits(t);
    if |t| > 17 {
      var up := if t[17] >= '5' then 1 else 0;
      SubDigits(t, 17);
      DecOfBound(t[..17]);
      PowAdd(10, 16, |t| - 17);
      PowAdd(10, 17, |t| - 17);
      MulLe(Pow(10, 16), DecOf(t[..17]) + up, Pow(10, |t| - 17), Pow(10, |t| - 17));
      MulLe(DecOf(t[..17]) + up, Pow(10, 17), Pow(10, |t| - 17), Pow(10, |t| - 17));
      AtLeastDigits(Round17(v), |t| - 1);
      PowStep(|t|);
      DigitsBound(Round17(v), |t| + 1);
    }
  }

  lemma PowStep(n: nat)
    ensures Pow(10, n) < Pow(10, n + 1)
  {}

  /** Stripping zeros from a number of d digits. */
  lemma {:induction false} StripDigits(v: nat, e: int)
    requires v > 0
    ensures var (s, x) := Strip(v, e);
      x >= e && v == s * Pow(10, x - e) && |Digits(s)| + (x - e) == |Digits(v)|
  {
    if v % 10 == 0 {
      StripDigits(v / 10, e + 1);
      var (s, x) := Strip(v, e);
      TenTimes(s, x - e);
    }
  }

  /** A number rounded to seventeen digits has at most seventeen before its zeros. */
  lemma RoundedShort(v: nat, e: int)
    requires v > 0 && Round17(v) > 0
    ensures |Digits(Strip(Round17(v), e).0)| <= 17
  {
    hide Pow, DecOf, Round17, Strip, Digits;
    RoundedDigits(v);
    StripDigits(Round17(v), e);
    var t := Digits(v);
    var nd := |t|;
    DigitsShape(v);
    Round17Digits(t);
    if nd > 17 {
      SubDigits(t, 17);
      var y := DecOf(t[..17]) + if t[17] >= '5' then 1 else 0;
      DecOfBound(t[..17]);
      StripShift(y, e, nd - 17) by { YPositive(y, Pow(10, nd - 17), Round17(v)); }
      StripDigits(y, e + (nd - 17));
      if y == Pow(10, 17) {
        StripShift(1, e + (nd - 17), 17);
        StripOne(e + (nd - 17) + 17);
      } else {
        DigitsBound(y, 17);
      }
    }
  }

  lemma YPositive(y: nat, p: nat, r: nat)
    requires r == y * p > 0
    ensures y > 0
  {}

  lemma StripOne(e: int)
    ensures Strip(1, e) == (1, e) && |Digits(1)| == 1 && 1 * Pow(10, 17) == Pow(10, 17)
  {}

  // ---------- Doubles ----------

  const FRACTION: nat := 0x10_0000_0000_0000

  function ExponentField(bits: nat): nat { bits / FRACTION % 0x800 }

  function Negative(bits: nat): bool { bits / (W / 2) != 0 }

  /** The significand and the exponent of two of a finite double. */
  function Parts(bits: nat): (nat, int) {
    if ExponentField(bits) == 0 then (bits % FRACTION, -1074)
    else (bits % FRACTION + FRACTION, ExponentField(bits) - 1075)
  }

  /** The decimal expansion of a finite double's magnitude: an integer and a power of ten. */
  function Exact(bits: nat): (nat, int) {
    var (m, e) := Parts(bits);
    if e >= 0 then (m * Pow(2, e), 0) else (m * Pow(5, -e), e)
  }

  /** The expansion is exact: scaled by the denominator 2^q * 10^q both sides agree. */
  lemma ExactRight(bits: nat)
    ensures var (m, e) := Parts(bits); var (v, x) := Exact(bits);
      if e >= 0 then x == 0 && v == m * Pow(2, e) else x == e && v * Pow(2, -e) == m * Pow(10, -e)
  {
    var (m, e) := Parts(bits);
    if e < 0 {
      TwoFives(-e);
      assert m * Pow(5, -e) * Pow(2, -e) == m * (Pow(5, -e) * Pow(2, -e));
    }
  }

  lemma {:induction false} TwoFives(q: nat)
    ensures Pow(5, q) * Pow(2, q) == Pow(10, q)
  {
    if q > 0 {
      TwoFives(q - 1);
      assert 5 * Pow(5, q - 1) * (2 * Pow(2, q - 1)) == 10 * (Pow(5, q - 1) * Pow(2, q - 1));
    }
  }

  /** The text of a double's bits: the sign of a finite number is left to the caller. */
  function TextOf(bits: nat): seq<char> {
    if ExponentField(bits) == 0x7FF then
      if bits % FRACTION != 0 then "NaN" else if Negative(bits) then "-Infinity" else "Infinity"
    else if bits * 2 % W == 0 then "0"
    else
      Text17(Exact(bits).0, Exact(bits).1)
  }

  /** The text t of a double's bits: the special values by name, both zeros as 0, and any other number, its sign
      apart, in the layout that its value rounded to seventeen digits calls for. */
  ghost predicate WrittenBits(t: seq<char>, bits: nat) {
    var (field, fraction, sign) := (bits / 0x10_0000_0000_0000 % 0x800, bits % 0x10_0000_0000_0000, bits / 0x8000_0000_0000_0000);
    if field == 0x7FF && fraction != 0 then t == "NaN"
    else if field == 0x7FF then t == if sign == 0 then "Infinity" else "-Infinity"
    else if field == 0 && fraction == 0 then t == "0"
    else exists s, n :: RoundedTo(bits, s, n) && Written(t, s, n)
  }

  /** s * 10^(n - k), s having k digits and no zero at its end, is the double's magnitude rounded. */
  ghost predicate RoundedTo(bits: nat, s: nat, n: int) {
    && s > 0 && s % 10 != 0 && |Dec(s)| <= 17
    && SameNumber(s, n - |Dec(s)|, Round17(Exact(bits).0), Exact(bits).1)
  }

  lemma TextWritten(bits: nat)
    requires bits < W
    ensures WrittenBits(TextOf(bits), bits)
  {
    hide Pow, Text17, Written, RoundedTo, Exact;
    if ExponentField(bits) != 0x7FF && bits * 2 % W != 0 {
      ProperWritten(bits);
    } else if ExponentField(bits) != 0x7FF {
      ZeroBits(bits);
    }
  }

  lemma ZeroBits(bits: nat)
    requires bits < W && bits * 2 % W == 0
    ensures bits / 0x10_0000_0000_0000 % 0x800 == 0 && bits % 0x10_0000_0000_0000 == 0
  {
    var q := bits * 2 / W;
    assert bits * 2 == q * W;
  }

  lemma ProperWritten(bits: nat)
    requires bits < W && ExponentField(bits) != 0x7FF && bits * 2 % W != 0
    ensures !(ExponentField(bits) == 0 && bits % FRACTION == 0)
    ensures exists s, n :: RoundedTo(bits, s, n) && Written(TextOf(bits), s, n)
  {
    hide Pow, Round17, Strip, Layout, Digits, Written, Exact;
    ExactPositive(bits);
    var (v, x) := Exact(bits);
    RoundedDigits(v);
    StripDigits(Round17(v), x);
    RoundedShort(v, x);
    var (s, y) := Strip(Round17(v), x);
    LayoutWritten(s, |Dec(s)| + y);
    assert RoundedTo(bits, s, |Dec(s)| + y);
  }

  lemma ExactPositive(bits: nat)
    requires bits < W && ExponentField(bits) != 0x7FF && bits * 2 % W != 0
    ensures Exact(bits).0 > 0 && !(ExponentField(bits) == 0 && bits % FRACTION == 0)
  {
    hide Pow;
    PartsBound(bits);
    var (m, e) := Parts(bits);
    if e >= 0 { Positive(m, 2, e); } else { Positive(m, 5, -e); }
    if ExponentField(bits) == 0 && bits % FRACTION == 0 { SignOnly(bits); }
  }

  lemma {:induction false} Positive(m: nat, b: nat, e: nat)
    requires m > 0 && b > 0
    ensures Pow(b, e) > 0 && m * Pow(b, e) > 0
    decreases e
  {
    if e > 0 { Positive(b, b, e - 1); }
  }

  method EmitLit(dst: array<char>, s: seq<char>) returns (r: nat)
    requires |s| < dst.Length
    modifies dst
    ensures r == |s| && dst[..r] == s
  {
    r := |s|;
    for i := 0 to |s|
      invariant dst[..i] == s[..i]
    {
      dst[i] := s[i];
    }
    dst[r] := 0 as char;
  }

  lemma PartsBound(bits: nat)
    requires bits < W && ExponentField(bits) != 0x7FF
    ensures var (m, e) := Parts(bits); m < Pow(2, 53) && -1074 <= e <= 971 && (bits * 2 % W != 0 ==> m > 0)
  {
    hide Pow;
    TwoTo53();
    if ExponentField(bits) == 0 && bits % FRACTION == 0 { SignOnly(bits); }
  }

  lemma TwoTo53()
    ensures Pow(2, 53) == 2 * FRACTION
  {
    PowAdd(2, 26, 27);
    assert Pow(2, 13) == 8192;
    PowMul(2, 13, 2);
    assert Pow(8192, 2) == 67108864;
    PowNext2(26);
  }

  lemma PowNext2(e: nat)
    ensures Pow(2, e + 1) == 2 * Pow(2, e)
  {}

  lemma SignOnly(bits: nat)
    requires bits < W && ExponentField(bits) == 0 && bits % FRACTION == 0
    ensures bits * 2 % W == 0
  {
    var q := bits / FRACTION;
    assert bits == q * FRACTION && q == q / 0x800 * 0x800;
    assert bits == q / 0x800 * (W / 2);
  }

  /** The text of a double from its bits. */
  method D2sBits(bits: nat, dst: array<char>) returns (r: nat)
    requires bits < W && dst.Length >= TEXT
    modifies dst
    ensures r < dst.Length && dst[..r] == TextOf(bits) && WrittenBits(dst[..r], bits)
  {
    hide Room, Pow, Text17, Digits, DecOf, WrittenBits;
    TextWritten(bits);
    var field, fraction := bits / FRACTION % 0x800, bits % FRACTION;
    if field == 0x7FF {
      if fraction != 0 { r := EmitLit(dst, "NaN"); return; }
      if bits / (W / 2) != 0 { r := EmitLit(dst, "-Infinity"); return; }
      r := EmitLit(dst, "Infinity");
      return;
    }
    if bits * 2 % W == 0 { r := EmitLit(dst, "0"); return; }
    var e, m;
    if field == 0 { e, m := -1074, fraction; } else { e, m := field - 0x3FF - 52, fraction + FRACTION; }
    PartsBound(bits);
    Small(m);
    if 0 <= e <= 74 {
      ShiftRoom(m, e);
      var hi, lo := ShiftU128(m, e);
      var digs := new char[48];
      var nd := U128ToDec(hi, lo, digs);
      ProductSteps(2, m, 0, e);
      DigitsShape(m * Pow(2, e));
      r := EmitFromDigits(dst, digs, nd, nd);
    } else if e < 0 {
      NegativeFits(m, -e);
      r := NegexpToDec(m, -e, dst);
    } else {
      PositiveFits(m, e);
      r := PosexpToDec(m, e, dst);
    }
  }

  lemma Small(m: nat)
    requires m < Pow(2, 53)
    ensures m < W
  {
    PowExp(2, 53, 64);
    Cubes();
  }

  lemma ShiftRoom(m: nat, e: nat)
    requires m < Pow(2, 53) && e <= 74
    ensures m * Pow(2, e) < W * W
  {
    hide Pow;
    PowAdd(2, 53, e);
    MulLt(m, Pow(2, 53), Pow(2, e), Pow(2, e));
    PowExp(2, 53 + e, 128);
    PowAdd(2, 64, 64);
    Cubes();
  }
}
