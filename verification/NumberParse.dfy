/** Reading number text back. */
module NumberParse {
  import opened Options
  import opened Decimals
  import opened Limbs
  import opened NumberLayout
  import opened NumberEmit

  /** A significand of k digits and the place of the point. */
  datatype Parsed = Parsed(s: nat, k: nat, n: int)

  // ---------- What the parser accepts ----------

  /** The first position of one of the characters, or the length. */
  function Find(b: seq<char>, cs: set<char>): (i: nat)
    ensures i <= |b| && (i < |b| ==> b[i] in cs) && forall j :: 0 <= j < i ==> b[j] !in cs
  {
    if b == [] || b[0] in cs then 0 else Find(b[1..], cs) + 1
  }

  function WithoutPoints(b: seq<char>): seq<char> {
    if b == [] then [] else (if b[0] == '.' then [] else [b[0]]) + WithoutPoints(b[1..])
  }

  function LeadingZeros(b: seq<char>): (z: nat)
    ensures z <= |b| && b[..z] == Zeros(z) && (z < |b| ==> b[z] != '0')
  {
    if b == [] || b[0] != '0' then 0 else LeadingZeros(b[1..]) + 1
  }

  /** Digits whose number fits a 64-bit word. */
  function Small(t: seq<char>, n: int): Option<Parsed> {
    if IsDigits(t) && DecOf(t) < W then Some(Parsed(DecOf(t), |t|, n)) else None
  }

  function Exponent(rest: seq<char>): Option<int>
    requires rest != []
  {
    var neg := rest[0] == '-';
    var ds := if rest[0] == '+' || neg then rest[1..] else rest;
    if !IsDigits(ds) then None else if neg then Some(-(DecOf(ds) as int)) else Some(DecOf(ds))
  }

  /** Significand and exponent; a significand beyond 64 bits wraps. */
  function Scientific(mant: seq<char>, rest: seq<char>): Option<Parsed> {
    if rest == [] || Exponent(rest).None? then None
    else
      var t := WithoutPoints(mant);
      if t == [] || !IsDigits(t) then None else Some(Parsed(DecOf(t) % W, |t|, Exponent(rest).value + 1))
  }

  function Fraction(frac: seq<char>): Option<Parsed> {
    var z := LeadingZeros(frac);
    var t := frac[z..];
    if t == [] then Some(Parsed(0, 1, 1)) else if !IsDigits(t) then None else Some(Parsed(DecOf(t) % W, |t|, -(z as int)))
  }

  function Parse(b: seq<char>): Option<Parsed> {
    if b == [] then None
    else
      var e := Find(b, {'e', 'E'});
      if e < |b| then Scientific(b[..e], b[e + 1..])
      else if |b| >= 2 && b[0] == '0' && b[1] == '.' then Fraction(b[2..])
      else
        var dot := Find(b, {'.'});
        if dot < |b| then Small(b[..dot] + b[dot + 1..], dot) else Small(b, |b|)
  }

  // ---------- The parser ----------

  /** Reads digits into a word that wraps. */
  method ReadWrapping(t: seq<char>) returns (s: nat, ok: bool)
    ensures ok <==> IsDigits(t)
    ensures ok ==> s == DecOf(t) % W
  {
    s, ok := 0, true;
    for i := 0 to |t|
      invariant IsDigits(t[..i]) && s == DecOf(t[..i]) % W
    {
      if !('0' <= t[i] <= '9') { return 0, false; }
      DecNext(t, i);
      WrapStep(DecOf(t[..i]), DigitValue(t[i]));
      s := (s * 10 + DigitValue(t[i])) % W;
    }
    assert t[..|t|] == t;
  }

  /** Reads digits into a word, refusing a number that does not fit. */
  method ReadChecked(t: seq<char>) returns (s: nat, ok: bool)
    ensures ok <==> IsDigits(t) && DecOf(t) < W
    ensures ok ==> s == DecOf(t)
  {
    s, ok := 0, true;
    for i := 0 to |t|
      invariant IsDigits(t[..i]) && s == DecOf(t[..i]) < W
    {
      if !('0' <= t[i] <= '9') { return 0, false; }
      DecNext(t, i);
      var d := DigitValue(t[i]);
      if s > (W - 1 - d) / 10 {
        if IsDigits(t) { PrefixGrows(t, i + 1); }
        return 0, false;
      }
      s := s * 10 + d;
    }
    assert t[..|t|] == t;
  }

  lemma DecNext(t: seq<char>, i: nat)
    requires i < |t| && IsDigits(t[..i]) && IsDigit(t[i])
    ensures IsDigits(t[..i + 1]) && DecOf(t[..i + 1]) == 10 * DecOf(t[..i]) + DigitValue(t[i])
  {
    assert t[..i + 1][..i] == t[..i];
  }

  lemma WrapStep(v: nat, d: nat)
    ensures (v % W * 10 + d) % W == (10 * v + d) % W
  {
    var q := v / W;
    assert 10 * v + d == 10 * q * W + (v % W * 10 + d);
    ModPlus(v % W * 10 + d, 10 * q);
  }

  lemma ModPlus(r: nat, q: nat)
    ensures (q * W + r) % W == r % W
  {}

  lemma {:induction false} PrefixGrows(t: seq<char>, i: nat)
    requires IsDigits(t) && i <= |t|
    ensures DecOf(t[..i]) <= DecOf(t)
    decreases |t| - i
  {
    if i < |t| {
      DecNext(t, i);
      PrefixGrows(t, i + 1);
    } else {
      assert t[..i] == t;
    }
  }

  method ParseEcma(b: seq<char>) returns (r: Option<Parsed>)
    ensures r == Parse(b)
  {
    hide Small, Fraction, Scientific;
    if b == [] { return None; }
    var epos := FindFirst(b, {'e', 'E'});
    if epos >= 0 {
      r := ParseScientific(b[..epos], b[epos + 1..]);
      return;
    }
    if |b| >= 2 && b[0] == '0' && b[1] == '.' {
      r := ParseFraction(b[2..]);
      return;
    }
    var dot := FindFirst(b, {'.'});
    if dot >= 0 {
      var s, ok := ReadChecked(b[..dot] + b[dot + 1..]);
      SmallIs(b[..dot] + b[dot + 1..], dot);
      return if ok then Some(Parsed(s, |b| - 1, dot)) else None;
    }
    var s, ok := ReadChecked(b);
    SmallIs(b, |b|);
    return if ok then Some(Parsed(s, |b|, |b|)) else None;
  }

  lemma SmallIs(t: seq<char>, n: int)
    ensures Small(t, n) == if IsDigits(t) && DecOf(t) < W then Some(Parsed(DecOf(t), |t|, n)) else None
  {}

  method FindFirst(b: seq<char>, cs: set<char>) returns (i: int)
    ensures i == if Find(b, cs) < |b| then Find(b, cs) else -1
  {
    var k := 0;
    assert b[0..] == b;
    while k < |b|
      invariant 0 <= k <= |b| && Find(b, cs) == k + Find(b[k..], cs)
    {
      assert b[k..][1..] == b[k + 1..];
      if b[k] in cs { return k; }
      k := k + 1;
    }
    return -1;
  }

  method ParseScientific(mant: seq<char>, rest0: seq<char>) returns (r: Option<Parsed>)
    ensures r == Scientific(mant, rest0)
  {
    if rest0 == [] { return None; }
    var rest, neg := rest0, false;
    if rest[0] == '+' {
      rest := rest[1..];
    } else if rest[0] == '-' {
      neg := true;
      rest := rest[1..];
    }
    var expv := 0;
    for i := 0 to |rest|
      invariant IsDigits(rest[..i]) && expv == DecOf(rest[..i])
    {
      if !('0' <= rest[i] <= '9') { return None; }
      DecNext(rest, i);
      expv := expv * 10 + DigitValue(rest[i]);
    }
    assert rest[..|rest|] == rest;
    if neg { expv := -expv; }
    r := ParseMantissa(mant, expv);
  }

  method ParseMantissa(mant: seq<char>, expv: int) returns (r: Option<Parsed>)
    ensures var t := WithoutPoints(mant);
            r == if t == [] || !IsDigits(t) then None else Some(Parsed(DecOf(t) % W, |t|, expv + 1))
  {
    hide WithoutPoints, DecOf, IsDigits;
    var s, nd := 0, 0;
    ghost var t := [];
    assert mant[0..] == mant;
    NoDigitsRead();
    for i := 0 to |mant|
      invariant WithoutPoints(mant) == t + WithoutPoints(mant[i..])
      invariant IsDigits(t) && s == DecOf(t) % W && nd == |t|
    {
      PointStep(mant, i, t);
      if mant[i] != '.' {
        if !('0' <= mant[i] <= '9') { return None; }
        DecPush(t, mant[i]);
        WrapStep(DecOf(t), DigitValue(mant[i]));
        t := t + [mant[i]];
        s := (s * 10 + DigitValue(mant[i])) % W;
        nd := nd + 1;
      }
    }
    assert mant[|mant|..] == [];
    assert t == WithoutPoints(mant) by { NoPointsLeft(); }
    if nd == 0 { return None; }
    return Some(Parsed(s, nd, expv + 1));
  }

  lemma NoDigitsRead()
    ensures IsDigits([]) && DecOf([]) == 0
  {}

  lemma NoPointsLeft()
    ensures WithoutPoints([]) == []
  {}

  lemma PointStep(mant: seq<char>, i: nat, t: seq<char>)
    requires i < |mant| && WithoutPoints(mant) == t + WithoutPoints(mant[i..])
    ensures mant[i] == '.' ==> WithoutPoints(mant) == t + WithoutPoints(mant[i + 1..])
    ensures mant[i] != '.' ==> WithoutPoints(mant) == t + [mant[i]] + WithoutPoints(mant[i + 1..])
    ensures mant[i] != '.' && !IsDigit(mant[i]) ==> !IsDigits(WithoutPoints(mant))
  {
    var w := WithoutPoints(mant[i + 1..]);
    PointNext(mant, i);
    hide WithoutPoints;
    if mant[i] != '.' {
      assert WithoutPoints(mant) == t + [mant[i]] + w;
      assert WithoutPoints(mant)[|t|] == mant[i];
    } else {
      assert [] + w == w;
    }
  }

  lemma PointNext(mant: seq<char>, i: nat)
    requires i < |mant|
    ensures WithoutPoints(mant[i..]) == (if mant[i] == '.' then [] else [mant[i]]) + WithoutPoints(mant[i + 1..])
  {
    assert mant[i..][1..] == mant[i + 1..];
  }

  lemma DecPush(t: seq<char>, c: char)
    requires IsDigits(t) && IsDigit(c)
    ensures IsDigits(t + [c]) && DecOf(t + [c]) == 10 * DecOf(t) + DigitValue(c)
  {
    assert (t + [c])[..|t|] == t;
  }

  method ParseFraction(frac: seq<char>) returns (r: Option<Parsed>)
    ensures r == Fraction(frac)
  {
    var z := 0;
    assert frac[0..] == frac;
    while z < |frac| && frac[z] == '0'
      invariant 0 <= z <= |frac| && LeadingZeros(frac) == z + LeadingZeros(frac[z..])
    {
      assert frac[z..][1..] == frac[z + 1..];
      z := z + 1;
    }
    var rest := frac[z..];
    if rest == [] { return Some(Parsed(0, 1, 1)); }
    var s, ok := ReadWrapping(rest);
    return if ok then Some(Parsed(s, |rest|, -z)) else None;
  }

  // ---------- Round trip ----------

  lemma {:induction false} FindAt(a: seq<char>, c: char, r: seq<char>, cs: set<char>)
    requires c in cs && forall i :: 0 <= i < |a| ==> a[i] !in cs
    ensures Find(a + [c] + r, cs) == |a|
  {
    if a == [] {
      assert a + [c] + r == [c] + r;
    } else {
      assert (a + [c] + r)[1..] == a[1..] + [c] + r;
      FindAt(a[1..], c, r, cs);
    }
  }

  lemma FindNone(b: seq<char>, cs: set<char>)
    requires forall i :: 0 <= i < |b| ==> b[i] !in cs
    ensures Find(b, cs) == |b|
  {}

  lemma {:induction false} NoPoints(b: seq<char>)
    requires IsDigits(b)
    ensures WithoutPoints(b) == b
  {
    if b != [] { NoPoints(b[1..]); }
  }

  lemma {:induction false} OnePoint(a: seq<char>, b: seq<char>)
    requires IsDigits(a) && IsDigits(b)
    ensures WithoutPoints(a + ['.'] + b) == a + b
  {
    if a == [] {
      assert a + ['.'] + b == ['.'] + b && a + b == b;
      NoPoints(b);
    } else {
      assert (a + ['.'] + b)[1..] == a[1..] + ['.'] + b;
      OnePoint(a[1..], b);
      assert a + b == [a[0]] + (a[1..] + b);
    }
  }

  lemma {:induction false} ZerosThen(z: nat, t: seq<char>)
    requires t != [] && t[0] != '0'
    ensures LeadingZeros(Zeros(z) + t) == z
  {
    if z == 0 {
      assert Zeros(0) + t == t;
    } else {
      assert (Zeros(z) + t)[1..] == Zeros(z - 1) + t;
      ZerosThen(z - 1, t);
    }
  }

  /** Up to 999 the exponent's characters are its decimal digits. */
  lemma ExpRight(v: nat)
    requires v < 1000
    ensures IsDigits(ExpDigits(v)) && ExpDigits(v) != [] && DecOf(ExpDigits(v)) == v
  {
    hide DecOf;
    if v >= 100 {
      assert ExpChar(v / 100) == Digit(v / 100);
      DecOfThree(v / 100, v % 100 / 10, v % 10);
      assert v == 100 * (v / 100) + v % 100 && v % 100 == 10 * (v % 100 / 10) + v % 10;
    } else if v >= 10 {
      DecOfTwo(v / 10, v % 10);
    } else {
      DecOfFirst(v);
    }
  }

  lemma DecOfFirst(a: nat)
    requires a < 10
    ensures DecOf([Digit(a)]) == a
  {
    assert [Digit(a)][..0] == [];
  }

  lemma DecOfTwo(a: nat, b: nat)
    requires a < 10 && b < 10
    ensures DecOf([Digit(a), Digit(b)]) == 10 * a + b
  {
    assert [Digit(a), Digit(b)][..1] == [Digit(a)];
    DecOfFirst(a);
  }

  lemma DecOfThree(a: nat, b: nat, c: nat)
    requires a < 10 && b < 10 && c < 10
    ensures DecOf([Digit(a), Digit(b), Digit(c)]) == 100 * a + 10 * b + c
  {
    assert [Digit(a), Digit(b), Digit(c)][..2] == [Digit(a), Digit(b)];
    DecOfTwo(a, b);
  }

  lemma DecShape(s: nat)
    requires 0 < s < W
    ensures Dec(s) == Digits(s) && Dec(s)[0] != '0' && DecOf(Dec(s)) == s && |Dec(s)| <= 20
  {
    DecOfDigits(s);
    WordDigits(s);
  }

  /** A text of digits is read as itself, if it fits a word. */
  lemma ParseDigits(t: seq<char>)
    requires IsDigits(t) && t != []
    ensures Parse(t) == Small(t, |t|)
  {
    FindNone(t, {'e', 'E'});
    FindNone(t, {'.'});
  }

  lemma ParsePoint(a: seq<char>, b: seq<char>)
    requires IsDigits(a) && IsDigits(b) && a != [] && a[0] != '0'
    ensures Parse(a + ['.'] + b) == Small(a + b, |a|)
  {
    var t := a + ['.'] + b;
    FindNone(t, {'e', 'E'});
    FindAt(a, '.', b, {'.'});
    assert t[..|a|] + t[|a| + 1..] == a + b;
  }

  lemma ParseZeroPoint(z: nat, d: seq<char>)
    requires IsDigits(d) && d != [] && d[0] != '0'
    ensures Parse(['0', '.'] + Zeros(z) + d) == Some(Parsed(DecOf(d) % W, |d|, -(z as int)))
  {
    hide Parse, LeadingZeros, Zeros;
    assert ['0', '.'] + Zeros(z) + d == ['0', '.'] + (Zeros(z) + d);
    FractionRead(Zeros(z) + d);
    ZerosThen(z, d);
    assert (Zeros(z) + d)[z..] == d;
  }

  lemma FractionRead(frac: seq<char>)
    requires IsDigits(frac)
    ensures Parse(['0', '.'] + frac) == Fraction(frac)
  {
    hide Fraction;
    var t := ['0', '.'] + frac;
    FindNone(t, {'e', 'E'});
    assert t[2..] == frac && t[0] == '0' && t[1] == '.';
  }

  lemma ScientificRead(mant: seq<char>, rest: seq<char>)
    requires forall i :: 0 <= i < |mant| ==> mant[i] !in {'e', 'E'}
    ensures Parse(mant + ['e'] + rest) == Scientific(mant, rest)
  {
    hide Scientific, Fraction, Small, Find;
    var b := mant + ['e'] + rest;
    FindAt(mant, 'e', rest, {'e', 'E'});
    assert b[..|mant|] == mant && b[|mant| + 1..] == rest;
  }

  lemma ExponentRead(ev: int)
    requires -1000 < ev < 1000
    ensures ExpText(ev) != [] && ExpText(ev)[0] == 'e' && ExpText(ev)[1..] != [] && Exponent(ExpText(ev)[1..]) == Some(ev)
  {
    hide ExpDigits, DecOf;
    var v := if ev >= 0 then ev else -ev;
    ExpRight(v);
    assert ExpText(ev)[1..][1..] == ExpDigits(v);
  }

  lemma ParseExponent(mant: seq<char>, t: seq<char>, ev: int)
    requires IsDigits(t) && t != [] && WithoutPoints(mant) == t && -1000 < ev < 1000
    requires forall i :: 0 <= i < |mant| ==> mant[i] !in {'e', 'E'}
    ensures Parse(mant + ExpText(ev)) == Some(Parsed(DecOf(t) % W, |t|, ev + 1))
  {
    hide ExpText, WithoutPoints, DecOf, Exponent, Parse;
    ExponentRead(ev);
    var rest := ExpText(ev)[1..];
    assert mant + ExpText(ev) == mant + ['e'] + rest;
    ScientificRead(mant, rest);
  }

  /** Reading the text back gives the number, unless it is written as an integer of more than 64 bits. */
  lemma RoundTrip(s: nat, k: nat, n: int)
    requires 0 < s < W && k == |Dec(s)| && -1000 < n - 1 < 1000
    ensures var p := Parse(Layout(s, k, n));
      if k <= n <= 21 && s * Pow(10, n - k) >= W then p.None?
      else p.Some? && p.value.s > 0 && SameNumber(p.value.s, p.value.n - p.value.k, s, n - k)
  {
    hide Pow, Parse, Dec, DecOf, Digits, ExpText, Trim;
    DecShape(s);
    var d := Dec(s);
    PowOne();
    if k <= n <= 21 {
      var t := d + Zeros(n - k);
      ParseDigits(t);
      DecOfCat(d, Zeros(n - k));
      DecOfZeros(n - k);
      PowExp(10, 0, n - k);
      MulLe(s, s, 1, Pow(10, n - k));
    } else if 0 < n <= 21 {
      ParsePoint(d[..n], d[n..]);
      assert d[..n] + d[n..] == d;
    } else if -6 < n <= 0 {
      ParseZeroPoint(-n, d);
    } else {
      RoundTripScientific(s, n);
    }
  }

  lemma PowOne()
    ensures Pow(10, 0) == 1
  {}

  lemma RoundTripScientific(s: nat, n: int)
    requires 0 < s < W && -1000 < n - 1 < 1000
    ensures var t := Trim(Dec(s));
      var p := Parse([t[0]] + (if |t| > 1 then ['.'] + t[1..] else []) + ExpText(n - 1));
      p.Some? && p.value.s > 0 && SameNumber(p.value.s, p.value.n - p.value.k, s, n - |Dec(s)|)
  {
    hide Pow, Parse, Dec, DecOf, Digits, ExpText, Trim;
    DecShape(s);
    var d := Dec(s);
    var t := Trim(d);
    TrimZeros(d);
    var mant := [t[0]] + (if |t| > 1 then ['.'] + t[1..] else []);
    if |t| > 1 {
      OnePoint([t[0]], t[1..]);
      assert mant == [t[0]] + ['.'] + t[1..] && [t[0]] + t[1..] == t;
    } else {
      assert mant == t;
      NoPoints(t);
    }
    ParseExponent(mant, t, n - 1);
    PrefixGrows(d, |t|);
    DecOfBoundOf(t);
  }

  lemma DecOfBoundOf(t: seq<char>)
    requires IsDigits(t) && t != [] && t[0] != '0'
    ensures DecOf(t) > 0
  {
    DecOfBound(t);
  }

  lemma {:induction false} TrimZeros(t: seq<char>)
    requires IsDigits(t) && t != []
    ensures IsDigits(Trim(t)) && DecOf(t) == DecOf(Trim(t)) * Pow(10, |t| - |Trim(t)|)
    ensures Trim(t) == t[..|Trim(t)|]
  {
    if |t| > 1 && t[|t| - 1] == '0' {
      var u := t[..|t| - 1];
      TrimZeros(u);
      TenTimes(DecOf(Trim(t)), |t| - |Trim(t)|);
    }
  }
}
