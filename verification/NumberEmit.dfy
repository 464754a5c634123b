/** Writing numbers into a character buffer. */
module NumberEmit {
  import opened Decimals
  import opened Limbs
  import opened BigDecimal
  import opened NumberLayout
  import opened TextForm

  /** Room for any text of a double, with its sign and terminator. */
  const TEXT: nat := 32

  method Put(dst: array<char>, pos: nat, c: char) returns (r: nat)
    requires pos < dst.Length
    modifies dst
    ensures r == pos + 1 && dst[..r] == old(dst[..pos]) + [c]
  {
    dst[pos] := c;
    r := pos + 1;
  }

  method CopyDigits(dst: array<char>, pos: nat, src: array<char>, from: nat, to: nat) returns (r: nat)
    requires dst != src && from <= to <= src.Length && pos + (to - from) <= dst.Length
    modifies dst
    ensures r == pos + (to - from) && dst[..r] == old(dst[..pos]) + src[from..to]
  {
    r := pos;
    for i := from to to
      invariant r == pos + (i - from) && src[..] == old(src[..])
      invariant dst[..r] == old(dst[..pos]) + src[from..i]
    {
      assert src[from..i + 1] == src[from..i] + [src[i]];
      r := Put(dst, r, src[i]);
    }
  }

  method Fill(dst: array<char>, pos: nat, count: nat) returns (r: nat)
    requires pos + count <= dst.Length
    modifies dst
    ensures r == pos + count && dst[..r] == old(dst[..pos]) + Zeros(count)
  {
    r := pos;
    for i := 0 to count
      invariant r == pos + i && dst[..r] == old(dst[..pos]) + Zeros(i)
    {
      r := Put(dst, r, '0');
      assert Zeros(i + 1) == Zeros(i) + ['0'];
    }
  }

  /** A 64-bit number has at most twenty digits. */
  lemma WordDigits(v: nat)
    requires v < W
    ensures |Dec(v)| <= 20 && |Digits(v)| <= 20
  {
    PowMul(10, 5, 4);
    assert Pow(10, 5) == 100000;
    assert Pow(100000, 4) == 100_000_000_000_000_000_000;
    DigitsBound(v, 20);
  }

  /** The decimal text of v. */
  method EmitUintRev(dst: array<char>, v0: nat) returns (n: nat)
    requires v0 < W && dst.Length >= 24
    modifies dst
    ensures n <= 20 && dst[..n] == Dec(v0)
  {
    hide Digits, Reversed;
    if v0 == 0 {
      dst[0], dst[1] := '0', 0 as char;
      return 1;
    }
    WordDigits(v0);
    var rev := new char[24];
    var v := v0;
    n := 0;
    NoDigits();
    while v > 0
      invariant 0 <= n <= 20 && Digits(v0) == Digits(v) + Reversed(rev[..n])
    {
      NextDigit(v);
      ghost var done := rev[..n];
      rev[n] := Digit(v % 10);
      ReversedAdd(done, Digit(v % 10));
      assert rev[..n + 1] == done + [Digit(v % 10)];
      n := n + 1;
      v := v / 10;
    }
    ghost var t := rev[..n];
    ReversedIs(t);
    for i := 0 to n
      invariant rev[..n] == t && forall j :: 0 <= j < i ==> dst[j] == t[n - 1 - j]
    {
      dst[i] := rev[(n - 1) - i];
    }
    dst[n] := 0 as char;
    assert dst[..n] == Reversed(t);
  }

  lemma ReversedIs(t: seq<char>)
    ensures forall j :: 0 <= j < |t| ==> Reversed(t)[j] == t[|t| - 1 - j]
  {}

  method EmitExpDigits(dst: array<char>, pos: nat, v: nat) returns (r: nat)
    requires pos + 3 <= dst.Length
    modifies dst
    ensures r <= pos + 3 && dst[..r] == old(dst[..pos]) + ExpDigits(v)
  {
    if v >= 100 {
      r := Put(dst, pos, ExpChar(v / 100));
      r := Put(dst, r, Digit(v % 100 / 10));
      r := Put(dst, r, Digit(v % 100 % 10));
      assert v % 100 % 10 == v % 10;
    } else if v >= 10 {
      r := Put(dst, pos, Digit(v / 10));
      r := Put(dst, r, Digit(v % 10));
    } else {
      r := Put(dst, pos, Digit(v));
    }
  }

  /** Appends the exponent. */
  method EmitExp(dst: array<char>, pos: nat, ev: int) returns (r: nat)
    requires pos + 6 <= dst.Length
    modifies dst
    ensures r <= pos + 5 && dst[..r] == old(dst[..pos]) + ExpText(ev)
  {
    hide ExpDigits;
    r := Put(dst, pos, 'e');
    if ev >= 0 {
      r := Put(dst, r, '+');
      r := EmitExpDigits(dst, r, ev);
    } else {
      r := Put(dst, r, '-');
      r := EmitExpDigits(dst, r, -ev);
    }
    dst[r] := 0 as char;
  }

  /** The text of s * 10^(n - k), after a minus sign if neg. */
  ghost predicate Signed(t: seq<char>, neg: bool, s: nat, n: int) {
    if neg then t != [] && t[0] == '-' && Written(t[1..], s, n) else Written(t, s, n)
  }

  lemma LayoutSigned(t: seq<char>, neg: bool, s: nat, n: int)
    requires t == (if neg then ['-'] else []) + Layout(s, |Dec(s)|, n)
    ensures Signed(t, neg, s, n)
  {
    hide Layout, Written, Dec;
    LayoutWritten(s, n);
    if neg { assert t[1..] == Layout(s, |Dec(s)|, n); } else { assert t == Layout(s, |Dec(s)|, n); }
  }

  /** Writes s * 10^(n - k), s having k digits, after a minus sign if neg. */
  method EmitEcma(dst: array<char>, neg: bool, s: nat, k: nat, n: int) returns (r: nat)
    requires s < W && k == |Dec(s)| && dst.Length >= TEXT
    modifies dst
    ensures r < dst.Length && dst[..r] == (if neg then ['-'] else []) + Layout(s, k, n)
    ensures Signed(dst[..r], neg, s, n)
  {
    hide Dec, ExpText, Trim, Zeros, Signed, Layout;
    WordDigits(s);
    LayoutIs(s, n);
    var digs := new char[24];
    var nd := EmitUintRev(digs, s);
    var pos := 0;
    if neg { pos := Put(dst, pos, '-'); }
    if k <= n <= 21 {
      r := EmitInteger(dst, pos, digs, nd, n);
    } else if 0 < n <= 21 {
      r := EmitPoint(dst, pos, digs, nd, n);
    } else if -6 < n <= 0 {
      r := EmitFraction(dst, pos, digs, nd, n);
    } else {
      r := EmitScientific(dst, pos, digs, nd, n - 1);
    }
    LayoutSigned(dst[..r], neg, s, n);
  }

  /** The digits, then zeros. */
  method EmitInteger(dst: array<char>, pos: nat, digs: array<char>, nd: nat, n: nat) returns (r: nat)
    requires dst != digs && nd <= n <= 21 && nd <= digs.Length && pos <= 1 && dst.Length >= TEXT
    modifies dst
    ensures r < dst.Length && dst[..r] == old(dst[..pos]) + (digs[..nd] + Zeros(n - nd))
  {
    hide Zeros;
    ghost var d := digs[..nd];
    r := CopyDigits(dst, pos, digs, 0, nd);
    NoZeros();
    if n > nd { r := Fill(dst, r, n - nd); }
    assert dst[..r] == old(dst[..pos]) + (d + Zeros(n - nd));
    dst[r] := 0 as char;
  }

  /** The digits with a point after the n-th. */
  method EmitPoint(dst: array<char>, pos: nat, digs: array<char>, nd: nat, n: nat) returns (r: nat)
    requires dst != digs && 0 < n < nd <= 20 && nd <= digs.Length && pos <= 1 && dst.Length >= TEXT
    modifies dst
    ensures r < dst.Length && dst[..r] == old(dst[..pos]) + (digs[..nd][..n] + ['.'] + digs[..nd][n..])
  {
    ghost var d := digs[..nd];
    r := CopyDigits(dst, pos, digs, 0, n);
    r := Put(dst, r, '.');
    r := CopyDigits(dst, r, digs, n, nd);
    assert digs[n..nd] == d[n..] && digs[0..n] == d[..n];
    dst[r] := 0 as char;
  }

  /** Zero, the point, zeros, the digits. */
  method EmitFraction(dst: array<char>, pos: nat, digs: array<char>, nd: nat, n: int) returns (r: nat)
    requires dst != digs && -6 < n <= 0 && nd <= 20 && nd <= digs.Length && pos <= 1 && dst.Length >= TEXT
    modifies dst
    ensures r < dst.Length && dst[..r] == old(dst[..pos]) + (['0', '.'] + Zeros(-n) + digs[..nd])
  {
    hide Zeros;
    ghost var d := digs[..nd];
    r := Put(dst, pos, '0');
    r := Put(dst, r, '.');
    NoZeros();
    if n < 0 { r := Fill(dst, r, -n); }
    r := CopyDigits(dst, r, digs, 0, nd);
    assert dst[..r] == old(dst[..pos]) + (['0', '.'] + Zeros(-n) + d);
    dst[r] := 0 as char;
  }

  lemma NoZeros()
    ensures Zeros(0) == []
  {}

  /** One digit, the rest of the significand after a point, the exponent. */
  method EmitScientific(dst: array<char>, pos: nat, digs: array<char>, nd: nat, ev: int) returns (r: nat)
    requires dst != digs && 1 <= nd <= 20 && nd <= digs.Length && pos <= 1 && dst.Length >= TEXT
    modifies dst
    ensures r < dst.Length
    ensures var t := Trim(digs[..nd]);
            dst[..r] == old(dst[..pos]) + ([t[0]] + (if |t| > 1 then ['.'] + t[1..] else []) + ExpText(ev))
  {
    hide ExpText, Trim;
    ghost var d := digs[..nd];
    r := Put(dst, pos, digs[0]);
    var last := LastNonZero(digs, nd);
    ghost var t := Trim(d);
    assert t == d[..last];
    if last > 1 {
      r := Put(dst, r, '.');
      r := CopyDigits(dst, r, digs, 1, last);
      assert digs[1..last] == t[1..];
    }
    ghost var head := dst[..r];
    assert head == old(dst[..pos]) + ([t[0]] + (if |t| > 1 then ['.'] + t[1..] else []));
    r := EmitExp(dst, r, ev);
  }

  /** How many digits are left without the trailing zeros; at least one. */
  method LastNonZero(digs: array<char>, nd: nat) returns (last: nat)
    requires 1 <= nd <= digs.Length
    ensures 1 <= last <= nd && Trim(digs[..nd]) == digs[..last]
    ensures forall j :: last <= j < nd ==> digs[j] == '0'
    ensures last > 1 ==> digs[last - 1] != '0'
  {
    last := 1;
    for i := 0 to nd
      invariant 1 <= last <= nd && (last == 1 || last <= i) && (last > 1 ==> digs[last - 1] != '0')
      invariant forall j :: last <= j < i ==> digs[j] == '0'
    {
      if digs[i] != '0' { last := i + 1; }
    }
    TrimIs(digs[..nd], last);
    assert digs[..nd][..last] == digs[..last];
  }

  lemma {:induction false} TrimIs(t: seq<char>, last: nat)
    requires 1 <= last <= |t| && (last > 1 ==> t[last - 1] != '0')
    requires forall j :: last <= j < |t| ==> t[j] == '0'
    ensures Trim(t) == t[..last]
    decreases |t|
  {
    if last < |t| {
      TrimIs(t[..|t| - 1], last);
      assert t[..|t| - 1][..last] == t[..last];
    } else {
      assert t[..last] == t;
    }
  }
}
