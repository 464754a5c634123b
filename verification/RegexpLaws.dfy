/**
 What the smallest parts of a pattern accept, said about the answers of the search: the matcher and
 the match relation share the tests of single runes and positions, so their agreement says nothing of them.
 */
module RegexpLaws {
  import opened Regexp

  // ---------- Positions and runes, in the terms of the pattern language ----------

  predicate LineBreak(r: int) { r in {10, 13, 0x2028, 0x2029} }

  predicate LineStart(e: Env, m: int) { m == 0 || (e.p.multiline && m > 0 && LineBreak(e.s.last(m))) }

  predicate LineEnd(e: Env, m: int) { m == e.s.len || (e.p.multiline && m < e.s.len && LineBreak(e.s.rune(m))) }

  /** A letter, a digit or an underscore; rune 0 stands before the subject. */
  predicate WordBefore(e: Env, m: int) {
    if m > 0 then e.s.last(m) == '_' as int || e.u.letterOrDigit(e.s.last(m)) else e.u.letterOrDigit(0)
  }

  predicate WordAfter(e: Env, m: int) {
    m < e.s.len && (e.s.rune(m) == '_' as int || e.u.letterOrDigit(e.s.rune(m)))
  }

  /** Where an anchor lets a match pass. */
  predicate Passes(e: Env, k: AnchorKind, m: int) {
    if k.Caret? then LineStart(e, m)
    else if k.Dollar? then LineEnd(e, m)
    else if k.WordBound? then WordBefore(e, m) != WordAfter(e, m)
    else WordBefore(e, m) == WordAfter(e, m)
  }

  /** A class lists runes: the first 256 one by one, the others by ranges. */
  predicate Listed(c: CharClass, r: int) {
    || (r < 256 && r in c.latin)
    || (r >= 256 && exists i :: 0 <= i < |c.ranges| && c.ranges[i].0 <= r && r <= c.ranges[i].1)
  }

  predicate OneRune(n: Node) { n.Lit? || n.Dot? || n.Cls? }

  /** The runes that a one-rune pattern takes. */
  predicate Takes(e: Env, n: Node, r: int)
    requires OneRune(n)
  {
    if n.Lit? then r == n.r || (e.p.icase && e.u.lower(r) == e.u.lower(n.r))
    else if n.Dot? then e.p.dotAll || !LineBreak(r)
    else
      var listed := Listed(n.cls, r) || (e.p.icase && (Listed(n.cls, e.u.lower(r)) || Listed(n.cls, e.u.upper(r))));
      listed != n.cls.neg
  }

  // ---------- A concatenation cut in two ----------

  /** One part, then the others. */
  ghost predicate Onward(e: Env, kids: seq<Node>, t: nat, i: int, j: int)
    requires e.Valid() && e.At(i) && e.At(j) && t < |kids|
  {
    exists m | e.At(m) :: Matches(e, kids[t], i, m) && MatchesSeq(e, Concat(kids), t + 1, m, j)
  }

  lemma SeqIs(e: Env, kids: seq<Node>, t: nat, i: int, j: int)
    requires e.Valid() && e.At(i) && e.At(j) && t <= |kids|
    ensures MatchesSeq(e, Concat(kids), t, i, j) <==> if t == |kids| then i == j else Onward(e, kids, t, i, j)
  {
    hide Matches;
  }

  lemma {:induction false} SeqShift(e: Env, a: seq<Node>, b: seq<Node>, t: nat, i: int, j: int)
    requires e.Valid() && e.At(i) && e.At(j) && t <= |b|
    ensures MatchesSeq(e, Concat(a + b), |a| + t, i, j) <==> MatchesSeq(e, Concat(b), t, i, j)
    decreases |b| - t
  {
    hide Matches, MatchesSeq;
    SeqIs(e, a + b, |a| + t, i, j);
    SeqIs(e, b, t, i, j);
    if t < |b| {
      assert (a + b)[|a| + t] == b[t];
      forall m | e.At(m)
        ensures MatchesSeq(e, Concat(a + b), |a| + t + 1, m, j) <==> MatchesSeq(e, Concat(b), t + 1, m, j)
      {
        SeqShift(e, a, b, t + 1, m, j);
      }
    }
  }

  lemma {:induction false} SeqCut(e: Env, a: seq<Node>, b: seq<Node>, t: nat, i: int, j: int) returns (m: int)
    requires e.Valid() && e.At(i) && e.At(j) && t <= |a| && MatchesSeq(e, Concat(a + b), t, i, j)
    ensures e.At(m) && MatchesSeq(e, Concat(a), t, i, m) && MatchesSeq(e, Concat(b), 0, m, j)
    decreases |a| - t
  {
    hide Matches, MatchesSeq;
    if t == |a| {
      m := i;
      SeqShift(e, a, b, 0, i, j);
      SeqIs(e, a, t, i, i);
    } else {
      SeqIs(e, a + b, t, i, j);
      assert (a + b)[t] == a[t];
      var x :| e.At(x) && Matches(e, a[t], i, x) && MatchesSeq(e, Concat(a + b), t + 1, x, j);
      m := SeqCut(e, a, b, t + 1, x, j);
      SeqIs(e, a, t, i, m);
    }
  }

  lemma {:induction false} SeqJoin(e: Env, a: seq<Node>, b: seq<Node>, t: nat, i: int, m: int, j: int)
    requires e.Valid() && e.At(i) && e.At(m) && e.At(j) && t <= |a|
    requires MatchesSeq(e, Concat(a), t, i, m) && MatchesSeq(e, Concat(b), 0, m, j)
    ensures MatchesSeq(e, Concat(a + b), t, i, j)
    decreases |a| - t
  {
    hide Matches, MatchesSeq;
    SeqIs(e, a, t, i, m);
    if t == |a| {
      SeqShift(e, a, b, 0, i, j);
    } else {
      var x :| e.At(x) && Matches(e, a[t], i, x) && MatchesSeq(e, Concat(a), t + 1, x, m);
      SeqJoin(e, a, b, t + 1, x, m, j);
      assert (a + b)[t] == a[t];
      SeqIs(e, a + b, t, i, j);
    }
  }

  /** Before x, x, after x. */
  ghost predicate Around(e: Env, ms: seq<Node>, x: Node, ns: seq<Node>, i: int, j: int)
    requires e.Valid() && e.At(i) && e.At(j)
  {
    exists m, m2 | e.At(m) && e.At(m2) ::
      Matches(e, Concat(ms), i, m) && Matches(e, x, m, m2) && Matches(e, Concat(ns), m2, j)
  }

  lemma MatchesAround(e: Env, ms: seq<Node>, x: Node, ns: seq<Node>, i: int, j: int)
    requires e.Valid() && e.At(i) && e.At(j)
    ensures Matches(e, Concat(ms + [x] + ns), i, j) <==> Around(e, ms, x, ns, i, j)
  {
    hide Matches, MatchesSeq;
    assert ms + [x] + ns == ms + ([x] + ns);
    ConcatIs(e, ms + [x] + ns, i, j);
    if MatchesSeq(e, Concat(ms + ([x] + ns)), 0, i, j) {
      var m := SeqCut(e, ms, [x] + ns, 0, i, j);
      ConcatIs(e, ms, i, m);
      OneThen(e, x, ns, m, j);
    }
    forall m, m2 | e.At(m) && e.At(m2) && Matches(e, Concat(ms), i, m) && Matches(e, x, m, m2) && Matches(e, Concat(ns), m2, j)
      ensures MatchesSeq(e, Concat(ms + ([x] + ns)), 0, i, j)
    {
      ConcatIs(e, ms, i, m);
      OneThen(e, x, ns, m, j);
      SeqJoin(e, ms, [x] + ns, 0, i, m, j);
    }
  }

  /** x, then the parts ns. */
  ghost predicate Two(e: Env, x: Node, ns: seq<Node>, m: int, j: int)
    requires e.Valid() && e.At(m) && e.At(j)
  {
    exists m2 | e.At(m2) :: Matches(e, x, m, m2) && Matches(e, Concat(ns), m2, j)
  }

  lemma OneThen(e: Env, x: Node, ns: seq<Node>, m: int, j: int)
    requires e.Valid() && e.At(m) && e.At(j)
    ensures MatchesSeq(e, Concat([x] + ns), 0, m, j) <==> Two(e, x, ns, m, j)
  {
    hide Matches, MatchesSeq, Onward, Two;
    SeqIs(e, [x] + ns, 0, m, j);
    if Onward(e, [x] + ns, 0, m, j) { OnwardTwo(e, x, ns, m, j); }
    if Two(e, x, ns, m, j) { TwoOnward(e, x, ns, m, j); }
  }

  lemma RestIs(e: Env, x: Node, ns: seq<Node>, m2: int, j: int)
    requires e.Valid() && e.At(m2) && e.At(j)
    ensures MatchesSeq(e, Concat([x] + ns), 1, m2, j) <==> Matches(e, Concat(ns), m2, j)
  {
    hide Matches, MatchesSeq;
    SeqShift(e, [x], ns, 0, m2, j);
    ConcatIs(e, ns, m2, j);
  }

  lemma OnwardTwo(e: Env, x: Node, ns: seq<Node>, m: int, j: int)
    requires e.Valid() && e.At(m) && e.At(j) && Onward(e, [x] + ns, 0, m, j)
    ensures Two(e, x, ns, m, j)
  {
    hide Matches, MatchesSeq;
    var m2 :| e.At(m2) && Matches(e, ([x] + ns)[0], m, m2) && MatchesSeq(e, Concat([x] + ns), 1, m2, j);
    RestIs(e, x, ns, m2, j);
  }

  lemma TwoOnward(e: Env, x: Node, ns: seq<Node>, m: int, j: int)
    requires e.Valid() && e.At(m) && e.At(j) && Two(e, x, ns, m, j)
    ensures Onward(e, [x] + ns, 0, m, j)
  {
    hide Matches, MatchesSeq;
    var m2 :| e.At(m2) && Matches(e, x, m, m2) && Matches(e, Concat(ns), m2, j);
    RestIs(e, x, ns, m2, j);
    assert ([x] + ns)[0] == x;
  }

  lemma ConcatIs(e: Env, ns: seq<Node>, i: int, j: int)
    requires e.Valid() && e.At(i) && e.At(j)
    ensures Matches(e, Concat(ns), i, j) <==> MatchesSeq(e, Concat(ns), 0, i, j)
  {}

  // ---------- Anchors ----------

  /** From i to j with an anchor on the way, passed at a position where it may be. */
  ghost predicate Anchored(e: Env, ms: seq<Node>, k: AnchorKind, ns: seq<Node>, i: int, j: int)
    requires e.Valid() && e.At(i) && e.At(j)
  {
    exists m | e.At(m) :: Matches(e, Concat(ms), i, m) && Passes(e, k, m) && Matches(e, Concat(ns), m, j)
  }

  lemma AnchoredMatches(e: Env, ms: seq<Node>, k: AnchorKind, ns: seq<Node>, i: int, j: int)
    requires e.Valid() && e.At(i) && e.At(j)
    ensures Matches(e, Concat(ms + [Anchor(k)] + ns), i, j) <==> Anchored(e, ms, k, ns, i, j)
  {
    hide MatchesSeq;
    MatchesAround(e, ms, Anchor(k), ns, i, j);
    forall m, m2 | e.At(m) && e.At(m2) ensures Matches(e, Anchor(k), m, m2) <==> m == m2 && Passes(e, k, m) {}
  }

  /** An anchor anywhere in a pattern: what the search finds passes it where it may be, and nothing that does is missed. */
  lemma AnchorIs(e: Env, ms: seq<Node>, k: AnchorKind, ns: seq<Node>, gas: int)
    requires e.Valid() && Plain(e.p.root) && e.p.root == Concat(ms + [Anchor(k)] + ns)
    ensures match Search(e, gas).0
            case Found(caps) =>
              && |caps| >= 2 && e.At(caps[0]) && e.At(caps[1]) && Anchored(e, ms, k, ns, caps[0], caps[1])
              && forall b, j | e.At(b) && e.At(j) && Boundary(e.s, 0, b) && b < caps[0] :: !Anchored(e, ms, k, ns, b, j)
            case NoMatch => forall b, j | e.At(b) && e.At(j) && Boundary(e.s, 0, b) :: !Anchored(e, ms, k, ns, b, j)
            case Stopped => true
  {
    hide Matches, Search, Anchored, Ends, Plain;
    SearchRight(e, gas);
    forall b, j | e.At(b) && e.At(j) ensures Matches(e, e.p.root, b, j) <==> Anchored(e, ms, k, ns, b, j) {
      AnchoredMatches(e, ms, k, ns, b, j);
    }
  }

  /** Without the multiline flag ^ finds the matches of the rest that start at the start, and $ those that end at the end. */
  lemma CaretStarts(e: Env, ns: seq<Node>, gas: int)
    requires e.Valid() && Plain(e.p.root) && !e.p.multiline && e.p.root == Concat([Anchor(Caret)] + ns)
    ensures match Search(e, gas).0
            case Found(caps) => |caps| >= 2 && caps[0] == 0 && e.At(caps[1]) && Matches(e, Concat(ns), 0, caps[1])
            case NoMatch => forall j | e.At(j) :: !Matches(e, Concat(ns), 0, j)
            case Stopped => true
  {
    hide Matches, Search, Ends, Plain;
    assert [] + [Anchor(Caret)] + ns == [Anchor(Caret)] + ns;
    AnchorIs(e, [], Caret, ns, gas);
    forall i, m | e.At(i) && e.At(m) ensures Matches(e, Concat([]), i, m) <==> i == m { NothingMatches(e, i, m); }
    assert Boundary(e.s, 0, 0);
    if Search(e, gas).0.NoMatch? {
      forall j | e.At(j) ensures !Matches(e, Concat(ns), 0, j) { assert !Anchored(e, [], Caret, ns, 0, j); }
    }
  }

  lemma DollarEnds(e: Env, ns: seq<Node>, gas: int)
    requires e.Valid() && Plain(e.p.root) && !e.p.multiline && e.p.root == Concat(ns + [Anchor(Dollar)])
    ensures match Search(e, gas).0
            case Found(caps) =>
              && |caps| >= 2 && e.At(caps[0]) && caps[1] == e.s.len && Matches(e, Concat(ns), caps[0], e.s.len)
              && forall b | e.At(b) && Boundary(e.s, 0, b) && b < caps[0] :: !Matches(e, Concat(ns), b, e.s.len)
            case NoMatch => forall b | e.At(b) && Boundary(e.s, 0, b) :: !Matches(e, Concat(ns), b, e.s.len)
            case Stopped => true
  {
    hide Matches, Search, Ends, Plain, Boundary;
    assert ns + [Anchor(Dollar)] + [] == ns + [Anchor(Dollar)];
    AnchorIs(e, ns, Dollar, [], gas);
    forall i, m | e.At(i) && e.At(m) ensures Matches(e, Concat([]), i, m) <==> i == m { NothingMatches(e, i, m); }
    forall b | e.At(b) && Matches(e, Concat(ns), b, e.s.len) ensures Anchored(e, ns, Dollar, [], b, e.s.len) {}
  }

  lemma NothingMatches(e: Env, i: int, m: int)
    requires e.Valid() && e.At(i) && e.At(m)
    ensures Matches(e, Concat([]), i, m) <==> i == m
  {
    ConcatIs(e, [], i, m);
  }

  // ---------- Runes ----------

  /** From i to j with one rune on the way that x takes. */
  ghost predicate Through(e: Env, ms: seq<Node>, x: Node, ns: seq<Node>, i: int, j: int)
    requires e.Valid() && e.At(i) && e.At(j) && OneRune(x)
  {
    exists m | 0 <= m < e.s.len ::
      Matches(e, Concat(ms), i, m) && Takes(e, x, e.s.rune(m)) && Matches(e, Concat(ns), m + e.s.width(m), j)
  }

  lemma ThroughMatches(e: Env, ms: seq<Node>, x: Node, ns: seq<Node>, i: int, j: int)
    requires e.Valid() && e.At(i) && e.At(j) && OneRune(x)
    ensures Matches(e, Concat(ms + [x] + ns), i, j) <==> Through(e, ms, x, ns, i, j)
  {
    hide MatchesSeq;
    MatchesAround(e, ms, x, ns, i, j);
    forall m, m2 | e.At(m) && e.At(m2)
      ensures Matches(e, x, m, m2) <==> m < e.s.len && m2 == m + e.s.width(m) && Takes(e, x, e.s.rune(m))
    {
      OneRuneMatches(e, x, m, m2);
    }
  }

  lemma OneRuneMatches(e: Env, x: Node, m: int, m2: int)
    requires e.Valid() && e.At(m) && e.At(m2) && OneRune(x)
    ensures Matches(e, x, m, m2) <==> m < e.s.len && m2 == m + e.s.width(m) && Takes(e, x, e.s.rune(m))
  {}

  /** A literal, a dot or a class anywhere in a pattern: what the search finds has there one rune that it takes, and
      nothing that does is missed. */
  lemma RuneIs(e: Env, ms: seq<Node>, x: Node, ns: seq<Node>, gas: int)
    requires e.Valid() && Plain(e.p.root) && OneRune(x) && e.p.root == Concat(ms + [x] + ns)
    ensures match Search(e, gas).0
            case Found(caps) =>
              && |caps| >= 2 && e.At(caps[0]) && e.At(caps[1]) && Through(e, ms, x, ns, caps[0], caps[1])
              && forall b, j | e.At(b) && e.At(j) && Boundary(e.s, 0, b) && b < caps[0] :: !Through(e, ms, x, ns, b, j)
            case NoMatch => forall b, j | e.At(b) && e.At(j) && Boundary(e.s, 0, b) :: !Through(e, ms, x, ns, b, j)
            case Stopped => true
  {
    hide Matches, Search, Through, Ends, Plain;
    SearchRight(e, gas);
    forall b, j | e.At(b) && e.At(j) ensures Matches(e, e.p.root, b, j) <==> Through(e, ms, x, ns, b, j) {
      ThroughMatches(e, ms, x, ns, b, j);
    }
  }

  function Searching(e: Env, n: Node): Env { e.(p := e.p.(root := n)) }

  /** Of a class and its negation exactly one finds a subject's only rune. */
  lemma ClassOrNegation(e: Env, c: CharClass, gas: int, gas2: int)
    requires e.Valid() && e.s.len > 0 && e.s.width(0) == e.s.len
    requires !Search(Searching(e, Cls(c)), gas).0.Stopped? && !Search(Searching(e, Cls(c.(neg := !c.neg))), gas2).0.Stopped?
    ensures Search(Searching(e, Cls(c)), gas).0.Found? <==> Search(Searching(e, Cls(c.(neg := !c.neg))), gas2).0.NoMatch?
  {
    hide Search;
    OnlyRune(Searching(e, Cls(c)), Cls(c), gas);
    OnlyRune(Searching(e, Cls(c.(neg := !c.neg))), Cls(c.(neg := !c.neg)), gas2);
  }

  lemma OnlyRune(e: Env, x: Node, gas: int)
    requires e.Valid() && e.s.len > 0 && e.s.width(0) == e.s.len && OneRune(x) && e.p.root == x
    ensures match Search(e, gas).0
            case Found(caps) => Takes(e, x, e.s.rune(0))
            case NoMatch => !Takes(e, x, e.s.rune(0))
            case Stopped => true
  {
    hide Search, Ends, Takes, Accepts;
    SearchRight(e, gas);
    match Search(e, gas).0 {
      case Found(caps) =>
        OnlyBoundaries(e.s, caps[0]);
        OneRuneMatches(e, x, caps[0], caps[1]);
      case NoMatch => OneRuneMatches(e, x, 0, e.s.len);
      case Stopped =>
    }
  }

  lemma OnlyBoundaries(s: Subject, b: int)
    requires s.Valid() && s.len > 0 && s.width(0) == s.len
    ensures Boundary(s, 0, b) ==> b == 0 || b == s.len
  {
    assert Boundary(s, s.len, b) ==> b == s.len;
  }

  /** Without the ignore-case flag a literal finds exactly its own rune. */
  lemma LiteralIsItself(e: Env, r: int, gas: int)
    requires e.Valid() && !e.p.icase && e.p.root == Lit(r)
    ensures match Search(e, gas).0
            case Found(caps) =>
              && |caps| >= 2 && 0 <= caps[0] < e.s.len && e.s.rune(caps[0]) == r
              && caps[1] == caps[0] + e.s.width(caps[0])
            case NoMatch => forall b | 0 <= b < e.s.len && Boundary(e.s, 0, b) :: e.s.rune(b) != r
            case Stopped => true
  {
    hide Search, Ends;
    SearchRight(e, gas);
    match Search(e, gas).0 {
      case Found(caps) => OneRuneMatches(e, Lit(r), caps[0], caps[1]);
      case NoMatch =>
        forall b | 0 <= b < e.s.len && Boundary(e.s, 0, b) ensures e.s.rune(b) != r {
          OneRuneMatches(e, Lit(r), b, b + e.s.width(b));
        }
      case Stopped =>
    }
  }
}
