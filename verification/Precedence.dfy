/**
 Precedence climbing builds the one tree that the table allows: operands joined by operators,
 each grouping its neighbours by precedence, to the left except for `**`, and never mixing `??`
 with `&&` or `||`.
 */
module Precedence {
  import opened Options
  import opened Syntax
  import opened Parser
  import opened ParserSteps

  /** How operands are grouped.  A leaf is an operand as the parser read it. */
  datatype Tree = Leaf(e: Expr, paren: bool) | Node(op: BinOp, left: Tree, right: Tree)

  datatype Item = Operand(e: Expr, paren: bool) | Operator(op: BinOp)

  function ToExpr(t: Tree): Expr {
    match t
    case Leaf(e, _) => e
    case Node(op, l, r) => Infix(op, ToExpr(l), ToExpr(r))
  }

  predicate Paren(t: Tree) { t.Leaf? && t.paren }

  /** The operands and operators in the order they are written. */
  function Flat(t: Tree): seq<Item> {
    match t
    case Leaf(e, paren) => [Operand(e, paren)]
    case Node(op, l, r) => Flat(l) + [Operator(op)] + Flat(r)
  }

  predicate Above(t: Tree, min: nat) { t.Node? ==> Prec(t.op) >= min }

  /** Grouped by the table. */
  predicate Shaped(t: Tree) {
    match t
    case Leaf(_, _) => true
    case Node(op, l, r) =>
      Shaped(l) && Shaped(r) && Above(l, if op.StarStar? then Prec(op) + 1 else Prec(op)) && Above(r, NextPrec(op))
  }

  /** No `??` next to a bare `&&` or `||`, no bare prefix operator before `**`. */
  predicate Allowed(t: Tree) {
    match t
    case Leaf(_, _) => true
    case Node(op, l, r) =>
      && Allowed(l) && Allowed(r) && !Mixes(op, ToExpr(l), Paren(l)) && !Mixes(op, ToExpr(r), Paren(r))
      && !(op.StarStar? && UnaryLeft(ToExpr(l), Paren(l)))
  }

  // ---------- The grouping is unique ----------

  predicate OpsAbove(items: seq<Item>, min: nat) {
    forall i :: 0 <= i < |items| && items[i].Operator? ==> Prec(items[i].op) >= min
  }

  lemma {:induction false} ShapedAbove(t: Tree, min: nat)
    requires Shaped(t) && Above(t, min)
    ensures OpsAbove(Flat(t), min)
  {
    if t.Node? {
      ShapedAbove(t.left, min);
      ShapedAbove(t.right, min);
    }
  }

  lemma {:induction false} FlatEnds(t: Tree)
    ensures Flat(t) != [] && (|Flat(t)| == 1 <==> t.Leaf?)
  {
    if t.Node? { FlatEnds(t.left); FlatEnds(t.right); }
  }

  /** Two groupings of the same operands and operators that obey the table are one. */
  lemma {:induction false} GroupingUnique(t: Tree, u: Tree)
    requires Shaped(t) && Shaped(u) && Flat(t) == Flat(u)
    ensures t == u
  {
    FlatEnds(t);
    FlatEnds(u);
    if t.Leaf? {
      assert u.Leaf?;
      assert Flat(t)[0] == Flat(u)[0];
    } else {
      assert u.Node?;
      // Neither root can stand before the other.
      RootFirst(t, u);
      RootFirst(u, t);
      var n := |Flat(t.left)|;
      assert Flat(t)[..n] == Flat(t.left) && Flat(u)[..n] == Flat(u.left);
      assert Flat(t)[n] == Operator(t.op) && Flat(u)[n] == Operator(u.op);
      assert Flat(t)[n + 1..] == Flat(t.right) && Flat(u)[n + 1..] == Flat(u.right);
      GroupingUnique(t.left, u.left);
      GroupingUnique(t.right, u.right);
    }
  }

  /** The root's operator is the last of the loosest ones, or the first when it is `**`. */
  lemma RootPlace(t: Tree)
    requires Shaped(t) && t.Node?
    ensures var n := |Flat(t.left)|; n < |Flat(t)| && Flat(t)[n] == Operator(t.op)
    ensures forall i :: 0 <= i < |Flat(t.left)| && Flat(t)[i].Operator? ==>
      Prec(Flat(t)[i].op) >= if t.op.StarStar? then Prec(t.op) + 1 else Prec(t.op)
    ensures forall i :: |Flat(t.left)| < i < |Flat(t)| && Flat(t)[i].Operator? ==> Prec(Flat(t)[i].op) >= NextPrec(t.op)
  {
    var (l, r) := (Flat(t.left), Flat(t.right));
    ShapedAbove(t.left, if t.op.StarStar? then Prec(t.op) + 1 else Prec(t.op));
    ShapedAbove(t.right, NextPrec(t.op));
    hide Prec, NextPrec, Shaped;
    forall i | 0 <= i < |Flat(t)| ensures Flat(t)[i] == if i < |l| then l[i] else if i == |l| then Operator(t.op) else r[i - |l| - 1] {}
  }

  lemma RootFirst(t: Tree, u: Tree)
    requires Shaped(t) && Shaped(u) && Flat(t) == Flat(u) && t.Node? && u.Node?
    ensures |Flat(t.left)| >= |Flat(u.left)|
  {
    RootPlace(t);
    RootPlace(u);
    hide Flat, Shaped;
  }

  // ---------- Trees and tokens ----------

  /** No operator follows that the loop at `min` would take. */
  predicate Done(ts: seq<Token>, min: nat, m: Mode) { OpAt(ts, m).None? || Prec(OpAt(ts, m).value) < min }

  /** The tokens left after reading the tree: operands where the parser reads them, at its depths. */
  function After(t: Tree, ts: seq<Token>, d: nat, m: Mode): Option<seq<Token>> {
    match t
    case Leaf(e, paren) =>
      if d >= MAX_DEPTH then None
      else
        var u := ParseUnary(ts, d + 1, m);
        if u.Ok? && u.e == e && u.paren == paren then Some(u.rest) else None
    case Node(op, l, r) =>
      match After(l, ts, d, m)
      case None => None
      case Some(mid) => if OpAt(mid, m) == Some(op) then After(r, mid[1..], d + 1, m) else None
  }

  /** A grouping the table and the bans allow, of exactly the tokens before `rest`. */
  predicate Groups(t: Tree, ts: seq<Token>, min: nat, d: nat, m: Mode, rest: seq<Token>) {
    Shaped(t) && Allowed(t) && Above(t, min) && After(t, ts, d, m) == Some(rest) && Done(rest, min, m)
  }

  // ---------- What the parser builds is allowed ----------

  lemma {:induction false} BinarySound(ts: seq<Token>, min: nat, d: nat, m: Mode) returns (t: Tree)
    requires ParseBinary(ts, min, d, m).Ok?
    ensures var r := ParseBinary(ts, min, d, m); Groups(t, ts, min, d, m, r.rest) && ToExpr(t) == r.e && Paren(t) == r.paren
    decreases |ts|, 1
  {
    hide ParseBinary, BinaryLoop, ParseUnary, Prec, NextPrec;
    if d >= MAX_DEPTH { Deep(ts, d, m, min, true); }
    BinaryIs(ts, min, d, m);
    var u := ParseUnary(ts, d + 1, m);
    t := LoopSound(Leaf(u.e, u.paren), ts, u.rest, min, d, m);
  }

  /** From the tree built so far, the loop goes on to an allowed one. */
  lemma {:induction false} LoopSound(l: Tree, ts: seq<Token>, at: seq<Token>, min: nat, d: nat, m: Mode) returns (t: Tree)
    requires Shaped(l) && Allowed(l) && Above(l, min) && After(l, ts, d, m) == Some(at) && |at| < |ts|
    requires l.Node? ==> Done(at, NextPrec(l.op), m)
    requires BinaryLoop(ToExpr(l), Paren(l), at, min, d + 1, m).Ok?
    ensures var r := BinaryLoop(ToExpr(l), Paren(l), at, min, d + 1, m);
      Groups(t, ts, min, d, m, r.rest) && ToExpr(t) == r.e && Paren(t) == r.paren
    decreases |at|, 0
  {
    hide ParseBinary, ParseUnary, Mixes, UnaryLeft;
    if Done(at, min, m) {
      t := l;
    } else {
      var op := OpAt(at, m).value;
      hide BinaryLoop;
      LoopIs(ToExpr(l), Paren(l), at, min, d + 1, m);
      var r := BinarySound(at[1..], NextPrec(op), d + 1, m);
      var rest := ParseBinary(at[1..], NextPrec(op), d + 1, m).rest;
      var n := Node(op, l, r);
      assert After(n, ts, d, m) == Some(rest);
      t := LoopSound(n, ts, rest, min, d, m);
    }
  }

  // ---------- Every allowed tree is built ----------

  /** No operator on the right edge would take what follows. */
  predicate RightDone(t: Tree, rest: seq<Token>, m: Mode) {
    t.Node? ==> Done(rest, NextPrec(t.op), m) && RightDone(t.right, rest, m)
  }

  lemma {:induction false} RightDoneAbove(t: Tree, rest: seq<Token>, min: nat, m: Mode)
    requires Shaped(t) && Above(t, min) && Done(rest, min, m)
    ensures RightDone(t, rest, m)
  {
    if t.Node? { RightDoneAbove(t.right, rest, NextPrec(t.op), m); }
  }

  /** A left operand is complete before its operator. */
  lemma {:induction false} LeftDone(l: Tree, op: BinOp, rest: seq<Token>, m: Mode)
    requires Shaped(l) && OpAt(rest, m) == Some(op) && Above(l, if op.StarStar? then Prec(op) + 1 else Prec(op))
    ensures RightDone(l, rest, m)
  {
    if l.Node? { LeftDone(l.right, op, rest, m); }
  }

  lemma {:induction false} PrefixComplete(t: Tree, ts: seq<Token>, min: nat, d: nat, m: Mode)
    requires Shaped(t) && Allowed(t) && Above(t, min) && After(t, ts, d, m).Some? && RightDone(t, After(t, ts, d, m).value, m)
    ensures ParseBinary(ts, min, d, m) == BinaryLoop(ToExpr(t), Paren(t), After(t, ts, d, m).value, min, d + 1, m)
    decreases t
  {
    hide ParseBinary, BinaryLoop, ParseUnary, Mixes, UnaryLeft;
    if t.Leaf? {
      BinaryIs(ts, min, d, m);
    } else {
      var mid, rest := After(t.left, ts, d, m).value, After(t, ts, d, m).value;
      LeftDone(t.left, t.op, mid, m);
      PrefixComplete(t.left, ts, min, d, m);
      PrefixComplete(t.right, mid[1..], NextPrec(t.op), d + 1, m);
      LoopIs(ToExpr(t.left), Paren(t.left), mid, min, d + 1, m);
      LoopDone(ToExpr(t.right), Paren(t.right), rest, NextPrec(t.op), d + 2, m);
    }
  }

  lemma LoopDone(e: Expr, paren: bool, ts: seq<Token>, min: nat, d: nat, m: Mode)
    requires Done(ts, min, m)
    ensures BinaryLoop(e, paren, ts, min, d, m) == Ok(e, paren, ts)
  {
    hide Prec;
  }

  lemma BinaryComplete(t: Tree, ts: seq<Token>, min: nat, d: nat, m: Mode, rest: seq<Token>)
    requires Groups(t, ts, min, d, m, rest)
    ensures ParseBinary(ts, min, d, m) == Ok(ToExpr(t), Paren(t), rest)
  {
    RightDoneAbove(t, rest, min, m);
    PrefixComplete(t, ts, min, d, m);
    LoopDone(ToExpr(t), Paren(t), rest, min, d + 1, m);
  }

  /** Climbing accepts exactly the token sequences some allowed tree groups, and returns that tree. */
  lemma BinaryExact(ts: seq<Token>, min: nat, d: nat, m: Mode, e: Expr, paren: bool, rest: seq<Token>)
    ensures ParseBinary(ts, min, d, m) == Ok(e, paren, rest)
      <==> exists t :: Groups(t, ts, min, d, m, rest) && ToExpr(t) == e && Paren(t) == paren
  {
    if ParseBinary(ts, min, d, m) == Ok(e, paren, rest) { var t := BinarySound(ts, min, d, m); }
    forall t | Groups(t, ts, min, d, m, rest) && ToExpr(t) == e && Paren(t) == paren ensures ParseBinary(ts, min, d, m) == Ok(e, paren, rest) {
      BinaryComplete(t, ts, min, d, m, rest);
    }
  }
}
