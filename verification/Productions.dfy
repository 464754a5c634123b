/**
 Binary expressions by the productions of sections 13.6 to 13.13 of ECMA-262, with no table of precedences:
 the parser accepts what they derive, and returns the derivation's tree.
 */
module Productions {
  import opened Options
  import opened Syntax
  import opened Parser
  import opened ParserSteps
  import opened Precedence

  /** The nonterminals, from the loosest to the tightest. */
  datatype Nonterminal =
    | ShortCircuit | Coalesce | LogicalOr | LogicalAnd | BitwiseOr | BitwiseXor | BitwiseAnd | Equality | Relational
    | Shift | Additive | Multiplicative | Exponentiation

  /** The nonterminal inside one that groups to the left. */
  function Inside(n: Nonterminal): Nonterminal {
    match n
    case LogicalOr => LogicalAnd
    case LogicalAnd => BitwiseOr
    case BitwiseOr => BitwiseXor
    case BitwiseXor => BitwiseAnd
    case BitwiseAnd => Equality
    case Equality => Relational
    case Relational => Shift
    case Shift => Additive
    case Additive => Multiplicative
    case _ => Exponentiation
  }

  /** The operators of a nonterminal that groups to the left. */
  predicate Joins(n: Nonterminal, op: BinOp) {
    match n
    case LogicalOr => op.OrOr?
    case LogicalAnd => op.AndAnd?
    case BitwiseOr => op.Or?
    case BitwiseXor => op.Xor?
    case BitwiseAnd => op.And?
    case Equality => op.EqEq? || op.NotEq? || op.EqEqEq? || op.NotEqEq?
    case Relational => op.Lt? || op.Gt? || op.Le? || op.Ge? || op.Instanceof? || op.In?
    case Shift => op.Shl? || op.Shr? || op.UShr?
    case Additive => op.Plus? || op.Minus?
    case Multiplicative => op.Star? || op.Slash? || op.Percent?
    case _ => false
  }

  function Depth(n: Nonterminal): nat {
    match n
    case ShortCircuit => 12 case Coalesce => 0 case LogicalOr => 11 case LogicalAnd => 10 case BitwiseOr => 9
    case BitwiseXor => 8 case BitwiseAnd => 7 case Equality => 6 case Relational => 5 case Shift => 4 case Additive => 3
    case Multiplicative => 2 case Exponentiation => 1
  }

  /** An operand that `**` may follow: anything but a bare prefix operator and its operand. */
  predicate UpdateExpression(t: Tree) { t.Leaf? && (t.paren || !t.e.Unary?) }

  /** The tree is a derivation from n; its leaves are unary expressions. */
  predicate Derives(n: Nonterminal, t: Tree)
    decreases t, Depth(n)
  {
    match n
    case ShortCircuit => Derives(LogicalOr, t) || Derives(Coalesce, t)
    case Coalesce =>
      && t.Node? && t.op.Nullish?
      && (Derives(Coalesce, t.left) || Derives(BitwiseOr, t.left)) && Derives(BitwiseOr, t.right)
    case Exponentiation =>
      t.Leaf? || (t.op.StarStar? && UpdateExpression(t.left) && Derives(Exponentiation, t.right))
    case _ =>
      Derives(Inside(n), t) || (t.Node? && Joins(n, t.op) && Derives(n, t.left) && Derives(Inside(n), t.right))
  }

  /** The operator op stands at the head of the tokens, `in` not being one where it is suspended. */
  predicate Follows(ts: seq<Token>, m: Mode, op: BinOp) { ts != [] && ts[0].kind == Op(op) && !(m.noIn && op == In) }

  /** The tokens after the tree's: its leaves where unary expressions are read, its operators between them. */
  function Reads(t: Tree, ts: seq<Token>, d: nat, m: Mode): Option<seq<Token>> {
    match t
    case Leaf(e, paren) =>
      if d >= MAX_DEPTH then None
      else
        var u := ParseUnary(ts, d + 1, m);
        if u.Ok? && u.e == e && u.paren == paren then Some(u.rest) else None
    case Node(op, l, r) =>
      var mid := Reads(l, ts, d, m);
      if mid.Some? && Follows(mid.value, m, op) then Reads(r, mid.value[1..], d + 1, m) else None
  }

  // ---------- Derivations and the table ----------

  /** The least precedence of a nonterminal's operators. */
  function Level(n: Nonterminal): nat {
    match n
    case ShortCircuit => 0 case Coalesce => 1 case LogicalOr => 2 case LogicalAnd => 3 case BitwiseOr => 4
    case BitwiseXor => 5 case BitwiseAnd => 6 case Equality => 7 case Relational => 8 case Shift => 9 case Additive => 10
    case Multiplicative => 11 case Exponentiation => 12
  }

  /** No leaf is a bare infix expression: the parser reads none as an operand. */
  predicate LeavesPlain(t: Tree) {
    match t
    case Leaf(e, paren) => paren || !e.Infix?
    case Node(_, l, r) => LeavesPlain(l) && LeavesPlain(r)
  }

  predicate Sound(t: Tree) { Shaped(t) && Allowed(t) }

  predicate LeftGrouping(n: Nonterminal) { !n.ShortCircuit? && !n.Coalesce? && !n.Exponentiation? }

  lemma JoinsLevel(n: Nonterminal, op: BinOp)
    requires LeftGrouping(n)
    ensures Joins(n, op) <==> Prec(op) == Level(n)
  {
    LevelRange(n);
    match op {
      case Nullish => case OrOr => case AndAnd => case Or => case Xor => case And =>
      case EqEq => case NotEq => case EqEqEq => case NotEqEq =>
      case Lt => case Gt => case Le => case Ge => case Instanceof => case In =>
      case Shl => case Shr => case UShr => case Plus => case Minus =>
      case Star => case Slash => case Percent => case StarStar =>
    }
  }

  lemma LevelRange(n: Nonterminal)
    requires LeftGrouping(n)
    ensures 2 <= Level(n) <= 11 && Level(Inside(n)) == Level(n) + 1
  {}

  lemma PrecRange(op: BinOp)
    ensures 1 <= Prec(op) <= 12 && (Prec(op) == 12 <==> op.StarStar?) && (Prec(op) == 1 <==> op.Nullish?)
  {}

  /** What a nonterminal that groups to the left, or `**`, derives. */
  lemma {:induction false} DerivesAre(n: Nonterminal, t: Tree)
    requires (LeftGrouping(n) || n.Exponentiation?) && LeavesPlain(t)
    ensures Derives(n, t) <==> Sound(t) && Above(t, Level(n))
    decreases t, Depth(n)
  {
    hide Sound, Prec, Joins;
    if n.Exponentiation? {
      if t.Node? {
        DerivesAre(n, t.right);
        Powers(t);
      } else {
        LeafSound(t);
      }
    } else {
      LevelRange(n);
      DerivesAre(Inside(n), t);
      if t.Node? {
        DerivesAre(n, t.left);
        DerivesAre(Inside(n), t.right);
        LeftGroup(n, t);
      }
    }
  }

  lemma LeafSound(t: Tree)
    requires t.Leaf?
    ensures Sound(t)
  {}

  lemma Powers(t: Tree)
    requires t.Node? && LeavesPlain(t)
    ensures Sound(t) && Above(t, 12) <==>
      t.op.StarStar? && UpdateExpression(t.left) && Sound(t.right) && Above(t.right, 12)
  {
    hide Prec;
    PrecRange(t.op);
    if t.left.Node? { PrecRange(t.left.op); }
    if Sound(t) && Above(t, 12) { assert t.left.Leaf?; }
    if t.op.StarStar? && UpdateExpression(t.left) && Sound(t.right) && Above(t.right, 12) {
      assert Shaped(t.left) && Allowed(t.left);
      assert Shaped(t) && !UnaryLeft(ToExpr(t.left), Paren(t.left));
      assert Allowed(t);
    }
  }

  /** A node whose operator joins at n. */
  lemma LeftGroup(n: Nonterminal, t: Tree)
    requires t.Node? && LeavesPlain(t) && LeftGrouping(n)
    ensures Sound(t) && Prec(t.op) == Level(n) <==>
      Joins(n, t.op) && Sound(t.left) && Above(t.left, Level(n)) && Sound(t.right) && Above(t.right, Level(n) + 1)
  {
    hide Mixes, Prec, Joins, Level;
    JoinsLevel(n, t.op);
    LevelRange(n);
    PrecRange(t.op);
    NoMix(t.op, t.left);
    NoMix(t.op, t.right);
  }

  /** Operands no looser than their operator never mix `??` with `&&` or `||`, but for those of `??` itself. */
  lemma NoMix(op: BinOp, t: Tree)
    requires LeavesPlain(t)
    ensures Above(t, 2) && !op.Nullish? ==> !Mixes(op, ToExpr(t), Paren(t))
  {}

  lemma {:induction false} CoalesceAre(t: Tree)
    requires LeavesPlain(t)
    ensures Derives(Coalesce, t) <==> t.Node? && t.op.Nullish? && Sound(t)
  {
    if t.Node? && t.op.Nullish? {
      CoalesceAre(t.left);
      DerivesAre(BitwiseOr, t.left);
      DerivesAre(BitwiseOr, t.right);
      hide Derives;
      CoalesceGroup(t);
    }
  }

  lemma CoalesceGroup(t: Tree)
    requires t.Node? && t.op.Nullish? && LeavesPlain(t)
    ensures Sound(t) <==>
      && Sound(t.left) && Sound(t.right) && Above(t.right, 4)
      && ((t.left.Node? && t.left.op.Nullish?) || Above(t.left, 4))
  {}

  /** Grouping by the table and the bans is deriving. */
  lemma ShortCircuitAre(t: Tree)
    requires LeavesPlain(t)
    ensures Derives(ShortCircuit, t) <==> Shaped(t) && Allowed(t)
  {
    hide Shaped, Allowed;
    DerivesAre(LogicalOr, t);
    CoalesceAre(t);
  }

  /** The grammar is unambiguous: the operands and operators in their order leave one derivation. */
  lemma Unambiguous(t: Tree, u: Tree)
    requires Derives(ShortCircuit, t) && Derives(ShortCircuit, u) && Flat(t) == Flat(u) && LeavesPlain(t) && LeavesPlain(u)
    ensures t == u
  {
    hide Derives, Flat, Shaped;
    ShortCircuitAre(t);
    ShortCircuitAre(u);
    GroupingUnique(t, u);
  }

  // ---------- What is read ----------

  lemma {:induction false} ReadsAre(t: Tree, ts: seq<Token>, d: nat, m: Mode)
    ensures Reads(t, ts, d, m) == After(t, ts, d, m)
    ensures Reads(t, ts, d, m).Some? ==> LeavesPlain(t)
  {
    hide ParseUnary;
    if t.Node? {
      ReadsAre(t.left, ts, d, m);
      var mid := Reads(t.left, ts, d, m);
      if mid.Some? && Follows(mid.value, m, t.op) { ReadsAre(t.right, mid.value[1..], d + 1, m); }
    } else if d < MAX_DEPTH {
      UnaryPlain(ts, d + 1, m);
    }
  }

  predicate Plain(r: Parsed) { r.Ok? ==> r.paren || !r.e.Infix? }

  lemma UnaryPlain(ts: seq<Token>, d: nat, m: Mode)
    ensures Plain(ParseUnary(ts, d, m))
  {
    hide ParseUnary, ParsePostfix, ParseMember, MemberLoop, ParseNew, ParsePrimary;
    if d >= MAX_DEPTH { Deep(ts, d, m, 0, true); } else { UnaryIs(ts, d, m); }
    PostfixPlain(ts, d + 1, m);
  }

  lemma PostfixPlain(ts: seq<Token>, d: nat, m: Mode)
    ensures Plain(ParsePostfix(ts, d, m))
  {
    hide ParseMember;
    MemberPlain(ts, d, m);
  }

  lemma MemberPlain(ts: seq<Token>, d: nat, m: Mode)
    ensures Plain(ParseMember(ts, true, d, m))
  {
    if d >= MAX_DEPTH {
      Deep(ts, d, m, 0, true);
    } else {
      MemberIs(ts, true, d, m);
      var r := if Peek(ts).New? then ParseNew(ts[1..], d + 1, m) else ParsePrimary(ts, d + 1, m);
      assert Plain(r) by {
        if Peek(ts).New? { NewPlain(ts[1..], d + 1, m); } else { PrimaryPlain(ts, d + 1, m); }
      }
      hide ParseNew, ParsePrimary, ParseMember;
      if r.Ok? { MemberLoopPlain(r.e, r.paren, r.rest, d + 1, m); }
    }
  }

  lemma NewPlain(ts: seq<Token>, d: nat, m: Mode)
    ensures Plain(ParseNew(ts, d, m))
  {
    hide ParseMember, Items;
  }

  lemma PrimaryPlain(ts: seq<Token>, d: nat, m: Mode)
    ensures Plain(ParsePrimary(ts, d, m))
  {
    hide Items, Elements;
  }

  lemma {:induction false} MemberLoopPlain(e: Expr, paren: bool, ts: seq<Token>, d: nat, m: Mode)
    requires paren || !e.Infix?
    ensures Plain(MemberLoop(e, paren, ts, true, d, m))
    decreases |ts|
  {
    hide MemberLoop, ParseExpression, Items, IsName;
    var k := Peek(ts);
    if k.Dot? {
      DotIs(e, paren, ts, true, d, m);
      if !Peek(ts[1..]).Foreign? && IsName(Peek(ts[1..])) { MemberLoopPlain(Member(e, Peek(ts[1..])), false, ts[2..], d, m); }
    } else if k.LBracket? {
      IndexIs(e, paren, ts, true, d, m);
      var r := ParseExpression(ts[1..], d, m);
      if r.Ok? && Peek(r.rest).RBracket? { MemberLoopPlain(Index(e, r.e), false, r.rest[1..], d, m); }
      if r.Fail? { assert MemberLoop(e, paren, ts, true, d, m).Fail?; }
    } else if k.LParen? {
      CallIs(e, paren, ts, d, m);
      var r := Items([], ts[1..], d, m);
      if r.OkList? { MemberLoopPlain(Call(e, r.es), false, r.rest, d, m); }
    } else {
      OtherIs(e, paren, ts, true, d, m);
    }
  }

  // ---------- The parser and the grammar ----------

  /** The parser of binary expressions accepts exactly what the grammar derives with no operator after it, and returns
      the derivation's tree. */
  lemma ParsesWhatDerives(ts: seq<Token>, d: nat, m: Mode, e: Expr, paren: bool, rest: seq<Token>)
    ensures ParseBinary(ts, 0, d, m) == Ok(e, paren, rest) <==>
      exists t :: Derives(ShortCircuit, t) && Reads(t, ts, d, m) == Some(rest) && (forall op :: !Follows(rest, m, op))
                  && ToExpr(t) == e && Paren(t) == paren
  {
    hide Shaped, Allowed, ParseBinary, Derives, After, Reads;
    BinaryExact(ts, 0, d, m, e, paren, rest);
    assert Done(rest, 0, m) <==> forall op :: !Follows(rest, m, op) by {
      if OpAt(rest, m).Some? { assert Follows(rest, m, OpAt(rest, m).value); }
    }
    forall t | Groups(t, ts, 0, d, m, rest) ensures Derives(ShortCircuit, t) && Reads(t, ts, d, m) == Some(rest) {
      ReadsAre(t, ts, d, m);
      ShortCircuitAre(t);
    }
    forall t | Derives(ShortCircuit, t) && Reads(t, ts, d, m) == Some(rest) && Done(rest, 0, m) ensures Groups(t, ts, 0, d, m, rest) {
      ReadsAre(t, ts, d, m);
      ShortCircuitAre(t);
    }
  }
}
