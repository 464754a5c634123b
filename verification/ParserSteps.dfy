/** One step of each function of the parser, given what the functions it calls return. */
module ParserSteps {
  import opened Syntax
  import opened Parser

  lemma AssignIs(ts: seq<Token>, d: nat, m: Mode)
    requires d < MAX_DEPTH && !(Peek(ts).Ident? && ArrowNext(ts[1..]))
    ensures var c := ParseConditional(ts, d + 1, m);
      && (c.Fail? || !Peek(c.rest).AssignWith? ==> ParseAssign(ts, d, m) == c)
      && (c.Ok? && Peek(c.rest).AssignWith? ==>
           var op := Peek(c.rest).assign;
           var t := Target(op, c.e, m.strict);
           var v := ParseAssign(c.rest[1..], d + 1, m);
           ParseAssign(ts, d, m) == if t.None? then Fail(BadTarget) else if v.Fail? then v else Ok(Assign(op, t.value, v.e), false, v.rest))
  {
    hide Target;
  }

  lemma ConditionalIs(ts: seq<Token>, d: nat, m: Mode)
    ensures var t := ParseBinary(ts, 0, d, m);
      && (t.Fail? || !Peek(t.rest).Question? ==> ParseConditional(ts, d, m) == t)
      && (t.Ok? && Peek(t.rest).Question? ==>
           var yes := ParseAssign(t.rest[1..], d, m);
           && (yes.Fail? ==> ParseConditional(ts, d, m) == yes)
           && (yes.Ok? && Peek(yes.rest).Colon? ==>
                var no := ParseAssign(yes.rest[1..], d, m);
                ParseConditional(ts, d, m) == if no.Fail? then no else Ok(Conditional(t.e, yes.e, no.e), false, no.rest)))
  {}

  lemma BinaryIs(ts: seq<Token>, min: nat, d: nat, m: Mode)
    requires d < MAX_DEPTH
    ensures var u := ParseUnary(ts, d + 1, m);
      ParseBinary(ts, min, d, m) == if u.Fail? then u else BinaryLoop(u.e, u.paren, u.rest, min, d + 1, m)
  {}

  lemma LoopStops(e: Expr, paren: bool, ts: seq<Token>, min: nat, d: nat, m: Mode)
    requires !Peek(ts).Op?
    ensures BinaryLoop(e, paren, ts, min, d, m) == Ok(e, paren, ts)
  {}

  lemma LoopIs(e: Expr, paren: bool, ts: seq<Token>, min: nat, d: nat, m: Mode)
    requires OpAt(ts, m).Some? && Prec(OpAt(ts, m).value) >= min
    ensures var op := OpAt(ts, m).value;
      var r := ParseBinary(ts[1..], NextPrec(op), d, m);
      BinaryLoop(e, paren, ts, min, d, m)
      == if Mixes(op, e, paren) then Fail(MixedNullish)
         else if op.StarStar? && UnaryLeft(e, paren) then Fail(UnaryBeforePower)
         else if r.Fail? then r
         else if Mixes(op, r.e, r.paren) then Fail(MixedNullish)
         else BinaryLoop(Infix(op, e, r.e), false, r.rest, min, d, m)
  {
    hide Prec, NextPrec;
  }

  lemma UnaryIs(ts: seq<Token>, d: nat, m: Mode)
    requires d < MAX_DEPTH
    ensures var op, k := UnaryAt(Peek(ts)), Peek(ts);
      && (op.None? && !k.IncDec? ==> ParseUnary(ts, d, m) == ParsePostfix(ts, d + 1, m))
      && (op.Some? || k.IncDec? ==>
           var x := ParseUnary(ts[1..], d + 1, m);
           ParseUnary(ts, d, m)
           == if x.Fail? then x
              else if op.Some? then Ok(Unary(op.value, x.e), false, x.rest)
              else if SimpleTarget(x.e) then Ok(Update(k.inc, true, x.e), false, x.rest) else Fail(BadTarget))
  {}

  lemma PostfixIs(ts: seq<Token>, d: nat, m: Mode)
    ensures var r := ParseMember(ts, true, d, m);
      && (r.Fail? || !Peek(r.rest).IncDec? || r.rest[0].newline ==> ParsePostfix(ts, d, m) == r)
      && (r.Ok? && Peek(r.rest).IncDec? && !r.rest[0].newline ==>
           ParsePostfix(ts, d, m) == if SimpleTarget(r.e) then Ok(Update(Peek(r.rest).inc, false, r.e), false, r.rest[1..]) else Fail(BadTarget))
  {}

  lemma MemberIs(ts: seq<Token>, allowCall: bool, d: nat, m: Mode)
    requires d < MAX_DEPTH
    ensures var r := if Peek(ts).New? then ParseNew(ts[1..], d + 1, m) else ParsePrimary(ts, d + 1, m);
      ParseMember(ts, allowCall, d, m) == if r.Fail? then r else MemberLoop(r.e, r.paren, r.rest, allowCall, d + 1, m)
  {}

  lemma MemberStops(e: Expr, paren: bool, ts: seq<Token>, allowCall: bool, d: nat, m: Mode)
    requires var k := Peek(ts); !k.Dot? && !k.LBracket? && !k.Chain? && !(k.LParen? && allowCall)
    ensures MemberLoop(e, paren, ts, allowCall, d, m) == Ok(e, paren, ts)
  {}

  /** After a dot comes a name. */
  lemma DotIs(e: Expr, paren: bool, ts: seq<Token>, allowCall: bool, d: nat, m: Mode)
    requires Peek(ts).Dot?
    ensures var k := Peek(ts[1..]);
      && (k.Foreign? ==> MemberLoop(e, paren, ts, allowCall, d, m) == Fail(NotModelled))
      && (!k.Foreign? && !IsName(k) ==> MemberLoop(e, paren, ts, allowCall, d, m) == Fail(Unexpected))
      && (!k.Foreign? && IsName(k) ==>
            |ts| >= 2 && MemberLoop(e, paren, ts, allowCall, d, m) == MemberLoop(Member(e, k), false, ts[2..], allowCall, d, m))
  {
    if IsName(Peek(ts[1..])) { assert |ts| >= 2 && Peek(ts[1..]) == ts[1].kind; }
    hide IsName;
  }

  lemma IndexIs(e: Expr, paren: bool, ts: seq<Token>, allowCall: bool, d: nat, m: Mode)
    requires Peek(ts).LBracket?
    ensures var r := ParseExpression(ts[1..], d, m);
      MemberLoop(e, paren, ts, allowCall, d, m)
      == if r.Fail? then r
         else if Peek(r.rest).RBracket? then MemberLoop(Index(e, r.e), false, r.rest[1..], allowCall, d, m) else Fail(Unexpected)
  {
    hide ParseExpression;
  }

  lemma CallIs(e: Expr, paren: bool, ts: seq<Token>, d: nat, m: Mode)
    requires Peek(ts).LParen?
    ensures var r := Items([], ts[1..], d, m);
      MemberLoop(e, paren, ts, true, d, m)
      == if r.FailList? then Fail(r.why) else MemberLoop(Call(e, r.es), false, r.rest, true, d, m)
  {
    hide Items;
  }

  /** Anything else ends the expression, but for the start of an optional chain or a template. */
  lemma OtherIs(e: Expr, paren: bool, ts: seq<Token>, allowCall: bool, d: nat, m: Mode)
    requires var k := Peek(ts); !k.Dot? && !k.LBracket? && !(k.LParen? && allowCall)
    ensures MemberLoop(e, paren, ts, allowCall, d, m) == if Peek(ts).Chain? then Fail(NotModelled) else Ok(e, paren, ts)
  {}

  lemma NewIs(ts: seq<Token>, d: nat, m: Mode)
    requires !Peek(ts).Dot?
    ensures var c := ParseMember(ts, false, d, m);
      && (c.Fail? ==> ParseNew(ts, d, m) == c)
      && (c.Ok? && Peek(c.rest).LParen? ==>
           var a := Items([], c.rest[1..], d, m);
           ParseNew(ts, d, m) == if a.FailList? then Fail(a.why) else Ok(NewExpr(c.e, a.es), false, a.rest))
  {}

  lemma ItemsIs(es: seq<Expr>, ts: seq<Token>, d: nat, m: Mode)
    requires !Peek(ts).RParen? && !Peek(ts).Ellipsis?
    ensures var r := ParseAssign(ts, d, m);
      && (r.Fail? ==> Items(es, ts, d, m) == FailList(r.why))
      && (r.Ok? && Peek(r.rest).Comma? ==> Items(es, ts, d, m) == Items(es + [r.e], r.rest[1..], d, m))
      && (r.Ok? && Peek(r.rest).RParen? ==> Items(es, ts, d, m) == OkList(es + [r.e], false, r.rest[1..]))
  {}

  lemma ElementsIs(es: seq<Expr>, ts: seq<Token>, d: nat, m: Mode)
    requires !Peek(ts).RBracket? && !Peek(ts).Ellipsis? && !Peek(ts).Comma?
    ensures var r := ParseAssign(ts, d, m);
      && (r.Fail? ==> Elements(es, ts, d, m) == FailList(r.why))
      && (r.Ok? && Peek(r.rest).Comma? ==> Elements(es, ts, d, m) == Elements(es + [r.e], r.rest[1..], d, m))
      && (r.Ok? && Peek(r.rest).RBracket? ==> Elements(es, ts, d, m) == OkList(es + [r.e], false, r.rest[1..]))
  {}

  lemma PrimaryIs(ts: seq<Token>, d: nat, m: Mode)
    requires d < MAX_DEPTH
    ensures Peek(ts).LParen? ==> ParsePrimary(ts, d, m) == Parser.Parenthesised(Items([], ts[1..], d + 1, m.(noIn := false)))
    ensures Peek(ts).LBracket? ==>
      var l := Elements([], ts[1..], d + 1, m.(noIn := false));
      ParsePrimary(ts, d, m) == if l.FailList? then Fail(l.why) else Ok(ArrayLit(l.es), false, l.rest)
  {}

  lemma Deep(ts: seq<Token>, d: nat, m: Mode, min: nat, allowCall: bool)
    requires d >= MAX_DEPTH
    ensures ParseAssign(ts, d, m) == Fail(TooDeep) && ParseBinary(ts, min, d, m) == Fail(TooDeep)
    ensures ParseUnary(ts, d, m) == Fail(TooDeep) && ParseMember(ts, allowCall, d, m) == Fail(TooDeep) && ParsePrimary(ts, d, m) == Fail(TooDeep)
  {}

  lemma ExpressionIs(ts: seq<Token>, d: nat, m: Mode)
    ensures var r := ParseAssign(ts, d, m);
      ParseExpression(ts, d, m) == if r.Ok? && Peek(r.rest).Comma? then MoreExpressions([r.e], r.rest, d, m) else r
  {}

  lemma MoreIs(es: seq<Expr>, ts: seq<Token>, d: nat, m: Mode)
    ensures MoreExpressions(es, ts, d, m)
      == if !Peek(ts).Comma? then Ok(Sequence(es), false, ts)
         else
           var r := ParseAssign(ts[1..], d, m);
           if r.Fail? then r else MoreExpressions(es + [r.e], r.rest, d, m)
  {}

  /** A primary of one token. */
  function Atom(ts: seq<Token>): Parsed {
    match Peek(ts)
    case Ident(name) => Ok(Id(name), false, ts[1..])
    case Lit(l) => Ok(Constant(l), false, ts[1..])
    case This => Ok(ThisExpr, false, ts[1..])
    case True => Ok(BoolLit(true), false, ts[1..])
    case False => Ok(BoolLit(false), false, ts[1..])
    case Null => Ok(NullLit, false, ts[1..])
    case Super => Ok(SuperExpr, false, ts[1..])
    case Op(op) => if op.Slash? then Fail(NotModelled) else Fail(Unexpected)
    case AssignWith(op) => if op.DivBy? then Fail(NotModelled) else Fail(Unexpected)
    case Word(_) => Fail(NotModelled)
    case Foreign => Fail(NotModelled)
    case Chain => Fail(NotModelled)
    case _ => Fail(Unexpected)
  }

  lemma AtomIs(ts: seq<Token>, d: nat, m: Mode)
    requires d < MAX_DEPTH && !Peek(ts).LParen? && !Peek(ts).LBracket?
    ensures ParsePrimary(ts, d, m) == Atom(ts)
  {}
}
