/** The printer and the parser as they run: one appends to its output, the other consumes its input. */
module ParserRun {
  import opened Options
  import opened Syntax
  import opened Parser
  import opened ParserSteps
  import RoundTrip

  class Printer {
    var out: seq<Token>

    constructor ()
      ensures out == []
    {
      out := [];
    }

    method S(k: Kind)
      modifies this
      ensures out == old(out) + [T(k)]
    {
      out := out + [T(k)];
    }

    method Node(e: Expr)
      modifies this
      ensures out == old(out) + Print(e)
      decreases e, 3
    {
      match e
      case Id(name) => S(Ident(name));
      case Constant(l) => S(Lit(l));
      case ThisExpr => S(This);
      case BoolLit(b) => S(if b then True else False);
      case NullLit => S(Null);
      case SuperExpr => S(Super);
      case Hole =>
      case ArrayLit(es) => Elements(es);
      case ArrayPattern(es) => Elements(es);
      case AssignPattern(_, _) => Default(e);
      case Call(_, _) => CallTo(e);
      case Member(_, _) => Dotted(e);
      case Index(_, _) => Indexed(e);
      case Sequence(es) => Arguments(es);
      case _ => Wrapped(e);
    }

    method Wrapped(e: Expr)
      requires Syntax.Parenthesised(e) && !e.Sequence?
      modifies this
      ensures out == old(out) + Print(e)
      decreases e, 2
    {
      S(LParen);
      Operator(e);
      S(RParen);
    }

    method Default(e: Expr)
      requires e.AssignPattern?
      modifies this
      ensures out == old(out) + Print(e)
      decreases e, 0
    {
      Node(e.target);
      S(AssignWith(Plain));
      Node(e.default);
    }

    method CallTo(e: Expr)
      requires e.Call?
      modifies this
      ensures out == old(out) + Print(e)
      decreases e, 0
    {
      Node(e.callee);
      Arguments(e.args);
    }

    method Dotted(e: Expr)
      requires e.Member?
      modifies this
      ensures out == old(out) + Print(e)
      decreases e, 0
    {
      if e.owner.Constant? && e.owner.l.Number? { Group(e.owner); } else { Node(e.owner); }
      S(Dot);
      S(e.property);
    }

    method Indexed(e: Expr)
      requires e.Index?
      modifies this
      ensures out == old(out) + Print(e)
      decreases e, 0
    {
      Node(e.owner);
      S(LBracket);
      Node(e.index);
      S(RBracket);
    }

    /** An operator's expression, without its parentheses. */
    method Operator(e: Expr)
      requires Syntax.Parenthesised(e) && !e.Sequence?
      modifies this
      ensures out == old(out) + Inside(e)
      decreases e, 1
    {
      match e
      case Unary(_, _) => Prefix(e);
      case Update(_, prefix, _) => if prefix { Prefix(e); } else { Postfix(e); }
      case Infix(_, _, _) => Joined(e);
      case Assign(_, _, _) => Assignment(e);
      case Conditional(_, _, _) => Choice(e);
      case NewExpr(_, _) => Construction(e);
    }

    method Prefix(e: Expr)
      requires e.Unary? || (e.Update? && e.prefix)
      modifies this
      ensures out == old(out) + Inside(e)
      decreases e, 0
    {
      if e.Unary? { S(UnaryToken(e.op)); } else { S(IncDec(e.inc)); }
      Node(e.operand);
    }

    method Postfix(e: Expr)
      requires e.Update? && !e.prefix
      modifies this
      ensures out == old(out) + Inside(e)
      decreases e, 0
    {
      Node(e.operand);
      S(IncDec(e.inc));
    }

    method Joined(e: Expr)
      requires e.Infix?
      modifies this
      ensures out == old(out) + Inside(e)
      decreases e, 0
    {
      Node(e.left);
      S(Op(e.infix));
      Node(e.right);
    }

    method Assignment(e: Expr)
      requires e.Assign?
      modifies this
      ensures out == old(out) + Inside(e)
      decreases e, 0
    {
      Node(e.target);
      S(AssignWith(e.assign));
      Node(e.value);
    }

    method Choice(e: Expr)
      requires e.Conditional?
      modifies this
      ensures out == old(out) + Inside(e)
      decreases e, 0
    {
      Node(e.test);
      S(Question);
      Node(e.consequent);
      S(Colon);
      Node(e.alternate);
    }

    method Construction(e: Expr)
      requires e.NewExpr?
      modifies this
      ensures out == old(out) + Inside(e)
      decreases e, 0
    {
      S(New);
      Group(e.callee);
      Arguments(e.args);
    }

    method Group(e: Expr)
      modifies this
      ensures out == old(out) + Wrap(Print(e))
      decreases e, 4
    {
      S(LParen);
      Node(e);
      S(RParen);
    }

    /** An item with the comma before it. */
    method Item(e: Expr, i: nat)
      modifies this
      ensures out == old(out) + (Separator(i) + Print(e))
      decreases e, 4
    {
      if i > 0 { S(Comma); }
      Node(e);
    }

    method Arguments(args: seq<Expr>)
      modifies this
      ensures out == old(out) + Wrap(PrintList(args))
      decreases args, 4
    {
      S(LParen);
      List(args);
      S(RParen);
    }

    method List(items: seq<Expr>)
      modifies this
      ensures out == old(out) + PrintList(items)
      decreases items, 3
    {
      hide Print, PrintList, FromItem;
      ghost var all := PrintList(items);
      ItemsDefined(items, 0);
      EmptyList();
      for i := 0 to |items|
        invariant out + FromItem(items, i) == old(out) + all
      {
        ListFrom(items, i);
        ghost var was := out;
        Item(items[i], i);
        Joins(was, Separator(i) + Print(items[i]), FromItem(items, i + 1));
      }
    }

    method Elements(els: seq<Expr>)
      modifies this
      ensures out == old(out) + ([T(LBracket)] + PrintElements(els) + [T(RBracket)])
      decreases els, 3
    {
      hide Print, PrintElements, FromElement;
      S(LBracket);
      ghost var start, all := out, PrintElements(els);
      ElementsDefined(els, 0);
      for i := 0 to |els|
        invariant out + FromElement(els, i) == start + all
      {
        ElementsFrom(els, i);
        ghost var was := out;
        Item(els[i], i);
        Joins(was, Separator(i) + Print(els[i]), FromElement(els, i + 1));
      }
      if els != [] && els[|els| - 1].Hole? { S(Comma); }
      assert out == start + all;
      S(RBracket);
    }
  }

  /** The parser's state is what is left to read, the depth of its recursion and whether `in` is an operator. */
  class Reader {
    var rest: seq<Token>
    var depth: nat
    var noIn: bool
    const strict: bool

    constructor (tokens: seq<Token>, strict: bool, noIn: bool)
      ensures rest == tokens && depth == 0 && this.noIn == noIn && this.strict == strict
    {
      rest, depth, this.noIn, this.strict := tokens, 0, noIn, strict;
    }

    function M(): Mode
      reads this`noIn
    {
      Mode(noIn, strict)
    }

    function Tok(): Kind
      reads this`rest
    {
      Peek(rest)
    }

    method Advance()
      requires rest != []
      modifies this`rest
      ensures rest == old(rest)[1..]
    {
      rest := rest[1..];
    }

    /** What a method returns, and leaves unread, is what the parser's function says. */
    predicate Did(p: Parsed, d: nat, m: Mode, err: Option<Error>, e: Expr, paren: bool)
      reads this
    {
      match p
      case Fail(why) => err == Some(why)
      case Ok(e1, paren1, after) => err.None? && e == e1 && paren == paren1 && rest == after && depth == d && M() == m
    }

    predicate DidList(p: ParsedList, d: nat, m: Mode, err: Option<Error>, es: seq<Expr>, trailing: bool)
      reads this
    {
      match p
      case FailList(why) => err == Some(why)
      case OkList(es1, trailing1, after) => err.None? && es == es1 && trailing == trailing1 && rest == after && depth == d && M() == m
    }

    method ParseExpression() returns (err: Option<Error>, e: Expr, paren: bool)
      modifies this
      ensures Did(Parser.ParseExpression(old(rest), old(depth), old(M())), old(depth), old(M()), err, e, paren)
      decreases |rest|, 8
    {
      ExpressionIs(rest, depth, M());
      hide Parser.ParseExpression, Parser.ParseAssign, MoreExpressions;
      err, e, paren := ParseAssign();
      if err.Some? || !Tok().Comma? { return; }
      var exprs := [e];
      ghost var goal := MoreExpressions(exprs, rest, depth, M());
      while Tok().Comma?
        invariant depth == old(depth) && M() == old(M()) && |rest| < |old(rest)|
        invariant MoreExpressions(exprs, rest, depth, M()) == goal
        decreases |rest|
      {
        MoreIs(exprs, rest, depth, M());
        Advance();
        err, e, paren := ParseAssign();
        if err.Some? { return; }
        exprs := exprs + [e];
      }
      MoreIs(exprs, rest, depth, M());
      err, e, paren := None, Sequence(exprs), false;
    }

    method ParseAssign() returns (err: Option<Error>, e: Expr, paren: bool)
      modifies this
      ensures Did(Parser.ParseAssign(old(rest), old(depth), old(M())), old(depth), old(M()), err, e, paren)
      decreases |rest|, 7
    {
      if depth >= MAX_DEPTH { return Some(TooDeep), Hole, false; }
      if Tok().Ident? && ArrowNext(rest[1..]) { return Some(NotModelled), Hole, false; }
      depth := depth + 1;
      err, e, paren := ParseConditional();
      if err.Some? { return; }
      if Tok().AssignWith? {
        var op := Tok().assign;
        var target := Target(op, e, strict);
        if target.None? { err := Some(BadTarget); return; }
        Advance();
        err, e, paren := ParseAssign();
        if err.Some? { return; }
        e, paren := Assign(op, target.value, e), false;
      }
      depth := depth - 1;
    }

    method ParseConditional() returns (err: Option<Error>, e: Expr, paren: bool)
      modifies this
      ensures Did(Parser.ParseConditional(old(rest), old(depth), old(M())), old(depth), old(M()), err, e, paren)
      decreases |rest|, 6
    {
      err, e, paren := ParseBinary(0);
      if err.Some? || !Tok().Question? { return; }
      var test := e;
      Advance();
      err, e, paren := ParseAssign();
      if err.Some? { return; }
      var yes := e;
      if !Tok().Colon? { err := Some(Unexpected); return; }
      Advance();
      err, e, paren := ParseAssign();
      if err.Some? { return; }
      e, paren := Conditional(test, yes, e), false;
    }

    method ParseBinary(min: nat) returns (err: Option<Error>, e: Expr, paren: bool)
      modifies this
      ensures Did(Parser.ParseBinary(old(rest), min, old(depth), old(M())), old(depth), old(M()), err, e, paren)
      decreases |rest|, 5
    {
      if depth >= MAX_DEPTH { return Some(TooDeep), Hole, false; }
      depth := depth + 1;
      BinaryIs(rest, min, depth - 1, M());
      hide Parser.ParseBinary, BinaryLoop;
      err, e, paren := ParseUnary();
      if err.Some? { return; }
      err, e, paren := Climb(e, paren, min);
      if err.None? { depth := depth - 1; }
    }

    /** The operators of at least the given precedence, and their right operands. */
    method Climb(start: Expr, startParen: bool, min: nat) returns (err: Option<Error>, e: Expr, paren: bool)
      modifies this
      ensures Did(BinaryLoop(start, startParen, old(rest), min, old(depth), old(M())), old(depth), old(M()), err, e, paren)
      decreases |rest|, 0
    {
      err, e, paren := None, start, startParen;
      ghost var goal := BinaryLoop(e, paren, rest, min, depth, M());
      hide Parser.ParseBinary, BinaryLoop, Prec, NextPrec, Mixes, UnaryLeft;
      while true
        invariant depth == old(depth) && M() == old(M()) && |rest| <= |old(rest)| && err.None?
        invariant BinaryLoop(e, paren, rest, min, depth, M()) == goal
        decreases |rest|
      {
        var op := OpAt(rest, M());
        if op.None? || Prec(op.value) < min {
          LoopEnds(e, paren, rest, min, depth, M());
          return;
        }
        LoopIs(e, paren, rest, min, depth, M());
        if Mixes(op.value, e, paren) { err := Some(MixedNullish); return; }
        if op.value.StarStar? && UnaryLeft(e, paren) { err := Some(UnaryBeforePower); return; }
        var left := e;
        Advance();
        err, e, paren := ParseBinary(NextPrec(op.value));
        if err.Some? { return; }
        if Mixes(op.value, e, paren) { err := Some(MixedNullish); return; }
        e, paren := Infix(op.value, left, e), false;
      }
    }

    method ParseUnary() returns (err: Option<Error>, e: Expr, paren: bool)
      modifies this
      ensures Did(Parser.ParseUnary(old(rest), old(depth), old(M())), old(depth), old(M()), err, e, paren)
      decreases |rest|, 4
    {
      if depth >= MAX_DEPTH { return Some(TooDeep), Hole, false; }
      depth := depth + 1;
      var op, inc := UnaryAt(Tok()), Tok();
      if op.Some? {
        Advance();
        err, e, paren := ParseUnary();
        if err.Some? { return; }
        e, paren := Unary(op.value, e), false;
      } else if inc.IncDec? {
        Advance();
        err, e, paren := ParseUnary();
        if err.Some? { return; }
        if !SimpleTarget(e) { err := Some(BadTarget); return; }
        e, paren := Update(inc.inc, true, e), false;
      } else {
        err, e, paren := ParsePostfix();
        if err.Some? { return; }
      }
      depth := depth - 1;
    }

    method ParsePostfix() returns (err: Option<Error>, e: Expr, paren: bool)
      modifies this
      ensures Did(Parser.ParsePostfix(old(rest), old(depth), old(M())), old(depth), old(M()), err, e, paren)
      decreases |rest|, 3
    {
      err, e, paren := ParseMember(true);
      if err.Some? || !Tok().IncDec? || rest[0].newline { return; }
      if !SimpleTarget(e) { err := Some(BadTarget); return; }
      e, paren := Update(Tok().inc, false, e), false;
      Advance();
    }

    method ParseMember(allowCall: bool) returns (err: Option<Error>, e: Expr, paren: bool)
      modifies this
      ensures Did(Parser.ParseMember(old(rest), allowCall, old(depth), old(M())), old(depth), old(M()), err, e, paren)
      decreases |rest|, 2
    {
      if depth >= MAX_DEPTH { return Some(TooDeep), Hole, false; }
      depth := depth + 1;
      MemberIs(rest, allowCall, depth - 1, M());
      if Tok().New? {
        Advance();
        err, e, paren := ParseNew();
      } else {
        err, e, paren := ParsePrimary();
      }
      if err.Some? { return; }
      hide Parser.ParseMember, Parser.ParseNew, Parser.ParsePrimary, MemberLoop;
      err, e, paren := ParseTails(e, paren, allowCall);
      if err.None? { depth := depth - 1; }
    }

    /** The accesses and calls after an operand. */
    method ParseTails(start: Expr, startParen: bool, allowCall: bool) returns (err: Option<Error>, e: Expr, paren: bool)
      modifies this
      ensures Did(MemberLoop(start, startParen, old(rest), allowCall, old(depth), old(M())), old(depth), old(M()), err, e, paren)
      decreases |rest|, 10
    {
      err, e, paren := None, start, startParen;
      ghost var goal := MemberLoop(e, paren, rest, allowCall, depth, M());
      hide Parser.ParseExpression, MemberLoop, Items;
      while Tok().Dot? || Tok().LBracket? || (Tok().LParen? && allowCall)
        invariant depth == old(depth) && M() == old(M()) && |rest| <= |old(rest)| && err.None?
        invariant MemberLoop(e, paren, rest, allowCall, depth, M()) == goal
        decreases |rest|
      {
        TailIs(e, paren, rest, allowCall, depth, M());
        if Tok().Dot? {
          Advance();
          if Tok().Foreign? { err := Some(NotModelled); return; }
          if !IsName(Tok()) { err := Some(Unexpected); return; }
          e, paren := Member(e, Tok()), false;
          Advance();
        } else {
          err, e, paren := ParseTail(e);
          if err.Some? { return; }
        }
      }
      TailIs(e, paren, rest, allowCall, depth, M());
      if Tok().Chain? { err := Some(NotModelled); }
    }

    /** An index in brackets, or arguments. */
    method ParseTail(owner: Expr) returns (err: Option<Error>, e: Expr, paren: bool)
      requires Tok().LBracket? || Tok().LParen?
      modifies this
      ensures Did(OneTail(owner, old(rest), old(depth), old(M())), old(depth), old(M()), err, e, paren)
      decreases |rest|, 9
    {
      paren := false;
      if Tok().LBracket? {
        Advance();
        err, e, paren := ParseExpression();
        if err.Some? { return; }
        if !Tok().RBracket? { err := Some(Unexpected); return; }
        Advance();
        e, paren := Index(owner, e), false;
      } else {
        Advance();
        var args, trailing;
        err, args, trailing := ParseItems();
        e := Call(owner, args);
      }
    }

    method ParseNew() returns (err: Option<Error>, e: Expr, paren: bool)
      modifies this
      ensures Did(Parser.ParseNew(old(rest), old(depth), old(M())), old(depth), old(M()), err, e, paren)
      decreases |rest|, 3
    {
      if Tok().Dot? { return Some(NotModelled), Hole, false; }
      err, e, paren := ParseMember(false);
      if err.Some? { return; }
      var args: seq<Expr> := [];
      if Tok().LParen? {
        Advance();
        var trailing;
        err, args, trailing := ParseItems();
        if err.Some? { return; }
      }
      e, paren := NewExpr(e, args), false;
    }

    /** The expressions up to a closing parenthesis. */
    method ParseItems() returns (err: Option<Error>, es: seq<Expr>, trailing: bool)
      modifies this
      ensures DidList(Items([], old(rest), old(depth), old(M())), old(depth), old(M()), err, es, trailing)
      decreases |rest|, 9
    {
      err, es, trailing := None, [], false;
      ghost var goal := Items([], rest, depth, M());
      while !Tok().RParen?
        invariant depth == old(depth) && noIn == old(noIn) && |rest| <= |old(rest)| && err.None? && (trailing <==> es != [])
        invariant Items(es, rest, depth, M()) == goal
        decreases |rest|
      {
        if Tok().Ellipsis? { err := Some(NotModelled); return; }
        var e, paren;
        err, e, paren := ParseAssign();
        if err.Some? { return; }
        es := es + [e];
        if !Tok().Comma? {
          trailing := false;
          if !Tok().RParen? { err := Some(Unexpected); return; }
          Advance();
          return;
        }
        Advance();
        trailing := true;
      }
      Advance();
    }

    /** The elements up to a closing bracket. */
    method ParseElements() returns (err: Option<Error>, es: seq<Expr>)
      modifies this
      ensures DidList(Elements([], old(rest), old(depth), old(M())), old(depth), old(M()), err, es, false)
      decreases |rest|, 9
    {
      err, es := None, [];
      ghost var goal := Elements([], rest, depth, M());
      while !Tok().RBracket?
        invariant depth == old(depth) && noIn == old(noIn) && |rest| <= |old(rest)| && err.None?
        invariant Elements(es, rest, depth, M()) == goal
        decreases |rest|
      {
        if Tok().Comma? {
          Advance();
          es := es + [Hole];
          continue;
        }
        if Tok().Ellipsis? { err := Some(NotModelled); return; }
        var e, paren;
        err, e, paren := ParseAssign();
        if err.Some? { return; }
        es := es + [e];
        if !Tok().Comma? {
          if !Tok().RBracket? { err := Some(Unexpected); return; }
          Advance();
          return;
        }
        Advance();
      }
      Advance();
    }

    method ParsePrimary() returns (err: Option<Error>, e: Expr, paren: bool)
      modifies this
      ensures Did(Parser.ParsePrimary(old(rest), old(depth), old(M())), old(depth), old(M()), err, e, paren)
      decreases |rest|, 1
    {
      if depth >= MAX_DEPTH { return Some(TooDeep), Hole, false; }
      if Tok().LParen? || Tok().LBracket? {
        err, e, paren := ParseGroup();
        return;
      }
      AtomIs(rest, depth, M());
      hide Parser.ParsePrimary;
      err, e, paren := None, Hole, false;
      match Tok() {
        case Ident(name) => e := Id(name);
        case Lit(l) => e := Constant(l);
        case This => e := ThisExpr;
        case True => e := BoolLit(true);
        case False => e := BoolLit(false);
        case Null => e := NullLit;
        case Super => e := SuperExpr;
        case Op(op) => err := Some(if op.Slash? then NotModelled else Unexpected);
        case AssignWith(op) => err := Some(if op.DivBy? then NotModelled else Unexpected);
        case Word(_) => err := Some(NotModelled);
        case Foreign => err := Some(NotModelled);
        case Chain => err := Some(NotModelled);
        case _ => err := Some(Unexpected);
      }
      if err.None? { Advance(); }
    }

    /** A list in parentheses or brackets, inside which `in` is an operator again. */
    method ParseGroup() returns (err: Option<Error>, e: Expr, paren: bool)
      requires depth < MAX_DEPTH && (Tok().LParen? || Tok().LBracket?)
      modifies this
      ensures Did(Parser.ParsePrimary(old(rest), old(depth), old(M())), old(depth), old(M()), err, e, paren)
      decreases |rest|, 0
    {
      PrimaryIs(rest, depth, M());
      hide Parser.ParsePrimary, Items, Elements;
      var saved, open := noIn, Tok();
      e, paren := Hole, false;
      depth, noIn := depth + 1, false;
      Advance();
      if open.LParen? {
        var es, trailing;
        err, es, trailing := ParseItems();
        if err.Some? { return; }
        if ArrowNext(rest) { err := Some(NotModelled); return; }
        if es == [] || trailing { err := Some(Unexpected); return; }
        e, paren := if |es| == 1 then es[0] else Sequence(es), true;
      } else {
        var es;
        err, es := ParseElements();
        if err.Some? { return; }
        e := ArrayLit(es);
      }
      depth, noIn := depth - 1, saved;
    }
  }

  /** The access or call at the head of the tokens. */
  function OneTail(e: Expr, ts: seq<Token>, d: nat, m: Mode): (r: Parsed)
    ensures r.Ok? && ts != [] ==> |r.rest| < |ts|
  {
    if Peek(ts).LBracket? then
      match ParseExpression(ts[1..], d, m)
      case Fail(why) => Fail(why)
      case Ok(i, _, rest) => if Peek(rest).RBracket? then Ok(Index(e, i), false, rest[1..]) else Fail(Unexpected)
    else if ts == [] then Fail(Unexpected)
    else
      match Items([], ts[1..], d, m)
      case FailList(why) => Fail(why)
      case OkList(args, _, rest) => Ok(Call(e, args), false, rest)
  }

  lemma TailIs(e: Expr, paren: bool, ts: seq<Token>, allowCall: bool, d: nat, m: Mode)
    ensures var (k, r) := (Peek(ts), MemberLoop(e, paren, ts, allowCall, d, m));
      && (k.Dot? ==>
           var name := Peek(ts[1..]);
           r == if name.Foreign? then Fail(NotModelled) else if !IsName(name) then Fail(Unexpected)
                else MemberLoop(Member(e, name), false, ts[1..][1..], allowCall, d, m))
      && (k.LBracket? || (k.LParen? && allowCall) ==>
           var t := OneTail(e, ts, d, m);
           r == if t.Fail? then t else MemberLoop(t.e, t.paren, t.rest, allowCall, d, m))
      && (k.Chain? ==> r == Fail(NotModelled))
      && (!k.Dot? && !k.LBracket? && !(k.LParen? && allowCall) && !k.Chain? ==> r == Ok(e, paren, ts))
  {
    if Peek(ts).Dot? && IsName(Peek(ts[1..])) { assert ts[1..][1..] == ts[2..]; }
  }

  lemma LoopEnds(e: Expr, paren: bool, ts: seq<Token>, min: nat, d: nat, m: Mode)
    requires OpAt(ts, m).None? || Prec(OpAt(ts, m).value) < min
    ensures BinaryLoop(e, paren, ts, min, d, m) == Ok(e, paren, ts)
  {
    hide Prec;
  }

  /** Printing an expression and parsing the output gives it back. */
  method PrintThenParse(e: Expr, strict: bool) returns (err: Option<Error>, back: Expr)
    requires Wf(e, strict)
    ensures if RoundTrip.NeedAssign(e) <= MAX_DEPTH then err == None && back == e else err == Some(TooDeep)
  {
    hide Print, RoundTrip.NeedAssign, Wf;
    var printer := new Printer();
    printer.Node(e);
    RoundTrip.ParsePrint(e, [], 0, Mode(false, strict));
    assert Print(e) + [] == Print(e) && printer.out == Print(e);
    var reader := new Reader(printer.out, strict, false);
    assert reader.M() == Mode(false, strict);
    var paren;
    err, back, paren := reader.ParseExpression();
  }

  function Separator(i: nat): seq<Token> { if i > 0 then [T(Comma)] else [] }

  /** What is still to print when the loop is at item i. */
  ghost function FromItem(items: seq<Expr>, i: nat): seq<Token>
    requires i <= |items|
  {
    if i < |items| then Separator(i) + PrintList(items[i..]) else []
  }

  ghost function FromElement(els: seq<Expr>, i: nat): seq<Token>
    requires i <= |els|
  {
    if i < |els| then Separator(i) + PrintElements(els[i..]) else if i > 0 && els[i - 1].Hole? then [T(Comma)] else []
  }

  lemma ListFrom(items: seq<Expr>, i: nat)
    requires i < |items|
    ensures FromItem(items, i) == Separator(i) + Print(items[i]) + FromItem(items, i + 1)
  {
    var rest := items[i..];
    assert rest[0] == items[i] && rest[1..] == items[i + 1..];
    assert PrintList(rest) == Print(items[i]) + FromItem(items, i + 1);
    hide Print, PrintList, FromItem;
    assert FromItem(items, i) == Separator(i) + PrintList(rest) by { ItemsDefined(items, i); }
  }

  lemma EmptyList()
    ensures PrintList([]) == []
  {}

  lemma ItemsDefined(items: seq<Expr>, i: nat)
    ensures i < |items| ==> FromItem(items, i) == Separator(i) + PrintList(items[i..])
    ensures FromItem(items, |items|) == [] && (i == 0 ==> FromItem(items, 0) == PrintList(items))
  {
    assert items[0..] == items;
    hide PrintList;
  }

  lemma ElementsFrom(els: seq<Expr>, i: nat)
    requires i < |els|
    ensures FromElement(els, i) == Separator(i) + Print(els[i]) + FromElement(els, i + 1)
  {
    ElementThen(els, i);
    ElementsDefined(els, i);
    hide Print, PrintElements, FromElement;
  }

  lemma ElementsDefined(els: seq<Expr>, i: nat)
    ensures i < |els| ==> FromElement(els, i) == Separator(i) + PrintElements(els[i..])
    ensures FromElement(els, |els|) == (if els != [] && els[|els| - 1].Hole? then [T(Comma)] else [])
    ensures i == 0 && els != [] ==> FromElement(els, 0) == PrintElements(els)
    ensures els == [] ==> PrintElements(els) == []
  {
    assert els[0..] == els;
    if els != [] { hide PrintElements; }
  }

  lemma ElementThen(els: seq<Expr>, i: nat)
    requires i < |els|
    ensures PrintElements(els[i..]) == Print(els[i]) + FromElement(els, i + 1)
  {
    var rest := els[i..];
    assert rest[0] == els[i] && rest[1..] == els[i + 1..];
    if i + 1 == |els| {
      assert PrintElements(rest[1..]) == [];
      assert [T(Comma)] + [] == [T(Comma)];
    }
    hide Print;
  }

  lemma Joins(a: seq<Token>, b: seq<Token>, c: seq<Token>)
    ensures a + b + c == a + (b + c)
  {}
}
