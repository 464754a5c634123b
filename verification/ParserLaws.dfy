/**
 What the parser builds: every tree it returns is one the printer's round trip is for, so printing and parsing
 what was parsed changes nothing; and what may be assigned to or stand after a dot, said without the tests that
 the parser and the trees share.
 */
module ParserLaws {
  import opened Options
  import opened Syntax
  import opened Parser
  import opened ParserSteps
  import RoundTrip

  ghost predicate Good(r: Parsed, strict: bool) { r.Ok? ==> Wf(r.e, strict) }

  ghost predicate AllWf(es: seq<Expr>, strict: bool) { forall i :: 0 <= i < |es| ==> Wf(es[i], strict) }

  ghost predicate AllElements(es: seq<Expr>, strict: bool) { forall i :: 0 <= i < |es| ==> es[i].Hole? || Wf(es[i], strict) }

  lemma NoHole(e: Expr, strict: bool)
    requires Wf(e, strict)
    ensures !e.Hole? && !e.ArrayPattern? && !e.AssignPattern?
  {}

  // ---------- Patterns ----------

  /** A well-formed expression that stands for a pattern stands for a well-formed one. */
  lemma {:induction false} PatternWf(e: Expr, strict: bool)
    requires Wf(e, strict) && ToPattern(e, strict).Some?
    ensures WfElement(ToPattern(e, strict).value, strict)
    decreases e
  {
    match e
    case ArrayLit(es) => PatternsWf(es, strict);
    case Assign(op, t, v) => TargetStays(t, strict);
    case _ =>
  }

  lemma {:induction false} PatternsWf(es: seq<Expr>, strict: bool)
    requires (forall i :: 0 <= i < |es| ==> es[i].Hole? || Wf(es[i], strict)) && ToPatterns(es, strict).Some?
    ensures var ps := ToPatterns(es, strict).value; forall i :: 0 <= i < |ps| ==> ps[i].Hole? || WfElement(ps[i], strict)
    decreases es
  {
    hide Wf, WfElement;
    if es != [] {
      if !es[0].Hole? { PatternWf(es[0], strict); }
      PatternsWf(es[1..], strict);
    }
  }

  /** A pattern that has been one before stays as it is. */
  lemma TargetStays(t: Expr, strict: bool)
    requires WfTarget(t, strict)
    ensures ToPattern(t, strict) == Some(t) && !t.AssignPattern?
  {}

  lemma TargetWf(op: AssignOp, left: Expr, strict: bool)
    requires Wf(left, strict) && Target(op, left, strict).Some?
    ensures var t := Target(op, left, strict).value;
      !t.AssignPattern? && if op.Plain? then WfTarget(t, strict) else Wf(t, strict) && SimpleTarget(t)
  {
    hide Wf, WfTarget, ToPattern;
    if op.Plain? { PatternWf(left, strict); }
  }

  // ---------- The parser's functions ----------

  lemma {:induction false} ExpressionWf(ts: seq<Token>, d: nat, m: Mode)
    ensures Good(ParseExpression(ts, d, m), m.strict)
    decreases |ts|, 8
  {
    hide ParseExpression, ParseAssign, MoreExpressions, Wf;
    AssignWf(ts, d, m);
    ExpressionIs(ts, d, m);
    var r := ParseAssign(ts, d, m);
    if r.Ok? && Peek(r.rest).Comma? { MoreWf([r.e], r.rest, d, m); }
  }

  lemma {:induction false} MoreWf(es: seq<Expr>, ts: seq<Token>, d: nat, m: Mode)
    requires AllWf(es, m.strict) && (|es| >= 2 || (|es| == 1 && Peek(ts).Comma?))
    ensures Good(MoreExpressions(es, ts, d, m), m.strict)
    decreases |ts|, 0
  {
    hide ParseAssign, MoreExpressions;
    MoreIs(es, ts, d, m);
    if Peek(ts).Comma? {
      AssignWf(ts[1..], d, m);
      var r := ParseAssign(ts[1..], d, m);
      if r.Ok? { MoreWf(es + [r.e], r.rest, d, m); }
    }
  }

  lemma {:induction false} AssignWf(ts: seq<Token>, d: nat, m: Mode)
    ensures Good(ParseAssign(ts, d, m), m.strict)
    decreases |ts|, 7
  {
    hide ParseConditional, Target, SimpleTarget;
    if d < MAX_DEPTH && !(Peek(ts).Ident? && ArrowNext(ts[1..])) {
      ConditionalWf(ts, d + 1, m);
      var c := ParseConditional(ts, d + 1, m);
      if c.Ok? && Peek(c.rest).AssignWith? {
        var op := Peek(c.rest).assign;
        AssignWf(c.rest[1..], d + 1, m);
        if Target(op, c.e, m.strict).Some? { TargetWf(op, c.e, m.strict); }
      }
    }
  }

  lemma {:induction false} ConditionalWf(ts: seq<Token>, d: nat, m: Mode)
    ensures Good(ParseConditional(ts, d, m), m.strict)
    decreases |ts|, 6
  {
    hide ParseBinary, ParseAssign;
    BinaryWf(ts, 0, d, m);
    var t := ParseBinary(ts, 0, d, m);
    if t.Ok? && Peek(t.rest).Question? {
      AssignWf(t.rest[1..], d, m);
      var yes := ParseAssign(t.rest[1..], d, m);
      if yes.Ok? && Peek(yes.rest).Colon? { AssignWf(yes.rest[1..], d, m); }
    }
  }

  lemma {:induction false} BinaryWf(ts: seq<Token>, min: nat, d: nat, m: Mode)
    ensures Good(ParseBinary(ts, min, d, m), m.strict)
    decreases |ts|, 5
  {
    hide ParseUnary, BinaryLoop, Wf;
    if d < MAX_DEPTH {
      UnaryWf(ts, d + 1, m);
      var u := ParseUnary(ts, d + 1, m);
      if u.Ok? { LoopWf(u.e, u.paren, u.rest, min, d + 1, m); }
    }
  }

  lemma {:induction false} LoopWf(left: Expr, paren: bool, ts: seq<Token>, min: nat, d: nat, m: Mode)
    requires Wf(left, m.strict)
    ensures Good(BinaryLoop(left, paren, ts, min, d, m), m.strict)
    decreases |ts|, 0
  {
    hide ParseBinary, BinaryLoop, Mixes, UnaryLeft, Prec, NextPrec, Wf;
    var op := OpAt(ts, m);
    if op.None? || Prec(op.value) < min {
      LoopDone(left, paren, ts, min, d, m);
    } else {
      LoopIs(left, paren, ts, min, d, m);
      BinaryWf(ts[1..], NextPrec(op.value), d, m);
      var r := ParseBinary(ts[1..], NextPrec(op.value), d, m);
      if r.Ok? {
        InfixNode(op.value, left, r.e, m.strict);
        LoopWf(Infix(op.value, left, r.e), false, r.rest, min, d, m);
      }
    }
  }

  lemma InfixNode(op: BinOp, l: Expr, r: Expr, strict: bool)
    requires Wf(l, strict) && Wf(r, strict)
    ensures Wf(Infix(op, l, r), strict)
  {}

  lemma LoopDone(left: Expr, paren: bool, ts: seq<Token>, min: nat, d: nat, m: Mode)
    requires OpAt(ts, m).None? || Prec(OpAt(ts, m).value) < min
    ensures BinaryLoop(left, paren, ts, min, d, m) == Ok(left, paren, ts)
  {
    hide Prec;
  }

  lemma {:induction false} UnaryWf(ts: seq<Token>, d: nat, m: Mode)
    ensures Good(ParseUnary(ts, d, m), m.strict)
    decreases |ts|, 4
  {
    hide ParsePostfix, UnaryAt;
    if d < MAX_DEPTH {
      if UnaryAt(Peek(ts)).Some? || Peek(ts).IncDec? {
        Something(ts);
        UnaryWf(ts[1..], d + 1, m);
      } else {
        PostfixWf(ts, d + 1, m);
      }
    }
  }

  lemma Something(ts: seq<Token>)
    requires UnaryAt(Peek(ts)).Some? || Peek(ts).IncDec?
    ensures ts != []
  {}

  lemma {:induction false} PostfixWf(ts: seq<Token>, d: nat, m: Mode)
    ensures Good(ParsePostfix(ts, d, m), m.strict)
    decreases |ts|, 3
  {
    hide ParseMember;
    MemberWf(ts, true, d, m);
  }

  lemma {:induction false} MemberWf(ts: seq<Token>, allowCall: bool, d: nat, m: Mode)
    ensures Good(ParseMember(ts, allowCall, d, m), m.strict)
    decreases |ts|, 2
  {
    hide ParseNew, ParsePrimary, MemberLoop, Wf;
    if d < MAX_DEPTH {
      if Peek(ts).New? { NewWf(ts[1..], d + 1, m); } else { PrimaryWf(ts, d + 1, m); }
      var r := if Peek(ts).New? then ParseNew(ts[1..], d + 1, m) else ParsePrimary(ts, d + 1, m);
      if r.Ok? { MemberLoopWf(r.e, r.paren, r.rest, allowCall, d + 1, m); }
    }
  }

  lemma {:induction false} MemberLoopWf(e: Expr, paren: bool, ts: seq<Token>, allowCall: bool, d: nat, m: Mode)
    requires Wf(e, m.strict)
    ensures Good(MemberLoop(e, paren, ts, allowCall, d, m), m.strict)
    decreases |ts|, 0
  {
    hide MemberLoop, ParseExpression, Items, IsName, Wf;
    var k := Peek(ts);
    if k.Dot? {
      DotIs(e, paren, ts, allowCall, d, m);
      if !Peek(ts[1..]).Foreign? && IsName(Peek(ts[1..])) {
        MemberNode(e, Peek(ts[1..]), m.strict);
        MemberLoopWf(Member(e, Peek(ts[1..])), false, ts[2..], allowCall, d, m);
      }
    } else if k.LBracket? {
      IndexIs(e, paren, ts, allowCall, d, m);
      ExpressionWf(ts[1..], d, m);
      var r := ParseExpression(ts[1..], d, m);
      if r.Ok? && Peek(r.rest).RBracket? {
        IndexNode(e, r.e, m.strict);
        MemberLoopWf(Index(e, r.e), false, r.rest[1..], allowCall, d, m);
      }
    } else if k.LParen? && allowCall {
      CallIs(e, paren, ts, d, m);
      ItemsWf([], ts[1..], d, m);
      var r := Items([], ts[1..], d, m);
      if r.OkList? {
        CallNode(e, r.es, m.strict);
        MemberLoopWf(Call(e, r.es), false, r.rest, allowCall, d, m);
      }
    } else {
      OtherIs(e, paren, ts, allowCall, d, m);
    }
  }

  lemma MemberNode(e: Expr, k: Kind, strict: bool)
    requires Wf(e, strict) && IsName(k)
    ensures Wf(Member(e, k), strict)
  {}

  lemma IndexNode(e: Expr, i: Expr, strict: bool)
    requires Wf(e, strict) && Wf(i, strict)
    ensures Wf(Index(e, i), strict)
  {}

  lemma CallNode(e: Expr, es: seq<Expr>, strict: bool)
    requires Wf(e, strict) && AllWf(es, strict)
    ensures Wf(Call(e, es), strict)
  {}

  lemma {:induction false} NewWf(ts: seq<Token>, d: nat, m: Mode)
    ensures Good(ParseNew(ts, d, m), m.strict)
    decreases |ts|, 3
  {
    hide ParseMember, Items;
    if !Peek(ts).Dot? {
      MemberWf(ts, false, d, m);
      var c := ParseMember(ts, false, d, m);
      if c.Ok? && Peek(c.rest).LParen? { ItemsWf([], c.rest[1..], d, m); }
    }
  }

  lemma {:induction false} ItemsWf(es: seq<Expr>, ts: seq<Token>, d: nat, m: Mode)
    requires AllWf(es, m.strict)
    ensures Items(es, ts, d, m).OkList? ==> AllWf(Items(es, ts, d, m).es, m.strict)
    decreases |ts|, 9
  {
    hide ParseAssign, Wf;
    if !Peek(ts).RParen? && !Peek(ts).Ellipsis? {
      AssignWf(ts, d, m);
      var r := ParseAssign(ts, d, m);
      if r.Ok? && Peek(r.rest).Comma? { ItemsWf(es + [r.e], r.rest[1..], d, m); }
    }
  }

  lemma {:induction false} ElementsWf(es: seq<Expr>, ts: seq<Token>, d: nat, m: Mode)
    requires AllElements(es, m.strict)
    ensures Elements(es, ts, d, m).OkList? ==> AllElements(Elements(es, ts, d, m).es, m.strict)
    decreases |ts|, 9
  {
    hide ParseAssign, Wf;
    if Peek(ts).Comma? {
      ElementsWf(es + [Hole], ts[1..], d, m);
    } else if !Peek(ts).RBracket? && !Peek(ts).Ellipsis? {
      AssignWf(ts, d, m);
      var r := ParseAssign(ts, d, m);
      if r.Ok? && Peek(r.rest).Comma? { ElementsWf(es + [r.e], r.rest[1..], d, m); }
    }
  }

  lemma {:induction false} PrimaryWf(ts: seq<Token>, d: nat, m: Mode)
    ensures Good(ParsePrimary(ts, d, m), m.strict)
    decreases |ts|, 1
  {
    hide Items, Elements;
    if d < MAX_DEPTH {
      if Peek(ts).LParen? {
        ItemsWf([], ts[1..], d + 1, m.(noIn := false));
      } else if Peek(ts).LBracket? {
        ElementsWf([], ts[1..], d + 1, m.(noIn := false));
      }
    }
  }

  /** What is parsed, printed and parsed again comes back the same: every tree the parser returns reads back from its
      own printing, as long as that is not nested too deep. */
  lemma ParsedReadsBack(ts: seq<Token>, d: nat, m: Mode)
    requires ParseExpression(ts, d, m).Ok? && RoundTrip.NeedAssign(ParseExpression(ts, d, m).e) <= MAX_DEPTH
    ensures var e := ParseExpression(ts, d, m).e;
      Wf(e, m.strict) && ParseExpression(Print(e), 0, m) == Ok(e, Syntax.Parenthesised(e), [])
  {
    hide ParseExpression, Wf, Print, RoundTrip.NeedAssign;
    ExpressionWf(ts, d, m);
    var e := ParseExpression(ts, d, m).e;
    RoundTrip.ParsePrint(e, [], 0, m);
    assert Print(e) + [] == Print(e);
  }

  // ---------- Names and targets ----------

  /** After a dot an identifier or any reserved word may stand, and nothing else. */
  lemma NamesAfterDots(e: Expr, paren: bool, k: Kind, rest: seq<Token>, allowCall: bool, d: nat, m: Mode)
    ensures var name := k.Ident? || k.Word? || k in {This, True, False, Null, Super, New, Op(In), Op(Instanceof), Un(Typeof), Un(Void), Un(Delete)};
      MemberLoop(e, paren, [T(Dot), T(k)] + rest, allowCall, d, m)
      == if name then MemberLoop(Member(e, k), false, rest, allowCall, d, m)
         else if k.Foreign? then Fail(NotModelled) else Fail(Unexpected)
  {
    hide MemberLoop;
    var ts := [T(Dot), T(k)] + rest;
    assert ts[1..] == [T(k)] + rest && ts[2..] == rest;
    DotIs(e, paren, ts, allowCall, d, m);
  }

  /** ++ and -- take a name or a member, before and after; a line break keeps them from what stands before. */
  lemma UpdateTargets(ts: seq<Token>, d: nat, m: Mode)
    ensures var r := ParseMember(ts, true, d, m);
      r.Ok? && Peek(r.rest).IncDec? ==>
        ParsePostfix(ts, d, m) ==
          if r.rest[0].newline then r
          else if r.e.Id? || r.e.Member? || r.e.Index? then Ok(Update(Peek(r.rest).inc, false, r.e), false, r.rest[1..])
          else Fail(BadTarget)
    ensures Peek(ts).IncDec? && d < MAX_DEPTH ==>
      var r := ParseUnary(ts[1..], d + 1, m);
      ParseUnary(ts, d, m) ==
        if r.Fail? then r
        else if r.e.Id? || r.e.Member? || r.e.Index? then Ok(Update(Peek(ts).inc, true, r.e), false, r.rest)
        else Fail(BadTarget)
  {
    hide ParseMember, ParsePostfix, ParseUnary;
    PostfixIs(ts, d, m);
    if d < MAX_DEPTH { UnaryIs(ts, d, m); }
  }

  /** What stands on the left of `=`: names, members, and arrays of such, with defaults and holes inside; not a name
      that strict code protects.  Patterns that were read before count as themselves. */
  predicate Assignable(e: Expr, strict: bool, inside: bool)
    decreases e
  {
    match e
    case Id(name) => !(strict && name in {"eval", "arguments", "yield"})
    case Member(_, _) => true
    case Index(_, _) => true
    case ArrayLit(es) => forall i :: 0 <= i < |es| ==> es[i].Hole? || Assignable(es[i], strict, true)
    case ArrayPattern(_) => true
    case Assign(op, t, _) => inside && op == Plain && Assignable(t, strict, true)
    case AssignPattern(t, _) => inside && Assignable(t, strict, true)
    case _ => false
  }

  /** An assignment is accepted exactly when its left side may stand there; the combined operators take only names and
      members. */
  lemma AssignTargets(op: AssignOp, left: Expr, strict: bool)
    requires Wf(left, strict)
    ensures Target(op, left, strict).Some? <==>
      if op == Plain then Assignable(left, strict, false) else left.Id? || left.Member? || left.Index?
    ensures op != Plain && Target(op, left, strict).Some? ==> Target(op, left, strict).value == left
  {
    if op == Plain {
      AssignableIs(left, strict);
      if left.Assign? && ToPattern(left, strict).Some? { assert ToPattern(left, strict).value.AssignPattern?; }
    }
  }

  lemma {:induction false} AssignableIs(e: Expr, strict: bool)
    ensures ToPattern(e, strict).Some? <==> Assignable(e, strict, true)
    decreases e
  {
    match e
    case ArrayLit(es) => AllAssignable(es, strict);
    case Assign(op, t, _) => AssignableIs(t, strict);
    case AssignPattern(t, _) => AssignableIs(t, strict);
    case _ =>
  }

  lemma {:induction false} AllAssignable(es: seq<Expr>, strict: bool)
    ensures ToPatterns(es, strict).Some? <==> forall i :: 0 <= i < |es| ==> es[i].Hole? || Assignable(es[i], strict, true)
    decreases es
  {
    if es != [] {
      AssignableIs(es[0], strict);
      AllAssignable(es[1..], strict);
      assert forall i :: 0 < i < |es| ==> es[i] == es[1..][i - 1];
      assert forall i :: 0 <= i < |es| - 1 ==> es[1..][i] == es[i + 1];
    }
  }
}
