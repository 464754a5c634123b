/** Parsing what the printer printed gives the expression back, unless the nesting is too deep. */
module RoundTrip {
  import opened Options
  import opened Syntax
  import opened Parser
  import opened ParserSteps

  function Max(a: nat, b: nat): nat { if a < b then b else a }

  // ---------- How deep the parser must go ----------

  /** Levels entered from the entry of ParseMember on. */
  function Need(e: Expr): nat
    decreases e, 1
  {
    match e
    case ArrayLit(es) => 2 + NeedAll(es)
    case ArrayPattern(es) => 2 + NeedAll(es)
    case Call(c, args) => Max(Need(c), 1 + NeedAll(args))
    case Member(o, _) => if o.Constant? && o.l.Number? then 2 + NeedAssign(o) else Need(o)
    case Index(o, i) => Max(Need(o), 1 + NeedAssign(i))
    case Sequence(es) => 2 + NeedAll(es)
    case _ => 2 + NeedInside(e)
  }

  /** From the entry of ParseAssign on, for what stands between an expression's own parentheses. */
  function NeedInside(e: Expr): nat
    decreases e, 0
  {
    match e
    case Unary(_, x) => 4 + Need(x)
    case Update(_, prefix, x) => (if prefix then 4 else 3) + Need(x)
    case Infix(_, l, r) => Max(3 + Need(l), 4 + Need(r))
    case Assign(_, t, v) => Max(3 + Need(t), 4 + Need(v))
    case Conditional(a, b, c) => Max(3 + Need(a), Max(4 + Need(b), 4 + Need(c)))
    case NewExpr(c, args) => Max(6 + NeedAssign(c), 4 + NeedAll(args))
    case _ => 0
  }

  /** From the entry of ParseAssign on. */
  function NeedAssign(e: Expr): nat
    decreases e, 2
  {
    if e.AssignPattern? then Max(3 + Need(e.target), 4 + Need(e.default)) else 3 + Need(e)
  }

  function NeedAll(es: seq<Expr>): nat
    decreases es
  {
    if es == [] then 0 else Max(if es[0].Hole? then 0 else NeedAssign(es[0]), NeedAll(es[1..]))
  }

  // ---------- Patterns as the parser first reads them ----------

  function Cover(e: Expr): Expr
    decreases e
  {
    match e
    case ArrayPattern(es) => ArrayLit(CoverAll(es))
    case AssignPattern(t, d) => Assign(Plain, t, d)
    case _ => e
  }

  function CoverAll(es: seq<Expr>): (r: seq<Expr>)
    ensures |r| == |es|
    decreases es
  {
    if es == [] then [] else [Cover(es[0])] + CoverAll(es[1..])
  }

  predicate Readable(e: Expr, strict: bool) { Wf(e, strict) || WfElement(e, strict) }

  predicate AllReadable(es: seq<Expr>, strict: bool) { forall i :: 0 <= i < |es| ==> es[i].Hole? || Readable(es[i], strict) }

  lemma ReadableIs(e: Expr, strict: bool)
    requires Readable(e, strict)
    ensures e.AssignPattern? ==> WfTarget(e.target, strict) && Readable(e.target, strict) && Wf(e.default, strict)
    ensures e.ArrayPattern? ==> AllReadable(e.elements, strict)
    ensures !e.AssignPattern? && !e.ArrayPattern? ==> Wf(e, strict)
    ensures e.ArrayLit? ==> AllReadable(e.elements, strict)
  {
    if e.AssignPattern? { assert WfTarget(e.target, strict); }
    else if !Wf(e, strict) { assert WfTarget(e, strict); }
  }

  lemma {:induction false} CoverSame(e: Expr, strict: bool)
    requires Wf(e, strict)
    ensures Cover(e) == e
  {}

  lemma {:induction false} CoverAllSame(es: seq<Expr>, strict: bool)
    requires forall i :: 0 <= i < |es| ==> es[i].Hole? || Wf(es[i], strict)
    ensures CoverAll(es) == es
  {
    if es != [] { CoverAllSame(es[1..], strict); }
  }

  /** A pattern is what its cover stands for. */
  lemma {:induction false} PatternBack(e: Expr, strict: bool)
    requires WfElement(e, strict)
    ensures ToPattern(Cover(e), strict) == Some(e)
    decreases e, 0
  {
    match e
    case ArrayPattern(es) => PatternsBack(es, strict);
    case AssignPattern(t, d) => TargetStays(t, strict);
    case _ =>
  }

  lemma {:induction false} PatternsBack(es: seq<Expr>, strict: bool)
    requires forall i :: 0 <= i < |es| ==> es[i].Hole? || WfElement(es[i], strict)
    ensures ToPatterns(CoverAll(es), strict) == Some(es)
    decreases es
  {
    if es != [] {
      if !es[0].Hole? { PatternBack(es[0], strict); }
      PatternsBack(es[1..], strict);
      assert CoverAll(es)[1..] == CoverAll(es[1..]);
      assert [es[0]] + es[1..] == es;
      if !es[0].Hole? { assert !Cover(es[0]).Hole?; }
    }
  }

  lemma TargetStays(e: Expr, strict: bool)
    requires WfTarget(e, strict)
    ensures ToPattern(e, strict) == Some(e)
  {}

  // ---------- What may follow ----------

  /** A token at which any expression without a comma ends. */
  predicate Closes(k: Kind) { k.RParen? || k.RBracket? || k.Comma? || k.Colon? || k.Stop? }

  /** A token at which a left operand ends. */
  predicate Ends(k: Kind) { Closes(k) || k.Question? || k.Op? || k.AssignWith? }

  predicate Starts(k: Kind) {
    k.Ident? || k.Lit? || k.This? || k.True? || k.False? || k.Null? || k.Super? || k.LParen? || k.LBracket?
  }

  /** Printed expressions begin with an operand, never with an operator. */
  lemma {:induction false} PrintStarts(e: Expr, strict: bool)
    requires Readable(e, strict)
    ensures Print(e) != [] && Starts(Print(e)[0].kind)
    decreases e
  {
    ReadableIs(e, strict);
    match e
    case AssignPattern(t, _) => PrintStarts(t, strict);
    case Call(c, _) => PrintStarts(c, strict);
    case Member(o, _) => PrintStarts(o, strict);
    case Index(o, _) => PrintStarts(o, strict);
    case _ =>
  }

  // ---------- One expression at each level ----------

  /** What ParseMember does at an expression. */
  predicate Reads(e: Expr, ts: seq<Token>, rest: seq<Token>, d: nat, m: Mode) {
    ParseMember(ts, true, d, m)
    == if d + Need(e) <= MAX_DEPTH then MemberLoop(Cover(e), Syntax.Parenthesised(e), rest, true, d + 1, m) else Fail(TooDeep)
  }

  lemma UnaryStep(e: Expr, ts: seq<Token>, rest: seq<Token>, d: nat, m: Mode)
    requires Reads(e, ts, rest, d + 1, m) && Starts(Peek(ts)) && Ends(Peek(rest))
    ensures ParseUnary(ts, d, m)
      == if d + 1 + Need(e) <= MAX_DEPTH then Ok(Cover(e), Syntax.Parenthesised(e), rest) else Fail(TooDeep)
  {
    hide ParseAssign, ParseConditional, ParseBinary, BinaryLoop, ParseUnary, ParsePostfix, ParseMember, MemberLoop,
         ParseNew, ParsePrimary, Items, Elements;
    if d >= MAX_DEPTH {
      Deep(ts, d, m, 0, true);
    } else {
      UnaryIs(ts, d, m);
      PostfixAlone(e, ts, rest, d + 1, m);
    }
    hide Need, Cover, Reads, Ends;
  }

  lemma PostfixAlone(e: Expr, ts: seq<Token>, rest: seq<Token>, d: nat, m: Mode)
    requires Reads(e, ts, rest, d, m) && Ends(Peek(rest))
    ensures ParsePostfix(ts, d, m)
      == if d + Need(e) <= MAX_DEPTH then Ok(Cover(e), Syntax.Parenthesised(e), rest) else Fail(TooDeep)
  {
    hide ParseAssign, ParseConditional, ParseBinary, BinaryLoop, ParseUnary, ParsePostfix, ParseMember, MemberLoop,
         ParseNew, ParsePrimary, Items, Elements, Need, Cover;
    PostfixIs(ts, d, m);
    MemberStops(Cover(e), Syntax.Parenthesised(e), rest, true, d + 1, m);
  }

  lemma BinaryStep(e: Expr, ts: seq<Token>, rest: seq<Token>, min: nat, d: nat, m: Mode)
    requires Reads(e, ts, rest, d + 2, m) && Starts(Peek(ts)) && Ends(Peek(rest))
    ensures ParseBinary(ts, min, d, m)
      == if d + 2 + Need(e) <= MAX_DEPTH then BinaryLoop(Cover(e), Syntax.Parenthesised(e), rest, min, d + 1, m) else Fail(TooDeep)
  {
    hide ParseAssign, ParseConditional, ParseBinary, BinaryLoop, ParseUnary, ParsePostfix, ParseMember, MemberLoop,
         ParseNew, ParsePrimary, Items, Elements;
    if d >= MAX_DEPTH { Deep(ts, d, m, min, true); } else { BinaryIs(ts, min, d, m); UnaryStep(e, ts, rest, d + 1, m); }
    hide Need, Cover, Reads;
  }

  /** A whole test of a conditional, target or other operand that no operator follows. */
  lemma BinaryAlone(e: Expr, ts: seq<Token>, rest: seq<Token>, min: nat, d: nat, m: Mode)
    requires Reads(e, ts, rest, d + 2, m) && Starts(Peek(ts)) && Ends(Peek(rest)) && !Peek(rest).Op?
    ensures ParseBinary(ts, min, d, m)
      == if d + 2 + Need(e) <= MAX_DEPTH then Ok(Cover(e), Syntax.Parenthesised(e), rest) else Fail(TooDeep)
  {
    hide ParseAssign, ParseConditional, ParseBinary, BinaryLoop, ParseUnary, ParsePostfix, ParseMember, MemberLoop,
         ParseNew, ParsePrimary, Items, Elements;
    BinaryStep(e, ts, rest, min, d, m);
    LoopStops(Cover(e), Syntax.Parenthesised(e), rest, min, d + 1, m);
    hide Need, Cover, Reads;
  }

  lemma AssignFromUnary(ts: seq<Token>, d: nat, m: Mode)
    requires !(Peek(ts).Ident? && ArrowNext(ts[1..]))
    ensures var r := ParseUnary(ts, d + 2, m);
      && (d + 1 >= MAX_DEPTH ==> ParseAssign(ts, d, m) == Fail(TooDeep))
      && (d + 1 < MAX_DEPTH && (r.Fail? || Closes(Peek(r.rest))) ==> ParseAssign(ts, d, m) == r)
  {
    hide ParseAssign, ParseConditional, ParseBinary, BinaryLoop, ParseUnary, ParsePostfix, ParseMember, MemberLoop,
         ParseNew, ParsePrimary, Items, Elements;
    if d >= MAX_DEPTH {
      Deep(ts, d, m, 0, true);
    } else {
      AssignIs(ts, d, m);
      ConditionalIs(ts, d + 1, m);
      if d + 1 >= MAX_DEPTH {
        Deep(ts, d + 1, m, 0, true);
      } else {
        BinaryIs(ts, 0, d + 1, m);
        var r := ParseUnary(ts, d + 2, m);
        if r.Ok? && Closes(Peek(r.rest)) { LoopStops(r.e, r.paren, r.rest, 0, d + 2, m); }
      }
    }
  }

  /** A whole element of a list, value or branch. */
  lemma AssignStep(e: Expr, ts: seq<Token>, rest: seq<Token>, d: nat, m: Mode)
    requires Reads(e, ts, rest, d + 3, m) && Starts(Peek(ts)) && Closes(Peek(rest))
    requires !(Peek(ts).Ident? && ArrowNext(ts[1..]))
    ensures ParseAssign(ts, d, m)
      == if d + 3 + Need(e) <= MAX_DEPTH then Ok(Cover(e), Syntax.Parenthesised(e), rest) else Fail(TooDeep)
  {
    hide ParseAssign, ParseConditional, ParseBinary, BinaryLoop, ParseUnary, ParsePostfix, ParseMember, MemberLoop,
         ParseNew, ParsePrimary, Items, Elements;
    AssignFromUnary(ts, d, m);
    UnaryStep(e, ts, rest, d + 2, m);
    hide Need, Cover, Reads;
  }

  // ---------- No arrow where there is none ----------

  lemma {:induction false} PrintSecond(e: Expr, strict: bool)
    requires Readable(e, strict)
    ensures |Print(e)| > 1 && Print(e)[0].kind.Ident? ==> !Print(e)[1].kind.Arrow?
    decreases e
  {
    ReadableIs(e, strict);
    match e
    case AssignPattern(t, _) => PrintSecond(t, strict); PrintStarts(t, strict);
    case Call(c, _) => PrintSecond(c, strict); PrintStarts(c, strict);
    case Member(o, _) => PrintSecond(o, strict); PrintStarts(o, strict);
    case Index(o, _) => PrintSecond(o, strict); PrintStarts(o, strict);
    case _ =>
  }

  /** The tokens of an expression, and what the parser looks at first. */
  lemma Heads(e: Expr, ts: seq<Token>, rest: seq<Token>, strict: bool)
    requires Readable(e, strict) && ts == Print(e) + rest && !ArrowNext(rest)
    ensures ts != [] && Starts(Peek(ts)) && !(Peek(ts).Ident? && ArrowNext(ts[1..]))
  {
    PrintStarts(e, strict);
    PrintSecond(e, strict);
    if |Print(e)| == 1 { assert ts[1..] == rest; }
  }

  // ---------- Inside the parentheses of an operator's expression ----------

  predicate InsideReads(e: Expr, ts: seq<Token>, rest: seq<Token>, d: nat, m: Mode) {
    ParseAssign(ts, d, m) == if d + NeedInside(e) <= MAX_DEPTH then Ok(e, false, rest) else Fail(TooDeep)
  }

  lemma {:induction false} InsideUnary(e: Expr, ts: seq<Token>, rest: seq<Token>, d: nat, m: Mode)
    requires Wf(e, m.strict) && (e.Unary? || (e.Update? && e.prefix)) && ts == Inside(e) + rest && Closes(Peek(rest))
    ensures InsideReads(e, ts, rest, d, m)
    decreases e, 0
  {
    hide ParseAssign, ParseConditional, ParseBinary, BinaryLoop, ParseUnary, ParsePostfix, ParseMember, MemberLoop,
         ParseNew, ParsePrimary, Items, Elements;
    var x := e.operand;
    assert ts[1..] == Print(x) + rest;
    Heads(x, ts[1..], rest, m.strict);
    MemberRound(x, ts[1..], rest, d + 4, m);
    CoverSame(x, m.strict);
    PrefixStep(e, ts, rest, d, m);
    hide Print, Cover, Need, Reads;
  }

  lemma PrefixStep(e: Expr, ts: seq<Token>, rest: seq<Token>, d: nat, m: Mode)
    requires (e.Unary? && Peek(ts) == UnaryToken(e.op)) || (e.Update? && e.prefix && SimpleTarget(e.operand) && Peek(ts) == IncDec(e.inc))
    requires Closes(Peek(rest)) && Starts(Peek(ts[1..]))
    requires Reads(e.operand, ts[1..], rest, d + 4, m) && Cover(e.operand) == e.operand
    ensures InsideReads(e, ts, rest, d, m)
  {
    hide ParseAssign, ParseConditional, ParseBinary, BinaryLoop, ParseUnary, ParsePostfix, ParseMember, MemberLoop,
         ParseNew, ParsePrimary, Items, Elements;
    UnaryStep(e.operand, ts[1..], rest, d + 3, m);
    AssignFromUnary(ts, d, m);
    if d + 2 < MAX_DEPTH { UnaryIs(ts, d + 2, m); } else { Deep(ts, d + 2, m, 0, true); }
    hide Cover, Need, Reads;
  }

  lemma {:induction false} InsidePostfix(e: Expr, ts: seq<Token>, rest: seq<Token>, d: nat, m: Mode)
    requires Wf(e, m.strict) && e.Update? && !e.prefix && ts == Inside(e) + rest && Closes(Peek(rest))
    ensures InsideReads(e, ts, rest, d, m)
    decreases e, 0
  {
    hide ParseAssign, ParseConditional, ParseBinary, BinaryLoop, ParseUnary, ParsePostfix, ParseMember, MemberLoop,
         ParseNew, ParsePrimary, Items, Elements;
    var x, rest1 := e.operand, [T(IncDec(e.inc))] + rest;
    assert ts == Print(x) + rest1;
    Heads(x, ts, rest1, m.strict);
    MemberRound(x, ts, rest1, d + 3, m);
    CoverSame(x, m.strict);
    PostfixStep(e, ts, rest1, rest, d, m);
    hide Print, Cover, Need, Reads;
  }

  lemma PostfixStep(e: Expr, ts: seq<Token>, rest1: seq<Token>, rest: seq<Token>, d: nat, m: Mode)
    requires e.Update? && !e.prefix && SimpleTarget(e.operand) && rest1 == [T(IncDec(e.inc))] + rest && Closes(Peek(rest))
    requires Starts(Peek(ts)) && !(Peek(ts).Ident? && ArrowNext(ts[1..]))
    requires Reads(e.operand, ts, rest1, d + 3, m) && Cover(e.operand) == e.operand
    ensures InsideReads(e, ts, rest, d, m)
  {
    hide ParseAssign, ParseConditional, ParseBinary, BinaryLoop, ParseUnary, ParsePostfix, ParseMember, MemberLoop,
         ParseNew, ParsePrimary, Items, Elements;
    var x := e.operand;
    assert rest1[1..] == rest;
    AssignFromUnary(ts, d, m);
    if d + 2 < MAX_DEPTH {
      UnaryIs(ts, d + 2, m);
      PostfixIs(ts, d + 3, m);
      MemberStops(x, Syntax.Parenthesised(x), rest1, true, d + 4, m);
    } else {
      Deep(ts, d + 2, m, 0, true);
    }
    hide Cover, Need;
  }

  lemma {:induction false} InsideInfix(e: Expr, ts: seq<Token>, rest: seq<Token>, d: nat, m: Mode)
    requires Wf(e, m.strict) && e.Infix? && ts == Inside(e) + rest && Closes(Peek(rest)) && !m.noIn
    ensures InsideReads(e, ts, rest, d, m)
    decreases e, 0
  {
    hide ParseAssign, ParseConditional, ParseBinary, BinaryLoop, ParseUnary, ParsePostfix, ParseMember, MemberLoop,
         ParseNew, ParsePrimary, Items, Elements;
    var (l, r) := (e.left, e.right);
    var rest1 := [T(Op(e.infix))] + (Print(r) + rest);
    assert ts == Print(l) + rest1;
    assert rest1[1..] == Print(r) + rest;
    Heads(l, ts, rest1, m.strict);
    Heads(r, rest1[1..], rest, m.strict);
    MemberRound(l, ts, rest1, d + 3, m);
    MemberRound(r, rest1[1..], rest, d + 4, m);
    CoverSame(l, m.strict);
    CoverSame(r, m.strict);
    InfixStep(e, ts, rest1, rest, d, m);
    hide Print, Cover, Need, Reads;
  }

  lemma InfixStep(e: Expr, ts: seq<Token>, rest1: seq<Token>, rest: seq<Token>, d: nat, m: Mode)
    requires e.Infix? && Peek(rest1) == Op(e.infix) && Closes(Peek(rest)) && !m.noIn
    requires Starts(Peek(ts)) && !(Peek(ts).Ident? && ArrowNext(ts[1..])) && Starts(Peek(rest1[1..]))
    requires Reads(e.left, ts, rest1, d + 3, m) && Reads(e.right, rest1[1..], rest, d + 4, m)
    requires Cover(e.left) == e.left && Cover(e.right) == e.right
    ensures InsideReads(e, ts, rest, d, m)
  {
    hide ParseAssign, ParseConditional, ParseBinary, BinaryLoop, ParseUnary, ParsePostfix, ParseMember, MemberLoop,
         ParseNew, ParsePrimary, Items, Elements, NeedInside;
    InfixLoop(e, rest1, rest, d + 2, m);
    BinaryStep(e.left, ts, rest1, 0, d + 1, m);
    AssignFromBinary(ts, d, m);
    hide Cover, Need, Reads;
    assert NeedInside(e) == Max(3 + Need(e.left), 4 + Need(e.right)) by { InfixNeed(e); }
  }

  lemma InfixNeed(e: Expr)
    requires e.Infix?
    ensures NeedInside(e) == Max(3 + Need(e.left), 4 + Need(e.right))
  {}

  /** The climbing loop at one operator whose right operand is read whole. */
  lemma InfixLoop(e: Expr, ts: seq<Token>, rest: seq<Token>, d: nat, m: Mode)
    requires e.Infix? && Peek(ts) == Op(e.infix) && Closes(Peek(rest)) && !m.noIn && Starts(Peek(ts[1..]))
    requires Reads(e.right, ts[1..], rest, d + 2, m) && Cover(e.right) == e.right
    ensures BinaryLoop(e.left, Syntax.Parenthesised(e.left), ts, 0, d, m)
      == if d + 2 + Need(e.right) <= MAX_DEPTH then Ok(e, false, rest) else Fail(TooDeep)
  {
    hide ParseAssign, ParseConditional, ParseBinary, BinaryLoop, ParseUnary, ParsePostfix, ParseMember, MemberLoop,
         ParseNew, ParsePrimary, Items, Elements, Cover, Need, Reads, Prec, NextPrec;
    BinaryAlone(e.right, ts[1..], rest, NextPrec(e.infix), d, m);
    LoopIs(e.left, Syntax.Parenthesised(e.left), ts, 0, d, m);
    LoopStops(e, false, rest, 0, d, m);
  }

  lemma AssignFromBinary(ts: seq<Token>, d: nat, m: Mode)
    requires !(Peek(ts).Ident? && ArrowNext(ts[1..]))
    ensures var r := ParseBinary(ts, 0, d + 1, m);
      && (d >= MAX_DEPTH ==> ParseAssign(ts, d, m) == Fail(TooDeep))
      && (d < MAX_DEPTH && (r.Fail? || Closes(Peek(r.rest))) ==> ParseAssign(ts, d, m) == r)
  {
    hide ParseAssign, ParseConditional, ParseBinary, BinaryLoop, ParseUnary, ParsePostfix, ParseMember, MemberLoop,
         ParseNew, ParsePrimary, Items, Elements;
    if d >= MAX_DEPTH { Deep(ts, d, m, 0, true); } else { AssignIs(ts, d, m); ConditionalIs(ts, d + 1, m); }
  }

  lemma TargetReadable(e: Expr, strict: bool)
    requires Wf(e, strict) && e.Assign?
    ensures Readable(e.target, strict) && Readable(e.value, strict) && !e.target.AssignPattern? && !e.target.Hole?
    ensures Target(e.assign, Cover(e.target), strict) == Some(e.target)
  {
    if e.assign.Plain? {
      assert WfElement(e.target, strict);
      PatternBack(e.target, strict);
    } else {
      CoverSame(e.target, strict);
    }
  }

  lemma {:induction false} InsideAssign(e: Expr, ts: seq<Token>, rest: seq<Token>, d: nat, m: Mode)
    requires Wf(e, m.strict) && e.Assign? && ts == Inside(e) + rest && Closes(Peek(rest))
    ensures InsideReads(e, ts, rest, d, m)
    decreases e, 0
  {
    hide ParseAssign, ParseConditional, ParseBinary, BinaryLoop, ParseUnary, ParsePostfix, ParseMember, MemberLoop,
         ParseNew, ParsePrimary, Items, Elements;
    var (t, v) := (e.target, e.value);
    var rest1 := [T(AssignWith(e.assign))] + (Print(v) + rest);
    assert ts == Print(t) + rest1;
    assert rest1[1..] == Print(v) + rest;
    TargetReadable(e, m.strict);
    Heads(t, ts, rest1, m.strict);
    MemberRound(t, ts, rest1, d + 3, m);
    AssignRound(v, rest1[1..], rest, d + 1, m);
    CoverSame(v, m.strict);
    PairStep(e, ts, rest1, rest, d, m);
    hide Print, Cover, Need, Reads, Target;
  }

  /** A target, an assignment operator and a value. */
  lemma PairStep(e: Expr, ts: seq<Token>, rest1: seq<Token>, rest: seq<Token>, d: nat, m: Mode)
    requires e.Assign? && Peek(rest1) == AssignWith(e.assign) && Closes(Peek(rest))
    requires Starts(Peek(ts)) && !(Peek(ts).Ident? && ArrowNext(ts[1..]))
    requires Reads(e.target, ts, rest1, d + 3, m) && Target(e.assign, Cover(e.target), m.strict) == Some(e.target)
    requires ParseAssign(rest1[1..], d + 1, m) == if d + 4 + Need(e.value) <= MAX_DEPTH then Ok(e.value, Syntax.Parenthesised(e.value), rest) else Fail(TooDeep)
    ensures InsideReads(e, ts, rest, d, m)
  {
    hide ParseAssign, ParseConditional, ParseBinary, BinaryLoop, ParseUnary, ParsePostfix, ParseMember, MemberLoop,
         ParseNew, ParsePrimary, Items, Elements;
    BinaryAlone(e.target, ts, rest1, 0, d + 1, m);
    ConditionalIs(ts, d + 1, m);
    if d < MAX_DEPTH { AssignIs(ts, d, m); } else { Deep(ts, d, m, 0, true); }
    hide Cover, Need, Reads, Target;
  }

  lemma {:induction false} InsideConditional(e: Expr, ts: seq<Token>, rest: seq<Token>, d: nat, m: Mode)
    requires Wf(e, m.strict) && e.Conditional? && ts == Inside(e) + rest && Closes(Peek(rest))
    ensures InsideReads(e, ts, rest, d, m)
    decreases e, 0
  {
    hide ParseAssign, ParseConditional, ParseBinary, BinaryLoop, ParseUnary, ParsePostfix, ParseMember, MemberLoop,
         ParseNew, ParsePrimary, Items, Elements, Print, Inside, Cover, Need, NeedAssign, Reads, Wf, WfElement, Readable,
         InsideReads, Starts, Closes;
    var (a, b, c) := (e.test, e.consequent, e.alternate);
    var rest2 := [T(Colon)] + (Print(c) + rest);
    var rest1 := [T(Question)] + (Print(b) + rest2);
    ConditionalTokens(e, ts, rest, m.strict);
    Heads(a, ts, rest1, m.strict);
    MemberRound(a, ts, rest1, d + 3, m);
    AssignRound(b, rest1[1..], rest2, d + 1, m);
    AssignRound(c, rest2[1..], rest, d + 1, m);
    CoverSame(a, m.strict);
    CoverSame(b, m.strict);
    CoverSame(c, m.strict);
    NotPattern(b, m.strict);
    NotPattern(c, m.strict);
    ConditionalStep(e, ts, rest1, rest2, rest, d, m);
  }

  /** The tokens of a conditional without its parentheses, piece by piece. */
  lemma ConditionalTokens(e: Expr, ts: seq<Token>, rest: seq<Token>, strict: bool)
    requires Wf(e, strict) && e.Conditional? && ts == Inside(e) + rest
    ensures var rest2 := [T(Colon)] + (Print(e.alternate) + rest);
      var rest1 := [T(Question)] + (Print(e.consequent) + rest2);
      && ts == Print(e.test) + rest1 && rest1[1..] == Print(e.consequent) + rest2 && rest2[1..] == Print(e.alternate) + rest
      && !ArrowNext(rest1) && Peek(rest1).Question? && Peek(rest2).Colon? && Closes(Peek(rest2))
      && forall x :: x in [e.test, e.consequent, e.alternate] ==> Wf(x, strict) && Readable(x, strict) && !x.AssignPattern? && !x.Hole?
  {
    var rest2 := [T(Colon)] + (Print(e.alternate) + rest);
    var rest1 := [T(Question)] + (Print(e.consequent) + rest2);
    assert ts == Print(e.test) + rest1;
    assert rest1[1..] == Print(e.consequent) + rest2 && rest2[1..] == Print(e.alternate) + rest;
  }

  lemma NotPattern(e: Expr, strict: bool)
    requires Wf(e, strict)
    ensures NeedAssign(e) == 3 + Need(e)
  {}

  predicate Whole(e: Expr, ts: seq<Token>, rest: seq<Token>, d: nat, m: Mode) {
    ParseAssign(ts, d, m) == if d + 3 + Need(e) <= MAX_DEPTH then Ok(e, Syntax.Parenthesised(e), rest) else Fail(TooDeep)
  }

  lemma ConditionalStep(e: Expr, ts: seq<Token>, rest1: seq<Token>, rest2: seq<Token>, rest: seq<Token>, d: nat, m: Mode)
    requires e.Conditional? && Peek(rest1).Question? && Peek(rest2).Colon? && Closes(Peek(rest))
    requires Starts(Peek(ts)) && !(Peek(ts).Ident? && ArrowNext(ts[1..]))
    requires Reads(e.test, ts, rest1, d + 3, m) && Cover(e.test) == e.test
    requires Whole(e.consequent, rest1[1..], rest2, d + 1, m) && Whole(e.alternate, rest2[1..], rest, d + 1, m)
    ensures InsideReads(e, ts, rest, d, m)
  {
    hide ParseAssign, ParseConditional, ParseBinary, BinaryLoop, ParseUnary, ParsePostfix, ParseMember, MemberLoop,
         ParseNew, ParsePrimary, Items, Elements;
    BinaryAlone(e.test, ts, rest1, 0, d + 1, m);
    ConditionalIs(ts, d + 1, m);
    if d < MAX_DEPTH { AssignIs(ts, d, m); } else { Deep(ts, d, m, 0, true); }
    hide Cover, Need, Reads;
  }

  lemma {:induction false} InsideNew(e: Expr, ts: seq<Token>, rest: seq<Token>, d: nat, m: Mode)
    requires Wf(e, m.strict) && e.NewExpr? && ts == Inside(e) + rest && Closes(Peek(rest)) && !m.noIn
    ensures InsideReads(e, ts, rest, d, m)
    decreases e, 0
  {
    hide ParseAssign, ParseConditional, ParseBinary, BinaryLoop, ParseUnary, ParsePostfix, ParseMember, MemberLoop,
         ParseNew, ParsePrimary, Items, Elements, PrintList, Print, Cover, Need, NeedAll, NeedAssign, NeedInside, Inside,
         Wf;
    NewTokens(e, ts, rest);
    var (c, args) := (e.callee, e.args);
    var rest1 := [T(LParen)] + (PrintList(args) + ([T(RParen)] + rest));
    var ts2 := Print(c) + ([T(RParen)] + rest1);
    var ts1 := [T(LParen)] + ts2;
    assert ts1[1..] == ts2 && rest1[1..] == PrintList(args) + ([T(RParen)] + rest);
    NewNeed(e, m.strict);
    NewCallee(c, ts2, rest1, d + 6, m);
    NewArgs(args, rest1[1..], rest, d + 4, m);
    NewWhole(e, ts, ts1, rest1, rest, d, m);
  }

  lemma NewTokens(e: Expr, ts: seq<Token>, rest: seq<Token>)
    requires e.NewExpr? && ts == Inside(e) + rest
    ensures ts == [T(New)] + ([T(LParen)] + (Print(e.callee) + ([T(RParen)] + ([T(LParen)] + (PrintList(e.args) + ([T(RParen)] + rest))))))
  {
    hide Print, PrintList;
  }

  lemma {:induction false} NewArgs(es: seq<Expr>, ts: seq<Token>, rest: seq<Token>, d: nat, m: Mode)
    requires (forall i :: 0 <= i < |es| ==> Wf(es[i], m.strict)) && ts == PrintList(es) + ([T(RParen)] + rest)
    ensures Items([], ts, d, m) == if d + NeedAll(es) <= MAX_DEPTH || es == [] then OkList(es, false, rest) else FailList(TooDeep)
    decreases es, 6
  {
    ItemsRound(es, [], ts, rest, d, m);
    assert [] + es == es;
    hide Items, PrintList, NeedAll;
  }

  lemma NewWhole(e: Expr, ts: seq<Token>, ts1: seq<Token>, rest1: seq<Token>, rest: seq<Token>, d: nat, m: Mode)
    requires e.NewExpr? && ts == [T(New)] + ts1 && Peek(ts1) == LParen && Peek(rest1) == LParen && Closes(Peek(rest)) && !m.noIn
    requires NeedInside(e) == Max(6 + NeedAssign(e.callee), 4 + NeedAll(e.args)) && NeedAssign(e.callee) >= 5
    requires e.args == [] ==> NeedAll(e.args) == 0
    requires Items([], ts1[1..], d + 6, m) == if d + 6 + NeedAssign(e.callee) <= MAX_DEPTH then OkList([e.callee], false, rest1) else FailList(TooDeep)
    requires Items([], rest1[1..], d + 4, m)
      == if d + 4 + NeedAll(e.args) <= MAX_DEPTH || e.args == [] then OkList(e.args, false, rest) else FailList(TooDeep)
    ensures InsideReads(e, ts, rest, d, m)
  {
    hide ParseAssign, ParseConditional, ParseBinary, BinaryLoop, ParseUnary, ParsePostfix, ParseMember, MemberLoop,
         ParseNew, ParsePrimary, Items, Elements, NeedInside, NeedAssign, NeedAll;
    AssignFromUnary(ts, d, m);
    NewStep(e, ts, ts1, rest1, rest, d + 2, m);
  }

  lemma NewNeed(e: Expr, strict: bool)
    requires e.NewExpr? && Wf(e, strict)
    ensures (e.args == [] ==> NeedAll(e.args) == 0) && forall i :: 0 <= i < |e.args| ==> Wf(e.args[i], strict)
    ensures NeedInside(e) == Max(6 + NeedAssign(e.callee), 4 + NeedAll(e.args)) && NeedAssign(e.callee) >= 5 && Wf(e.callee, strict)
  {
    NotPattern(e.callee, strict);
    NeedTwo(e.callee);
  }

  lemma {:induction false} NewCallee(c: Expr, ts: seq<Token>, rest: seq<Token>, d: nat, m: Mode)
    requires Wf(c, m.strict) && ts == Print(c) + ([T(RParen)] + rest)
    ensures Items([], ts, d, m) == if d + NeedAssign(c) <= MAX_DEPTH then OkList([c], false, rest) else FailList(TooDeep)
    decreases c, 5
  {
    hide ParseAssign, ParseConditional, ParseBinary, BinaryLoop, ParseUnary, ParsePostfix, ParseMember, MemberLoop,
         ParseNew, ParsePrimary, Items, Elements, Print, Cover, NeedAssign, Wf;
    WfNotHole(c, m.strict);
    AssignRound(c, ts, [T(RParen)] + rest, d, m);
    Heads(c, ts, [T(RParen)] + rest, m.strict);
    CoverSame(c, m.strict);
    OneItem(c, ts, rest, d, m);
  }

  /** One expression up to a closing parenthesis. */
  lemma OneItem(c: Expr, ts: seq<Token>, rest: seq<Token>, d: nat, m: Mode)
    requires Starts(Peek(ts))
    ensures var r := ParseAssign(ts, d, m);
      && (r.Fail? ==> Items([], ts, d, m) == FailList(r.why))
      && (r.Ok? && r.e == c && r.rest == [T(RParen)] + rest ==> Items([], ts, d, m) == OkList([c], false, rest))
  {
    hide ParseAssign, ParseConditional, ParseBinary, BinaryLoop, ParseUnary, ParsePostfix, ParseMember, MemberLoop,
         ParseNew, ParsePrimary, Items, Elements;
    ItemsIs([], ts, d, m);
    assert [] + [c] == [c];
    assert ([T(RParen)] + rest)[1..] == rest;
  }

  /** `new (callee)(arguments)`, where the parser reads a unary operand. */
  lemma NewStep(e: Expr, ts: seq<Token>, ts1: seq<Token>, rest1: seq<Token>, rest: seq<Token>, d: nat, m: Mode)
    requires e.NewExpr? && ts == [T(New)] + ts1 && Peek(ts1) == LParen && Peek(rest1) == LParen && Closes(Peek(rest)) && !m.noIn
    ensures var (c, a) := (Items([], ts1[1..], d + 4, m), Items([], rest1[1..], d + 2, m));
      && (d + 3 >= MAX_DEPTH ==> ParseUnary(ts, d, m) == Fail(TooDeep))
      && (d + 3 < MAX_DEPTH && c == FailList(TooDeep) ==> ParseUnary(ts, d, m) == Fail(TooDeep))
      && (d + 3 < MAX_DEPTH && c == OkList([e.callee], false, rest1) ==>
           && (a == FailList(TooDeep) ==> ParseUnary(ts, d, m) == Fail(TooDeep))
           && (a == OkList(e.args, false, rest) ==> ParseUnary(ts, d, m) == Ok(e, false, rest)))
  {
    hide ParseAssign, ParseConditional, ParseBinary, BinaryLoop, ParseUnary, ParsePostfix, ParseMember, MemberLoop,
         ParseNew, ParsePrimary, Items, Elements;
    assert ts[1..] == ts1;
    if d >= MAX_DEPTH { Deep(ts, d, m, 0, true); return; }
    UnaryIs(ts, d, m);
    PostfixIs(ts, d + 1, m);
    if d + 1 >= MAX_DEPTH { Deep(ts, d + 1, m, 0, true); return; }
    MemberIs(ts, true, d + 1, m);
    NewIs(ts1, d + 2, m);
    NewMember(ts1, rest1, e.callee, d + 2, m);
    MemberStops(e, false, rest, true, d + 2, m);
  }

  /** The callee in its parentheses, where calls are not allowed. */
  lemma NewMember(ts: seq<Token>, rest: seq<Token>, c: Expr, d: nat, m: Mode)
    requires Peek(ts) == LParen && Peek(rest) == LParen && !m.noIn
    ensures var r := Items([], ts[1..], d + 2, m);
      && (d + 1 >= MAX_DEPTH ==> ParseMember(ts, false, d, m) == Fail(TooDeep))
      && (d + 1 < MAX_DEPTH && r == FailList(TooDeep) ==> ParseMember(ts, false, d, m) == Fail(TooDeep))
      && (d + 1 < MAX_DEPTH && r == OkList([c], false, rest) ==> ParseMember(ts, false, d, m) == Ok(c, true, rest))
  {
    hide ParseAssign, ParseConditional, ParseBinary, BinaryLoop, ParseUnary, ParsePostfix, ParseMember, MemberLoop,
         ParseNew, ParsePrimary, Items, Elements;
    assert m.(noIn := false) == m;
    if d >= MAX_DEPTH { Deep(ts, d, m, 0, false); return; }
    MemberIs(ts, false, d, m);
    if d + 1 >= MAX_DEPTH { Deep(ts, d + 1, m, 0, false); return; }
    PrimaryIs(ts, d + 1, m);
    MemberStops(c, true, rest, false, d + 1, m);
  }

  lemma {:induction false} InsideRound(e: Expr, ts: seq<Token>, rest: seq<Token>, d: nat, m: Mode)
    requires Wf(e, m.strict) && Syntax.Parenthesised(e) && !e.Sequence? && ts == Inside(e) + rest && Closes(Peek(rest)) && !m.noIn
    ensures InsideReads(e, ts, rest, d, m)
    decreases e, 1
  {
    match e
    case Unary(_, _) => InsideUnary(e, ts, rest, d, m);
    case Update(_, prefix, _) => if prefix { InsideUnary(e, ts, rest, d, m); } else { InsidePostfix(e, ts, rest, d, m); }
    case Infix(_, _, _) => InsideInfix(e, ts, rest, d, m);
    case Assign(_, _, _) => InsideAssign(e, ts, rest, d, m);
    case Conditional(_, _, _) => InsideConditional(e, ts, rest, d, m);
    case NewExpr(_, _) => InsideNew(e, ts, rest, d, m);
  }

  // ---------- Lists ----------

  lemma {:induction false} ItemsRound(es: seq<Expr>, before: seq<Expr>, ts: seq<Token>, rest: seq<Token>, d: nat, m: Mode)
    requires (forall i :: 0 <= i < |es| ==> Wf(es[i], m.strict)) && (es != [] || before == [])
    requires ts == PrintList(es) + ([T(RParen)] + rest)
    ensures Items(before, ts, d, m) == if d + NeedAll(es) <= MAX_DEPTH || es == [] then OkList(before + es, false, rest) else FailList(TooDeep)
    decreases es, 5
  {
    hide ParseAssign, Print, Cover, NeedAssign, Wf;
    if es == [] {
      assert ts[1..] == rest;
    } else {
      var (e, tail) := (es[0], es[1..]);
      var rest1 := if tail == [] then [T(RParen)] + rest else [T(Comma)] + (PrintList(tail) + ([T(RParen)] + rest));
      assert ts == Print(e) + rest1;
      Heads(e, ts, rest1, m.strict);
      WfNotHole(e, m.strict);
      AssignRound(e, ts, rest1, d, m);
      CoverSame(e, m.strict);
      hide Items;
      ItemsIs(before, ts, d, m);
      if tail == [] {
        assert es == [e] && rest1[1..] == rest;
      } else {
        assert rest1[1..] == PrintList(tail) + ([T(RParen)] + rest);
        ItemsRound(tail, before + [e], rest1[1..], rest, d, m);
        assert before + [e] + tail == before + es;
      }
    }
  }

  lemma WfNotHole(e: Expr, strict: bool)
    ensures Wf(e, strict) ==> !e.Hole?
  {}

  lemma {:induction false} ElementsRound(es: seq<Expr>, before: seq<Expr>, ts: seq<Token>, rest: seq<Token>, d: nat, m: Mode)
    requires AllReadable(es, m.strict) && ts == PrintElements(es) + ([T(RBracket)] + rest) && d <= MAX_DEPTH
    ensures Elements(before, ts, d, m)
      == if d + NeedAll(es) <= MAX_DEPTH then OkList(before + CoverAll(es), false, rest) else FailList(TooDeep)
    decreases es, 5
  {
    hide ParseAssign, Cover, NeedAssign, Wf, WfElement, Readable;
    if es == [] {
      assert ts[1..] == rest;
    } else {
      hide Elements;
      var (e, tail) := (es[0], es[1..]);
      NeedFirst(es);
      if !e.Hole? && tail == [] {
        LastElement(e, before, ts, rest, d, m);
        assert es == [e];
      } else {
        var rest1 := [T(Comma)] + (PrintElements(tail) + ([T(RBracket)] + rest));
        assert PrintElements(es) == Print(e) + ([T(Comma)] + PrintElements(tail));
        hide Print, PrintElements, NeedAll, CoverAll;
        assert ts == Print(e) + rest1;
        assert rest1[1..] == PrintElements(tail) + ([T(RBracket)] + rest);
        NextElement(e, before, ts, rest1, d, m);
        ElementsRound(tail, before + [Cover(e)], rest1[1..], rest, d, m);
        assert before + [Cover(e)] + CoverAll(tail) == before + ([Cover(e)] + CoverAll(tail));
      }
    }
  }

  lemma NeedFirst(es: seq<Expr>)
    requires es != []
    ensures NeedAll(es) == Max(if es[0].Hole? then 0 else NeedAssign(es[0]), NeedAll(es[1..]))
    ensures CoverAll(es) == [Cover(es[0])] + CoverAll(es[1..])
    ensures |es| == 1 ==> CoverAll(es) == [Cover(es[0])] && NeedAll(es[1..]) == 0
  {}

  /** An element, or a hole, with a comma after it. */
  lemma {:induction false} NextElement(e: Expr, before: seq<Expr>, ts: seq<Token>, rest: seq<Token>, d: nat, m: Mode)
    requires (e.Hole? || Readable(e, m.strict)) && ts == Print(e) + rest && Peek(rest).Comma?
    ensures Elements(before, ts, d, m)
      == if e.Hole? || d + NeedAssign(e) <= MAX_DEPTH then Elements(before + [Cover(e)], rest[1..], d, m) else FailList(TooDeep)
    decreases e, 5
  {
    if e.Hole? {
      assert ts == rest && Cover(e) == e;
    } else {
      hide ParseAssign, ParseConditional, ParseBinary, BinaryLoop, ParseUnary, ParsePostfix, ParseMember, MemberLoop,
           ParseNew, ParsePrimary, Items, Elements, Print, Cover, NeedAssign, Readable;
      Heads(e, ts, rest, m.strict);
      AssignRound(e, ts, rest, d, m);
      ElementsIs(before, ts, d, m);
    }
  }

  lemma {:induction false} LastElement(e: Expr, before: seq<Expr>, ts: seq<Token>, rest: seq<Token>, d: nat, m: Mode)
    requires Readable(e, m.strict) && !e.Hole? && ts == PrintElements([e]) + ([T(RBracket)] + rest)
    ensures Elements(before, ts, d, m) == if d + NeedAssign(e) <= MAX_DEPTH then OkList(before + [Cover(e)], false, rest) else FailList(TooDeep)
    decreases e, 5
  {
    hide ParseAssign, ParseConditional, ParseBinary, BinaryLoop, ParseUnary, ParsePostfix, ParseMember, MemberLoop,
         ParseNew, ParsePrimary, Items, Elements;
    var rest1 := [T(RBracket)] + rest;
    assert ts == Print(e) + rest1 && rest1[1..] == rest;
    Heads(e, ts, rest1, m.strict);
    AssignRound(e, ts, rest1, d, m);
    ElementsIs(before, ts, d, m);
    hide Print, Cover, NeedAssign, Readable;
  }

  // ---------- Every expression ----------

  lemma {:induction false} AssignRound(e: Expr, ts: seq<Token>, rest: seq<Token>, d: nat, m: Mode)
    requires Readable(e, m.strict) && !e.Hole? && ts == Print(e) + rest && Closes(Peek(rest))
    ensures ParseAssign(ts, d, m)
      == if d + NeedAssign(e) <= MAX_DEPTH then Ok(Cover(e), Syntax.Parenthesised(e), rest) else Fail(TooDeep)
    decreases e, 4
  {
    hide ParseAssign, ParseConditional, ParseBinary, BinaryLoop, ParseUnary, ParsePostfix, ParseMember, MemberLoop,
         ParseNew, ParsePrimary, Items, Elements, Print, Cover, Need, Reads, Readable;
    Heads(e, ts, rest, m.strict);
    if e.AssignPattern? {
      PatternRound(e, ts, rest, d, m);
    } else {
      MemberRound(e, ts, rest, d + 3, m);
      AssignStep(e, ts, rest, d, m);
    }
  }

  /** A target with a default reads as an assignment. */
  lemma {:induction false} PatternRound(e: Expr, ts: seq<Token>, rest: seq<Token>, d: nat, m: Mode)
    requires Readable(e, m.strict) && e.AssignPattern? && ts == Print(e) + rest && Closes(Peek(rest))
    ensures ParseAssign(ts, d, m) == if d + NeedAssign(e) <= MAX_DEPTH then Ok(Cover(e), false, rest) else Fail(TooDeep)
    decreases e, 0
  {
    hide ParseAssign, ParseConditional, ParseBinary, BinaryLoop, ParseUnary, ParsePostfix, ParseMember, MemberLoop,
         ParseNew, ParsePrimary, Items, Elements, Print, Cover, Need, NeedAssign, Reads, Target, Wf, WfTarget, WfElement,
         Readable, InsideReads, Starts, Closes;
    var (t, v) := (e.target, e.default);
    var rest1 := [T(AssignWith(Plain))] + (Print(v) + rest);
    PatternTokens(e, ts, rest, m.strict);
    TargetReadable(Assign(Plain, t, v), m.strict);
    Heads(t, ts, rest1, m.strict);
    MemberRound(t, ts, rest1, d + 3, m);
    AssignRound(v, rest1[1..], rest, d + 1, m);
    CoverSame(v, m.strict);
    NotPattern(v, m.strict);
    PairStep(Assign(Plain, t, v), ts, rest1, rest, d, m);
    PatternReads(e, ts, rest, d, m);
  }

  /** The tokens of a target with a default: the target's, the sign, the default's. */
  lemma PatternTokens(e: Expr, ts: seq<Token>, rest: seq<Token>, strict: bool)
    requires Readable(e, strict) && e.AssignPattern? && ts == Print(e) + rest
    ensures var rest1 := [T(AssignWith(Plain))] + (Print(e.default) + rest);
      && ts == Print(e.target) + rest1 && rest1[1..] == Print(e.default) + rest && !ArrowNext(rest1)
      && Wf(Assign(Plain, e.target, e.default), strict) && Wf(e.default, strict) && !e.default.Hole? && !e.target.Hole?
  {
    var rest1 := [T(AssignWith(Plain))] + (Print(e.default) + rest);
    assert ts == Print(e.target) + rest1;
    assert rest1[1..] == Print(e.default) + rest;
    ReadableIs(e, strict);
  }

  lemma PatternReads(e: Expr, ts: seq<Token>, rest: seq<Token>, d: nat, m: Mode)
    requires e.AssignPattern? && InsideReads(Assign(Plain, e.target, e.default), ts, rest, d, m)
    ensures ParseAssign(ts, d, m) == if d + NeedAssign(e) <= MAX_DEPTH then Ok(Cover(e), false, rest) else Fail(TooDeep)
  {
    hide ParseAssign;
  }

  lemma {:induction false} MemberRound(e: Expr, ts: seq<Token>, rest: seq<Token>, d: nat, m: Mode)
    requires Readable(e, m.strict) && !e.AssignPattern? && !e.Hole? && ts == Print(e) + rest && !ArrowNext(rest)
    ensures Reads(e, ts, rest, d, m)
    decreases e, 3
  {
    hide Reads, Print;
    ReadableIs(e, m.strict);
    hide Wf, WfElement;
    if e.ArrayLit? || e.ArrayPattern? { ArrayRound(e, ts, rest, d, m); }
    else if e.Call? { CallRound(e, ts, rest, d, m); }
    else if e.Member? { DotRound(e, ts, rest, d, m); }
    else if e.Index? { IndexRound(e, ts, rest, d, m); }
    else if e.Sequence? { SequenceRound(e, ts, rest, d, m); }
    else if Syntax.Parenthesised(e) { WrappedRound(e, ts, rest, d, m); }
    else { AtomRound(e, ts, rest, d, m); }
  }

  /** One token. */
  lemma AtomRound(e: Expr, ts: seq<Token>, rest: seq<Token>, d: nat, m: Mode)
    requires e.Id? || e.Constant? || e.ThisExpr? || e.BoolLit? || e.NullLit? || e.SuperExpr?
    requires ts == Print(e) + rest
    ensures Reads(e, ts, rest, d, m)
  {
    assert ts[1..] == rest && Cover(e) == e && Need(e) == 2;
    if d >= MAX_DEPTH { Deep(ts, d, m, 0, true); return; }
    MemberIs(ts, true, d, m);
    if d + 1 >= MAX_DEPTH { Deep(ts, d + 1, m, 0, true); return; }
    assert ParsePrimary(ts, d + 1, m) == Ok(e, false, rest);
    hide MemberLoop, ParseMember, ParsePrimary;
  }

  /** What stands in parentheses, from what the list between them is. */
  lemma ParenStep(e: Expr, ts: seq<Token>, need: nat, rest: seq<Token>, d: nat, m: Mode)
    requires Peek(ts).LParen? && !ArrowNext(rest) && need >= 1
    requires Items([], ts[1..], d + 2, m.(noIn := false)) == if d + 2 + need <= MAX_DEPTH then OkList(if e.Sequence? then e.exprs else [e], false, rest) else FailList(TooDeep)
    requires e.Sequence? ==> |e.exprs| >= 2
    ensures ParseMember(ts, true, d, m) == if d + 2 + need <= MAX_DEPTH then MemberLoop(e, true, rest, true, d + 1, m) else Fail(TooDeep)
  {
    hide ParseAssign, ParseConditional, ParseBinary, BinaryLoop, ParseUnary, ParsePostfix, ParseMember, MemberLoop,
         ParseNew, ParsePrimary, Items, Elements;
    if d >= MAX_DEPTH { Deep(ts, d, m, 0, true); return; }
    MemberIs(ts, true, d, m);
    if d + 1 >= MAX_DEPTH { Deep(ts, d + 1, m, 0, true); return; }
    PrimaryIs(ts, d + 1, m);
  }

  lemma {:induction false} ArrayRound(e: Expr, ts: seq<Token>, rest: seq<Token>, d: nat, m: Mode)
    requires (e.ArrayLit? || e.ArrayPattern?) && AllReadable(e.elements, m.strict) && Readable(e, m.strict) && ts == Print(e) + rest
    ensures Reads(e, ts, rest, d, m)
    decreases e, 0
  {
    hide ParseAssign, ParseConditional, ParseBinary, BinaryLoop, ParseUnary, ParsePostfix, ParseMember, MemberLoop,
         ParseNew, ParsePrimary, Items, Elements;
    var es, m0 := e.elements, m.(noIn := false);
    assert ts == [T(LBracket)] + (PrintElements(es) + ([T(RBracket)] + rest));
    assert ts[1..] == PrintElements(es) + ([T(RBracket)] + rest);
    if e.ArrayLit? { ArrayCover(e, m.strict); }
    assert [] + CoverAll(es) == CoverAll(es);
    assert Cover(e) == ArrayLit(CoverAll(es)) && Need(e) == 2 + NeedAll(es);
    if d >= MAX_DEPTH { Deep(ts, d, m, 0, true); return; }
    MemberIs(ts, true, d, m);
    if d + 1 >= MAX_DEPTH { Deep(ts, d + 1, m, 0, true); return; }
    PrimaryIs(ts, d + 1, m);
    ElementsRound(es, [], ts[1..], rest, d + 2, m0);
    hide PrintElements, NeedAll, CoverAll, Readable;
  }

  lemma ArrayCover(e: Expr, strict: bool)
    requires e.ArrayLit? && Readable(e, strict)
    ensures CoverAll(e.elements) == e.elements
  {
    ReadableIs(e, strict);
    CoverAllSame(e.elements, strict);
  }

  lemma {:induction false} WrappedRound(e: Expr, ts: seq<Token>, rest: seq<Token>, d: nat, m: Mode)
    requires Wf(e, m.strict) && Syntax.Parenthesised(e) && !e.Sequence? && ts == Print(e) + rest && !ArrowNext(rest)
    ensures Reads(e, ts, rest, d, m)
    decreases e, 2
  {
    hide ParseAssign, ParseConditional, ParseBinary, BinaryLoop, ParseUnary, ParsePostfix, ParseMember, MemberLoop,
         ParseNew, ParsePrimary, Items, Elements, Inside, Wf;
    var rest1, m0 := [T(RParen)] + rest, m.(noIn := false);
    assert ts == [T(LParen)] + (Inside(e) + rest1);
    assert ts[1..] == Inside(e) + rest1 && rest1[1..] == rest;
    InsideRound(e, ts[1..], rest1, d + 2, m0);
    InsideStarts(e, m.strict);
    assert Peek(ts[1..]) == Inside(e)[0].kind;
    ItemsIs([], ts[1..], d + 2, m0);
    assert [] + [e] == [e];
    CoverSame(e, m.strict);
    assert Need(e) == 2 + NeedInside(e) && NeedInside(e) >= 1;
    ParenStep(e, ts, NeedInside(e), rest, d, m);
  }

  lemma InsideStarts(e: Expr, strict: bool)
    requires Wf(e, strict) && Syntax.Parenthesised(e) && !e.Sequence?
    ensures Inside(e) != [] && !Inside(e)[0].kind.RParen? && !Inside(e)[0].kind.Ellipsis?
  {
    match e
    case Update(_, prefix, x) => if !prefix { PrintStarts(x, strict); }
    case Infix(_, l, _) => PrintStarts(l, strict);
    case Assign(_, t, _) => TargetReadable(e, strict); PrintStarts(t, strict);
    case Conditional(a, _, _) => PrintStarts(a, strict);
    case _ =>
  }

  lemma {:induction false} SequenceRound(e: Expr, ts: seq<Token>, rest: seq<Token>, d: nat, m: Mode)
    requires Wf(e, m.strict) && e.Sequence? && ts == Print(e) + rest && !ArrowNext(rest)
    ensures Reads(e, ts, rest, d, m)
    decreases e, 0
  {
    hide ParseAssign, ParseConditional, ParseBinary, BinaryLoop, ParseUnary, ParsePostfix, ParseMember, MemberLoop,
         ParseNew, ParsePrimary, Items, Elements;
    var es, m0 := e.exprs, m.(noIn := false);
    assert ts == [T(LParen)] + (PrintList(es) + ([T(RParen)] + rest));
    assert ts[1..] == PrintList(es) + ([T(RParen)] + rest);
    ItemsRound(es, [], ts[1..], rest, d + 2, m0);
    assert [] + es == es;
    WfNotHole(es[0], m.strict);
    assert NeedAll(es) >= 1;
    ParenStep(e, ts, NeedAll(es), rest, d, m);
    hide PrintList;
  }

  lemma {:induction false} CallRound(e: Expr, ts: seq<Token>, rest: seq<Token>, d: nat, m: Mode)
    requires Wf(e, m.strict) && e.Call? && ts == Print(e) + rest
    ensures Reads(e, ts, rest, d, m)
    decreases e, 0
  {
    hide Items, PrintList, NeedAll, ParseMember;
    var rest1 := [T(LParen)] + (PrintList(e.args) + ([T(RParen)] + rest));
    assert ts == Print(e.callee) + rest1;
    assert rest1[1..] == PrintList(e.args) + ([T(RParen)] + rest);
    MemberRound(e.callee, ts, rest1, d, m);
    CoverSame(e.callee, m.strict);
    NeedTwo(e.callee);
    ItemsRound(e.args, [], rest1[1..], rest, d + 1, m);
    NoArgs(e.args);
    assert [] + e.args == e.args;
    var r := MemberLoop(e.callee, Syntax.Parenthesised(e.callee), rest1, true, d + 1, m);
    hide Print, Wf;
  }

  lemma NoArgs(es: seq<Expr>)
    ensures es == [] ==> NeedAll(es) == 0
  {}

  lemma {:induction false} NeedTwo(e: Expr)
    ensures Need(e) >= 2
    decreases e
  {
    match e
    case Call(c, _) => NeedTwo(c);
    case Member(o, _) => NeedTwo(o);
    case Index(o, _) => NeedTwo(o);
    case _ =>
  }

  lemma {:induction false} IndexRound(e: Expr, ts: seq<Token>, rest: seq<Token>, d: nat, m: Mode)
    requires Wf(e, m.strict) && e.Index? && ts == Print(e) + rest
    ensures Reads(e, ts, rest, d, m)
    decreases e, 0
  {
    hide ParseAssign, ParseMember, NeedAssign;
    var rest2 := [T(RBracket)] + rest;
    var rest1 := [T(LBracket)] + (Print(e.index) + rest2);
    assert ts == Print(e.owner) + rest1;
    assert rest1[1..] == Print(e.index) + rest2 && rest2[1..] == rest;
    MemberRound(e.owner, ts, rest1, d, m);
    AssignRound(e.index, rest1[1..], rest2, d + 1, m);
    CoverSame(e.owner, m.strict);
    CoverSame(e.index, m.strict);
    var r := MemberLoop(e.owner, Syntax.Parenthesised(e.owner), rest1, true, d + 1, m);
    var i := ParseExpression(rest1[1..], d + 1, m);
    hide Print, Wf;
  }

  lemma {:induction false} DotRound(e: Expr, ts: seq<Token>, rest: seq<Token>, d: nat, m: Mode)
    requires Wf(e, m.strict) && e.Member? && ts == Print(e) + rest
    ensures Reads(e, ts, rest, d, m)
    decreases e, 0
  {
    hide ParseMember, NeedAssign;
    var (o, rest1) := (e.owner, [T(Dot), T(e.property)] + rest);
    assert rest1[1..] == [T(e.property)] + rest && rest1[2..] == rest;
    CoverSame(o, m.strict);
    var number := o.Constant? && o.l.Number?;
    if number {
      assert ts == Wrap(Print(o)) + rest1;
      NumberRound(o, ts, rest1, d, m);
    } else {
      assert ts == Print(o) + rest1;
      MemberRound(o, ts, rest1, d, m);
    }
    DotStep(o, number || Syntax.Parenthesised(o), rest1, d + 1, m);
    hide MemberLoop, Print, Wf;
  }

  lemma DotStep(e: Expr, paren: bool, ts: seq<Token>, d: nat, m: Mode)
    requires |ts| >= 2 && Peek(ts).Dot? && IsName(ts[1].kind)
    ensures MemberLoop(e, paren, ts, true, d, m) == MemberLoop(Member(e, ts[1].kind), false, ts[2..], true, d, m)
  {}

  /** A number before a dot, in the parentheses the printer gives it. */
  lemma NumberRound(o: Expr, ts: seq<Token>, rest: seq<Token>, d: nat, m: Mode)
    requires o.Constant? && ts == Wrap(Print(o)) + rest && !ArrowNext(rest)
    ensures ParseMember(ts, true, d, m) == if d + 2 + NeedAssign(o) <= MAX_DEPTH then MemberLoop(o, true, rest, true, d + 1, m) else Fail(TooDeep)
  {
    hide ParseAssign, ParseConditional, ParseBinary, BinaryLoop, ParseUnary, ParsePostfix, ParseMember, MemberLoop,
         ParseNew, ParsePrimary, Items, Elements;
    var rest1, m0 := [T(RParen)] + rest, m.(noIn := false);
    assert ts[1..] == Print(o) + rest1 && rest1[1..] == rest;
    AtomRound(o, ts[1..], rest1, d + 5, m0);
    AssignStep(o, ts[1..], rest1, d + 2, m0);
    OneItem(o, ts[1..], rest, d + 2, m0);
    ParenStep(o, ts, NeedAssign(o), rest, d, m);
    hide Reads;
  }

  // ---------- The theorem ----------

  /** Parsing the tokens of a printed expression gives the expression back, with the tokens after it left,
      exactly when its nesting fits the parser's bound; otherwise parsing fails on that bound and on nothing else. */
  lemma ParsePrint(e: Expr, rest: seq<Token>, d: nat, m: Mode)
    requires Wf(e, m.strict) && Closes(Peek(rest)) && !Peek(rest).Comma?
    ensures ParseExpression(Print(e) + rest, d, m)
      == if d + NeedAssign(e) <= MAX_DEPTH then Ok(e, Syntax.Parenthesised(e), rest) else Fail(TooDeep)
  {
    AssignRound(e, Print(e) + rest, rest, d, m);
    CoverSame(e, m.strict);
    hide ParseAssign;
  }

  /** So printing loses nothing: two expressions with the same tokens are the same. */
  lemma PrintInjective(e: Expr, f: Expr, strict: bool)
    requires Wf(e, strict) && Wf(f, strict) && Print(e) == Print(f) && NeedAssign(e) <= MAX_DEPTH
    ensures e == f
  {
    var m := Mode(false, strict);
    ParsePrint(e, [], 0, m);
    ParsePrint(f, [], 0, m);
  }
}
