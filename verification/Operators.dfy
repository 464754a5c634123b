/**
 What the operators come to, said about compiled runs and with the constructors of values
 alone: the interpreter and the machine share the functions that decide them, so the compiler
 theorem by itself would accept any other.
 */
module Operators {
  import opened Options
  import opened Values
  import opened Bytecode
  import opened Source
  import opened CodeGen
  import opened Simulation
  import opened CompilerCorrect
  import opened CaseLets

  /** A function with one return left open: what stands before and after it is arbitrary. */
  datatype Setting = Setting(params: seq<string>, before: seq<Stmt>, after: seq<Stmt>) {
    function Returning(e: Expr): Function { Function(params, before + [Return(Some(e))] + after) }
  }

  predicate Compiles(f: Function) { WfFunction(f) && Fits(Compile(f)) }

  /** Some allowance of gas lets the compiled function come to this outcome and these globals. */
  ghost predicate Ends(p: Prims, f: Function, args: seq<Value>, g: Globals, out: (Result, Globals)) {
    exists gas: nat :: EndsWithin(p, f, args, g, gas, out)
  }

  ghost predicate EndsWithin(p: Prims, f: Function, args: seq<Value>, g: Globals, gas: nat, out: (Result, Globals)) {
    RunGas(p, Compile(f), InitMachine(Compile(f), args, g), gas) == out && out.0 != GasExhausted
  }

  /** The comma expression: a for its effects, then b. */
  function Then(a: Expr, b: Expr): Expr { Sequence(a, [b]) }

  // ---------- The source run of a function with an open return ----------

  /** How the statements before the return end, and where. */
  function Reach(q: Prims, s: Setting, args: seq<Value>, g: Globals, fuel: nat): (Out, Env, nat) {
    var f := PlainFunction(s.Returning(NullLit));
    ExecList(q, PlainL(s.before), Env([BodyFrame(f, args)], g), fuel)
  }

  function Finish(q: Prims, e: Expr, at: (Out, Env, nat)): (Out, Globals) {
    if !at.0.Normal? then (at.0, at.1.globals)
    else var (r, env1) := Eval(q, e, at.1); (if r.Thr? then Exc(r.v) else Ret(r.v), env1.globals)
  }

  lemma {:induction false} PlainAppend(a: seq<Stmt>, b: seq<Stmt>)
    ensures PlainL(a + b) == PlainL(a) + PlainL(b)
  {
    if a == [] { assert a + b == b; } else { assert (a + b)[1..] == a[1..] + b; PlainAppend(a[1..], b); }
  }

  lemma NamesAppend(a: seq<Stmt>, b: seq<Stmt>)
    ensures VarNamesIn(a + b) == VarNamesIn(a) + VarNamesIn(b) && LexNames(a + b) == LexNames(a) + LexNames(b)
  {
    hide VarNamesIn, LexNames;
    VarsAppend(a, b);
    LetsAppend(a, b);
  }

  lemma {:induction false} VarsAppend(a: seq<Stmt>, b: seq<Stmt>)
    ensures VarNamesIn(a + b) == VarNamesIn(a) + VarNamesIn(b)
  {
    hide VarNames;
    if a == [] {
      assert a + b == b;
    } else {
      assert (a + b)[0] == a[0] && (a + b)[1..] == a[1..] + b;
      VarsAppend(a[1..], b);
    }
  }

  lemma {:induction false} LetsAppend(a: seq<Stmt>, b: seq<Stmt>)
    ensures LexNames(a + b) == LexNames(a) + LexNames(b)
  {
    hide DeclNames;
    if a == [] {
      assert a + b == b;
    } else {
      assert (a + b)[0] == a[0] && (a + b)[1..] == a[1..] + b;
      LetsAppend(a[1..], b);
    }
  }

  lemma {:induction false} ExecAppend(q: Prims, a: seq<Stmt>, b: seq<Stmt>, env: Env, fuel: nat)
    ensures var (o, env1, f) := ExecList(q, a, env, fuel);
            ExecList(q, a + b, env, fuel) == if o.Normal? then ExecList(q, b, env1, f) else (o, env1, f)
    decreases a
  {
    hide Exec;
    if a == [] {
      assert a + b == b;
    } else {
      assert (a + b)[0] == a[0] && (a + b)[1..] == a[1..] + b;
      var (o, env1, f) := Exec(q, a[0], env, fuel);
      if o.Normal? { ExecAppend(q, a[1..], b, env1, f); }
    }
  }

  /** The expression returned has no part in the function's outermost scope. */
  lemma SameScope(s: Setting, e: Expr, args: seq<Value>)
    ensures BodyFrame(PlainFunction(s.Returning(e)), args) == BodyFrame(PlainFunction(s.Returning(NullLit)), args)
    ensures PlainL(s.before + [Return(Some(e))] + s.after) == PlainL(s.before) + ([Return(Some(e))] + PlainL(s.after))
  {
    hide VarNamesIn, LexNames, PlainL, TdzFrame, ParamFrame;
    SplitNames(s.before, e, s.after);
    SplitNames(s.before, NullLit, s.after);
  }

  lemma SplitNames(before: seq<Stmt>, e: Expr, after: seq<Stmt>)
    ensures var body := PlainL(before + [Return(Some(e))] + after);
            && body == PlainL(before) + ([Return(Some(e))] + PlainL(after))
            && VarNamesIn(body) == VarNamesIn(PlainL(before)) + VarNamesIn(PlainL(after))
            && LexNames(body) == LexNames(PlainL(before)) + LexNames(PlainL(after))
  {
    hide VarNames, LexNames, PlainL, VarNamesIn;
    var here := [Return(Some(e))];
    PlainAppend(before + here, after);
    PlainAppend(before, here);
    ReturnNames(e);
    var (x, y) := (PlainL(before), PlainL(after));
    assert x + here + y == x + (here + y);
    NamesAppend(x, here + y);
    NamesAppend(here, y);
  }

  lemma ReturnNames(e: Expr)
    ensures var here := [Return(Some(e))]; PlainL(here) == here && VarNamesIn(here) == [] && LexNames(here) == []
  {}

  lemma RunReturning(q: Prims, s: Setting, e: Expr, args: seq<Value>, g: Globals, fuel: nat)
    ensures Run(q, PlainFunction(s.Returning(e)), args, g, fuel) == Finish(q, e, Reach(q, s, args, g, fuel))
  {
    hide PlainL, BodyFrame, Eval;
    SameScope(s, e, args);
    var at := Reach(q, s, args, g, fuel);
    var tail := [Return(Some(e))] + PlainL(s.after);
    ExecAppend(q, PlainL(s.before), tail, Env([BodyFrame(PlainFunction(s.Returning(NullLit)), args)], g), fuel);
    if at.0.Normal? { assert ExecList(q, tail, at.1, at.2) == Exec(q, tail[0], at.1, at.2); }
  }

  // ---------- From compiled runs to source runs and back ----------

  /** A compiled run that ended is the source run, from some fuel on. */
  lemma FromRun(p: Prims, s: Setting, e: Expr, args: seq<Value>, g: Globals, out: (Result, Globals)) returns (fuel: nat)
    requires Compiles(s.Returning(e)) && Ends(p, s.Returning(e), args, g, out)
    ensures forall k :: k >= fuel ==>
      var (o, g1) := Finish(Unconverted(p), e, Reach(Unconverted(p), s, args, g, k));
      (o.Ret? || o.Exc?) && out == (AsResult(o), g1)
  {
    hide Compile, RunGas, InitMachine, Run, Reach, Finish, WfFunction, Fits;
    var f := s.Returning(e);
    var gas: nat :| EndsWithin(p, f, args, g, gas, out);
    fuel := gas + 1;
    forall k | k >= fuel
      ensures var (o, g1) := Finish(Unconverted(p), e, Reach(Unconverted(p), s, args, g, k));
              (o.Ret? || o.Exc?) && out == (AsResult(o), g1)
    {
      RunIsPlain(p, f, args, g, gas, k);
      RunReturning(Unconverted(p), s, e, args, g, k);
    }
  }

  /** And a source run that ends is a compiled run. */
  lemma ToRun(p: Prims, s: Setting, e: Expr, args: seq<Value>, g: Globals, fuel: nat)
    requires Compiles(s.Returning(e)) && !Finish(Unconverted(p), e, Reach(Unconverted(p), s, args, g, fuel)).0.Spent?
    ensures var (o, g1) := Finish(Unconverted(p), e, Reach(Unconverted(p), s, args, g, fuel));
            (o.Ret? || o.Exc?) && Ends(p, s.Returning(e), args, g, (AsResult(o), g1))
  {
    hide Compile, RunGas, InitMachine, Run, Reach, Finish, WfFunction, Fits;
    var f := s.Returning(e);
    RunReturning(Unconverted(p), s, e, args, g, fuel);
    CaseLets.SameCode(f);
    PlainFunctionFine(f);
    var enough := SourceIsRun(p, PlainFunction(f), args, g, fuel);
    var (o, g1) := Run(Unconverted(p), PlainFunction(f), args, g, fuel);
    assert EndsWithin(p, f, args, g, enough + 1, (AsResult(o), g1));
  }

  /** The outcome of a compiled run does not depend on how much gas was left. */
  lemma OneOutcome(p: Prims, s: Setting, e: Expr, args: seq<Value>, g: Globals, out: (Result, Globals), out2: (Result, Globals))
    requires Compiles(s.Returning(e)) && Ends(p, s.Returning(e), args, g, out) && Ends(p, s.Returning(e), args, g, out2)
    ensures out == out2
  {
    hide Compiles, Ends, Reach, Finish;
    var k := FromRun(p, s, e, args, g, out);
    var k2 := FromRun(p, s, e, args, g, out2);
    var n := k + k2;
    assert n >= k && n >= k2;
    var _ := Finish(Unconverted(p), e, Reach(Unconverted(p), s, args, g, n));
  }

  // ---------- Laws of one expression in any environment ----------

  ghost predicate SameMeaning(q: Prims, a: Expr, b: Expr) { forall env: Env :: Eval(q, a, env) == Eval(q, b, env) }

  /** Expressions with one meaning can be exchanged in every function. */
  lemma Exchange(p: Prims, s: Setting, a: Expr, b: Expr, args: seq<Value>, g: Globals, out: (Result, Globals))
    requires SameMeaning(Unconverted(p), a, b) && Compiles(s.Returning(a)) && Compiles(s.Returning(b))
    ensures Ends(p, s.Returning(a), args, g, out) <==> Ends(p, s.Returning(b), args, g, out)
  {
    hide Compiles, Ends, Reach, Eval;
    if Ends(p, s.Returning(a), args, g, out) {
      var k := FromRun(p, s, a, args, g, out);
      ToRun(p, s, b, args, g, k);
    }
    if Ends(p, s.Returning(b), args, g, out) {
      var k := FromRun(p, s, b, args, g, out);
      ToRun(p, s, a, args, g, k);
    }
  }

  // ---------- The laws ----------

  /** The values that count as false: undefined, null, false, the zeros, the empty string, and of the doubles those
      without exponent and fraction and those that are NaN. */
  predicate Falsy(v: Value) {
    || v in {Undefined, Null, Bool(false), Int(0), BigInt(0), Str("")}
    || (v.Num? && var (exponent, fraction) := (v.bits / 0x10_0000_0000_0000 % 0x800, v.bits % 0x10_0000_0000_0000);
                  (exponent == 0 && fraction == 0) || (exponent == 0x7FF && fraction != 0))
  }

  predicate Holds(v: Value) { !Falsy(v) }

  lemma HoldsIs(v: Value)
    ensures Holds(v) <==> Truthy(v)
  {
    if v.Num? {
      var (high, fraction) := (v.bits / 0x10_0000_0000_0000, v.bits % 0x10_0000_0000_0000);
      var exponent := high % 0x800;
      assert v.bits % 0x8000_0000_0000_0000 == exponent * 0x10_0000_0000_0000 + fraction;
    }
  }

  /** Whether a logical operator goes on to its right operand after a left one of value v. */
  predicate TakesRight(op: LogicalOp, v: Value) {
    match op
    case AndAlso => Holds(v)
    case OrElse => !Holds(v)
    case Coalesce => v.Undefined? || v.Null?
  }

  /** A logical operator comes to what `a, b` comes to when it takes its right operand, and otherwise to what a comes
      to: the same outcome and the same globals, so b has not been evaluated. */
  lemma LogicalIs(p: Prims, s: Setting, op: LogicalOp, a: Expr, b: Expr, args: seq<Value>, g: Globals,
                  outA: (Result, Globals), outAB: (Result, Globals))
    requires Compiles(s.Returning(Logical(op, a, b))) && Compiles(s.Returning(a)) && Compiles(s.Returning(Then(a, b)))
    requires Ends(p, s.Returning(a), args, g, outA) && Ends(p, s.Returning(Then(a, b)), args, g, outAB)
    ensures Ends(p, s.Returning(Logical(op, a, b)), args, g,
                 if outA.0.Returned? && TakesRight(op, outA.0.v) then outAB else outA)
  {
    hide Compiles, Ends, Reach, Eval;
    var q := Unconverted(p);
    var k := FromRun(p, s, a, args, g, outA);
    var k2 := FromRun(p, s, Then(a, b), args, g, outAB);
    var n := k + k2;
    assert n >= k && n >= k2;
    var at := Reach(q, s, args, g, n);
    EvalThen(q, a, b, at.1);
    EvalLogical(q, op, a, b, at.1);
    ToRun(p, s, Logical(op, a, b), args, g, n);
  }

  lemma EvalLogical(q: Prims, op: LogicalOp, a: Expr, b: Expr, env: Env)
    ensures var (r, env1) := Eval(q, a, env);
            Eval(q, Logical(op, a, b), env) ==
            if r.Val? && TakesRight(op, r.v) then Eval(q, b, env1) else (r, env1)
  {
    hide Holds, Truthy;
    var (r, _) := Eval(q, a, env);
    if r.Val? { HoldsIs(r.v); }
  }

  /** a ?? b comes to what `a, b` comes to when a is undefined or null, and to what a comes to otherwise. */
  lemma CoalesceIs(p: Prims, s: Setting, a: Expr, b: Expr, args: seq<Value>, g: Globals,
                   outA: (Result, Globals), outAB: (Result, Globals))
    requires Compiles(s.Returning(Logical(Coalesce, a, b))) && Compiles(s.Returning(a)) && Compiles(s.Returning(Then(a, b)))
    requires Ends(p, s.Returning(a), args, g, outA) && Ends(p, s.Returning(Then(a, b)), args, g, outAB)
    ensures outA.0 == Returned(Undefined) || outA.0 == Returned(Null) ==>
      Ends(p, s.Returning(Logical(Coalesce, a, b)), args, g, outAB)
    ensures outA.0 != Returned(Undefined) && outA.0 != Returned(Null) ==>
      Ends(p, s.Returning(Logical(Coalesce, a, b)), args, g, outA)
  {
    hide Compiles, Ends;
    LogicalIs(p, s, Coalesce, a, b, args, g, outA, outAB);
  }

  lemma EvalThen(q: Prims, a: Expr, b: Expr, env: Env)
    ensures var (r, env1) := Eval(q, a, env);
            Eval(q, Then(a, b), env) == if r.Thr? then (r, env1) else Eval(q, b, env1)
  {
    var (r, env1) := Eval(q, a, env);
    if r.Val? { assert EvalRest(q, r.v, [b], env1) == Eval(q, b, env1); }
  }

  /** t ? a : b comes to what `t, a` comes to when t counts as true, to what `t, b` comes to when it does not, and
      throws with t. */
  lemma CondIs(p: Prims, s: Setting, t: Expr, a: Expr, b: Expr, args: seq<Value>, g: Globals,
               outT: (Result, Globals), outA: (Result, Globals), outB: (Result, Globals))
    requires Compiles(s.Returning(Cond(t, a, b))) && Compiles(s.Returning(t))
    requires Compiles(s.Returning(Then(t, a))) && Compiles(s.Returning(Then(t, b)))
    requires Ends(p, s.Returning(t), args, g, outT)
    requires Ends(p, s.Returning(Then(t, a)), args, g, outA) && Ends(p, s.Returning(Then(t, b)), args, g, outB)
    ensures Ends(p, s.Returning(Cond(t, a, b)), args, g,
                 if outT.0.Returned? && Holds(outT.0.v) then outA else if outT.0.Returned? then outB else outT)
  {
    hide Compiles, Ends, Reach, Eval;
    var q := Unconverted(p);
    var k := FromRun(p, s, t, args, g, outT);
    var k2 := FromRun(p, s, Then(t, a), args, g, outA);
    var k3 := FromRun(p, s, Then(t, b), args, g, outB);
    var n := k + k2 + k3;
    assert n >= k && n >= k2 && n >= k3;
    var at := Reach(q, s, args, g, n);
    EvalThen(q, t, a, at.1);
    EvalThen(q, t, b, at.1);
    EvalCond(q, t, a, b, at.1);
    ToRun(p, s, Cond(t, a, b), args, g, n);
  }

  lemma EvalCond(q: Prims, t: Expr, a: Expr, b: Expr, env: Env)
    ensures var (r, env1) := Eval(q, t, env);
            Eval(q, Cond(t, a, b), env) ==
            if r.Thr? then (r, env1) else if Holds(r.v) then Eval(q, a, env1) else Eval(q, b, env1)
  {
    hide Holds, Truthy;
    var (r, _) := Eval(q, t, env);
    if r.Val? { HoldsIs(r.v); }
  }

  /** e1 and e2 can stand for each other in every function. */
  ghost predicate Alike(p: Prims, s: Setting, e1: Expr, e2: Expr, args: seq<Value>, g: Globals) {
    Compiles(s.Returning(e1)) && Compiles(s.Returning(e2)) ==>
      forall out :: Ends(p, s.Returning(e1), args, g, out) <==> Ends(p, s.Returning(e2), args, g, out)
  }

  lemma Exchanged(p: Prims, s: Setting, e1: Expr, e2: Expr, args: seq<Value>, g: Globals)
    requires SameMeaning(Unconverted(p), e1, e2)
    ensures Alike(p, s, e1, e2, args, g)
  {
    hide Compiles, Ends, SameMeaning;
    if Compiles(s.Returning(e1)) && Compiles(s.Returning(e2)) {
      forall out
        ensures Ends(p, s.Returning(e1), args, g, out) <==> Ends(p, s.Returning(e2), args, g, out)
      {
        Exchange(p, s, e1, e2, args, g, out);
      }
    }
  }

  /** ! takes the other branch and gives a boolean; the unequal operators negate the equal ones; void gives
      undefined after its operand. */
  lemma NegationsAre(p: Prims, s: Setting, a: Expr, b: Expr, c: Expr, args: seq<Value>, g: Globals)
    ensures Alike(p, s, Cond(Unary(Not, a), b, c), Cond(a, c, b), args, g)
    ensures Alike(p, s, Unary(Not, a), Cond(a, BoolLit(false), BoolLit(true)), args, g)
    ensures Alike(p, s, Binary(StrictNe, a, b), Unary(Not, Binary(StrictEq, a, b)), args, g)
    ensures Alike(p, s, Binary(Ne, a, b), Unary(Not, Binary(Eq, a, b)), args, g)
    ensures Alike(p, s, Unary(Void, a), Then(a, Ident("undefined")), args, g)
  {
    hide Alike;
    var q := Unconverted(p);
    NegationsEval(q, a, b, c);
    Exchanged(p, s, Cond(Unary(Not, a), b, c), Cond(a, c, b), args, g);
    Exchanged(p, s, Unary(Not, a), Cond(a, BoolLit(false), BoolLit(true)), args, g);
    Exchanged(p, s, Binary(StrictNe, a, b), Unary(Not, Binary(StrictEq, a, b)), args, g);
    Exchanged(p, s, Binary(Ne, a, b), Unary(Not, Binary(Eq, a, b)), args, g);
    Exchanged(p, s, Unary(Void, a), Then(a, Ident("undefined")), args, g);
  }

  lemma NegationsEval(q: Prims, a: Expr, b: Expr, c: Expr)
    ensures SameMeaning(q, Cond(Unary(Not, a), b, c), Cond(a, c, b))
    ensures SameMeaning(q, Unary(Not, a), Cond(a, BoolLit(false), BoolLit(true)))
    ensures SameMeaning(q, Binary(StrictNe, a, b), Unary(Not, Binary(StrictEq, a, b)))
    ensures SameMeaning(q, Binary(Ne, a, b), Unary(Not, Binary(Eq, a, b)))
    ensures SameMeaning(q, Unary(Void, a), Then(a, Ident("undefined")))
  {
    hide Eval;
    forall env: Env ensures Eval(q, Unary(Void, a), env) == Eval(q, Then(a, Ident("undefined")), env) { EvalVoid(q, a, env); }
    forall env: Env ensures Eval(q, Cond(Unary(Not, a), b, c), env) == Eval(q, Cond(a, c, b), env) {
      EvalNot(q, a, env);
      EvalCond(q, a, c, b, env);
      EvalCond(q, Unary(Not, a), b, c, env);
    }
    forall env: Env ensures Eval(q, Unary(Not, a), env) == Eval(q, Cond(a, BoolLit(false), BoolLit(true)), env) {
      EvalNot(q, a, env);
      EvalCond(q, a, BoolLit(false), BoolLit(true), env);
      EvalBool(q, Eval(q, a, env).1);
    }
    forall env: Env ensures Eval(q, Binary(StrictNe, a, b), env) == Eval(q, Unary(Not, Binary(StrictEq, a, b)), env) {
      EvalNot(q, Binary(StrictEq, a, b), env);
      EvalBinary(q, StrictNe, a, b, env);
      EvalBinary(q, StrictEq, a, b, env);
    }
    forall env: Env ensures Eval(q, Binary(Ne, a, b), env) == Eval(q, Unary(Not, Binary(Eq, a, b)), env) {
      EvalNot(q, Binary(Eq, a, b), env);
      EvalBinary(q, Ne, a, b, env);
      EvalBinary(q, Eq, a, b, env);
    }
  }

  lemma EvalBool(q: Prims, env: Env)
    ensures forall b :: Eval(q, BoolLit(b), env) == (Val(Bool(b)), env)
  {}

  lemma EvalVoid(q: Prims, a: Expr, env: Env)
    ensures Eval(q, Unary(Void, a), env) == Eval(q, Then(a, Ident("undefined")), env)
  {
    EvalThen(q, a, Ident("undefined"), env);
  }

  lemma EvalNot(q: Prims, a: Expr, env: Env)
    ensures var (r, env1) := Eval(q, a, env);
            Eval(q, Unary(Not, a), env) == (if r.Thr? then r else Val(Bool(!Holds(r.v))), env1)
  {
    hide Holds, Truthy;
    var (r, _) := Eval(q, a, env);
    if r.Val? { HoldsIs(r.v); }
  }

  /** What a binary operator gives for the values of its operands. */
  function Applied(p: Prims, op: BinOp, a: Value, b: Value): Res {
    if op.Eq? then Val(Bool(p.looseEq(a, b)))
    else if op.Ne? then Val(Bool(if p.looseEq(a, b) then false else true))
    else if op.StrictEq? then Val(Bool(p.strictEq(a, b)))
    else if op.StrictNe? then Val(Bool(if p.strictEq(a, b) then false else true))
    else p.arith(op, a, b)
  }

  lemma EvalBinary(q: Prims, op: BinOp, a: Expr, b: Expr, env: Env)
    ensures var (ra, env1) := Eval(q, a, env); var (rb, env2) := Eval(q, b, env1);
            Eval(q, Binary(op, a, b), env) ==
            if ra.Thr? then (ra, env1) else if rb.Thr? then (rb, env2) else (Applied(q, op, ra.v, rb.v), env2)
  {}

  function Outcome(r: Res): Result { match r case Val(v) => Returned(v) case Thr(v) => Thrown(v) }

  /** The statements before the return end normally, with globals g0: what is returned there is the outcome. */
  ghost predicate Reached(p: Prims, s: Setting, args: seq<Value>, g: Globals, g0: Globals) {
    && Ends(p, s.Returning(BoolLit(true)), args, g, (Returned(Bool(true)), g0))
    && Ends(p, s.Returning(BoolLit(false)), args, g, (Returned(Bool(false)), g0))
  }

  lemma ReachedNormal(p: Prims, s: Setting, args: seq<Value>, g: Globals, g0: Globals) returns (fuel: nat)
    requires Compiles(s.Returning(BoolLit(true))) && Compiles(s.Returning(BoolLit(false))) && Reached(p, s, args, g, g0)
    ensures forall k :: k >= fuel ==>
      var at := Reach(Unconverted(p), s, args, g, k); at.0.Normal? && at.1.globals == g0
  {
    hide Compiles, Ends, Reach, Eval;
    var q := Unconverted(p);
    var k := FromRun(p, s, BoolLit(true), args, g, (Returned(Bool(true)), g0));
    var k2 := FromRun(p, s, BoolLit(false), args, g, (Returned(Bool(false)), g0));
    fuel := k + k2;
    forall n | n >= fuel
      ensures var at := Reach(q, s, args, g, n); at.0.Normal? && at.1.globals == g0
    {
      assert n >= k && n >= k2;
      EvalBool(q, Reach(q, s, args, g, n).1);
    }
  }

  /** The operands of a binary operator are evaluated in order and come to va and vb: the operator gives what its
      own primitive does with the two, or throws what that throws. */
  lemma BinaryIs(p: Prims, s: Setting, op: BinOp, a: Expr, b: Expr, args: seq<Value>, g: Globals, g0: Globals,
                 va: Value, g1: Globals, vb: Value, g2: Globals)
    requires Compiles(s.Returning(BoolLit(true))) && Compiles(s.Returning(BoolLit(false))) && Reached(p, s, args, g, g0)
    requires Compiles(s.Returning(Binary(op, a, b))) && Compiles(s.Returning(a)) && Compiles(s.Returning(Then(a, b)))
    requires Ends(p, s.Returning(a), args, g, (Returned(va), g1))
    requires Ends(p, s.Returning(Then(a, b)), args, g, (Returned(vb), g2))
    ensures Ends(p, s.Returning(Binary(op, a, b)), args, g, (Outcome(Applied(p, op, va, vb)), g2))
  {
    hide Compiles, Ends, Reach, Reached, Eval;
    var q := Unconverted(p);
    var k0 := ReachedNormal(p, s, args, g, g0);
    var k := FromRun(p, s, a, args, g, (Returned(va), g1));
    var k2 := FromRun(p, s, Then(a, b), args, g, (Returned(vb), g2));
    var n := k0 + k + k2;
    assert n >= k0 && n >= k && n >= k2;
    var at := Reach(q, s, args, g, n);
    EvalThen(q, a, b, at.1);
    EvalBinary(q, op, a, b, at.1);
    ToRun(p, s, Binary(op, a, b), args, g, n);
  }

  /** What a unary operator gives for the value of its operand. */
  function AppliedOne(p: Prims, op: UnOp, a: Value): Res {
    if op.Void? then Val(Undefined)
    else if op.Typeof? then Val(Str(p.typeOf(a)))
    else if op.Not? then Val(Bool(if Holds(a) then false else true))
    else p.numeric(op, a)
  }

  lemma UnaryIs(p: Prims, s: Setting, op: UnOp, a: Expr, args: seq<Value>, g: Globals, g0: Globals, va: Value, g1: Globals)
    requires Compiles(s.Returning(BoolLit(true))) && Compiles(s.Returning(BoolLit(false))) && Reached(p, s, args, g, g0)
    requires Compiles(s.Returning(Unary(op, a))) && Compiles(s.Returning(a)) && !(op.Typeof? && a.Ident?)
    requires Ends(p, s.Returning(a), args, g, (Returned(va), g1))
    ensures Ends(p, s.Returning(Unary(op, a)), args, g, (Outcome(AppliedOne(p, op, va)), g1))
  {
    hide Compiles, Ends, Reach, Reached, Eval;
    var q := Unconverted(p);
    var k0 := ReachedNormal(p, s, args, g, g0);
    var k := FromRun(p, s, a, args, g, (Returned(va), g1));
    var n := k0 + k;
    assert n >= k0 && n >= k;
    EvalUnary(q, op, a, Reach(q, s, args, g, n).1);
    ToRun(p, s, Unary(op, a), args, g, n);
  }

  lemma EvalUnary(q: Prims, op: UnOp, a: Expr, env: Env)
    requires !(op.Typeof? && a.Ident?)
    ensures var (r, env1) := Eval(q, a, env);
            Eval(q, Unary(op, a), env) == (if r.Thr? then r else AppliedOne(q, op, r.v), env1)
  {
    hide Holds, Truthy;
    var (r, _) := Eval(q, a, env);
    if r.Val? { HoldsIs(r.v); }
  }

  // ---------- Names keep their scopes ----------

  /** The same scopes with the same names in each. */
  predicate SameNames(a: Env, b: Env) {
    |a.frames| == |b.frames| && forall i :: 0 <= i < |a.frames| ==> a.frames[i].Keys == b.frames[i].Keys
  }

  lemma {:induction false} FindSame(a: Env, b: Env, x: string)
    requires SameNames(a, b)
    ensures Find(a.frames, x) == Find(b.frames, x)
    decreases |a.frames|
  {
    if a.frames != [] { FindSame(Pop(a), Pop(b), x); }
  }

  lemma StoreNames(q: Prims, env: Env, x: string, v: Value)
    ensures SameNames(env, Store(q, env, x, v).1)
  {}

  lemma {:induction false} EvalNames(q: Prims, e: Expr, env: Env)
    ensures SameNames(env, Eval(q, e, env).1)
    decreases e, 0
  {
    hide Store, Load, Find;
    match e {
      case Unary(op, a) => EvalNames(q, a, env);
      case Update(x, delta, _) =>
        var was := Load(env, x);
        if was.Val? && q.Operand(was.v).Val? && q.Count(q.Operand(was.v).v, delta).Val? {
          StoreNames(q, env, x, q.Count(q.Operand(was.v).v, delta).v);
        }
      case Binary(_, a, b) =>
        EvalNames(q, a, env);
        EvalNames(q, b, Eval(q, a, env).1);
      case Logical(_, a, b) =>
        EvalNames(q, a, env);
        EvalNames(q, b, Eval(q, a, env).1);
      case Cond(t, a, b) =>
        EvalNames(q, t, env);
        EvalNames(q, a, Eval(q, t, env).1);
        EvalNames(q, b, Eval(q, t, env).1);
      case Assign(x, a) =>
        EvalNames(q, a, env);
        var (r, env1) := Eval(q, a, env);
        if r.Val? { StoreNames(q, env1, x, r.v); }
      case AssignOp(op, x, a) =>
        EvalNames(q, a, env);
        var (r, env1) := Eval(q, a, env);
        var was := Load(env, x);
        if was.Val? && r.Val? && q.Binary(op, was.v, r.v).Val? { StoreNames(q, env1, x, q.Binary(op, was.v, r.v).v); }
      case Sequence(a, rest) =>
        EvalNames(q, a, env);
        var (r, env1) := Eval(q, a, env);
        if r.Val? { EvalRestNames(q, r.v, rest, env1); }
      case _ =>
    }
  }

  lemma {:induction false} EvalRestNames(q: Prims, v: Value, rest: seq<Expr>, env: Env)
    ensures SameNames(env, EvalRest(q, v, rest, env).1)
    decreases rest, 1
  {
    hide Eval;
    if rest != [] {
      EvalNames(q, rest[0], env);
      var (r, env1) := Eval(q, rest[0], env);
      if r.Val? { EvalRestNames(q, r.v, rest[1..], env1); }
    }
  }

  lemma SameTwice(a: Env, b: Env, c: Env)
    requires SameNames(a, b) && SameNames(b, c)
    ensures SameNames(a, c)
  {}

  /** A scope opened and closed again leaves the scopes around it. */
  lemma Popped(env: Env, frame: Frame, env1: Env)
    requires SameNames(env.(frames := env.frames + [frame]), env1)
    ensures SameNames(env, Pop(env1))
  {
    assert forall i :: 0 <= i < |env.frames| ==> env.frames[i] == (env.frames + [frame])[i];
  }

  lemma {:induction false} DeclNamesKept(q: Prims, isLet: bool, ds: seq<Decl>, env: Env)
    ensures SameNames(env, ExecDecls(q, isLet, ds, env).1)
  {
    hide Eval, Store, SameNames;
    if ds == [] {
      Same(env);
    } else if ds[0].init.None? && !isLet {
      DeclNamesKept(q, isLet, ds[1..], env);
    } else {
      Same(env);
      if ds[0].init.Some? { EvalNames(q, ds[0].init.value, env); }
      var (r, env1) := if ds[0].init.Some? then Eval(q, ds[0].init.value, env) else (Val(Undefined), env);
      if r.Val? {
        StoreNames(q, env1, ds[0].name, r.v);
        var (r2, env2) := Store(q, env1, ds[0].name, r.v);
        SameTwice(env, env1, env2);
        if r2.Val? {
          DeclNamesKept(q, isLet, ds[1..], env2);
          SameTwice(env, env2, ExecDecls(q, isLet, ds[1..], env2).1);
        }
      }
    }
  }

  lemma Same(env: Env)
    ensures SameNames(env, env)
  {}

  lemma {:induction false} SelectNames(q: Prims, d: Value, cases: seq<Case>, i: nat, default: nat, env: Env)
    requires i <= |cases| && default <= |cases|
    ensures SameNames(env, Select(q, d, cases, i, default, env).2)
    decreases |cases| - i
  {
    hide Eval, SameNames;
    Same(env);
    if i < |cases| {
      if cases[i].test.None? {
        SelectNames(q, d, cases, i + 1, i, env);
      } else {
        EvalNames(q, cases[i].test.value, env);
        var (r, env1) := Eval(q, cases[i].test.value, env);
        if r.Val? && !q.strictEq(d, r.v) {
          SelectNames(q, d, cases, i + 1, default, env1);
          SameTwice(env, env1, Select(q, d, cases, i + 1, default, env1).2);
        }
      }
    }
  }

  lemma OptNames(q: Prims, e: Option<Expr>, default: Value, env: Env)
    ensures SameNames(env, EvalOpt(q, e, default, env).1)
  {
    hide Eval;
    if e.Some? { EvalNames(q, e.value, env); }
  }

  lemma InitNamesKept(q: Prims, init: ForInit, env: Env)
    ensures SameNames(env, ExecInit(q, init, env).1)
  {
    hide Eval, ExecDecls;
    match init {
      case NoInit =>
      case InitExpr(e) => EvalNames(q, e, env);
      case InitDecl(isLet, ds) => DeclNamesKept(q, isLet, ds, env);
    }
  }

  /** A statement ends, however it ends, in the scopes it began in. */
  lemma {:induction false} ExecNames(q: Prims, st: Stmt, env: Env, fuel: nat)
    ensures SameNames(env, Exec(q, st, env, fuel).1)
    decreases fuel, st, 4
  {
    hide Eval, EvalOpt, ExecDecls, ExecInit, SameNames, ExecWhile, ExecDo, ExecFor, ExecSwitch, ExecList, TdzFrame, Pop;
    Same(env);
    match st {
      case ExprStmt(e) => EvalNames(q, e, env);
      case VarDecl(isLet, ds) => DeclNamesKept(q, isLet, ds, env);
      case Block(body) =>
        var inner := env.(frames := env.frames + [TdzFrame(LexNames(body))]);
        ExecListNames(q, body, inner, fuel);
        Popped(env, TdzFrame(LexNames(body)), ExecList(q, body, inner, fuel).1);
      case If(t, a, b) =>
        EvalNames(q, t, env);
        var (r, env1) := Eval(q, t, env);
        if r.Val? && Truthy(r.v) {
          ExecNames(q, a, env1, fuel);
          SameTwice(env, env1, Exec(q, a, env1, fuel).1);
        } else if r.Val? && b.Some? {
          ExecNames(q, b.value, env1, fuel);
          SameTwice(env, env1, Exec(q, b.value, env1, fuel).1);
        }
      case While(_, _, _) => WhileNames(q, st, env, fuel);
      case DoWhile(_, _, _) => DoNames(q, st, env, fuel);
      case For(_, _, _, _, _) => ForAllNames(q, st, env, fuel);
      case Switch(_, _, _) => SwitchNames(q, st, env, fuel);
      case Return(a) => OptNames(q, a, Undefined, env);
      case Throw(e) => EvalNames(q, e, env);
      case _ =>
    }
  }

  lemma {:induction false} ForAllNames(q: Prims, st: Stmt, env: Env, fuel: nat)
    requires st.For?
    ensures SameNames(env, Exec(q, st, env, fuel).1)
    decreases fuel, st, 3
  {
    hide ExecInit, SameNames, ExecFor, TdzFrame, Pop;
    var frame := TdzFrame(InitNames(st.init));
    var scoped := st.init.InitDecl? && st.init.isLet;
    var env0 := if scoped then env.(frames := env.frames + [frame]) else env;
    InitNamesKept(q, st.init, env0);
    var (o, env1) := ExecInit(q, st.init, env0);
    if o.Normal? {
      ForNames(q, st, env1, fuel);
      SameTwice(env0, env1, ExecFor(q, st, env1, fuel).1);
      if scoped { Popped(env, frame, ExecFor(q, st, env1, fuel).1); }
    } else if scoped {
      Popped(env, frame, env1);
    }
  }

  lemma {:induction false} SwitchNames(q: Prims, st: Stmt, env: Env, fuel: nat)
    requires st.Switch?
    ensures SameNames(env, Exec(q, st, env, fuel).1)
    decreases fuel, st, 3
  {
    hide Eval, SameNames, ExecSwitch, TdzFrame, Pop;
    EvalNames(q, st.disc, env);
    var (r, env1) := Eval(q, st.disc, env);
    if r.Val? {
      if CaseNames(st.cases) == [] {
        ExecSwitchNames(q, st, r.v, env1, fuel);
        SameTwice(env, env1, ExecSwitch(q, st, r.v, env1, fuel).1);
      } else {
        var frame := TdzFrame(CaseNames(st.cases));
        var inner := env1.(frames := env1.frames + [frame]);
        ExecSwitchNames(q, st, r.v, inner, fuel);
        Popped(env1, frame, ExecSwitch(q, st, r.v, inner, fuel).1);
        SameTwice(env, env1, Pop(ExecSwitch(q, st, r.v, inner, fuel).1));
      }
    }
  }

  lemma {:induction false} ExecSwitchNames(q: Prims, st: Stmt, d: Value, env: Env, fuel: nat)
    requires st.Switch?
    ensures SameNames(env, ExecSwitch(q, st, d, env, fuel).1)
    decreases fuel, st, 2
  {
    hide Select, SameNames, ExecCases;
    SelectNames(q, d, st.cases, 0, |st.cases|, env);
    var (r, i, env1) := Select(q, d, st.cases, 0, |st.cases|, env);
    if r.Val? {
      ExecCasesNames(q, st.cases[i..], env1, fuel);
      SameTwice(env, env1, ExecCases(q, st.cases[i..], env1, fuel).1);
    }
  }

  lemma {:induction false} ExecListNames(q: Prims, body: seq<Stmt>, env: Env, fuel: nat)
    ensures SameNames(env, ExecList(q, body, env, fuel).1)
    decreases fuel, body, 4
  {
    hide Exec, SameNames;
    Same(env);
    if body != [] {
      ExecNames(q, body[0], env, fuel);
      var (o, env1, f) := Exec(q, body[0], env, fuel);
      if o.Normal? {
        ExecListNames(q, body[1..], env1, f);
        SameTwice(env, env1, ExecList(q, body[1..], env1, f).1);
      }
    }
  }

  lemma {:induction false} ExecCasesNames(q: Prims, cases: seq<Case>, env: Env, fuel: nat)
    ensures SameNames(env, ExecCases(q, cases, env, fuel).1)
    decreases fuel, cases, 5
  {
    hide ExecList, SameNames;
    Same(env);
    if cases != [] {
      ExecListNames(q, cases[0].body, env, fuel);
      var (o, env1, f) := ExecList(q, cases[0].body, env, fuel);
      if o.Normal? {
        ExecCasesNames(q, cases[1..], env1, f);
        SameTwice(env, env1, ExecCases(q, cases[1..], env1, f).1);
      }
    }
  }

  lemma {:induction false} WhileNames(q: Prims, st: Stmt, env: Env, fuel: nat)
    requires st.While?
    ensures SameNames(env, ExecWhile(q, st, env, fuel).1)
    decreases fuel, st, 2
  {
    hide Eval, Exec, SameNames;
    EvalNames(q, st.test, env);
    var (r, env1) := Eval(q, st.test, env);
    if r.Val? && Truthy(r.v) {
      ExecNames(q, st.loop, env1, fuel);
      var (o, env2, f) := Exec(q, st.loop, env1, fuel);
      SameTwice(env, env1, env2);
      if GoesOn(o, st.lbl) && f > 0 {
        WhileNames(q, st, env2, f - 1);
        SameTwice(env, env2, ExecWhile(q, st, env2, f - 1).1);
      }
    }
  }

  lemma {:induction false} DoNames(q: Prims, st: Stmt, env: Env, fuel: nat)
    requires st.DoWhile?
    ensures SameNames(env, ExecDo(q, st, env, fuel).1)
    decreases fuel, st, 2
  {
    hide Eval, Exec, SameNames;
    ExecNames(q, st.loop, env, fuel);
    var (o, env1, f) := Exec(q, st.loop, env, fuel);
    if GoesOn(o, st.lbl) {
      EvalNames(q, st.test, env1);
      var (r, env2) := Eval(q, st.test, env1);
      SameTwice(env, env1, env2);
      if r.Val? && Truthy(r.v) && f > 0 {
        DoNames(q, st, env2, f - 1);
        SameTwice(env, env2, ExecDo(q, st, env2, f - 1).1);
      }
    }
  }

  lemma {:induction false} ForNames(q: Prims, st: Stmt, env: Env, fuel: nat)
    requires st.For?
    ensures SameNames(env, ExecFor(q, st, env, fuel).1)
    decreases fuel, st, 2
  {
    hide EvalOpt, Exec, SameNames;
    OptNames(q, st.cond, Bool(true), env);
    var (r, env1) := EvalOpt(q, st.cond, Bool(true), env);
    if r.Val? && !(st.cond.Some? && !Truthy(r.v)) {
      ExecNames(q, st.loop, env1, fuel);
      var (o, env2, f) := Exec(q, st.loop, env1, fuel);
      SameTwice(env, env1, env2);
      if GoesOn(o, st.lbl) {
        OptNames(q, st.update, Undefined, env2);
        var (u, env3) := EvalOpt(q, st.update, Undefined, env2);
        SameTwice(env, env2, env3);
        if u.Val? && f > 0 {
          ForNames(q, st, env3, f - 1);
          SameTwice(env, env3, ExecFor(q, st, env3, f - 1).1);
        }
      }
    }
  }

  // ---------- Globals ----------

  /** x is no parameter, var or let of the function: in it, x is a global. */
  predicate Global(s: Setting, x: string) {
    x !in s.params && x !in VarNamesIn(s.before + s.after) && x !in LexNames(s.before + s.after)
  }

  lemma GlobalNotFound(q: Prims, s: Setting, args: seq<Value>, g: Globals, fuel: nat, x: string)
    requires Global(s, x)
    ensures Find(Reach(q, s, args, g, fuel).1.frames, x) == -1
  {
    hide ExecList, SameNames, Find;
    var f := PlainFunction(s.Returning(NullLit));
    var env := Env([BodyFrame(f, args)], g);
    ExecListNames(q, PlainL(s.before), env, fuel);
    FindSame(env, Reach(q, s, args, g, fuel).1, x);
    NotInScope(s, args, x);
    FindOne(BodyFrame(f, args), x);
  }

  lemma FindOne(frame: Frame, x: string)
    requires x !in frame
    ensures Find([frame], x) == -1
  {
    assert [frame][..0] == [];
  }

  lemma NotInScope(s: Setting, args: seq<Value>, x: string)
    requires Global(s, x)
    ensures x !in BodyFrame(PlainFunction(s.Returning(NullLit)), args)
  {
    hide VarNamesIn, LexNames, PlainL, ParamFrame;
    SplitNames(s.before, NullLit, s.after);
    NamesAppend(s.before, s.after);
    PlainLex(s.before);
    PlainLex(s.after);
    PlainVarsL(s.before);
    PlainVarsL(s.after);
    ParamSlotsRight(s.params, args);
  }

  /** Reading a global that is bound gives its value, one not yet declared or not bound at all throws. */
  lemma GlobalReadIs(p: Prims, s: Setting, a: Expr, x: string, args: seq<Value>, g: Globals, g0: Globals, va: Value, g1: Globals)
    requires Compiles(s.Returning(BoolLit(true))) && Compiles(s.Returning(BoolLit(false))) && Reached(p, s, args, g, g0)
    requires Compiles(s.Returning(a)) && Compiles(s.Returning(Then(a, Ident(x)))) && Global(s, x)
    requires x != "undefined" && x != "\0tdz"
    requires Ends(p, s.Returning(a), args, g, (Returned(va), g1))
    ensures x !in g1 ==> Ends(p, s.Returning(Then(a, Ident(x))), args, g, (Thrown(ReferenceError(x)), g1))
    ensures x in g1 && g1[x] == Tdz ==> Ends(p, s.Returning(Then(a, Ident(x))), args, g, (Thrown(ReferenceError(x)), g1))
    ensures x in g1 && g1[x] != Tdz ==> Ends(p, s.Returning(Then(a, Ident(x))), args, g, (Returned(g1[x]), g1))
  {
    hide Compiles, Ends, Reach, Reached, Eval, Find, SameNames, Global;
    var q := Unconverted(p);
    var k0 := ReachedNormal(p, s, args, g, g0);
    var k := FromRun(p, s, a, args, g, (Returned(va), g1));
    var n := k0 + k;
    assert n >= k0 && n >= k;
    var at := Reach(q, s, args, g, n);
    EvalThen(q, a, Ident(x), at.1);
    GlobalNotFound(q, s, args, g, n, x);
    EvalNames(q, a, at.1);
    FindSame(at.1, Eval(q, a, at.1).1, x);
    EvalGlobal(q, x, Eval(q, a, at.1).1);
    ToRun(p, s, Then(a, Ident(x)), args, g, n);
  }

  lemma EvalGlobal(q: Prims, x: string, env: Env)
    requires Find(env.frames, x) == -1 && x != "undefined" && x != "\0tdz"
    ensures Eval(q, Ident(x), env) ==
      (if x in env.globals && env.globals[x] != Tdz then Val(env.globals[x]) else Thr(ReferenceError(x)), env)
  {}

  /** typeof a global that is not bound is typeof undefined; it does not throw. */
  lemma GlobalTypeofIs(p: Prims, s: Setting, x: string, args: seq<Value>, g: Globals, g0: Globals)
    requires Compiles(s.Returning(BoolLit(true))) && Compiles(s.Returning(BoolLit(false))) && Reached(p, s, args, g, g0)
    requires Compiles(s.Returning(Unary(Typeof, Ident(x)))) && Global(s, x) && x != "\0tdz"
    ensures Ends(p, s.Returning(Unary(Typeof, Ident(x))), args, g,
                 (Returned(Str(p.typeOf(if x in g0 then g0[x] else Undefined))), g0))
  {
    hide Compiles, Ends, Reach, Reached, Find, Global;
    var q := Unconverted(p);
    var n := ReachedNormal(p, s, args, g, g0);
    var at := Reach(q, s, args, g, n);
    GlobalNotFound(q, s, args, g, n, x);
    ToRun(p, s, Unary(Typeof, Ident(x)), args, g, n);
  }

  /** Assigning to a global stores the value and yields it, except where the global is not yet declared, or not bound
      in strict code: then it throws, and stores nothing. */
  lemma GlobalWriteIs(p: Prims, s: Setting, a: Expr, x: string, args: seq<Value>, g: Globals, g0: Globals, va: Value, g1: Globals)
    requires Compiles(s.Returning(BoolLit(true))) && Compiles(s.Returning(BoolLit(false))) && Reached(p, s, args, g, g0)
    requires Compiles(s.Returning(a)) && Compiles(s.Returning(Assign(x, a))) && Global(s, x) && x != "\0tdz"
    requires Ends(p, s.Returning(a), args, g, (Returned(va), g1))
    ensures Ends(p, s.Returning(Assign(x, a)), args, g,
                 if (x in g1 && g1[x] == Tdz) || (p.strict && x !in g1) then (Thrown(ReferenceError(x)), g1)
                 else (Returned(va), g1[x := va]))
  {
    hide Compiles, Ends, Reach, Reached, Eval, Find, SameNames, Global;
    var q := Unconverted(p);
    var k0 := ReachedNormal(p, s, args, g, g0);
    var k := FromRun(p, s, a, args, g, (Returned(va), g1));
    var n := k0 + k;
    assert n >= k0 && n >= k;
    var at := Reach(q, s, args, g, n);
    GlobalNotFound(q, s, args, g, n, x);
    EvalNames(q, a, at.1);
    FindSame(at.1, Eval(q, a, at.1).1, x);
    EvalAssign(q, x, a, at.1);
    ToRun(p, s, Assign(x, a), args, g, n);
  }

  lemma EvalAssign(q: Prims, x: string, a: Expr, env: Env)
    requires Find(Eval(q, a, env).1.frames, x) == -1 && x != "\0tdz" && Eval(q, a, env).0.Val?
    ensures var (r, env1) := Eval(q, a, env);
      Eval(q, Assign(x, a), env) ==
      if (x in env1.globals && env1.globals[x] == Tdz) || (q.strict && x !in env1.globals) then (Thr(ReferenceError(x)), env1)
      else (Val(r.v), env1.(globals := env1.globals[x := r.v]))
  {}
}
