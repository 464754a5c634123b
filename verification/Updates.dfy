/**
 `++` and `--`.  The language converts the operand to a number or a BigInt first, and adds one of the same
 type; the compiler adds the number 1 to it as it is.  The two agree on numbers, and a function means the
 same either way as long as no run of it counts anything else.
 */
module Updates {
  import opened Options
  import opened Values
  import opened Bytecode
  import opened Source
  import opened CodeGen
  import opened Simulation
  import opened StatementSim
  import opened CompilerCorrect

  // ---------- One update ----------

  /** It makes no difference to what v comes to, and to the value of the expression, that v is converted and
      counted in units of its type. */
  predicate Unaffected(p: Prims, v: Value, delta: int, prefix: bool) {
    var sum := p.Binary(Add, v, Int(delta));
    match p.Operand(v)
    case Thr(_) => sum == p.Operand(v)
    case Val(n) => p.Count(n, delta) == sum && (prefix || n == v || sum.Thr?)
  }

  /** What the compiled update does is what the language asks for exactly when that makes no difference. */
  lemma UpdateExact(p: Prims, x: string, delta: int, prefix: bool, env: Env)
    requires Load(env, x).Val?
    requires Find(env.frames, x) >= 0 || !WriteRefused(env.globals, x, p.strict)
    ensures Eval(Unconverted(p), Update(x, delta, prefix), env) == Eval(p, Update(x, delta, prefix), env)
            <==> Unaffected(p, Load(env, x).v, delta, prefix)
  {
    var v, q := Load(env, x).v, Unconverted(p);
    var sum := p.Binary(Add, v, Int(delta));
    assert q.Count(v, delta) == sum && q.Operand(v) == Val(v);
    if sum.Val? && p.Operand(v).Val? {
      var sum1 := p.Count(p.Operand(v).v, delta);
      if sum1.Val? { StoreTells(p, env, x, sum.v, sum1.v); }
    }
  }

  /** Storing different values leaves different environments. */
  lemma StoreTells(p: Prims, env: Env, x: string, a: Value, b: Value)
    requires Find(env.frames, x) >= 0 || !WriteRefused(env.globals, x, p.strict)
    ensures Store(p, env, x, a).0 == Val(a) && Store(Unconverted(p), env, x, a) == Store(p, env, x, a)
    ensures Store(p, env, x, a).1 == Store(p, env, x, b).1 ==> a == b
  {
    var k := Find(env.frames, x);
    var ea, eb := Store(p, env, x, a).1, Store(p, env, x, b).1;
    if k >= 0 {
      assert ea.frames[k][x] == a && eb.frames[k][x] == b;
    } else {
      assert ea.globals[x] == a && eb.globals[x] == b;
    }
  }

  predicate IsNumber(v: Value) { v.Int? || v.Num? }

  predicate IsPrimitive(v: Value) {
    v.Undefined? || v.Null? || v.Bool? || IsNumber(v) || v.Str? || v.BigInt? || v.Symbol?
  }

  /** Conversion as section 7.1.3 of ECMA-262 has it for values that are not objects, and the addition of a number as
      the machine has it: strings concatenate, a BigInt does not mix, a symbol counts as not a number, and everything
      else is converted by the addition itself. */
  ghost predicate NumberLaws(p: Prims) {
    && p.counting.Converted?
    && (forall v: Value :: IsNumber(v) || v.BigInt? ==> p.Operand(v) == Val(v))
    && (forall v: Value :: v.Symbol? ==> p.Operand(v).Thr?)
    && (forall v: Value :: v.Undefined? || v.Null? || v.Bool? || v.Str? ==> p.Operand(v).Val? && IsNumber(p.Operand(v).v))
    && (forall v: Value, d :: v.Str? ==> p.Binary(Add, v, Int(d)).Val? && p.Binary(Add, v, Int(d)).v.Str?)
    && (forall v: Value, d :: v.BigInt? ==> p.Binary(Add, v, Int(d)).Thr?)
    && (forall v: Value, d :: v.Symbol? || IsNumber(v) ==> p.Binary(Add, v, Int(d)).Val? && IsNumber(p.Binary(Add, v, Int(d)).v))
    && (forall v: Value, d :: v.Undefined? || v.Null? || v.Bool? ==> p.Binary(Add, v, Int(d)) == p.Binary(Add, p.Operand(v).v, Int(d)))
  }

  /** Before: wrong for strings, BigInts and symbols.  After: right for numbers only, since the old value is not
      converted. */
  lemma UpdateByKind(p: Prims, v: Value, delta: int, prefix: bool)
    requires NumberLaws(p) && IsPrimitive(v)
    ensures Unaffected(p, v, delta, prefix) <==> if prefix then !v.Str? && !v.BigInt? && !v.Symbol? else IsNumber(v)
  {
    if p.Operand(v).Val? && !v.BigInt? {
      var n := p.Operand(v).v;
      assert IsNumber(n);
      assert p.Binary(Add, n, Int(delta)).Val? && IsNumber(p.Binary(Add, n, Int(delta)).v);
    }
  }

  /** Counting up from 1n: 2n in the language, an exception here. */
  lemma CountsBigInt(p: Prims, g: Globals, mixed: Value, prefix: bool)
    requires p.counting.Converted? && p.Operand(BigInt(1)) == Val(BigInt(1)) && p.arith(Add, BigInt(1), Int(1)) == Thr(mixed)
    ensures var env, u := Env([map["x" := BigInt(1)]], g), Update("x", 1, prefix);
      && Eval(p, u, env) == (Val(BigInt(if prefix then 2 else 1)), Env([map["x" := BigInt(2)]], g))
      && Eval(Unconverted(p), u, env) == (Thr(mixed), env)
  {
    var fr: Frame := map["x" := BigInt(1)];
    var env := Env([fr], g);
    assert fr["x" := BigInt(2)] == map["x" := BigInt(2)];
    assert SetFrame(env.frames, 0, "x", BigInt(2)) == [map["x" := BigInt(2)]];
    assert Find(env.frames, "x") == 0;
  }

  /** Counting up from "5": 6 in the language, "51" here. */
  lemma CountsText(p: Prims, g: Globals)
    requires p.Operand(Str("5")) == Val(Int(5))
    requires p.arith(Add, Int(5), Int(1)) == Val(Int(6)) && p.arith(Add, Str("5"), Int(1)) == Val(Str("51"))
    ensures var env, u := Env([map["x" := Str("5")]], g), Update("x", 1, false);
      && Eval(p, u, env) == (Val(Int(5)), Env([map["x" := Int(6)]], g))
      && Eval(Unconverted(p), u, env) == (Val(Str("5")), Env([map["x" := Str("51")]], g))
  {
    var fr: Frame := map["x" := Str("5")];
    var env := Env([fr], g);
    assert fr["x" := Int(6)] == map["x" := Int(6)] && fr["x" := Str("51")] == map["x" := Str("51")];
    assert SetFrame(env.frames, 0, "x", Int(6)) == [map["x" := Int(6)]];
    assert SetFrame(env.frames, 0, "x", Str("51")) == [map["x" := Str("51")]];
    assert Find(env.frames, "x") == 0;
  }

  // ---------- Whole runs ----------

  /** p, which throws `stop` where an update counts something that conversion or its unit would change. */
  function Watching(p: Prims, stop: Value): Prims {
    p.(counting := Converted(v => if p.Operand(v) == Val(v) && !v.BigInt? then Val(v) else Thr(stop)))
  }

  /** b does what a does wherever a does not stop. */
  ghost predicate Follows(a: Prims, b: Prims, stop: Value) {
    && b == a.(counting := b.counting)
    && forall v :: a.Operand(v) == Thr(stop)
                   || (b.Operand(v) == a.Operand(v) && (a.Operand(v).Val? ==> SameCount(a, b, a.Operand(v).v)))
  }

  ghost predicate SameCount(a: Prims, b: Prims, n: Value) { forall d :: b.Count(n, d) == a.Count(n, d) }

  lemma BothFollow(p: Prims, stop: Value)
    ensures Follows(Watching(p, stop), p, stop) && Follows(Watching(p, stop), Unconverted(p), stop)
  {}

  lemma StoreFollows(a: Prims, b: Prims, stop: Value, env: Env, x: string, v: Value)
    requires Follows(a, b, stop)
    ensures Store(b, env, x, v) == Store(a, env, x, v)
  {}

  lemma OpsFollow(a: Prims, b: Prims, stop: Value)
    requires Follows(a, b, stop)
    ensures forall op, v, w :: b.Binary(op, v, w) == a.Binary(op, v, w)
    ensures forall op, v :: b.Unary(op, v) == a.Unary(op, v)
  {}

  lemma {:induction false} EvalFollows(a: Prims, b: Prims, stop: Value, e: Expr, env: Env)
    requires Follows(a, b, stop)
    ensures Eval(a, e, env).0 != Thr(stop) ==> Eval(b, e, env) == Eval(a, e, env)
    decreases e, 0
  {
    hide Store, Find, Load, Decided;
    OpsFollow(a, b, stop);
    match e {
      case Unary(op, o) => EvalFollows(a, b, stop, o, env);
      case Update(x, delta, _) =>
        var was := Load(env, x);
        if was.Val? && a.Operand(was.v).Val? {
          assert SameCount(a, b, a.Operand(was.v).v);
          if a.Count(a.Operand(was.v).v, delta).Val? { StoreFollows(a, b, stop, env, x, a.Count(a.Operand(was.v).v, delta).v); }
        }
      case Binary(_, l, r) =>
        EvalFollows(a, b, stop, l, env);
        EvalFollows(a, b, stop, r, Eval(a, l, env).1);
      case Logical(_, l, r) =>
        EvalFollows(a, b, stop, l, env);
        EvalFollows(a, b, stop, r, Eval(a, l, env).1);
      case Cond(t, c, d) =>
        EvalFollows(a, b, stop, t, env);
        EvalFollows(a, b, stop, c, Eval(a, t, env).1);
        EvalFollows(a, b, stop, d, Eval(a, t, env).1);
      case Assign(x, r) =>
        EvalFollows(a, b, stop, r, env);
        var (v, env1) := Eval(a, r, env);
        if v.Val? { StoreFollows(a, b, stop, env1, x, v.v); }
      case AssignOp(op, x, r) =>
        EvalFollows(a, b, stop, r, env);
        var (v, env1) := Eval(a, r, env);
        var was := Load(env, x);
        if v.Val? && was.Val? && a.Binary(op, was.v, v.v).Val? { StoreFollows(a, b, stop, env1, x, a.Binary(op, was.v, v.v).v); }
      case Sequence(first, rest) =>
        EvalFollows(a, b, stop, first, env);
        var (v, env1) := Eval(a, first, env);
        if v.Val? { RestFollows(a, b, stop, v.v, rest, env1); }
      case _ =>
    }
  }

  lemma {:induction false} RestFollows(a: Prims, b: Prims, stop: Value, v: Value, rest: seq<Expr>, env: Env)
    requires Follows(a, b, stop)
    ensures EvalRest(a, v, rest, env).0 != Thr(stop) ==> EvalRest(b, v, rest, env) == EvalRest(a, v, rest, env)
    decreases rest, 1
  {
    hide Eval, Follows;
    if rest != [] {
      EvalFollows(a, b, stop, rest[0], env);
      var (r, env1) := Eval(a, rest[0], env);
      if r.Val? { RestFollows(a, b, stop, r.v, rest[1..], env1); }
    }
  }

  lemma OptFollows(a: Prims, b: Prims, stop: Value, e: Option<Expr>, default: Value, env: Env)
    requires Follows(a, b, stop)
    ensures EvalOpt(a, e, default, env).0 != Thr(stop) ==> EvalOpt(b, e, default, env) == EvalOpt(a, e, default, env)
  {
    hide Eval, Follows;
    if e.Some? { EvalFollows(a, b, stop, e.value, env); }
  }

  lemma {:induction false} DeclsFollow(a: Prims, b: Prims, stop: Value, isLet: bool, ds: seq<Decl>, env: Env)
    requires Follows(a, b, stop)
    ensures ExecDecls(a, isLet, ds, env).0 != Exc(stop) ==> ExecDecls(b, isLet, ds, env) == ExecDecls(a, isLet, ds, env)
    decreases |ds|
  {
    hide Eval, Follows, Store;
    if ds != [] {
      if ds[0].init.None? && !isLet {
        DeclsFollow(a, b, stop, isLet, ds[1..], env);
      } else {
        OptFollows(a, b, stop, ds[0].init, Undefined, env);
        var (r, env1) := EvalOpt(a, ds[0].init, Undefined, env);
        if r.Val? {
          StoreFollows(a, b, stop, env1, ds[0].name, r.v);
          DeclsFollow(a, b, stop, isLet, ds[1..], Store(a, env1, ds[0].name, r.v).1);
        }
      }
    }
  }

  lemma InitFollows(a: Prims, b: Prims, stop: Value, init: ForInit, env: Env)
    requires Follows(a, b, stop)
    ensures ExecInit(a, init, env).0 != Exc(stop) ==> ExecInit(b, init, env) == ExecInit(a, init, env)
  {
    hide Eval, Follows, ExecDecls;
    match init
    case NoInit =>
    case InitExpr(e) => EvalFollows(a, b, stop, e, env);
    case InitDecl(isLet, ds) => DeclsFollow(a, b, stop, isLet, ds, env);
  }

  lemma {:induction false} SelectFollows(a: Prims, b: Prims, stop: Value, d: Value, cases: seq<Case>, i: nat, default: nat, env: Env)
    requires Follows(a, b, stop) && i <= |cases| && default <= |cases|
    ensures Select(a, d, cases, i, default, env).0 != Thr(stop) ==>
              Select(b, d, cases, i, default, env) == Select(a, d, cases, i, default, env)
    decreases |cases| - i
  {
    hide Eval;
    if i < |cases| {
      if cases[i].test.None? {
        SelectFollows(a, b, stop, d, cases, i + 1, i, env);
      } else {
        EvalFollows(a, b, stop, cases[i].test.value, env);
        var (r, env1) := Eval(a, cases[i].test.value, env);
        if r.Val? { SelectFollows(a, b, stop, d, cases, i + 1, default, env1); }
      }
    }
  }

  lemma {:induction false} ExecFollows(a: Prims, b: Prims, stop: Value, st: Stmt, env: Env, fuel: nat)
    requires Follows(a, b, stop)
    ensures Exec(a, st, env, fuel).0 != Exc(stop) ==> Exec(b, st, env, fuel) == Exec(a, st, env, fuel)
    decreases fuel, st, 3
  {
    hide Eval, EvalOpt, ExecDecls, ExecInit, ExecWhile, ExecDo, ExecFor, ExecSwitch, ExecList, Follows, CaseNames, TdzFrame;
    OpsFollow(a, b, stop);
    match st {
      case ExprStmt(e) => EvalFollows(a, b, stop, e, env);
      case VarDecl(isLet, ds) => DeclsFollow(a, b, stop, isLet, ds, env);
      case Block(body) => ListFollows(a, b, stop, body, env.(frames := env.frames + [TdzFrame(LexNames(body))]), fuel);
      case If(t, c, d) =>
        EvalFollows(a, b, stop, t, env);
        var env1 := Eval(a, t, env).1;
        ExecFollows(a, b, stop, c, env1, fuel);
        if d.Some? { ExecFollows(a, b, stop, d.value, env1, fuel); }
      case While(_, _, _) => WhileFollows(a, b, stop, st, env, fuel);
      case DoWhile(_, _, _) => DoFollows(a, b, stop, st, env, fuel);
      case For(_, init, _, _, _) =>
        var env0 := if init.InitDecl? && init.isLet then env.(frames := env.frames + [TdzFrame(InitNames(init))]) else env;
        InitFollows(a, b, stop, init, env0);
        var (o, env1) := ExecInit(a, init, env0);
        if o.Normal? { ForFollows(a, b, stop, st, env1, fuel); }
      case Switch(_, d, cases) =>
        EvalFollows(a, b, stop, d, env);
        var (r, env1) := Eval(a, d, env);
        if r.Val? {
          SwitchFollows(a, b, stop, st, r.v, env1, fuel);
          SwitchFollows(a, b, stop, st, r.v, env1.(frames := env1.frames + [TdzFrame(CaseNames(cases))]), fuel);
        }
      case Return(e) => OptFollows(a, b, stop, e, Undefined, env);
      case Throw(e) => EvalFollows(a, b, stop, e, env);
      case _ =>
    }
  }

  lemma {:induction false} SwitchFollows(a: Prims, b: Prims, stop: Value, st: Stmt, d: Value, env: Env, fuel: nat)
    requires Follows(a, b, stop) && st.Switch?
    ensures ExecSwitch(a, st, d, env, fuel).0 != Exc(stop) ==> ExecSwitch(b, st, d, env, fuel) == ExecSwitch(a, st, d, env, fuel)
    decreases fuel, st, 2
  {
    hide Select, ExecCases, Follows;
    SelectFollows(a, b, stop, d, st.cases, 0, |st.cases|, env);
    var (r, i, env1) := Select(a, d, st.cases, 0, |st.cases|, env);
    if r.Val? {
      CasesFollow(a, b, stop, st.cases[i..], env1, fuel);
    }
  }

  lemma {:induction false} ListFollows(a: Prims, b: Prims, stop: Value, body: seq<Stmt>, env: Env, fuel: nat)
    requires Follows(a, b, stop)
    ensures ExecList(a, body, env, fuel).0 != Exc(stop) ==> ExecList(b, body, env, fuel) == ExecList(a, body, env, fuel)
    decreases fuel, body, 4
  {
    hide Exec, Follows;
    if body != [] {
      ExecFollows(a, b, stop, body[0], env, fuel);
      var (o, env1, f) := Exec(a, body[0], env, fuel);
      if o.Normal? { ListFollows(a, b, stop, body[1..], env1, f); }
    }
  }

  lemma {:induction false} CasesFollow(a: Prims, b: Prims, stop: Value, cases: seq<Case>, env: Env, fuel: nat)
    requires Follows(a, b, stop)
    ensures ExecCases(a, cases, env, fuel).0 != Exc(stop) ==> ExecCases(b, cases, env, fuel) == ExecCases(a, cases, env, fuel)
    decreases fuel, cases, 5
  {
    hide ExecList, Follows;
    if cases != [] {
      ListFollows(a, b, stop, cases[0].body, env, fuel);
      var (o, env1, f) := ExecList(a, cases[0].body, env, fuel);
      if o.Normal? { CasesFollow(a, b, stop, cases[1..], env1, f); }
    }
  }

  lemma {:induction false} WhileFollows(a: Prims, b: Prims, stop: Value, st: Stmt, env: Env, fuel: nat)
    requires Follows(a, b, stop) && st.While?
    ensures ExecWhile(a, st, env, fuel).0 != Exc(stop) ==> ExecWhile(b, st, env, fuel) == ExecWhile(a, st, env, fuel)
    decreases fuel, st, 2
  {
    hide Eval, Exec, Follows;
    OpsFollow(a, b, stop);
    EvalFollows(a, b, stop, st.test, env);
    var (r, env1) := Eval(a, st.test, env);
    if r.Val? && Truthy(r.v) {
      ExecFollows(a, b, stop, st.loop, env1, fuel);
      var (o, env2, f) := Exec(a, st.loop, env1, fuel);
      if GoesOn(o, st.lbl) && f > 0 { WhileFollows(a, b, stop, st, env2, f - 1); }
    }
  }

  lemma {:induction false} DoFollows(a: Prims, b: Prims, stop: Value, st: Stmt, env: Env, fuel: nat)
    requires Follows(a, b, stop) && st.DoWhile?
    ensures ExecDo(a, st, env, fuel).0 != Exc(stop) ==> ExecDo(b, st, env, fuel) == ExecDo(a, st, env, fuel)
    decreases fuel, st, 2
  {
    hide Eval, Exec, Follows;
    OpsFollow(a, b, stop);
    ExecFollows(a, b, stop, st.loop, env, fuel);
    var (o, env1, f) := Exec(a, st.loop, env, fuel);
    if GoesOn(o, st.lbl) {
      EvalFollows(a, b, stop, st.test, env1);
      var (r, env2) := Eval(a, st.test, env1);
      if r.Val? && f > 0 { DoFollows(a, b, stop, st, env2, f - 1); }
    }
  }

  lemma {:induction false} ForFollows(a: Prims, b: Prims, stop: Value, st: Stmt, env: Env, fuel: nat)
    requires Follows(a, b, stop) && st.For?
    ensures ExecFor(a, st, env, fuel).0 != Exc(stop) ==> ExecFor(b, st, env, fuel) == ExecFor(a, st, env, fuel)
    decreases fuel, st, 2
  {
    hide EvalOpt, Exec, Follows;
    OpsFollow(a, b, stop);
    OptFollows(a, b, stop, st.cond, Bool(true), env);
    var (r, env1) := EvalOpt(a, st.cond, Bool(true), env);
    if r.Val? {
      ExecFollows(a, b, stop, st.loop, env1, fuel);
      var (o, env2, f) := Exec(a, st.loop, env1, fuel);
      if GoesOn(o, st.lbl) {
        OptFollows(a, b, stop, st.update, Undefined, env2);
        var (u, env3) := EvalOpt(a, st.update, Undefined, env2);
        if u.Val? && f > 0 { ForFollows(a, b, stop, st, env3, f - 1); }
      }
    }
  }

  lemma RunFollows(a: Prims, b: Prims, stop: Value, f: Function, args: seq<Value>, g: Globals, fuel: nat)
    requires Follows(a, b, stop)
    ensures Run(a, f, args, g, fuel).0 != Exc(stop) ==> Run(b, f, args, g, fuel) == Run(a, f, args, g, fuel)
  {
    hide ExecList, Follows, BodyFrame;
    ListFollows(a, b, stop, f.body, Env([BodyFrame(f, args)], g), fuel);
  }

  /** The compiled code does what the language asks of the whole function, conversions and units and all, in every
      run that counts nothing they would change. */
  lemma RunIsLanguage(p: Prims, f: Function, args: seq<Value>, g: Globals, gas: int, fuel: nat, stop: Value)
    requires WfFunction(f) && NoCaseLetsL(f.body) && Fits(Compile(f)) && fuel > 0 && fuel > gas
    requires RunGas(p, Compile(f), InitMachine(Compile(f), args, g), gas).0 != GasExhausted
    requires Run(Watching(p, stop), f, args, g, fuel).0 != Exc(stop)
    ensures var (o, g1) := Run(p, f, args, g, fuel);
            && (o.Ret? || o.Exc?)
            && RunGas(p, Compile(f), InitMachine(Compile(f), args, g), gas) == (AsResult(o), g1)
  {
    hide RunGas, Compile, InitMachine, Run, Follows;
    BothFollow(p, stop);
    RunFollows(Watching(p, stop), p, stop, f, args, g, fuel);
    RunFollows(Watching(p, stop), Unconverted(p), stop, f, args, g, fuel);
    RunIsSource(p, f, args, g, gas, fuel);
  }
}
