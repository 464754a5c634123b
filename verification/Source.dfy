/** The compiled fragment of the source language and its meaning, stated with lexical
    scopes as maps from names and no mention of slots, jumps or a stack. */
module Source {
  import opened Options
  import opened Values

  datatype LogicalOp = AndAlso | OrElse | Coalesce

  datatype Expr =
    | SmallInt(i: int)            // a literal whose value is an int32
    | NumberLit(bits: nat)        // any other number
    | StringLit(s: string)
    | BoolLit(b: bool)
    | NullLit
    | Ident(name: string)
    | Unary(op: UnOp, operand: Expr)
    | Update(name: string, delta: int, prefix: bool)
    | Binary(bop: BinOp, left: Expr, right: Expr)
    | Logical(lop: LogicalOp, left: Expr, right: Expr)
    | Cond(test: Expr, cons: Expr, alt: Expr)
    | Assign(name: string, value: Expr)
    | AssignOp(bop: BinOp, name: string, value: Expr)
    | Sequence(first: Expr, rest: seq<Expr>)

  datatype Decl = Decl(name: string, init: Option<Expr>)

  datatype ForInit = NoInit | InitExpr(e: Expr) | InitDecl(isLet: bool, decls: seq<Decl>)

  datatype Case = Case(test: Option<Expr>, body: seq<Stmt>)

  datatype Stmt =
    | ExprStmt(e: Expr)
    | EmptyStmt
    | VarDecl(isLet: bool, decls: seq<Decl>)
    | Block(body: seq<Stmt>)
    | If(test: Expr, cons: Stmt, alt: Option<Stmt>)
    | While(lbl: Option<string>, test: Expr, loop: Stmt)
    | DoWhile(lbl: Option<string>, loop: Stmt, test: Expr)
    | For(lbl: Option<string>, init: ForInit, cond: Option<Expr>, update: Option<Expr>, loop: Stmt)
    | Switch(lbl: Option<string>, disc: Expr, cases: seq<Case>)
    | Break(target: Option<string>)
    | Continue(target: Option<string>)
    | Return(arg: Option<Expr>)
    | Throw(e: Expr)

  datatype Function = Function(params: seq<string>, body: seq<Stmt>)

  // ---------- Names a function declares ----------

  function DeclNames(ds: seq<Decl>): seq<string> { seq(|ds|, i requires 0 <= i < |ds| => ds[i].name) }

  /** The let-bound names declared directly in a body. */
  function LexNames(body: seq<Stmt>): seq<string> {
    if body == [] then []
    else (match body[0] case VarDecl(true, ds) => DeclNames(ds) case _ => []) + LexNames(body[1..])
  }

  /** The var-bound names declared anywhere in a statement, in source order. */
  function VarNames(st: Stmt): seq<string>
    decreases st, 0
  {
    match st
    case VarDecl(isLet, ds) => if isLet then [] else DeclNames(ds)
    case Block(body) => VarNamesIn(body)
    case If(_, cons, alt) => VarNames(cons) + (if alt.Some? then VarNames(alt.value) else [])
    case While(_, _, loop) => VarNames(loop)
    case DoWhile(_, loop, _) => VarNames(loop)
    case For(_, init, _, _, loop) =>
      (match init case InitDecl(false, ds) => DeclNames(ds) case _ => []) + VarNames(loop)
    case Switch(_, _, cases) => VarNamesOf(cases)
    case _ => []
  }

  function VarNamesIn(body: seq<Stmt>): seq<string>
    decreases body, 1
  {
    if body == [] then [] else VarNames(body[0]) + VarNamesIn(body[1..])
  }

  function VarNamesOf(cases: seq<Case>): seq<string>
    decreases cases, 2
  {
    if cases == [] then [] else VarNamesIn(cases[0].body) + VarNamesOf(cases[1..])
  }

  /** The let-bound names declared directly in the cases of a switch: they share one scope. */
  function CaseNames(cases: seq<Case>): seq<string> {
    if cases == [] then [] else LexNames(cases[0].body) + CaseNames(cases[1..])
  }

  // ---------- Environments ----------

  type Frame = map<string, Value>

  /** Nested scopes, innermost last. */
  datatype Env = Env(frames: seq<Frame>, globals: Globals)

  /** The innermost scope that binds x, or -1. */
  function Find<T>(frames: seq<map<string, T>>, x: string): (k: int)
    ensures -1 <= k < |frames|
    ensures k >= 0 ==> x in frames[k]
    ensures forall j :: k < j < |frames| ==> x !in frames[j]
  {
    if frames == [] then -1
    else if x in frames[|frames| - 1] then |frames| - 1
    else Find(frames[..|frames| - 1], x)
  }

  function Load(env: Env, x: string): Res {
    var k := Find(env.frames, x);
    if k < 0 then ReadGlobal(env.globals, x)
    else if env.frames[k][x] == Tdz then Thr(ReferenceError("binding"))
    else Val(env.frames[k][x])
  }

  function SetFrame(frames: seq<Frame>, k: nat, x: string, v: Value): seq<Frame>
    requires k < |frames|
  {
    frames[k := frames[k][x := v]]
  }

  /** Stores v in x and yields it, or throws. */
  function Store(p: Prims, env: Env, x: string, v: Value): (Res, Env) {
    var k := Find(env.frames, x);
    if k >= 0 then (Val(v), env.(frames := SetFrame(env.frames, k, x, v)))
    else if WriteRefused(env.globals, x, p.strict) then (Thr(ReferenceError(x)), env)
    else (Val(v), env.(globals := env.globals[x := v]))
  }

  // ---------- Expressions ----------

  function Eval(p: Prims, e: Expr, env: Env): (Res, Env)
    decreases e, 0
  {
    match e
    case SmallInt(i) => (Val(Int(i)), env)
    case NumberLit(b) => (Val(Num(b)), env)
    case StringLit(s) => (Val(Str(s)), env)
    case BoolLit(b) => (Val(Bool(b)), env)
    case NullLit => (Val(Null), env)
    case Ident(x) => (if x == "undefined" then Val(Undefined) else Load(env, x), env)
    case Unary(op, a) =>
      if op.Typeof? && a.Ident? && Find(env.frames, a.name) < 0 then
        (p.Unary(Typeof, ReadGlobalSoft(env.globals, a.name)), env)
      else if op.Typeof? && a.Ident? then
        (match Load(env, a.name) case Thr(x) => Thr(x) case Val(v) => p.Unary(op, v), env)
      else
        var (r, env1) := Eval(p, a, env);
        (match r case Thr(x) => Thr(x) case Val(v) => p.Unary(op, v), env1)
    case Update(x, delta, prefix) =>
      var was := Load(env, x);
      if was.Thr? then (was, env) else
      var n := p.Operand(was.v);
      if n.Thr? then (n, env) else
      var sum := p.Count(n.v, delta);
      if sum.Thr? then (sum, env) else
      var (r, env1) := Store(p, env, x, sum.v);
      (if r.Thr? || prefix then r else n, env1)
    case Binary(op, a, b) =>
      var (ra, env1) := Eval(p, a, env);
      if ra.Thr? then (ra, env1) else
      var (rb, env2) := Eval(p, b, env1);
      if rb.Thr? then (rb, env2) else (p.Binary(op, ra.v, rb.v), env2)
    case Logical(op, a, b) =>
      var (ra, env1) := Eval(p, a, env);
      if ra.Thr? then (ra, env1)
      else if Decided(op, ra.v) then (ra, env1)
      else Eval(p, b, env1)
    case Cond(t, a, b) =>
      var (rt, env1) := Eval(p, t, env);
      if rt.Thr? then (rt, env1)
      else if Truthy(rt.v) then Eval(p, a, env1)
      else Eval(p, b, env1)
    case Assign(x, a) =>
      var (ra, env1) := Eval(p, a, env);
      if ra.Thr? then (ra, env1) else Store(p, env1, x, ra.v)
    case AssignOp(op, x, a) =>
      var was := Load(env, x);
      if was.Thr? then (was, env) else
      var (ra, env1) := Eval(p, a, env);
      if ra.Thr? then (ra, env1) else
      var r := p.Binary(op, was.v, ra.v);
      if r.Thr? then (r, env1) else Store(p, env1, x, r.v)
    case Sequence(a, rest) =>
      var (ra, env1) := Eval(p, a, env);
      if ra.Thr? then (ra, env1) else EvalRest(p, ra.v, rest, env1)
  }

  function EvalRest(p: Prims, v: Value, rest: seq<Expr>, env: Env): (Res, Env)
    decreases rest, 1
  {
    if rest == [] then (Val(v), env) else
    var (r, env1) := Eval(p, rest[0], env);
    if r.Thr? then (r, env1) else EvalRest(p, r.v, rest[1..], env1)
  }

  /** A logical operator's left operand already decides the result. */
  predicate Decided(op: LogicalOp, v: Value) {
    match op
    case AndAlso => !Truthy(v)
    case OrElse => Truthy(v)
    case Coalesce => !Nullish(v)
  }

  // ---------- Statements ----------

  /** How a statement ends; Spent means the allowance of repeated
      loop iterations ran out. */
  datatype Out =
    | Normal | Brk(target: Option<string>) | Cont(target: Option<string>)
    | Ret(v: Value) | Exc(v: Value) | Spent

  predicate Hits(target: Option<string>, lbl: Option<string>) { target.None? || target == lbl }

  /** A loop body's outcome lets the loop go on, or ends it. */
  predicate GoesOn(o: Out, lbl: Option<string>) { o.Normal? || (o.Cont? && Hits(o.target, lbl)) }

  function EndLoop(o: Out, lbl: Option<string>): Out {
    if o.Brk? && Hits(o.target, lbl) then Normal else o
  }

  function TdzFrame(names: seq<string>): Frame { map x | x in names :: Tdz }

  function Pop(env: Env): Env { if env.frames == [] then env else env.(frames := env.frames[..|env.frames| - 1]) }

  /** Initialises declared names, in order.  A var without initialiser does nothing. */
  function ExecDecls(p: Prims, isLet: bool, ds: seq<Decl>, env: Env): (r: (Out, Env))
    ensures r.0.Normal? || r.0.Exc?
  {
    if ds == [] then (Normal, env)
    else if ds[0].init.None? && !isLet then ExecDecls(p, isLet, ds[1..], env)
    else
      var (r, env1) := if ds[0].init.Some? then Eval(p, ds[0].init.value, env) else (Val(Undefined), env);
      if r.Thr? then (Exc(r.v), env1) else
      var (r2, env2) := Store(p, env1, ds[0].name, r.v);
      if r2.Thr? then (Exc(r2.v), env2) else ExecDecls(p, isLet, ds[1..], env2)
  }

  function ExecInit(p: Prims, init: ForInit, env: Env): (r: (Out, Env))
    ensures r.0.Normal? || r.0.Exc?
  {
    match init
    case NoInit => (Normal, env)
    case InitExpr(e) => (var (r, env1) := Eval(p, e, env); (if r.Thr? then Exc(r.v) else Normal, env1))
    case InitDecl(isLet, ds) => ExecDecls(p, isLet, ds, env)
  }

  function InitNames(init: ForInit): seq<string> {
    match init case InitDecl(true, ds) => DeclNames(ds) case _ => []
  }

  function EvalOpt(p: Prims, e: Option<Expr>, default: Value, env: Env): (Res, Env) {
    if e.Some? then Eval(p, e.value, env) else (Val(default), env)
  }

  /** The index of the first case, from i on, whose test is strictly equal to d; the
      index of the last default, or |cases|, when there is none. */
  function Select(p: Prims, d: Value, cases: seq<Case>, i: nat, default: nat, env: Env): (Res, nat, Env)
    requires i <= |cases| && default <= |cases|
    ensures Select(p, d, cases, i, default, env).1 <= |cases|
    decreases |cases| - i
  {
    if i == |cases| then (Val(d), default, env)
    else if cases[i].test.None? then Select(p, d, cases, i + 1, i, env)
    else
      var (r, env1) := Eval(p, cases[i].test.value, env);
      if r.Thr? then (r, 0, env1)
      else if p.strictEq(d, r.v) then (Val(d), i, env1)
      else Select(p, d, cases, i + 1, default, env1)
  }

  function Exec(p: Prims, st: Stmt, env: Env, fuel: nat): (r: (Out, Env, nat))
    ensures r.2 <= fuel && (r.0.Spent? ==> r.2 == 0)
    decreases fuel, st, 3
  {
    match st
    case ExprStmt(e) => (var (r, env1) := Eval(p, e, env); (if r.Thr? then Exc(r.v) else Normal, env1, fuel))
    case EmptyStmt => (Normal, env, fuel)
    case VarDecl(isLet, ds) => (var (o, env1) := ExecDecls(p, isLet, ds, env); (o, env1, fuel))
    case Block(body) =>
      var (o, env1, f) := ExecList(p, body, env.(frames := env.frames + [TdzFrame(LexNames(body))]), fuel);
      (o, Pop(env1), f)
    case If(t, a, b) =>
      var (r, env1) := Eval(p, t, env);
      if r.Thr? then (Exc(r.v), env1, fuel)
      else if Truthy(r.v) then Exec(p, a, env1, fuel)
      else if b.Some? then Exec(p, b.value, env1, fuel)
      else (Normal, env1, fuel)
    case While(_, _, _) => ExecWhile(p, st, env, fuel)
    case DoWhile(_, _, _) => ExecDo(p, st, env, fuel)
    case For(_, init, _, _, _) =>
      var scoped := init.InitDecl? && init.isLet;
      var env0 := if scoped then env.(frames := env.frames + [TdzFrame(InitNames(init))]) else env;
      var (o, env1) := ExecInit(p, init, env0);
      var (o2, env2, f) := if o.Normal? then ExecFor(p, st, env1, fuel) else (o, env1, fuel);
      (o2, if scoped then Pop(env2) else env2, f)
    case Switch(lbl, d, cases) =>
      var (r, env1) := Eval(p, d, env);
      if r.Thr? then (Exc(r.v), env1, fuel)
      else if CaseNames(cases) == [] then
        var (o, env2, f) := ExecSwitch(p, st, r.v, env1, fuel);
        (o, env2, f)
      else
        var scope := TdzFrame(CaseNames(cases));
        var (o, env2, f) := ExecSwitch(p, st, r.v, env1.(frames := env1.frames + [scope]), fuel);
        (o, Pop(env2), f)
    case Break(l) => (Brk(l), env, fuel)
    case Continue(l) => (Cont(l), env, fuel)
    case Return(a) =>
      var (r, env1) := EvalOpt(p, a, Undefined, env);
      (if r.Thr? then Exc(r.v) else Ret(r.v), env1, fuel)
    case Throw(e) => (var (r, env1) := Eval(p, e, env); (Exc(r.v), env1, fuel))
  }

  /** A switch on the value d, inside the scope of its cases. */
  function ExecSwitch(p: Prims, st: Stmt, d: Value, env: Env, fuel: nat): (r: (Out, Env, nat))
    requires st.Switch?
    ensures r.2 <= fuel && (r.0.Spent? ==> r.2 == 0)
    decreases fuel, st, 2
  {
    var (r, i, env1) := Select(p, d, st.cases, 0, |st.cases|, env);
    if r.Thr? then (Exc(r.v), env1, fuel) else
    var (o, env2, f) := ExecCases(p, st.cases[i..], env1, fuel);
    (EndLoop(o, st.lbl), env2, f)
  }

  function ExecList(p: Prims, body: seq<Stmt>, env: Env, fuel: nat): (r: (Out, Env, nat))
    ensures r.2 <= fuel && (r.0.Spent? ==> r.2 == 0)
    decreases fuel, body, 4
  {
    if body == [] then (Normal, env, fuel) else
    var (o, env1, f) := Exec(p, body[0], env, fuel);
    if o.Normal? then ExecList(p, body[1..], env1, f) else (o, env1, f)
  }

  function ExecCases(p: Prims, cases: seq<Case>, env: Env, fuel: nat): (r: (Out, Env, nat))
    ensures r.2 <= fuel && (r.0.Spent? ==> r.2 == 0)
    decreases fuel, cases, 5
  {
    if cases == [] then (Normal, env, fuel) else
    var (o, env1, f) := ExecList(p, cases[0].body, env, fuel);
    if o.Normal? then ExecCases(p, cases[1..], env1, f) else (o, env1, f)
  }

  function ExecWhile(p: Prims, st: Stmt, env: Env, fuel: nat): (r: (Out, Env, nat))
    requires st.While?
    ensures r.2 <= fuel && (r.0.Spent? ==> r.2 == 0)
    decreases fuel, st, 2
  {
    var (r, env1) := Eval(p, st.test, env);
    if r.Thr? then (Exc(r.v), env1, fuel)
    else if !Truthy(r.v) then (Normal, env1, fuel)
    else
      var (o, env2, f) := Exec(p, st.loop, env1, fuel);
      if !GoesOn(o, st.lbl) then (EndLoop(o, st.lbl), env2, f)
      else if f == 0 then (Spent, env2, 0)
      else ExecWhile(p, st, env2, f - 1)
  }

  function ExecDo(p: Prims, st: Stmt, env: Env, fuel: nat): (r: (Out, Env, nat))
    requires st.DoWhile?
    ensures r.2 <= fuel && (r.0.Spent? ==> r.2 == 0)
    decreases fuel, st, 2
  {
    var (o, env1, f) := Exec(p, st.loop, env, fuel);
    if !GoesOn(o, st.lbl) then (EndLoop(o, st.lbl), env1, f) else
    var (r, env2) := Eval(p, st.test, env1);
    if r.Thr? then (Exc(r.v), env2, f)
    else if !Truthy(r.v) then (Normal, env2, f)
    else if f == 0 then (Spent, env2, 0)
    else ExecDo(p, st, env2, f - 1)
  }

  function ExecFor(p: Prims, st: Stmt, env: Env, fuel: nat): (r: (Out, Env, nat))
    requires st.For?
    ensures r.2 <= fuel && (r.0.Spent? ==> r.2 == 0)
    decreases fuel, st, 2
  {
    var (r, env1) := EvalOpt(p, st.cond, Bool(true), env);
    if r.Thr? then (Exc(r.v), env1, fuel)
    else if st.cond.Some? && !Truthy(r.v) then (Normal, env1, fuel)
    else
      var (o, env2, f) := Exec(p, st.loop, env1, fuel);
      if !GoesOn(o, st.lbl) then (EndLoop(o, st.lbl), env2, f) else
      var (u, env3) := EvalOpt(p, st.update, Undefined, env2);
      if u.Thr? then (Exc(u.v), env3, f)
      else if f == 0 then (Spent, env3, 0)
      else ExecFor(p, st, env3, f - 1)
  }

  // ---------- Whole functions ----------

  /** The i-th parameter's value; parameters of the same name share one binding, the last wins. */
  function ParamFrame(params: seq<string>, args: seq<Value>): Frame {
    if params == [] then map[]
    else
      var i := |params| - 1;
      ParamFrame(params[..i], args)[params[i] := if i < |args| then args[i] else Undefined]
  }

  /** The function's one outermost scope: parameters, then vars that are not parameters,
      then let names, which hide both. */
  function BodyFrame(f: Function, args: seq<Value>): Frame {
    (map x | x in VarNamesIn(f.body) :: Undefined) + ParamFrame(f.params, args) + TdzFrame(LexNames(f.body))
  }

  function Run(p: Prims, f: Function, args: seq<Value>, g: Globals, fuel: nat): (Out, Globals) {
    var (o, env, _) := ExecList(p, f.body, Env([BodyFrame(f, args)], g), fuel);
    (if o.Normal? then Ret(Undefined) else o, env.globals)
  }
}
