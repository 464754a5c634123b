/** Statements: slots refine block scopes, patched jumps refine structured control. */
module StatementSim {
  import opened Options
  import opened Values
  import opened Bytecode
  import opened Source
  import opened CodeGen
  import opened Simulation

  // ---------- Well-formed statements ----------

  /** An enclosing loop or switch, as a jump statement sees it. */
  datatype Context = Context(lbl: Option<string>, isSwitch: bool)

  function Ctx(loops: seq<Target>): (r: seq<Context>)
    ensures |r| == |loops|
  {
    seq(|loops|, i requires 0 <= i < |loops| => Context(loops[i].lbl, loops[i].isSwitch))
  }

  predicate WfOpt(e: Option<Expr>) { e.Some? ==> WfE(e.value) }

  predicate WfDecls(ds: seq<Decl>, dom: set<string>) {
    forall i :: 0 <= i < |ds| ==> ds[i].name in dom && WfOpt(ds[i].init)
  }

  function NamesOf(xs: seq<string>): set<string> { set x | x in xs }

  predicate WfInit(init: ForInit, dom: set<string>) {
    match init case NoInit => true case InitExpr(e) => WfE(e) case InitDecl(_, ds) => WfDecls(ds, dom)
  }

  /** Every declared name is in scope where it is declared: hoisted there, or bound further out. */
  predicate WfS(st: Stmt, dom: set<string>)
    decreases st, 0
  {
    match st
    case ExprStmt(e) => WfE(e)
    case EmptyStmt => true
    case VarDecl(_, ds) => WfDecls(ds, dom)
    case Block(body) => WfL(body, dom + NamesOf(LexNames(body)))
    case If(t, a, b) => WfE(t) && WfS(a, dom) && (b.Some? ==> WfS(b.value, dom))
    case While(_, t, s) => WfE(t) && WfS(s, dom)
    case DoWhile(_, s, t) => WfE(t) && WfS(s, dom)
    case For(_, init, t, u, s) =>
      var dom1 := dom + NamesOf(InitNames(init));
      WfInit(init, dom1) && WfOpt(t) && WfOpt(u) && WfS(s, dom1)
    case Switch(_, d, cases) =>
      WfE(d) && (forall i :: 0 <= i < |cases| ==> WfOpt(cases[i].test)) && WfCases(cases, dom)
    case Break(_) | Continue(_) => true
    case Return(a) => WfOpt(a)
    case Throw(e) => WfE(e)
  }

  predicate WfL(body: seq<Stmt>, dom: set<string>)
    decreases body, 1
  {
    body != [] ==> WfS(body[0], dom) && WfL(body[1..], dom)
  }

  predicate WfCases(cases: seq<Case>, dom: set<string>)
    decreases cases, 2
  {
    cases != [] ==> WfL(cases[0].body, dom) && WfCases(cases[1..], dom)
  }

  /** Every break and continue has a target; the compiler refuses others. */
  predicate JumpsS(st: Stmt, ctx: seq<Context>)
    decreases st, 0
  {
    match st
    case Block(body) => JumpsL(body, ctx)
    case If(_, a, b) => JumpsS(a, ctx) && (b.Some? ==> JumpsS(b.value, ctx))
    case While(l, _, s) => JumpsS(s, ctx + [Context(l, false)])
    case DoWhile(l, s, _) => JumpsS(s, ctx + [Context(l, false)])
    case For(l, _, _, _, s) => JumpsS(s, ctx + [Context(l, false)])
    case Switch(l, _, cases) => JumpsCases(cases, ctx + [Context(l, true)])
    case Break(l) => exists i :: 0 <= i < |ctx| && Hits(l, ctx[i].lbl)
    case Continue(l) => exists i :: 0 <= i < |ctx| && Hits(l, ctx[i].lbl) && !ctx[i].isSwitch
    case _ => true
  }

  predicate JumpsL(body: seq<Stmt>, ctx: seq<Context>)
    decreases body, 1
  {
    body != [] ==> JumpsS(body[0], ctx) && JumpsL(body[1..], ctx)
  }

  predicate JumpsCases(cases: seq<Case>, ctx: seq<Context>)
    decreases cases, 2
  {
    cases != [] ==> JumpsL(cases[0].body, ctx) && JumpsCases(cases[1..], ctx)
  }

  /** No case of a switch declares a let directly. */
  predicate NoCaseLets(st: Stmt)
    decreases st, 0
  {
    match st
    case Block(body) => NoCaseLetsL(body)
    case If(_, a, b) => NoCaseLets(a) && (b.Some? ==> NoCaseLets(b.value))
    case While(_, _, s) => NoCaseLets(s)
    case DoWhile(_, s, _) => NoCaseLets(s)
    case For(_, _, _, _, s) => NoCaseLets(s)
    case Switch(_, _, cases) => CaseNames(cases) == [] && NoCaseLetsIn(cases)
    case _ => true
  }

  predicate NoCaseLetsL(body: seq<Stmt>)
    decreases body, 1
  {
    body != [] ==> NoCaseLets(body[0]) && NoCaseLetsL(body[1..])
  }

  predicate NoCaseLetsIn(cases: seq<Case>)
    decreases cases, 2
  {
    cases != [] ==> NoCaseLetsL(cases[0].body) && NoCaseLetsIn(cases[1..])
  }

  /** What the simulation asks of a statement. */
  predicate OkS(st: Stmt, dom: set<string>, ctx: seq<Context>) { WfS(st, dom) && JumpsS(st, ctx) && NoCaseLets(st) }

  predicate OkL(body: seq<Stmt>, dom: set<string>, ctx: seq<Context>) {
    WfL(body, dom) && JumpsL(body, ctx) && NoCaseLetsL(body)
  }

  predicate OkCases(cases: seq<Case>, dom: set<string>, ctx: seq<Context>) {
    WfCases(cases, dom) && JumpsCases(cases, ctx) && NoCaseLetsIn(cases)
  }

  // ---------- Scopes end as they began ----------

  lemma {:induction false} KeptDecls(isLet: bool, ds: seq<Decl>, names: Names, cs: seq<Const>, locals: nat)
    requires WfDecls(ds, names.Keys)
    ensures var g := GenDecls(isLet, ds, names, cs, locals); g.names == names && g.locals == locals
    decreases |ds|
  {
    hide GenE, GenStore, SizeE, WfOpt;
    if ds != [] {
      assert ds[0].name in names;
      var g := if ds[0].init.Some? then GenE(ds[0].init.value, names, cs) else G(I0(OpUndefined), cs);
      var s := GenStore(ds[0].name, names, g.consts);
      KeptDecls(isLet, ds[1..], names, if ds[0].init.None? && !isLet then cs else s.consts, locals);
    }
  }

  lemma KeptInit(init: ForInit, names: Names, cs: seq<Const>, locals: nat)
    requires WfInit(init, names.Keys)
    ensures var g := GenInit(init, names, cs, locals); g.names == names && g.locals == locals
  {
    hide GenE, GenDecls, SizeDecls, WfDecls;
    if init.InitDecl? { KeptDecls(init.isLet, init.decls, names, cs, locals); }
  }

  /** A statement all of whose declared names are in scope adds none. */
  lemma {:induction false} KeptS(st: Stmt, names: Names, pc: int, cs: seq<Const>, locals: nat, loops: seq<Target>)
    requires WfS(st, names.Keys)
    ensures GenS(st, names, pc, cs, locals, loops).names == names
    decreases st, 1
  {
    hide GenE, GenTest, GenUpdate, GenTests, GenEntries, GenDecls, Hoist, SizeE, SizeDecls, SizeS, SizeL, BreakIndex, ContinueIndex,
         GenFor, GenSwitch, GenWhile;
    match st {
      case VarDecl(isLet, ds) => KeptDecls(isLet, ds, names, cs, locals);
      case If(_, _, _) => KeptIf(st, names, pc, cs, locals, loops);
      case While(_, _, _) => KeptLoop(st, names, pc, cs, locals, loops);
      case DoWhile(_, _, _) => KeptLoop(st, names, pc, cs, locals, loops);
      case For(_, _, _, _, _) => KeptFor(st, names, pc, cs, locals, loops);
      case Switch(_, _, _) => KeptSwitch(st, names, pc, cs, locals, loops);
      case _ =>
    }
  }

  lemma {:induction false} KeptIf(st: Stmt, names: Names, pc: int, cs: seq<Const>, locals: nat, loops: seq<Target>)
    requires WfS(st, names.Keys) && st.If?
    ensures GenS(st, names, pc, cs, locals, loops).names == names
    decreases st, 0
  {
    hide GenS, GenE, SizeE, SizeS, CondCode, IfCode;
    IfShape(st, names, pc, cs, locals, loops);
    var gt := GenE(st.test, names, cs);
    var ga := GenS(st.cons, names, pc + SizeE(st.test) + 5, gt.consts, locals, loops);
    KeptS(st.cons, names, pc + SizeE(st.test) + 5, gt.consts, locals, loops);
    if st.alt.Some? { KeptS(st.alt.value, names, pc + SizeE(st.test) + 5 + SizeS(st.cons) + 5, ga.consts, ga.locals, loops); }
  }

  lemma {:induction false} KeptLoop(st: Stmt, names: Names, pc: int, cs: seq<Const>, locals: nat, loops: seq<Target>)
    requires WfS(st, names.Keys) && (st.While? || st.DoWhile?)
    ensures GenWhile(st, names, pc, cs, locals, loops).names == names
    decreases st, 0
  {
    hide GenE, SizeE, SizeS, GenS;
    if st.While? {
      var body := pc + SizeE(st.test) + 5;
      var target := Target(st.lbl, false, body + SizeS(st.loop) + 5, body + SizeS(st.loop));
      KeptS(st.loop, names, body, GenE(st.test, names, cs).consts, locals, loops + [target]);
    } else {
      var target := Target(st.lbl, false, pc + SizeS(st.loop) + SizeE(st.test) + 5, pc + SizeS(st.loop));
      KeptS(st.loop, names, pc, cs, locals, loops + [target]);
    }
  }

  lemma {:induction false} KeptFor(st: Stmt, names: Names, pc: int, cs: seq<Const>, locals: nat, loops: seq<Target>)
    requires WfS(st, names.Keys) && st.For?
    ensures GenFor(st, names, pc, cs, locals, loops).names == names
    decreases st, 0
  {
    hide GenE, SizeE, SizeS, GenS, GenTest, GenUpdate, GenInit, SizeInit, SizeTest, SizeUpdate, Hoist, WfInit, WfOpt;
    var For(l, init, t, u, s) := st;
    if !(init.InitDecl? && init.isLet) {
      HoistNone(names, cs, locals);
      assert InitNames(init) == [] && names.Keys + NamesOf([]) == names.Keys;
      KeptInit(init, names, cs, locals);
      var body := pc + SizeInit(init) + SizeTest(t);
      var target := Target(l, false, body + SizeS(s) + SizeUpdate(u) + 5, body + SizeS(s));
      var gt := GenTest(t, SizeS(s) + SizeUpdate(u) + 5, names, GenInit(init, names, cs, locals).consts);
      KeptS(s, names, body, gt.consts, locals, loops + [target]);
    }
  }

  lemma {:induction false} KeptSwitch(st: Stmt, names: Names, pc: int, cs: seq<Const>, locals: nat, loops: seq<Target>)
    requires WfS(st, names.Keys) && st.Switch?
    ensures GenSwitch(st, names, pc, cs, locals, loops).names == names
    decreases st, 0
  {
    hide GenE, SizeE, SizeS, GenTests, SizeTests, GenEntries, SizeBodies, GenBodies, LastDefault;
    var entries := pc + SizeE(st.disc) + SizeTests(st.cases) + 5;
    var gt := GenTests(st.cases, 0, names, pc + SizeE(st.disc), entries, GenE(st.disc, names, cs).consts);
    KeptBodies(st.cases, names, entries + 6 * |st.cases| + 6, gt.consts, locals, loops + [Target(st.lbl, true, pc + SizeS(st), -1)]);
  }

  lemma {:induction false} KeptL(body: seq<Stmt>, names: Names, pc: int, cs: seq<Const>, locals: nat, loops: seq<Target>)
    requires WfL(body, names.Keys)
    ensures GenL(body, names, pc, cs, locals, loops).names == names
    decreases body, 2
  {
    hide GenS, SizeS;
    if body != [] {
      var g := GenS(body[0], names, pc, cs, locals, loops);
      KeptS(body[0], names, pc, cs, locals, loops);
      KeptL(body[1..], names, pc + SizeS(body[0]), g.consts, g.locals, loops);
    }
  }

  lemma {:induction false} KeptBodies(cases: seq<Case>, names: Names, pc: int, cs: seq<Const>, locals: nat, loops: seq<Target>)
    requires WfCases(cases, names.Keys)
    ensures GenBodies(cases, names, pc, cs, locals, loops).names == names
    decreases cases, 3
  {
    hide GenL, SizeL;
    if cases != [] {
      var g := GenL(cases[0].body, names, pc, cs, locals, loops);
      KeptL(cases[0].body, names, pc, cs, locals, loops);
      KeptBodies(cases[1..], names, pc + SizeL(cases[0].body), g.consts, g.locals, loops);
    }
  }

  lemma HoistNone(names: Names, cs: seq<Const>, locals: nat)
    ensures Hoist([], names, cs, locals) == H([], cs, names, locals)
  {}

  // ---------- Opening and closing scopes ----------

  ghost predicate AllBelow(s: seq<Names>, n: nat) {
    forall k, v :: 0 <= k < |s| && v in s[k] ==> s[k][v] < n
  }

  /** The chain with v bound to a slot in its innermost scope. */
  function Bind(s: seq<Names>, v: string, slot: nat): (r: seq<Names>)
    requires s != []
    ensures |r| == |s| && r[..|s| - 1] == s[..|s| - 1]
  {
    var last: Names := s[|s| - 1][v := slot];
    s[|s| - 1 := last]
  }

  /** A new binding in the innermost scope, in a slot no binding uses. */
  lemma RelBind(s: seq<Names>, frames: seq<Frame>, locals: seq<Value>, v: string, slot: nat, w: Value)
    requires Rel(s, frames, locals) && s != [] && AllBelow(s, slot) && slot < |locals|
    ensures |frames| == |s| && Rel(Bind(s, v, slot), SetFrame(frames, |s| - 1, v, w), locals[slot := w])
    ensures AllBelow(Bind(s, v, slot), slot + 1)
  {
    hide Distinct;
    BindDistinct(s, v, slot);
  }

  lemma BindDistinct(s: seq<Names>, v: string, slot: nat)
    requires Distinct(s) && s != [] && AllBelow(s, slot)
    ensures Distinct(Bind(s, v, slot))
  {
    var s1 := Bind(s, v, slot);
    forall k, a, l, b | 0 <= k < |s1| && 0 <= l < |s1| && a in s1[k] && b in s1[l] && s1[k][a] == s1[l][b]
      ensures k == l && a == b
    {
      var top := |s| - 1;
      assert (k == top && a == v) || (a in s[k] && s[k][a] == s1[k][a]);
      assert (l == top && b == v) || (b in s[l] && s[l][b] == s1[l][b]);
    }
  }

  lemma RelOpen(s: seq<Names>, frames: seq<Frame>, locals: seq<Value>)
    requires Rel(s, frames, locals)
    ensures Rel(s + [map[]], frames + [map[]], locals)
  {}

  lemma RelClose(s: seq<Names>, n: Names, frames: seq<Frame>, locals: seq<Value>)
    requires Rel(s + [n], frames, locals)
    ensures frames != [] && Rel(s, frames[..|frames| - 1], locals)
  {
    var s1 := s + [n];
    assert forall k :: 0 <= k < |s| ==> s[k] == s1[k];
  }

  lemma FlatBind(s: seq<Names>, v: string, slot: nat)
    requires s != []
    ensures Flat(Bind(s, v, slot)) == Flat(s)[v := slot]
  {}

  lemma FlatOpen(s: seq<Names>)
    ensures Flat(s + [map[]]) == Flat(s)
  {
    assert (s + [map[]])[..|s|] == s;
  }

  lemma HoistParts(x: X, xs: seq<string>, cs: seq<Const>, locals: nat, pc: int)
    requires xs != []
    requires var h := Hoist(xs, Flat(x.s), cs, locals); Placed(x.c, pc, h.code) && Ext(h.consts, x.c.consts)
    ensures
      var t := Named(OpGetGlobal, TDZ_NAME, cs);
      var h := Hoist(xs[1..], Flat(x.s)[xs[0] := locals], t.consts, locals + 1);
      && Placed(x.c, pc, t.code) && Ext(t.consts, x.c.consts)
      && Placed(x.c, pc + 5, I4(OpSetLocal, Pack(locals))) && Placed(x.c, pc + 10, I0(OpPop))
      && Placed(x.c, pc + 11, h.code) && Ext(h.consts, x.c.consts)
      && h.names == Hoist(xs, Flat(x.s), cs, locals).names
  {
    hide Placed, Ext, I0, I4, Named, Flat;
    PlacedSplits(x.c);
    ExtTransitive();
  }

  /** The innermost scope with more bindings. */
  function Widen(frames: seq<Frame>, f: Frame): (r: seq<Frame>)
    requires frames != []
    ensures |r| == |frames|
  {
    frames[|frames| - 1 := frames[|frames| - 1] + f]
  }

  lemma WidenStep(frames: seq<Frame>, xs: seq<string>)
    requires frames != []
    ensures xs == [] ==> Widen(frames, TdzFrame(xs)) == frames
    ensures xs != [] ==>
      Widen(SetFrame(frames, |frames| - 1, xs[0], Tdz), TdzFrame(xs[1..])) == Widen(frames, TdzFrame(xs))
  {
    var last := frames[|frames| - 1];
    if xs == [] {
      assert last + TdzFrame(xs) == last;
    } else {
      assert xs == [xs[0]] + xs[1..];
      assert last[xs[0] := Tdz] + TdzFrame(xs[1..]) == last + TdzFrame(xs);
    }
  }

  /** Hoisting opens the scope: every name gets its own slot, holding the dead-zone token. */
  lemma {:induction false} SimHoist(x: X, xs: seq<string>, cs: seq<Const>, locals: nat, m0: Machine, n0: nat, m: Machine, env: Env)
    returns (n: nat, m1: Machine, x1: X, env1: Env)
    requires Pre(x, m, env) && Runs(x, m0, n0, Go(m)) && x.s != [] && AllBelow(x.s, locals)
    requires locals + |xs| <= x.c.locals
    requires var h := Hoist(xs, Flat(x.s), cs, locals); Placed(x.c, m.ip, h.code) && Ext(h.consts, x.c.consts)
    ensures x1 == x.(s := x1.s) && |x1.s| == |x.s| && x1.s[..|x.s| - 1] == x.s[..|x.s| - 1]
    ensures env1 == env.(frames := Widen(env.frames, TdzFrame(xs)))
    ensures Runs(x1, m0, n, Go(m1)) && Pre(x1, m1, env1)
    ensures m1.ip == m.ip + 11 * |xs| && m1.stack == m.stack
    ensures AllBelow(x1.s, locals + |xs|) && Flat(x1.s) == Hoist(xs, Flat(x.s), cs, locals).names
    decreases xs
  {
    hide Runs, Rel, Flat, Placed, Ext, AllBelow, Bind, Named, I0, I4, Distinct, Widen, SetFrame, TdzFrame;
    WidenStep(env.frames, xs);
    if xs == [] {
      n, m1, x1, env1 := n0, m, x, env;
    } else {
      HoistParts(x, xs, cs, locals, m.ip);
      n, m1 := SimHoistOne(x, xs[0], cs, locals, m0, n0, m, env);
      var x2 := x.(s := Bind(x.s, xs[0], locals));
      var env2 := env.(frames := SetFrame(env.frames, |x.s| - 1, xs[0], Tdz));
      FlatBind(x.s, xs[0], locals);
      n, m1, x1, env1 := SimHoist(x2, xs[1..], Named(OpGetGlobal, TDZ_NAME, cs).consts, locals + 1, m0, n, m1, env2);
    }
  }

  lemma SimHoistOne(x: X, v: string, cs: seq<Const>, slot: nat, m0: Machine, n0: nat, m: Machine, env: Env)
    returns (n: nat, m1: Machine)
    requires Pre(x, m, env) && Runs(x, m0, n0, Go(m)) && x.s != [] && AllBelow(x.s, slot) && slot < x.c.locals
    requires var t := Named(OpGetGlobal, TDZ_NAME, cs); Placed(x.c, m.ip, t.code) && Ext(t.consts, x.c.consts)
    requires Placed(x.c, m.ip + 5, I4(OpSetLocal, Pack(slot))) && Placed(x.c, m.ip + 10, I0(OpPop))
    ensures
      var k := |x.s| - 1;
      var x1 := x.(s := Bind(x.s, v, slot));
      var env1 := env.(frames := SetFrame(env.frames, k, v, Tdz));
      && Runs(x1, m0, n, Go(m1)) && Pre(x1, m1, env1) && AllBelow(x1.s, slot + 1)
      && m1.ip == m.ip + 11 && m1.stack == m.stack
  {
    hide Rel, AllBelow;
    var k := Next4(x, m0, n0, m, OpGetGlobal, AddConst(cs, StrConst(TDZ_NAME)).1);
    k := Next4(x, m0, n0 + 1, k.m, OpSetLocal, Pack(slot));
    k := Next0(x, m0, n0 + 2, k.m, OpPop);
    n, m1 := n0 + 3, k.m;
    RelBind(x.s, env.frames, m.locals, v, slot, Tdz);
  }

  lemma SimOpen(x: X, xs: seq<string>, cs: seq<Const>, locals: nat, m: Machine, env: Env)
    returns (n: nat, m1: Machine, x1: X)
    requires Pre(x, m, env) && AllBelow(x.s, locals) && locals + |xs| <= x.c.locals
    requires var h := Hoist(xs, Flat(x.s), cs, locals); Placed(x.c, m.ip, h.code) && Ext(h.consts, x.c.consts)
    ensures x1 == x.(s := x1.s) && |x1.s| == |x.s| + 1 && x1.s[..|x.s|] == x.s
    ensures Runs(x, m, n, Go(m1)) && Pre(x1, m1, env.(frames := env.frames + [TdzFrame(xs)]))
    ensures m1.ip == m.ip + 11 * |xs| && m1.stack == m.stack
    ensures AllBelow(x1.s, locals + |xs|) && Flat(x1.s) == Hoist(xs, Flat(x.s), cs, locals).names
  {
    hide Rel, Flat, Placed, Ext;
    var x0 := x.(s := x.s + [map[]]);
    var env0 := env.(frames := env.frames + [map[]]);
    RelOpen(x.s, env.frames, m.locals);
    FlatOpen(x.s);
    Start(x0, m);
    var env1;
    n, m1, x1, env1 := SimHoist(x0, xs, cs, locals, m, 0, m, env0);
    assert x0.s[..|x.s|] == x.s;
    assert map[] + TdzFrame(xs) == TdzFrame(xs);
    assert Widen(env0.frames, TdzFrame(xs)) == env.frames + [TdzFrame(xs)];
  }

  // ---------- How a statement ends, on the machine ----------

  /** The machine, n steps after m0, is where the outcome says: past the statement, at the
      target of a break or continue, halted, or still running. */
  ghost predicate Lands(x: X, m0: Machine, n: nat, m1: Machine, end: int, stack: seq<Value>,
                        loops: seq<Target>, o: Out, env: Env) {
    match o
    case Normal => Runs(x, m0, n, Go(m1)) && Pre(x, m1, env) && m1.stack == stack && m1.ip == end
    case Brk(l) =>
      var k := BreakIndex(loops, l);
      Runs(x, m0, n, Go(m1)) && Pre(x, m1, env) && m1.stack == stack && k >= 0 && m1.ip == loops[k].brk
    case Cont(l) =>
      var k := ContinueIndex(loops, l);
      Runs(x, m0, n, Go(m1)) && Pre(x, m1, env) && m1.stack == stack && k >= 0 && m1.ip == loops[k].cont
    case Ret(v) => Runs(x, m0, n, Halt(Returned(v), env.globals))
    case Exc(v) => Runs(x, m0, n, Halt(Thrown(v), env.globals))
    case Spent => Runs(x, m0, n, Go(m1))
  }

  lemma LandsAfter(x: X, m0: Machine, n0: nat, m: Machine, n: nat, m1: Machine, end: int, stack: seq<Value>,
                   loops: seq<Target>, o: Out, env: Env)
    requires Runs(x, m0, n0, Go(m)) && Lands(x, m, n, m1, end, stack, loops, o, env)
    ensures Lands(x, m0, n0 + n, m1, end, stack, loops, o, env)
  {
    hide Runs, Pre, BreakIndex, ContinueIndex;
    match o
    case Ret(v) => RunThen(x, m0, n0, m, n, Halt(Returned(v), env.globals));
    case Exc(v) => RunThen(x, m0, n0, m, n, Halt(Thrown(v), env.globals));
    case _ => RunThen(x, m0, n0, m, n, Go(m1));
  }

  /** Leaving a scope keeps the landing. */
  lemma LandsClose(x: X, x1: X, m0: Machine, n: nat, m1: Machine, end: int, stack: seq<Value>,
                   loops: seq<Target>, o: Out, env: Env)
    requires x1 == x.(s := x1.s) && |x1.s| == |x.s| + 1 && x1.s[..|x.s|] == x.s
    requires Lands(x1, m0, n, m1, end, stack, loops, o, env)
    ensures Lands(x, m0, n, m1, end, stack, loops, o, Pop(env))
  {
    hide Rel, BreakIndex, ContinueIndex, Steps;
    assert x1.s == x.s + [x1.s[|x.s|]];
    if !o.Ret? && !o.Exc? && !o.Spent? {
      RelClose(x.s, x1.s[|x.s|], env.frames, m1.locals);
    }
  }

  /** A switch catches breaks, not continues. */
  lemma LandsSwitch(x: X, m0: Machine, n: nat, m1: Machine, end: int, stack: seq<Value>,
                    loops: seq<Target>, t: Target, o: Out, env: Env)
    requires Lands(x, m0, n, m1, end, stack, loops + [t], o, env)
    requires t.brk == end && t.isSwitch
    ensures Lands(x, m0, n, m1, end, stack, loops, EndLoop(o, t.lbl), env)
  {
    hide Runs, Pre;
    assert (loops + [t])[..|loops|] == loops;
  }

  // ---------- Where the parts of a statement stand ----------

  ghost predicate HasS(x: X, st: Stmt, pc: int, cs: seq<Const>, locals: nat, loops: seq<Target>) {
    var g := GenS(st, Flat(x.s), pc, cs, locals, loops);
    Placed(x.c, pc, g.code) && Ext(g.consts, x.c.consts) && g.locals <= x.c.locals
  }

  ghost predicate HasL(x: X, body: seq<Stmt>, pc: int, cs: seq<Const>, locals: nat, loops: seq<Target>) {
    var g := GenL(body, Flat(x.s), pc, cs, locals, loops);
    Placed(x.c, pc, g.code) && Ext(g.consts, x.c.consts) && g.locals <= x.c.locals
  }

  /** Jump targets are inside the code. */
  predicate Inside(c: Chunk, loops: seq<Target>) {
    forall i :: 0 <= i < |loops| ==>
      0 <= loops[i].brk <= |c.code| && (!loops[i].isSwitch ==> 0 <= loops[i].cont <= |c.code|)
  }

  ghost predicate ReadyS(x: X, st: Stmt, cs: seq<Const>, locals: nat, loops: seq<Target>, m: Machine, env: Env) {
    && Pre(x, m, env) && OkS(st, Flat(x.s).Keys, Ctx(loops)) && HasS(x, st, m.ip, cs, locals, loops)
    && AllBelow(x.s, locals) && Inside(x.c, loops)
  }

  ghost predicate ReadyL(x: X, body: seq<Stmt>, cs: seq<Const>, locals: nat, loops: seq<Target>, m: Machine, env: Env) {
    && Pre(x, m, env) && OkL(body, Flat(x.s).Keys, Ctx(loops)) && HasL(x, body, m.ip, cs, locals, loops)
    && AllBelow(x.s, locals) && Inside(x.c, loops)
  }

  /** What the generator does at an if, one step deep. */
  lemma IfShape(st: Stmt, names: Names, pc: int, cs: seq<Const>, locals: nat, loops: seq<Target>)
    requires st.If?
    ensures
      var r := GenS(st, names, pc, cs, locals, loops);
      var gt := GenE(st.test, names, cs);
      var ga := GenS(st.cons, names, pc + SizeE(st.test) + 5, gt.consts, locals, loops);
      if st.alt.None? then r == GS(IfCode(gt.code, ga.code), ga.consts, ga.names, ga.locals)
      else
        var gb := GenS(st.alt.value, ga.names, pc + SizeE(st.test) + 5 + SizeS(st.cons) + 5, ga.consts, ga.locals, loops);
        r == GS(CondCode(gt.code, ga.code, gb.code), gb.consts, gb.names, gb.locals)
  {
    hide GenE, SizeE, SizeS, IfCode, CondCode;
  }

  lemma IfSize(st: Stmt)
    requires st.If?
    ensures SizeS(st) == SizeE(st.test) + 5 + SizeS(st.cons) + (if st.alt.Some? then 5 + SizeS(st.alt.value) else 0)
  {
    hide SizeE;
  }

  lemma IfWf(st: Stmt, dom: set<string>)
    requires st.If? && WfS(st, dom)
    ensures WfS(st.cons, dom)
  {}

  lemma IfParts(x: X, st: Stmt, pc: int, cs: seq<Const>, locals: nat, loops: seq<Target>)
    requires st.If? && HasS(x, st, pc, cs, locals, loops) && WfS(st, Flat(x.s).Keys)
    ensures
      var gt := GenE(st.test, Flat(x.s), cs);
      var p1 := pc + SizeE(st.test);
      var ga := GenS(st.cons, Flat(x.s), p1 + 5, gt.consts, locals, loops);
      var p2 := p1 + 5 + SizeS(st.cons);
      && HasCode(x, st.test, cs, pc) && HasS(x, st.cons, p1 + 5, gt.consts, locals, loops)
      && 0 <= pc && pc + SizeS(st) <= |x.c.code|
      && if st.alt.None?
         then Placed(x.c, p1, JumpBy(OpJumpIfFalse, SizeS(st.cons))) && pc + SizeS(st) == p2
         else && Placed(x.c, p1, JumpBy(OpJumpIfFalse, SizeS(st.cons) + 5))
              && Placed(x.c, p2, JumpBy(OpJump, SizeS(st.alt.value)))
              && HasS(x, st.alt.value, p2 + 5, ga.consts, ga.locals, loops) && locals <= ga.locals
              && pc + SizeS(st) == p2 + 5 + SizeS(st.alt.value)
  {
    hide Placed, Ext, JumpBy, GenE, SizeE, SizeS, CondCode, GenS, Flat, WfS;
    ExtTransitive();
    PlacedSplits(x.c);
    IfShape(st, Flat(x.s), pc, cs, locals, loops);
    IfSize(st);
    assert WfS(st.cons, Flat(x.s).Keys) by { IfWf(st, Flat(x.s).Keys); }
    var gt := GenE(st.test, Flat(x.s), cs);
    var ga := GenS(st.cons, Flat(x.s), pc + SizeE(st.test) + 5, gt.consts, locals, loops);
    KeptS(st.cons, Flat(x.s), pc + SizeE(st.test) + 5, gt.consts, locals, loops);
    if st.alt.Some? {
      var gb := GenS(st.alt.value, Flat(x.s), pc + SizeE(st.test) + 5 + SizeS(st.cons) + 5, ga.consts, ga.locals, loops);
      CondLayout(x.c, pc, gt.code, ga.code, gb.code);
    }
  }

  function WhileTarget(st: Stmt, pc: int): Target
    requires st.While?
  {
    var body := pc + SizeE(st.test) + 5;
    Target(st.lbl, false, body + SizeS(st.loop) + 5, body + SizeS(st.loop))
  }

  lemma WhileParts(x: X, st: Stmt, pc: int, cs: seq<Const>, locals: nat, loops: seq<Target>)
    requires st.While? && HasS(x, st, pc, cs, locals, loops)
    ensures
      var gt := GenE(st.test, Flat(x.s), cs);
      var p1 := pc + SizeE(st.test);
      var p2 := p1 + 5 + SizeS(st.loop);
      && HasCode(x, st.test, cs, pc) && Placed(x.c, p1, JumpBy(OpJumpIfFalse, SizeS(st.loop) + 5))
      && HasS(x, st.loop, p1 + 5, gt.consts, locals, loops + [WhileTarget(st, pc)])
      && Placed(x.c, p2, JumpBy(OpJump, pc - (p2 + 5)))
      && 0 <= pc && pc + SizeS(st) == p2 + 5 <= |x.c.code|
  {
    hide Placed, Ext, JumpBy, GenE, SizeE;
    assert GenS(st, Flat(x.s), pc, cs, locals, loops) == GenWhile(st, Flat(x.s), pc, cs, locals, loops);
    ExtTransitive();
    PlacedSplits(x.c);
  }

  function DoTarget(st: Stmt, pc: int): Target
    requires st.DoWhile?
  {
    Target(st.lbl, false, pc + SizeS(st.loop) + SizeE(st.test) + 5, pc + SizeS(st.loop))
  }

  lemma DoParts(x: X, st: Stmt, pc: int, cs: seq<Const>, locals: nat, loops: seq<Target>)
    requires st.DoWhile? && HasS(x, st, pc, cs, locals, loops) && WfS(st, Flat(x.s).Keys)
    ensures
      var gs := GenS(st.loop, Flat(x.s), pc, cs, locals, loops + [DoTarget(st, pc)]);
      var p1 := pc + SizeS(st.loop);
      var p2 := p1 + SizeE(st.test);
      && HasS(x, st.loop, pc, cs, locals, loops + [DoTarget(st, pc)])
      && HasCode(x, st.test, gs.consts, p1) && Placed(x.c, p2, JumpBy(OpJumpIfTrue, pc - (p2 + 5)))
      && 0 <= pc && pc + SizeS(st) == p2 + 5 <= |x.c.code|
  {
    hide Placed, Ext, JumpBy, GenE, SizeE;
    KeptS(st.loop, Flat(x.s), pc, cs, locals, loops + [DoTarget(st, pc)]);
    assert GenS(st, Flat(x.s), pc, cs, locals, loops) == GenWhile(st, Flat(x.s), pc, cs, locals, loops);
    ExtTransitive();
    PlacedSplits(x.c);
  }

  lemma BlockHead(x: X, st: Stmt, pc: int, cs: seq<Const>, locals: nat, loops: seq<Target>)
    requires st.Block? && HasS(x, st, pc, cs, locals, loops)
    ensures var xs := LexNames(st.body);
            var h := Hoist(xs, Flat(x.s), cs, locals);
            && Placed(x.c, pc, h.code) && Ext(h.consts, x.c.consts) && locals + |xs| <= x.c.locals
            && SizeS(st) == 11 * |xs| + SizeL(st.body)
    ensures var h := Hoist(LexNames(st.body), Flat(x.s), cs, locals);
            forall x1: X :: x1.c == x.c && Flat(x1.s) == h.names ==>
              HasL(x1, st.body, pc + |h.code|, h.consts, h.locals, loops)
  {
    hide Placed, Ext, Hoist, LexNames, GenL, SizeL;
    ExtTransitive();
    PlacedSplits(x.c);
  }

  // ---------- for loops ----------

  function ForTarget(st: Stmt, top: int): Target
    requires st.For?
  {
    var body := top + SizeTest(st.cond);
    Target(st.lbl, false, body + SizeS(st.loop) + SizeUpdate(st.update) + 5, body + SizeS(st.loop))
  }

  /** The code of the loop proper stands at top, after scope and initialiser. */
  ghost predicate HasLoop(x: X, st: Stmt, top: int, cs: seq<Const>, locals: nat, loops: seq<Target>)
    requires st.For?
  {
    var names := Flat(x.s);
    var target := ForTarget(st, top);
    var body := top + SizeTest(st.cond);
    var gt := GenTest(st.cond, SizeS(st.loop) + SizeUpdate(st.update) + 5, names, cs);
    var gs := GenS(st.loop, names, body, gt.consts, locals, loops + [target]);
    var gu := GenUpdate(st.update, names, gs.consts);
    && Placed(x.c, top, gt.code) && Ext(gt.consts, x.c.consts)
    && HasS(x, st.loop, body, gt.consts, locals, loops + [target])
    && Placed(x.c, target.cont, gu.code) && Ext(gu.consts, x.c.consts)
    && Placed(x.c, target.brk - 5, JumpBy(OpJump, top - target.brk))
    && 0 <= top && target.brk <= |x.c.code|
  }

  /** What the generator does at a for, when every declared name is in scope. */
  lemma ForKept(st: Stmt, names: Names, pc: int, cs: seq<Const>, locals: nat, loops: seq<Target>)
    requires st.For? && WfS(st, names.Keys)
    ensures
      var h := Hoist(InitNames(st.init), names, cs, locals);
      var gi := GenInit(st.init, h.names, h.consts, h.locals);
      var top := pc + |h.code| + SizeInit(st.init);
      var gt := GenTest(st.cond, SizeS(st.loop) + SizeUpdate(st.update) + 5, h.names, gi.consts);
      var gs := GenS(st.loop, h.names, top + SizeTest(st.cond), gt.consts, h.locals, loops + [ForTarget(st, top)]);
      var gu := GenUpdate(st.update, h.names, gs.consts);
      var r := GenFor(st, names, pc, cs, locals, loops);
      r.code == ForCode(h.code + gi.code, gt.code, gs.code, gu.code) && r.consts == gu.consts && r.locals == gs.locals
  {
    hide GenE, SizeE, SizeS, GenS, GenTest, GenUpdate, GenInit, SizeInit, SizeTest, SizeUpdate, Hoist, WfInit, WfOpt, InitNames,
         ForCode, NamesOf;
    var h := Hoist(InitNames(st.init), names, cs, locals);
    HoistKeys(InitNames(st.init), names, cs, locals);
    KeptInit(st.init, h.names, h.consts, h.locals);
    var gi := GenInit(st.init, h.names, h.consts, h.locals);
    var top := pc + |h.code| + SizeInit(st.init);
    var gt := GenTest(st.cond, SizeS(st.loop) + SizeUpdate(st.update) + 5, h.names, gi.consts);
    KeptS(st.loop, h.names, top + SizeTest(st.cond), gt.consts, h.locals, loops + [ForTarget(st, top)]);
  }

  lemma ForIsFor(st: Stmt, names: Names, pc: int, cs: seq<Const>, locals: nat, loops: seq<Target>)
    requires st.For?
    ensures GenS(st, names, pc, cs, locals, loops) == GenFor(st, names, pc, cs, locals, loops)
    ensures SizeS(st) == 11 * |InitNames(st.init)| + SizeInit(st.init) + SizeTest(st.cond) + SizeS(st.loop) + SizeUpdate(st.update) + 5
  {
    hide GenFor, SizeInit, SizeTest, SizeUpdate, InitNames;
  }

  lemma ForHead(x: X, st: Stmt, pc: int, cs: seq<Const>, locals: nat, loops: seq<Target>)
    requires st.For? && HasS(x, st, pc, cs, locals, loops) && WfS(st, Flat(x.s).Keys)
    ensures var xs := InitNames(st.init);
            var h := Hoist(xs, Flat(x.s), cs, locals);
            && Placed(x.c, pc, h.code) && Ext(h.consts, x.c.consts) && locals + |xs| <= x.c.locals
            && pc + SizeS(st) == ForTarget(st, pc + 11 * |xs| + SizeInit(st.init)).brk
    ensures var xs := InitNames(st.init);
            var h := Hoist(xs, Flat(x.s), cs, locals);
            forall x1: X :: x1.c == x.c && Flat(x1.s) == h.names ==>
              var gi := GenInit(st.init, h.names, h.consts, h.locals);
              && Placed(x.c, pc + |h.code|, gi.code) && Ext(gi.consts, x.c.consts)
              && HasLoop(x1, st, pc + |h.code| + SizeInit(st.init), gi.consts, h.locals, loops)
  {
    hide Placed, Ext, JumpBy, GenInit, GenTest, GenUpdate, SizeInit, SizeTest, SizeUpdate, Hoist, InitNames, GenS, GenFor, SizeS, WfS, Flat;
    ExtTransitive();
    PlacedSplits(x.c);
    ForIsFor(st, Flat(x.s), pc, cs, locals, loops);
    ForKept(st, Flat(x.s), pc, cs, locals, loops);
  }

  // ---------- switch ----------

  ghost predicate HasB(x: X, cases: seq<Case>, pc: int, cs: seq<Const>, locals: nat, loops: seq<Target>) {
    var g := GenBodies(cases, Flat(x.s), pc, cs, locals, loops);
    Placed(x.c, pc, g.code) && Ext(g.consts, x.c.consts) && g.locals <= x.c.locals
  }

  function Entries(st: Stmt, pc: int): int
    requires st.Switch?
  {
    pc + SizeE(st.disc) + SizeTests(st.cases) + 5
  }

  function SwitchTarget(st: Stmt, pc: int): Target
    requires st.Switch?
  {
    Target(st.lbl, true, pc + SizeS(st), -1)
  }

  lemma SwitchParts(x: X, st: Stmt, pc: int, cs: seq<Const>, locals: nat, loops: seq<Target>)
    requires st.Switch? && HasS(x, st, pc, cs, locals, loops)
    ensures
      var gd := GenE(st.disc, Flat(x.s), cs);
      var entries := Entries(st, pc);
      var bodies := entries + 6 * |st.cases| + 6;
      var gt := GenTests(st.cases, 0, Flat(x.s), pc + SizeE(st.disc), entries, gd.consts);
      && HasCode(x, st.disc, cs, pc)
      && Placed(x.c, pc + SizeE(st.disc), gt.code) && Ext(gt.consts, x.c.consts)
      && Placed(x.c, entries - 5, JumpBy(OpJump, 6 * LastDefault(st.cases, 0, |st.cases|)))
      && Placed(x.c, entries, GenEntries(st.cases, 0, entries, bodies))
      && Placed(x.c, bodies - 6, I0(OpPop)) && Placed(x.c, bodies - 5, JumpBy(OpJump, SizeBodies(st.cases)))
      && HasB(x, st.cases, bodies, gt.consts, locals, loops + [SwitchTarget(st, pc)])
      && 0 <= pc && pc + SizeS(st) == bodies + SizeBodies(st.cases) <= |x.c.code|
  {
    hide Placed, Ext, JumpBy, I0, GenE, SizeE, GenTests, SizeTests, GenEntries, LastDefault, SizeBodies, GenBodies;
    ExtTransitive();
    PlacedSplits(x.c);
    assert GenS(st, Flat(x.s), pc, cs, locals, loops) == GenSwitch(st, Flat(x.s), pc, cs, locals, loops);
  }

  /** Where the body of the j-th case stands when the first stands at pc. */
  function BodyAt(cases: seq<Case>, j: nat, pc: int): int
    requires j <= |cases|
  {
    if j == 0 then pc else BodyAt(cases[1..], j - 1, pc + SizeL(cases[0].body))
  }

  lemma {:induction false} BodyAtEnd(cases: seq<Case>, j: nat, pc: int)
    requires j <= |cases|
    ensures BodyAt(cases, j, pc) + SizeBodies(cases[j..]) == pc + SizeBodies(cases)
  {
    if j > 0 {
      assert cases[1..][j - 1..] == cases[j..];
      BodyAtEnd(cases[1..], j - 1, pc + SizeL(cases[0].body));
    } else {
      assert cases[j..] == cases;
    }
  }

  lemma {:induction false} EntryPlaced(c: Chunk, cases: seq<Case>, i: nat, entries: int, body: int, j: nat)
    requires Placed(c, entries + 6 * i, GenEntries(cases, i, entries, body)) && j < |cases|
    ensures var at := entries + 6 * (i + j);
            Placed(c, at, I0(OpPop)) && Placed(c, at + 1, JumpBy(OpJump, BodyAt(cases, j, body) - (at + 6)))
  {
    hide Placed, I0, JumpBy, SizeL;
    PlacedSplits(c);
    if j > 0 { EntryPlaced(c, cases[1..], i + 1, entries, body + SizeL(cases[0].body), j - 1); }
  }

  /** The bodies from the j-th case on stand where its entry leads. */
  lemma {:induction false} DropCases(x: X, cases: seq<Case>, j: nat, pc: int, cs: seq<Const>, locals: nat, loops: seq<Target>)
    returns (cs1: seq<Const>, locals1: nat)
    requires j <= |cases| && HasB(x, cases, pc, cs, locals, loops) && WfCases(cases, Flat(x.s).Keys)
    ensures locals <= locals1 && HasB(x, cases[j..], BodyAt(cases, j, pc), cs1, locals1, loops)
  {
    hide HasB, GenBodies, GenL, SizeL, Flat, HasL, WfCases;
    if j == 0 {
      assert cases[j..] == cases;
      cs1, locals1 := cs, locals;
    } else {
      BodyParts(x, cases, pc, cs, locals, loops);
      var g := GenL(cases[0].body, Flat(x.s), pc, cs, locals, loops);
      cs1, locals1 := DropCases(x, cases[1..], j - 1, pc + SizeL(cases[0].body), g.consts, g.locals, loops);
      assert cases[1..][j - 1..] == cases[j..];
    }
  }

  lemma BodyParts(x: X, cases: seq<Case>, pc: int, cs: seq<Const>, locals: nat, loops: seq<Target>)
    requires cases != [] && HasB(x, cases, pc, cs, locals, loops) && WfCases(cases, Flat(x.s).Keys)
    ensures var g := GenL(cases[0].body, Flat(x.s), pc, cs, locals, loops);
            && HasL(x, cases[0].body, pc, cs, locals, loops)
            && HasB(x, cases[1..], pc + SizeL(cases[0].body), g.consts, g.locals, loops)
            && SizeBodies(cases) == SizeL(cases[0].body) + SizeBodies(cases[1..]) && locals <= g.locals
            && WfCases(cases[1..], Flat(x.s).Keys)
  {
    hide Placed, Ext, GenL, SizeL;
    ExtTransitive();
    PlacedSplits(x.c);
    KeptL(cases[0].body, Flat(x.s), pc, cs, locals, loops);
  }

  lemma ListParts(x: X, body: seq<Stmt>, pc: int, cs: seq<Const>, locals: nat, loops: seq<Target>)
    requires body != [] && HasL(x, body, pc, cs, locals, loops) && WfL(body, Flat(x.s).Keys)
    ensures var g := GenS(body[0], Flat(x.s), pc, cs, locals, loops);
            && HasS(x, body[0], pc, cs, locals, loops)
            && HasL(x, body[1..], pc + SizeS(body[0]), g.consts, g.locals, loops)
            && SizeL(body) == SizeS(body[0]) + SizeL(body[1..]) && locals <= g.locals
  {
    hide Placed, Ext, GenS, SizeS;
    ExtTransitive();
    PlacedSplits(x.c);
    KeptS(body[0], Flat(x.s), pc, cs, locals, loops);
  }

  // ---------- Statements ----------

  lemma WfIndex(loops: seq<Target>, l: Option<string>)
    ensures (exists i :: 0 <= i < |loops| && Hits(l, Ctx(loops)[i].lbl)) ==> BreakIndex(loops, l) >= 0
    ensures (exists i :: 0 <= i < |loops| && Hits(l, Ctx(loops)[i].lbl) && !Ctx(loops)[i].isSwitch)
            ==> ContinueIndex(loops, l) >= 0
  {
    hide BreakIndex, ContinueIndex, Hits;
  }

  lemma CtxPush(loops: seq<Target>, t: Target)
    ensures Ctx(loops + [t]) == Ctx(loops) + [Context(t.lbl, t.isSwitch)]
  {}

  /** The declarations of a var or let statement, one after another. */
  lemma SimDecls(x: X, isLet: bool, ds: seq<Decl>, cs: seq<Const>, locals: nat, loops: seq<Target>, m0: Machine, n0: nat, m: Machine, env: Env)
    returns (n: nat, m1: Machine)
    requires Pre(x, m, env) && WfDecls(ds, Flat(x.s).Keys) && Runs(x, m0, n0, Go(m))
    requires var g := GenDecls(isLet, ds, Flat(x.s), cs, locals); Placed(x.c, m.ip, g.code) && Ext(g.consts, x.c.consts)
    ensures n0 <= n
    ensures var (o, env1) := ExecDecls(x.p, isLet, ds, env);
            Lands(x, m0, n, m1, m.ip + SizeDecls(isLet, ds), m.stack, loops, o, env1)
    decreases |ds|
  {
    hide Runs, Rel, Placed, Ext, I0, Flat, GenE, SizeE, Eval, GenStore, Find;
    if ds == [] {
      n, m1 := n0, m;
    } else if ds[0].init.None? && !isLet {
      n, m1 := SimDecls(x, isLet, ds[1..], cs, locals, loops, m0, n0, m, env);
    } else {
      DeclParts(x, isLet, ds, cs, locals, m.ip);
      ExecDecl(x.p, isLet, ds, env);
      hide ExecDecls, DeclValue, GenDecl, GenDecls, SizeDecls;
      n, m1 := SimDecl(x, ds[0], cs, m0, n0, m, env);
      var (r, env1) := DeclValue(x.p, ds[0], env);
      if r.Val? {
        var g := GenDecl(ds[0], Flat(x.s), cs);
        n, m1 := SimDecls(x, isLet, ds[1..], g.consts, locals, loops, m0, n, m1, env1);
      }
    }
  }

  /** What one initialising declaration computes, and its code. */
  function DeclValue(p: Prims, d: Decl, env: Env): (Res, Env) {
    var (r, env1) := EvalOpt(p, d.init, Undefined, env);
    if r.Thr? then (r, env1) else Store(p, env1, d.name, r.v)
  }

  lemma ExecDecl(p: Prims, isLet: bool, ds: seq<Decl>, env: Env)
    requires ds != [] && (ds[0].init.Some? || isLet)
    ensures var (r, env1) := DeclValue(p, ds[0], env);
      ExecDecls(p, isLet, ds, env) == if r.Thr? then (Exc(r.v), env1) else ExecDecls(p, isLet, ds[1..], env1)
  {
    hide Eval, Store;
  }

  function GenDecl(d: Decl, names: Names, cs: seq<Const>): (r: G)
    ensures |r.code| == (match d.init case Some(e) => SizeE(e) + 6 case None => 7)
  {
    var g := if d.init.Some? then GenE(d.init.value, names, cs) else G(I0(OpUndefined), cs);
    var s := GenStore(d.name, names, g.consts);
    G(g.code + s.code + I0(OpPop), s.consts)
  }

  lemma DeclParts(x: X, isLet: bool, ds: seq<Decl>, cs: seq<Const>, locals: nat, pc: int)
    requires ds != [] && (ds[0].init.Some? || isLet) && ds[0].name in Flat(x.s)
    requires var g := GenDecls(isLet, ds, Flat(x.s), cs, locals); Placed(x.c, pc, g.code) && Ext(g.consts, x.c.consts)
    ensures
      var d := GenDecl(ds[0], Flat(x.s), cs);
      var g := GenDecls(isLet, ds[1..], Flat(x.s), d.consts, locals);
      && Placed(x.c, pc, d.code) && Ext(d.consts, x.c.consts)
      && Placed(x.c, pc + |d.code|, g.code) && Ext(g.consts, x.c.consts)
      && SizeDecls(isLet, ds) == |d.code| + SizeDecls(isLet, ds[1..])
  {
    hide Placed, Ext, I0, Flat, GenE, GenStore;
    ExtTransitive();
    PlacedSplits(x.c);
  }

  lemma SimDecl(x: X, d: Decl, cs: seq<Const>, m0: Machine, n0: nat, m: Machine, env: Env)
    returns (n: nat, m1: Machine)
    requires Pre(x, m, env) && WfOpt(d.init) && d.name in Flat(x.s) && Runs(x, m0, n0, Go(m))
    requires var g := GenDecl(d, Flat(x.s), cs); Placed(x.c, m.ip, g.code) && Ext(g.consts, x.c.consts)
    ensures n0 <= n
    ensures match DeclValue(x.p, d, env)
            case (Val(_), env1) =>
              Runs(x, m0, n, Go(m1)) && Pre(x, m1, env1) && m1.stack == m.stack
              && m1.ip == m.ip + |GenDecl(d, Flat(x.s), cs).code|
            case (Thr(v), env1) => Runs(x, m0, n, Halt(Thrown(v), env1.globals))
  {
    hide Runs, Rel, Placed, Ext, I0, Flat, GenE, SizeE, Eval, GenStore, Find, Store;
    ExtTransitive();
    PlacedSplits(x.c);
    var (r, env1) := EvalOpt(x.p, d.init, Undefined, env);
    var g := if d.init.Some? then GenE(d.init.value, Flat(x.s), cs) else G(I0(OpUndefined), cs);
    if d.init.Some? {
      n, m1 := SimE(x, d.init.value, cs, m, env);
      After(x, m0, n0, m, n, SizeE(d.init.value), (r, env1), m1);
      n := n0 + n;
    } else {
      var k := Next0(x, m0, n0, m, OpUndefined);
      n, m1 := n0 + 1, k.m;
    }
    if r.Val? {
      n, m1 := SimStore(x, d.name, g.consts, r.v, m0, n, m1, env1);
      if Store(x.p, env1, d.name, r.v).0.Val? {
        var k := Next0(x, m0, n, m1, OpPop);
        n, m1 := n + 1, k.m;
      }
    }
  }

  /** The simulation: every statement, from every related state, lands where its meaning
      says, in at least as many steps as the meaning spends loop iterations. */
  lemma {:induction false} SimS(x: X, st: Stmt, cs: seq<Const>, locals: nat, loops: seq<Target>, m: Machine, env: Env, fuel: nat)
    returns (n: nat, m1: Machine)
    requires ReadyS(x, st, cs, locals, loops, m, env)
    ensures var (o, env1, f) := Exec(x.p, st, env, fuel);
            Lands(x, m, n, m1, m.ip + SizeS(st), m.stack, loops, o, env1) && n >= fuel - f
    decreases fuel, st, 3
  {
    hide ReadyS, Lands, SizeS;
    match st
    case ExprStmt(_) | Throw(_) | Return(_) => n, m1 := SimSimple(x, st, cs, locals, loops, m, env, fuel);
    case EmptyStmt | VarDecl(_, _) => n, m1 := SimVar(x, st, cs, locals, loops, m, env, fuel);
    case Block(_) => n, m1 := SimBlock(x, st, cs, locals, loops, m, env, fuel);
    case If(_, _, _) => n, m1 := SimIf(x, st, cs, locals, loops, m, env, fuel);
    case While(_, _, _) => n, m1 := SimWhile(x, st, cs, locals, loops, m, env, fuel);
    case DoWhile(_, _, _) => n, m1 := SimDo(x, st, cs, locals, loops, m, env, fuel);
    case For(_, _, _, _, _) => n, m1 := SimFor(x, st, cs, locals, loops, m, env, fuel);
    case Switch(_, _, _) => n, m1 := SimSwitch(x, st, cs, locals, loops, m, env, fuel);
    case Break(_) | Continue(_) => n, m1 := SimJump(x, st, cs, locals, loops, m, env, fuel);
  }

  lemma SimpleParts(x: X, st: Stmt, pc: int, cs: seq<Const>, locals: nat, loops: seq<Target>)
    requires HasS(x, st, pc, cs, locals, loops) && (st.ExprStmt? || st.Throw? || st.Return?)
    ensures
      var op := if st.ExprStmt? then OpPop else if st.Throw? then OpThrow else OpReturn;
      if st.Return? && st.arg.None?
      then Placed(x.c, pc, I0(OpUndefined)) && Placed(x.c, pc + 1, I0(op)) && SizeS(st) == 2
      else
        var e := if st.Return? then st.arg.value else st.e;
        HasCode(x, e, cs, pc) && Placed(x.c, pc + SizeE(e), I0(op)) && SizeS(st) == SizeE(e) + 1
  {
    hide Placed, Ext, I0, Flat, GenE, SizeE;
    PlacedSplits(x.c);
  }

  lemma SimSimple(x: X, st: Stmt, cs: seq<Const>, locals: nat, loops: seq<Target>, m: Machine, env: Env, fuel: nat)
    returns (n: nat, m1: Machine)
    requires ReadyS(x, st, cs, locals, loops, m, env) && (st.ExprStmt? || st.Throw? || st.Return?)
    ensures var (o, env1, f) := Exec(x.p, st, env, fuel);
            Lands(x, m, n, m1, m.ip + SizeS(st), m.stack, loops, o, env1) && n >= fuel - f
  {
    hide Runs, Rel, Placed, Ext, I0, Flat, GenE, SizeE, Eval, BreakIndex, ContinueIndex, AllBelow, GenS, SizeS, HasS;
    SimpleParts(x, st, m.ip, cs, locals, loops);
    var k;
    if st.Return? && st.arg.None? {
      Start(x, m);
      k := Next0(x, m, 0, m, OpUndefined);
      n, m1 := 1, k.m;
    } else {
      var e := if st.Return? then st.arg.value else st.e;
      n, m1 := SimE(x, e, cs, m, env);
      if Eval(x.p, e, env).0.Thr? { return; }
    }
    k := Next0(x, m, n, m1, if st.ExprStmt? then OpPop else if st.Throw? then OpThrow else OpReturn);
    n := n + 1;
    if k.Go? { m1 := k.m; }
  }

  lemma SimVar(x: X, st: Stmt, cs: seq<Const>, locals: nat, loops: seq<Target>, m: Machine, env: Env, fuel: nat)
    returns (n: nat, m1: Machine)
    requires ReadyS(x, st, cs, locals, loops, m, env) && (st.EmptyStmt? || st.VarDecl?)
    ensures var (o, env1, f) := Exec(x.p, st, env, fuel);
            Lands(x, m, n, m1, m.ip + SizeS(st), m.stack, loops, o, env1) && n >= fuel - f
  {
    hide Runs, Rel, Placed, Ext, Flat, GenDecls, SizeDecls, ExecDecls, AllBelow;
    Start(x, m);
    n, m1 := 0, m;
    if st.VarDecl? { n, m1 := SimDecls(x, st.isLet, st.decls, cs, locals, loops, m, 0, m, env); }
  }

  lemma SimJump(x: X, st: Stmt, cs: seq<Const>, locals: nat, loops: seq<Target>, m: Machine, env: Env, fuel: nat)
    returns (n: nat, m1: Machine)
    requires ReadyS(x, st, cs, locals, loops, m, env) && (st.Break? || st.Continue?)
    ensures var (o, env1, f) := Exec(x.p, st, env, fuel);
            Lands(x, m, n, m1, m.ip + SizeS(st), m.stack, loops, o, env1) && n >= fuel - f
  {
    hide Runs, Rel, Placed, Ext, I0, JumpBy, Flat, BreakIndex, ContinueIndex, AllBelow;
    WfIndex(loops, st.target);
    Start(x, m);
    var j := if st.Break? then BreakIndex(loops, st.target) else ContinueIndex(loops, st.target);
    var to := if st.Break? then loops[j].brk else loops[j].cont;
    var k := NextJump(x, m, 0, m, OpJump, to - (m.ip + 5));
    n, m1 := 1, k.m;
  }

  lemma {:induction false} SimBlock(x: X, st: Stmt, cs: seq<Const>, locals: nat, loops: seq<Target>, m: Machine, env: Env, fuel: nat)
    returns (n: nat, m1: Machine)
    requires ReadyS(x, st, cs, locals, loops, m, env) && st.Block?
    ensures var (o, env1, f) := Exec(x.p, st, env, fuel);
            Lands(x, m, n, m1, m.ip + SizeS(st), m.stack, loops, o, env1) && n >= fuel - f
    decreases fuel, st, 2
  {
    hide Runs, Rel, Placed, Ext, Lands, Flat, HasS, HasL, AllBelow, Hoist, LexNames, TdzFrame, GenS, SizeS, SizeL;
    BlockHead(x, st, m.ip, cs, locals, loops);
    var xs := LexNames(st.body);
    var h := Hoist(xs, Flat(x.s), cs, locals);
    var n1, m2, x1 := SimOpen(x, xs, cs, locals, m, env);
    HoistKeys(xs, Flat(x.s), cs, locals);
    var env0 := env.(frames := env.frames + [TdzFrame(xs)]);
    var n2;
    n2, m1 := SimL(x1, st.body, h.consts, h.locals, loops, m2, env0, fuel);
    var (o, env1, f) := ExecList(x.p, st.body, env0, fuel);
    RunsSame(x, x1, m, n1, Go(m2));
    LandsAfter(x1, m, n1, m2, n2, m1, m.ip + SizeS(st), m.stack, loops, o, env1);
    n := n1 + n2;
    LandsClose(x, x1, m, n, m1, m.ip + SizeS(st), m.stack, loops, o, env1);
  }

  lemma {:induction false} HoistKeys(xs: seq<string>, names: Names, cs: seq<Const>, locals: nat)
    ensures Hoist(xs, names, cs, locals).names.Keys == names.Keys + NamesOf(xs)
  {
    hide Named, I0, I4;
    if xs != [] {
      HoistKeys(xs[1..], names[xs[0] := locals], Named(OpGetGlobal, TDZ_NAME, cs).consts, locals + 1);
      assert xs == [xs[0]] + xs[1..];
    }
  }

  lemma RunsSame(x: X, x1: X, m: Machine, n: nat, k: Conf)
    requires x1.p == x.p && x1.c == x.c
    ensures Runs(x, m, n, k) == Runs(x1, m, n, k)
  {}

  lemma {:induction false} SimL(x: X, body: seq<Stmt>, cs: seq<Const>, locals: nat, loops: seq<Target>, m: Machine, env: Env, fuel: nat)
    returns (n: nat, m1: Machine)
    requires ReadyL(x, body, cs, locals, loops, m, env)
    ensures var (o, env1, f) := ExecList(x.p, body, env, fuel);
            Lands(x, m, n, m1, m.ip + SizeL(body), m.stack, loops, o, env1) && n >= fuel - f
    decreases fuel, body, 4
  {
    hide Runs, Rel, Flat, HasS, HasL, GenS, SizeS, Exec, BreakIndex, ContinueIndex;
    if body == [] {
      Start(x, m);
      n, m1 := 0, m;
    } else {
      ListParts(x, body, m.ip, cs, locals, loops);
      var g := GenS(body[0], Flat(x.s), m.ip, cs, locals, loops);
      n, m1 := SimS(x, body[0], cs, locals, loops, m, env, fuel);
      var (o, env1, f) := Exec(x.p, body[0], env, fuel);
      if o.Normal? {
        AllBelowMore(x.s, locals, g.locals);
        var n2, m2 := SimL(x, body[1..], g.consts, g.locals, loops, m1, env1, f);
        var (o2, env2, f2) := ExecList(x.p, body[1..], env1, f);
        LandsAfter(x, m, n, m1, n2, m2, m.ip + SizeL(body), m.stack, loops, o2, env2);
        n, m1 := n + n2, m2;
      }
    }
  }

  lemma AllBelowMore(s: seq<Names>, a: nat, b: nat)
    requires AllBelow(s, a) && a <= b
    ensures AllBelow(s, b)
  {}

  lemma {:induction false} SimIf(x: X, st: Stmt, cs: seq<Const>, locals: nat, loops: seq<Target>, m: Machine, env: Env, fuel: nat)
    returns (n: nat, m1: Machine)
    requires ReadyS(x, st, cs, locals, loops, m, env) && st.If?
    ensures var (o, env1, f) := Exec(x.p, st, env, fuel);
            Lands(x, m, n, m1, m.ip + SizeS(st), m.stack, loops, o, env1) && n >= fuel - f
    decreases fuel, st, 2
  {
    hide Runs, Rel, Placed, JumpBy, Flat, HasS, HasCode, GenE, SizeE, GenS, SizeS, Eval, BreakIndex, ContinueIndex;
    IfParts(x, st, m.ip, cs, locals, loops);
    var gt := GenE(st.test, Flat(x.s), cs);
    n, m1 := SimE(x, st.test, cs, m, env);
    var (r, env1) := Eval(x.p, st.test, env);
    if r.Val? {
      var skip := SizeS(st.cons) + (if st.alt.Some? then 5 else 0);
      var k := NextJump(x, m, n, m1, OpJumpIfFalse, skip);
      n, m1 := n + 1, k.m;
      if Truthy(r.v) {
        var n2, m2 := SimS(x, st.cons, gt.consts, locals, loops, m1, env1, fuel);
        var (o, env2, f) := Exec(x.p, st.cons, env1, fuel);
        LandsAfter(x, m, n, m1, n2, m2, m1.ip + SizeS(st.cons), m.stack, loops, o, env2);
        n, m1 := n + n2, m2;
        if o.Normal? && st.alt.Some? {
          k := NextJump(x, m, n, m1, OpJump, SizeS(st.alt.value));
          n, m1 := n + 1, k.m;
        }
      } else if st.alt.Some? {
        n, m1 := SimElse(x, st, cs, locals, loops, m, env, fuel, n, m1, env1);
      }
    }
  }

  /** The alternative of an if, once its test has jumped there. */
  lemma {:induction false} SimElse(x: X, st: Stmt, cs: seq<Const>, locals: nat, loops: seq<Target>, m: Machine, env: Env, fuel: nat,
                                   n0: nat, m0: Machine, env1: Env)
    returns (n: nat, m1: Machine)
    requires ReadyS(x, st, cs, locals, loops, m, env) && st.If? && st.alt.Some?
    requires Eval(x.p, st.test, env).0.Val? && Eval(x.p, st.test, env).1 == env1
    requires Runs(x, m, n0, Go(m0)) && Pre(x, m0, env1) && m0.stack == m.stack
    requires m0.ip == m.ip + SizeE(st.test) + 5 + SizeS(st.cons) + 5
    ensures var (o, env2, f) := Exec(x.p, st.alt.value, env1, fuel);
            Lands(x, m, n, m1, m.ip + SizeS(st), m.stack, loops, o, env2) && n >= fuel - f
    decreases fuel, st, 1
  {
    hide Runs, Rel, Placed, JumpBy, Flat, HasS, HasCode, GenE, SizeE, GenS, Eval, BreakIndex, ContinueIndex;
    IfParts(x, st, m.ip, cs, locals, loops);
    var gt := GenE(st.test, Flat(x.s), cs);
    var ga := GenS(st.cons, Flat(x.s), m.ip + SizeE(st.test) + 5, gt.consts, locals, loops);
    AllBelowMore(x.s, locals, ga.locals);
    n, m1 := SimS(x, st.alt.value, ga.consts, ga.locals, loops, m0, env1, fuel);
    var (o, env2, f) := Exec(x.p, st.alt.value, env1, fuel);
    LandsAfter(x, m, n0, m0, n, m1, m.ip + SizeS(st), m.stack, loops, o, env2);
    n := n0 + n;
  }

  /** After a loop body: what a continuing outcome reaches, and what an ending one means. */
  lemma BodyLands(x: X, m: Machine, n: nat, m1: Machine, end: int, stack: seq<Value>,
                  loops: seq<Target>, t: Target, o: Out, env: Env)
    requires Lands(x, m, n, m1, end, stack, loops + [t], o, env) && !t.isSwitch && t.cont == end
    ensures if GoesOn(o, t.lbl)
            then Runs(x, m, n, Go(m1)) && Pre(x, m1, env) && m1.stack == stack && m1.ip == t.cont
            else Lands(x, m, n, m1, t.brk, stack, loops, EndLoop(o, t.lbl), env)
  {
    hide Runs, Pre;
    assert (loops + [t])[..|loops|] == loops;
  }

  lemma {:induction false} SimWhile(x: X, st: Stmt, cs: seq<Const>, locals: nat, loops: seq<Target>, m: Machine, env: Env, fuel: nat)
    returns (n: nat, m1: Machine)
    requires ReadyS(x, st, cs, locals, loops, m, env) && st.While?
    ensures var (o, env1, f) := ExecWhile(x.p, st, env, fuel);
            Lands(x, m, n, m1, m.ip + SizeS(st), m.stack, loops, o, env1) && n >= fuel - f
    decreases fuel, st, 2
  {
    hide Runs, Rel, Placed, JumpBy, Flat, HasS, HasCode, GenE, SizeE, GenS, SizeS, Eval, Exec, BreakIndex, ContinueIndex, OkS, WfS, WfE;
    OkLoop(st, Flat(x.s).Keys, Ctx(loops));
    WhileParts(x, st, m.ip, cs, locals, loops);
    n, m1 := SimE(x, st.test, cs, m, env);
    var (r, env1) := Eval(x.p, st.test, env);
    if r.Val? {
      var k := NextJump(x, m, n, m1, OpJumpIfFalse, SizeS(st.loop) + 5);
      n, m1 := n + 1, k.m;
      if Truthy(r.v) { n, m1 := SimTurn(x, st, cs, locals, loops, m, env, fuel, n, m1, env1); }
    }
  }

  /** A while loop whose test has come out true. */
  lemma {:induction false} SimTurn(x: X, st: Stmt, cs: seq<Const>, locals: nat, loops: seq<Target>, m: Machine, env: Env, fuel: nat,
                                  n0: nat, m0: Machine, env1: Env)
    returns (n: nat, m1: Machine)
    requires ReadyS(x, st, cs, locals, loops, m, env) && st.While?
    requires Eval(x.p, st.test, env).0.Val? && Truthy(Eval(x.p, st.test, env).0.v) && Eval(x.p, st.test, env).1 == env1
    requires Runs(x, m, n0, Go(m0)) && Pre(x, m0, env1) && m0.stack == m.stack && m0.ip == m.ip + SizeE(st.test) + 5
    ensures var (o, env2, f) := ExecWhile(x.p, st, env, fuel);
            Lands(x, m, n, m1, m.ip + SizeS(st), m.stack, loops, o, env2) && n >= fuel - f
    decreases fuel, st, 1
  {
    hide Runs, Rel, Placed, JumpBy, Flat, HasS, HasCode, GenE, SizeE, GenS, SizeS, Eval, Exec, BreakIndex, ContinueIndex, OkS, WfS, WfE;
    OkLoop(st, Flat(x.s).Keys, Ctx(loops));
    WhileParts(x, st, m.ip, cs, locals, loops);
    var t := WhileTarget(st, m.ip);
    CtxPush(loops, t);
    n, m1 := SimS(x, st.loop, GenE(st.test, Flat(x.s), cs).consts, locals, loops + [t], m0, env1, fuel);
    var (o, env2, f) := Exec(x.p, st.loop, env1, fuel);
    LandsAfter(x, m, n0, m0, n, m1, t.cont, m.stack, loops + [t], o, env2);
    n := n0 + n;
    BodyLands(x, m, n, m1, t.cont, m.stack, loops, t, o, env2);
    if GoesOn(o, st.lbl) && f > 0 {
      var k := NextJump(x, m, n, m1, OpJump, m.ip - t.brk);
      var n3, m3 := SimWhile(x, st, cs, locals, loops, k.m, env2, f - 1);
      var (o3, env3, f3) := ExecWhile(x.p, st, env2, f - 1);
      LandsAfter(x, m, n + 1, k.m, n3, m3, t.brk, m.stack, loops, o3, env3);
      n, m1 := n + 1 + n3, m3;
    }
  }

  lemma {:induction false} SimDo(x: X, st: Stmt, cs: seq<Const>, locals: nat, loops: seq<Target>, m: Machine, env: Env, fuel: nat)
    returns (n: nat, m1: Machine)
    requires ReadyS(x, st, cs, locals, loops, m, env) && st.DoWhile?
    ensures var (o, env1, f) := ExecDo(x.p, st, env, fuel);
            Lands(x, m, n, m1, m.ip + SizeS(st), m.stack, loops, o, env1) && n >= fuel - f
    decreases fuel, st, 2
  {
    hide Runs, Rel, Placed, JumpBy, Flat, HasS, HasCode, GenE, SizeE, GenS, SizeS, Eval, Exec, BreakIndex, ContinueIndex, OkS, WfS, WfE;
    OkLoop(st, Flat(x.s).Keys, Ctx(loops));
    DoParts(x, st, m.ip, cs, locals, loops);
    var t := DoTarget(st, m.ip);
    CtxPush(loops, t);
    var gs := GenS(st.loop, Flat(x.s), m.ip, cs, locals, loops + [t]);
    n, m1 := SimS(x, st.loop, cs, locals, loops + [t], m, env, fuel);
    var (o, env1, f) := Exec(x.p, st.loop, env, fuel);
    BodyLands(x, m, n, m1, t.cont, m.stack, loops, t, o, env1);
    if GoesOn(o, st.lbl) {
      var n2, m2 := SimE(x, st.test, gs.consts, m1, env1);
      var (r, env2) := Eval(x.p, st.test, env1);
      After(x, m, n, m1, n2, SizeE(st.test), (r, env2), m2);
      n, m1 := n + n2, m2;
      if r.Val? {
        var k := NextJump(x, m, n, m1, OpJumpIfTrue, m.ip - t.brk);
        if !Truthy(r.v) || f > 0 { n, m1 := n + 1, k.m; }
        if Truthy(r.v) && f > 0 {
          var n3, m3 := SimDo(x, st, cs, locals, loops, m1, env2, f - 1);
          var (o3, env3, f3) := ExecDo(x.p, st, env2, f - 1);
          LandsAfter(x, m, n, m1, n3, m3, t.brk, m.stack, loops, o3, env3);
          n, m1 := n + n3, m3;
        }
      }
    }
  }

  lemma SimInit(x: X, init: ForInit, cs: seq<Const>, locals: nat, loops: seq<Target>, m: Machine, env: Env)
    returns (n: nat, m1: Machine)
    requires Pre(x, m, env)
    requires WfInit(init, Flat(x.s).Keys)
    requires var g := GenInit(init, Flat(x.s), cs, locals); Placed(x.c, m.ip, g.code) && Ext(g.consts, x.c.consts)
    ensures var (o, env1) := ExecInit(x.p, init, env);
            Lands(x, m, n, m1, m.ip + SizeInit(init), m.stack, loops, o, env1)
  {
    hide Runs, Rel, Placed, I0, Flat, GenE, SizeE, GenDecls, SizeDecls, Eval, ExecDecls;
    PlacedSplits(x.c);
    Start(x, m);
    n, m1 := 0, m;
    match init
    case NoInit =>
    case InitExpr(e) =>
      n, m1 := SimE(x, e, cs, m, env);
      if Eval(x.p, e, env).0.Val? {
        var k := Next0(x, m, n, m1, OpPop);
        n, m1 := n + 1, k.m;
      }
    case InitDecl(isLet, ds) => n, m1 := SimDecls(x, isLet, ds, cs, locals, loops, m, 0, m, env);
  }

  /** The update clause, its value dropped. */
  lemma SimStep(x: X, u: Option<Expr>, cs: seq<Const>, m0: Machine, n0: nat, m: Machine, env: Env)
    returns (n: nat, m1: Machine)
    requires Pre(x, m, env) && WfOpt(u) && Runs(x, m0, n0, Go(m))
    requires var g := GenUpdate(u, Flat(x.s), cs); Placed(x.c, m.ip, g.code) && Ext(g.consts, x.c.consts)
    ensures n0 <= n
    ensures match EvalOpt(x.p, u, Undefined, env)
            case (Val(_), env1) =>
              Runs(x, m0, n, Go(m1)) && Pre(x, m1, env1) && m1.ip == m.ip + SizeUpdate(u) && m1.stack == m.stack
            case (Thr(v), env1) => Runs(x, m0, n, Halt(Thrown(v), env1.globals))
  {
    hide Runs, Rel, Placed, I0, Flat, GenE, SizeE, Eval;
    PlacedSplits(x.c);
    n, m1 := n0, m;
    if u.Some? {
      n, m1 := SimE(x, u.value, cs, m, env);
      After(x, m0, n0, m, n, SizeE(u.value), Eval(x.p, u.value, env), m1);
      n := n0 + n;
      if Eval(x.p, u.value, env).0.Val? {
        var k := Next0(x, m0, n, m1, OpPop);
        n, m1 := n + 1, k.m;
      }
    }
  }

  /** The loop test: falls through to the body, or leaves over d bytes. */
  lemma SimTest(x: X, t: Option<Expr>, d: nat, cs: seq<Const>, m: Machine, env: Env)
    returns (n: nat, m1: Machine)
    requires Pre(x, m, env) && WfOpt(t)
    requires var g := GenTest(t, d, Flat(x.s), cs); Placed(x.c, m.ip, g.code) && Ext(g.consts, x.c.consts)
    requires m.ip + SizeTest(t) + d <= |x.c.code| && 0 <= m.ip
    ensures var (r, env1) := EvalOpt(x.p, t, Bool(true), env);
            if r.Thr? then Runs(x, m, n, Halt(Thrown(r.v), env1.globals))
            else
              && Runs(x, m, n, Go(m1)) && Pre(x, m1, env1) && m1.stack == m.stack
              && m1.ip == m.ip + SizeTest(t) + (if t.Some? && !Truthy(r.v) then d else 0)
              && (t.Some? ==> n > 0)
  {
    hide Runs, Rel, Placed, JumpBy, Flat, GenE, SizeE, Eval;
    PlacedSplits(x.c);
    Start(x, m);
    n, m1 := 0, m;
    if t.Some? {
      n, m1 := SimE(x, t.value, cs, m, env);
      if Eval(x.p, t.value, env).0.Val? {
        var k := NextJump(x, m, n, m1, OpJumpIfFalse, d);
        n, m1 := n + 1, k.m;
      }
    }
  }

  ghost predicate ReadyLoop(x: X, st: Stmt, cs: seq<Const>, locals: nat, loops: seq<Target>, m: Machine, env: Env)
    requires st.For?
  {
    && Pre(x, m, env) && HasLoop(x, st, m.ip, cs, locals, loops) && AllBelow(x.s, locals) && Inside(x.c, loops)
    && WfOpt(st.cond) && WfOpt(st.update) && OkS(st.loop, Flat(x.s).Keys, Ctx(loops) + [Context(st.lbl, false)])
  }

  lemma {:induction false} SimForLoop(x: X, st: Stmt, cs: seq<Const>, locals: nat, loops: seq<Target>, m: Machine, env: Env, fuel: nat)
    returns (n: nat, m1: Machine)
    requires st.For? && ReadyLoop(x, st, cs, locals, loops, m, env)
    ensures var (o, env1, f) := ExecFor(x.p, st, env, fuel);
            Lands(x, m, n, m1, ForTarget(st, m.ip).brk, m.stack, loops, o, env1) && n >= fuel - f
    decreases fuel, st, 0
  {
    hide Runs, Rel, Placed, JumpBy, Flat, HasS, GenTest, SizeTest, GenUpdate, SizeUpdate, GenS, SizeS, EvalOpt, Exec,
         BreakIndex, ContinueIndex, OkS;
    var t := ForTarget(st, m.ip);
    CtxPush(loops, t);
    var d := SizeS(st.loop) + SizeUpdate(st.update) + 5;
    var gt := GenTest(st.cond, d, Flat(x.s), cs);
    var body := m.ip + SizeTest(st.cond);
    var gs := GenS(st.loop, Flat(x.s), body, gt.consts, locals, loops + [t]);
    n, m1 := SimTest(x, st.cond, d, cs, m, env);
    var (r, env1) := EvalOpt(x.p, st.cond, Bool(true), env);
    if r.Val? && !(st.cond.Some? && !Truthy(r.v)) {
      var n2, m2 := SimS(x, st.loop, gt.consts, locals, loops + [t], m1, env1, fuel);
      var (o, env2, f) := Exec(x.p, st.loop, env1, fuel);
      LandsAfter(x, m, n, m1, n2, m2, t.cont, m.stack, loops + [t], o, env2);
      n, m1 := n + n2, m2;
      BodyLands(x, m, n, m1, t.cont, m.stack, loops, t, o, env2);
      if GoesOn(o, st.lbl) {
        n, m1 := SimStep(x, st.update, gs.consts, m, n, m1, env2);
        var (u, env3) := EvalOpt(x.p, st.update, Undefined, env2);
        if u.Val? && f > 0 {
          var k := NextJump(x, m, n, m1, OpJump, m.ip - t.brk);
          var n3, m3 := SimForLoop(x, st, cs, locals, loops, k.m, env3, f - 1);
          var (o3, env4, f3) := ExecFor(x.p, st, env3, f - 1);
          LandsAfter(x, m, n + 1, k.m, n3, m3, t.brk, m.stack, loops, o3, env4);
          n, m1 := n + 1 + n3, m3;
        }
      }
    }
  }

  lemma {:induction false} SimFor(x: X, st: Stmt, cs: seq<Const>, locals: nat, loops: seq<Target>, m: Machine, env: Env, fuel: nat)
    returns (n: nat, m1: Machine)
    requires ReadyS(x, st, cs, locals, loops, m, env) && st.For?
    ensures var (o, env1, f) := Exec(x.p, st, env, fuel);
            Lands(x, m, n, m1, m.ip + SizeS(st), m.stack, loops, o, env1) && n >= fuel - f
    decreases fuel, st, 2
  {
    hide Runs, Rel, Placed, Ext, Lands, Flat, HasS, AllBelow, Hoist, TdzFrame, GenS, SizeS, HasLoop, ForTarget,
         GenInit, SizeInit, ExecInit, ExecFor;
    ForHead(x, st, m.ip, cs, locals, loops);
    var xs := InitNames(st.init);
    var h := Hoist(xs, Flat(x.s), cs, locals);
    HoistKeys(xs, Flat(x.s), cs, locals);
    var end := m.ip + SizeS(st);
    if st.init.InitDecl? && st.init.isLet {
      var n1, m2, x1 := SimOpen(x, xs, cs, locals, m, env);
      var env0 := env.(frames := env.frames + [TdzFrame(xs)]);
      n, m1 := SimForBody(x1, st, h.consts, h.locals, loops, end, m2, env0, fuel);
      var (o, env1, f) := ForBody(x.p, st, env0, fuel);
      RunsSame(x, x1, m, n1, Go(m2));
      LandsAfter(x1, m, n1, m2, n, m1, end, m.stack, loops, o, env1);
      n := n1 + n;
      LandsClose(x, x1, m, n, m1, end, m.stack, loops, o, env1);
    } else {
      HoistNone(Flat(x.s), cs, locals);
      n, m1 := SimForBody(x, st, cs, locals, loops, end, m, env, fuel);
    }
  }

  /** A for statement once its scope is open. */
  function ForBody(p: Prims, st: Stmt, env: Env, fuel: nat): (Out, Env, nat)
    requires st.For?
  {
    var (o, env1) := ExecInit(p, st.init, env);
    if o.Normal? then ExecFor(p, st, env1, fuel) else (o, env1, fuel)
  }

  lemma {:induction false} SimForBody(x: X, st: Stmt, cs: seq<Const>, locals: nat, loops: seq<Target>, end: int, m: Machine, env: Env, fuel: nat)
    returns (n: nat, m1: Machine)
    requires st.For? && Pre(x, m, env) && AllBelow(x.s, locals) && Inside(x.c, loops)
    requires WfInit(st.init, Flat(x.s).Keys)
    requires WfOpt(st.cond) && WfOpt(st.update) && OkS(st.loop, Flat(x.s).Keys, Ctx(loops) + [Context(st.lbl, false)])
    requires var gi := GenInit(st.init, Flat(x.s), cs, locals);
             && Placed(x.c, m.ip, gi.code) && Ext(gi.consts, x.c.consts)
             && HasLoop(x, st, m.ip + SizeInit(st.init), gi.consts, locals, loops)
    requires end == ForTarget(st, m.ip + SizeInit(st.init)).brk
    ensures var (o, env1, f) := ForBody(x.p, st, env, fuel);
            Lands(x, m, n, m1, end, m.stack, loops, o, env1) && n >= fuel - f
    decreases fuel, st, 1
  {
    hide Runs, Rel, Placed, Ext, Flat, AllBelow, HasLoop, ForTarget, GenInit, SizeInit, ExecInit, ExecFor, OkS;
    n, m1 := SimInit(x, st.init, cs, locals, loops, m, env);
    var (o, env1) := ExecInit(x.p, st.init, env);
    if o.Normal? {
      var n2, m2 := SimForLoop(x, st, GenInit(st.init, Flat(x.s), cs, locals).consts, locals, loops, m1, env1, fuel);
      var (o2, env2, f) := ExecFor(x.p, st, env1, fuel);
      LandsAfter(x, m, n, m1, n2, m2, end, m.stack, loops, o2, env2);
      n, m1 := n + n2, m2;
    }
  }

  // ---------- switch ----------

  lemma TestParts(x: X, cases: seq<Case>, i: nat, pc: int, entries: int, cs: seq<Const>)
    requires cases != [] && cases[0].test.Some?
    requires var g := GenTests(cases, i, Flat(x.s), pc, entries, cs); Placed(x.c, pc, g.code) && Ext(g.consts, x.c.consts)
    ensures
      var g := GenE(cases[0].test.value, Flat(x.s), cs);
      var at := pc + 1 + SizeE(cases[0].test.value);
      var r := GenTests(cases[1..], i + 1, Flat(x.s), at + 6, entries, g.consts);
      && Placed(x.c, pc, I0(OpDup)) && HasCode(x, cases[0].test.value, cs, pc + 1)
      && Placed(x.c, at, I0(OpBin(StrictEq)))
      && Placed(x.c, at + 1, JumpBy(OpJumpIfTrue, entries + 6 * i - (at + 6)))
      && Placed(x.c, at + 6, r.code) && Ext(r.consts, x.c.consts)
      && pc + SizeTests(cases) == at + 6 + SizeTests(cases[1..]) && 0 <= pc
  {
    hide Placed, Ext, I0, JumpBy, GenE, SizeE;
    ExtTransitive();
    PlacedSplits(x.c);
  }

  /** One test: a match goes to the entry, the switch value still on top. */
  lemma SimTestOne(x: X, e: Expr, d: Value, entry: int, cs: seq<Const>, m: Machine, env: Env)
    returns (n: nat, m1: Machine)
    requires WfE(e) && Pre(x, m, env) && m.stack != [] && Peek(m.stack, 0) == d && 0 <= entry <= |x.c.code|
    requires var at := m.ip + 1 + SizeE(e);
      && Placed(x.c, m.ip, I0(OpDup)) && HasCode(x, e, cs, m.ip + 1) && Placed(x.c, at, I0(OpBin(StrictEq)))
      && Placed(x.c, at + 1, JumpBy(OpJumpIfTrue, entry - (at + 6))) && 0 <= m.ip
    ensures var (r, env1) := Eval(x.p, e, env);
      if r.Thr? then Runs(x, m, n, Halt(Thrown(r.v), env1.globals))
      else
        && Runs(x, m, n, Go(m1)) && Pre(x, m1, env1) && m1.stack == m.stack
        && m1.ip == if x.p.strictEq(d, r.v) then entry else m.ip + SizeE(e) + 7
  {
    hide Runs, Rel, Placed, Ext, I0, JumpBy, Flat, GenE, SizeE, Eval, HasCode, WfE, Step;
    Start(x, m);
    var k := Next0(x, m, 0, m, OpDup);
    var m0 := k.m;
    n, m1 := SimE(x, e, cs, m0, env);
    var (r, env1) := Eval(x.p, e, env);
    After(x, m, 1, m0, n, SizeE(e), (r, env1), m1);
    n := n + 1;
    if r.Val? { n, m1 := SimTestJump(x, d, r.v, entry, m, n, m1, env1); }
  }

  /** The tests lead to the entry of the selected case, the switch value still on top. */
  lemma {:induction false} SimTests(x: X, cases: seq<Case>, i: nat, default: nat, d: Value, entries: int,
                                   cs: seq<Const>, m: Machine, env: Env)
    returns (n: nat, m1: Machine)
    requires i <= |cases| && default <= |cases| && Pre(x, m, env) && m.stack != [] && Peek(m.stack, 0) == d
    requires forall j :: 0 <= j < |cases| ==> WfOpt(cases[j].test)
    requires var g := GenTests(cases[i..], i, Flat(x.s), m.ip, entries, cs);
             Placed(x.c, m.ip, g.code) && Ext(g.consts, x.c.consts)
    requires m.ip + SizeTests(cases[i..]) == entries - 5 && 0 <= m.ip && entries + 6 * |cases| <= |x.c.code|
    requires Placed(x.c, entries - 5, JumpBy(OpJump, 6 * LastDefault(cases[i..], i, default)))
    ensures var (r, j, env1) := Select(x.p, d, cases, i, default, env);
            if r.Thr? then Runs(x, m, n, Halt(Thrown(r.v), env1.globals))
            else Runs(x, m, n, Go(m1)) && Pre(x, m1, env1) && m1.stack == m.stack && m1.ip == entries + 6 * j
    decreases |cases| - i
  {
    hide Runs, Rel, Placed, Ext, I0, JumpBy, Flat, GenE, SizeE, Eval, HasCode, WfE, Step;
    Start(x, m);
    if i == |cases| {
      var k := NextJump(x, m, 0, m, OpJump, 6 * default);
      n, m1 := 1, k.m;
    } else if cases[i].test.None? {
      assert cases[i..][1..] == cases[i + 1..];
      n, m1 := SimTests(x, cases, i + 1, i, d, entries, cs, m, env);
    } else {
      TestParts(x, cases[i..], i, m.ip, entries, cs);
      assert cases[i..][1..] == cases[i + 1..];
      var e := cases[i].test.value;
      n, m1 := SimTestOne(x, e, d, entries + 6 * i, cs, m, env);
      var (r, env1) := Eval(x.p, e, env);
      if r.Val? && !x.p.strictEq(d, r.v) {
        var n2, m2 := SimTests(x, cases, i + 1, default, d, entries, GenE(e, Flat(x.s), cs).consts, m1, env1);
        var (r2, j, env2) := Select(x.p, d, cases, i + 1, default, env1);
        RunThen(x, m, n, m1, n2, if r2.Thr? then Halt(Thrown(r2.v), env2.globals) else Go(m2));
        n, m1 := n + n2, m2;
      }
    }
  }

  lemma SimTestJump(x: X, d: Value, v: Value, entry: int, m0: Machine, n0: nat, m: Machine, env: Env)
    returns (n: nat, m1: Machine)
    requires Pre(x, m, env) && Runs(x, m0, n0, Go(m)) && m.stack == m0.stack + [d] + [v]
    requires Placed(x.c, m.ip, I0(OpBin(StrictEq))) && Placed(x.c, m.ip + 1, JumpBy(OpJumpIfTrue, entry - (m.ip + 6)))
    requires 0 <= entry <= |x.c.code|
    ensures Runs(x, m0, n, Go(m1)) && Pre(x, m1, env) && m1.stack == m0.stack
    ensures m1.ip == if x.p.strictEq(d, v) then entry else m.ip + 6
  {
    hide Runs, Rel, I0, JumpBy;
    PlacedSplits(x.c);
    var k := Next0(x, m0, n0, m, OpBin(StrictEq));
    assert k.m.stack == m0.stack + [Bool(x.p.strictEq(d, v))];
    k := NextJump(x, m0, n0 + 1, k.m, OpJumpIfTrue, entry - (m.ip + 6));
    n, m1 := n0 + 2, k.m;
  }

  lemma {:induction false} SimBodies(x: X, cases: seq<Case>, cs: seq<Const>, locals: nat, loops: seq<Target>, m: Machine, env: Env, fuel: nat)
    returns (n: nat, m1: Machine)
    requires Pre(x, m, env) && OkCases(cases, Flat(x.s).Keys, Ctx(loops)) && HasB(x, cases, m.ip, cs, locals, loops)
    requires AllBelow(x.s, locals) && Inside(x.c, loops)
    ensures var (o, env1, f) := ExecCases(x.p, cases, env, fuel);
            Lands(x, m, n, m1, m.ip + SizeBodies(cases), m.stack, loops, o, env1) && n >= fuel - f
    decreases fuel, cases, 5
  {
    hide Runs, Rel, Flat, HasB, HasL, GenL, SizeL, ExecList, BreakIndex, ContinueIndex;
    if cases == [] {
      Start(x, m);
      n, m1 := 0, m;
    } else {
      BodyParts(x, cases, m.ip, cs, locals, loops);
      var g := GenL(cases[0].body, Flat(x.s), m.ip, cs, locals, loops);
      n, m1 := SimL(x, cases[0].body, cs, locals, loops, m, env, fuel);
      var (o, env1, f) := ExecList(x.p, cases[0].body, env, fuel);
      if o.Normal? {
        AllBelowMore(x.s, locals, g.locals);
        var n2, m2 := SimBodies(x, cases[1..], g.consts, g.locals, loops, m1, env1, f);
        var (o2, env2, f2) := ExecCases(x.p, cases[1..], env1, f);
        LandsAfter(x, m, n, m1, n2, m2, m.ip + SizeBodies(cases), m.stack, loops, o2, env2);
        n, m1 := n + n2, m2;
      }
    }
  }

  lemma {:induction false} OkDrop(cases: seq<Case>, j: nat, dom: set<string>, ctx: seq<Context>)
    requires j <= |cases| && OkCases(cases, dom, ctx)
    ensures OkCases(cases[j..], dom, ctx)
  {
    if j == 0 {
      assert cases[j..] == cases;
    } else {
      OkDrop(cases[1..], j - 1, dom, ctx);
      assert cases[1..][j - 1..] == cases[j..];
    }
  }

  /** From an entry: drop the switch value, go to the body or past the end. */
  lemma SimEntry(x: X, to: int, m0: Machine, n0: nat, m: Machine, env: Env) returns (n: nat, m1: Machine)
    requires Pre(x, m, env) && Runs(x, m0, n0, Go(m)) && m.stack != []
    requires Placed(x.c, m.ip, I0(OpPop)) && Placed(x.c, m.ip + 1, JumpBy(OpJump, to - (m.ip + 6)))
    requires 0 <= to <= |x.c.code|
    ensures n0 <= n
    ensures Runs(x, m0, n, Go(m1)) && Pre(x, m1, env) && m1.ip == to && m1.stack == Drop(m.stack, 1)
  {
    hide Runs, Rel, I0, JumpBy;
    var k := Next0(x, m0, n0, m, OpPop);
    k := NextJump(x, m0, n0 + 1, k.m, OpJump, to - (m.ip + 6));
    n, m1 := n0 + 2, k.m;
  }

  lemma OkIsWf(cases: seq<Case>, dom: set<string>, ctx: seq<Context>)
    requires OkCases(cases, dom, ctx)
    ensures WfCases(cases, dom)
  {}

  lemma OkLoop(st: Stmt, dom: set<string>, ctx: seq<Context>)
    requires (st.While? || st.DoWhile?) && OkS(st, dom, ctx)
    ensures WfS(st, dom) && WfE(st.test) && OkS(st.loop, dom, ctx + [Context(st.lbl, false)])
  {}

  lemma OkSwitch(st: Stmt, dom: set<string>, ctx: seq<Context>)
    requires st.Switch? && OkS(st, dom, ctx)
    ensures WfE(st.disc) && (forall i :: 0 <= i < |st.cases| ==> WfOpt(st.cases[i].test))
    ensures OkCases(st.cases, dom, ctx + [Context(st.lbl, true)]) && CaseNames(st.cases) == []
  {
    hide WfE, WfOpt;
  }

  lemma {:induction false} SimSwitch(x: X, st: Stmt, cs: seq<Const>, locals: nat, loops: seq<Target>, m: Machine, env: Env, fuel: nat)
    returns (n: nat, m1: Machine)
    requires ReadyS(x, st, cs, locals, loops, m, env) && st.Switch?
    ensures var (o, env1, f) := Exec(x.p, st, env, fuel);
            Lands(x, m, n, m1, m.ip + SizeS(st), m.stack, loops, o, env1) && n >= fuel - f
    decreases fuel, st, 2
  {
    hide Runs, Rel, Placed, Ext, I0, JumpBy, Flat, HasS, HasCode, HasB, GenE, SizeE, GenS, SizeS, GenTests,
         GenEntries, Eval, Select, ExecCases, BreakIndex, ContinueIndex, AllBelow, SizeBodies, OkS, OkCases;
    SwitchParts(x, st, m.ip, cs, locals, loops);
    OkSwitch(st, Flat(x.s).Keys, Ctx(loops));
    var cases := st.cases;
    var entries := Entries(st, m.ip);
    n, m1 := SimE(x, st.disc, cs, m, env);
    var (r, env1) := Eval(x.p, st.disc, env);
    if r.Val? {
      assert cases[0..] == cases;
      var n2, m2 := SimTests(x, cases, 0, |cases|, r.v, entries, GenE(st.disc, Flat(x.s), cs).consts, m1, env1);
      var (r2, j, env2) := Select(x.p, r.v, cases, 0, |cases|, env1);
      RunThen(x, m, n, m1, n2, if r2.Thr? then Halt(Thrown(r2.v), env2.globals) else Go(m2));
      n, m1 := n + n2, m2;
      if r2.Val? { n, m1 := SimSelected(x, st, cs, locals, loops, j, m, n, m1, env2, fuel); }
    }
  }

  lemma {:induction false} SimSelected(x: X, st: Stmt, cs: seq<Const>, locals: nat, loops: seq<Target>, j: nat,
                                      m: Machine, n0: nat, m0: Machine, env: Env, fuel: nat)
    returns (n: nat, m1: Machine)
    requires st.Switch? && j <= |st.cases| && OkCases(st.cases, Flat(x.s).Keys, Ctx(loops) + [Context(st.lbl, true)]) && HasS(x, st, m.ip, cs, locals, loops)
    requires AllBelow(x.s, locals) && Inside(x.c, loops) && Pre(x, m0, env) && Runs(x, m, n0, Go(m0))
    requires m0.ip == Entries(st, m.ip) + 6 * j && m0.stack != [] && Drop(m0.stack, 1) == m.stack
    ensures var (o, env1, f) := ExecCases(x.p, st.cases[j..], env, fuel);
            Lands(x, m, n, m1, m.ip + SizeS(st), m.stack, loops, EndLoop(o, st.lbl), env1) && n >= fuel - f
    decreases fuel, st, 1
  {
    hide Runs, Rel, Placed, Ext, I0, JumpBy, Flat, HasS, HasCode, HasB, GenE, SizeE, GenS, SizeS, GenTests,
         ExecCases, BreakIndex, ContinueIndex, AllBelow, OkCases, WfCases;
    SwitchParts(x, st, m.ip, cs, locals, loops);
    var cases, t := st.cases, SwitchTarget(st, m.ip);
    var entries := Entries(st, m.ip);
    var bodies := entries + 6 * |cases| + 6;
    var end := m.ip + SizeS(st);
    CtxPush(loops, t);
    OkIsWf(cases, Flat(x.s).Keys, Ctx(loops + [t]));
    BodyAtEnd(cases, j, bodies);
    if j < |cases| { EntryPlaced(x.c, cases, 0, entries, bodies, j); }
    BodyAtBounds(cases, j, bodies);
    n, m1 := SimEntry(x, BodyAt(cases, j, bodies), m, n0, m0, env);
    var csT := GenTests(cases, 0, Flat(x.s), m.ip + SizeE(st.disc), entries, GenE(st.disc, Flat(x.s), cs).consts).consts;
    var cs1, locals1 := DropCases(x, cases, j, bodies, csT, locals, loops + [t]);
    AllBelowMore(x.s, locals, locals1);
    OkDrop(cases, j, Flat(x.s).Keys, Ctx(loops + [t]));
    var n2, m2 := SimBodies(x, cases[j..], cs1, locals1, loops + [t], m1, env, fuel);
    var (o, env1, f) := ExecCases(x.p, cases[j..], env, fuel);
    LandsAfter(x, m, n, m1, n2, m2, end, m.stack, loops + [t], o, env1);
    n, m1 := n + n2, m2;
    LandsSwitch(x, m, n, m1, end, m.stack, loops, t, o, env1);
  }

  lemma {:induction false} BodyAtBounds(cases: seq<Case>, j: nat, pc: int)
    requires j <= |cases|
    ensures pc <= BodyAt(cases, j, pc) <= pc + SizeBodies(cases)
  {
    if j > 0 { BodyAtBounds(cases[1..], j - 1, pc + SizeL(cases[0].body)); }
  }
}
