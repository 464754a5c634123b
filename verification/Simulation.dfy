/** Compiled code, run on the machine, does what the source construct means. */
module Simulation {
  import opened Values
  import opened Bytecode
  import opened Source
  import opened CodeGen

  /** The encodings do not truncate: jumps, constant indices and slots fit their fields. */
  predicate Fits(c: Chunk) {
    |c.code| < 0x8000_0000 && |c.consts| <= TWO32 && c.locals <= 65536
  }

  /** The code g stands at pc. */
  ghost predicate Placed(c: Chunk, pc: int, g: seq<int>) {
    0 <= pc && pc + |g| <= |c.code| && c.code[pc..pc + |g|] == g
  }

  lemma PlacedSplits(c: Chunk)
    ensures forall pc, a, b {:trigger Placed(c, pc, a + b)} ::
              Placed(c, pc, a + b) ==> Placed(c, pc, a) && Placed(c, pc + |a|, b)
    ensures forall pc, g {:trigger Placed(c, pc, g)} :: Placed(c, pc, g) ==> 0 <= pc && pc + |g| <= |c.code|
  {
    forall pc, a, b | Placed(c, pc, a + b)
      ensures Placed(c, pc, a) && Placed(c, pc + |a|, b)
    {
      var g := c.code[pc..pc + |a| + |b|];
      assert g[..|a|] == a && g[|a|..] == b;
      assert c.code[pc..pc + |a|] == g[..|a|];
      assert c.code[pc + |a|..pc + |a| + |b|] == g[|a|..];
    }
  }

  // ---------- Slots against scopes ----------

  /** The scope chain flattened, inner names hiding outer ones. */
  function Flat(s: seq<Names>): Names {
    if s == [] then map[] else Flat(s[..|s| - 1]) + s[|s| - 1]
  }

  lemma {:induction false} FlatFind(s: seq<Names>, x: string)
    ensures x in Flat(s) <==> Find(s, x) >= 0
    ensures x in Flat(s) ==> Flat(s)[x] == s[Find(s, x)][x]
  {
    if s != [] && x !in s[|s| - 1] { FlatFind(s[..|s| - 1], x); }
  }

  lemma {:induction false} FindSame(s: seq<Names>, frames: seq<Frame>, x: string)
    requires |s| == |frames| && forall k :: 0 <= k < |s| ==> s[k].Keys == frames[k].Keys
    ensures Find(s, x) == Find(frames, x)
  {
    if s != [] && x !in s[|s| - 1] { FindSame(s[..|s| - 1], frames[..|s| - 1], x); }
  }

  /** No two bindings of the chain share a slot. */
  ghost predicate Distinct(s: seq<Names>) {
    forall k, x, l, y :: 0 <= k < |s| && 0 <= l < |s| && x in s[k] && y in s[l] && s[k][x] == s[l][y]
      ==> k == l && x == y
  }

  /** Every binding's value is in its slot. */
  ghost predicate Rel(s: seq<Names>, frames: seq<Frame>, locals: seq<Value>) {
    && |s| == |frames| && Distinct(s)
    && (forall k :: 0 <= k < |s| ==> s[k].Keys == frames[k].Keys)
    && (forall k, x :: 0 <= k < |s| && x in s[k] ==> s[k][x] < |locals| && locals[s[k][x]] == frames[k][x])
  }

  lemma RelUpdate(s: seq<Names>, frames: seq<Frame>, locals: seq<Value>, k: nat, v: string, w: Value)
    requires Rel(s, frames, locals) && k < |s| && v in s[k]
    ensures s[k][v] < |locals|
    ensures Rel(s, SetFrame(frames, k, v, w), locals[s[k][v] := w])
  {
    var frames1, locals1 := SetFrame(frames, k, v, w), locals[s[k][v] := w];
    forall l, y | 0 <= l < |s| && y in s[l]
      ensures s[l][y] < |locals1| && locals1[s[l][y]] == frames1[l][y]
    {
      if s[l][y] == s[k][v] { assert l == k && y == v; }
    }
  }

  datatype X = X(p: Prims, c: Chunk, s: seq<Names>)

  ghost predicate Pre(x: X, m: Machine, env: Env) {
    x.p.counting.AsIs? && Fits(x.c) && |x.s| == |env.frames| && Rel(x.s, env.frames, m.locals) && |m.locals| == x.c.locals && m.globals == env.globals
  }

  lemma Resolve(x: X, m: Machine, env: Env, v: string)
    requires Pre(x, m, env)
    ensures v in Flat(x.s) <==> Find(env.frames, v) >= 0
    ensures v in Flat(x.s) ==>
      var slot := Flat(x.s)[v];
      slot < |m.locals| && Pack(slot) == slot && m.locals[slot] == env.frames[Find(env.frames, v)][v]
  {
    hide Distinct;
    FlatFind(x.s, v);
    FindSame(x.s, env.frames, v);
  }

  lemma RelSet(x: X, m: Machine, env: Env, v: string, w: Value)
    requires Pre(x, m, env) && v in Flat(x.s)
    ensures Find(env.frames, v) >= 0
    ensures Flat(x.s)[v] < |m.locals|
    ensures Rel(x.s, SetFrame(env.frames, Find(env.frames, v), v, w), m.locals[Flat(x.s)[v] := w])
  {
    hide Distinct, SetFrame;
    FlatFind(x.s, v);
    FindSame(x.s, env.frames, v);
    RelUpdate(x.s, env.frames, m.locals, Find(x.s, v), v, w);
  }

  // ---------- Running ----------

  ghost predicate Runs(x: X, m: Machine, n: nat, k: Conf) { Steps(x.p, x.c, Go(m), n) == k }

  lemma RunThen(x: X, m: Machine, n1: nat, m1: Machine, n2: nat, k: Conf)
    requires Runs(x, m, n1, Go(m1)) && Runs(x, m1, n2, k)
    ensures Runs(x, m, n1 + n2, k)
  {
    hide Steps;
    StepsAdd(x.p, x.c, Go(m), n1, n2);
  }

  lemma Exec0(x: X, m: Machine, op: Op)
    requires Width(op) == 0 && Placed(x.c, m.ip, I0(op))
    ensures Step(x.p, x.c, m) == Execute(x.p, x.c, op, 0, m.(ip := m.ip + 1))
  {
    hide Execute, ByteOp, OpByte;
    OpRoundTrip(op);
    assert x.c.code[m.ip] == x.c.code[m.ip..m.ip + 1][0];
  }

  lemma Exec4(x: X, m: Machine, op: Op, a: int)
    requires Width(op) == 4 && 0 <= a < TWO32 && Placed(x.c, m.ip, I4(op, a))
    ensures Step(x.p, x.c, m) == Execute(x.p, x.c, op, a, m.(ip := m.ip + 5))
  {
    hide Execute, ByteOp, OpByte, LE32, UnLE32;
    OpRoundTrip(op);
    WordRoundTrip(a);
    var w := x.c.code[m.ip..m.ip + 5];
    assert w[0] == x.c.code[m.ip] && w[1..] == x.c.code[m.ip + 1..m.ip + 5];
    assert w[1..] == LE32(a);
  }

  /** One more instruction after n steps. */
  lemma Next0(x: X, m: Machine, n: nat, m1: Machine, op: Op) returns (k: Conf)
    requires Runs(x, m, n, Go(m1)) && Width(op) == 0 && Placed(x.c, m1.ip, I0(op))
    ensures k == Execute(x.p, x.c, op, 0, m1.(ip := m1.ip + 1))
    ensures Runs(x, m, n + 1, k)
  {
    hide Execute, Step;
    Exec0(x, m1, op);
    k := Step(x.p, x.c, m1);
    assert Steps(x.p, x.c, k, 0) == k;
    RunThen(x, m, n, m1, 1, k);
  }

  lemma Next4(x: X, m: Machine, n: nat, m1: Machine, op: Op, a: int) returns (k: Conf)
    requires Runs(x, m, n, Go(m1)) && Width(op) == 4 && 0 <= a < TWO32 && Placed(x.c, m1.ip, I4(op, a))
    ensures k == Execute(x.p, x.c, op, a, m1.(ip := m1.ip + 5))
    ensures Runs(x, m, n + 1, k)
  {
    hide Execute, Step;
    Exec4(x, m1, op, a);
    k := Step(x.p, x.c, m1);
    assert Steps(x.p, x.c, k, 0) == k;
    RunThen(x, m, n, m1, 1, k);
  }

  /** A jump by d lands d bytes past its own end. */
  lemma NextJump(x: X, m: Machine, n: nat, m1: Machine, op: Op, d: int) returns (k: Conf)
    requires Runs(x, m, n, Go(m1)) && Fits(x.c)
    requires op.OpJump? || op.OpJumpIfFalse? || op.OpJumpIfTrue?
    requires Placed(x.c, m1.ip, JumpBy(op, d)) && 0 <= m1.ip + 5 + d <= |x.c.code|
    ensures
      var m2 := m1.(ip := m1.ip + 5, stack := if op.OpJump? then m1.stack else Drop(m1.stack, 1));
      var taken := op.OpJump? || (op.OpJumpIfTrue? == Truthy(Peek(m1.stack, 0)));
      k == Go(if taken then m2.(ip := m1.ip + 5 + d) else m2)
    ensures Runs(x, m, n + 1, k)
  {
    SignedRoundTrip(d);
    k := Next4(x, m, n, m1, op, ToWord(d));
  }

  lemma Start(x: X, m: Machine)
    ensures Runs(x, m, 0, Go(m))
  {}

  // ---------- Expressions ----------

  predicate WfE(e: Expr) {
    match e
    case SmallInt(i) => FitsInt32(i)
    case Unary(_, a) => WfE(a)
    case Update(_, d, _) => d == 1 || d == -1
    case Binary(_, a, b) => WfE(a) && WfE(b)
    case Logical(_, a, b) => WfE(a) && WfE(b)
    case Cond(t, a, b) => WfE(t) && WfE(a) && WfE(b)
    case Assign(_, a) => WfE(a)
    case AssignOp(_, _, a) => WfE(a)
    case Sequence(a, rest) => WfE(a) && forall i :: 0 <= i < |rest| ==> WfE(rest[i])
    case _ => true
  }

  /** After n steps from m the value is pushed and the code passed, or the run has thrown. */
  ghost predicate Yields(x: X, m: Machine, size: int, out: (Res, Env), n: nat, m1: Machine) {
    match out.0
    case Val(v) =>
      && Runs(x, m, n, Go(m1)) && Pre(x, m1, out.1)
      && m1.ip == m.ip + size && m1.stack == m.stack + [v]
    case Thr(v) => Runs(x, m, n, Halt(Thrown(v), out.1.globals))
  }

  lemma SimLoad(x: X, v: string, cs: seq<Const>, m: Machine, env: Env) returns (n: nat, m1: Machine)
    requires Pre(x, m, env)
    requires var g := GenLoad(v, Flat(x.s), cs); Placed(x.c, m.ip, g.code) && Ext(g.consts, x.c.consts)
    ensures Yields(x, m, 5, (Load(env, v), env), n, m1)
  {
    hide Rel, Flat, Find;
    Resolve(x, m, env, v);
    Start(x, m);
    n := 1;
    var k;
    if v in Flat(x.s) {
      k := Next4(x, m, 0, m, OpGetLocal, Pack(Flat(x.s)[v]));
    } else {
      k := Next4(x, m, 0, m, OpGetGlobal, AddConst(cs, StrConst(v)).1);
    }
    m1 := if k.Go? then k.m else m;
  }

  /** A store leaves its value on the stack. */
  lemma SimStore(x: X, v: string, cs: seq<Const>, w: Value, m0: Machine, n0: nat, m: Machine, env: Env)
    returns (n: nat, m1: Machine)
    requires Pre(x, m, env) && Runs(x, m0, n0, Go(m)) && m.stack != [] && Peek(m.stack, 0) == w
    requires var g := GenStore(v, Flat(x.s), cs); Placed(x.c, m.ip, g.code) && Ext(g.consts, x.c.consts)
    ensures n == n0 + 1
    ensures match Store(x.p, env, v, w)
            case (Val(u), env1) =>
              u == w && Runs(x, m0, n, Go(m1)) && Pre(x, m1, env1) && m1.ip == m.ip + 5 && m1.stack == m.stack
            case (Thr(t), env1) => Runs(x, m0, n, Halt(Thrown(t), env1.globals))
  {
    hide Rel, Flat, Find;
    Resolve(x, m, env, v);
    n := n0 + 1;
    var k;
    if v in Flat(x.s) {
      RelSet(x, m, env, v, w);
      k := Next4(x, m0, n0, m, OpSetLocal, Pack(Flat(x.s)[v]));
    } else {
      k := Next4(x, m0, n0, m, OpSetGlobal, AddConst(cs, StrConst(v)).1);
    }
    m1 := if k.Go? then k.m else m;
  }

  // Where the parts of a construct's code stand.  Each lemma opens one layout, once.

  ghost predicate HasCode(x: X, e: Expr, cs: seq<Const>, pc: int) {
    var g := GenE(e, Flat(x.s), cs);
    Placed(x.c, pc, g.code) && Ext(g.consts, x.c.consts)
  }

  lemma LogicalLayout(c: Chunk, pc: int, op: LogicalOp, a: seq<int>, b: seq<int>)
    requires Placed(c, pc, LogicalCode(op, a, b))
    ensures var mid := pc + |a| + (if op.Coalesce? then 7 else 6);
            && Placed(c, pc, a) && Placed(c, pc + |a|, DecideCode(op, |b|))
            && Placed(c, mid, I0(OpPop)) && Placed(c, mid + 1, b)
            && 0 <= pc && mid + 1 + |b| <= |c.code|
  {
    hide Placed, DecideCode, I0;
    PlacedSplits(c);
  }

  lemma CondLayout(c: Chunk, pc: int, t: seq<int>, a: seq<int>, b: seq<int>)
    requires Placed(c, pc, CondCode(t, a, b))
    ensures var p1, p2 := pc + |t|, pc + |t| + 5 + |a|;
            && Placed(c, pc, t) && Placed(c, p1, JumpBy(OpJumpIfFalse, |a| + 5)) && Placed(c, p1 + 5, a)
            && Placed(c, p2, JumpBy(OpJump, |b|)) && Placed(c, p2 + 5, b)
            && 0 <= pc && p2 + 5 + |b| <= |c.code|
  {
    hide Placed, JumpBy;
    PlacedSplits(c);
  }

  lemma LogicalParts(x: X, e: Expr, cs: seq<Const>, pc: int)
    requires e.Logical? && HasCode(x, e, cs, pc)
    ensures
      var ga := GenE(e.left, Flat(x.s), cs);
      var mid := pc + SizeE(e.left) + (if e.lop.Coalesce? then 7 else 6);
      && HasCode(x, e.left, cs, pc) && HasCode(x, e.right, ga.consts, mid + 1)
      && Placed(x.c, pc + SizeE(e.left), DecideCode(e.lop, SizeE(e.right))) && Placed(x.c, mid, I0(OpPop))
      && SizeE(e) == mid + 1 + SizeE(e.right) - pc && 0 <= pc && pc + SizeE(e) <= |x.c.code|
  {
    hide Ext, Placed, I0, I4, JumpBy, Flat, DecideCode, GenLoad, GenStore, LogicalCode;
    var ga := GenE(e.left, Flat(x.s), cs);
    LogicalLayout(x.c, pc, e.lop, ga.code, GenE(e.right, Flat(x.s), ga.consts).code);
    ExtTransitive();
  }

  lemma CondParts(x: X, e: Expr, cs: seq<Const>, pc: int)
    requires e.Cond? && HasCode(x, e, cs, pc)
    ensures
      var gt := GenE(e.test, Flat(x.s), cs);
      var ga := GenE(e.cons, Flat(x.s), gt.consts);
      var p1 := pc + SizeE(e.test);
      var p2 := p1 + 5 + SizeE(e.cons);
      && HasCode(x, e.test, cs, pc) && HasCode(x, e.cons, gt.consts, p1 + 5) && HasCode(x, e.alt, ga.consts, p2 + 5)
      && Placed(x.c, p1, JumpBy(OpJumpIfFalse, SizeE(e.cons) + 5)) && Placed(x.c, p2, JumpBy(OpJump, SizeE(e.alt)))
      && SizeE(e) == p2 + 5 + SizeE(e.alt) - pc && 0 <= pc && pc + SizeE(e) <= |x.c.code|
  {
    hide Ext, Placed, I0, I4, JumpBy, Flat, DecideCode, GenLoad, GenStore, CondCode;
    var gt := GenE(e.test, Flat(x.s), cs);
    var ga := GenE(e.cons, Flat(x.s), gt.consts);
    CondLayout(x.c, pc, gt.code, ga.code, GenE(e.alt, Flat(x.s), ga.consts).code);
    ExtTransitive();
  }

  lemma BinaryParts(x: X, e: Expr, cs: seq<Const>, pc: int)
    requires e.Binary? && HasCode(x, e, cs, pc)
    ensures
      var ga := GenE(e.left, Flat(x.s), cs);
      var p1 := pc + SizeE(e.left);
      && HasCode(x, e.left, cs, pc) && HasCode(x, e.right, ga.consts, p1)
      && Placed(x.c, p1 + SizeE(e.right), I0(OpBin(e.bop))) && SizeE(e) == SizeE(e.left) + SizeE(e.right) + 1
  {
    hide Ext, Placed, I0, I4, JumpBy, Flat, DecideCode, GenLoad, GenStore;
    PlacedSplits(x.c);
    ExtTransitive();
  }

  lemma AssignOpParts(x: X, e: Expr, cs: seq<Const>, pc: int)
    requires e.AssignOp? && HasCode(x, e, cs, pc)
    ensures
      var l := GenLoad(e.name, Flat(x.s), cs);
      var ga := GenE(e.value, Flat(x.s), l.consts);
      var s := GenStore(e.name, Flat(x.s), ga.consts);
      var p2 := pc + 5 + SizeE(e.value);
      && Placed(x.c, pc, l.code) && Ext(l.consts, x.c.consts)
      && HasCode(x, e.value, l.consts, pc + 5) && Placed(x.c, p2, I0(OpBin(e.bop)))
      && Placed(x.c, p2 + 1, s.code) && Ext(s.consts, x.c.consts) && SizeE(e) == SizeE(e.value) + 11
  {
    hide Ext, Placed, I0, I4, JumpBy, Flat, DecideCode, GenLoad, GenStore;
    PlacedSplits(x.c);
    ExtTransitive();
  }

  lemma UpdateParts(x: X, e: Expr, cs: seq<Const>, pc: int)
    requires e.Update? && HasCode(x, e, cs, pc)
    ensures
      var l := GenLoad(e.name, Flat(x.s), cs);
      var s := GenStore(e.name, Flat(x.s), l.consts);
      var p1 := pc + (if e.prefix then 5 else 6);
      && Placed(x.c, pc, l.code) && Ext(l.consts, x.c.consts)
      && (!e.prefix ==> Placed(x.c, pc + 5, I0(OpDup)) && Placed(x.c, p1 + 11, I0(OpPop)))
      && Placed(x.c, p1, I4(OpInt32, ToWord(e.delta))) && Placed(x.c, p1 + 5, I0(OpBin(Add)))
      && Placed(x.c, p1 + 6, s.code) && Ext(s.consts, x.c.consts)
      && SizeE(e) == if e.prefix then 16 else 18
  {
    hide Ext, Placed, I0, I4, JumpBy, Flat, DecideCode, GenLoad, GenStore;
    PlacedSplits(x.c);
    ExtTransitive();
  }

  lemma RestParts(x: X, rest: seq<Expr>, cs: seq<Const>, pc: int)
    requires rest != []
    requires var g := GenRest(rest, Flat(x.s), cs); Placed(x.c, pc, g.code) && Ext(g.consts, x.c.consts)
    ensures
      var g := GenE(rest[0], Flat(x.s), cs);
      var gr := GenRest(rest[1..], Flat(x.s), g.consts);
      && Placed(x.c, pc, I0(OpPop)) && HasCode(x, rest[0], cs, pc + 1)
      && Placed(x.c, pc + 1 + SizeE(rest[0]), gr.code) && Ext(gr.consts, x.c.consts)
      && SizeRest(rest) == 1 + SizeE(rest[0]) + SizeRest(rest[1..])
  {
    hide Ext, Placed, I0, I4, JumpBy, Flat, DecideCode, GenLoad, GenStore;
    PlacedSplits(x.c);
    ExtTransitive();
  }

  /** The code of e stands at the machine's instruction pointer, its constants in the table. */
  ghost predicate ReadyE(x: X, e: Expr, cs: seq<Const>, m: Machine, env: Env) {
    Pre(x, m, env) && WfE(e) && HasCode(x, e, cs, m.ip)
  }

  /** A step after a value-yielding run, given by its last configuration. */
  lemma After(x: X, m: Machine, n1: nat, m1: Machine, n2: nat, size: int, out: (Res, Env), m2: Machine)
    requires Runs(x, m, n1, Go(m1)) && Yields(x, m1, size, out, n2, m2)
    ensures out.0.Val? ==> Runs(x, m, n1 + n2, Go(m2))
    ensures out.0.Thr? ==> Runs(x, m, n1 + n2, Halt(Thrown(out.0.v), out.1.globals))
  {
    hide Runs;
    RunThen(x, m, n1, m1, n2, if out.0.Val? then Go(m2) else Halt(Thrown(out.0.v), out.1.globals));
  }

  lemma {:induction false} SimE(x: X, e: Expr, cs: seq<Const>, m: Machine, env: Env) returns (n: nat, m1: Machine)
    requires ReadyE(x, e, cs, m, env)
    ensures Yields(x, m, SizeE(e), Eval(x.p, e, env), n, m1)
    decreases e, 1
  {
    hide Placed, Rel, Runs, Flat;
    match e
    case SmallInt(_) | NumberLit(_) | StringLit(_) | BoolLit(_) | NullLit => n, m1 := SimLiteral(x, e, cs, m, env);
    case Ident(v) =>
      if v == "undefined" { n, m1 := SimLiteral(x, e, cs, m, env); } else { n, m1 := SimLoad(x, v, cs, m, env); }
    case Unary(op, a) =>
      if op.Typeof? && a.Ident? { n, m1 := SimTypeof(x, a.name, cs, m, env); } else { n, m1 := SimUnary(x, e, cs, m, env); }
    case Update(_, _, _) => n, m1 := SimUpdate(x, e, cs, m, env);
    case Binary(_, _, _) => n, m1 := SimBinary(x, e, cs, m, env);
    case Logical(_, _, _) => n, m1 := SimLogical(x, e, cs, m, env);
    case Cond(_, _, _) => n, m1 := SimCond(x, e, cs, m, env);
    case Assign(_, _) => n, m1 := SimAssign(x, e, cs, m, env);
    case AssignOp(_, _, _) => n, m1 := SimAssignOp(x, e, cs, m, env);
    case Sequence(_, _) => n, m1 := SimSequence(x, e, cs, m, env);
  }

  lemma SimLiteral(x: X, e: Expr, cs: seq<Const>, m: Machine, env: Env) returns (n: nat, m1: Machine)
    requires ReadyE(x, e, cs, m, env)
    requires e.SmallInt? || e.NumberLit? || e.StringLit? || e.BoolLit? || e.NullLit? || e == Ident("undefined")
    ensures Yields(x, m, SizeE(e), Eval(x.p, e, env), n, m1)
  {
    hide Rel, Runs, Placed, Flat, I0, I4;
    Start(x, m);
    n := 1;
    var k;
    match e
    case SmallInt(i) =>
      SignedRoundTrip(i);
      k := Next4(x, m, 0, m, OpInt32, ToWord(i));
      m1 := k.m;
    case NumberLit(b) =>
      k := Next4(x, m, 0, m, OpConst, AddConst(cs, NumConst(b)).1);
      m1 := k.m;
    case StringLit(s) =>
      k := Next4(x, m, 0, m, OpConst, AddConst(cs, StrConst(s)).1);
      m1 := k.m;
    case BoolLit(b) =>
      k := Next0(x, m, 0, m, if b then OpTrue else OpFalse);
      m1 := k.m;
    case NullLit =>
      k := Next0(x, m, 0, m, OpNull);
      m1 := k.m;
    case Ident(_) =>
      k := Next0(x, m, 0, m, OpUndefined);
      m1 := k.m;
  }

  lemma SimSoft(x: X, v: string, cs: seq<Const>, m: Machine, env: Env) returns (n: nat, m1: Machine)
    requires Pre(x, m, env)
    requires var g := Named(OpGetGlobalSoft, v, cs); Placed(x.c, m.ip, g.code) && Ext(g.consts, x.c.consts)
    ensures Yields(x, m, 5, (Val(ReadGlobalSoft(env.globals, v)), env), n, m1)
  {
    hide Rel, Runs;
    Start(x, m);
    var k := Next4(x, m, 0, m, OpGetGlobalSoft, AddConst(cs, StrConst(v)).1);
    n, m1 := 1, k.m;
  }

  lemma SimTypeof(x: X, v: string, cs: seq<Const>, m: Machine, env: Env) returns (n: nat, m1: Machine)
    requires ReadyE(x, Unary(Typeof, Ident(v)), cs, m, env)
    ensures Yields(x, m, 6, Eval(x.p, Unary(Typeof, Ident(v)), env), n, m1)
  {
    hide Runs, Rel, Ext, Placed, I0, I4, JumpBy, ToWord, Flat, Find, Distinct, GenStore, Load, Store, WfE;
    PlacedSplits(x.c);
    Resolve(x, m, env, v);
    if v in Flat(x.s) {
      n, m1 := SimLoad(x, v, cs, m, env);
      if Load(env, v).Thr? { return; }
    } else {
      n, m1 := SimSoft(x, v, cs, m, env);
    }
    var k := Next0(x, m, n, m1, OpTypeof);
    n, m1 := n + 1, k.m;
  }

  lemma {:induction false} SimUnary(x: X, e: Expr, cs: seq<Const>, m: Machine, env: Env) returns (n: nat, m1: Machine)
    requires ReadyE(x, e, cs, m, env) && e.Unary? && !(e.op.Typeof? && e.operand.Ident?)
    ensures Yields(x, m, SizeE(e), Eval(x.p, e, env), n, m1)
    decreases e, 0
  {
    hide Runs, Rel, Ext, Placed, I0, I4, JumpBy, ToWord, Flat, Find, Distinct, GenLoad, GenStore, Named, Load, Store,
         AddConst;
    PlacedSplits(x.c);
    n, m1 := SimE(x, e.operand, cs, m, env);
    if Eval(x.p, e.operand, env).0.Val? {
      var k;
      if e.op.Void? {
        k := Next0(x, m, n, m1, OpPop);
        k := Next0(x, m, n + 1, k.m, OpUndefined);
        n, m1 := n + 2, k.m;
      } else {
        k := Next0(x, m, n, m1, UnaryOp(e.op));
        n := n + 1;
        if k.Go? { m1 := k.m; }
      }
    }
  }

  lemma {:induction false} SimBinary(x: X, e: Expr, cs: seq<Const>, m: Machine, env: Env) returns (n: nat, m1: Machine)
    requires ReadyE(x, e, cs, m, env) && e.Binary?
    ensures Yields(x, m, SizeE(e), Eval(x.p, e, env), n, m1)
    decreases e, 0
  {
    hide Runs, Rel, Ext, Placed, I0, I4, JumpBy, ToWord, Flat, Find, Distinct, GenLoad, GenStore, Named, Load, Store,
         AddConst, HasCode, GenE, SizeE;
    BinaryParts(x, e, cs, m.ip);
    var ga := GenE(e.left, Flat(x.s), cs);
    var a := Eval(x.p, e.left, env);
    n, m1 := SimE(x, e.left, cs, m, env);
    if a.0.Val? {
      var b := Eval(x.p, e.right, a.1);
      var n2, m2 := SimE(x, e.right, ga.consts, m1, a.1);
      After(x, m, n, m1, n2, SizeE(e.right), b, m2);
      n, m1 := n + n2, m2;
      if b.0.Val? {
        var k := Next0(x, m, n, m1, OpBin(e.bop));
        n := n + 1;
        if k.Go? { m1 := k.m; }
      }
    }
  }

  /** The test of a logical operator: past its right operand of b bytes if decided, else at the pop before it. */
  lemma SimDecide(x: X, op: LogicalOp, m0: Machine, n0: nat, m: Machine, b: nat) returns (n: nat, m1: Machine)
    requires Runs(x, m0, n0, Go(m)) && Fits(x.c) && m.stack != []
    requires Placed(x.c, m.ip, DecideCode(op, b)) && m.ip + (if op.Coalesce? then 7 else 6) + 1 + b <= |x.c.code|
    ensures Runs(x, m0, n, Go(m1)) && m1.locals == m.locals && m1.globals == m.globals && m1.stack == m.stack
    ensures var pop := m.ip + (if op.Coalesce? then 7 else 6);
            m1.ip == if Decided(op, Peek(m.stack, 0)) then pop + 1 + b else pop
  {
    hide Placed, I0, I4, JumpBy, Step, Runs;
    PlacedSplits(x.c);
    var k := Next0(x, m0, n0, m, OpDup);
    n := n0 + 1;
    if op.Coalesce? {
      k := Next0(x, m0, n, k.m, OpIsNullish);
      n := n + 1;
      assert Drop(k.m.stack, 1) == m.stack;
    }
    k := NextJump(x, m0, n, k.m, LogicalJump(op), 1 + b);
    n, m1 := n + 1, k.m;
  }

  lemma {:induction false} SimLogical(x: X, e: Expr, cs: seq<Const>, m: Machine, env: Env) returns (n: nat, m1: Machine)
    requires ReadyE(x, e, cs, m, env) && e.Logical?
    ensures Yields(x, m, SizeE(e), Eval(x.p, e, env), n, m1)
    decreases e, 0
  {
    hide Fits, Runs, Rel, Ext, Placed, I0, I4, JumpBy, ToWord, Flat, Find, Distinct, GenLoad, GenStore, Named, Load, Store,
         AddConst, HasCode, GenE, SizeE;
    LogicalParts(x, e, cs, m.ip);
    var ga := GenE(e.left, Flat(x.s), cs);
    var a := Eval(x.p, e.left, env);
    n, m1 := SimE(x, e.left, cs, m, env);
    if a.0.Val? {
      n, m1 := SimDecide(x, e.lop, m, n, m1, SizeE(e.right));
      if !Decided(e.lop, a.0.v) {
        var k := Next0(x, m, n, m1, OpPop);
        var n2, m2 := SimE(x, e.right, ga.consts, k.m, a.1);
        After(x, m, n + 1, k.m, n2, SizeE(e.right), Eval(x.p, e.right, a.1), m2);
        n, m1 := n + 1 + n2, m2;
      }
    }
  }

  lemma {:induction false} SimCond(x: X, e: Expr, cs: seq<Const>, m: Machine, env: Env) returns (n: nat, m1: Machine)
    requires ReadyE(x, e, cs, m, env) && e.Cond?
    ensures Yields(x, m, SizeE(e), Eval(x.p, e, env), n, m1)
    decreases e, 0
  {
    hide Execute, Step, Runs, Rel, Ext, Placed, I0, I4, JumpBy, ToWord, Flat, Find, Distinct, GenLoad, GenStore, Named,
         Load, Store, AddConst, HasCode, GenE, SizeE;
    CondParts(x, e, cs, m.ip);
    var gt := GenE(e.test, Flat(x.s), cs);
    var ga := GenE(e.cons, Flat(x.s), gt.consts);
    var t := Eval(x.p, e.test, env);
    n, m1 := SimE(x, e.test, cs, m, env);
    if t.0.Val? {
      var k := NextJump(x, m, n, m1, OpJumpIfFalse, SizeE(e.cons) + 5);
      n, m1 := n + 1, k.m;
      if Truthy(t.0.v) {
        var n2, m2 := SimE(x, e.cons, gt.consts, m1, t.1);
        var r := Eval(x.p, e.cons, t.1);
        After(x, m, n, m1, n2, SizeE(e.cons), r, m2);
        n, m1 := n + n2, m2;
        if r.0.Val? {
          k := NextJump(x, m, n, m1, OpJump, SizeE(e.alt));
          n, m1 := n + 1, k.m;
        }
      } else {
        var n2, m2 := SimE(x, e.alt, ga.consts, m1, t.1);
        After(x, m, n, m1, n2, SizeE(e.alt), Eval(x.p, e.alt, t.1), m2);
        n, m1 := n + n2, m2;
      }
    }
  }

  lemma {:induction false} SimAssign(x: X, e: Expr, cs: seq<Const>, m: Machine, env: Env) returns (n: nat, m1: Machine)
    requires ReadyE(x, e, cs, m, env) && e.Assign?
    ensures Yields(x, m, SizeE(e), Eval(x.p, e, env), n, m1)
    decreases e, 0
  {
    hide Execute, Runs, Rel, Ext, Placed, I0, I4, JumpBy, ToWord, Flat, Find, Distinct, GenLoad, GenStore, Named, Load,
         Store, AddConst;
    PlacedSplits(x.c);
    ExtTransitive();
    var ga := GenE(e.value, Flat(x.s), cs);
    var a := Eval(x.p, e.value, env);
    n, m1 := SimE(x, e.value, cs, m, env);
    if a.0.Val? { n, m1 := SimStore(x, e.name, ga.consts, a.0.v, m, n, m1, a.1); }
  }

  lemma {:induction false} SimAssignOp(x: X, e: Expr, cs: seq<Const>, m: Machine, env: Env) returns (n: nat, m1: Machine)
    requires ReadyE(x, e, cs, m, env) && e.AssignOp?
    ensures Yields(x, m, SizeE(e), Eval(x.p, e, env), n, m1)
    decreases e, 0
  {
    hide Runs, Rel, Ext, Placed, I0, I4, JumpBy, ToWord, Flat, Find, Distinct, GenLoad, GenStore, Named, Load, Store,
         AddConst, HasCode, GenE, SizeE;
    AssignOpParts(x, e, cs, m.ip);
    var l := GenLoad(e.name, Flat(x.s), cs);
    var ga := GenE(e.value, Flat(x.s), l.consts);
    n, m1 := SimLoad(x, e.name, cs, m, env);
    if Load(env, e.name).Val? {
      var a := Eval(x.p, e.value, env);
      var n2, m2 := SimE(x, e.value, l.consts, m1, env);
      After(x, m, n, m1, n2, SizeE(e.value), a, m2);
      n, m1 := n + n2, m2;
      if a.0.Val? {
        var k := Next0(x, m, n, m1, OpBin(e.bop));
        n := n + 1;
        if k.Go? { n, m1 := SimStore(x, e.name, ga.consts, Peek(k.m.stack, 0), m, n, k.m, a.1); }
      }
    }
  }

  lemma {:induction false} SimUpdate(x: X, e: Expr, cs: seq<Const>, m: Machine, env: Env) returns (n: nat, m1: Machine)
    requires ReadyE(x, e, cs, m, env) && e.Update?
    ensures Yields(x, m, SizeE(e), Eval(x.p, e, env), n, m1)
    decreases e, 0
  {
    hide Runs, Rel, Ext, Placed, I0, I4, JumpBy, ToWord, Flat, Find, Distinct, GenLoad, GenStore, Named, Load, Store,
         AddConst, HasCode, GenE, SizeE;
    UpdateParts(x, e, cs, m.ip);
    var l := GenLoad(e.name, Flat(x.s), cs);
    n, m1 := SimLoad(x, e.name, cs, m, env);
    var was := Load(env, e.name);
    if was.Val? {
      var k := Go(m1);
      if !e.prefix {
        k := Next0(x, m, n, m1, OpDup);
        n := n + 1;
      }
      SignedRoundTrip(e.delta);
      k := Next4(x, m, n, k.m, OpInt32, ToWord(e.delta));
      k := Next0(x, m, n + 1, k.m, OpBin(Add));
      n := n + 2;
      var sum := x.p.Binary(Add, was.v, Int(e.delta));
      if sum.Val? {
        if e.prefix {
          n, m1 := SimStore(x, e.name, l.consts, sum.v, m, n, k.m, env);
        } else {
          assert k.m.stack == m.stack + [was.v, sum.v];
          n, m1 := SimPostfix(x, e.name, l.consts, was.v, sum.v, m, n, k.m, env);
        }
      }
    }
  }

  /** The end of a postfix update: store the new value, drop it, keep the one below. */
  lemma SimPostfix(x: X, v: string, cs: seq<Const>, was: Value, w: Value, m0: Machine, n0: nat, m: Machine, env: Env)
    returns (n: nat, m1: Machine)
    requires Pre(x, m, env) && Runs(x, m0, n0, Go(m)) && m.stack == m0.stack + [was, w]
    requires var g := GenStore(v, Flat(x.s), cs);
             Placed(x.c, m.ip, g.code) && Placed(x.c, m.ip + 5, I0(OpPop)) && Ext(g.consts, x.c.consts)
    ensures match Store(x.p, env, v, w)
            case (Val(u), env1) =>
              u == w && Runs(x, m0, n, Go(m1)) && Pre(x, m1, env1) && m1.ip == m.ip + 6
              && m1.stack == m0.stack + [was]
            case (Thr(t), env1) => Runs(x, m0, n, Halt(Thrown(t), env1.globals))
  {
    hide Runs, Rel, Ext, Placed, I0, I4, JumpBy, ToWord, Flat, Find, Distinct, GenLoad, GenStore, Named, Load, Store,
         AddConst, WfE;
    PlacedSplits(x.c);
    n, m1 := SimStore(x, v, cs, w, m0, n0, m, env);
    if Store(x.p, env, v, w).0.Val? {
      var k := Next0(x, m0, n, m1, OpPop);
      n, m1 := n + 1, k.m;
    }
  }

  lemma {:induction false} SimSequence(x: X, e: Expr, cs: seq<Const>, m: Machine, env: Env) returns (n: nat, m1: Machine)
    requires ReadyE(x, e, cs, m, env) && e.Sequence?
    ensures Yields(x, m, SizeE(e), Eval(x.p, e, env), n, m1)
    decreases e, 0
  {
    hide Execute, Runs, Rel, Ext, Placed, I0, I4, JumpBy, ToWord, Flat, Find, Distinct, GenLoad, GenStore, Named, Load,
         Store, AddConst;
    PlacedSplits(x.c);
    ExtTransitive();
    var ga := GenE(e.first, Flat(x.s), cs);
    var a := Eval(x.p, e.first, env);
    n, m1 := SimE(x, e.first, cs, m, env);
    if a.0.Val? { n, m1 := SimRest(x, a.0.v, e.rest, ga.consts, m, n, m1, a.1); }
  }

  lemma {:induction false} SimRest(x: X, v: Value, rest: seq<Expr>, cs: seq<Const>, m0: Machine, n0: nat, m: Machine, env: Env)
    returns (n: nat, m1: Machine)
    requires Pre(x, m, env) && Runs(x, m0, n0, Go(m)) && m.stack == m0.stack + [v]
    requires forall i :: 0 <= i < |rest| ==> WfE(rest[i])
    requires var g := GenRest(rest, Flat(x.s), cs); Placed(x.c, m.ip, g.code) && Ext(g.consts, x.c.consts)
    ensures match EvalRest(x.p, v, rest, env)
            case (Val(w), env1) =>
              Runs(x, m0, n, Go(m1)) && Pre(x, m1, env1)
              && m1.ip == m.ip + SizeRest(rest) && m1.stack == m0.stack + [w]
            case (Thr(t), env1) => Runs(x, m0, n, Halt(Thrown(t), env1.globals))
    decreases rest, 2
  {
    hide Runs, Rel, Ext, Placed, I0, I4, JumpBy, ToWord, Flat, Find, Distinct, GenLoad, GenStore, Named, Load, Store,
         AddConst, HasCode, GenE, SizeE, GenRest;
    n, m1 := n0, m;
    if rest == [] {
      assert SizeRest(rest) == 0;
    } else {
      RestParts(x, rest, cs, m.ip);
      var g := GenE(rest[0], Flat(x.s), cs);
      var r := Eval(x.p, rest[0], env);
      var k := Next0(x, m0, n0, m, OpPop);
      var n2, m2 := SimE(x, rest[0], cs, k.m, env);
      After(x, m0, n0 + 1, k.m, n2, SizeE(rest[0]), r, m2);
      n, m1 := n0 + 1 + n2, m2;
      if r.0.Val? { n, m1 := SimRest(x, r.0.v, rest[1..], g.consts, m0, n, m1, r.1); }
    }
  }
}
