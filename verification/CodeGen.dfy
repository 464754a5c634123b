/**
 The code generator as a function: the bytes each construct compiles to, the constant
 table and the number of local slots it leaves.  Targets of `break` and `continue` are
 given; the compiler itself patches them in afterwards.
 */
module CodeGen {
  import opened Options
  import opened Values
  import opened Bytecode
  import opened Source

  /** Names in scope and the slots they live in. */
  type Names = map<string, nat>

  datatype G = G(code: seq<int>, consts: seq<Const>)

  /** b extends the table a. */
  ghost predicate Ext(a: seq<Const>, b: seq<Const>) { a <= b }

  lemma ExtTransitive()
    ensures forall a, b, c {:trigger Ext(a, b), Ext(b, c)} :: Ext(a, b) && Ext(b, c) ==> Ext(a, c)
    ensures forall a {:trigger Ext(a, a)} :: Ext(a, a)
  {}

  /** The table extended by k when it is new, and the index of k in it. */
  function AddConst(cs: seq<Const>, k: Const, i: nat := 0): (r: (seq<Const>, nat))
    requires i <= |cs|
    ensures Ext(cs, r.0) && r.1 < |r.0| && r.0[r.1] == k
    decreases |cs| - i
  {
    if i == |cs| then (cs + [k], i) else if cs[i] == k then (cs, i) else AddConst(cs, k, i + 1)
  }

  function Named(op: Op, x: string, cs: seq<Const>): (r: G)
    requires Width(op) == 4
    ensures |r.code| == 5 && Ext(cs, r.consts)
  {
    var (cs1, i) := AddConst(cs, StrConst(x));
    G(I4(op, i), cs1)
  }

  /** The operand of a local access: environment depth 0, slot in the low 16 bits. */
  function Pack(slot: nat): nat { slot % 65536 }

  function GenLoad(x: string, names: Names, cs: seq<Const>): (r: G)
    ensures |r.code| == 5 && Ext(cs, r.consts)
  {
    if x in names then G(I4(OpGetLocal, Pack(names[x])), cs) else Named(OpGetGlobal, x, cs)
  }

  function GenStore(x: string, names: Names, cs: seq<Const>): (r: G)
    ensures |r.code| == 5 && Ext(cs, r.consts)
  {
    if x in names then G(I4(OpSetLocal, Pack(names[x])), cs) else Named(OpSetGlobal, x, cs)
  }

  function GenConst(k: Const, cs: seq<Const>): (r: G)
    ensures |r.code| == 5 && Ext(cs, r.consts)
  {
    var (cs1, i) := AddConst(cs, k);
    G(I4(OpConst, i), cs1)
  }

  /** A relative jump over d bytes. */
  function JumpBy(op: Op, d: int): (r: seq<int>)
    requires Width(op) == 4
    ensures |r| == 5
  {
    I4(op, ToWord(d))
  }

  // ---------- Sizes ----------

  function SizeE(e: Expr): nat {
    match e
    case SmallInt(_) | NumberLit(_) | StringLit(_) => 5
    case BoolLit(_) | NullLit => 1
    case Ident(x) => if x == "undefined" then 1 else 5
    case Unary(op, a) =>
      if op.Typeof? && a.Ident? then 6 else SizeE(a) + (if op.Void? then 2 else 1)
    case Update(_, _, prefix) => if prefix then 16 else 18
    case Binary(_, a, b) => SizeE(a) + SizeE(b) + 1
    case Logical(op, a, b) => SizeE(a) + (if op.Coalesce? then 8 else 7) + SizeE(b)
    case Cond(t, a, b) => SizeE(t) + 5 + SizeE(a) + 5 + SizeE(b)
    case Assign(_, a) => SizeE(a) + 5
    case AssignOp(_, _, a) => 5 + SizeE(a) + 6
    case Sequence(a, rest) => SizeE(a) + SizeRest(rest)
  }

  function SizeRest(rest: seq<Expr>): nat {
    if rest == [] then 0 else 1 + SizeE(rest[0]) + SizeRest(rest[1..])
  }

  // ---------- Expressions ----------

  function UnaryOp(op: UnOp): (r: Op)
    requires !op.Void?
    ensures Width(r) == 0
  {
    match op case Neg => OpNeg case Pos => OpPos case Not => OpNot case BitNot => OpBitNot case Typeof => OpTypeof
  }

  function LogicalJump(op: LogicalOp): (r: Op)
    ensures Width(r) == 4
  {
    if op.OrElse? then OpJumpIfTrue else OpJumpIfFalse
  }

  function UnaryCode(op: UnOp, a: seq<int>): (r: seq<int>)
    ensures |r| == |a| + (if op.Void? then 2 else 1)
  {
    if op.Void? then a + I0(OpPop) + I0(OpUndefined) else a + I0(UnaryOp(op))
  }

  function UpdateCode(load: seq<int>, delta: int, prefix: bool, store: seq<int>): (r: seq<int>)
    ensures |r| == |load| + |store| + (if prefix then 6 else 8)
  {
    if prefix then load + I4(OpInt32, ToWord(delta)) + I0(OpBin(Add)) + store
    else load + I0(OpDup) + I4(OpInt32, ToWord(delta)) + I0(OpBin(Add)) + store + I0(OpPop)
  }

  /** The test of a logical operator: jumps over a pop and n bytes when the left operand decides. */
  function DecideCode(op: LogicalOp, n: nat): (r: seq<int>)
    ensures |r| == if op.Coalesce? then 7 else 6
  {
    if op.Coalesce? then I0(OpDup) + I0(OpIsNullish) + JumpBy(OpJumpIfFalse, 1 + n)
    else I0(OpDup) + JumpBy(LogicalJump(op), 1 + n)
  }

  function LogicalCode(op: LogicalOp, a: seq<int>, b: seq<int>): (r: seq<int>)
    ensures |r| == |a| + (if op.Coalesce? then 8 else 7) + |b|
  {
    a + DecideCode(op, |b|) + I0(OpPop) + b
  }

  function CondCode(t: seq<int>, a: seq<int>, b: seq<int>): (r: seq<int>)
    ensures |r| == |t| + 5 + |a| + 5 + |b|
  {
    t + JumpBy(OpJumpIfFalse, |a| + 5) + a + JumpBy(OpJump, |b|) + b
  }

  function GenE(e: Expr, names: Names, cs: seq<Const>): (r: G)
    ensures |r.code| == SizeE(e) && Ext(cs, r.consts)
    decreases e, 0
  {
    ExtTransitive();
    hide Ext, I0, I4, JumpBy, Named, GenLoad, GenStore, GenConst, UnaryCode, UpdateCode, LogicalCode, CondCode, SizeRest;
    match e
    case SmallInt(i) => G(I4(OpInt32, ToWord(i)), cs)
    case NumberLit(b) => GenConst(NumConst(b), cs)
    case StringLit(s) => GenConst(StrConst(s), cs)
    case BoolLit(b) => G(I0(if b then OpTrue else OpFalse), cs)
    case NullLit => G(I0(OpNull), cs)
    case Ident(x) => if x == "undefined" then G(I0(OpUndefined), cs) else GenLoad(x, names, cs)
    case Unary(op, a) =>
      if op.Typeof? && a.Ident? then
        var l := if a.name in names then GenLoad(a.name, names, cs) else Named(OpGetGlobalSoft, a.name, cs);
        G(l.code + I0(OpTypeof), l.consts)
      else
        var ga := GenE(a, names, cs);
        G(UnaryCode(op, ga.code), ga.consts)
    case Update(x, delta, prefix) =>
      var l := GenLoad(x, names, cs);
      var s := GenStore(x, names, l.consts);
      G(UpdateCode(l.code, delta, prefix, s.code), s.consts)
    case Binary(op, a, b) =>
      var ga := GenE(a, names, cs);
      var gb := GenE(b, names, ga.consts);
      G(ga.code + gb.code + I0(OpBin(op)), gb.consts)
    case Logical(op, a, b) =>
      var ga := GenE(a, names, cs);
      var gb := GenE(b, names, ga.consts);
      G(LogicalCode(op, ga.code, gb.code), gb.consts)
    case Cond(t, a, b) =>
      var gt := GenE(t, names, cs);
      var ga := GenE(a, names, gt.consts);
      var gb := GenE(b, names, ga.consts);
      G(CondCode(gt.code, ga.code, gb.code), gb.consts)
    case Assign(x, a) =>
      var ga := GenE(a, names, cs);
      var s := GenStore(x, names, ga.consts);
      G(ga.code + s.code, s.consts)
    case AssignOp(op, x, a) =>
      var l := GenLoad(x, names, cs);
      var ga := GenE(a, names, l.consts);
      var s := GenStore(x, names, ga.consts);
      G(l.code + ga.code + I0(OpBin(op)) + s.code, s.consts)
    case Sequence(a, rest) =>
      var ga := GenE(a, names, cs);
      var gr := GenRest(rest, names, ga.consts);
      G(ga.code + gr.code, gr.consts)
  }

  function GenRest(rest: seq<Expr>, names: Names, cs: seq<Const>): (r: G)
    ensures |r.code| == SizeRest(rest) && Ext(cs, r.consts)
    decreases rest, 1
  {
    ExtTransitive();
    hide Ext;
    if rest == [] then G([], cs) else
    var g := GenE(rest[0], names, cs);
    var gr := GenRest(rest[1..], names, g.consts);
    G(I0(OpPop) + g.code + gr.code, gr.consts)
  }

  // ---------- Declarations ----------

  function SizeDecls(isLet: bool, ds: seq<Decl>): nat {
    if ds == [] then 0
    else (match ds[0].init case Some(e) => SizeE(e) + 6 case None => if isLet then 7 else 0)
         + SizeDecls(isLet, ds[1..])
  }

  /** Code, constant table, names in scope afterwards and the number of slots. */
  datatype GS = GS(code: seq<int>, consts: seq<Const>, names: Names, locals: nat)

  /** The slot a name has, or a new one. */
  function Declare(x: string, names: Names, locals: nat): (r: (Names, nat))
    ensures x in r.0 && locals <= r.1
  {
    if x in names then (names, locals) else (names[x := locals], locals + 1)
  }

  /** A declared name that was not hoisted gets a slot here, and keeps it to the end of the scope. */
  function GenDecls(isLet: bool, ds: seq<Decl>, names: Names, cs: seq<Const>, locals: nat): (r: GS)
    ensures |r.code| == SizeDecls(isLet, ds) && Ext(cs, r.consts) && locals <= r.locals
  {
    ExtTransitive();
    hide Ext;
    if ds == [] then GS([], cs, names, locals) else
    var (names1, locals1) := Declare(ds[0].name, names, locals);
    if ds[0].init.None? && !isLet then GenDecls(isLet, ds[1..], names1, cs, locals1)
    else
      var g := if ds[0].init.Some? then GenE(ds[0].init.value, names, cs) else G(I0(OpUndefined), cs);
      var s := GenStore(ds[0].name, names1, g.consts);
      var rest := GenDecls(isLet, ds[1..], names1, s.consts, locals1);
      GS(g.code + s.code + I0(OpPop) + rest.code, rest.consts, rest.names, rest.locals)
  }

  /** Code, constants, scope and slot counter after opening a block for let names. */
  datatype H = H(code: seq<int>, consts: seq<Const>, names: Names, locals: nat)

  /** Each name gets a fresh slot, filled with the dead-zone token. */
  function Hoist(xs: seq<string>, names: Names, cs: seq<Const>, locals: nat): (r: H)
    ensures |r.code| == 11 * |xs| && Ext(cs, r.consts) && r.locals == locals + |xs|
  {
    ExtTransitive();
    hide Ext;
    if xs == [] then H([], cs, names, locals) else
    var t := Named(OpGetGlobal, TDZ_NAME, cs);
    var r := Hoist(xs[1..], names[xs[0] := locals], t.consts, locals + 1);
    H(t.code + I4(OpSetLocal, Pack(locals)) + I0(OpPop) + r.code, r.consts, r.names, r.locals)
  }

  // ---------- Statements ----------

  /** An enclosing loop or switch and where its `break` and `continue` lead. */
  datatype Target = Target(lbl: Option<string>, isSwitch: bool, brk: int, cont: int)

  /** The innermost enclosing statement a break, or a continue, leaves to; -1 if none. */
  function BreakIndex(loops: seq<Target>, l: Option<string>): (k: int)
    ensures -1 <= k < |loops|
    ensures k >= 0 ==> Hits(l, loops[k].lbl)
    ensures forall j :: k < j < |loops| ==> !Hits(l, loops[j].lbl)
  {
    if loops == [] then -1
    else if Hits(l, loops[|loops| - 1].lbl) then |loops| - 1
    else BreakIndex(loops[..|loops| - 1], l)
  }

  function ContinueIndex(loops: seq<Target>, l: Option<string>): (k: int)
    ensures -1 <= k < |loops|
    ensures k >= 0 ==> Hits(l, loops[k].lbl) && !loops[k].isSwitch
    ensures forall j :: k < j < |loops| ==> loops[j].isSwitch || !Hits(l, loops[j].lbl)
  {
    if loops == [] then -1
    else if Hits(l, loops[|loops| - 1].lbl) && !loops[|loops| - 1].isSwitch then |loops| - 1
    else ContinueIndex(loops[..|loops| - 1], l)
  }

  function SizeS(st: Stmt): nat
    decreases st, 0
  {
    match st
    case ExprStmt(e) => SizeE(e) + 1
    case EmptyStmt => 0
    case VarDecl(isLet, ds) => SizeDecls(isLet, ds)
    case Block(body) => 11 * |LexNames(body)| + SizeL(body)
    case If(t, a, b) => SizeE(t) + 5 + SizeS(a) + (if b.Some? then 5 + SizeS(b.value) else 0)
    case While(_, t, s) => SizeE(t) + 5 + SizeS(s) + 5
    case DoWhile(_, s, t) => SizeS(s) + SizeE(t) + 5
    case For(_, init, t, u, s) =>
      11 * |InitNames(init)| + SizeInit(init) + SizeTest(t) + SizeS(s) + SizeUpdate(u) + 5
    case Switch(_, d, cases) =>
      SizeE(d) + SizeTests(cases) + 5 + 6 * |cases| + 6 + SizeBodies(cases)
    case Break(_) | Continue(_) => 5
    case Return(a) => (if a.Some? then SizeE(a.value) else 1) + 1
    case Throw(e) => SizeE(e) + 1
  }

  function SizeL(body: seq<Stmt>): nat
    decreases body, 1
  {
    if body == [] then 0 else SizeS(body[0]) + SizeL(body[1..])
  }

  function SizeBodies(cases: seq<Case>): nat
    decreases cases, 2
  {
    if cases == [] then 0 else SizeL(cases[0].body) + SizeBodies(cases[1..])
  }

  function SizeInit(init: ForInit): nat {
    match init case NoInit => 0 case InitExpr(e) => SizeE(e) + 1 case InitDecl(isLet, ds) => SizeDecls(isLet, ds)
  }

  function SizeTest(t: Option<Expr>): nat { if t.Some? then SizeE(t.value) + 5 else 0 }

  function SizeUpdate(u: Option<Expr>): nat { if u.Some? then SizeE(u.value) + 1 else 0 }

  function SizeTests(cases: seq<Case>): nat {
    if cases == [] then 0
    else (if cases[0].test.Some? then 1 + SizeE(cases[0].test.value) + 6 else 0) + SizeTests(cases[1..])
  }

  function GenInit(init: ForInit, names: Names, cs: seq<Const>, locals: nat): (r: GS)
    ensures |r.code| == SizeInit(init) && Ext(cs, r.consts) && locals <= r.locals
  {
    match init
    case NoInit => GS([], cs, names, locals)
    case InitExpr(e) => (var g := GenE(e, names, cs); GS(g.code + I0(OpPop), g.consts, names, locals))
    case InitDecl(isLet, ds) => GenDecls(isLet, ds, names, cs, locals)
  }

  function GenUpdate(u: Option<Expr>, names: Names, cs: seq<Const>): (r: G)
    ensures |r.code| == SizeUpdate(u) && Ext(cs, r.consts)
  {
    if u.None? then G([], cs) else (var g := GenE(u.value, names, cs); G(g.code + I0(OpPop), g.consts))
  }

  function GenTest(t: Option<Expr>, d: int, names: Names, cs: seq<Const>): (r: G)
    ensures |r.code| == SizeTest(t) && Ext(cs, r.consts)
  {
    if t.None? then G([], cs)
    else (var g := GenE(t.value, names, cs); G(g.code + JumpBy(OpJumpIfFalse, d), g.consts))
  }

  function IfCode(t: seq<int>, a: seq<int>): (r: seq<int>)
    ensures |r| == |t| + 5 + |a|
  {
    t + JumpBy(OpJumpIfFalse, |a|) + a
  }

  function WhileCode(t: seq<int>, s: seq<int>): (r: seq<int>)
    ensures |r| == |t| + 5 + |s| + 5
  {
    t + JumpBy(OpJumpIfFalse, |s| + 5) + s + JumpBy(OpJump, -(|t| + 5 + |s| + 5))
  }

  function DoCode(s: seq<int>, t: seq<int>): (r: seq<int>)
    ensures |r| == |s| + |t| + 5
  {
    s + t + JumpBy(OpJumpIfTrue, -(|s| + |t| + 5))
  }

  /** A for statement; t, when not empty, already ends in its conditional jump. */
  function ForCode(init: seq<int>, t: seq<int>, s: seq<int>, u: seq<int>): (r: seq<int>)
    ensures |r| == |init| + |t| + |s| + |u| + 5
  {
    init + t + s + u + JumpBy(OpJump, -(|t| + |s| + |u| + 5))
  }

  function SwitchCode(d: seq<int>, tests: seq<int>, default: nat, entries: seq<int>, bodies: seq<int>): (r: seq<int>)
    ensures |r| == |d| + |tests| + 5 + |entries| + 6 + |bodies|
  {
    d + tests + JumpBy(OpJump, 6 * default) + entries + I0(OpPop) + JumpBy(OpJump, |bodies|) + bodies
  }

  function GenS(st: Stmt, names: Names, pc: int, cs: seq<Const>, locals: nat, loops: seq<Target>): (r: GS)
    ensures |r.code| == SizeS(st) && Ext(cs, r.consts) && locals <= r.locals
    decreases st, 1
  {
    ExtTransitive();
    hide Ext, I0, I4, JumpBy, GenE, SizeE, GenTest, GenUpdate, GenInit, GenDecls, Hoist, GenTests, GenEntries, GenBodies,
         GenL, IfCode, CondCode, WhileCode, DoCode, ForCode, SwitchCode, SizeInit, SizeTest, SizeUpdate, SizeDecls,
         SizeTests, SizeL, SizeBodies, BreakIndex, ContinueIndex, LastDefault;
    match st
    case ExprStmt(e) => (var g := GenE(e, names, cs); GS(g.code + I0(OpPop), g.consts, names, locals))
    case EmptyStmt => GS([], cs, names, locals)
    case VarDecl(isLet, ds) => GenDecls(isLet, ds, names, cs, locals)
    case Block(body) =>
      var h := Hoist(LexNames(body), names, cs, locals);
      var b := GenL(body, h.names, pc + |h.code|, h.consts, h.locals, loops);
      GS(h.code + b.code, b.consts, names, b.locals)
    case If(t, a, b) =>
      var gt := GenE(t, names, cs);
      var ga := GenS(a, names, pc + SizeE(t) + 5, gt.consts, locals, loops);
      if b.None? then GS(IfCode(gt.code, ga.code), ga.consts, ga.names, ga.locals)
      else
        var gb := GenS(b.value, ga.names, pc + SizeE(t) + 5 + SizeS(a) + 5, ga.consts, ga.locals, loops);
        GS(CondCode(gt.code, ga.code, gb.code), gb.consts, gb.names, gb.locals)
    case While(_, _, _) => GenWhile(st, names, pc, cs, locals, loops)
    case DoWhile(_, _, _) => GenWhile(st, names, pc, cs, locals, loops)
    case For(_, _, _, _, _) => GenFor(st, names, pc, cs, locals, loops)
    case Switch(_, _, _) => GenSwitch(st, names, pc, cs, locals, loops)
    case Break(l) =>
      var k := BreakIndex(loops, l);
      GS(JumpBy(OpJump, if k < 0 then 0 else loops[k].brk - (pc + 5)), cs, names, locals)
    case Continue(l) =>
      var k := ContinueIndex(loops, l);
      GS(JumpBy(OpJump, if k < 0 then 0 else loops[k].cont - (pc + 5)), cs, names, locals)
    case Return(a) =>
      var g := if a.Some? then GenE(a.value, names, cs) else G(I0(OpUndefined), cs);
      GS(g.code + I0(OpReturn), g.consts, names, locals)
    case Throw(e) => (var g := GenE(e, names, cs); GS(g.code + I0(OpThrow), g.consts, names, locals))
  }

  function GenWhile(st: Stmt, names: Names, pc: int, cs: seq<Const>, locals: nat, loops: seq<Target>): (r: GS)
    requires st.While? || st.DoWhile?
    ensures |r.code| == SizeS(st) && Ext(cs, r.consts) && locals <= r.locals
    decreases st, 0
  {
    ExtTransitive();
    hide Ext, GenE, SizeE, WhileCode, DoCode;
    match st
    case While(l, t, s) =>
      var body := pc + SizeE(t) + 5;
      var target := Target(l, false, body + SizeS(s) + 5, body + SizeS(s));
      var gt := GenE(t, names, cs);
      var gs := GenS(s, names, body, gt.consts, locals, loops + [target]);
      GS(WhileCode(gt.code, gs.code), gs.consts, gs.names, gs.locals)
    case DoWhile(l, s, t) =>
      var target := Target(l, false, pc + SizeS(s) + SizeE(t) + 5, pc + SizeS(s));
      var gs := GenS(s, names, pc, cs, locals, loops + [target]);
      var gt := GenE(t, gs.names, gs.consts);
      GS(DoCode(gs.code, gt.code), gt.consts, gs.names, gs.locals)
  }

  function GenFor(st: Stmt, names: Names, pc: int, cs: seq<Const>, locals: nat, loops: seq<Target>): (r: GS)
    requires st.For?
    ensures |r.code| == SizeS(st) && Ext(cs, r.consts) && locals <= r.locals
    decreases st, 0
  {
    ExtTransitive();
    hide Ext, Hoist, GenInit, GenTest, GenUpdate, ForCode, SizeInit, SizeTest, SizeUpdate, InitNames;
    var For(l, init, t, u, s) := st;
    var h := Hoist(InitNames(init), names, cs, locals);
    var gi := GenInit(init, h.names, h.consts, h.locals);
    var body := pc + |h.code| + SizeInit(init) + SizeTest(t);
    var target := Target(l, false, body + SizeS(s) + SizeUpdate(u) + 5, body + SizeS(s));
    var gt := GenTest(t, SizeS(s) + SizeUpdate(u) + 5, gi.names, gi.consts);
    var gs := GenS(s, gi.names, body, gt.consts, gi.locals, loops + [target]);
    var gu := GenUpdate(u, gs.names, gs.consts);
    GS(ForCode(h.code + gi.code, gt.code, gs.code, gu.code), gu.consts,
       if init.InitDecl? && init.isLet then names else gs.names, gs.locals)
  }

  function GenSwitch(st: Stmt, names: Names, pc: int, cs: seq<Const>, locals: nat, loops: seq<Target>): (r: GS)
    requires st.Switch?
    ensures |r.code| == SizeS(st) && Ext(cs, r.consts) && locals <= r.locals
    decreases st, 0
  {
    ExtTransitive();
    hide Ext, GenE, GenTests, GenEntries, SwitchCode, SizeE, SizeTests, SizeBodies, LastDefault;
    var Switch(l, d, cases) := st;
    var gd := GenE(d, names, cs);
    var entries := pc + SizeE(d) + SizeTests(cases) + 5;
    var bodies := entries + 6 * |cases| + 6;
    var target := Target(l, true, pc + SizeS(st), -1);
    var gt := GenTests(cases, 0, names, pc + SizeE(d), entries, gd.consts);
    var default := LastDefault(cases, 0, |cases|);
    var gb := GenBodies(cases, names, bodies, gt.consts, locals, loops + [target]);
    GS(SwitchCode(gd.code, gt.code, default, GenEntries(cases, 0, entries, bodies), gb.code),
       gb.consts, gb.names, gb.locals)
  }

  function GenL(body: seq<Stmt>, names: Names, pc: int, cs: seq<Const>, locals: nat, loops: seq<Target>): (r: GS)
    ensures |r.code| == SizeL(body) && Ext(cs, r.consts) && locals <= r.locals
    decreases body, 1
  {
    ExtTransitive();
    hide Ext;
    if body == [] then GS([], cs, names, locals) else
    var g := GenS(body[0], names, pc, cs, locals, loops);
    var r := GenL(body[1..], g.names, pc + SizeS(body[0]), g.consts, g.locals, loops);
    GS(g.code + r.code, r.consts, r.names, r.locals)
  }

  function GenBodies(cases: seq<Case>, names: Names, pc: int, cs: seq<Const>, locals: nat, loops: seq<Target>): (r: GS)
    ensures |r.code| == SizeBodies(cases) && Ext(cs, r.consts) && locals <= r.locals
    decreases cases, 2
  {
    ExtTransitive();
    hide Ext;
    if cases == [] then GS([], cs, names, locals) else
    var g := GenL(cases[0].body, names, pc, cs, locals, loops);
    var r := GenBodies(cases[1..], g.names, pc + SizeL(cases[0].body), g.consts, g.locals, loops);
    GS(g.code + r.code, r.consts, r.names, r.locals)
  }

  /** The tests of a switch from its i-th case on: a match jumps to the case's entry. */
  function GenTests(cases: seq<Case>, i: nat, names: Names, pc: int, entries: int, cs: seq<Const>): (r: G)
    ensures |r.code| == SizeTests(cases) && Ext(cs, r.consts)
  {
    ExtTransitive();
    hide Ext;
    if cases == [] then G([], cs)
    else if cases[0].test.None? then GenTests(cases[1..], i + 1, names, pc, entries, cs)
    else
      var g := GenE(cases[0].test.value, names, cs);
      var at := pc + 1 + SizeE(cases[0].test.value) + 1;
      var r := GenTests(cases[1..], i + 1, names, at + 5, entries, g.consts);
      G(I0(OpDup) + g.code + I0(OpBin(StrictEq)) + JumpBy(OpJumpIfTrue, entries + 6 * i - (at + 5)) + r.code,
        r.consts)
  }

  /** The case a switch without a match enters. */
  function LastDefault(cases: seq<Case>, i: nat, default: nat): (r: nat) {
    if cases == [] then default
    else LastDefault(cases[1..], i + 1, if cases[0].test.None? then i else default)
  }

  /** Entry stubs: drop the switch value, go to the case's body. */
  function GenEntries(cases: seq<Case>, i: nat, entries: int, body: int): (r: seq<int>)
    ensures |r| == 6 * |cases|
  {
    if cases == [] then []
    else I0(OpPop) + JumpBy(OpJump, body - (entries + 6 * i + 6))
         + GenEntries(cases[1..], i + 1, entries, body + SizeL(cases[0].body))
  }

  // ---------- Functions ----------

  /** Slots of the parameters: one per position, the last of a name wins. */
  function ParamSlots(params: seq<string>): (r: Names) {
    if params == [] then map[] else ParamSlots(params[..|params| - 1])[params[|params| - 1] := |params| - 1]
  }

  /** Declares each name that has no slot yet. */
  function DeclareAll(xs: seq<string>, names: Names, locals: nat): (Names, nat) {
    if xs == [] then (names, locals) else
    var (names1, locals1) := Declare(xs[0], names, locals);
    DeclareAll(xs[1..], names1, locals1)
  }

  function Compile(f: Function): Chunk {
    var (names, locals) := DeclareAll(VarNamesIn(f.body), ParamSlots(f.params), |f.params|);
    var h := Hoist(LexNames(f.body), names, [], locals);
    var b := GenL(f.body, h.names, |h.code|, h.consts, h.locals, []);
    Chunk(h.code + b.code + I0(OpUndefined) + I0(OpReturn), b.consts, b.locals, |f.params|)
  }
}
