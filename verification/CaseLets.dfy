/**
 A let declared directly in a case of a switch.  A switch opens no scope in the compiler, so such a
 declaration stores in whatever binding of the name is around it: the compiled code is that of the
 function in which it is an assignment.
 */
module CaseLets {
  import opened Options
  import opened Values
  import opened Bytecode
  import opened Source
  import opened CodeGen
  import opened Simulation
  import opened StatementSim
  import opened CompilerCorrect

  // ---------- The function that is compiled ----------

  function Assigning(d: Decl): Stmt {
    ExprStmt(Assign(d.name, if d.init.Some? then d.init.value else Ident("undefined")))
  }

  function AssigningAll(ds: seq<Decl>): seq<Stmt> {
    if ds == [] then [] else [Assigning(ds[0])] + AssigningAll(ds[1..])
  }

  /** st with the lets that stand directly in cases turned into assignments. */
  function Plain(st: Stmt): Stmt
    decreases st, 0
  {
    match st
    case Block(body) => Block(PlainL(body))
    case If(t, a, b) => If(t, Plain(a), match b case Some(s) => Some(Plain(s)) case None => None)
    case While(l, t, s) => While(l, t, Plain(s))
    case DoWhile(l, s, t) => DoWhile(l, Plain(s), t)
    case For(l, init, t, u, s) => For(l, init, t, u, Plain(s))
    case Switch(l, d, cases) => Switch(l, d, PlainCases(cases))
    case _ => st
  }

  function PlainL(body: seq<Stmt>): (r: seq<Stmt>)
    ensures |r| == |body|
    decreases body, 1
  {
    if body == [] then [] else [Plain(body[0])] + PlainL(body[1..])
  }

  predicate DeclaresLet(st: Stmt) { st.VarDecl? && st.isLet && st.decls != [] }

  function PlainBody(body: seq<Stmt>): (r: seq<Stmt>)
    ensures |r| == |body|
    decreases body, 1
  {
    if body == [] then []
    else [if DeclaresLet(body[0]) then Block(AssigningAll(body[0].decls)) else Plain(body[0])] + PlainBody(body[1..])
  }

  function PlainCases(cases: seq<Case>): (r: seq<Case>)
    ensures |r| == |cases|
    ensures forall i :: 0 <= i < |cases| ==> r[i].test == cases[i].test
    decreases cases, 2
  {
    if cases == [] then [] else [Case(cases[0].test, PlainBody(cases[0].body))] + PlainCases(cases[1..])
  }

  function PlainFunction(f: Function): Function { Function(f.params, PlainL(f.body)) }

  // ---------- It is the same function when no case declares a let ----------

  lemma {:induction false} PlainSame(st: Stmt)
    requires NoCaseLets(st)
    ensures Plain(st) == st
    decreases st, 0
  {
    match st {
      case Block(body) => PlainSameL(body);
      case If(_, a, b) =>
        PlainSame(a);
        if b.Some? { PlainSame(b.value); }
      case While(_, _, s) => PlainSame(s);
      case DoWhile(_, s, _) => PlainSame(s);
      case For(_, _, _, _, s) => PlainSame(s);
      case Switch(_, _, cases) => PlainSameCases(cases);
      case _ =>
    }
  }

  lemma {:induction false} PlainSameL(body: seq<Stmt>)
    requires NoCaseLetsL(body)
    ensures PlainL(body) == body && (LexNames(body) == [] ==> PlainBody(body) == body)
    decreases body, 1
  {
    if body != [] {
      PlainSame(body[0]);
      PlainSameL(body[1..]);
      assert LexNames(body) == [] ==> !DeclaresLet(body[0]);
    }
  }

  lemma {:induction false} PlainSameCases(cases: seq<Case>)
    requires NoCaseLetsIn(cases) && CaseNames(cases) == []
    ensures PlainCases(cases) == cases
    decreases cases, 2
  {
    if cases != [] {
      PlainSameL(cases[0].body);
      PlainSameCases(cases[1..]);
    }
  }

  lemma PlainFunctionSame(f: Function)
    requires NoCaseLetsL(f.body)
    ensures PlainFunction(f) == f
  {
    PlainSameL(f.body);
  }

  // ---------- The plain function meets the compiler theorem's conditions ----------

  lemma {:induction false} AssigningFine(ds: seq<Decl>, dom: set<string>, ctx: seq<Context>)
    requires WfDecls(ds, dom)
    ensures OkL(AssigningAll(ds), dom, ctx) && LexNames(AssigningAll(ds)) == []
    decreases |ds|
  {
    if ds != [] {
      AssigningFine(ds[1..], dom, ctx);
      assert WfE(if ds[0].init.Some? then ds[0].init.value else Ident("undefined"));
      assert OkS(Assigning(ds[0]), dom, ctx);
    }
  }

  lemma {:induction false} PlainLex(body: seq<Stmt>)
    ensures LexNames(PlainL(body)) == LexNames(body) && LexNames(PlainBody(body)) == []
    decreases body
  {
    if body != [] {
      PlainLex(body[1..]);
      if body[0].VarDecl? && body[0].isLet && body[0].decls == [] { assert DeclNames(body[0].decls) == []; }
    }
  }

  lemma {:induction false} PlainFine(st: Stmt, dom: set<string>, ctx: seq<Context>)
    requires WfS(st, dom) && JumpsS(st, ctx)
    ensures OkS(Plain(st), dom, ctx)
    decreases st, 0, 1
  {
    hide WfOpt, WfE;
    match st {
      case Block(body) =>
        PlainLex(body);
        PlainFineL(body, dom + NamesOf(LexNames(body)), ctx);
      case If(_, a, b) =>
        PlainFine(a, dom, ctx);
        if b.Some? { PlainFine(b.value, dom, ctx); }
      case While(l, _, s) => PlainFine(s, dom, ctx + [Context(l, false)]);
      case DoWhile(l, s, _) => PlainFine(s, dom, ctx + [Context(l, false)]);
      case For(_, _, _, _, _) => PlainFineFor(st, dom, ctx);
      case Switch(_, _, _) => PlainFineSwitch(st, dom, ctx);
      case _ =>
    }
  }

  lemma {:induction false} PlainFineFor(st: Stmt, dom: set<string>, ctx: seq<Context>)
    requires st.For? && WfS(st, dom) && JumpsS(st, ctx)
    ensures OkS(Plain(st), dom, ctx)
    decreases st, 0, 0
  {
    hide WfOpt, WfInit, InitNames, NamesOf;
    PlainFine(st.loop, dom + NamesOf(InitNames(st.init)), ctx + [Context(st.lbl, false)]);
  }

  lemma {:induction false} PlainFineSwitch(st: Stmt, dom: set<string>, ctx: seq<Context>)
    requires st.Switch? && WfS(st, dom) && JumpsS(st, ctx)
    ensures OkS(Plain(st), dom, ctx)
    decreases st, 0, 0
  {
    hide WfOpt, WfE, PlainCases;
    PlainFineCases(st.cases, dom, ctx + [Context(st.lbl, true)]);
  }

  lemma {:induction false} PlainFineL(body: seq<Stmt>, dom: set<string>, ctx: seq<Context>)
    requires WfL(body, dom) && JumpsL(body, ctx)
    ensures OkL(PlainL(body), dom, ctx)
    ensures OkL(PlainBody(body), dom, ctx)
    decreases body, 1
  {
    hide WfOpt, WfE;
    if body != [] {
      PlainFine(body[0], dom, ctx);
      PlainFineL(body[1..], dom, ctx);
      if DeclaresLet(body[0]) { PlainFineLet(body[0], dom, ctx); }
    }
  }

  lemma PlainFineLet(st: Stmt, dom: set<string>, ctx: seq<Context>)
    requires WfS(st, dom) && DeclaresLet(st)
    ensures OkS(Block(AssigningAll(st.decls)), dom, ctx)
  {
    AssigningFine(st.decls, dom, ctx);
    assert dom + NamesOf([]) == dom;
  }

  lemma {:induction false} PlainFineCases(cases: seq<Case>, dom: set<string>, ctx: seq<Context>)
    requires WfCases(cases, dom) && JumpsCases(cases, ctx)
    ensures OkCases(PlainCases(cases), dom, ctx)
    ensures CaseNames(PlainCases(cases)) == []
    decreases cases, 2
  {
    if cases != [] {
      PlainLex(cases[0].body);
      PlainFineL(cases[0].body, dom, ctx);
      PlainFineCases(cases[1..], dom, ctx);
    }
  }

  lemma {:induction false} PlainVars(st: Stmt)
    ensures VarNames(Plain(st)) == VarNames(st)
    decreases st, 0
  {
    match st {
      case Block(body) => PlainVarsL(body);
      case If(_, a, b) =>
        PlainVars(a);
        if b.Some? { PlainVars(b.value); }
      case While(_, _, s) => PlainVars(s);
      case DoWhile(_, s, _) => PlainVars(s);
      case For(_, _, _, _, s) => PlainVars(s);
      case Switch(_, _, cases) => PlainVarsOf(cases);
      case _ =>
    }
  }

  lemma {:induction false} PlainVarsL(body: seq<Stmt>)
    ensures VarNamesIn(PlainL(body)) == VarNamesIn(body) && VarNamesIn(PlainBody(body)) == VarNamesIn(body)
    decreases body, 1
  {
    if body != [] {
      PlainVars(body[0]);
      PlainVarsL(body[1..]);
      if DeclaresLet(body[0]) { AssigningVars(body[0].decls); }
    }
  }

  lemma {:induction false} AssigningVars(ds: seq<Decl>)
    ensures VarNamesIn(AssigningAll(ds)) == []
    decreases |ds|
  {
    if ds != [] { AssigningVars(ds[1..]); }
  }

  lemma {:induction false} PlainVarsOf(cases: seq<Case>)
    ensures VarNamesOf(PlainCases(cases)) == VarNamesOf(cases)
    decreases cases, 2
  {
    if cases != [] {
      PlainVarsL(cases[0].body);
      PlainVarsOf(cases[1..]);
    }
  }

  lemma PlainFunctionFine(f: Function)
    requires WfFunction(f)
    ensures WfFunction(PlainFunction(f)) && NoCaseLetsL(PlainL(f.body))
    ensures VarNamesIn(PlainL(f.body)) == VarNamesIn(f.body) && LexNames(PlainL(f.body)) == LexNames(f.body)
  {
    hide WfL, JumpsL, VarNamesIn, LexNames, PlainL, NoCaseLetsL;
    PlainLex(f.body);
    PlainVarsL(f.body);
    PlainFineL(f.body, NamesOf(f.params) + NamesOf(VarNamesIn(f.body)) + NamesOf(LexNames(f.body)), []);
  }

  // ---------- The same code ----------

  lemma {:induction false} AssigningCode(ds: seq<Decl>, names: Names, pc: int, cs: seq<Const>, locals: nat, loops: seq<Target>)
    requires WfDecls(ds, names.Keys)
    ensures SizeL(AssigningAll(ds)) == SizeDecls(true, ds)
    ensures GenL(AssigningAll(ds), names, pc, cs, locals, loops) == GenDecls(true, ds, names, cs, locals)
    decreases |ds|
  {
    hide GenStore, I0, WfOpt, GenE, SizeE, Assigning;
    if ds != [] {
      var d := ds[0];
      assert d.name in names;
      var g := if d.init.Some? then GenE(d.init.value, names, cs) else G(I0(OpUndefined), cs);
      var s := GenStore(d.name, names, g.consts);
      AssigningOne(d, names, pc, cs, locals, loops);
      assert AssigningAll(ds)[1..] == AssigningAll(ds[1..]);
      AssigningCode(ds[1..], names, pc + SizeS(Assigning(d)), s.consts, locals, loops);
    }
  }

  lemma AssigningOne(d: Decl, names: Names, pc: int, cs: seq<Const>, locals: nat, loops: seq<Target>)
    ensures
      var g := if d.init.Some? then GenE(d.init.value, names, cs) else G(I0(OpUndefined), cs);
      var s := GenStore(d.name, names, g.consts);
      && GenS(Assigning(d), names, pc, cs, locals, loops) == GS(g.code + s.code + I0(OpPop), s.consts, names, locals)
      && SizeS(Assigning(d)) == match d.init case Some(e) => SizeE(e) + 6 case None => 7
  {
    hide GenStore, I0;
    var e := if d.init.Some? then d.init.value else Ident("undefined");
    var g := if d.init.Some? then GenE(d.init.value, names, cs) else G(I0(OpUndefined), cs);
    assert GenE(e, names, cs) == g;
    assert GenE(Assign(d.name, e), names, cs).code == g.code + GenStore(d.name, names, g.consts).code;
  }

  lemma {:induction false} SameSize(st: Stmt)
    ensures SizeS(Plain(st)) == SizeS(st)
    decreases st, 0
  {
    hide SizeE, SizeDecls, SizeInit, SizeTest, SizeUpdate, SizeTests;
    match st {
      case Block(body) =>
        PlainLex(body);
        SameSizeL(body);
      case If(_, a, b) =>
        SameSize(a);
        if b.Some? { SameSize(b.value); }
      case While(_, _, s) => SameSize(s);
      case DoWhile(_, s, _) => SameSize(s);
      case For(_, _, _, _, s) => SameSize(s);
      case Switch(_, _, cases) => SameSizeCases(cases);
      case _ =>
    }
  }

  lemma {:induction false} SameSizeL(body: seq<Stmt>)
    ensures SizeL(PlainL(body)) == SizeL(body) && SizeL(PlainBody(body)) == SizeL(body)
    decreases body, 1
  {
    hide SizeDecls;
    if body != [] {
      SameSize(body[0]);
      SameSizeL(body[1..]);
      if DeclaresLet(body[0]) { AssigningSize(body[0].decls); }
    }
  }

  lemma {:induction false} AssigningSize(ds: seq<Decl>)
    ensures SizeS(Block(AssigningAll(ds))) == SizeDecls(true, ds) && SizeL(AssigningAll(ds)) == SizeDecls(true, ds)
    ensures LexNames(AssigningAll(ds)) == []
    decreases |ds|
  {
    if ds != [] {
      AssigningSize(ds[1..]);
      AssigningOne(ds[0], map[], 0, [], 0, []);
      assert AssigningAll(ds)[1..] == AssigningAll(ds[1..]);
    }
  }

  lemma {:induction false} SameSizeCases(cases: seq<Case>)
    ensures SizeBodies(PlainCases(cases)) == SizeBodies(cases) && SizeTests(PlainCases(cases)) == SizeTests(cases)
    decreases cases, 2
  {
    hide SizeE;
    if cases != [] {
      SameSizeL(cases[0].body);
      SameSizeCases(cases[1..]);
    }
  }

  lemma {:induction false} SameTests(cases: seq<Case>, i: nat, names: Names, pc: int, entries: int, cs: seq<Const>, default: nat)
    ensures GenTests(PlainCases(cases), i, names, pc, entries, cs) == GenTests(cases, i, names, pc, entries, cs)
    ensures LastDefault(PlainCases(cases), i, default) == LastDefault(cases, i, default)
    decreases |cases|
  {
    hide GenE, SizeE, I0, JumpBy;
    if cases != [] {
      var default1 := if cases[0].test.None? then i else default;
      if cases[0].test.None? {
        SameTests(cases[1..], i + 1, names, pc, entries, cs, default1);
      } else {
        var g := GenE(cases[0].test.value, names, cs);
        SameTests(cases[1..], i + 1, names, pc + 1 + SizeE(cases[0].test.value) + 1 + 5, entries, g.consts, default1);
      }
    }
  }

  lemma {:induction false} SameEntries(cases: seq<Case>, i: nat, entries: int, body: int)
    ensures GenEntries(PlainCases(cases), i, entries, body) == GenEntries(cases, i, entries, body)
    decreases |cases|
  {
    hide SizeL, I0, JumpBy;
    if cases != [] {
      SameSizeL(cases[0].body);
      SameEntries(cases[1..], i + 1, entries, body + SizeL(cases[0].body));
    }
  }

  lemma {:induction false} SameS(st: Stmt, names: Names, pc: int, cs: seq<Const>, locals: nat, loops: seq<Target>)
    requires WfS(st, names.Keys)
    ensures GenS(Plain(st), names, pc, cs, locals, loops) == GenS(st, names, pc, cs, locals, loops)
    decreases st, 1
  {
    hide GenS, WfS;
    match st {
      case Block(_) => SameBlock(st, names, pc, cs, locals, loops);
      case If(_, _, _) => SameIf(st, names, pc, cs, locals, loops);
      case While(_, _, _) => SameLoop(st, names, pc, cs, locals, loops);
      case DoWhile(_, _, _) => SameLoop(st, names, pc, cs, locals, loops);
      case For(_, _, _, _, _) => SameFor(st, names, pc, cs, locals, loops);
      case Switch(_, _, _) => SameSwitch(st, names, pc, cs, locals, loops);
      case _ =>
    }
  }

  lemma BlockShape(body: seq<Stmt>, names: Names, pc: int, cs: seq<Const>, locals: nat, loops: seq<Target>)
    ensures var h := Hoist(LexNames(body), names, cs, locals);
            var b := GenL(body, h.names, pc + |h.code|, h.consts, h.locals, loops);
            GenS(Block(body), names, pc, cs, locals, loops) == GS(h.code + b.code, b.consts, names, b.locals)
  {
    hide Hoist, GenL, LexNames;
  }

  lemma {:induction false} SameBlock(st: Stmt, names: Names, pc: int, cs: seq<Const>, locals: nat, loops: seq<Target>)
    requires WfS(st, names.Keys) && st.Block?
    ensures GenS(Plain(st), names, pc, cs, locals, loops) == GenS(st, names, pc, cs, locals, loops)
    decreases st, 0
  {
    hide Hoist, GenL, GenS, WfL, LexNames, PlainL;
    PlainLex(st.body);
    BlockShape(st.body, names, pc, cs, locals, loops);
    BlockShape(PlainL(st.body), names, pc, cs, locals, loops);
    var h := Hoist(LexNames(st.body), names, cs, locals);
    HoistKeys(LexNames(st.body), names, cs, locals);
    SameL(st.body, h.names, pc + |h.code|, h.consts, h.locals, loops);
  }

  lemma {:induction false} SameIf(st: Stmt, names: Names, pc: int, cs: seq<Const>, locals: nat, loops: seq<Target>)
    requires WfS(st, names.Keys) && st.If?
    ensures GenS(Plain(st), names, pc, cs, locals, loops) == GenS(st, names, pc, cs, locals, loops)
    decreases st, 0
  {
    hide GenS, GenE, SizeE, SizeS, CondCode, IfCode;
    IfShape(st, names, pc, cs, locals, loops);
    IfShape(Plain(st), names, pc, cs, locals, loops);
    var at, gt := pc + SizeE(st.test) + 5, GenE(st.test, names, cs);
    var ga := GenS(st.cons, names, at, gt.consts, locals, loops);
    SameSize(st.cons);
    SameS(st.cons, names, at, gt.consts, locals, loops);
    KeptS(st.cons, names, at, gt.consts, locals, loops);
    if st.alt.Some? { SameS(st.alt.value, names, at + SizeS(st.cons) + 5, ga.consts, ga.locals, loops); }
  }

  lemma {:induction false} SameLoop(st: Stmt, names: Names, pc: int, cs: seq<Const>, locals: nat, loops: seq<Target>)
    requires WfS(st, names.Keys) && (st.While? || st.DoWhile?)
    ensures GenS(Plain(st), names, pc, cs, locals, loops) == GenS(st, names, pc, cs, locals, loops)
    decreases st, 0
  {
    hide GenS, GenWhile, GenE, SizeE, SizeS;
    SameSize(st.loop);
    LoopWf(st, names.Keys);
    if st.While? {
      SameS(st.loop, names, pc + SizeE(st.test) + 5, GenE(st.test, names, cs).consts, locals, loops + [WhileTarget(st, pc)]);
    } else {
      SameS(st.loop, names, pc, cs, locals, loops + [DoTarget(st, pc)]);
    }
    SameGenWhile(st, names, pc, cs, locals, loops);
    SameWhile(st, names, pc, cs, locals, loops);
  }

  lemma LoopWf(st: Stmt, dom: set<string>)
    requires WfS(st, dom) && (st.While? || st.DoWhile?)
    ensures WfS(st.loop, dom)
  {}

  lemma SameGenWhile(st: Stmt, names: Names, pc: int, cs: seq<Const>, locals: nat, loops: seq<Target>)
    requires (st.While? || st.DoWhile?) && SizeS(Plain(st.loop)) == SizeS(st.loop)
    requires st.While? ==>
      var (at, c, t) := (pc + SizeE(st.test) + 5, GenE(st.test, names, cs).consts, loops + [WhileTarget(st, pc)]);
      GenS(Plain(st.loop), names, at, c, locals, t) == GenS(st.loop, names, at, c, locals, t)
    requires st.DoWhile? ==>
      var t := loops + [DoTarget(st, pc)]; GenS(Plain(st.loop), names, pc, cs, locals, t) == GenS(st.loop, names, pc, cs, locals, t)
    ensures GenWhile(Plain(st), names, pc, cs, locals, loops) == GenWhile(st, names, pc, cs, locals, loops)
  {
    hide GenS, GenE, SizeE, SizeS, WhileCode, DoCode;
  }

  lemma SameWhile(st: Stmt, names: Names, pc: int, cs: seq<Const>, locals: nat, loops: seq<Target>)
    requires (st.While? || st.DoWhile?) && GenWhile(Plain(st), names, pc, cs, locals, loops) == GenWhile(st, names, pc, cs, locals, loops)
    ensures GenS(Plain(st), names, pc, cs, locals, loops) == GenS(st, names, pc, cs, locals, loops)
  {
    hide GenWhile, SizeS;
  }

  lemma {:induction false} SameFor(st: Stmt, names: Names, pc: int, cs: seq<Const>, locals: nat, loops: seq<Target>)
    requires WfS(st, names.Keys) && st.For?
    ensures GenS(Plain(st), names, pc, cs, locals, loops) == GenS(st, names, pc, cs, locals, loops)
    decreases st, 0
  {
    hide GenS, GenE, SizeE, SizeS, GenTest, GenUpdate, GenInit, SizeInit, SizeTest, SizeUpdate, Hoist, InitNames, WfInit, WfOpt, ForCode;
    ForIsFor(st, names, pc, cs, locals, loops);
    ForIsFor(Plain(st), names, pc, cs, locals, loops);
    SameSize(st.loop);
    var h := Hoist(InitNames(st.init), names, cs, locals);
    HoistKeys(InitNames(st.init), names, cs, locals);
    KeptInit(st.init, h.names, h.consts, h.locals);
    var gi := GenInit(st.init, h.names, h.consts, h.locals);
    var top := pc + |h.code| + SizeInit(st.init);
    var gt := GenTest(st.cond, SizeS(st.loop) + SizeUpdate(st.update) + 5, h.names, gi.consts);
    SameS(st.loop, h.names, top + SizeTest(st.cond), gt.consts, h.locals, loops + [ForTarget(st, top)]);
  }

  lemma {:induction false} SameSwitch(st: Stmt, names: Names, pc: int, cs: seq<Const>, locals: nat, loops: seq<Target>)
    requires WfS(st, names.Keys) && st.Switch?
    ensures GenS(Plain(st), names, pc, cs, locals, loops) == GenS(st, names, pc, cs, locals, loops)
    decreases st, 0
  {
    hide GenE, SizeE, SizeS, GenTests, SizeTests, GenEntries, SizeBodies, GenBodies, LastDefault, SwitchCode, WfCases, PlainCases;
    SameSize(st);
    SameSizeCases(st.cases);
    var gd, entries := GenE(st.disc, names, cs), Entries(st, pc);
    var bodies := entries + 6 * |st.cases| + 6;
    SameTests(st.cases, 0, names, pc + SizeE(st.disc), entries, gd.consts, |st.cases|);
    SameEntries(st.cases, 0, entries, bodies);
    var gt := GenTests(st.cases, 0, names, pc + SizeE(st.disc), entries, gd.consts);
    SameBodies(st.cases, names, bodies, gt.consts, locals, loops + [SwitchTarget(st, pc)]);
    assert GenS(st, names, pc, cs, locals, loops) == GenSwitch(st, names, pc, cs, locals, loops);
    assert GenS(Plain(st), names, pc, cs, locals, loops) == GenSwitch(Plain(st), names, pc, cs, locals, loops);
  }

  lemma {:induction false} SameL(body: seq<Stmt>, names: Names, pc: int, cs: seq<Const>, locals: nat, loops: seq<Target>)
    requires WfL(body, names.Keys)
    ensures GenL(PlainL(body), names, pc, cs, locals, loops) == GenL(body, names, pc, cs, locals, loops)
    ensures GenL(PlainBody(body), names, pc, cs, locals, loops) == GenL(body, names, pc, cs, locals, loops)
    decreases body, 2
  {
    hide GenS, SizeS, Plain, WfS;
    if body != [] {
      var g := GenS(body[0], names, pc, cs, locals, loops);
      SameSize(body[0]);
      SameS(body[0], names, pc, cs, locals, loops);
      KeptS(body[0], names, pc, cs, locals, loops);
      SameL(body[1..], names, pc + SizeS(body[0]), g.consts, g.locals, loops);
      if DeclaresLet(body[0]) { SameLet(body[0], names, pc, cs, locals, loops); }
    }
  }

  lemma SameLet(st: Stmt, names: Names, pc: int, cs: seq<Const>, locals: nat, loops: seq<Target>)
    requires WfS(st, names.Keys) && DeclaresLet(st)
    ensures GenS(Block(AssigningAll(st.decls)), names, pc, cs, locals, loops) == GenS(st, names, pc, cs, locals, loops)
    ensures SizeS(Block(AssigningAll(st.decls))) == SizeS(st)
  {
    hide GenDecls, SizeDecls, GenL, WfDecls;
    AssigningSize(st.decls);
    HoistNone(names, cs, locals);
    KeptDecls(true, st.decls, names, cs, locals);
    AssigningCode(st.decls, names, pc, cs, locals, loops);
  }

  lemma {:induction false} SameBodies(cases: seq<Case>, names: Names, pc: int, cs: seq<Const>, locals: nat, loops: seq<Target>)
    requires WfCases(cases, names.Keys)
    ensures GenBodies(PlainCases(cases), names, pc, cs, locals, loops) == GenBodies(cases, names, pc, cs, locals, loops)
    decreases cases, 3
  {
    hide GenL, SizeL, WfL, PlainBody;
    if cases != [] {
      var g := GenL(cases[0].body, names, pc, cs, locals, loops);
      SameSizeL(cases[0].body);
      SameL(cases[0].body, names, pc, cs, locals, loops);
      KeptL(cases[0].body, names, pc, cs, locals, loops);
      SameBodies(cases[1..], names, pc + SizeL(cases[0].body), g.consts, g.locals, loops);
    }
  }

  /** Lets in cases compile to assignments, when something around them declares their names. */
  lemma SameCode(f: Function)
    requires WfFunction(f)
    ensures Compile(PlainFunction(f)) == Compile(f)
  {
    hide GenL, Hoist, WfL, JumpsL, VarNamesIn, LexNames, ParamSlots, DeclareAll, PlainL, I0;
    PlainFunctionFine(f);
    var (names, locals) := DeclareAll(VarNamesIn(f.body), ParamSlots(f.params), |f.params|);
    var h := Hoist(LexNames(f.body), names, [], locals);
    NamesSlotted(f, []);
    HoistKeys(LexNames(f.body), names, [], locals);
    SameL(f.body, h.names, |h.code|, h.consts, h.locals, []);
  }

  // ---------- What such code computes ----------

  /** For every function whose declared names are in scope, the code runs as the source does with the
      lets of cases turned into assignments.  So it is right for the function itself exactly when the
      two source runs agree. */
  lemma RunIsPlain(p: Prims, f: Function, args: seq<Value>, g: Globals, gas: int, fuel: nat)
    requires WfFunction(f) && Fits(Compile(f)) && fuel > 0 && fuel > gas
    requires RunGas(p, Compile(f), InitMachine(Compile(f), args, g), gas).0 != GasExhausted
    ensures var (o, g1) := Run(Unconverted(p), PlainFunction(f), args, g, fuel);
            && (o.Ret? || o.Exc?)
            && RunGas(p, Compile(f), InitMachine(Compile(f), args, g), gas) == (AsResult(o), g1)
  {
    hide Compile, RunGas, Run, InitMachine, WfFunction, NoCaseLetsL;
    SameCode(f);
    PlainFunctionFine(f);
    RunIsSource(p, PlainFunction(f), args, g, gas, fuel);
  }

  // ---------- The case that goes wrong ----------

  function LetIs(i: int): Stmt { VarDecl(true, [Decl("y", Some(SmallInt(i)))]) }

  function SwitchTo(body: Stmt): Stmt { Switch(None, SmallInt(1), [Case(Some(SmallInt(1)), [body])]) }

  /** A block that declares y as 1, a switch whose one case declares its own y as 5, and the y of the block returned. */
  const SHADOWED := Function([], [Block([LetIs(1), SwitchTo(LetIs(5)), Return(Some(Ident("y")))])])

  /** The same with nothing around the switch that declares y. */
  const LEAKING := Function([], [SwitchTo(LetIs(5)), Return(Some(Ident("y")))])

  function Assigned(i: int): Stmt { Block([ExprStmt(Assign("y", SmallInt(i)))]) }

  lemma PlainSwitch()
    ensures Plain(SwitchTo(LetIs(5))) == SwitchTo(Assigned(5))
  {
    assert AssigningAll([Decl("y", Some(SmallInt(5)))]) == [ExprStmt(Assign("y", SmallInt(5)))];
    assert PlainBody([LetIs(5)]) == [Assigned(5)];
    assert PlainCases([Case(Some(SmallInt(1)), [LetIs(5)])]) == [Case(Some(SmallInt(1)), [Assigned(5)])];
  }

  /** The switch enters its case. */
  lemma SwitchRuns(p: Prims, body: Stmt, env: Env)
    requires p.strictEq(Int(1), Int(1)) && Exec(p, body, env, 0).0.Normal?
    ensures ExecSwitch(p, SwitchTo(body), Int(1), env, 0) == Exec(p, body, env, 0)
  {
    hide Exec;
    var cases := [Case(Some(SmallInt(1)), [body])];
    assert cases[0..] == cases && cases[1..] == [] && [body][1..] == [];
    assert Select(p, Int(1), cases, 0, 1, env) == (Val(Int(1)), 0, env);
    var (o, env1, f) := Exec(p, body, env, 0);
    assert ExecList(p, [], env1, 0) == (Normal, env1, 0);
    assert ExecList(p, [body], env, 0) == (o, env1, f);
    assert ExecCases(p, [], env1, 0) == (Normal, env1, 0);
    assert ExecCases(p, cases, env, 0) == (o, env1, f);
  }

  /** A declaration, or an assignment, of a name that is bound. */
  lemma LetRuns(p: Prims, i: int, env: Env)
    requires env.frames != [] && "y" in env.frames[|env.frames| - 1]
    ensures var env1 := env.(frames := SetFrame(env.frames, |env.frames| - 1, "y", Int(i)));
            Exec(p, LetIs(i), env, 0) == (Normal, env1, 0) && Exec(p, Assigned(i), env, 0) == (Normal, env1, 0)
  {
    var k := |env.frames| - 1;
    var env1 := env.(frames := SetFrame(env.frames, k, "y", Int(i)));
    var ds := [Decl("y", Some(SmallInt(i)))];
    assert ds[1..] == [] && ExecDecls(p, true, [], env1) == (Normal, env1);
    var inner := env.(frames := env.frames + [TdzFrame([])]);
    assert inner.frames[..|env.frames|] == env.frames && Find(inner.frames, "y") == k;
    var inner1 := inner.(frames := SetFrame(inner.frames, k, "y", Int(i)));
    assert inner1.frames == env1.frames + [TdzFrame([])];
    var e := Assign("y", SmallInt(i));
    assert Eval(p, e, inner) == (Val(Int(i)), inner1);
    assert [ExprStmt(e)][1..] == [] && ExecList(p, [], inner1, 0) == (Normal, inner1, 0);
    assert Exec(p, ExprStmt(e), inner, 0) == (Normal, inner1, 0);
    assert LexNames([ExprStmt(e)]) == [];
    assert Pop(inner1) == env1;
  }

  lemma ReturnsY(p: Prims, env: Env, i: int)
    requires env.frames != [] && "y" in env.frames[|env.frames| - 1] && env.frames[|env.frames| - 1]["y"] == Int(i)
    ensures ExecList(p, [Return(Some(Ident("y")))], env, 0) == (Ret(Int(i)), env, 0)
  {
    var e: Expr := Ident("y");
    assert Eval(p, e, env) == (Val(Int(i)), env);
    assert Exec(p, Return(Some(e)), env, 0) == (Ret(Int(i)), env, 0);
  }

  /** With y bound, the switch keeps its own y to itself; the compiled one stores in the y around it. */
  lemma SwitchesRun(p: Prims, env: Env)
    requires p.strictEq(Int(1), Int(1)) && env.frames != [] && "y" in env.frames[|env.frames| - 1]
    ensures Exec(p, SwitchTo(LetIs(5)), env, 0) == (Normal, env, 0)
    ensures Exec(p, SwitchTo(Assigned(5)), env, 0)
            == (Normal, env.(frames := SetFrame(env.frames, |env.frames| - 1, "y", Int(5))), 0)
  {
    hide Exec, Eval;
    var inner := env.(frames := env.frames + [TdzFrame(["y"])]);
    LetRuns(p, 5, inner);
    LetRuns(p, 5, env);
    SwitchRuns(p, LetIs(5), inner);
    SwitchRuns(p, Assigned(5), env);
    SwitchIs(p, LetIs(5), env);
    SwitchIs(p, Assigned(5), env);
    CaseScopes();
    var inner1 := inner.(frames := SetFrame(inner.frames, |env.frames|, "y", Int(5)));
    assert inner1.frames[..|env.frames|] == env.frames;
  }

  lemma SwitchIs(p: Prims, body: Stmt, env: Env)
    ensures var st := SwitchTo(body);
            var names := CaseNames(st.cases);
            Exec(p, st, env, 0)
            == if names == [] then ExecSwitch(p, st, Int(1), env, 0)
               else var (o, env1, f) := ExecSwitch(p, st, Int(1), env.(frames := env.frames + [TdzFrame(names)]), 0); (o, Pop(env1), f)
  {
    hide ExecSwitch, CaseNames, TdzFrame;
    assert Eval(p, SmallInt(1), env) == (Val(Int(1)), env);
  }

  lemma CaseScopes()
    ensures CaseNames(SwitchTo(LetIs(5)).cases) == ["y"] && CaseNames(SwitchTo(Assigned(5)).cases) == []
  {
    var b, c := [LetIs(5)], [Assigned(5)];
    assert b[1..] == [] && c[1..] == [] && DeclNames([Decl("y", Some(SmallInt(5)))]) == ["y"];
    assert LexNames(b) == ["y"] && LexNames(c) == [];
    var cb, cc := SwitchTo(LetIs(5)).cases, SwitchTo(Assigned(5)).cases;
    assert cb[1..] == [] && cc[1..] == [];
  }

  /** The block of the example around a switch that ends normally in env1. */
  lemma BlockRuns(p: Prims, sw: Stmt, g: Globals, i: int)
    requires sw.Switch?
    requires Exec(p, sw, Env([map[], map["y" := Int(1)]], g), 0) == (Normal, Env([map[], map["y" := Int(i)]], g), 0)
    ensures Exec(p, Block([LetIs(1), sw, Return(Some(Ident("y")))]), Env([map[]], g), 0) == (Ret(Int(i)), Env([map[]], g), 0)
  {
    hide Exec;
    var ret := Return(Some(Ident("y")));
    var body := [LetIs(1), sw, ret];
    var env := Env([map[]], g);
    var env0, env1, env2 := Env([map[], map["y" := Tdz]], g), Env([map[], map["y" := Int(1)]], g), Env([map[], map["y" := Int(i)]], g);
    assert body[1..] == [sw, ret] && [sw, ret][1..] == [ret] && [ret][1..] == [];
    LetRuns(p, 1, env0);
    OneFrame(Tdz, Int(1));
    ReturnsY(p, env2, i);
    assert ExecList(p, [sw, ret], env1, 0) == (Ret(Int(i)), env2, 0);
    assert ExecList(p, body, env0, 0) == (Ret(Int(i)), env2, 0);
    assert LexNames([sw, ret]) == [] && DeclNames([Decl("y", Some(SmallInt(1)))]) == ["y"];
    assert LexNames(body) == ["y"];
    assert TdzFrame(["y"]) == map["y" := Tdz];
    assert env.frames + [TdzFrame(["y"])] == env0.frames;
    assert Pop(env2).frames == env.frames;
    BlockIs(p, body, env);
  }

  lemma OneFrame(v: Value, w: Value)
    ensures SetFrame([map[], map["y" := v]], 1, "y", w) == [map[], map["y" := w]]
  {
    var last: Frame := map["y" := v];
    assert last["y" := w] == map["y" := w];
  }

  lemma BlockIs(p: Prims, body: seq<Stmt>, env: Env)
    ensures Exec(p, Block(body), env, 0)
            == var (o, env1, f) := ExecList(p, body, env.(frames := env.frames + [TdzFrame(LexNames(body))]), 0); (o, Pop(env1), f)
  {}

  lemma OneStmt(p: Prims, st: Stmt, g: Globals, v: Value)
    requires st.Block? && VarNames(st) == [] && Exec(p, st, Env([map[]], g), 0) == (Ret(v), Env([map[]], g), 0)
    ensures Run(p, Function([], [st]), [], g, 0) == (Ret(v), g)
  {
    hide Exec;
    var f := Function([], [st]);
    assert [st][1..] == [] && LexNames([st]) == [] && VarNamesIn([]) == [];
    assert VarNamesIn([st]) == VarNames(st) + VarNamesIn([st][1..]);
    assert BodyFrame(f, []) == map[];
    assert ExecList(p, [st], Env([map[]], g), 0) == (Ret(v), Env([map[]], g), 0);
  }

  lemma ShadowedVars()
    ensures VarNames(SHADOWED.body[0]) == [] && VarNames(Plain(SHADOWED.body[0])) == []
  {
    PlainVars(SHADOWED.body[0]);
    SwitchNamesOf(LetIs(5));
    ReturnNames();
    hide Plain;
    var b := SHADOWED.body[0].body;
    assert VarNamesIn(b[1..][1..][1..]) == [];
    assert VarNamesIn(b[1..][1..]) == VarNames(b[2]) + [];
    assert VarNamesIn(b[1..]) == VarNames(b[1]) + [];
  }

  lemma ShadowedMeans(p: Prims, g: Globals)
    requires p.strictEq(Int(1), Int(1))
    ensures Run(p, SHADOWED, [], g, 0) == (Ret(Int(1)), g)
    ensures Run(p, PlainFunction(SHADOWED), [], g, 0) == (Ret(Int(5)), g)
  {
    hide Run, VarNames, Exec;
    var env1 := Env([map[], map["y" := Int(1)]], g);
    SwitchesRun(p, env1);
    OneFrame(Int(1), Int(5));
    ShadowedVars();
    BlockRuns(p, SwitchTo(LetIs(5)), g, 1);
    BlockRuns(p, SwitchTo(Assigned(5)), g, 5);
    OneStmt(p, SHADOWED.body[0], g, Int(1));
    ShadowedPlain();
    OneStmt(p, Plain(SHADOWED.body[0]), g, Int(5));
  }

  lemma ShadowedPlain()
    ensures Plain(SHADOWED.body[0]) == Block([LetIs(1), SwitchTo(Assigned(5)), Return(Some(Ident("y")))])
    ensures PlainL(SHADOWED.body) == [Plain(SHADOWED.body[0])]
  {
    hide PlainCases;
    PlainSwitch();
    var b := SHADOWED.body[0].body;
    assert PlainL(b[1..][1..]) == [b[2]];
    assert PlainL(b[1..]) == [SwitchTo(Assigned(5)), b[2]];
    assert SHADOWED.body[1..] == [];
  }

  /** The code of a switch on 1 with one case 1, up to its body of n bytes. */
  function Head(n: nat): seq<int> {
    I4(OpInt32, ToWord(1))
    + (I0(OpDup) + I4(OpInt32, ToWord(1)) + I0(OpBin(StrictEq)) + JumpBy(OpJumpIfTrue, 5) + [])
    + JumpBy(OpJump, 6) + (I0(OpPop) + JumpBy(OpJump, 6) + []) + I0(OpPop) + JumpBy(OpJump, n)
  }

  lemma OneBody(body: Stmt, names: Names, pc: int, cs: seq<Const>, locals: nat, loops: seq<Target>)
    ensures var cases := SwitchTo(body).cases;
            GenBodies(cases, names, pc, cs, locals, loops) == GenS(body, names, pc, cs, locals, loops) && SizeBodies(cases) == SizeS(body)
  {
    hide GenS, SizeS;
    var cases := SwitchTo(body).cases;
    assert cases[1..] == [] && [body][1..] == [];
    var g := GenS(body, names, pc, cs, locals, loops);
    assert GenL([body], names, pc, cs, locals, loops) == g && SizeL([body]) == SizeS(body) by {
      assert GenL([], g.names, pc + SizeS(body), g.consts, g.locals, loops) == GS([], g.consts, g.names, g.locals);
    }
    assert GenBodies([], g.names, pc + SizeS(body), g.consts, g.locals, loops) == GS([], g.consts, g.names, g.locals);
  }

  lemma OneTest(body: Stmt, names: Names, pc: int, cs: seq<Const>)
    ensures var cases := SwitchTo(body).cases;
      && SizeTests(cases) == 12 && LastDefault(cases, 0, 1) == 1
      && GenTests(cases, 0, names, pc + 5, pc + 22, cs)
         == G(I0(OpDup) + I4(OpInt32, ToWord(1)) + I0(OpBin(StrictEq)) + JumpBy(OpJumpIfTrue, 5) + [], cs)
      && GenEntries(cases, 0, pc + 22, pc + 34) == I0(OpPop) + JumpBy(OpJump, 6) + []
  {
    hide I0, I4, JumpBy, ToWord;
    var cases := SwitchTo(body).cases;
    assert cases[1..] == [];
    assert SizeE(SmallInt(1)) == 5 && GenE(SmallInt(1), names, cs) == G(I4(OpInt32, ToWord(1)), cs);
    assert GenTests([], 1, names, pc + 17, pc + 22, cs) == G([], cs);
  }

  lemma OneCase(body: Stmt, names: Names, pc: int, cs: seq<Const>, locals: nat, loops: seq<Target>)
    ensures SizeS(SwitchTo(body)) == 34 + SizeS(body)
    ensures var b := GenS(body, names, pc + 34, cs, locals, loops + [Target(None, true, pc + 34 + SizeS(body), -1)]);
            GenS(SwitchTo(body), names, pc, cs, locals, loops) == GS(Head(SizeS(body)) + b.code, b.consts, b.names, b.locals)
  {
    hide I0, I4, JumpBy, ToWord, GenTests, GenEntries, GenBodies, SizeTests, SizeBodies, LastDefault, GenS, SizeS, GenE, SizeE;
    var st := SwitchTo(body);
    OneTest(body, names, pc, cs);
    OneBody(body, names, pc + 34, cs, locals, loops + [Target(None, true, pc + 34 + SizeS(body), -1)]);
    OneSwitch(body, names, pc, cs, locals, loops);
  }

  lemma OneSwitch(body: Stmt, names: Names, pc: int, cs: seq<Const>, locals: nat, loops: seq<Target>)
    ensures var st := SwitchTo(body);
      && SizeE(st.disc) == 5 && GenE(st.disc, names, cs) == G(I4(OpInt32, ToWord(1)), cs)
      && SizeS(st) == 5 + SizeTests(st.cases) + 17 + SizeBodies(st.cases)
      && GenS(st, names, pc, cs, locals, loops) == GenSwitch(st, names, pc, cs, locals, loops)
  {
    hide I4, ToWord, SizeTests, SizeBodies, GenSwitch;
  }

  /** The code of the example's switch: y gets its slot, a new one where it has none, and stays in scope. */
  lemma SwitchCompiles(names: Names, pc: int, cs: seq<Const>, locals: nat, loops: seq<Target>)
    ensures
      var (names1, locals1) := Declare("y", names, locals);
      var g := GenS(SwitchTo(LetIs(5)), names, pc, cs, locals, loops);
      && g.consts == cs && g.names == names1 && g.locals == locals1 && SizeS(SwitchTo(LetIs(5))) == SizeS(SwitchTo(Assigned(5))) == 45
      && g == GenS(SwitchTo(Assigned(5)), names1, pc, cs, locals1, loops)
  {
    hide GenS, SizeS, Head, Declare;
    var (names1, locals1) := Declare("y", names, locals);
    OneCase(LetIs(5), names, pc, cs, locals, loops);
    OneCase(Assigned(5), names1, pc, cs, locals1, loops);
    LetCompiles(5, names, pc + 34, cs, locals, loops + [Target(None, true, pc + 45, -1)]);
  }

  lemma LetCompiles(i: int, names: Names, pc: int, cs: seq<Const>, locals: nat, loops: seq<Target>)
    requires FitsInt32(i)
    ensures
      var (names1, locals1) := Declare("y", names, locals);
      var g := GenS(LetIs(i), names, pc, cs, locals, loops);
      && g.consts == cs && g.names == names1 && g.locals == locals1 && SizeS(LetIs(i)) == SizeS(Assigned(i)) == 11
      && g == GenS(Assigned(i), names1, pc, cs, locals1, loops)
  {
    hide I0, I4, Declare;
    var (names1, locals1) := Declare("y", names, locals);
    var d := Decl("y", Some(SmallInt(i)));
    assert [d][1..] == [] && GenDecls(true, [], names1, cs, locals1) == GS([], cs, names1, locals1);
    AssigningOne(d, names1, pc, cs, locals1, loops);
    assert GenE(SmallInt(i), names, cs) == GenE(SmallInt(i), names1, cs) == G(I4(OpInt32, ToWord(i)), cs);
    assert AssigningAll([d]) == [Assigning(d)];
    assert Declare("y", names1, locals1) == (names1, locals1) by { DeclareTwice("y", names, locals); }
    var st := LetIs(i);
    assert SizeDecls(true, [d]) == 11;
    assert GenS(st, names, pc, cs, locals, loops) == GenDecls(true, [d], names, cs, locals);
    assert GenDecls(true, [d], names, cs, locals) == GenDecls(true, [d], names1, cs, locals1);
    SameLet(st, names1, pc, cs, locals1, loops);
    assert GenS(st, names1, pc, cs, locals1, loops) == GenDecls(true, [d], names1, cs, locals1);
  }

  lemma DeclareTwice(x: string, names: Names, locals: nat)
    ensures var (names1, locals1) := Declare(x, names, locals); Declare(x, names1, locals1) == (names1, locals1)
  {}

  lemma YCompiles(names: Names, pc: int, cs: seq<Const>, locals: nat, loops: seq<Target>)
    requires "y" in names
    ensures var st := Return(Some(Ident("y")));
            GenS(st, names, pc, cs, locals, loops) == GS(I4(OpGetLocal, Pack(names["y"])) + I0(OpReturn), cs, names, locals)
    ensures SizeS(Return(Some(Ident("y")))) == 6
  {
    hide I4, I0, Pack;
    assert GenE(Ident("y"), names, cs) == G(I4(OpGetLocal, Pack(names["y"])), cs);
  }

  lemma TwoStmts(a: Stmt, b: Stmt, names: Names, pc: int, cs: seq<Const>, locals: nat, loops: seq<Target>)
    ensures
      var ga := GenS(a, names, pc, cs, locals, loops);
      var gb := GenS(b, ga.names, pc + SizeS(a), ga.consts, ga.locals, loops);
      && GenL([a, b], names, pc, cs, locals, loops) == GS(ga.code + (gb.code + []), gb.consts, gb.names, gb.locals)
      && SizeL([a, b]) == SizeS(a) + SizeS(b)
  {
    hide GenS, SizeS;
    assert [a, b][1..] == [b] && [b][1..] == [];
    var ga := GenS(a, names, pc, cs, locals, loops);
    var gb := GenS(b, ga.names, pc + SizeS(a), ga.consts, ga.locals, loops);
    assert GenL([], gb.names, pc + SizeS(a) + SizeS(b), gb.consts, gb.locals, loops) == GS([], gb.consts, gb.names, gb.locals);
    assert GenL([b], ga.names, pc + SizeS(a), ga.consts, ga.locals, loops) == GS(gb.code + [], gb.consts, gb.names, gb.locals);
    assert SizeL([]) == 0 && SizeL([b]) == SizeS(b);
  }

  lemma ThreeStmts(a: Stmt, b: Stmt, c: Stmt, names: Names, pc: int, cs: seq<Const>, locals: nat, loops: seq<Target>)
    ensures
      var ga := GenS(a, names, pc, cs, locals, loops);
      var r := GenL([b, c], ga.names, pc + SizeS(a), ga.consts, ga.locals, loops);
      && GenL([a, b, c], names, pc, cs, locals, loops) == GS(ga.code + r.code, r.consts, r.names, r.locals)
      && SizeL([a, b, c]) == SizeS(a) + SizeL([b, c])
  {
    hide GenS, SizeS;
    assert [a, b, c][1..] == [b, c];
  }

  lemma ShadowedLex()
    ensures LexNames(SHADOWED.body[0].body) == ["y"] && LexNames(SHADOWED.body) == [] && VarNamesIn(SHADOWED.body) == []
  {
    hide VarNames;
    ShadowedVars();
    assert DeclNames([Decl("y", Some(SmallInt(1)))]) == ["y"];
    var b := SHADOWED.body[0].body;
    assert LexNames(b[1..][1..]) == [] && LexNames(b[1..]) == [];
    assert SHADOWED.body[1..] == [];
  }

  lemma ShadowedFits()
    ensures Fits(Compile(SHADOWED))
  {
    hide GenS, SizeS, Hoist, VarNamesIn, LexNames;
    ShadowedLex();
    var st := SHADOWED.body[0];
    var y := ["y"];
    var h := Hoist(y, map[], [], 0);
    HoistOne();
    ThreeStmts(LetIs(1), SwitchTo(LetIs(5)), Return(Some(Ident("y"))), h.names, 11, h.consts, 1, []);
    TwoStmts(SwitchTo(LetIs(5)), Return(Some(Ident("y"))), h.names, 22, h.consts, 1, []);
    LetCompiles(1, h.names, 11, h.consts, 1, []);
    SwitchCompiles(h.names, 22, h.consts, 1, []);
    YCompiles(h.names, 67, h.consts, 1, []);
    BlockShape(st.body, map[], 0, [], 0, []);
    HoistNone(map[], [], 0);
    var g := GenS(st, map[], 0, [], 0, []);
    assert g.locals == 1 && g.consts == h.consts && |g.code| == 73;
    assert SHADOWED.body == [st];
    OneOf(st, map[], 0, [], 0, []);
    DeclareNone();
  }

  lemma DeclareNone()
    ensures DeclareAll([], ParamSlots([]), 0) == (map[], 0)
  {}

  lemma OneOf(st: Stmt, names: Names, pc: int, cs: seq<Const>, locals: nat, loops: seq<Target>)
    ensures var g, r := GenS(st, names, pc, cs, locals, loops), GenL([st], names, pc, cs, locals, loops);
            r == GS(g.code + [], g.consts, g.names, g.locals)
  {
    hide GenS, SizeS;
    assert [st][1..] == [];
  }

  lemma HoistOne()
    ensures var h := Hoist(["y"], map[], [], 0); |h.code| == 11 && |h.consts| == 1 && h.names == map["y" := 0] && h.locals == 1
  {
    assert ["y"][1..] == [];
    var t := Named(OpGetGlobal, TDZ_NAME, []);
    var names: Names := map["y" := 0];
    var none: Names := map[];
    assert none["y" := 0] == names;
    assert Hoist([], names, t.consts, 1) == H([], t.consts, names, 1);
  }

  lemma ShadowedWf()
    ensures WfFunction(SHADOWED) && !NoCaseLetsL(SHADOWED.body)
  {
    hide LexNames, VarNamesIn;
    ShadowedLex();
    CaseScopes();
    var b := SHADOWED.body[0].body;
    var dom := {"y"};
    assert NamesOf([]) == {} && NamesOf(["y"]) == dom;
    assert b[1..][1..][1..] == [] && SHADOWED.body[1..] == [];
    assert WfDecls([Decl("y", Some(SmallInt(1)))], dom) && WfDecls([Decl("y", Some(SmallInt(5)))], dom);
    assert WfS(b[0], dom) && JumpsS(b[0], []) && WfS(b[2], dom) && JumpsS(b[2], []);
    SwitchWf(dom);
    assert b[1..][0] == SwitchTo(LetIs(5)) && b[1..][1..] == [b[2]];
    assert WfL([b[2]], dom) && JumpsL([b[2]], []);
    assert WfL(b[1..], dom) && JumpsL(b[1..], []);
    assert WfL(b, dom) && JumpsL(b, []) && !NoCaseLetsL(b);
    assert {} + NamesOf(["y"]) == dom;
    assert WfS(SHADOWED.body[0], {});
  }

  lemma SwitchWf(dom: set<string>)
    requires "y" in dom
    ensures var st := SwitchTo(LetIs(5)); WfS(st, dom) && JumpsS(st, []) && !NoCaseLets(st)
  {
    CaseScopes();
    hide CaseNames;
    var st, body := SwitchTo(LetIs(5)), [LetIs(5)];
    assert body[1..] == [] && st.cases[1..] == [];
    assert WfL(body, dom) && JumpsL(body, [Context(None, true)]);
  }

  /** A let in a case assigns to the variable it should hide: the source means 1, the code returns 5. */
  lemma CaseLetEscapes(p: Prims, g: Globals) returns (enough: nat)
    requires p.strictEq(Int(1), Int(1))
    ensures Run(p, SHADOWED, [], g, 0) == (Ret(Int(1)), g)
    ensures forall gas :: gas > enough ==>
              RunGas(p, Compile(SHADOWED), InitMachine(Compile(SHADOWED), [], g), gas) == (Returned(Int(5)), g)
  {
    hide Run, RunGas, Compile, InitMachine, WfFunction, NoCaseLetsL;
    ShadowedMeans(p, g);
    ShadowedMeans(Unconverted(p), g);
    ShadowedFits();
    ShadowedWf();
    SameCode(SHADOWED);
    PlainFunctionFine(SHADOWED);
    enough := SourceIsRun(p, PlainFunction(SHADOWED), [], g, 0);
  }

  /** LEAKING with the let a var of the function. */
  const LEAKED := Function([], [VarDecl(false, [Decl("y", None)]), SwitchTo(Assigned(5)), Return(Some(Ident("y")))])

  lemma SwitchNames()
    ensures VarNames(SwitchTo(LetIs(5))) == [] && VarNames(SwitchTo(Assigned(5))) == []
  {
    SwitchNamesOf(LetIs(5));
    SwitchNamesOf(Assigned(5));
    AssigningVars([Decl("y", Some(SmallInt(5)))]);
    assert AssigningAll([Decl("y", Some(SmallInt(5)))]) == [ExprStmt(Assign("y", SmallInt(5)))];
    assert VarNames(Assigned(5)) == [];
  }

  lemma SwitchNamesOf(body: Stmt)
    ensures VarNames(SwitchTo(body)) == VarNames(body)
  {
    var cases := SwitchTo(body).cases;
    assert cases[1..] == [] && [body][1..] == [];
    assert VarNamesIn([body]) == VarNames(body) + [] && VarNamesOf(cases) == VarNamesIn([body]) + [];
  }

  lemma LeakingNames()
    ensures LexNames(LEAKING.body) == [] && VarNamesIn(LEAKING.body) == []
  {
    SwitchNames();
    hide VarNames;
    var a := LEAKING.body;
    assert a[1..][1..] == [] && VarNames(a[1]) == [] by { assert Return(Some(Ident("y"))) == a[1]; ReturnNames(); }
    assert VarNamesIn(a[1..]) == [] && LexNames(a[1..]) == [];
  }

  lemma ReturnNames()
    ensures VarNames(Return(Some(Ident("y")))) == [] && VarNames(VarDecl(false, [Decl("y", None)])) == ["y"]
  {
    assert DeclNames([Decl("y", None)]) == ["y"];
  }

  lemma LeakedNames()
    ensures LexNames(LEAKED.body) == [] && VarNamesIn(LEAKED.body) == ["y"]
  {
    SwitchNames();
    ReturnNames();
    hide VarNames;
    var b := LEAKED.body;
    assert b[1..][1..][1..] == [];
    assert VarNamesIn(b[1..][1..]) == [] && LexNames(b[1..][1..]) == [];
    assert VarNamesIn(b[1..]) == [] && LexNames(b[1..]) == [];
  }

  lemma VarCompiles(names: Names, locals: nat)
    requires "y" in names
    ensures var st := VarDecl(false, [Decl("y", None)]);
            GenS(st, names, 0, [], locals, []) == GS([], [], names, locals) && SizeS(st) == 0
  {
    var ds := [Decl("y", None)];
    assert ds[1..] == [] && GenDecls(false, [], names, [], locals) == GS([], [], names, locals);
    assert SizeDecls(false, []) == 0 && SizeDecls(false, ds) == 0;
    assert GenDecls(false, ds, names, [], locals) == GS([], [], names, locals);
  }

  lemma DeclareY()
    ensures DeclareAll(["y"], ParamSlots([]), 0) == (map["y" := 0], 1)
  {
    assert ["y"][1..] == [];
    var names, none: Names := map["y" := 0], map[];
    assert none["y" := 0] == names && DeclareAll([], names, 1) == (names, 1);
  }

  lemma LeakingCode()
    ensures
      var names, none: Names := map["y" := 0], map[];
      var g, g1 := GenL(LEAKING.body, none, 0, [], 0, []), GenL(LEAKED.body, names, 0, [], 1, []);
      g.code == g1.code && g.consts == g1.consts && g.locals == g1.locals
  {
    hide GenS, SizeS, GenL;
    var ret, names, none: Names := Return(Some(Ident("y"))), map["y" := 0], map[];
    var decl, sw, sw1 := VarDecl(false, [Decl("y", None)]), SwitchTo(LetIs(5)), SwitchTo(Assigned(5));
    assert none["y" := 0] == names && Declare("y", none, 0) == (names, 1);
    SwitchCompiles(none, 0, [], 0, []);
    YCompiles(names, 45, [], 1, []);
    VarCompiles(names, 1);
    TwoStmts(sw, ret, none, 0, [], 0, []);
    ThreeStmts(decl, sw1, ret, names, 0, [], 1, []);
    TwoStmts(sw1, ret, names, 0, [], 1, []);
  }

  /** With nothing around the switch to assign to, the let is a variable of what encloses the switch, here the
      function, and hides a global of its name in the text that follows: this code is the one of a var. */
  lemma CaseLetLeaks()
    ensures Compile(LEAKING) == Compile(LEAKED)
  {
    hide VarNamesIn, LexNames, DeclareAll, ParamSlots, Hoist, GenL;
    var names, none: Names := map["y" := 0], map[];
    LeakingNames();
    LeakedNames();
    HoistNone(none, [], 0);
    HoistNone(names, [], 1);
    DeclareNone();
    DeclareY();
    LeakingCode();
  }
}
