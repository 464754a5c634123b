/**
 Which names a statement leaves in scope for the text after it.  Blocks and for loops that declare lets end
 what they declare; a switch does not, so the lets of its cases go on to the end of what encloses it.
 */
module CaseScopes {
  import opened Bytecode
  import opened Source
  import opened CodeGen
  import opened StatementSim

  function Declared(ds: seq<Decl>): set<string> { NamesOf(DeclNames(ds)) }

  /** The names a statement declares outside the scopes it opens itself. */
  function Leaked(st: Stmt): set<string>
    decreases st, 0
  {
    match st
    case VarDecl(_, ds) => Declared(ds)
    case If(_, a, b) => Leaked(a) + (if b.Some? then Leaked(b.value) else {})
    case While(_, _, s) => Leaked(s)
    case DoWhile(_, s, _) => Leaked(s)
    case For(_, init, _, _, s) =>
      if init.InitDecl? && init.isLet then {} else (if init.InitDecl? then Declared(init.decls) else {}) + Leaked(s)
    case Switch(_, _, cases) => LeakedIn(cases)
    case _ => {}
  }

  function LeakedL(body: seq<Stmt>): set<string>
    decreases body, 1
  {
    if body == [] then {} else Leaked(body[0]) + LeakedL(body[1..])
  }

  function LeakedIn(cases: seq<Case>): set<string>
    decreases cases, 2
  {
    if cases == [] then {} else LeakedL(cases[0].body) + LeakedIn(cases[1..])
  }

  /** b is a with the names xs, those of them that were there before where they were, the others at slots from
      `lo` to `hi`. */
  predicate Adds(a: Names, b: Names, xs: set<string>, lo: nat, hi: nat) {
    && b.Keys == a.Keys + xs && lo <= hi
    && forall x :: x in b ==> if x in a then b[x] == a[x] else lo <= b[x] < hi
  }

  lemma AddsTwice(a: Names, b: Names, c: Names, xs: set<string>, ys: set<string>, lo: nat, mid: nat, hi: nat)
    requires Adds(a, b, xs, lo, mid) && Adds(b, c, ys, mid, hi)
    ensures Adds(a, c, xs + ys, lo, hi)
  {}

  lemma {:induction false} DeclsScope(isLet: bool, ds: seq<Decl>, names: Names, cs: seq<Const>, locals: nat)
    ensures var g := GenDecls(isLet, ds, names, cs, locals); Adds(names, g.names, Declared(ds), locals, g.locals)
    decreases |ds|
  {
    hide GenE, GenStore, SizeE;
    if ds == [] {
      assert Declared(ds) == {};
    } else {
      var (names1, locals1) := Declare(ds[0].name, names, locals);
      var g := if ds[0].init.Some? then GenE(ds[0].init.value, names, cs) else G(I0(OpUndefined), cs);
      var s := GenStore(ds[0].name, names1, g.consts);
      var cs1 := if ds[0].init.None? && !isLet then cs else s.consts;
      DeclsScope(isLet, ds[1..], names1, cs1, locals1);
      var rest := GenDecls(isLet, ds[1..], names1, cs1, locals1);
      AddsTwice(names, names1, rest.names, {ds[0].name}, Declared(ds[1..]), locals, locals1, rest.locals);
      assert DeclNames(ds) == [ds[0].name] + DeclNames(ds[1..]);
      assert Declared(ds) == {ds[0].name} + Declared(ds[1..]);
    }
  }

  lemma NoneAdded(names: Names, locals: nat, more: nat)
    requires locals <= more
    ensures Adds(names, names, {}, locals, more)
  {}

  /** After a statement the names in scope are those before it and the ones it declares outside its own scopes; no
      name changes its slot.  A let in a case is among them whatever is around it, so the text that follows reads
      its slot, up to the end of the enclosing block. */
  lemma {:induction false} ScopeAfter(st: Stmt, names: Names, pc: int, cs: seq<Const>, locals: nat, loops: seq<Target>)
    ensures var g := GenS(st, names, pc, cs, locals, loops); Adds(names, g.names, Leaked(st), locals, g.locals)
    decreases st, 1
  {
    hide GenE, GenTest, GenUpdate, GenTests, GenEntries, GenDecls, Hoist, SizeE, SizeDecls, SizeS, SizeL, BreakIndex, ContinueIndex,
         GenFor, GenSwitch, GenWhile, Adds;
    var g := GenS(st, names, pc, cs, locals, loops);
    match st {
      case VarDecl(isLet, ds) => DeclsScope(isLet, ds, names, cs, locals);
      case If(_, _, _) => IfScope(st, names, pc, cs, locals, loops);
      case While(_, _, _) => LoopScope(st, names, pc, cs, locals, loops);
      case DoWhile(_, _, _) => LoopScope(st, names, pc, cs, locals, loops);
      case For(_, _, _, _, _) => ForScope(st, names, pc, cs, locals, loops);
      case Switch(_, _, _) => SwitchScope(st, names, pc, cs, locals, loops);
      case _ => NoneAdded(names, locals, g.locals);
    }
  }

  lemma {:induction false} IfScope(st: Stmt, names: Names, pc: int, cs: seq<Const>, locals: nat, loops: seq<Target>)
    requires st.If?
    ensures var g := GenS(st, names, pc, cs, locals, loops); Adds(names, g.names, Leaked(st), locals, g.locals)
    decreases st, 0
  {
    hide GenS, GenE, SizeE, SizeS, CondCode, IfCode, Adds;
    IfShape(st, names, pc, cs, locals, loops);
    var at := pc + SizeE(st.test) + 5;
    var gt := GenE(st.test, names, cs);
    var ga := GenS(st.cons, names, at, gt.consts, locals, loops);
    ScopeAfter(st.cons, names, at, gt.consts, locals, loops);
    if st.alt.Some? {
      var gb := GenS(st.alt.value, ga.names, at + SizeS(st.cons) + 5, ga.consts, ga.locals, loops);
      ScopeAfter(st.alt.value, ga.names, at + SizeS(st.cons) + 5, ga.consts, ga.locals, loops);
      AddsTwice(names, ga.names, gb.names, Leaked(st.cons), Leaked(st.alt.value), locals, ga.locals, gb.locals);
    } else {
      assert Leaked(st) == Leaked(st.cons) + {} == Leaked(st.cons);
    }
  }

  lemma {:induction false} LoopScope(st: Stmt, names: Names, pc: int, cs: seq<Const>, locals: nat, loops: seq<Target>)
    requires st.While? || st.DoWhile?
    ensures var g := GenWhile(st, names, pc, cs, locals, loops); Adds(names, g.names, Leaked(st), locals, g.locals)
    decreases st, 0
  {
    hide GenE, SizeE, SizeS, GenS, Adds;
    if st.While? {
      var body := pc + SizeE(st.test) + 5;
      var target := Target(st.lbl, false, body + SizeS(st.loop) + 5, body + SizeS(st.loop));
      ScopeAfter(st.loop, names, body, GenE(st.test, names, cs).consts, locals, loops + [target]);
    } else {
      var target := Target(st.lbl, false, pc + SizeS(st.loop) + SizeE(st.test) + 5, pc + SizeS(st.loop));
      ScopeAfter(st.loop, names, pc, cs, locals, loops + [target]);
    }
  }

  lemma {:induction false} ForScope(st: Stmt, names: Names, pc: int, cs: seq<Const>, locals: nat, loops: seq<Target>)
    requires st.For?
    ensures var g := GenFor(st, names, pc, cs, locals, loops); Adds(names, g.names, Leaked(st), locals, g.locals)
    decreases st, 0
  {
    hide GenE, SizeE, SizeS, GenS, GenTest, GenUpdate, SizeInit, SizeTest, SizeUpdate, Hoist, Adds, GenDecls;
    var For(l, init, t, u, s) := st;
    if init.InitDecl? && init.isLet {
      NoneAdded(names, locals, GenFor(st, names, pc, cs, locals, loops).locals);
    } else {
      HoistNone(names, cs, locals);
      assert InitNames(init) == [];
      var gi := GenInit(init, names, cs, locals);
      var xs := if init.InitDecl? then Declared(init.decls) else {};
      if init.InitDecl? { DeclsScope(init.isLet, init.decls, names, cs, locals); } else { NoneAdded(names, locals, locals); }
      var body := pc + SizeInit(init) + SizeTest(t);
      var target := Target(l, false, body + SizeS(s) + SizeUpdate(u) + 5, body + SizeS(s));
      var gt := GenTest(t, SizeS(s) + SizeUpdate(u) + 5, gi.names, gi.consts);
      var gs := GenS(s, gi.names, body, gt.consts, gi.locals, loops + [target]);
      ScopeAfter(s, gi.names, body, gt.consts, gi.locals, loops + [target]);
      AddsTwice(names, gi.names, gs.names, xs, Leaked(s), locals, gi.locals, gs.locals);
    }
  }

  lemma {:induction false} SwitchScope(st: Stmt, names: Names, pc: int, cs: seq<Const>, locals: nat, loops: seq<Target>)
    requires st.Switch?
    ensures var g := GenSwitch(st, names, pc, cs, locals, loops); Adds(names, g.names, Leaked(st), locals, g.locals)
    decreases st, 0
  {
    hide GenE, SizeE, SizeS, GenTests, SizeTests, GenEntries, SizeBodies, GenBodies, LastDefault, Adds;
    var entries := pc + SizeE(st.disc) + SizeTests(st.cases) + 5;
    var gt := GenTests(st.cases, 0, names, pc + SizeE(st.disc), entries, GenE(st.disc, names, cs).consts);
    BodiesScope(st.cases, names, entries + 6 * |st.cases| + 6, gt.consts, locals, loops + [Target(st.lbl, true, pc + SizeS(st), -1)]);
  }

  lemma {:induction false} ListScope(body: seq<Stmt>, names: Names, pc: int, cs: seq<Const>, locals: nat, loops: seq<Target>)
    ensures var g := GenL(body, names, pc, cs, locals, loops); Adds(names, g.names, LeakedL(body), locals, g.locals)
    decreases body, 2
  {
    hide GenS, SizeS, Adds;
    if body == [] {
      NoneAdded(names, locals, locals);
    } else {
      var g := GenS(body[0], names, pc, cs, locals, loops);
      ScopeAfter(body[0], names, pc, cs, locals, loops);
      ListScope(body[1..], g.names, pc + SizeS(body[0]), g.consts, g.locals, loops);
      var r := GenL(body[1..], g.names, pc + SizeS(body[0]), g.consts, g.locals, loops);
      AddsTwice(names, g.names, r.names, Leaked(body[0]), LeakedL(body[1..]), locals, g.locals, r.locals);
    }
  }

  lemma {:induction false} BodiesScope(cases: seq<Case>, names: Names, pc: int, cs: seq<Const>, locals: nat, loops: seq<Target>)
    ensures var g := GenBodies(cases, names, pc, cs, locals, loops); Adds(names, g.names, LeakedIn(cases), locals, g.locals)
    decreases cases, 3
  {
    hide GenL, SizeL, Adds;
    if cases == [] {
      NoneAdded(names, locals, locals);
    } else {
      var g := GenL(cases[0].body, names, pc, cs, locals, loops);
      ListScope(cases[0].body, names, pc, cs, locals, loops);
      BodiesScope(cases[1..], g.names, pc + SizeL(cases[0].body), g.consts, g.locals, loops);
      var r := GenBodies(cases[1..], g.names, pc + SizeL(cases[0].body), g.consts, g.locals, loops);
      AddsTwice(names, g.names, r.names, LeakedL(cases[0].body), LeakedIn(cases[1..]), locals, g.locals, r.locals);
    }
  }
}
