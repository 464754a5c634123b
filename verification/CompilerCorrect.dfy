/**
 The compiler theorem.  A compiled function, run on the machine under any gas allowance,
 either runs out of gas or gives exactly the result and the globals of the source
 interpreter; and it does give them once the allowance is large enough.
 */
module CompilerCorrect {
  import opened Values
  import opened Bytecode
  import opened Source
  import opened CodeGen
  import opened Simulation
  import opened StatementSim

  /** Every declared name is in scope where it is declared, and every break and continue has a target. */
  predicate WfFunction(f: Function) {
    WfL(f.body, NamesOf(f.params) + NamesOf(VarNamesIn(f.body)) + NamesOf(LexNames(f.body))) && JumpsL(f.body, [])
  }

  function ArgAt(args: seq<Value>, n: nat, i: nat): Value { if i < n && i < |args| then args[i] else Undefined }

  /** A fresh call: arguments in the parameter slots, every other slot Undefined. */
  function InitMachine(c: Chunk, args: seq<Value>, g: Globals): Machine {
    Machine(0, [], seq(c.locals, i requires 0 <= i => ArgAt(args, c.params, i)), g)
  }

  // ---------- Slots of parameters and vars ----------

  lemma {:induction false} ParamSlotsRight(params: seq<string>, args: seq<Value>)
    ensures var s, fr := ParamSlots(params), ParamFrame(params, args);
            && s.Keys == fr.Keys == NamesOf(params)
            && forall x :: x in s ==> s[x] < |params| && params[s[x]] == x && fr[x] == ArgAt(args, |params|, s[x])
  {
    if params != [] {
      var n := |params| - 1;
      ParamSlotsRight(params[..n], args);
      assert params == params[..n] + [params[n]];
      var s, fr := ParamSlots(params), ParamFrame(params, args);
      forall x | x in s
        ensures s[x] < |params| && params[s[x]] == x && fr[x] == ArgAt(args, |params|, s[x])
      {
        if x != params[n] { assert x in ParamSlots(params[..n]); }
      }
    }
  }

  /** Each name has a slot below the counter, no two the same. */
  ghost predicate Slotted(names: Names, n: nat) {
    && (forall x :: x in names ==> names[x] < n)
    && (forall x, y :: x in names && y in names && names[x] == names[y] ==> x == y)
  }

  lemma {:induction false} DeclareAllRight(xs: seq<string>, names: Names, n: nat)
    requires Slotted(names, n)
    ensures var (names1, n1) := DeclareAll(xs, names, n);
            && n <= n1 && Slotted(names1, n1) && names1.Keys == names.Keys + NamesOf(xs)
            && forall x :: x in names1 ==> if x in names then names1[x] == names[x] else n <= names1[x]
  {
    if xs != [] {
      assert xs == [xs[0]] + xs[1..];
      if xs[0] in names {
        DeclareAllRight(xs[1..], names, n);
      } else {
        var next: Names := names[xs[0] := n];
        DeclareAllRight(xs[1..], next, n + 1);
      }
    }
  }

  /** The outermost scope before let names are hoisted. */
  function VarFrame(f: Function, args: seq<Value>): Frame {
    (map x | x in VarNamesIn(f.body) :: Undefined) + ParamFrame(f.params, args)
  }

  lemma RelOne(names: Names, n: nat, frame: Frame, locals: seq<Value>)
    requires Slotted(names, n) && n <= |locals| && names.Keys == frame.Keys
    requires forall x :: x in names ==> locals[names[x]] == frame[x]
    ensures Rel([names], [frame], locals) && AllBelow([names], n)
  {}

  lemma InitRelated(f: Function, args: seq<Value>, g: Globals)
    ensures
      var (names, n) := DeclareAll(VarNamesIn(f.body), ParamSlots(f.params), |f.params|);
      var m := InitMachine(Compile(f), args, g);
      && Rel([names], [VarFrame(f, args)], m.locals) && AllBelow([names], n)
      && names.Keys == NamesOf(f.params) + NamesOf(VarNamesIn(f.body))
  {
    hide Compile, GenL, VarNamesIn, LexNames, DeclareAll, ParamSlots, ParamFrame, Rel, AllBelow, VarFrame, Slotted;
    var (names, n) := DeclareAll(VarNamesIn(f.body), ParamSlots(f.params), |f.params|);
    var m := InitMachine(Compile(f), args, g);
    CompiledSlots(f);
    NamesSlotted(f, args);
    forall x | x in names ensures m.locals[names[x]] == VarFrame(f, args)[x] { InitSlot(f, args, x); }
    RelOne(names, n, VarFrame(f, args), m.locals);
  }

  lemma CompiledSlots(f: Function)
    ensures var c, n := Compile(f), DeclareAll(VarNamesIn(f.body), ParamSlots(f.params), |f.params|).1;
            c.params == |f.params| && n <= c.locals
  {
    hide GenL, VarNamesIn, LexNames, Hoist, I0, DeclareAll, ParamSlots;
  }

  lemma NamesSlotted(f: Function, args: seq<Value>)
    ensures var (names, n) := DeclareAll(VarNamesIn(f.body), ParamSlots(f.params), |f.params|);
            && Slotted(names, n) && names.Keys == NamesOf(f.params) + NamesOf(VarNamesIn(f.body)) == VarFrame(f, args).Keys
            && forall x :: x in names ==> names[x] < n
  {
    hide VarNamesIn, DeclareAll, ParamSlots, ParamFrame, VarFrame;
    ParamSlotsRight(f.params, args);
    DeclareAllRight(VarNamesIn(f.body), ParamSlots(f.params), |f.params|);
    VarFrameIs(f, args);
  }

  /** A parameter's slot holds its argument, a var's slot undefined. */
  lemma InitSlot(f: Function, args: seq<Value>, x: string)
    requires x in DeclareAll(VarNamesIn(f.body), ParamSlots(f.params), |f.params|).0
    ensures var names := DeclareAll(VarNamesIn(f.body), ParamSlots(f.params), |f.params|).0;
            x in VarFrame(f, args) && ArgAt(args, |f.params|, names[x]) == VarFrame(f, args)[x]
  {
    hide VarNamesIn, DeclareAll, ParamSlots, ParamFrame, VarFrame;
    ParamSlotsRight(f.params, args);
    DeclareAllRight(VarNamesIn(f.body), ParamSlots(f.params), |f.params|);
    VarFrameIs(f, args);
  }

  lemma VarFrameIs(f: Function, args: seq<Value>)
    ensures var (fr, v) := (ParamFrame(f.params, args), VarFrame(f, args));
      && v.Keys == fr.Keys + NamesOf(VarNamesIn(f.body))
      && forall x :: x in v ==> v[x] == if x in fr then fr[x] else Undefined
  {
    hide VarNamesIn, ParamFrame;
  }

  // ---------- The run of a whole function ----------

  /** The machine result that a source outcome calls for. */
  function AsResult(o: Out): Result
    requires o.Ret? || o.Exc?
  {
    if o.Ret? then Returned(o.v) else Thrown(o.v)
  }

  lemma WholePlaced(c: Chunk)
    ensures Placed(c, 0, c.code)
  {}

  lemma BodyParts0(f: Function)
    ensures
      var c := Compile(f);
      var (names, n) := DeclareAll(VarNamesIn(f.body), ParamSlots(f.params), |f.params|);
      var h := Hoist(LexNames(f.body), names, [], n);
      var b := GenL(f.body, h.names, |h.code|, h.consts, h.locals, []);
      var end := |h.code| + SizeL(f.body);
      && Placed(c, 0, h.code) && Ext(h.consts, c.consts) && n + |LexNames(f.body)| <= c.locals
      && Placed(c, |h.code|, b.code) && Ext(b.consts, c.consts) && b.locals <= c.locals
      && Placed(c, end, I0(OpUndefined)) && Placed(c, end + 1, I0(OpReturn))
  {
    hide Placed, Ext, GenL, SizeL, Hoist, DeclareAll, VarNamesIn, LexNames, ParamSlots, I0;
    var c := Compile(f);
    ExtTransitive();
    WholePlaced(c);
    PlacedSplits(c);
    var (names, n) := DeclareAll(VarNamesIn(f.body), ParamSlots(f.params), |f.params|);
    var h := Hoist(LexNames(f.body), names, [], n);
    var b := GenL(f.body, h.names, |h.code|, h.consts, h.locals, []);
    assert Placed(c, 0, h.code + b.code + I0(OpUndefined) + I0(OpReturn));
  }

  /** The run reaches the interpreter's outcome, or is still going after `fuel` steps. */
  lemma SimFunction(p: Prims, f: Function, args: seq<Value>, g: Globals, fuel: nat) returns (n: nat)
    requires p.counting.AsIs? && WfFunction(f) && NoCaseLetsL(f.body) && Fits(Compile(f))
    ensures
      var (o, g1) := Run(p, f, args, g, fuel);
      var k := Steps(p, Compile(f), Go(InitMachine(Compile(f), args, g)), n);
      if o.Spent? then k.Go? && n >= fuel else (o.Ret? || o.Exc?) && k == Halt(AsResult(o), g1)
  {
    hide Rel, Flat, Placed, Ext, GenL, SizeL, Hoist, DeclareAll, VarNamesIn, LexNames, ParamSlots, I0, TdzFrame,
         ExecList, AllBelow, Compile, InitMachine, HasL, Lands;
    var c := Compile(f);
    var m := InitMachine(c, args, g);
    var xs := LexNames(f.body);
    var (names, nv) := DeclareAll(VarNamesIn(f.body), ParamSlots(f.params), |f.params|);
    var h := Hoist(xs, names, [], nv);
    BodyParts0(f);
    InitRelated(f, args, g);
    InitShape(f, args, g);
    var x := X(p, c, [names]);
    var env := Env([VarFrame(f, args)], g);
    FlatOne(names);
    Start(x, m);
    var n1, m1, x1, env1 := SimHoist(x, xs, [], nv, m, 0, m, env);
    assert env1.frames == [BodyFrame(f, args)];
    HoistKeys(xs, names, [], nv);
    HasBody(f, x1);
    var n2, m2 := SimL(x1, f.body, h.consts, h.locals, [], m1, env1, fuel);
    var (o, env2, left) := ExecList(p, f.body, env1, fuel);
    var end := |h.code| + SizeL(f.body);
    LandsAfter(x1, m, n1, m1, n2, m2, end, [], [], o, env2);
    n := SimEnd(x1, m, n1 + n2, m2, end, o, env2);
  }

  /** Falling off the end returns undefined; outside loops nothing else but a halt is left. */
  lemma SimEnd(x: X, m: Machine, n0: nat, m0: Machine, end: int, o: Out, env: Env) returns (n: nat)
    requires Lands(x, m, n0, m0, end, [], [], o, env)
    requires Placed(x.c, end, I0(OpUndefined)) && Placed(x.c, end + 1, I0(OpReturn))
    ensures n0 <= n
    ensures var o1 := if o.Normal? then Ret(Undefined) else o;
            if o1.Spent? then Runs(x, m, n, Go(m0))
            else (o1.Ret? || o1.Exc?) && Runs(x, m, n, Halt(AsResult(o1), env.globals))
  {
    hide Runs, Rel, I0;
    n := n0;
    if o.Normal? {
      var k := Next0(x, m, n0, m0, OpUndefined);
      k := Next0(x, m, n0 + 1, k.m, OpReturn);
      n := n0 + 2;
    }
  }

  lemma FlatOne(names: Names)
    ensures Flat([names]) == names
  {
    assert [names][..0] == [];
    assert Flat([]) == map[];
  }

  lemma InitShape(f: Function, args: seq<Value>, g: Globals)
    ensures var m := InitMachine(Compile(f), args, g);
            m.ip == 0 && m.stack == [] && m.globals == g && |m.locals| == Compile(f).locals
  {
    hide Compile;
  }

  lemma HasBody(f: Function, x: X)
    requires x.c == Compile(f)
    requires var (names, n) := DeclareAll(VarNamesIn(f.body), ParamSlots(f.params), |f.params|);
             Flat(x.s) == Hoist(LexNames(f.body), names, [], n).names
    ensures var (names, n) := DeclareAll(VarNamesIn(f.body), ParamSlots(f.params), |f.params|);
            var h := Hoist(LexNames(f.body), names, [], n);
            HasL(x, f.body, |h.code|, h.consts, h.locals, [])
  {
    hide Placed, Ext, GenL, Hoist, DeclareAll, VarNamesIn, LexNames, ParamSlots, I0, Flat, Compile;
    BodyParts0(f);
  }

  /** Once halted, a machine stays halted with the same result. */
  lemma StaysHalted(p: Prims, c: Chunk, k: Conf, a: nat, b: nat)
    requires Steps(p, c, k, a).Halt? && a <= b
    ensures Steps(p, c, k, b) == Steps(p, c, k, a)
  {
    hide Step;
    StepsAdd(p, c, k, a, b - a);
  }

  /** No instruction converts the operand of ++ and --. */
  lemma {:induction false} RunGasUnconverted(p: Prims, c: Chunk, m: Machine, gas: int)
    ensures RunGas(Unconverted(p), c, m, gas) == RunGas(p, c, m, gas)
    decreases if gas > 0 then gas else 0
  {
    StepUnconverted(p, c, m);
    hide Step;
    if m.ip < |c.code| && gas > 1 && Step(p, c, m).Go? { RunGasUnconverted(p, c, Step(p, c, m).m, gas - 1); }
  }

  lemma StepUnconverted(p: Prims, c: Chunk, m: Machine)
    ensures Step(Unconverted(p), c, m) == Step(p, c, m)
  {
    hide Fetch;
  }

  /** Soundness of every run: whatever the allowance, a run that is not cut short gives the
      interpreter's outcome and globals, and never faults. */
  lemma RunIsSource(p: Prims, f: Function, args: seq<Value>, g: Globals, gas: int, fuel: nat)
    requires WfFunction(f) && NoCaseLetsL(f.body) && Fits(Compile(f)) && fuel > 0 && fuel > gas
    requires RunGas(p, Compile(f), InitMachine(Compile(f), args, g), gas).0 != GasExhausted
    ensures var (o, g1) := Run(Unconverted(p), f, args, g, fuel);
            && (o.Ret? || o.Exc?)
            && RunGas(p, Compile(f), InitMachine(Compile(f), args, g), gas) == (AsResult(o), g1)
  {
    hide Steps, RunGas, Compile, InitMachine, Run;
    var c, q := Compile(f), Unconverted(p);
    var m := InitMachine(c, args, g);
    RunGasUnconverted(p, c, m, gas);
    var n := RunGasIsSteps(q, c, m, gas);
    var n2 := SimFunction(q, f, args, g, fuel);
    if n <= n2 { StaysHalted(q, c, Go(m), n, n2); } else { StaysHalted(q, c, Go(m), n2, n); }
  }

  /** Completeness: an interpreter run that ends is reproduced by every large enough allowance. */
  lemma SourceIsRun(p: Prims, f: Function, args: seq<Value>, g: Globals, fuel: nat) returns (enough: nat)
    requires WfFunction(f) && NoCaseLetsL(f.body) && Fits(Compile(f)) && !Run(Unconverted(p), f, args, g, fuel).0.Spent?
    ensures var (o, g1) := Run(Unconverted(p), f, args, g, fuel);
            && (o.Ret? || o.Exc?)
            && forall gas :: gas > enough ==>
                 RunGas(p, Compile(f), InitMachine(Compile(f), args, g), gas) == (AsResult(o), g1)
  {
    hide Steps, RunGas, Compile, InitMachine, Run;
    var c, q := Compile(f), Unconverted(p);
    var m := InitMachine(c, args, g);
    enough := SimFunction(q, f, args, g, fuel);
    var (o, g1) := Run(q, f, args, g, fuel);
    forall gas | gas > enough ensures RunGas(p, c, m, gas) == (AsResult(o), g1) {
      RunGasUnconverted(p, c, m, gas);
      EnoughGas(q, c, m, enough, gas);
    }
  }

  // ---------- Where the bound on slots comes from ----------

  /** Accesses to two names compile to the same instructions exactly when their slots agree in 16 bits, so a
      function with more than 65536 of them has variables that overwrite each other. */
  lemma SlotsAlias(x: string, y: string, names: Names, cs: seq<Const>)
    requires x in names && y in names
    ensures GenLoad(x, names, cs) == GenLoad(y, names, cs) <==> names[x] % 65536 == names[y] % 65536
    ensures GenStore(x, names, cs) == GenStore(y, names, cs) <==> names[x] % 65536 == names[y] % 65536
  {
    var (a, b) := (Pack(names[x]), Pack(names[y]));
    SameCode(OpGetLocal, a, b);
    SameCode(OpSetLocal, a, b);
    hide I4;
  }

  lemma SameCode(op: Op, a: int, b: int)
    requires Width(op) == 4 && 0 <= a < TWO32 && 0 <= b < TWO32
    ensures I4(op, a) == I4(op, b) <==> a == b
  {
    WordRoundTrip(a);
    WordRoundTrip(b);
    assert I4(op, a)[1..] == LE32(a) && I4(op, b)[1..] == LE32(b);
  }
}
