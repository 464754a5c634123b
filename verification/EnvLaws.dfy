/**
 What calls, assignments, returns, handlers and generators come to on the machine of environments, whichever way
 it makes them: both ways share the functions of one step, so their agreement says nothing of it.
 */
module EnvLaws {
  import opened Options
  import opened EnvMachine
  import opened EnvPoolRefines

  /** Idle environments hold nothing. */
  predicate CleanPool(s: State) {
    forall k :: 0 <= k < |s.pool| && s.pool[k] < |s.envs| ==>
      forall i :: 0 <= i < |s.envs[s.pool[k]].elements| ==> s.envs[s.pool[k]].elements[i] == Undefined
  }

  /** The instruction the running frame is at. */
  predicate At(pr: Program, s: State, i: Instr) {
    && s.frames != [] && Top(s).chunk < |pr.chunks|
    && Top(s).ip < |pr.chunks[Top(s).chunk].code| && pr.chunks[Top(s).chunk].code[Top(s).ip].instr == i
  }

  /** Where the running frame goes on after its instruction. */
  function NextIP(pr: Program, s: State): nat
    requires s.frames != [] && Top(s).chunk < |pr.chunks| && Top(s).ip < |pr.chunks[Top(s).chunk].code|
  {
    Top(s).ip + 1 + pr.chunks[Top(s).chunk].code[Top(s).ip].width
  }

  // ---------- Calls ----------

  /** What slot i of a call holds at first: the arguments object, the function itself, an argument, or undefined.  The
      arguments are the topmost operands, the first of them deepest. */
  function Initial(c: Chunk, stack: seq<Value>, argc: nat, callee: Value, object_: Value, i: nat): Value
    requires argc <= |stack|
  {
    if c.argsSlot == Some(i) then object_
    else if c.selfSlot == Some(i) then callee
    else if i < c.params && i < argc then stack[|stack| - argc + i]
    else Undefined
  }

  /** The arguments object a function that uses one gets: in sloppy code its elements at the parameters are mapped to
      the variables, in strict code none is. */
  function ArgumentsObject(c: Chunk, env: nat): seq<Obj> {
    if c.argsSlot.None? then [] else if c.strict then [ArgObj(env, 0)] else [ArgObj(env, c.params)]
  }

  /** A call of a plain function starts at the beginning of its code on an environment of its own inside the
      function's, whose slots hold what they should; callee and arguments leave the operands, and nothing else changes. */
  lemma CallBinds(pr: Program, s: State, argc: nat, chunk: nat, parent: nat, pooled: bool)
    requires At(pr, s, Call(argc)) && |s.stack| > argc && |s.frames| < pr.maxDepth && (pooled ==> CleanPool(s))
    requires var callee := s.stack[|s.stack| - argc - 1]; callee.Ref? && callee.id < |s.objs| && s.objs[callee.id] == FunObj(chunk, parent)
    requires chunk < |pr.chunks| && !pr.chunks[chunk].generator
    ensures var (k, c, callee) := (Step(pr, s, pooled), pr.chunks[chunk], s.stack[|s.stack| - argc - 1]);
      && k.Go? && |k.s.frames| == |s.frames| + 1
      && k.s.frames[..|s.frames|] == s.frames[|s.frames| - 1 := Top(s).(ip := NextIP(pr, s))]
      && Top(k.s) == Frame(chunk, Top(k.s).env, 0, |k.s.stack|)
      && k.s.stack == s.stack[..|s.stack| - argc - 1] && k.s.store == s.store
      && Top(k.s).env < |k.s.envs| && k.s.envs[Top(k.s).env].parent == Some(parent)
      && (forall i :: 0 <= i < c.locals ==>
            ReadVar(k.s, Top(k.s).env, 0, i) == Some(Initial(c, s.stack, argc, callee, Ref(|s.objs|), i)))
      && (forall e :: 0 <= e < |s.envs| && e != Top(k.s).env ==> k.s.envs[e] == s.envs[e])
      && (Top(k.s).env < |s.envs| ==> pooled && Top(k.s).env in s.pool)
      && k.s.objs == s.objs + ArgumentsObject(c, Top(k.s).env)
  {
    var s0 := SetIP(s, NextIP(pr, s));
    assert Step(pr, s, pooled) == DoCall(pr, s0, argc, pooled);
    var callee := s.stack[|s.stack| - argc - 1];
    assert Peek(s.stack, argc) == callee;
    EnterBinds(pr, s0, argc, chunk, parent, callee, pooled);
  }

  /** Every run of a program with regular safe chunks keeps its idle environments empty, so its calls bind so. */
  lemma PoolStaysClean(pr: Program, chunk: nat, els: seq<Value>, store: Store, n: nat)
    requires WfProgram(pr) && !Safe(pr, chunk)
    ensures var k := Run(pr, Go(Start(chunk, els, store)), n, true); k.Go? ==> CleanPool(k.s)
  {
    hide Run, Rel, CleanPool, WfProgram;
    var s := Start(chunk, els, store);
    StartRel(pr, chunk, els, store);
    RunRel(pr, Go(s), Go(s), n);
    var (a, b) := (Run(pr, Go(s), n, true), Run(pr, Go(s), n, false));
    if a.Go? {
      var m :| Rel(pr, a.s, b.s, m);
      RelClean(pr, a.s, b.s, m);
    }
  }

  lemma RelClean(pr: Program, p: State, f: State, m: Ids)
    requires Rel(pr, p, f, m)
    ensures CleanPool(p)
  {
    hide FramesRel, ObjsRel, IdsOk, ParentsRel, ElementsRel, Private, GensOk;
  }

  lemma AcquireClean(pr: Program, s: State, chunk: nat, parent: nat, pooled: bool)
    requires chunk < |pr.chunks| && (pooled ==> CleanPool(s))
    ensures var (t, e) := Acquire(pr, s, chunk, parent, pooled);
      && e < |t.envs| && t.envs[e].parent == Some(parent) && pr.chunks[chunk].locals <= |t.envs[e].elements|
      && (forall i :: 0 <= i < |t.envs[e].elements| ==> t.envs[e].elements[i] == Undefined)
      && (forall x :: 0 <= x < |s.envs| && x != e ==> x < |t.envs| && t.envs[x] == s.envs[x])
      && (e < |s.envs| ==> pooled && e in s.pool)
  {}

  lemma EnterBinds(pr: Program, s: State, argc: nat, chunk: nat, parent: nat, callee: Value, pooled: bool)
    requires s.frames != [] && argc < |s.stack| && (pooled ==> CleanPool(s))
    requires chunk < |pr.chunks| && !pr.chunks[chunk].generator
    ensures var (k, c) := (Enter(pr, s, argc, chunk, parent, callee, pooled), pr.chunks[chunk]);
      && k.Go? && k.s.frames == s.frames + [Frame(chunk, Top(k.s).env, 0, |k.s.stack|)]
      && k.s.stack == s.stack[..|s.stack| - argc - 1] && k.s.store == s.store
      && Top(k.s).env < |k.s.envs| && k.s.envs[Top(k.s).env].parent == Some(parent)
      && (forall i :: 0 <= i < c.locals ==>
            ReadVar(k.s, Top(k.s).env, 0, i) == Some(Initial(c, s.stack, argc, callee, Ref(|s.objs|), i)))
      && (forall e :: 0 <= e < |s.envs| && e != Top(k.s).env ==> k.s.envs[e] == s.envs[e])
      && (Top(k.s).env < |s.envs| ==> pooled && Top(k.s).env in s.pool)
      && k.s.objs == s.objs + ArgumentsObject(c, Top(k.s).env)
  {
    hide Acquire, Bind, SetSlot, Initial;
    AcquireClean(pr, s, chunk, parent, pooled);
    var c := pr.chunks[chunk];
    var (t, e) := Acquire(pr, s, chunk, parent, pooled);
    forall i | 0 <= i < |t.envs[e].elements|
      ensures Filled(t.envs[e].elements, c, s.stack, argc, callee, Ref(|s.objs|))[i] == Initial(c, s.stack, argc, callee, Ref(|s.objs|), i)
    {
      FilledAt(t.envs[e].elements, c, s.stack, argc, callee, Ref(|s.objs|), i);
    }
  }

  /** The slots as the call fills them. */
  function Filled(els: seq<Value>, c: Chunk, stack: seq<Value>, argc: nat, callee: Value, object_: Value): (r: seq<Value>)
    ensures |r| == |els|
  {
    var els0 := SetSlot(Bind(els, stack, c.params, argc), c.selfSlot, callee);
    if c.argsSlot.Some? then SetSlot(els0, c.argsSlot, object_) else els0
  }

  lemma FilledAt(els: seq<Value>, c: Chunk, stack: seq<Value>, argc: nat, callee: Value, object_: Value, i: nat)
    requires i < |els| && els[i] == Undefined && argc <= |stack|
    ensures Filled(els, c, stack, argc, callee, object_)[i] == Initial(c, stack, argc, callee, object_, i)
  {
    hide Bind;
    BoundAt(els, stack, c.params, argc, i);
  }

  lemma BoundAt(els: seq<Value>, stack: seq<Value>, params: nat, argc: nat, i: nat)
    requires i < |els| && argc <= |stack|
    ensures Bind(els, stack, params, argc)[i] == if i < params && i < argc then stack[|stack| - argc + i] else els[i]
  {
    if i < params && i < argc { assert Peek(stack, argc - 1 - i) == stack[|stack| - argc + i]; }
  }

  /** Calling a generator function runs nothing: its object is made, on an environment that holds the arguments, to begin
      at the beginning when it is first asked. */
  lemma GeneratorMade(pr: Program, s: State, argc: nat, chunk: nat, parent: nat, callee: Value, pooled: bool)
    requires s.frames != [] && argc < |s.stack| && (pooled ==> CleanPool(s))
    requires chunk < |pr.chunks| && pr.chunks[chunk].generator
    ensures var (k, c) := (Enter(pr, s, argc, chunk, parent, callee, pooled), pr.chunks[chunk]);
      && k.Go? && k.s.frames == s.frames && k.s.store == s.store && k.s.objs != []
      && var g := k.s.objs[|k.s.objs| - 1];
      && g == GenObj(chunk, g.env, Fresh) && k.s.stack == s.stack[..|s.stack| - argc - 1] + [Ref(|k.s.objs| - 1)]
      && g.env < |k.s.envs| && k.s.envs[g.env].parent == Some(parent)
      && forall i :: 0 <= i < c.locals ==>
           ReadVar(k.s, g.env, 0, i) == Some(Initial(c, s.stack, argc, callee, Ref(|s.objs|), i))
  {
    hide Acquire, Bind, SetSlot, Initial;
    AcquireClean(pr, s, chunk, parent, pooled);
    var c := pr.chunks[chunk];
    var (t, e) := Acquire(pr, s, chunk, parent, pooled);
    forall i | 0 <= i < |t.envs[e].elements|
      ensures Filled(t.envs[e].elements, c, s.stack, argc, callee, Ref(|s.objs|))[i] == Initial(c, s.stack, argc, callee, Ref(|s.objs|), i)
    {
      FilledAt(t.envs[e].elements, c, s.stack, argc, callee, Ref(|s.objs|), i);
    }
  }

  /** A call that would nest too deep throws, as does one of something that is neither a function nor a generator. */
  lemma CallRefused(pr: Program, s: State, argc: nat, pooled: bool)
    requires At(pr, s, Call(argc)) && |s.stack| > argc
    ensures var (callee, s1) := (s.stack[|s.stack| - argc - 1], s.(frames := s.frames[|s.frames| - 1 := Top(s).(ip := NextIP(pr, s))]));
      if |s.frames| >= pr.maxDepth then Step(pr, s, pooled) == Unwind(pr, s1, pr.tooDeep, pooled)
      else !callee.Ref? || callee.id >= |s.objs| || s.objs[callee.id].ArgObj? ==>
             Step(pr, s, pooled) == Unwind(pr, s1, pr.notCallable(callee), pooled)
  {
    hide Unwind, Enter, Resume;
    assert Peek(s.stack, argc) == s.stack[|s.stack| - argc - 1];
  }

  // ---------- Variables ----------

  /** An assignment changes the variable it names, for everyone who sees it, and nothing else. */
  lemma AssignedIsRead(pr: Program, s: State, depth: nat, slot: nat, pooled: bool, env: nat, depth2: nat, slot2: nat)
    requires At(pr, s, SetVar(depth, slot)) && s.stack != [] && Step(pr, s, pooled).Go?
    ensures var s1 := Step(pr, s, pooled).s;
      && s1.stack == s.stack && s1.objs == s.objs && s1.store == s.store && s1.pool == s.pool
      && s1.frames == s.frames[|s.frames| - 1 := Top(s).(ip := NextIP(pr, s))]
      && ReadVar(s1, env, depth2, slot2) ==
         if Walk(s.envs, env, depth2).Some? && Walk(s.envs, env, depth2) == Walk(s.envs, Top(s).env, depth) && slot2 == slot
         then Some(s.stack[|s.stack| - 1]) else ReadVar(s, env, depth2, slot2)
  {
    var s0 := SetIP(s, NextIP(pr, s));
    var id := Walk(s.envs, Top(s).env, depth);
    assert Step(pr, s, pooled) == Execute(pr, s0, SetVar(depth, slot), pooled);
    assert id.Some?;
    WalkSame(s.envs, id.value, slot, s.stack[|s.stack| - 1], env, depth2);
  }

  lemma {:induction false} WalkSame(envs: seq<Env>, id: nat, slot: nat, v: Value, env: nat, depth: nat)
    ensures Walk(SetAt(envs, id, slot, v), env, depth) == Walk(envs, env, depth)
    decreases depth
  {
    if env < |envs| && depth > 0 && envs[env].parent.Some? { WalkSame(envs, id, slot, v, envs[env].parent.value, depth - 1); }
  }

  /** Reading a variable pushes what it holds. */
  lemma ReadIsPushed(pr: Program, s: State, depth: nat, slot: nat, pooled: bool)
    requires At(pr, s, GetVar(depth, slot))
    ensures var v := ReadVar(s, Top(s).env, depth, slot);
      Step(pr, s, pooled) ==
      if v.Some? then Go(s.(frames := s.frames[|s.frames| - 1 := Top(s).(ip := NextIP(pr, s))], stack := s.stack + [v.value])) else Fault
  {}

  predicate InsideOf(envs: seq<Env>, a: nat, b: nat) { a < |envs| && b < |envs| && envs[a].parent == Some(b) }

  /** The variable `depth` scopes out is the one that as many outer links lead to. */
  lemma {:induction false} WalkIs(envs: seq<Env>, path: seq<nat>)
    requires path != [] && path[0] < |envs| && forall i :: 0 <= i < |path| - 1 ==> InsideOf(envs, path[i], path[i + 1])
    ensures Walk(envs, path[0], |path| - 1) == Some(path[|path| - 1])
    decreases |path|
  {
    if |path| > 1 {
      var rest := path[1..];
      assert InsideOf(envs, path[0], path[1]);
      assert forall i :: 0 <= i < |rest| - 1 ==> InsideOf(envs, path[i + 1], path[i + 2]) && rest[i] == path[i + 1];
      WalkIs(envs, rest);
    }
  }

  // ---------- Returns ----------

  /** The end of a script gives the value on top of its operands, if there is one. */
  lemma HaltGives(pr: Program, s: State, pooled: bool)
    requires At(pr, s, Halt)
    ensures Step(pr, s, pooled) ==
      Done(if s.stack != [] && Top(s).base < |s.stack| then s.stack[|s.stack| - 1] else Undefined, s.store)
  {}

  /** A return gives its value to the caller, whose operands are as the call left them; the outermost one ends the run. */
  lemma ReturnGives(pr: Program, s: State, pooled: bool)
    requires At(pr, s, Return) && s.stack != [] && Top(s).base < |s.stack|
    ensures var (k, v) := (Step(pr, s, pooled), s.stack[|s.stack| - 1]);
      if |s.frames| == 1 then k == Done(v, s.store)
      else
        && k.Go? && k.s.frames == s.frames[..|s.frames| - 1] && k.s.store == s.store
        && k.s.stack == s.stack[..Top(s).base] + [v]
        && forall e :: 0 <= e < |s.envs| && e != Top(s).env ==> e < |k.s.envs| && k.s.envs[e] == s.envs[e]
  {
    var s0 := SetIP(s, NextIP(pr, s)).(stack := Drop(s.stack, 1));
    assert Step(pr, s, pooled) == DoReturn(pr, s0, s.stack[|s.stack| - 1], pooled);
    ReleaseOne(pr, s0, pooled);
    assert Truncate(s0.stack, Top(s).base) == s.stack[..Top(s).base];
    assert s0.frames[..|s.frames| - 1] == s.frames[..|s.frames| - 1];
  }

  lemma ReleaseOne(pr: Program, s: State, pooled: bool)
    requires s.frames != []
    ensures var t := Finish(pr, s, pooled);
      && t.frames == s.frames[..|s.frames| - 1] && t.stack == Truncate(s.stack, Top(s).base) && t.store == s.store
      && forall e :: 0 <= e < |s.envs| && e != Top(s).env ==> e < |t.envs| && t.envs[e] == s.envs[e]
  {}

  /** While fewer than 64 environments are idle, and fewer than frames may be nested, the one a safe call gives back is
      the one the next safe call gets: no environment is made for that. */
  lemma Recycled(pr: Program, s: State, chunk: nat, parent: nat)
    requires s.frames != [] && Safe(pr, Top(s).chunk) && Safe(pr, chunk) && Top(s).env < |s.envs|
    requires |s.pool| < 64 && |s.pool| < pr.maxDepth
    ensures var t := Release(pr, s, Top(s), true);
      && t.pool == s.pool + [Top(s).env] && |t.envs| == |s.envs|
      && var (u, e) := Acquire(pr, t, chunk, parent, true);
      && e == Top(s).env && u.pool == s.pool && |u.envs| == |s.envs|
  {}

  // ---------- Handlers ----------

  /** Of the handlers around ip the one with the shortest range is chosen, the first of those; -1 means there is none. */
  lemma {:induction false} InnermostHandler(hs: seq<Handler>, ip: nat, n: nat)
    requires n <= |hs|
    ensures var k := Best(hs, ip, n);
      if k < 0 then forall i :: 0 <= i < n ==> !(hs[i].start <= ip && ip <= hs[i].end)
      else
        && hs[k].start <= ip && ip <= hs[k].end
        && forall i :: 0 <= i < n && hs[i].start <= ip && ip <= hs[i].end ==>
             hs[k].end - hs[k].start <= hs[i].end - hs[i].start && (i < k ==> hs[k].end - hs[k].start < hs[i].end - hs[i].start)
  {
    if n > 0 { InnermostHandler(hs, ip, n - 1); }
  }

  /** A value thrown where a handler with a catch block is around: the frame goes on there, its operands gone but for
      the value, which the catch variable holds too if there is one. */
  lemma ThrowCaught(pr: Program, s: State, k: nat, pooled: bool)
    requires At(pr, s, Throw) && s.stack != []
    requires var hs := pr.chunks[Top(s).chunk].handlers;
      k < |hs| && Best(hs, NextIP(pr, s), |hs|) == k && hs[k].catchIP.Some?
    requires var h := pr.chunks[Top(s).chunk].handlers[k];
      h.slot.Some? ==> ReadVar(s, Top(s).env, h.depth, h.slot.value).Some?
    ensures var (h, v, r) := (pr.chunks[Top(s).chunk].handlers[k], s.stack[|s.stack| - 1], Step(pr, s, pooled));
      && r.Go?
      && r.s.frames == s.frames[|s.frames| - 1 := Top(s).(ip := h.catchIP.value)]
      && r.s.stack == Truncate(s.stack[..|s.stack| - 1], Top(s).base) + [v]
      && r.s.store == s.store && r.s.objs == s.objs
      && (h.slot.Some? ==> ReadVar(r.s, Top(s).env, h.depth, h.slot.value) == Some(v))
      && (h.slot.None? ==> r.s.envs == s.envs)
  {
    hide Best;
    var (h, v) := (pr.chunks[Top(s).chunk].handlers[k], s.stack[|s.stack| - 1]);
    var s0 := SetIP(s, NextIP(pr, s)).(stack := Drop(s.stack, 1));
    assert Step(pr, s, pooled) == Unwind(pr, s0, v, pooled);
    if h.slot.Some? {
      var id := Walk(s.envs, Top(s).env, h.depth);
      WalkSame(s.envs, id.value, h.slot.value, v, Top(s).env, h.depth);
    }
  }

  /** Without a handler around it ends the frame, and goes on in the caller; from the last frame it ends the run. */
  lemma ThrowPasses(pr: Program, s: State, v: Value, pooled: bool)
    requires s.frames != [] && Top(s).chunk < |pr.chunks|
    requires var hs := pr.chunks[Top(s).chunk].handlers;
      forall i :: 0 <= i < |hs| ==> !(hs[i].start <= Top(s).ip && Top(s).ip <= hs[i].end)
    ensures var t := Finish(pr, s, pooled);
      && Unwind(pr, s, v, pooled) == Unwind(pr, t, v, pooled)
      && t.frames == s.frames[..|s.frames| - 1] && t.stack == Truncate(s.stack, Top(s).base) && t.store == s.store
      && (|s.frames| == 1 ==> Unwind(pr, s, v, pooled) == Uncaught(v, s.store))
  {
    hide Best, PopFrame, Release;
    var hs := pr.chunks[Top(s).chunk].handlers;
    InnermostHandler(hs, Top(s).ip, |hs|);
    ReleaseOne(pr, s, pooled);
  }

  // ---------- Jumps, functions, arguments objects ----------

  /** A jump goes on at its target; a conditional one takes its operand and goes there when that counts as false, or as true. */
  lemma JumpGoes(pr: Program, s: State, to: nat, pooled: bool)
    requires s.frames != [] && s.stack != [] && Top(s).chunk < |pr.chunks| && to <= |pr.chunks[Top(s).chunk].code|
    requires At(pr, s, Jump(to)) || At(pr, s, JumpIfFalse(to)) || At(pr, s, JumpIfTrue(to))
    ensures var (k, top, rest, t) := (Step(pr, s, pooled), s.stack[|s.stack| - 1], s.stack[..|s.stack| - 1], pr.truthy);
      && k.Go? && k.s.envs == s.envs && k.s.objs == s.objs && k.s.store == s.store && |k.s.frames| == |s.frames|
      && (At(pr, s, Jump(to)) ==> k.s.stack == s.stack && Top(k.s) == Top(s).(ip := to))
      && (At(pr, s, JumpIfFalse(to)) ==> k.s.stack == rest && Top(k.s) == Top(s).(ip := if t(top) then NextIP(pr, s) else to))
      && (At(pr, s, JumpIfTrue(to)) ==> k.s.stack == rest && Top(k.s) == Top(s).(ip := if t(top) then to else NextIP(pr, s)))
  {
    assert Drop(s.stack, 1) == s.stack[..|s.stack| - 1];
  }

  /** A function that is made closes over the environment of the frame that makes it. */
  lemma ClosureKeeps(pr: Program, s: State, chunk: nat, pooled: bool)
    requires At(pr, s, MakeFunction(chunk))
    ensures var k := Step(pr, s, pooled);
      && k.Go? && k.s.stack == s.stack + [Ref(|s.objs|)] && k.s.objs == s.objs + [FunObj(chunk, Top(s).env)]
      && k.s.envs == s.envs && k.s.store == s.store && |k.s.frames| == |s.frames|
  {}

  /** The elements of an arguments object that are mapped are the variables of its call: reading one reads the variable,
      writing one assigns to it. */
  lemma ArgumentsShare(pr: Program, s: State, op: nat, arg: nat, at: nat, id: nat, k: nat, pooled: bool)
    requires at < |s.stack| && s.stack[|s.stack| - 1 - at] == Ref(id) && id < |s.objs| && s.objs[id].ArgObj?
    requires pr.index(op, arg, s.stack) == Some(k) && k < s.objs[id].mapped && ReadVar(s, s.objs[id].env, 0, k).Some?
    ensures At(pr, s, ReadProp(op, arg, at)) ==>
      var r := Step(pr, s, pooled);
      r.Go? && r.s.stack == s.stack[..|s.stack| - 1 - at] + [ReadVar(s, s.objs[id].env, 0, k).value] && r.s.envs == s.envs
    ensures At(pr, s, WriteProp(op, arg, at)) && at > 0 ==>
      var (r, v) := (Step(pr, s, pooled), s.stack[|s.stack| - 1]);
      && r.Go? && r.s.stack == s.stack[..|s.stack| - 1 - at] + [v]
      && ReadVar(r.s, s.objs[id].env, 0, k) == Some(v) && r.s.objs == s.objs
  {
    assert Peek(s.stack, at) == Ref(id);
    assert Drop(s.stack, at + 1) == s.stack[..|s.stack| - 1 - at];
  }

  // ---------- Generators ----------

  /** A generator that yields and is asked for its next value goes on where it was: the same place, environment and
      operands, and the value sent on top of them. */
  lemma SuspendThenResume(pr: Program, s: State, t: State, id: nat, argc: nat, sent: Value, pooled: bool)
    requires s.frames != [] && s.stack != [] && Top(s).base < |s.stack| && DoSuspend(s).Go?
    requires id < |s.objs| && s.objs[id].GenObj? && s.objs[id].env == Top(s).env && s.objs[id].chunk == Top(s).chunk
    requires t.frames != [] && |t.frames| < pr.maxDepth && t.objs == DoSuspend(s).s.objs
    requires 0 < argc < |t.stack| && t.stack[|t.stack| - argc - 1] == Ref(id) && t.stack[|t.stack| - argc] == sent
    ensures var k := DoCall(pr, t, argc, pooled);
      var below := t.stack[..|t.stack| - argc - 1];
      && k.Go? && k.s.frames == t.frames + [Top(s).(base := |below|)]
      && k.s.stack == below + s.stack[Top(s).base..|s.stack| - 1] + [sent]
      && k.s.envs == t.envs && k.s.objs == t.objs && k.s.store == t.store
  {
    assert Drop(s.stack, 1) == s.stack[..|s.stack| - 1];
    assert s.stack[..|s.stack| - 1][Top(s).base..] == s.stack[Top(s).base..|s.stack| - 1];
    assert Peek(t.stack, argc) == Ref(id) && Peek(t.stack, argc - 1) == sent;
  }

  /** What a yield gives is on top of the operands of whoever asked for it. */
  lemma SuspendGives(pr: Program, s: State)
    requires s.frames != [] && s.stack != [] && Top(s).base < |s.stack| && DoSuspend(s).Go?
    ensures var t := DoSuspend(s).s;
      && t.frames == s.frames[..|s.frames| - 1] && t.stack == s.stack[..Top(s).base] + [s.stack[|s.stack| - 1]]
      && t.envs == s.envs && t.store == s.store && t.pool == s.pool
  {
    assert Truncate(Drop(s.stack, 1), Top(s).base) == s.stack[..Top(s).base];
  }
}
