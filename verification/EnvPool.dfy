/**
 Recycled environments.  Functions accepted by a static check on their code get their
 environment from a pool and give it back when their frame ends; all others get a new one.
 This is the machine both ways, the choice being a parameter.
 */
module EnvMachine {
  import opened Options

  datatype Value = Undefined | Num(n: int) | Ref(id: nat)

  /** One instruction, by its effect on environments.  An opcode with no effect on them is Data. */
  datatype Instr =
    | GetVar(depth: nat, slot: nat)
    | SetVar(depth: nat, slot: nat)
    | Literal(n: int)
    | MakeFunction(chunk: nat)               // a function constant: a closure over the frame's environment
    | ReadProp(op: nat, arg: nat, at: nat)   // the receiver is `at` below the top; an arguments object
    | WriteProp(op: nat, arg: nat, at: nat)  //   shares its frame's environment
    | Suspend                                // yield and await: the environment outlives the frame
    | Halt
    | Broken                                 // operand cut off, or no such opcode
    | Data(op: nat, arg: nat)                // anything that sees only the operand stack and the store
    | Jump(to: nat)
    | JumpIfFalse(to: nat)
    | JumpIfTrue(to: nat)
    | Call(argc: nat)
    | CallVia(op: nat, arg: nat, count: Option<nat>)  // first puts callee and arguments in place; none: a spread
    | Return
    | Throw

  /** What the byte at a position says when read as an opcode, and the length of its operand. */
  datatype Cell = Cell(instr: Instr, width: nat)

  datatype Handler = Handler(start: nat, end: nat, catchIP: Option<nat>, finallyIP: Option<nat>, depth: nat, slot: Option<nat>)

  /** Code is by position, so that a jump into an operand means what the bytes there mean. */
  datatype Chunk = Chunk(code: seq<Cell>, locals: nat, params: nat, strict: bool, selfSlot: Option<nat>, argsSlot: Option<nat>,
                         generator: bool, handlers: seq<Handler>, safe: bool)

  /** The variables of one call and the environment its function closed over. */
  datatype Env = Env(elements: seq<Value>, parent: Option<nat>)

  datatype Frame = Frame(chunk: nat, env: nat, ip: nat, base: nat)

  /** Where a suspended call goes on, and its operands. */
  datatype Point = Fresh | Paused(ip: nat, saved: seq<Value>) | Finished

  /** Objects that hold on to an environment. */
  datatype Obj = FunObj(chunk: nat, env: nat) | ArgObj(env: nat, mapped: nat) | GenObj(chunk: nat, env: nat, at: Point)

  /** Globals and properties: they hold values only. */
  datatype Store = Store(globals: map<int, Value>, props: map<(nat, int), Value>)

  datatype DataResult = Ok(stack: seq<Value>, store: Store) | Exc(v: Value)

  /** The chunks, and what instructions do to operands and store: with their opcode and operand, how many
      arguments a spread puts in place, and which argument the key of a property access names. */
  datatype Program = Program(chunks: seq<Chunk>, data: (nat, nat, seq<Value>, Store) -> DataResult,
                             spread: (seq<Value>, Store) -> nat, index: (nat, nat, seq<Value>) -> Option<nat>,
                             truthy: Value -> bool, notCallable: Value -> Value, tooDeep: Value, maxDepth: nat)

  datatype State = State(envs: seq<Env>, frames: seq<Frame>, stack: seq<Value>, objs: seq<Obj>, store: Store, pool: seq<nat>)

  datatype Conf = Go(s: State) | Done(v: Value, store: Store) | Uncaught(v: Value, store: Store) | Fault

  // ---------- The static check ----------

  predicate RegularInstr(i: Instr, locals: nat) {
    match i
    case GetVar(d, slot) => d == 0 && slot < locals
    case SetVar(d, slot) => d == 0 && slot < locals
    case MakeFunction(_) => false
    case Suspend => false
    case _ => true
  }

  /** `at` is the start of an instruction, reading on from ip. */
  predicate StartsAt(code: seq<Cell>, ip: nat, at: nat)
    decreases |code| - ip
  {
    ip == at || (ip < at && ip < |code| && StartsAt(code, ip + 1 + code[ip].width, at))
  }

  /** Where code may go on: at the start of an instruction, or past the end, which returns. */
  predicate OnLine(code: seq<Cell>, at: nat) { at >= |code| || StartsAt(code, 0, at) }

  function Targets(i: Instr): set<nat> {
    match i
    case Jump(to) => {to}
    case JumpIfFalse(to) => {to}
    case JumpIfTrue(to) => {to}
    case _ => {}
  }

  predicate HandlerLands(code: seq<Cell>, h: Handler) {
    && (h.catchIP.Some? ==> OnLine(code, h.catchIP.value))
    && (h.finallyIP.Some? ==> OnLine(code, h.finallyIP.value))
  }

  /** Every jump and every handler of the chunk lands on the start of an instruction. */
  predicate LandsOnLine(c: Chunk) {
    && (forall i :: 0 <= i < |c.handlers| ==> HandlerLands(c.code, c.handlers[i]))
    && (forall ip, to :: 0 <= ip < |c.code| && StartsAt(c.code, 0, ip) && to in Targets(c.code[ip].instr) ==> OnLine(c.code, to))
  }

  predicate Regular(c: Chunk) {
    && !c.generator && c.argsSlot.None?
    && (forall i :: 0 <= i < |c.handlers| ==> c.handlers[i].depth == 0)
    && (forall ip :: 0 <= ip < |c.code| && StartsAt(c.code, 0, ip) ==> RegularInstr(c.code[ip].instr, c.locals))
  }

  predicate WfProgram(pr: Program) {
    forall i :: 0 <= i < |pr.chunks| ==> (pr.chunks[i].safe ==> Regular(pr.chunks[i]) && LandsOnLine(pr.chunks[i]))
  }

  const MAX_IDLE: nat := 64

  function Limit(pr: Program): nat { if pr.maxDepth < MAX_IDLE then pr.maxDepth else MAX_IDLE }

  // ---------- Environments ----------

  function Undefineds(n: nat): (r: seq<Value>)
    ensures |r| == n
  {
    seq(n, _ => Undefined)
  }

  predicate Safe(pr: Program, chunk: nat) { chunk < |pr.chunks| && pr.chunks[chunk].safe }

  /** The environment of a new call: from the pool for a safe chunk when it has one. */
  function Acquire(pr: Program, s: State, chunk: nat, parent: nat, pooled: bool): (r: (State, nat))
    requires chunk < |pr.chunks|
    ensures r.0 == s.(envs := r.0.envs, pool := r.0.pool)
  {
    var locals := pr.chunks[chunk].locals;
    if pooled && Safe(pr, chunk) && s.pool != [] && s.pool[|s.pool| - 1] < |s.envs| then
      var e := s.pool[|s.pool| - 1];
      var els := if |s.envs[e].elements| < locals then Undefineds(locals) else s.envs[e].elements;
      (s.(envs := s.envs[e := Env(els, Some(parent))], pool := s.pool[..|s.pool| - 1]), e)
    else
      (s.(envs := s.envs + [Env(Undefineds(locals), Some(parent))]), |s.envs|)
  }

  /** A safe frame gives its environment back, cleared. */
  function Release(pr: Program, s: State, fr: Frame, pooled: bool): (r: State)
    ensures r == s.(envs := r.envs, pool := r.pool)
  {
    if pooled && Safe(pr, fr.chunk) && fr.env < |s.envs| then
      var e := fr.env;
      s.(envs := s.envs[e := Env(Undefineds(|s.envs[e].elements|), None)],
         pool := if |s.pool| < Limit(pr) then s.pool + [e] else s.pool)
    else s
  }

  /** The environment `depth` levels out. */
  function Walk(envs: seq<Env>, id: nat, depth: nat): Option<nat>
    decreases depth
  {
    if id >= |envs| then None
    else if depth == 0 then Some(id)
    else match envs[id].parent case None => None case Some(p) => Walk(envs, p, depth - 1)
  }

  function ReadVar(s: State, env: nat, depth: nat, slot: nat): Option<Value> {
    match Walk(s.envs, env, depth)
    case None => None
    case Some(id) => if id < |s.envs| && slot < |s.envs[id].elements| then Some(s.envs[id].elements[slot]) else None
  }

  function SetAt(envs: seq<Env>, id: nat, slot: nat, v: Value): (r: seq<Env>)
    ensures |r| == |envs|
  {
    if id < |envs| && slot < |envs[id].elements|
    then envs[id := envs[id].(elements := envs[id].elements[slot := v])] else envs
  }

  /** The state after an assignment, or none: no such environment or slot. */
  function WriteVar(s: State, env: nat, depth: nat, slot: nat, v: Value): Option<State> {
    match Walk(s.envs, env, depth)
    case None => None
    case Some(id) =>
      if id < |s.envs| && slot < |s.envs[id].elements| then Some(s.(envs := SetAt(s.envs, id, slot, v))) else None
  }

  // ---------- Stack and frames ----------

  function Peek(stack: seq<Value>, n: nat): Value { if n < |stack| then stack[|stack| - 1 - n] else Undefined }
  function Drop(stack: seq<Value>, n: nat): seq<Value> { if n <= |stack| then stack[..|stack| - n] else [] }
  function Truncate(stack: seq<Value>, n: nat): seq<Value> { if n < |stack| then stack[..n] else stack }

  function Top(s: State): Frame
    requires s.frames != []
  {
    s.frames[|s.frames| - 1]
  }

  function SetIP(s: State, ip: nat): (r: State)
    requires s.frames != []
    ensures |r.frames| == |s.frames|
  {
    s.(frames := s.frames[|s.frames| - 1 := Top(s).(ip := ip)])
  }

  /** Ends the running frame. */
  function PopFrame(pr: Program, s: State, pooled: bool): (r: State)
    requires s.frames != []
    ensures |r.frames| == |s.frames| - 1
  {
    var s1 := Release(pr, s.(stack := Truncate(s.stack, Top(s).base)), Top(s), pooled);
    s1.(frames := s.frames[..|s.frames| - 1])
  }

  /** The generator objects of environment e, at a new point. */
  function SetPoint(objs: seq<Obj>, e: nat, at: Point): (r: seq<Obj>)
    ensures |r| == |objs|
  {
    seq(|objs|, k requires 0 <= k < |objs| => if objs[k].GenObj? && objs[k].env == e then objs[k].(at := at) else objs[k])
  }

  /** Ends the running frame for good: if it is a generator's, that is finished. */
  function Finish(pr: Program, s: State, pooled: bool): (r: State)
    requires s.frames != []
    ensures |r.frames| == |s.frames| - 1
  {
    PopFrame(pr, s.(objs := SetPoint(s.objs, Top(s).env, Finished)), pooled)
  }

  /** The innermost handler whose range, both ends included, holds ip. */
  function Best(hs: seq<Handler>, ip: nat, n: nat): (k: int)
    requires n <= |hs|
    ensures -1 <= k < n && (k >= 0 ==> hs[k].start <= ip <= hs[k].end)
  {
    if n == 0 then -1
    else
      var k := Best(hs, ip, n - 1);
      var h := hs[n - 1];
      if h.start <= ip <= h.end && (k < 0 || h.end - h.start < hs[k].end - hs[k].start) then n - 1 else k
  }

  /** Lets the running frame catch v, if it has a handler at this point. */
  function Catch(pr: Program, s: State, v: Value): Option<State>
    requires s.frames != []
  {
    var fr := Top(s);
    var hs := if fr.chunk < |pr.chunks| then pr.chunks[fr.chunk].handlers else [];
    var k := Best(hs, fr.ip, |hs|);
    if k < 0 then None
    else
      var s1 := s.(stack := Truncate(s.stack, fr.base));
      match hs[k].catchIP
      case Some(ip) =>
        var s2 := if hs[k].slot.None? then s1
                  else (match WriteVar(s1, fr.env, hs[k].depth, hs[k].slot.value, v) case Some(t) => t case None => s1);
        if s2.frames == s.frames then Some(SetIP(s2.(stack := s2.stack + [v]), ip)) else None
      case None => if hs[k].finallyIP.Some? then Some(SetIP(s1, hs[k].finallyIP.value)) else None
  }

  /** Unwinds the frames until one catches v. */
  function Unwind(pr: Program, s: State, v: Value, pooled: bool): Conf
    decreases |s.frames|
  {
    if s.frames == [] then Uncaught(v, s.store)
    else match Catch(pr, s, v)
      case Some(t) => Go(t)
      case None => Unwind(pr, Finish(pr, s, pooled), v, pooled)
  }

  // ---------- Calls ----------

  /** The first arguments in the parameter slots there is room for. */
  function Bind(els: seq<Value>, stack: seq<Value>, params: nat, argc: nat): (r: seq<Value>)
    ensures |r| == |els|
  {
    seq(|els|, i requires 0 <= i < |els| => if i < params && i < argc then Peek(stack, argc - 1 - i) else els[i])
  }

  function SetSlot(els: seq<Value>, slot: Option<nat>, v: Value): (r: seq<Value>)
    ensures |r| == |els|
  {
    if slot.Some? && slot.value < |els| then els[slot.value := v] else els
  }

  /** Calls a function; a generator object stands for its own `next`. */
  function DoCall(pr: Program, s: State, argc: nat, pooled: bool): Conf
    requires s.frames != []
  {
    var callee := Peek(s.stack, argc);
    if |s.frames| >= pr.maxDepth then Unwind(pr, s, pr.tooDeep, pooled)
    else if !callee.Ref? || callee.id >= |s.objs| then Unwind(pr, s, pr.notCallable(callee), pooled)
    else match s.objs[callee.id]
      case FunObj(chunk, env) =>
        if chunk >= |pr.chunks| then Unwind(pr, s, pr.notCallable(callee), pooled) else Enter(pr, s, argc, chunk, env, callee, pooled)
      case GenObj(chunk, env, at) =>
        var sent := if argc > 0 then Peek(s.stack, argc - 1) else Undefined;
        Go(Resume(s.(stack := Drop(s.stack, argc + 1)), chunk, env, at, sent))
      case ArgObj(_, _) => Unwind(pr, s, pr.notCallable(callee), pooled)
  }

  /** Goes on with a suspended call: the value sent is the value of the yield. */
  function Resume(s: State, chunk: nat, env: nat, at: Point, sent: Value): State {
    var base := |s.stack|;
    match at
    case Fresh => s.(frames := s.frames + [Frame(chunk, env, 0, base)])
    case Paused(ip, saved) => s.(stack := s.stack + saved + [sent], frames := s.frames + [Frame(chunk, env, ip, base)])
    case Finished => s.(stack := s.stack + [sent])
  }

  /** How many elements of an arguments object share the variables. */
  function MappedCount(c: Chunk): nat { if c.strict then 0 else c.params }

  /** A new environment with the arguments in it, and a frame on it. */
  function Enter(pr: Program, s: State, argc: nat, chunk: nat, parent: nat, callee: Value, pooled: bool): Conf
    requires chunk < |pr.chunks|
  {
    var c := pr.chunks[chunk];
    var (s1, env) := Acquire(pr, s, chunk, parent, pooled);
    if env >= |s1.envs| then Fault
    else
      var args := if c.argsSlot.Some? then [ArgObj(env, MappedCount(c))] else [];
      var els0 := SetSlot(Bind(s1.envs[env].elements, s.stack, c.params, argc), c.selfSlot, callee);
      var els := if c.argsSlot.Some? then SetSlot(els0, c.argsSlot, Ref(|s.objs|)) else els0;
      var s2 := s1.(envs := s1.envs[env := s1.envs[env].(elements := els)], objs := s1.objs + args,
                    stack := Drop(s.stack, argc + 1));
      if c.generator then
        Go(s2.(objs := s2.objs + [GenObj(chunk, env, Fresh)], stack := s2.stack + [Ref(|s2.objs|)]))
      else Go(s2.(frames := s2.frames + [Frame(chunk, env, 0, |s2.stack|)]))
  }

  function DoReturn(pr: Program, s: State, v: Value, pooled: bool): Conf
    requires s.frames != []
  {
    var s1 := Finish(pr, s, pooled);
    if s1.frames == [] then Done(v, s1.store) else Go(s1.(stack := s1.stack + [v]))
  }

  /** The frame leaves the stack; its generator object keeps its environment, operands and place. */
  function DoSuspend(s: State): Conf
    requires s.frames != []
  {
    var fr, stack := Top(s), Drop(s.stack, 1);
    if forall k :: 0 <= k < |s.objs| ==> !s.objs[k].GenObj? || s.objs[k].env != fr.env then Fault
    else
      var saved := if fr.base < |stack| then stack[fr.base..] else [];
      Go(s.(objs := SetPoint(s.objs, fr.env, Paused(fr.ip, saved)), frames := s.frames[..|s.frames| - 1],
            stack := Truncate(stack, fr.base) + [Peek(s.stack, 0)]))
  }

  // ---------- One instruction ----------

  /** The environment a property access is about, when its receiver is an arguments object. */
  function Mapped(pr: Program, s: State, i: Instr): Option<(nat, nat)>
    requires i.ReadProp? || i.WriteProp?
  {
    var o := Peek(s.stack, i.at);
    if o.Ref? && o.id < |s.objs| && s.objs[o.id].ArgObj? then
      match pr.index(i.op, i.arg, s.stack)
      case Some(k) => if k < s.objs[o.id].mapped then Some((s.objs[o.id].env, k)) else None
      case None => None
    else None
  }

  function DoData(pr: Program, s: State, op: nat, arg: nat, pooled: bool): Conf {
    match pr.data(op, arg, s.stack, s.store)
    case Ok(stack, store) => Go(s.(stack := stack, store := store))
    case Exc(v) => Unwind(pr, s, v, pooled)
  }

  function DoRead(pr: Program, s: State, i: Instr, pooled: bool): Conf
    requires i.ReadProp?
  {
    var t := Mapped(pr, s, i);
    var r := if t.Some? then ReadVar(s, t.value.0, 0, t.value.1) else None;
    if r.Some? then Go(s.(stack := Drop(s.stack, i.at + 1) + [r.value])) else DoData(pr, s, i.op, i.arg, pooled)
  }

  function DoWrite(pr: Program, s: State, i: Instr, pooled: bool): Conf
    requires i.WriteProp?
  {
    var t, v := Mapped(pr, s, i), Peek(s.stack, 0);
    var w := if t.Some? then WriteVar(s, t.value.0, 0, t.value.1, v) else None;
    if w.Some? then Go(w.value.(stack := Drop(s.stack, i.at + 1) + [v])) else DoData(pr, s, i.op, i.arg, pooled)
  }

  function DoCallVia(pr: Program, s: State, op: nat, arg: nat, argc: Option<nat>, pooled: bool): Conf
    requires s.frames != []
  {
    var n := if argc.Some? then argc.value else pr.spread(s.stack, s.store);
    match pr.data(op, arg, s.stack, s.store)
    case Ok(stack, store) => DoCall(pr, s.(stack := stack, store := store), n, pooled)
    case Exc(v) => Unwind(pr, s, v, pooled)
  }

  /** A jump, which must stay inside the code or go to its end. */
  function Leap(pr: Program, s: State, to: nat): Conf
    requires s.frames != []
  {
    if Top(s).chunk < |pr.chunks| && to > |pr.chunks[Top(s).chunk].code| then Fault else Go(SetIP(s, to))
  }

  function Branch(pr: Program, s: State, taken: bool, to: nat): Conf
    requires s.frames != []
  {
    var s1 := s.(stack := Drop(s.stack, 1));
    if taken then Leap(pr, s1, to) else Go(s1)
  }

  function Execute(pr: Program, s: State, i: Instr, pooled: bool): Conf
    requires s.frames != []
  {
    var fr, top := Top(s), Peek(s.stack, 0);
    match i
    case GetVar(depth, slot) =>
      (match ReadVar(s, fr.env, depth, slot) case None => Fault case Some(v) => Go(s.(stack := s.stack + [v])))
    case SetVar(depth, slot) =>
      (match WriteVar(s, fr.env, depth, slot, top) case None => Fault case Some(t) => Go(t))
    case Literal(n) => Go(s.(stack := s.stack + [Num(n)]))
    case MakeFunction(c) => Go(s.(objs := s.objs + [FunObj(c, fr.env)], stack := s.stack + [Ref(|s.objs|)]))
    case ReadProp(_, _, _) => DoRead(pr, s, i, pooled)
    case WriteProp(_, _, _) => DoWrite(pr, s, i, pooled)
    case Suspend => DoSuspend(s)
    case Halt => Done(if |s.stack| > fr.base then top else Undefined, s.store)
    case Broken => Fault
    case Data(op, arg) => DoData(pr, s, op, arg, pooled)
    case Jump(to) => Leap(pr, s, to)
    case JumpIfFalse(to) => Branch(pr, s, !pr.truthy(top), to)
    case JumpIfTrue(to) => Branch(pr, s, pr.truthy(top), to)
    case Call(argc) => DoCall(pr, s, argc, pooled)
    case CallVia(op, arg, argc) => DoCallVia(pr, s, op, arg, argc, pooled)
    case Return => DoReturn(pr, s.(stack := Drop(s.stack, 1)), top, pooled)
    case Throw => Unwind(pr, s.(stack := Drop(s.stack, 1)), top, pooled)
  }

  function Step(pr: Program, s: State, pooled: bool): Conf {
    if s.frames == [] then Done(Undefined, s.store)
    else
      var fr := Top(s);
      if fr.chunk >= |pr.chunks| then Fault
      else
        var code := pr.chunks[fr.chunk].code;
        if fr.ip >= |code| then DoReturn(pr, s, Undefined, pooled)
        else Execute(pr, SetIP(s, fr.ip + 1 + code[fr.ip].width), code[fr.ip].instr, pooled)
  }

  function Run(pr: Program, k: Conf, n: nat, pooled: bool): Conf
    decreases n
  {
    if n == 0 || !k.Go? then k else Run(pr, Step(pr, k.s, pooled), n - 1, pooled)
  }
}

/** The pool cannot be told from fresh allocation. */
module EnvPoolRefines {
  import opened Options
  import opened EnvMachine

  /** Which environment of the machine without a pool stands for each one in use. */
  type Ids = map<nat, nat>

  predicate Owns(pr: Program, p: State, id: nat) {
    exists i :: 0 <= i < |p.frames| && Safe(pr, p.frames[i].chunk) && p.frames[i].env == id
  }

  predicate SameObj(a: Obj, b: Obj, m: Ids) {
    a.env in m && b == a.(env := m[a.env])
  }

  ghost predicate FramesRel(p: State, f: State, m: Ids) {
    && |p.frames| == |f.frames|
    && forall i :: 0 <= i < |p.frames| ==> p.frames[i].env in m && f.frames[i] == p.frames[i].(env := m[p.frames[i].env])
  }

  ghost predicate ObjsRel(p: State, f: State, m: Ids) {
    |p.objs| == |f.objs| && forall i :: 0 <= i < |p.objs| ==> SameObj(p.objs[i], f.objs[i], m)
  }

  ghost predicate IdsOk(p: State, f: State, m: Ids) {
    && (forall a :: a in m ==> a < |p.envs| && m[a] < |f.envs|)
    && (forall a, b :: a in m && b in m && m[a] == m[b] ==> a == b)
  }

  /** The outer environments correspond, and are in use. */
  predicate ParentOk(p: State, f: State, m: Ids, a: nat)
    requires a in m
  {
    && a < |p.envs| && m[a] < |f.envs|
    && (p.envs[a].parent.None? ==> f.envs[m[a]].parent.None?)
    && (p.envs[a].parent.Some? ==>
          p.envs[a].parent.value in m && f.envs[m[a]].parent == Some(m[p.envs[a].parent.value]))
  }

  ghost predicate ParentsRel(p: State, f: State, m: Ids) {
    forall a :: a in m ==> ParentOk(p, f, m, a)
  }

  /** The same variables; a recycled environment may be longer than the call needs. */
  predicate ElementsOk(pr: Program, p: State, f: State, m: Ids, a: nat)
    requires a in m
  {
    && a < |p.envs| && m[a] < |f.envs|
    && Prefix(f.envs[m[a]].elements, p.envs[a].elements)
    && (!Owns(pr, p, a) ==> |p.envs[a].elements| == |f.envs[m[a]].elements|)
  }

  ghost predicate ElementsRel(pr: Program, p: State, f: State, m: Ids) {
    forall a :: a in m ==> ElementsOk(pr, p, f, m, a)
  }

  predicate Prefix(a: seq<Value>, b: seq<Value>) {
    |a| <= |b| && forall i :: 0 <= i < |a| ==> a[i] == b[i]
  }

  predicate SafeFrame(pr: Program, p: State, i: nat) { i < |p.frames| && Safe(pr, p.frames[i].chunk) }

  /** A safe frame's environment has room for its variables and nothing else refers to it. */
  predicate FramePrivate(pr: Program, p: State, f: State, m: Ids, i: nat)
    requires i < |p.frames|
  {
    var e := p.frames[i].env;
    && (e in m && m[e] < |f.envs| && p.frames[i].chunk < |pr.chunks| ==>
          |f.envs[m[e]].elements| == pr.chunks[p.frames[i].chunk].locals)
    && (forall j :: 0 <= j < |p.frames| && j != i ==> p.frames[j].env != e)
    && (forall k :: 0 <= k < |p.objs| ==> p.objs[k].env != e)
    && (forall a :: a in m && a < |p.envs| ==> p.envs[a].parent != Some(e))
  }

  ghost predicate Private(pr: Program, p: State, f: State, m: Ids) {
    forall i :: 0 <= i < |p.frames| && SafeFrame(pr, p, i) ==> FramePrivate(pr, p, f, m, i)
  }

  /** Idle environments: unused, listed once, empty of values and of an outer environment, not too many. */
  ghost predicate PoolOk(pr: Program, envs: seq<Env>, pool: seq<nat>, m: Ids) {
    && |pool| <= Limit(pr)
    && (forall k :: 0 <= k < |pool| ==>
          pool[k] < |envs| && pool[k] !in m && envs[pool[k]] == Env(Undefineds(|envs[pool[k]].elements|), None))
    && (forall k, l :: 0 <= k < l < |pool| ==> pool[k] != pool[l])
  }

  /** Suspended frames are never safe ones. */
  predicate GensOk(pr: Program, objs: seq<Obj>) {
    forall k :: 0 <= k < |objs| && objs[k].GenObj? ==> !Safe(pr, objs[k].chunk)
  }

  ghost predicate Rel(pr: Program, p: State, f: State, m: Ids) {
    && p.stack == f.stack && p.store == f.store && GensOk(pr, p.objs)
    && FramesRel(p, f, m) && ObjsRel(p, f, m) && IdsOk(p, f, m) && ParentsRel(p, f, m)
    && ElementsRel(pr, p, f, m) && Private(pr, p, f, m) && PoolOk(pr, p.envs, p.pool, m)
  }

  /** The same outcome, or related states. */
  ghost predicate RelConf(pr: Program, a: Conf, b: Conf) {
    match a
    case Go(p) => b.Go? && exists m :: Rel(pr, p, b.s, m)
    case _ => a == b
  }

  // ---------- Reading and writing ----------

  lemma {:induction false} WalkRel(p: State, f: State, m: Ids, a: nat, depth: nat)
    requires a in m && ParentsRel(p, f, m)
    ensures match Walk(p.envs, a, depth)
            case None => Walk(f.envs, m[a], depth).None?
            case Some(b) => b in m && Walk(f.envs, m[a], depth) == Some(m[b])
    decreases depth
  {
    assert ParentOk(p, f, m, a);
    if depth > 0 && p.envs[a].parent.Some? { WalkRel(p, f, m, p.envs[a].parent.value, depth - 1); }
  }

  lemma ParentShared(pr: Program, p: State, f: State, m: Ids, a: nat)
    requires a in m && ParentsRel(p, f, m) && Private(pr, p, f, m)
    requires a < |p.envs| && p.envs[a].parent.Some?
    ensures !Owns(pr, p, p.envs[a].parent.value)
  {
    var q := p.envs[a].parent.value;
    forall i | 0 <= i < |p.frames| && Safe(pr, p.frames[i].chunk) ensures p.frames[i].env != q {
      assert SafeFrame(pr, p, i);
      assert FramePrivate(pr, p, f, m, i);
    }
  }

  /** Walking outwards never arrives at a safe frame's environment. */
  lemma {:induction false} WalkShared(pr: Program, p: State, f: State, m: Ids, a: nat, depth: nat)
    requires a in m && ParentsRel(p, f, m) && Private(pr, p, f, m)
    requires !Owns(pr, p, a) && Walk(p.envs, a, depth).Some?
    ensures !Owns(pr, p, Walk(p.envs, a, depth).value)
    decreases depth
  {
    hide Owns, Private;
    if depth > 0 {
      assert ParentOk(p, f, m, a);
      ParentShared(pr, p, f, m, a);
      WalkShared(pr, p, f, m, p.envs[a].parent.value, depth - 1);
    }
  }

  /** What an instruction of a safe frame, or of any other, may reach through environment a. */
  ghost predicate MayUse(pr: Program, p: State, f: State, m: Ids, a: nat, depth: nat, slot: nat) {
    && a in m
    && (Owns(pr, p, a) ==> depth == 0 && m[a] < |f.envs| && slot < |f.envs[m[a]].elements|)
  }

  /** Where the access ends up: an environment in use, which is no longer than its counterpart unless
      the slot is one of the call's own. */
  lemma Reach(pr: Program, p: State, f: State, m: Ids, a: nat, depth: nat, slot: nat)
    requires ParentsRel(p, f, m) && ElementsRel(pr, p, f, m) && Private(pr, p, f, m)
    requires MayUse(pr, p, f, m, a, depth, slot)
    ensures match Walk(p.envs, a, depth)
            case None => Walk(f.envs, m[a], depth).None?
            case Some(b) =>
              && b in m && Walk(f.envs, m[a], depth) == Some(m[b]) && b < |p.envs| && m[b] < |f.envs|
              && (slot < |p.envs[b].elements| <==> slot < |f.envs[m[b]].elements|)
              && (slot < |p.envs[b].elements| ==> p.envs[b].elements[slot] == f.envs[m[b]].elements[slot])
  {
    hide Owns, Private, Prefix;
    WalkRel(p, f, m, a, depth);
    var w := Walk(p.envs, a, depth);
    if w.Some? {
      assert ElementsOk(pr, p, f, m, w.value);
      PrefixAt(f.envs[m[w.value]].elements, p.envs[w.value].elements, slot);
      if !Owns(pr, p, a) { WalkShared(pr, p, f, m, a, depth); }
    }
  }

  lemma PrefixAt(a: seq<Value>, b: seq<Value>, i: nat)
    requires Prefix(a, b)
    ensures |a| <= |b| && (i < |a| ==> a[i] == b[i])
  {}

  lemma ReadRel(pr: Program, p: State, f: State, m: Ids, a: nat, depth: nat, slot: nat)
    requires Rel(pr, p, f, m) && MayUse(pr, p, f, m, a, depth, slot)
    ensures ReadVar(p, a, depth, slot) == ReadVar(f, m[a], depth, slot)
  {
    hide Walk, MayUse, ParentsRel, ElementsRel, Private;
    Reach(pr, p, f, m, a, depth, slot);
  }

  lemma WriteRel(pr: Program, p: State, f: State, m: Ids, a: nat, depth: nat, slot: nat, v: Value)
    requires Rel(pr, p, f, m) && MayUse(pr, p, f, m, a, depth, slot)
    ensures match WriteVar(p, a, depth, slot, v)
            case None => WriteVar(f, m[a], depth, slot, v).None?
            case Some(p1) =>
              var w := WriteVar(f, m[a], depth, slot, v);
              w.Some? && Rel(pr, p1, w.value, m) && p1 == p.(envs := p1.envs) && w.value == f.(envs := w.value.envs)
  {
    hide Walk, MayUse, ParentsRel, ElementsRel, Private, PoolOk, FramesRel, ObjsRel, IdsOk;
    Reach(pr, p, f, m, a, depth, slot);
    var w := Walk(p.envs, a, depth);
    if w.Some? && slot < |p.envs[w.value].elements| { SetRel(pr, p, f, m, w.value, slot, v); }
  }

  /** Writing the same slot of corresponding environments. */
  lemma SetRel(pr: Program, p: State, f: State, m: Ids, b: nat, slot: nat, v: Value)
    requires Rel(pr, p, f, m) && b in m && b < |p.envs| && m[b] < |f.envs|
    requires slot < |p.envs[b].elements| && slot < |f.envs[m[b]].elements|
    ensures Rel(pr, p.(envs := SetAt(p.envs, b, slot, v)), f.(envs := SetAt(f.envs, m[b], slot, v)), m)
  {
    var p1, f1 := p.(envs := SetAt(p.envs, b, slot, v)), f.(envs := SetAt(f.envs, m[b], slot, v));
    SetParts(pr, p, f, m, b, slot, v, p1, f1);
    SetPrivate(pr, p, f, m, b, slot, v, p1, f1);
  }

  lemma SetParts(pr: Program, p: State, f: State, m: Ids, b: nat, slot: nat, v: Value, p1: State, f1: State)
    requires Rel(pr, p, f, m) && b in m && b < |p.envs| && m[b] < |f.envs|
    requires slot < |p.envs[b].elements| && slot < |f.envs[m[b]].elements|
    requires p1 == p.(envs := SetAt(p.envs, b, slot, v)) && f1 == f.(envs := SetAt(f.envs, m[b], slot, v))
    ensures FramesRel(p1, f1, m) && ObjsRel(p1, f1, m) && IdsOk(p1, f1, m) && PoolOk(pr, p1.envs, p1.pool, m)
    ensures ParentsRel(p1, f1, m) && ElementsRel(pr, p1, f1, m)
  {
    hide Private;
    assert forall a :: Owns(pr, p1, a) == Owns(pr, p, a);
    hide Owns;
    forall a | a in m ensures ParentOk(p1, f1, m, a) && ElementsOk(pr, p1, f1, m, a) {
      assert ParentOk(p, f, m, a) && ElementsOk(pr, p, f, m, a);
    }
  }

  lemma SetPrivate(pr: Program, p: State, f: State, m: Ids, b: nat, slot: nat, v: Value, p1: State, f1: State)
    requires Rel(pr, p, f, m) && b in m && b < |p.envs| && m[b] < |f.envs|
    requires p1 == p.(envs := SetAt(p.envs, b, slot, v)) && f1 == f.(envs := SetAt(f.envs, m[b], slot, v))
    ensures Private(pr, p1, f1, m)
  {
    hide Owns, ElementsRel, ParentsRel, PoolOk, FramesRel, ObjsRel;
    forall i | 0 <= i < |p1.frames| && SafeFrame(pr, p1, i) ensures FramePrivate(pr, p1, f1, m, i) {
      assert SafeFrame(pr, p, i);
      assert FramePrivate(pr, p, f, m, i);
    }
  }

  // ---------- Steps that leave the environments alone ----------

  /** Frames with the same chunks and environments, anywhere in their code. */
  predicate SameFrames(a: seq<Frame>, b: seq<Frame>) {
    |a| == |b| && forall i :: 0 <= i < |a| ==> a[i].chunk == b[i].chunk && a[i].env == b[i].env
  }

  lemma RelLocal(pr: Program, p: State, f: State, m: Ids, p1: State, f1: State)
    requires Rel(pr, p, f, m) && p1.stack == f1.stack && p1.store == f1.store
    requires p1 == p.(stack := p1.stack, store := p1.store, frames := p1.frames) && SameFrames(p.frames, p1.frames)
    requires f1 == f.(stack := f1.stack, store := f1.store, frames := f1.frames) && FramesRel(p1, f1, m)
    ensures Rel(pr, p1, f1, m)
  {
    hide Owns;
    forall i | 0 <= i < |p1.frames| && SafeFrame(pr, p1, i) ensures FramePrivate(pr, p1, f1, m, i) {
      assert SafeFrame(pr, p, i);
      assert FramePrivate(pr, p, f, m, i);
    }
    forall a | a in m ensures ParentOk(p1, f1, m, a) && ElementsOk(pr, p1, f1, m, a) {
      OwnsSame(pr, p, p1, a);
      assert ParentOk(p, f, m, a) && ElementsOk(pr, p, f, m, a);
    }
  }

  lemma OwnsSame(pr: Program, p: State, p1: State, a: nat)
    requires SameFrames(p.frames, p1.frames)
    ensures Owns(pr, p1, a) == Owns(pr, p, a)
  {
    if Owns(pr, p, a) {
      var i :| 0 <= i < |p.frames| && Safe(pr, p.frames[i].chunk) && p.frames[i].env == a;
      assert p1.frames[i].env == a;
    }
    if Owns(pr, p1, a) {
      var i :| 0 <= i < |p1.frames| && Safe(pr, p1.frames[i].chunk) && p1.frames[i].env == a;
      assert p.frames[i].env == a;
    }
  }

  lemma RelStack(pr: Program, p: State, f: State, m: Ids, stack: seq<Value>, store: Store)
    requires Rel(pr, p, f, m)
    ensures Rel(pr, p.(stack := stack, store := store), f.(stack := stack, store := store), m)
  {
    RelLocal(pr, p, f, m, p.(stack := stack, store := store), f.(stack := stack, store := store));
  }

  lemma RelIP(pr: Program, p: State, f: State, m: Ids, ip: nat)
    requires Rel(pr, p, f, m) && p.frames != []
    ensures f.frames != [] && Rel(pr, SetIP(p, ip), SetIP(f, ip), m)
  {
    hide ObjsRel, IdsOk, ParentsRel, ElementsRel, Private, PoolOk;
    RelLocal(pr, p, f, m, SetIP(p, ip), SetIP(f, ip)) by {
      var k := |p.frames| - 1;
      assert f.frames[k] == p.frames[k].(env := m[p.frames[k].env]);
      assert FramesRel(SetIP(p, ip), SetIP(f, ip), m);
    }
  }

  /** Another object on an environment in use that no safe frame owns. */
  lemma RelObj(pr: Program, p: State, f: State, m: Ids, o: Obj, o1: Obj)
    requires Rel(pr, p, f, m) && SameObj(o, o1, m) && !Owns(pr, p, o.env) && (o.GenObj? ==> !Safe(pr, o.chunk))
    ensures Rel(pr, p.(objs := p.objs + [o]), f.(objs := f.objs + [o1]), m)
  {
    var p1, f1 := p.(objs := p.objs + [o]), f.(objs := f.objs + [o1]);
    assert forall a :: Owns(pr, p1, a) == Owns(pr, p, a);
    forall i | 0 <= i < |p1.frames| && SafeFrame(pr, p1, i) ensures FramePrivate(pr, p1, f1, m, i) {
      assert SafeFrame(pr, p, i);
      assert FramePrivate(pr, p, f, m, i);
      assert Owns(pr, p, p.frames[i].env);
    }
    hide Owns;
    forall a | a in m ensures ParentOk(p1, f1, m, a) && ElementsOk(pr, p1, f1, m, a) {
      assert ParentOk(p, f, m, a) && ElementsOk(pr, p, f, m, a);
    }
  }

  /** Generator objects move on alike. */
  lemma RelPoint(pr: Program, p: State, f: State, m: Ids, e: nat, at: Point)
    requires Rel(pr, p, f, m) && e in m
    ensures Rel(pr, p.(objs := SetPoint(p.objs, e, at)), f.(objs := SetPoint(f.objs, m[e], at)), m)
  {
    var p1, f1 := p.(objs := SetPoint(p.objs, e, at)), f.(objs := SetPoint(f.objs, m[e], at));
    PointParts(p, f, m, e, at);
    hide SetPoint;
    PointPrivate(pr, p, f, m, p1, f1);
    forall a | a in m ensures ParentOk(p1, f1, m, a) && ElementsOk(pr, p1, f1, m, a) {
      OwnsSame(pr, p, p1, a);
      assert ParentOk(p, f, m, a) && ElementsOk(pr, p, f, m, a);
    }
  }

  predicate SameHolders(a: seq<Obj>, b: seq<Obj>) {
    |a| == |b| && forall k :: 0 <= k < |a| ==> a[k].env == b[k].env && (b[k].GenObj? ==> a[k].GenObj? && a[k].chunk == b[k].chunk)
  }

  lemma PointParts(p: State, f: State, m: Ids, e: nat, at: Point)
    requires ObjsRel(p, f, m) && IdsOk(p, f, m) && e in m
    ensures ObjsRel(p.(objs := SetPoint(p.objs, e, at)), f.(objs := SetPoint(f.objs, m[e], at)), m)
    ensures SameHolders(p.objs, SetPoint(p.objs, e, at))
  {
    forall k | 0 <= k < |p.objs| ensures SameObj(SetPoint(p.objs, e, at)[k], SetPoint(f.objs, m[e], at)[k], m) {
      assert SameObj(p.objs[k], f.objs[k], m);
    }
  }

  lemma PointPrivate(pr: Program, p: State, f: State, m: Ids, p1: State, f1: State)
    requires Rel(pr, p, f, m) && p1 == p.(objs := p1.objs) && f1 == f.(objs := f1.objs) && SameHolders(p.objs, p1.objs)
    ensures Private(pr, p1, f1, m) && GensOk(pr, p1.objs)
  {
    hide ElementsRel, ParentsRel, ObjsRel, PoolOk, Owns;
    forall i | 0 <= i < |p1.frames| && SafeFrame(pr, p1, i) ensures FramePrivate(pr, p1, f1, m, i) {
      assert SafeFrame(pr, p, i);
      assert FramePrivate(pr, p, f, m, i);
    }
  }

  // ---------- The end of a frame ----------

  function Without(m: Ids, e: nat): Ids { map a | a in m && a != e :: m[a] }

  /** Ending a safe frame: its environment is retired. */
  lemma PopSafe(pr: Program, p: State, f: State, m: Ids)
    requires Rel(pr, p, f, m) && p.frames != [] && Safe(pr, Top(p).chunk)
    ensures f.frames != [] && Rel(pr, PopFrame(pr, p, true), PopFrame(pr, f, false), Without(m, Top(p).env))
  {
    var e, n := Top(p).env, |p.frames| - 1;
    var p1, f1, m1 := PopFrame(pr, p, true), PopFrame(pr, f, false), Without(m, e);
    assert SafeFrame(pr, p, n) && FramePrivate(pr, p, f, m, n);
    PopSafeParts(pr, p, f, m, e, p1, f1, m1);
    PopSafeEnvs(pr, p, f, m, e, p1, f1, m1);
    PopSafePrivate(pr, p, f, m, e, p1, f1, m1);
  }

  lemma PopSafeParts(pr: Program, p: State, f: State, m: Ids, e: nat, p1: State, f1: State, m1: Ids)
    requires Rel(pr, p, f, m) && p.frames != [] && Safe(pr, Top(p).chunk) && e == Top(p).env && f.frames != []
    requires p1 == PopFrame(pr, p, true) && f1 == PopFrame(pr, f, false) && m1 == Without(m, e)
    requires FramePrivate(pr, p, f, m, |p.frames| - 1)
    ensures p1.stack == f1.stack && p1.store == f1.store
    ensures FramesRel(p1, f1, m1) && ObjsRel(p1, f1, m1) && IdsOk(p1, f1, m1) && PoolOk(pr, p1.envs, p1.pool, m1)
  {
    hide Owns, ElementsRel, ParentsRel, Private;
    assert f.frames[|p.frames| - 1] == Top(p).(env := m[e]);
  }

  lemma PopSafeEnvs(pr: Program, p: State, f: State, m: Ids, e: nat, p1: State, f1: State, m1: Ids)
    requires Rel(pr, p, f, m) && p.frames != [] && Safe(pr, Top(p).chunk) && e == Top(p).env && f.frames != []
    requires p1 == PopFrame(pr, p, true) && f1 == PopFrame(pr, f, false) && m1 == Without(m, e)
    requires FramePrivate(pr, p, f, m, |p.frames| - 1)
    ensures ParentsRel(p1, f1, m1) && ElementsRel(pr, p1, f1, m1)
  {
    hide PoolOk, ObjsRel, Private, IdsOk;
    forall a | a in m1 ensures ParentOk(p1, f1, m1, a) && ElementsOk(pr, p1, f1, m1, a) {
      OwnsPopped(pr, p, p1, a);
      assert ParentOk(p, f, m, a) && ElementsOk(pr, p, f, m, a);
    }
  }

  lemma PopSafePrivate(pr: Program, p: State, f: State, m: Ids, e: nat, p1: State, f1: State, m1: Ids)
    requires Rel(pr, p, f, m) && p.frames != [] && Safe(pr, Top(p).chunk) && e == Top(p).env && f.frames != []
    requires p1 == PopFrame(pr, p, true) && f1 == PopFrame(pr, f, false) && m1 == Without(m, e)
    requires FramePrivate(pr, p, f, m, |p.frames| - 1)
    ensures Private(pr, p1, f1, m1)
  {
    hide PoolOk, ObjsRel, Owns, ElementsRel, ParentsRel, IdsOk;
    forall i | 0 <= i < |p1.frames| && SafeFrame(pr, p1, i) ensures FramePrivate(pr, p1, f1, m1, i) {
      assert SafeFrame(pr, p, i);
      assert FramePrivate(pr, p, f, m, i);
    }
  }

  lemma OwnsPopped(pr: Program, p: State, p1: State, a: nat)
    requires p.frames != [] && p1.frames == p.frames[..|p.frames| - 1]
    requires a != Top(p).env || !Safe(pr, Top(p).chunk)
    ensures Owns(pr, p1, a) == Owns(pr, p, a)
  {
    if Owns(pr, p, a) {
      var i :| 0 <= i < |p.frames| && Safe(pr, p.frames[i].chunk) && p.frames[i].env == a;
      assert p1.frames[i].env == a;
    }
    if Owns(pr, p1, a) {
      var i :| 0 <= i < |p1.frames| && Safe(pr, p1.frames[i].chunk) && p1.frames[i].env == a;
      assert p.frames[i].env == a;
    }
  }

  /** Ending any other frame: its environment may live on. */
  lemma PopOther(pr: Program, p: State, f: State, m: Ids)
    requires Rel(pr, p, f, m) && p.frames != [] && !Safe(pr, Top(p).chunk)
    ensures f.frames != [] && Rel(pr, PopFrame(pr, p, true), PopFrame(pr, f, false), m)
  {
    var p1, f1 := PopFrame(pr, p, true), PopFrame(pr, f, false);
    assert f.frames[|p.frames| - 1] == Top(p).(env := m[Top(p).env]);
    hide Owns;
    forall a | a in m ensures ParentOk(p1, f1, m, a) && ElementsOk(pr, p1, f1, m, a) {
      OwnsPopped(pr, p, p1, a);
      assert ParentOk(p, f, m, a) && ElementsOk(pr, p, f, m, a);
    }
    forall i | 0 <= i < |p1.frames| && SafeFrame(pr, p1, i) ensures FramePrivate(pr, p1, f1, m, i) {
      assert SafeFrame(pr, p, i);
      assert FramePrivate(pr, p, f, m, i);
    }
  }

  lemma PopRel(pr: Program, p: State, f: State, m: Ids) returns (m1: Ids)
    requires Rel(pr, p, f, m) && p.frames != []
    ensures f.frames != [] && Rel(pr, PopFrame(pr, p, true), PopFrame(pr, f, false), m1)
  {
    hide Rel;
    if Safe(pr, Top(p).chunk) {
      m1 := Without(m, Top(p).env);
      PopSafe(pr, p, f, m);
    } else {
      m1 := m;
      PopOther(pr, p, f, m);
    }
  }

  lemma FinishRel(pr: Program, p: State, f: State, m: Ids) returns (m1: Ids)
    requires Rel(pr, p, f, m) && p.frames != []
    ensures f.frames != [] && Rel(pr, Finish(pr, p, true), Finish(pr, f, false), m1)
  {
    hide Rel, PopFrame, SetPoint, Owns;
    TopUses(pr, p, f, m);
    var e := Top(p).env;
    RelPoint(pr, p, f, m, e, Finished);
    m1 := PopRel(pr, p.(objs := SetPoint(p.objs, e, Finished)), f.(objs := SetPoint(f.objs, m[e], Finished)), m);
  }

  // ---------- Exceptions ----------

  /** A slot past the call's own variables: only a longer, recycled environment has it. */
  lemma SetHidden(pr: Program, p: State, f: State, m: Ids, b: nat, slot: nat, v: Value)
    requires Rel(pr, p, f, m) && b in m && b < |p.envs| && m[b] < |f.envs|
    requires Owns(pr, p, b) && |f.envs[m[b]].elements| <= slot < |p.envs[b].elements|
    ensures Rel(pr, p.(envs := SetAt(p.envs, b, slot, v)), f, m)
  {
    var p1 := p.(envs := SetAt(p.envs, b, slot, v));
    assert forall a :: Owns(pr, p1, a) == Owns(pr, p, a);
    hide Owns;
    forall a | a in m ensures ParentOk(p1, f, m, a) && ElementsOk(pr, p1, f, m, a) {
      assert ParentOk(p, f, m, a) && ElementsOk(pr, p, f, m, a);
    }
    forall i | 0 <= i < |p1.frames| && SafeFrame(pr, p1, i) ensures FramePrivate(pr, p1, f, m, i) {
      assert SafeFrame(pr, p, i);
      assert FramePrivate(pr, p, f, m, i);
    }
  }

  /** The running frame's environment is its own if it is safe, and nobody's otherwise. */
  lemma TopUses(pr: Program, p: State, f: State, m: Ids)
    requires Rel(pr, p, f, m) && p.frames != []
    ensures Top(p).env in m && f.frames != [] && Top(f) == Top(p).(env := m[Top(p).env])
    ensures m[Top(p).env] < |f.envs| && Top(p).env < |p.envs|
    ensures Owns(pr, p, Top(p).env) <==> Safe(pr, Top(p).chunk)
    ensures Safe(pr, Top(p).chunk) ==> |f.envs[m[Top(p).env]].elements| == pr.chunks[Top(p).chunk].locals
  {
    hide ObjsRel, PoolOk, ElementsRel, ParentsRel;
    var n := |p.frames| - 1;
    assert f.frames[n] == Top(p).(env := m[Top(p).env]);
    if Safe(pr, Top(p).chunk) {
      assert SafeFrame(pr, p, n);
      assert FramePrivate(pr, p, f, m, n);
    }
    forall i | 0 <= i < n && Safe(pr, p.frames[i].chunk) ensures p.frames[i].env != Top(p).env {
      assert SafeFrame(pr, p, i);
      assert FramePrivate(pr, p, f, m, i);
    }
  }

  /** The value goes to the handler's slot where there is one. */
  function CatchWrite(s: State, env: nat, h: Handler, v: Value): (r: State)
    ensures r == s.(envs := r.envs)
  {
    if h.slot.None? then s
    else match WriteVar(s, env, h.depth, h.slot.value, v) case Some(t) => s.(envs := t.envs) case None => s
  }

  lemma CatchWriteRel(pr: Program, p: State, f: State, m: Ids, h: Handler, v: Value)
    requires Rel(pr, p, f, m) && p.frames != [] && (Safe(pr, Top(p).chunk) ==> h.depth == 0)
    ensures f.frames != [] && Rel(pr, CatchWrite(p, Top(p).env, h, v), CatchWrite(f, Top(f).env, h, v), m)
  {
    hide Rel, Owns;
    TopUses(pr, p, f, m);
    var e := Top(p).env;
    if h.slot.Some? {
      if Safe(pr, Top(p).chunk) && h.slot.value >= |f.envs[m[e]].elements| {
        if h.slot.value < |p.envs[e].elements| { SetHidden(pr, p, f, m, e, h.slot.value, v); }
      } else {
        WriteRel(pr, p, f, m, e, h.depth, h.slot.value, v);
      }
    }
  }

  /** Catching, in terms of its parts. */
  lemma CatchShape(pr: Program, s: State, v: Value)
    requires s.frames != []
    ensures
      var hs := if Top(s).chunk < |pr.chunks| then pr.chunks[Top(s).chunk].handlers else [];
      var k := Best(hs, Top(s).ip, |hs|);
      var s1 := s.(stack := Truncate(s.stack, Top(s).base));
      Catch(pr, s, v) ==
        if k < 0 then None
        else if hs[k].catchIP.Some? then
          var s2 := CatchWrite(s1, Top(s).env, hs[k], v);
          Some(SetIP(s2.(stack := s1.stack + [v]), hs[k].catchIP.value))
        else if hs[k].finallyIP.Some? then Some(SetIP(s1, hs[k].finallyIP.value)) else None
  {
    hide Best, Walk;
  }

  lemma CatchRel(pr: Program, p: State, f: State, m: Ids, v: Value)
    requires WfProgram(pr) && Rel(pr, p, f, m) && p.frames != []
    ensures f.frames != []
    ensures match Catch(pr, p, v)
            case None => Catch(pr, f, v).None?
            case Some(p1) => Catch(pr, f, v).Some? && Rel(pr, p1, Catch(pr, f, v).value, m)
  {
    hide Rel, Catch, CatchWrite, Best, Owns;
    TopUses(pr, p, f, m);
    SameStack(pr, p, f, m);
    CatchShape(pr, p, v);
    CatchShape(pr, f, v);
    var hs := if Top(p).chunk < |pr.chunks| then pr.chunks[Top(p).chunk].handlers else [];
    var k := Best(hs, Top(p).ip, |hs|);
    if k >= 0 {
      var stack := Truncate(p.stack, Top(p).base);
      var p1, f1 := p.(stack := stack), f.(stack := stack);
      RelStack(pr, p, f, m, stack, p.store);
      if hs[k].catchIP.Some? {
        CatchWriteRel(pr, p1, f1, m, hs[k], v);
        var p2, f2 := CatchWrite(p1, Top(p).env, hs[k], v), CatchWrite(f1, Top(f).env, hs[k], v);
        RelStack(pr, p2, f2, m, stack + [v], p.store);
        RelIP(pr, p2.(stack := stack + [v]), f2.(stack := stack + [v]), m, hs[k].catchIP.value);
      } else if hs[k].finallyIP.Some? {
        RelIP(pr, p1, f1, m, hs[k].finallyIP.value);
      }
    }
  }

  lemma SameStack(pr: Program, p: State, f: State, m: Ids)
    requires Rel(pr, p, f, m)
    ensures p.stack == f.stack && p.store == f.store && |p.frames| == |f.frames| && |p.objs| == |f.objs|
  {}

  lemma {:induction false} UnwindRel(pr: Program, p: State, f: State, m: Ids, v: Value)
    requires WfProgram(pr) && Rel(pr, p, f, m)
    ensures RelConf(pr, Unwind(pr, p, v, true), Unwind(pr, f, v, false))
    decreases |p.frames|
  {
    hide Rel, Catch, Finish;
    SameStack(pr, p, f, m);
    if p.frames != [] {
      CatchRel(pr, p, f, m, v);
      if Catch(pr, p, v).None? {
        var m1 := FinishRel(pr, p, f, m);
        UnwindRel(pr, Finish(pr, p, true), Finish(pr, f, false), m1, v);
      }
    }
  }

  // ---------- Calls ----------

  function With(m: Ids, a: nat, b: nat): Ids { m[a := b] }

  /** A new environment on both sides, on an outer one no safe frame owns. */
  lemma RelNewEnv(pr: Program, p: State, f: State, m: Ids, els: seq<Value>, parent: nat)
    requires Rel(pr, p, f, m) && parent in m && !Owns(pr, p, parent)
    ensures Rel(pr, p.(envs := p.envs + [Env(els, Some(parent))]), f.(envs := f.envs + [Env(els, Some(m[parent]))]),
                With(m, |p.envs|, |f.envs|))
    ensures !Owns(pr, p.(envs := p.envs + [Env(els, Some(parent))]), |p.envs|)
  {
    var p1, f1 := p.(envs := p.envs + [Env(els, Some(parent))]), f.(envs := f.envs + [Env(els, Some(m[parent]))]);
    var m1 := With(m, |p.envs|, |f.envs|);
    NewEnvFrames(pr, p, f, m, els, parent, p1, f1, m1);
    NewEnvParts(pr, p, f, m, els, parent, p1, f1, m1);
    NewEnvPrivate(pr, p, f, m, els, parent, p1, f1, m1);
  }

  lemma NewEnvFrames(pr: Program, p: State, f: State, m: Ids, els: seq<Value>, parent: nat, p1: State, f1: State, m1: Ids)
    requires Rel(pr, p, f, m) && parent in m && m1 == With(m, |p.envs|, |f.envs|)
    requires p1 == p.(envs := p.envs + [Env(els, Some(parent))]) && f1 == f.(envs := f.envs + [Env(els, Some(m[parent]))])
    ensures FramesRel(p1, f1, m1) && ObjsRel(p1, f1, m1) && IdsOk(p1, f1, m1) && PoolOk(pr, p1.envs, p1.pool, m1)
    ensures !Owns(pr, p1, |p.envs|)
  {
    hide Private, ElementsRel, ParentsRel;
    assert |p.envs| !in m;
    NotOwned(pr, p, f, m, |p.envs|);
    OwnsSame(pr, p, p1, |p.envs|);
  }

  lemma NewEnvParts(pr: Program, p: State, f: State, m: Ids, els: seq<Value>, parent: nat, p1: State, f1: State, m1: Ids)
    requires Rel(pr, p, f, m) && parent in m && m1 == With(m, |p.envs|, |f.envs|)
    requires p1 == p.(envs := p.envs + [Env(els, Some(parent))]) && f1 == f.(envs := f.envs + [Env(els, Some(m[parent]))])
    ensures ParentsRel(p1, f1, m1) && ElementsRel(pr, p1, f1, m1)
  {
    hide Private, Owns, ObjsRel, FramesRel, PoolOk;
    forall a | a in m1 ensures ParentOk(p1, f1, m1, a) && ElementsOk(pr, p1, f1, m1, a) {
      OwnsSame(pr, p, p1, a);
      if a in m { assert ParentOk(p, f, m, a) && ElementsOk(pr, p, f, m, a); }
    }
  }

  lemma NotOwned(pr: Program, p: State, f: State, m: Ids, a: nat)
    requires FramesRel(p, f, m) && a !in m
    ensures !Owns(pr, p, a)
  {}

  lemma NewEnvPrivate(pr: Program, p: State, f: State, m: Ids, els: seq<Value>, parent: nat, p1: State, f1: State, m1: Ids)
    requires Rel(pr, p, f, m) && parent in m && m1 == With(m, |p.envs|, |f.envs|) && !Owns(pr, p, parent)
    requires p1 == p.(envs := p.envs + [Env(els, Some(parent))]) && f1 == f.(envs := f.envs + [Env(els, Some(m[parent]))])
    ensures Private(pr, p1, f1, m1)
  {
    hide ElementsRel, ParentsRel, ObjsRel, PoolOk;
    forall i | 0 <= i < |p1.frames| && SafeFrame(pr, p1, i) ensures FramePrivate(pr, p1, f1, m1, i) {
      assert SafeFrame(pr, p, i);
      assert FramePrivate(pr, p, f, m, i);
      assert Owns(pr, p, p.frames[i].env);
      assert p.frames[i].env in m;
    }
  }

  /** A frame of a chunk that is not safe, on an environment no safe frame owns. */
  lemma RelPush(pr: Program, p: State, f: State, m: Ids, chunk: nat, env: nat, ip: nat, base: nat)
    requires Rel(pr, p, f, m) && env in m && !Owns(pr, p, env) && !Safe(pr, chunk)
    ensures Rel(pr, p.(frames := p.frames + [Frame(chunk, env, ip, base)]), f.(frames := f.frames + [Frame(chunk, m[env], ip, base)]), m)
  {
    var p1, f1 := p.(frames := p.frames + [Frame(chunk, env, ip, base)]), f.(frames := f.frames + [Frame(chunk, m[env], ip, base)]);
    forall i | 0 <= i < |p1.frames| && SafeFrame(pr, p1, i) ensures FramePrivate(pr, p1, f1, m, i) {
      assert SafeFrame(pr, p, i);
      assert FramePrivate(pr, p, f, m, i);
      assert Owns(pr, p, p.frames[i].env);
    }
    hide Owns;
    forall a | a in m ensures ParentOk(p1, f1, m, a) && ElementsOk(pr, p1, f1, m, a) {
      OwnsPushed(pr, p, p1, a);
      assert ParentOk(p, f, m, a) && ElementsOk(pr, p, f, m, a);
    }
  }

  lemma OwnsPushed(pr: Program, p: State, p1: State, a: nat)
    requires p1.frames != [] && p.frames == p1.frames[..|p1.frames| - 1]
    requires a != Top(p1).env || !Safe(pr, Top(p1).chunk)
    ensures Owns(pr, p1, a) == Owns(pr, p, a)
  {
    OwnsPopped(pr, p1, p, a);
  }

  /** The variables of a call: arguments and the function itself over Undefined. */
  function CallElements(c: Chunk, els: seq<Value>, stack: seq<Value>, argc: nat, callee: Value): (r: seq<Value>)
    ensures |r| == |els|
  {
    SetSlot(Bind(els, stack, c.params, argc), c.selfSlot, callee)
  }

  lemma CallElementsPrefix(c: Chunk, a: seq<Value>, b: seq<Value>, stack: seq<Value>, argc: nat, callee: Value)
    requires Prefix(a, b)
    ensures Prefix(CallElements(c, a, stack, argc, callee), CallElements(c, b, stack, argc, callee))
  {}

  /** The pool's choice: an environment not in use, cleared, at least as long as the call needs. */
  lemma Acquired(pr: Program, p: State, m: Ids, chunk: nat, parent: nat)
    requires PoolOk(pr, p.envs, p.pool, m) && (forall a :: a in m ==> a < |p.envs|) && chunk < |pr.chunks| && Safe(pr, chunk)
    ensures var (p1, e) := Acquire(pr, p, chunk, parent, true);
      && e !in m && e < |p1.envs| && |p.envs| <= |p1.envs|
      && p1.envs[e] == Env(Undefineds(|p1.envs[e].elements|), Some(parent)) && pr.chunks[chunk].locals <= |p1.envs[e].elements|
      && (forall a :: 0 <= a < |p.envs| && a != e ==> p1.envs[a] == p.envs[a])
      && PoolOk(pr, p1.envs, p1.pool, m) && e !in p1.pool
  {}

  /** A call of a safe function. */
  lemma SafeEnter(pr: Program, p: State, f: State, m: Ids, argc: nat, chunk: nat, parent: nat, callee: Value)
    requires WfProgram(pr) && Rel(pr, p, f, m) && chunk < |pr.chunks| && Safe(pr, chunk)
    requires parent in m && !Owns(pr, p, parent)
    ensures RelConf(pr, Enter(pr, p, argc, chunk, parent, callee, true), Enter(pr, f, argc, chunk, m[parent], callee, false))
  {
    hide Owns, Rel, Acquire, PoolOk, Bind, SetSlot;
    SameStack(pr, p, f, m);
    IdsInside(pr, p, f, m);
    Acquired(pr, p, m, chunk, parent);
    var c := pr.chunks[chunk];
    var (p1, e) := Acquire(pr, p, chunk, parent, true);
    AcquireFresh(pr, f, chunk, m[parent]);
    var (f1, d) := Acquire(pr, f, chunk, m[parent], false);
    var pels := CallElements(c, p1.envs[e].elements, p.stack, argc, callee);
    var fels := CallElements(c, f1.envs[d].elements, f.stack, argc, callee);
    UndefinedPrefix(c.locals, |p1.envs[e].elements|);
    CallElementsPrefix(c, f1.envs[d].elements, p1.envs[e].elements, p.stack, argc, callee);
    var stack := Drop(p.stack, argc + 1);
    var fr := Frame(chunk, e, 0, |stack|);
    var p2 := p1.(envs := p1.envs[e := Env(pels, Some(parent))], stack := stack, frames := p.frames + [fr]);
    var f2 := f1.(envs := f1.envs[d := Env(fels, Some(m[parent]))], stack := stack, frames := f.frames + [fr.(env := d)]);
    assert p1.objs + [] == p1.objs && f1.objs + [] == f1.objs;
    assert Enter(pr, p, argc, chunk, parent, callee, true) == Go(p2);
    assert Enter(pr, f, argc, chunk, m[parent], callee, false) == Go(f2);
    assert p2.envs[e := Env(Undefineds(|pels|), Some(parent))] == p1.envs;
    SafeEntered(pr, p, f, m, parent, fr, d, pels, fels, p2, f2);
  }

  lemma IdsInside(pr: Program, p: State, f: State, m: Ids)
    requires Rel(pr, p, f, m)
    ensures PoolOk(pr, p.envs, p.pool, m) && forall a :: a in m ==> a < |p.envs| && m[a] < |f.envs|
  {}

  lemma AcquireFresh(pr: Program, f: State, chunk: nat, parent: nat)
    requires chunk < |pr.chunks|
    ensures Acquire(pr, f, chunk, parent, false)
            == (f.(envs := f.envs + [Env(Undefineds(pr.chunks[chunk].locals), Some(parent))]), |f.envs|)
  {}

  lemma UndefinedPrefix(a: nat, b: nat)
    requires a <= b
    ensures Prefix(Undefineds(a), Undefineds(b))
  {}

  /** The state inside the call. */
  ghost predicate EnteredFrom(pr: Program, p: State, f: State, m: Ids, parent: nat, fr: Frame, d: nat,
                              pels: seq<Value>, fels: seq<Value>, p2: State, f2: State) {
    && Safe(pr, fr.chunk) && fr.env !in m && parent in m && !Owns(pr, p, parent)
    && d == |f.envs| && fr.env < |p2.envs| && |p.envs| <= |p2.envs|
    && Prefix(fels, pels) && |fels| == pr.chunks[fr.chunk].locals
    && p2.envs[fr.env] == Env(pels, Some(parent)) && (forall a :: 0 <= a < |p.envs| && a != fr.env ==> p2.envs[a] == p.envs[a])
    && f2.envs == f.envs + [Env(fels, Some(m[parent]))]
    && p2.frames == p.frames + [fr] && f2.frames == f.frames + [fr.(env := d)]
    && p2.objs == p.objs && f2.objs == f.objs && p2.store == p.store && f2.store == f.store && p2.stack == f2.stack
    && PoolOk(pr, p2.envs[fr.env := Env(Undefineds(|pels|), Some(parent))], p2.pool, m) && fr.env !in p2.pool
  }

  lemma SafeEntered(pr: Program, p: State, f: State, m: Ids, parent: nat, fr: Frame, d: nat,
                    pels: seq<Value>, fels: seq<Value>, p2: State, f2: State)
    requires Rel(pr, p, f, m) && EnteredFrom(pr, p, f, m, parent, fr, d, pels, fels, p2, f2)
    ensures RelConf(pr, Go(p2), Go(f2))
  {
    hide EnteredFrom, Rel;
    var m1 := With(m, fr.env, d);
    EnteredFrames(pr, p, f, m, parent, fr, d, pels, fels, p2, f2);
    EnteredEnvs(pr, p, f, m, parent, fr, d, pels, fels, p2, f2);
    EnteredPrivate(pr, p, f, m, parent, fr, d, pels, fels, p2, f2);
    EnteredRel(pr, p2, f2, m1);
  }

  lemma EnteredRel(pr: Program, p2: State, f2: State, m1: Ids)
    requires p2.stack == f2.stack && p2.store == f2.store && GensOk(pr, p2.objs)
    requires FramesRel(p2, f2, m1) && ObjsRel(p2, f2, m1) && IdsOk(p2, f2, m1) && ParentsRel(p2, f2, m1)
    requires ElementsRel(pr, p2, f2, m1) && Private(pr, p2, f2, m1) && PoolOk(pr, p2.envs, p2.pool, m1)
    ensures Rel(pr, p2, f2, m1)
  {}

  lemma EnteredFrames(pr: Program, p: State, f: State, m: Ids, parent: nat, fr: Frame, d: nat,
                      pels: seq<Value>, fels: seq<Value>, p2: State, f2: State)
    requires Rel(pr, p, f, m) && EnteredFrom(pr, p, f, m, parent, fr, d, pels, fels, p2, f2)
    ensures var m1 := With(m, fr.env, d);
      && p2.stack == f2.stack && p2.store == f2.store && GensOk(pr, p2.objs)
      && FramesRel(p2, f2, m1) && ObjsRel(p2, f2, m1) && IdsOk(p2, f2, m1) && PoolOk(pr, p2.envs, p2.pool, m1)
  {
    hide Owns, ElementsRel, ParentsRel, Private, Prefix;
  }

  lemma EnteredEnvs(pr: Program, p: State, f: State, m: Ids, parent: nat, fr: Frame, d: nat,
                    pels: seq<Value>, fels: seq<Value>, p2: State, f2: State)
    requires Rel(pr, p, f, m) && EnteredFrom(pr, p, f, m, parent, fr, d, pels, fels, p2, f2)
    ensures ParentsRel(p2, f2, With(m, fr.env, d)) && ElementsRel(pr, p2, f2, With(m, fr.env, d))
  {
    hide Private, ObjsRel, PoolOk, Prefix;
    var m1 := With(m, fr.env, d);
    forall a | a in m1 ensures ParentOk(p2, f2, m1, a) && ElementsOk(pr, p2, f2, m1, a) {
      if a == fr.env {
        assert p2.frames[|p.frames|] == fr;
        assert Owns(pr, p2, a);
      } else {
        OwnsPushed(pr, p, p2, a);
        assert ParentOk(p, f, m, a) && ElementsOk(pr, p, f, m, a);
      }
    }
  }

  lemma EnteredPrivate(pr: Program, p: State, f: State, m: Ids, parent: nat, fr: Frame, d: nat,
                       pels: seq<Value>, fels: seq<Value>, p2: State, f2: State)
    requires Rel(pr, p, f, m) && EnteredFrom(pr, p, f, m, parent, fr, d, pels, fels, p2, f2)
    ensures Private(pr, p2, f2, With(m, fr.env, d))
  {
    hide ElementsRel, PoolOk, Prefix;
    var m1 := With(m, fr.env, d);
    forall i | 0 <= i < |p2.frames| && SafeFrame(pr, p2, i) ensures FramePrivate(pr, p2, f2, m1, i) {
      if i < |p.frames| {
        assert SafeFrame(pr, p, i);
        assert FramePrivate(pr, p, f, m, i);
        assert p.frames[i].env in m;
        assert Owns(pr, p, p.frames[i].env);
      } else {
        forall a | a in m ensures p2.envs[a].parent != Some(fr.env) { assert ParentOk(p, f, m, a); }
      }
    }
  }

  /** A call of any other function: both machines make a new environment. */
  lemma OtherEnter(pr: Program, p: State, f: State, m: Ids, argc: nat, chunk: nat, parent: nat, callee: Value)
    requires Rel(pr, p, f, m) && chunk < |pr.chunks| && !Safe(pr, chunk)
    requires parent in m && !Owns(pr, p, parent)
    ensures RelConf(pr, Enter(pr, p, argc, chunk, parent, callee, true), Enter(pr, f, argc, chunk, m[parent], callee, false))
  {
    hide Owns, Rel, Bind, SetSlot;
    SameStack(pr, p, f, m);
    var c := pr.chunks[chunk];
    var e, d := |p.envs|, |f.envs|;
    var els := OtherElements(c, p, argc, callee);
    var p1 := p.(envs := p.envs + [Env(els, Some(parent))]);
    var f1 := f.(envs := f.envs + [Env(els, Some(m[parent]))]);
    var m1 := With(m, e, d);
    RelNewEnv(pr, p, f, m, els, parent);
    OtherShape(pr, p, argc, chunk, parent, callee, true);
    OtherShape(pr, f, argc, chunk, m[parent], callee, false);
    var p2, f2 := p1, f1;
    assert p.objs + [] == p.objs && f.objs + [] == f.objs;
    if c.argsSlot.Some? {
      RelObj(pr, p1, f1, m1, ArgObj(e, MappedCount(c)), ArgObj(d, MappedCount(c)));
      p2, f2 := p1.(objs := p1.objs + [ArgObj(e, MappedCount(c))]), f1.(objs := f1.objs + [ArgObj(d, MappedCount(c))]);
      StillNotOwned(pr, p1, p2, e);
    }
    var stack := Drop(p.stack, argc + 1);
    RelStack(pr, p2, f2, m1, stack, p.store);
    var p3, f3 := p2.(stack := stack), f2.(stack := stack);
    StillNotOwned(pr, p2, p3, e);
    if c.generator {
      RelObj(pr, p3, f3, m1, GenObj(chunk, e, Fresh), GenObj(chunk, d, Fresh));
      SameStack(pr, p2, f2, m1);
      RelStack(pr, p3.(objs := p3.objs + [GenObj(chunk, e, Fresh)]), f3.(objs := f3.objs + [GenObj(chunk, d, Fresh)]), m1,
               stack + [Ref(|p3.objs|)], p.store);
    } else {
      RelPush(pr, p3, f3, m1, chunk, e, 0, |stack|);
    }
  }

  lemma StillNotOwned(pr: Program, p: State, p1: State, a: nat)
    requires p1.frames == p.frames && !Owns(pr, p, a)
    ensures !Owns(pr, p1, a)
  {}

  /** The variables of a call that may have an arguments object. */
  function OtherElements(c: Chunk, s: State, argc: nat, callee: Value): (r: seq<Value>)
    ensures |r| == c.locals
  {
    var els := CallElements(c, Undefineds(c.locals), s.stack, argc, callee);
    if c.argsSlot.Some? then SetSlot(els, c.argsSlot, Ref(|s.objs|)) else els
  }

  lemma OtherShape(pr: Program, s: State, argc: nat, chunk: nat, parent: nat, callee: Value, pooled: bool)
    requires chunk < |pr.chunks| && !Safe(pr, chunk)
    ensures
      var c, env := pr.chunks[chunk], |s.envs|;
      var s2 := s.(envs := s.envs + [Env(OtherElements(c, s, argc, callee), Some(parent))],
                   objs := s.objs + (if c.argsSlot.Some? then [ArgObj(env, MappedCount(c))] else []), stack := Drop(s.stack, argc + 1));
      Enter(pr, s, argc, chunk, parent, callee, pooled)
      == if c.generator then Go(s2.(objs := s2.objs + [GenObj(chunk, env, Fresh)], stack := s2.stack + [Ref(|s2.objs|)]))
         else Go(s2.(frames := s2.frames + [Frame(chunk, env, 0, |s2.stack|)]))
  {
    hide Bind, SetSlot;
    var c, env := pr.chunks[chunk], |s.envs|;
    var els := OtherElements(c, s, argc, callee);
    var grown := s.envs + [Env(Undefineds(c.locals), Some(parent))];
    assert Acquire(pr, s, chunk, parent, pooled) == (s.(envs := grown), env);
    assert grown[env := grown[env].(elements := els)] == s.envs + [Env(els, Some(parent))];
  }

  /** An object's environment is in use and no safe frame owns it. */
  lemma ObjShared(pr: Program, p: State, f: State, m: Ids, k: nat)
    requires Rel(pr, p, f, m) && k < |p.objs|
    ensures k < |f.objs| && SameObj(p.objs[k], f.objs[k], m) && !Owns(pr, p, p.objs[k].env)
    ensures p.objs[k].GenObj? ==> !Safe(pr, p.objs[k].chunk)
  {
    hide ElementsRel, ParentsRel, PoolOk, IdsOk;
    forall i | 0 <= i < |p.frames| && Safe(pr, p.frames[i].chunk) ensures p.frames[i].env != p.objs[k].env {
      assert SafeFrame(pr, p, i);
      assert FramePrivate(pr, p, f, m, i);
    }
  }

  lemma CallRel(pr: Program, p: State, f: State, m: Ids, argc: nat)
    requires WfProgram(pr) && Rel(pr, p, f, m) && p.frames != []
    ensures f.frames != [] && RelConf(pr, DoCall(pr, p, argc, true), DoCall(pr, f, argc, false))
  {
    hide Rel, Owns, Enter, Unwind, RelConf, Resume;
    SameStack(pr, p, f, m);
    var callee := Peek(p.stack, argc);
    if |p.frames| >= pr.maxDepth {
      UnwindRel(pr, p, f, m, pr.tooDeep);
    } else {
      UnwindRel(pr, p, f, m, pr.notCallable(callee));
      if callee.Ref? && callee.id < |p.objs| {
        ObjShared(pr, p, f, m, callee.id);
        var o := p.objs[callee.id];
        if o.FunObj? && o.chunk < |pr.chunks| {
          if Safe(pr, o.chunk) { SafeEnter(pr, p, f, m, argc, o.chunk, o.env, callee); }
          else { OtherEnter(pr, p, f, m, argc, o.chunk, o.env, callee); }
        } else if o.GenObj? {
          ResumeRel(pr, p, f, m, argc, o);
        }
      }
    }
  }

  /** A generator goes on in both machines at the same point, with the same operands, on its own environment. */
  lemma ResumeRel(pr: Program, p: State, f: State, m: Ids, argc: nat, o: Obj)
    requires Rel(pr, p, f, m) && o.GenObj? && o.env in m && !Owns(pr, p, o.env) && !Safe(pr, o.chunk)
    ensures
      var stack, sent := Drop(p.stack, argc + 1), if argc > 0 then Peek(p.stack, argc - 1) else Undefined;
      RelConf(pr, Go(Resume(p.(stack := stack), o.chunk, o.env, o.at, sent)), Go(Resume(f.(stack := stack), o.chunk, m[o.env], o.at, sent)))
  {
    hide Rel, Owns;
    SameStack(pr, p, f, m);
    var stack, sent := Drop(p.stack, argc + 1), if argc > 0 then Peek(p.stack, argc - 1) else Undefined;
    var full := match o.at case Fresh => stack case Paused(_, saved) => stack + saved + [sent] case Finished => stack + [sent];
    RelStack(pr, p, f, m, full, p.store);
    if !o.at.Finished? {
      StillNotOwned(pr, p, p.(stack := full), o.env);
      RelPush(pr, p.(stack := full), f.(stack := full), m, o.chunk, o.env, if o.at.Fresh? then 0 else o.at.ip, |stack|);
    }
  }

  lemma ReturnRel(pr: Program, p: State, f: State, m: Ids, v: Value)
    requires Rel(pr, p, f, m) && p.frames != []
    ensures f.frames != [] && RelConf(pr, DoReturn(pr, p, v, true), DoReturn(pr, f, v, false))
  {
    hide Rel, Finish;
    var m1 := FinishRel(pr, p, f, m);
    var p1, f1 := Finish(pr, p, true), Finish(pr, f, false);
    SameStack(pr, p1, f1, m1);
    RelStack(pr, p1, f1, m1, p1.stack + [v], p1.store);
  }

  lemma SuspendRel(pr: Program, p: State, f: State, m: Ids)
    requires Rel(pr, p, f, m) && p.frames != [] && !Safe(pr, Top(p).chunk)
    ensures f.frames != [] && RelConf(pr, DoSuspend(p), DoSuspend(f))
  {
    hide Rel, Owns, SetPoint, PopFrame;
    SameStack(pr, p, f, m);
    TopUses(pr, p, f, m);
    var fr, stack := Top(p), Drop(p.stack, 1);
    SameGenerators(pr, p, f, m, fr.env);
    var at := Paused(fr.ip, if fr.base < |stack| then stack[fr.base..] else []);
    var p1, f1 := p.(objs := SetPoint(p.objs, fr.env, at)), f.(objs := SetPoint(f.objs, m[fr.env], at));
    RelPoint(pr, p, f, m, fr.env, at);
    PopOther(pr, p1, f1, m);
    OtherDropped(pr, p1, true);
    OtherDropped(pr, f1, false);
    var top := Truncate(stack, fr.base) + [Peek(p.stack, 0)];
    RelStack(pr, PopFrame(pr, p1, true), PopFrame(pr, f1, false), m, top, p.store);
  }

  lemma SameGenerators(pr: Program, p: State, f: State, m: Ids, e: nat)
    requires Rel(pr, p, f, m) && e in m
    ensures (forall k :: 0 <= k < |p.objs| ==> !p.objs[k].GenObj? || p.objs[k].env != e)
       <==> (forall k :: 0 <= k < |f.objs| ==> !f.objs[k].GenObj? || f.objs[k].env != m[e])
  {
    hide ElementsRel, ParentsRel, Private, PoolOk;
    forall k | 0 <= k < |p.objs|
      ensures (p.objs[k].GenObj? && p.objs[k].env == e) <==> (f.objs[k].GenObj? && f.objs[k].env == m[e]) {
      assert SameObj(p.objs[k], f.objs[k], m);
    }
  }

  lemma OtherDropped(pr: Program, s: State, pooled: bool)
    requires s.frames != [] && (pooled ==> !Safe(pr, Top(s).chunk))
    ensures PopFrame(pr, s, pooled) == s.(stack := Truncate(s.stack, Top(s).base), frames := s.frames[..|s.frames| - 1])
  {}

  // ---------- One instruction ----------

  lemma GetRel(pr: Program, p: State, f: State, m: Ids, depth: nat, slot: nat)
    requires Rel(pr, p, f, m) && p.frames != [] && (Safe(pr, Top(p).chunk) ==> depth == 0 && slot < pr.chunks[Top(p).chunk].locals)
    ensures f.frames != []
    ensures RelConf(pr, Execute(pr, p, GetVar(depth, slot), true), Execute(pr, f, GetVar(depth, slot), false))
  {
    hide Rel, ReadVar, Owns;
    TopUses(pr, p, f, m);
    SameStack(pr, p, f, m);
    ReadRel(pr, p, f, m, Top(p).env, depth, slot);
    var r := ReadVar(p, Top(p).env, depth, slot);
    if r.Some? { RelStack(pr, p, f, m, p.stack + [r.value], p.store); }
  }

  lemma SetVarRel(pr: Program, p: State, f: State, m: Ids, depth: nat, slot: nat)
    requires Rel(pr, p, f, m) && p.frames != [] && (Safe(pr, Top(p).chunk) ==> depth == 0 && slot < pr.chunks[Top(p).chunk].locals)
    ensures f.frames != []
    ensures RelConf(pr, Execute(pr, p, SetVar(depth, slot), true), Execute(pr, f, SetVar(depth, slot), false))
  {
    hide Rel, WriteVar, Owns;
    TopUses(pr, p, f, m);
    SameStack(pr, p, f, m);
    WriteRel(pr, p, f, m, Top(p).env, depth, slot, Peek(p.stack, 0));
  }

  lemma FunctionRel(pr: Program, p: State, f: State, m: Ids, c: nat)
    requires Rel(pr, p, f, m) && p.frames != [] && !Safe(pr, Top(p).chunk)
    ensures f.frames != []
    ensures RelConf(pr, Execute(pr, p, MakeFunction(c), true), Execute(pr, f, MakeFunction(c), false))
  {
    hide Rel, Owns;
    TopUses(pr, p, f, m);
    SameStack(pr, p, f, m);
    var e := Top(p).env;
    RelObj(pr, p, f, m, FunObj(c, e), FunObj(c, m[e]));
    RelStack(pr, p.(objs := p.objs + [FunObj(c, e)]), f.(objs := f.objs + [FunObj(c, m[e])]), m,
             p.stack + [Ref(|p.objs|)], p.store);
  }

  lemma RelGo(pr: Program, p: State, f: State, m: Ids, stack: seq<Value>)
    requires Rel(pr, p, f, m)
    ensures RelConf(pr, Go(p.(stack := stack)), Go(f.(stack := stack)))
  {
    hide Rel;
    SameStack(pr, p, f, m);
    RelStack(pr, p, f, m, stack, p.store);
  }

  lemma MappedRel(pr: Program, p: State, f: State, m: Ids, i: Instr)
    requires Rel(pr, p, f, m) && (i.ReadProp? || i.WriteProp?)
    ensures match Mapped(pr, p, i)
            case None => Mapped(pr, f, i).None?
            case Some((e, k)) => e in m && Mapped(pr, f, i) == Some((m[e], k)) && !Owns(pr, p, e)
  {
    hide Rel, Owns;
    SameStack(pr, p, f, m);
    var o := Peek(p.stack, i.at);
    if o.Ref? && o.id < |p.objs| { ObjShared(pr, p, f, m, o.id); }
  }

  lemma DataRel(pr: Program, p: State, f: State, m: Ids, op: nat, arg: nat)
    requires WfProgram(pr) && Rel(pr, p, f, m)
    ensures RelConf(pr, DoData(pr, p, op, arg, true), DoData(pr, f, op, arg, false))
  {
    hide Rel, Unwind;
    SameStack(pr, p, f, m);
    match pr.data(op, arg, p.stack, p.store)
    case Ok(stack, store) => RelStack(pr, p, f, m, stack, store);
    case Exc(v) => UnwindRel(pr, p, f, m, v);
  }

  lemma PropRel(pr: Program, p: State, f: State, m: Ids, i: Instr)
    requires WfProgram(pr) && Rel(pr, p, f, m) && p.frames != [] && (i.ReadProp? || i.WriteProp?)
    ensures f.frames != [] && RelConf(pr, Execute(pr, p, i, true), Execute(pr, f, i, false))
  {
    hide Rel, ReadVar, WriteVar, Owns, DoData, RelConf, Mapped;
    SameStack(pr, p, f, m);
    MappedRel(pr, p, f, m, i);
    DataRel(pr, p, f, m, i.op, i.arg);
    var t := Mapped(pr, p, i);
    if t.Some? {
      var (e, k) := t.value;
      var stack := Drop(p.stack, i.at + 1);
      if i.ReadProp? {
        ReadRel(pr, p, f, m, e, 0, k);
        var r := ReadVar(p, e, 0, k);
        if r.Some? { RelGo(pr, p, f, m, stack + [r.value]); }
      } else {
        var v := Peek(p.stack, 0);
        WriteRel(pr, p, f, m, e, 0, k, v);
        var w, w1 := WriteVar(p, e, 0, k, v), WriteVar(f, m[e], 0, k, v);
        if w.Some? { RelGo(pr, w.value, w1.value, m, stack + [v]); }
      }
    }
  }

  lemma BranchRel(pr: Program, p: State, f: State, m: Ids, taken: bool, to: nat)
    requires Rel(pr, p, f, m) && p.frames != []
    ensures f.frames != [] && RelConf(pr, Branch(pr, p, taken, to), Branch(pr, f, taken, to))
  {
    hide Rel, Leap;
    SameStack(pr, p, f, m);
    var stack := Drop(p.stack, 1);
    RelStack(pr, p, f, m, stack, p.store);
    LeapRel(pr, p.(stack := stack), f.(stack := stack), m, to);
  }

  lemma CallViaRel(pr: Program, p: State, f: State, m: Ids, op: nat, arg: nat, argc: Option<nat>)
    requires WfProgram(pr) && Rel(pr, p, f, m) && p.frames != []
    ensures f.frames != [] && RelConf(pr, DoCallVia(pr, p, op, arg, argc, true), DoCallVia(pr, f, op, arg, argc, false))
  {
    hide Rel, Unwind, DoCall, RelConf;
    SameStack(pr, p, f, m);
    var n := if argc.Some? then argc.value else pr.spread(p.stack, p.store);
    match pr.data(op, arg, p.stack, p.store)
    case Ok(stack, store) =>
      RelStack(pr, p, f, m, stack, store);
      CallRel(pr, p.(stack := stack, store := store), f.(stack := stack, store := store), m, n);
    case Exc(v) => UnwindRel(pr, p, f, m, v);
  }

  lemma ExecuteRel(pr: Program, p: State, f: State, m: Ids, i: Instr)
    requires WfProgram(pr) && Rel(pr, p, f, m) && p.frames != []
    requires Safe(pr, Top(p).chunk) ==> RegularInstr(i, pr.chunks[Top(p).chunk].locals)
    ensures f.frames != [] && RelConf(pr, Execute(pr, p, i, true), Execute(pr, f, i, false))
  {
    hide Rel, RelConf, Unwind, DoCall, DoReturn, ReadVar, WriteVar, DoSuspend, DoData, DoCallVia, DoRead, DoWrite, Branch, Leap;
    SameStack(pr, p, f, m);
    var top := Peek(p.stack, 0);
    match i
    case GetVar(depth, slot) => GetRel(pr, p, f, m, depth, slot);
    case SetVar(depth, slot) => SetVarRel(pr, p, f, m, depth, slot);
    case Literal(n) => RelGo(pr, p, f, m, p.stack + [Num(n)]);
    case MakeFunction(c) => FunctionRel(pr, p, f, m, c);
    case ReadProp(_, _, _) => PropRel(pr, p, f, m, i);
    case WriteProp(_, _, _) => PropRel(pr, p, f, m, i);
    case Suspend => SuspendRel(pr, p, f, m);
    case Halt => HaltRel(pr, p, f, m);
    case Broken => BrokenRel(pr);
    case Data(op, arg) => DataRel(pr, p, f, m, op, arg);
    case Jump(to) => LeapRel(pr, p, f, m, to);
    case JumpIfFalse(to) => BranchRel(pr, p, f, m, !pr.truthy(top), to);
    case JumpIfTrue(to) => BranchRel(pr, p, f, m, pr.truthy(top), to);
    case Call(argc) => CallRel(pr, p, f, m, argc);
    case CallVia(op, arg, argc) => CallViaRel(pr, p, f, m, op, arg, argc);
    case Return =>
      RelStack(pr, p, f, m, Drop(p.stack, 1), p.store);
      ReturnRel(pr, p.(stack := Drop(p.stack, 1)), f.(stack := Drop(p.stack, 1)), m, top);
    case Throw =>
      RelStack(pr, p, f, m, Drop(p.stack, 1), p.store);
      UnwindRel(pr, p.(stack := Drop(p.stack, 1)), f.(stack := Drop(p.stack, 1)), m, top);
  }

  lemma LeapRel(pr: Program, p: State, f: State, m: Ids, to: nat)
    requires Rel(pr, p, f, m) && p.frames != []
    ensures f.frames != [] && RelConf(pr, Leap(pr, p, to), Leap(pr, f, to))
  {
    hide Rel, Owns;
    TopUses(pr, p, f, m);
    RelIP(pr, p, f, m, to);
  }

  lemma HaltRel(pr: Program, p: State, f: State, m: Ids)
    requires Rel(pr, p, f, m) && p.frames != []
    ensures f.frames != [] && RelConf(pr, Execute(pr, p, Halt, true), Execute(pr, f, Halt, false))
  {
    hide Rel, Owns;
    SameStack(pr, p, f, m);
    TopUses(pr, p, f, m);
  }

  lemma BrokenRel(pr: Program)
    ensures RelConf(pr, Fault, Fault)
  {}

  // ---------- A safe frame is always at the start of an instruction ----------

  ghost predicate Tracked(pr: Program, s: State) {
    && GensOk(pr, s.objs)
    && forall i :: 0 <= i < |s.frames| && Safe(pr, s.frames[i].chunk) ==> OnLine(pr.chunks[s.frames[i].chunk].code, s.frames[i].ip)
  }

  ghost predicate TrackedConf(pr: Program, k: Conf) { k.Go? ==> Tracked(pr, k.s) }

  lemma {:induction false} NextOnLine(code: seq<Cell>, from: nat, at: nat)
    requires at < |code| && StartsAt(code, from, at)
    ensures StartsAt(code, from, at + 1 + code[at].width)
    decreases |code| - from
  {
    if from < at {
      NextOnLine(code, from + 1 + code[from].width, at);
      StartsBefore(code, from + 1 + code[from].width, at);
    } else {
      var next := at + 1 + code[at].width;
      assert StartsAt(code, next, next);
    }
  }

  lemma StartsBefore(code: seq<Cell>, from: nat, at: nat)
    requires StartsAt(code, from, at)
    ensures from <= at
  {}

  lemma TrackedCatch(pr: Program, s: State, v: Value)
    requires WfProgram(pr) && Tracked(pr, s) && s.frames != []
    ensures match Catch(pr, s, v) case None => true case Some(t) => Tracked(pr, t)
  {
    hide OnLine, CatchWrite, Catch, RegularInstr;
    CatchShape(pr, s, v);
    if Safe(pr, Top(s).chunk) {
      var hs := pr.chunks[Top(s).chunk].handlers;
      var k := Best(hs, Top(s).ip, |hs|);
      if k >= 0 { assert HandlerLands(pr.chunks[Top(s).chunk].code, hs[k]); }
    }
  }

  lemma TrackedFinish(pr: Program, s: State, pooled: bool)
    requires Tracked(pr, s) && s.frames != []
    ensures Tracked(pr, Finish(pr, s, pooled))
  {
    hide StartsAt, OnLine;
  }

  lemma {:induction false} TrackedUnwind(pr: Program, s: State, v: Value, pooled: bool)
    requires WfProgram(pr) && Tracked(pr, s)
    ensures TrackedConf(pr, Unwind(pr, s, v, pooled))
    decreases |s.frames|
  {
    hide Tracked, Catch, Finish;
    if s.frames != [] {
      TrackedCatch(pr, s, v);
      TrackedFinish(pr, s, pooled);
      if Catch(pr, s, v).None? { TrackedUnwind(pr, Finish(pr, s, pooled), v, pooled); }
    }
  }

  lemma TrackedEnter(pr: Program, s: State, argc: nat, chunk: nat, parent: nat, callee: Value, pooled: bool)
    requires WfProgram(pr) && Tracked(pr, s) && chunk < |pr.chunks|
    ensures TrackedConf(pr, Enter(pr, s, argc, chunk, parent, callee, pooled))
  {
    hide Acquire, Bind, SetSlot;
    assert OnLine(pr.chunks[chunk].code, 0);
  }

  lemma TrackedCall(pr: Program, s: State, argc: nat, pooled: bool)
    requires WfProgram(pr) && Tracked(pr, s) && s.frames != []
    ensures TrackedConf(pr, DoCall(pr, s, argc, pooled))
  {
    hide Unwind, Enter, OnLine;
    var callee := Peek(s.stack, argc);
    TrackedUnwind(pr, s, pr.tooDeep, pooled);
    TrackedUnwind(pr, s, pr.notCallable(callee), pooled);
    if callee.Ref? && callee.id < |s.objs| && s.objs[callee.id].FunObj? && s.objs[callee.id].chunk < |pr.chunks| {
      TrackedEnter(pr, s, argc, s.objs[callee.id].chunk, s.objs[callee.id].env, callee, pooled);
    }
  }

  lemma TrackedData(pr: Program, s: State, op: nat, arg: nat, argc: Option<nat>, pooled: bool)
    requires WfProgram(pr) && Tracked(pr, s) && s.frames != []
    ensures TrackedConf(pr, DoData(pr, s, op, arg, pooled)) && TrackedConf(pr, DoCallVia(pr, s, op, arg, argc, pooled))
  {
    hide Unwind, OnLine, DoCall;
    var n := if argc.Some? then argc.value else pr.spread(s.stack, s.store);
    match pr.data(op, arg, s.stack, s.store)
    case Ok(stack, store) => TrackedCall(pr, s.(stack := stack, store := store), n, pooled);
    case Exc(v) => TrackedUnwind(pr, s, v, pooled);
  }

  lemma TrackedProp(pr: Program, s: State, i: Instr, pooled: bool)
    requires WfProgram(pr) && Tracked(pr, s) && s.frames != [] && (i.ReadProp? || i.WriteProp?)
    ensures TrackedConf(pr, Execute(pr, s, i, pooled))
  {
    hide OnLine, DoData, Mapped, Walk;
    TrackedData(pr, s, i.op, i.arg, None, pooled);
  }

  /** Jumps of safe code land on the start of an instruction. */
  lemma TrackedExecute(pr: Program, s: State, i: Instr, pooled: bool)
    requires WfProgram(pr) && Tracked(pr, s) && s.frames != []
    requires Safe(pr, Top(s).chunk) ==> forall to :: to in Targets(i) ==> OnLine(pr.chunks[Top(s).chunk].code, to)
    ensures TrackedConf(pr, Execute(pr, s, i, pooled))
  {
    hide OnLine, Unwind, DoCall, DoData, DoCallVia, DoRead, DoWrite, Walk, Finish;
    var top := Peek(s.stack, 0);
    match i
    case ReadProp(_, _, _) => TrackedProp(pr, s, i, pooled);
    case WriteProp(_, _, _) => TrackedProp(pr, s, i, pooled);
    case Data(op, arg) => TrackedData(pr, s, op, arg, None, pooled);
    case Call(argc) => TrackedCall(pr, s, argc, pooled);
    case CallVia(op, arg, argc) => TrackedData(pr, s, op, arg, argc, pooled);
    case Return => TrackedFinish(pr, s.(stack := Drop(s.stack, 1)), pooled);
    case Throw => TrackedUnwind(pr, s.(stack := Drop(s.stack, 1)), top, pooled);
    case Jump(to) => assert to in Targets(i);
    case JumpIfFalse(to) => assert to in Targets(i);
    case JumpIfTrue(to) => assert to in Targets(i);
    case _ =>
  }

  /** Where a safe frame goes on is the start of an instruction, and that is a regular one. */
  lemma TrackedTop(pr: Program, s: State)
    requires WfProgram(pr) && Tracked(pr, s) && s.frames != [] && Top(s).chunk < |pr.chunks|
    requires Top(s).ip < |pr.chunks[Top(s).chunk].code|
    ensures var c, ip := pr.chunks[Top(s).chunk], Top(s).ip;
      && Tracked(pr, SetIP(s, ip + 1 + c.code[ip].width))
      && (c.safe ==> RegularInstr(c.code[ip].instr, c.locals) && forall to :: to in Targets(c.code[ip].instr) ==> OnLine(c.code, to))
  {
    var c, ip := pr.chunks[Top(s).chunk], Top(s).ip;
    if c.safe {
      assert OnLine(c.code, ip);
      NextOnLine(c.code, 0, ip);
    }
  }

  lemma TrackedStep(pr: Program, s: State, pooled: bool)
    requires WfProgram(pr) && Tracked(pr, s)
    ensures TrackedConf(pr, Step(pr, s, pooled))
  {
    hide Tracked, Execute, Finish, OnLine, WfProgram;
    if s.frames != [] && Top(s).chunk < |pr.chunks| {
      var c, ip := pr.chunks[Top(s).chunk], Top(s).ip;
      if ip >= |c.code| {
        TrackedFinish(pr, s, pooled);
        TrackedPush(pr, Finish(pr, s, pooled), Undefined);
      } else {
        TrackedTop(pr, s);
        TrackedExecute(pr, SetIP(s, ip + 1 + c.code[ip].width), c.code[ip].instr, pooled);
      }
    }
  }

  lemma TrackedPush(pr: Program, s: State, v: Value)
    requires Tracked(pr, s)
    ensures Tracked(pr, s.(stack := s.stack + [v]))
  {}

  // ---------- Whole runs ----------

  lemma StepRel(pr: Program, p: State, f: State, m: Ids)
    requires WfProgram(pr) && Rel(pr, p, f, m) && Tracked(pr, p)
    ensures RelConf(pr, Step(pr, p, true), Step(pr, f, false))
  {
    hide Rel, Execute, DoReturn, Tracked;
    SameStack(pr, p, f, m);
    if p.frames != [] {
      TopUses(pr, p, f, m);
      var fr := Top(p);
      if fr.chunk < |pr.chunks| {
        if fr.ip >= |pr.chunks[fr.chunk].code| {
          ReturnRel(pr, p, f, m, Undefined);
        } else {
          var cell := pr.chunks[fr.chunk].code[fr.ip];
          TrackedTop(pr, p);
          RelIP(pr, p, f, m, fr.ip + 1 + cell.width);
          ExecuteRel(pr, SetIP(p, fr.ip + 1 + cell.width), SetIP(f, fr.ip + 1 + cell.width), m, cell.instr);
        }
      }
    }
  }

  /** After any number of steps the two machines have the same result, or the same operand stack,
      globals, properties, and frames at the same places in their code. */
  lemma {:induction false} RunRel(pr: Program, a: Conf, b: Conf, n: nat)
    requires WfProgram(pr) && RelConf(pr, a, b) && TrackedConf(pr, a)
    ensures RelConf(pr, Run(pr, a, n, true), Run(pr, b, n, false))
    decreases n
  {
    hide Rel, Step, Tracked;
    if n > 0 && a.Go? {
      var m :| Rel(pr, a.s, b.s, m);
      StepRel(pr, a.s, b.s, m);
      TrackedStep(pr, a.s, true);
      RunRel(pr, Step(pr, a.s, true), Step(pr, b.s, false), n - 1);
    }
  }

  /** A first frame on one environment. */
  function Start(chunk: nat, els: seq<Value>, store: Store): State {
    State([Env(els, None)], [Frame(chunk, 0, 0, 0)], [], [], store, [])
  }

  /** The same result, or the same operand stack, globals, properties, and frames at the same places. */
  predicate SameRun(a: Conf, b: Conf) {
    if a.Go? then
      && b.Go? && a.s.stack == b.s.stack && a.s.store == b.s.store && |a.s.frames| == |b.s.frames|
      && (forall i :: 0 <= i < |a.s.frames| ==> a.s.frames[i].chunk == b.s.frames[i].chunk && a.s.frames[i].ip == b.s.frames[i].ip)
      && |a.s.pool| <= MAX_IDLE
    else b == a
  }

  /** The pool is not observable: from any start, after any number of steps. */
  lemma PoolInvisible(pr: Program, chunk: nat, els: seq<Value>, store: Store, n: nat)
    requires WfProgram(pr) && !Safe(pr, chunk)
    ensures SameRun(Run(pr, Go(Start(chunk, els, store)), n, true), Run(pr, Go(Start(chunk, els, store)), n, false))
  {
    hide Run;
    var s := Start(chunk, els, store);
    StartRel(pr, chunk, els, store);
    RunRel(pr, Go(s), Go(s), n);
    var a, b := Run(pr, Go(s), n, true), Run(pr, Go(s), n, false);
    if a.Go? {
      var m :| Rel(pr, a.s, b.s, m);
      FramesSeen(pr, a.s, b.s, m);
    }
  }

  lemma FramesSeen(pr: Program, p: State, f: State, m: Ids)
    requires Rel(pr, p, f, m)
    ensures p.stack == f.stack && p.store == f.store && |p.frames| == |f.frames| && |p.pool| <= MAX_IDLE
    ensures forall i :: 0 <= i < |p.frames| ==> p.frames[i].chunk == f.frames[i].chunk && p.frames[i].ip == f.frames[i].ip
  {}

  lemma StartRel(pr: Program, chunk: nat, els: seq<Value>, store: Store)
    requires !Safe(pr, chunk)
    ensures RelConf(pr, Go(Start(chunk, els, store)), Go(Start(chunk, els, store)))
  {
    var s := Start(chunk, els, store);
    assert Rel(pr, s, s, map[0 := 0]);
  }
}
