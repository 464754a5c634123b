/** The static check on byte code, and the pool as it is kept in place. */
module FrameEnv {
  import opened Options
  import opened EnvMachine
  import opened EnvPoolRefines

  // ---------- The check ----------

  type byte = b: int | 0 <= b < 256

  datatype Const = FunctionConst(chunk: nat) | StringConst(s: string) | OtherConst

  /** Positions in bytes; a negative position or slot is none. */
  datatype ByteHandler = ByteHandler(start: nat, end: nat, catchIP: int, finallyIP: int, depth: nat, slot: int)

  datatype ByteChunk = ByteChunk(code: seq<byte>, consts: seq<Const>, handlers: seq<ByteHandler>, native: bool, generator: bool,
                                 async: bool, arrow: bool, strict: bool, argumentsSlot: int, restSlot: int, selfSlot: int,
                                 params: nat, locals: int)

  /** Operand bytes of an opcode. */
  function Width(op: byte): nat {
    if op in {5, 6} || 44 <= op <= 50 || 54 <= op <= 57 || op in {59, 65, 68, 70, 71, 77} then 4
    else if op in {58, 60, 66, 72} then 2
    else 0
  }

  const GET_LOCAL: byte := 44
  const SET_LOCAL: byte := 45
  const YIELD: byte := 66
  const AWAIT: byte := 69
  const OPCODES := 79

  /** The little-endian operand of the instruction at ip. */
  function Operand(code: seq<byte>, ip: nat): nat
    requires ip < |code| && ip + 1 + Width(code[ip]) <= |code|
  {
    match Width(code[ip])
    case 0 => 0
    case 2 => code[ip + 1] as int + 256 * code[ip + 2] as int
    case _ => code[ip + 1] as int + 256 * code[ip + 2] as int + 65536 * code[ip + 3] as int + 16777216 * code[ip + 4] as int
  }

  function Signed(word: nat): int { if word < 0x8000_0000 then word else word - 0x1_0000_0000 }

  // ---------- What the bytes mean ----------

  /** Where the jump at ip goes: relative to the next instruction, and nowhere if not inside the code. */
  function Target(c: ByteChunk, ip: nat, word: nat): nat {
    var to := ip + 5 + Signed(word);
    if to < 0 then |c.code| + 1 else to
  }

  /** The instruction read at ip, whether or not one was written there. */
  function InstrAt(c: ByteChunk, ip: nat): Instr
    requires ip < |c.code|
  {
    var op := c.code[ip];
    if op >= OPCODES || ip + 1 + Width(op) > |c.code| then Broken
    else
      var arg := Operand(c.code, ip);
      match op
      case 5 => Literal(Signed(arg))
      case 6 => if arg >= |c.consts| then Broken
                else if c.consts[arg].FunctionConst? then MakeFunction(c.consts[arg].chunk) else Data(op, arg)
      case 44 => GetVar(arg / 65536, arg % 65536)
      case 45 => SetVar(arg / 65536, arg % 65536)
      case 49 => ReadProp(op, arg, 0)
      case 50 => WriteProp(op, arg, 1)
      case 51 => ReadProp(op, arg, 1)
      case 52 => WriteProp(op, arg, 2)
      case 55 => Jump(Target(c, ip, arg))
      case 56 => JumpIfFalse(Target(c, ip, arg))
      case 57 => JumpIfTrue(Target(c, ip, arg))
      case 58 => Call(arg)
      case 59 => CallVia(op, arg, Some(arg / 65536))
      case 60 | 72 => CallVia(op, arg, Some(arg))
      case 41 | 42 | 75 | 76 => CallVia(op, arg, None)
      case 62 => Return
      case 63 => Throw
      case 64 => Halt
      case 66 | 69 => Suspend
      case _ => Data(op, arg)
  }

  function Cells(c: ByteChunk): (r: seq<Cell>)
    ensures |r| == |c.code|
  {
    seq(|c.code|, ip requires 0 <= ip < |c.code| => Cell(InstrAt(c, ip), Width(c.code[ip])))
  }

  function Slot(i: int): Option<nat> { if i < 0 then None else Some(i) }

  function DecodeHandler(h: ByteHandler): Handler {
    Handler(h.start, h.end, Slot(h.catchIP), Slot(h.finallyIP), h.depth, Slot(h.slot))
  }

  /** The chunk of the environment machine. */
  function Decode(c: ByteChunk, safe: bool): Chunk {
    Chunk(Cells(c), if c.locals < 0 then 0 else c.locals, c.params, c.strict, Slot(c.selfSlot), Slot(c.argumentsSlot),
          c.generator || c.async,
          seq(|c.handlers|, i requires 0 <= i < |c.handlers| => DecodeHandler(c.handlers[i])), safe)
  }

  // ---------- The scan ----------

  /** The opcodes a safe body may hold besides local accesses: constants, operators, reads of globals,
      properties, calls, jumps, return and throw. */
  predicate Allowed(op: byte) {
    || 0 <= op <= 36 || op == 46 || 49 <= op <= 63 || op == 65 || op == 74
  }

  /** The instruction at ip is whole and one a safe body may hold. */
  predicate InstrOk(c: ByteChunk, ip: nat)
    requires ip < |c.code|
  {
    var op := c.code[ip];
    && ip + 1 + Width(op) <= |c.code|
    && if op == GET_LOCAL || op == SET_LOCAL then
         var arg := Operand(c.code, ip);
         arg / 65536 == 0 && arg % 65536 < c.locals
       else Allowed(op)
  }

  predicate Plain(c: ByteChunk) {
    && !c.native && !c.generator && !c.async && !c.arrow && c.argumentsSlot < 0 && c.restSlot < 0 && c.locals >= 0
    && (forall i :: 0 <= i < |c.consts| ==> !c.consts[i].FunctionConst? && c.consts[i] != StringConst("eval"))
    && (forall i :: 0 <= i < |c.handlers| ==> c.handlers[i].depth == 0)
  }

  /** Plain, not empty, and every instruction from the first on is allowed. */
  predicate Accepts(c: ByteChunk) {
    Plain(c) && c.code != [] && forall at :: 0 <= at < |c.code| && StartsAt(Cells(c), 0, at) ==> InstrOk(c, at)
  }

  /** Accepts a chunk exactly when it is plain, not empty, and every instruction of it is allowed. */
  method RegularFrameBody(c: ByteChunk) returns (ok: bool)
    ensures ok <==> Accepts(c)
  {
    hide InstrOk, Cells;
    if c.native || c.generator || c.async || c.arrow || c.argumentsSlot >= 0 || c.restSlot >= 0 || c.locals < 0 {
      return false;
    }
    for i := 0 to |c.consts|
      invariant forall j :: 0 <= j < i ==> !c.consts[j].FunctionConst? && c.consts[j] != StringConst("eval")
    {
      if c.consts[i].FunctionConst? || (c.consts[i].StringConst? && c.consts[i].s == "eval") { return false; }
    }
    for i := 0 to |c.handlers|
      invariant forall j :: 0 <= j < i ==> c.handlers[j].depth == 0
    {
      if c.handlers[i].depth != 0 { return false; }
    }
    var ip := 0;
    while ip < |c.code|
      invariant forall at :: 0 <= at < ip && at < |c.code| && StartsAt(Cells(c), 0, at) ==> InstrOk(c, at)
      invariant forall at :: at >= ip ==> (StartsAt(Cells(c), 0, at) <==> StartsAt(Cells(c), ip, at))
      decreases |c.code| - ip
    {
      var one := CheckOne(c, ip);
      if !one { return false; }
      NextStart(c, ip);
      ip := ip + 1 + Width(c.code[ip]);
    }
    ok := |c.code| > 0;
  }

  lemma NextStart(c: ByteChunk, ip: nat)
    requires ip < |c.code|
    ensures StartsAt(Cells(c), ip, ip)
    ensures forall at :: ip < at < ip + 1 + Width(c.code[ip]) ==> !StartsAt(Cells(c), ip, at)
    ensures forall at :: at >= ip + 1 + Width(c.code[ip]) ==>
              (StartsAt(Cells(c), ip, at) <==> StartsAt(Cells(c), ip + 1 + Width(c.code[ip]), at))
  {
    hide Width;
    assert Cells(c)[ip].width == Width(c.code[ip]);
  }

  method CheckOne(c: ByteChunk, ip: nat) returns (ok: bool)
    requires ip < |c.code|
    ensures ok <==> InstrOk(c, ip)
  {
    var op := c.code[ip];
    var width := Width(op);
    if width > |c.code| - ip - 1 { return false; }
    if op == GET_LOCAL || op == SET_LOCAL {
      var arg := Operand(c.code, ip);
      return arg / 65536 == 0 && arg % 65536 < c.locals;
    }
    return Allowed(op);
  }

  // ---------- What the scan is for ----------

  /** What the scan accepts, the environment machine may run on a recycled environment, as far as
      instructions read from the first on are concerned. */
  lemma AcceptedIsRegular(c: ByteChunk)
    requires Accepts(c)
    ensures Regular(Decode(c, true))
  {
    hide StartsAt, Plain;
    var d := Decode(c, true);
    assert !d.generator && d.argsSlot.None? && forall i :: 0 <= i < |d.handlers| ==> d.handlers[i].depth == 0 by { PlainShape(c); }
    forall at | 0 <= at < |c.code| && StartsAt(Cells(c), 0, at) ensures RegularInstr(d.code[at].instr, d.locals) {
      assert InstrOk(c, at);
      OkIsRegular(c, at);
    }
  }

  lemma PlainShape(c: ByteChunk)
    requires Plain(c)
    ensures var d := Decode(c, true);
      !d.generator && d.argsSlot.None? && d.locals == c.locals && forall i :: 0 <= i < |d.handlers| ==> d.handlers[i].depth == 0
  {}

  lemma OkIsRegular(c: ByteChunk, at: nat)
    requires Plain(c) && at < |c.code| && InstrOk(c, at)
    ensures RegularInstr(InstrAt(c, at), c.locals)
  {}

  /** In a plain chunk, yield and await are the only opcodes besides variable accesses that the list must
      keep out; the others it leaves out see nothing of the environment. */
  lemma MustExclude(c: ByteChunk, at: nat)
    requires Plain(c) && at < |c.code| && c.code[at] != GET_LOCAL && c.code[at] != SET_LOCAL
    ensures at + 1 + Width(c.code[at]) <= |c.code| && c.code[at] < OPCODES ==>
              (RegularInstr(InstrAt(c, at), c.locals) <==> c.code[at] != YIELD && c.code[at] != AWAIT)
  {}

  /** Programs whose recycling is decided by the scan, and in what it accepts jumps land where instructions start. */
  predicate Scanned(pr: Program, cs: seq<ByteChunk>) {
    && |pr.chunks| == |cs|
    && forall i :: 0 <= i < |cs| ==> pr.chunks[i] == Decode(cs[i], Accepts(cs[i])) && (Accepts(cs[i]) ==> LandsOnLine(pr.chunks[i]))
  }

  /** The scan is enough: with recycling decided by it, the pool is not observable. */
  lemma ScanEnough(pr: Program, cs: seq<ByteChunk>, chunk: nat, els: seq<Value>, store: Store, n: nat)
    requires Scanned(pr, cs) && !Safe(pr, chunk)
    ensures SameRun(Run(pr, Go(Start(chunk, els, store)), n, true), Run(pr, Go(Start(chunk, els, store)), n, false))
  {
    hide Accepts, LandsOnLine, Regular, Decode, SameRun, Run;
    forall i | 0 <= i < |pr.chunks| ensures pr.chunks[i].safe ==> Regular(pr.chunks[i]) && LandsOnLine(pr.chunks[i]) {
      DecodeSafe(cs[i], Accepts(cs[i]));
      if Accepts(cs[i]) { AcceptedIsRegular(cs[i]); }
    }
    PoolInvisible(pr, chunk, els, store, n);
  }

  lemma DecodeSafe(c: ByteChunk, safe: bool)
    ensures Decode(c, safe).safe == safe
  {}

  // ---------- Why jumps must land on instructions ----------

  function PlainChunk(code: seq<byte>, consts: seq<Const>, locals: nat): ByteChunk {
    ByteChunk(code, consts, [], false, false, false, false, false, -1, -1, -1, 0, locals)
  }

  /** Makes and calls function 1, then function 2. */
  const CALLER := PlainChunk([6, 0, 0, 0, 0, 58, 0, 0, 6, 1, 0, 0, 0, 58, 0, 0], [FunctionConst(1), FunctionConst(2)], 0)

  /** Returns; it has eight variables. */
  const ROOMY := PlainChunk([62], [], 8)

  /** Jumps into the operand of a constant, which reads there as an access to variable 5 of its one variable. */
  const ASTRAY := PlainChunk([55, 1, 0, 0, 0, 5, 44, 5, 0, 0, 0, 62], [], 1)

  predicate AstrayProgram(pr: Program) {
    && pr.chunks == [Decode(CALLER, Accepts(CALLER)), Decode(ROOMY, Accepts(ROOMY)), Decode(ASTRAY, Accepts(ASTRAY))]
    && pr.maxDepth >= 2
  }

  lemma AstrayAccepted()
    ensures !Accepts(CALLER) && Accepts(ROOMY) && Accepts(ASTRAY)
  {
    hide Operand;
    assert CALLER.consts[0].FunctionConst?;
    var r, a := Cells(ROOMY), Cells(ASTRAY);
    assert InstrOk(ROOMY, 0);
    assert a[0].width == 4 && a[5].width == 4 && a[10].width == 0;
    assert InstrOk(ASTRAY, 0) && InstrOk(ASTRAY, 5) && InstrOk(ASTRAY, 10) && InstrOk(ASTRAY, 11);
    forall at | 0 <= at < |ASTRAY.code| && StartsAt(a, 0, at) ensures at in {0, 5, 10, 11} {
      NextStart(ASTRAY, 0);
      NextStart(ASTRAY, 5);
      NextStart(ASTRAY, 10);
    }
  }

  lemma AstrayInstrs()
    ensures InstrAt(CALLER, 0) == MakeFunction(1) && InstrAt(CALLER, 5) == Call(0)
    ensures InstrAt(CALLER, 8) == MakeFunction(2) && InstrAt(CALLER, 13) == Call(0)
    ensures InstrAt(ROOMY, 0) == Return && InstrAt(ASTRAY, 0) == Jump(6) && InstrAt(ASTRAY, 6) == GetVar(0, 5)
  {}

  /** One step of the program, at a byte of its code. */
  lemma AstrayStep(pr: Program, s: State, pooled: bool)
    requires AstrayProgram(pr) && s.frames != [] && Top(s).chunk < 3
    ensures var c, ip := [CALLER, ROOMY, ASTRAY][Top(s).chunk], Top(s).ip;
      ip < |c.code| ==> Step(pr, s, pooled) == Execute(pr, SetIP(s, ip + 1 + Width(c.code[ip])), InstrAt(c, ip), pooled)
  {
    hide Execute, InstrAt, Accepts, StartsAt, Width;
  }

  /** Function 1 has been called and has returned. */
  function RoomyDone(store: Store, pooled: bool): State {
    State([Env([], None), Env(Undefineds(8), if pooled then None else Some(0))], [Frame(0, 0, 8, 0)], [Undefined],
          [FunObj(1, 0)], store, if pooled then [1] else [])
  }

  /** Calling a function with no parameters that has just been made. */
  lemma PlainCall(pr: Program, s: State, chunk: nat, pooled: bool)
    requires AstrayProgram(pr) && 1 <= chunk < 3 && |s.frames| == 1 && s.envs != []
    requires s.objs != [] && s.objs[|s.objs| - 1] == FunObj(chunk, 0) && s.stack != [] && s.stack[|s.stack| - 1] == Ref(|s.objs| - 1)
    requires s.pool != [] ==> s.pool == [1] && |s.envs| == 2
    ensures var stack, n := s.stack[..|s.stack| - 1], pr.chunks[chunk].locals;
      DoCall(pr, s, 0, pooled)
      == if pooled && s.pool != [] then
           Go(s.(envs := s.envs[1 := Env(if |s.envs[1].elements| < n then Undefineds(n) else s.envs[1].elements, Some(0))],
                 pool := [], stack := stack, frames := s.frames + [Frame(chunk, 1, 0, |stack|)]))
         else Go(s.(envs := s.envs + [Env(Undefineds(n), Some(0))],
                    stack := stack, frames := s.frames + [Frame(chunk, |s.envs|, 0, |stack|)]))
  {
    hide Accepts, Cells;
    AstrayAccepted();
    var (s1, e) := Acquire(pr, s, chunk, 0, pooled);
    var els := s1.envs[e].elements;
    assert SetSlot(Bind(els, s.stack, 0, 0), None, Ref(0)) == els;
    assert s1.envs[e := s1.envs[e].(elements := els)] == s1.envs;
    assert s.objs + [] == s.objs;
    assert pr.chunks[chunk].params == 0 && pr.chunks[chunk].argsSlot.None? && !pr.chunks[chunk].generator;
  }

  /** The caller makes function `chunk`. */
  lemma Makes(pr: Program, s: State, chunk: nat, pooled: bool)
    requires AstrayProgram(pr) && 1 <= chunk < 3 && s.frames == [Frame(0, 0, 8 * (chunk - 1), 0)]
    ensures Step(pr, s, pooled)
            == Go(s.(frames := [Frame(0, 0, 8 * chunk - 3, 0)], stack := s.stack + [Ref(|s.objs|)], objs := s.objs + [FunObj(chunk, 0)]))
  {
    hide AstrayProgram, Step, InstrAt;
    AstrayInstrs();
    AstrayStep(pr, s, pooled);
  }

  /** The caller calls the function it made. */
  lemma Calls(pr: Program, s: State, chunk: nat, pooled: bool)
    requires AstrayProgram(pr) && 1 <= chunk < 3 && s.frames == [Frame(0, 0, 8 * chunk - 3, 0)]
    ensures Step(pr, s, pooled) == DoCall(pr, s.(frames := [Frame(0, 0, 8 * chunk, 0)]), 0, pooled)
  {
    hide AstrayProgram, Step, InstrAt, DoCall;
    AstrayInstrs();
    AstrayStep(pr, s, pooled);
    assert SetIP(s, 8 * chunk) == s.(frames := [Frame(0, 0, 8 * chunk, 0)]);
    if chunk == 1 { assert Width(CALLER.code[5]) == 2; } else { assert Width(CALLER.code[13]) == 2; }
  }

  lemma MakesAndCalls(pr: Program, s: State, chunk: nat, pooled: bool) returns (s1: State, s2: State)
    requires AstrayProgram(pr) && 1 <= chunk < 3 && s.frames == [Frame(0, 0, 8 * (chunk - 1), 0)] && s.envs != []
    requires s.pool != [] ==> s.pool == [1] && |s.envs| == 2
    ensures Step(pr, s, pooled) == Go(s1) && Step(pr, s1, pooled) == Go(s2)
    ensures
      var n, frames, objs := pr.chunks[chunk].locals, [Frame(0, 0, 8 * chunk, 0)], s.objs + [FunObj(chunk, 0)];
      s2 == if pooled && s.pool != [] then
              s.(envs := s.envs[1 := Env(if |s.envs[1].elements| < n then Undefineds(n) else s.envs[1].elements, Some(0))],
                 objs := objs, pool := [], frames := frames + [Frame(chunk, 1, 0, |s.stack|)])
            else s.(envs := s.envs + [Env(Undefineds(n), Some(0))], objs := objs, frames := frames + [Frame(chunk, |s.envs|, 0, |s.stack|)])
  {
    hide AstrayProgram, DoCall, Step, Undefineds;
    s1 := s.(frames := [Frame(0, 0, 8 * chunk - 3, 0)], stack := s.stack + [Ref(|s.objs|)], objs := s.objs + [FunObj(chunk, 0)]);
    Makes(pr, s, chunk, pooled);
    Calls(pr, s1, chunk, pooled);
    var t := s1.(frames := [Frame(0, 0, 8 * chunk, 0)]);
    PlainCall(pr, t, chunk, pooled);
    assert t.stack[..|t.stack| - 1] == s.stack;
    s2 := DoCall(pr, t, 0, pooled).s;
  }

  lemma CallRoomy(pr: Program, store: Store, pooled: bool)
    requires AstrayProgram(pr)
    ensures Run(pr, Go(Start(0, [], store)), 3, pooled) == Go(RoomyDone(store, pooled))
  {
    hide AstrayProgram, InstrAt, Step, Undefineds, DoReturn, Run;
    AstrayInstrs();
    AstrayLocals(pr);
    var s0 := Start(0, [], store);
    var s1, s2 := MakesAndCalls(pr, s0, 1, pooled);
    assert s2 == State([Env([], None), Env(Undefineds(8), Some(0))], [Frame(0, 0, 8, 0), Frame(1, 1, 0, 0)], [], [FunObj(1, 0)], store, []);
    AstrayStep(pr, s2, pooled);
    assert SetIP(s2, 1).frames == [Frame(0, 0, 8, 0), Frame(1, 1, 1, 0)];
    RoomyReturns(pr, store, pooled);
    RunThree(pr, s0, s1, s2, pooled);
  }

  lemma AstrayLocals(pr: Program)
    requires AstrayProgram(pr)
    ensures |pr.chunks| == 3 && pr.chunks[1].locals == 8 && pr.chunks[2].locals == 1 && |pr.chunks[2].code| == 12
  {
    hide Accepts, Cells;
  }

  lemma {:induction false} RunAdd(pr: Program, k: Conf, a: nat, b: nat, pooled: bool)
    ensures Run(pr, k, a + b, pooled) == Run(pr, Run(pr, k, a, pooled), b, pooled)
    decreases a
  {
    hide Step;
    if a > 0 && k.Go? { RunAdd(pr, Step(pr, k.s, pooled), a - 1, b, pooled); }
    else if !k.Go? { assert Run(pr, k, a, pooled) == k; }
  }

  lemma RunThree(pr: Program, s0: State, s1: State, s2: State, pooled: bool)
    requires Step(pr, s0, pooled) == Go(s1) && Step(pr, s1, pooled) == Go(s2)
    ensures Run(pr, Go(s0), 3, pooled) == Step(pr, s2, pooled)
  {
    hide Step;
    assert Run(pr, Go(s1), 2, pooled) == Run(pr, Go(s2), 1, pooled);
    assert Run(pr, Step(pr, s2, pooled), 0, pooled) == Step(pr, s2, pooled);
  }

  lemma RoomyReturns(pr: Program, store: Store, pooled: bool)
    requires AstrayProgram(pr)
    ensures DoReturn(pr, State([Env([], None), Env(Undefineds(8), Some(0))], [Frame(0, 0, 8, 0), Frame(1, 1, 1, 0)], [], [FunObj(1, 0)], store, []),
                     Undefined, pooled) == Go(RoomyDone(store, pooled))
  {
    hide Accepts, Cells;
    AstrayAccepted();
    assert SetPoint([FunObj(1, 0)], 1, Finished) == [FunObj(1, 0)];
  }

  /** Function 2 has been called and has jumped. */
  function Astray(store: Store, pooled: bool): State {
    State([Env([], None), Env(Undefineds(8), Some(0))] + (if pooled then [] else [Env(Undefineds(1), Some(0))]),
          [Frame(0, 0, 16, 0), Frame(2, if pooled then 1 else 2, 6, 1)], [Undefined], [FunObj(1, 0), FunObj(2, 0)], store, [])
  }

  lemma GoAstray(pr: Program, store: Store, pooled: bool)
    requires AstrayProgram(pr)
    ensures Run(pr, Go(RoomyDone(store, pooled)), 3, pooled) == Go(Astray(store, pooled))
  {
    hide AstrayProgram, InstrAt, Step, Run;
    AstrayInstrs();
    AstrayLocals(pr);
    var s0, s3 := RoomyDone(store, pooled), Astray(store, pooled);
    var s1, s2 := MakesAndCalls(pr, s0, 2, pooled);
    assert s2 == s3.(frames := s3.frames[1 := s3.frames[1].(ip := 0)]);
    AstrayStep(pr, s2, pooled);
    assert SetIP(SetIP(s2, 5), 6) == s3;
    RunThree(pr, s0, s1, s2, pooled);
  }

  lemma AstrayReads(pr: Program, store: Store, pooled: bool)
    requires AstrayProgram(pr)
    ensures Step(pr, Astray(store, pooled), pooled).Go? == pooled
    ensures !pooled ==> Step(pr, Astray(store, pooled), pooled) == Fault
  {
    hide Accepts, InstrAt;
    AstrayInstrs();
    AstrayStep(pr, Astray(store, pooled), pooled);
  }

  lemma AstrayRun(pr: Program, store: Store, pooled: bool)
    requires AstrayProgram(pr)
    ensures Run(pr, Go(Start(0, [], store)), 7, pooled) == Step(pr, Astray(store, pooled), pooled)
  {
    hide Accepts, InstrAt, Step;
    var k := Go(Start(0, [], store));
    CallRoomy(pr, store, pooled);
    GoAstray(pr, store, pooled);
    RunAdd(pr, k, 3, 4, pooled);
    RunAdd(pr, Go(RoomyDone(store, pooled)), 3, 1, pooled);
    var t := Step(pr, Astray(store, pooled), pooled);
    assert Run(pr, t, 0, pooled) == t;
  }

  /** A scan that follows every instruction is not enough: with a jump into an operand in a chunk it accepts,
      the recycled environment shows. */
  lemma AstrayVisible(pr: Program, store: Store)
    requires AstrayProgram(pr)
    ensures Run(pr, Go(Start(0, [], store)), 7, false) == Fault
    ensures Run(pr, Go(Start(0, [], store)), 7, true).Go?
    ensures !LandsOnLine(pr.chunks[2])
  {
    hide Accepts, Step, Run;
    AstrayRun(pr, store, true);
    AstrayRun(pr, store, false);
    AstrayReads(pr, store, true);
    AstrayReads(pr, store, false);
    AstrayLanding(pr);
  }

  lemma AstrayLanding(pr: Program)
    requires AstrayProgram(pr)
    ensures !LandsOnLine(pr.chunks[2])
  {
    hide Accepts, InstrAt;
    AstrayInstrs();
    var a := pr.chunks[2].code;
    assert a == Cells(ASTRAY) && StartsAt(a, 0, 0) && 6 in Targets(a[0].instr);
    NextStart(ASTRAY, 0);
    NextStart(ASTRAY, 5);
    assert !OnLine(a, 6);
  }

  // ---------- The pool in place ----------

  class Vm {
    const pr: Program
    var envs: seq<Env>
    var frames: seq<Frame>
    var stack: seq<Value>
    var objs: seq<Obj>
    var store: Store
    var safeEnvs: seq<nat>

    ghost function State_(): State
      reads this
    {
      State(envs, frames, stack, objs, store, safeEnvs)
    }

    constructor (pr: Program, s: State)
      ensures this.pr == pr && State_() == s
    {
      this.pr, envs, frames, stack, objs, store, safeEnvs := pr, s.envs, s.frames, s.stack, s.objs, s.store, s.pool;
    }

    method NewEnv(n: nat, parent: nat) returns (e: nat)
      modifies this`envs
      ensures e == |old(envs)| && envs == old(envs) + [Env(Undefineds(n), Some(parent))]
    {
      e := |envs|;
      envs := envs + [Env(Undefineds(n), Some(parent))];
    }

    method AcquireFrameEnv(chunk: nat, parent: nat) returns (e: nat)
      requires chunk < |pr.chunks| && forall k :: 0 <= k < |safeEnvs| ==> safeEnvs[k] < |envs|
      modifies this`envs, this`safeEnvs
      ensures (State_(), e) == Acquire(pr, old(State_()), chunk, parent, true)
    {
      var c := pr.chunks[chunk];
      if !c.safe || safeEnvs == [] {
        e := NewEnv(c.locals, parent);
        return;
      }
      var i := |safeEnvs| - 1;
      e := safeEnvs[i];
      if |envs[e].elements| < c.locals { envs := envs[e := envs[e].(elements := Undefineds(c.locals))]; }
      envs := envs[e := envs[e].(parent := Some(parent))];
      assert envs == old(envs)[e := Env(envs[e].elements, Some(parent))];
      safeEnvs := safeEnvs[..i];
    }

    /** Clears the environment of frame i and keeps it if there is room. */
    method ReleaseFrameEnv(i: nat)
      requires i < |frames| && frames[i].env < |envs|
      modifies this`envs, this`safeEnvs
      ensures State_() == Release(pr, old(State_()), frames[i], true)
    {
      var fr := frames[i];
      if !Safe(pr, fr.chunk) { return; }
      var e := fr.env;
      var els := envs[e].elements;
      ghost var n := |els|;
      for j := 0 to |els|
        invariant |els| == n && forall l :: 0 <= l < j ==> els[l] == Undefined
      {
        els := els[j := Undefined];
      }
      assert els == Undefineds(n);
      envs := envs[e := Env(els, None)];
      if |safeEnvs| < Limit(pr) { safeEnvs := safeEnvs + [e]; }
    }

    /** Abandons every frame above the boundary, as an error that leaves the machine does. */
    method RestoreFrameBoundary(keep: nat, height: nat)
      requires forall i :: 0 <= i < |frames| ==> frames[i].env < |envs|
      modifies this`envs, this`safeEnvs, this`frames, this`stack
      ensures State_() == Restored(pr, old(State_()), keep, height, true)
    {
      while |frames| > keep
        invariant forall i :: 0 <= i < |frames| ==> frames[i].env < |envs|
        invariant DropTo(pr, State_(), keep, true) == DropTo(pr, old(State_()), keep, true)
        decreases |frames|
      {
        var i := |frames| - 1;
        ReleaseFrameEnv(i);
        frames := frames[..i];
      }
      if height < |stack| { stack := stack[..height]; }
    }
  }

  /** Frames above `keep` dropped from the top, each giving its environment back. */
  function DropTo(pr: Program, s: State, keep: nat, pooled: bool): State
    decreases |s.frames|
  {
    if |s.frames| <= keep then s
    else DropTo(pr, DropFrame(pr, s, pooled), keep, pooled)
  }

  function DropFrame(pr: Program, s: State, pooled: bool): (r: State)
    requires s.frames != []
    ensures |r.frames| == |s.frames| - 1
  {
    Release(pr, s, Top(s), pooled).(frames := s.frames[..|s.frames| - 1])
  }

  function Restored(pr: Program, s: State, keep: nat, height: nat, pooled: bool): State {
    var s1 := DropTo(pr, s, keep, pooled);
    s1.(stack := Truncate(s1.stack, height))
  }

  lemma DropRel(pr: Program, p: State, f: State, m: Ids) returns (m1: Ids)
    requires Rel(pr, p, f, m) && p.frames != []
    ensures f.frames != [] && Rel(pr, DropFrame(pr, p, true), DropFrame(pr, f, false), m1)
  {
    hide Rel;
    SameStack(pr, p, f, m);
    m1 := PopRel(pr, p, f, m);
    RelStack(pr, PopFrame(pr, p, true), PopFrame(pr, f, false), m1, p.stack, p.store);
  }

  lemma {:induction false} DropToRel(pr: Program, p: State, f: State, m: Ids, keep: nat) returns (m1: Ids)
    requires Rel(pr, p, f, m)
    ensures Rel(pr, DropTo(pr, p, keep, true), DropTo(pr, f, keep, false), m1)
    decreases |p.frames|
  {
    hide Rel, DropFrame;
    m1 := m;
    SameStack(pr, p, f, m);
    if |p.frames| > keep {
      m1 := DropRel(pr, p, f, m);
      m1 := DropToRel(pr, DropFrame(pr, p, true), DropFrame(pr, f, false), m1, keep);
    }
  }

  /** Abandoning frames is not observable either: the machines stay related. */
  lemma RestoreRel(pr: Program, p: State, f: State, m: Ids, keep: nat, height: nat) returns (m1: Ids)
    requires Rel(pr, p, f, m)
    ensures Rel(pr, Restored(pr, p, keep, height, true), Restored(pr, f, keep, height, false), m1)
  {
    hide Rel, DropTo;
    m1 := DropToRel(pr, p, f, m, keep);
    var p1, f1 := DropTo(pr, p, keep, true), DropTo(pr, f, keep, false);
    SameStack(pr, p1, f1, m1);
    RelStack(pr, p1, f1, m1, Truncate(p1.stack, height), p1.store);
  }
}
