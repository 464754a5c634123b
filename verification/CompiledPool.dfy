/** The code of the compiler meets what the pool's theorem asks of jumps. */
module CompiledPool {
  import Bytecode
  import Source
  import CodeGen
  import StatementSim
  import Aligned
  import opened EnvMachine
  import opened EnvPoolRefines
  import opened FrameEnv

  /** The chunk has the bytes the compiler emits for f, which has no exception handlers. */
  predicate CodeOf(c: ByteChunk, f: Source.Function) {
    var code := CodeGen.Compile(f).code;
    c.handlers == [] && |c.code| == |code| && forall i :: 0 <= i < |code| ==> c.code[i] as int == code[i]
  }

  predicate Compilable(f: Source.Function) {
    StatementSim.JumpsL(f.body, []) && |CodeGen.Compile(f).code| < Aligned.LIMIT
  }

  /** On the compiler's opcodes the scan reads operands as long as the compiler writes. */
  lemma SameWidth(b: byte)
    requires Bytecode.ByteOp(b as int).Some?
    ensures Width(b) == Aligned.OperandBytes(b as int)
  {}

  /** Reading on from a start is reading on from any start before it. */
  lemma {:induction false} ReadsOn(code: seq<int>, from: nat, mid: nat, at: nat)
    requires Aligned.Reaches(code, from, mid) && mid <= at
    ensures Aligned.Reaches(code, from, at) <==> Aligned.Reaches(code, mid, at)
    decreases |code| - from
  {
    if from != mid { ReadsOn(code, from + 1 + Aligned.OperandBytes(code[from]), mid, at); }
  }

  /** The next instruction starts inside the code too. */
  lemma NextInside(code: seq<int>, from: nat)
    requires Aligned.Inside(code, |code|) && Aligned.Inside(code, from) && from < |code|
    ensures Aligned.Inside(code, from + 1 + Aligned.OperandBytes(code[from]))
  {
    hide Aligned.OperandBytes;
    var next := from + 1 + Aligned.OperandBytes(code[from]);
    ReadsOn(code, 0, from, |code|);
    assert Aligned.Reaches(code, next, |code|);
    ReadsOn(code, 0, from, next);
    assert Aligned.Reaches(code, next, next);
  }

  /** Both readings of the code meet the same instructions. */
  lemma {:induction false} SameStarts(f: Source.Function, c: ByteChunk, from: nat, at: nat)
    requires Compilable(f) && CodeOf(c, f) && Aligned.Inside(CodeGen.Compile(f).code, from)
    ensures StartsAt(Cells(c), from, at) <==> Aligned.Reaches(CodeGen.Compile(f).code, from, at)
    decreases |c.code| - from
  {
    var code := CodeGen.Compile(f).code;
    hide CodeGen.Compile, StatementSim.JumpsL, Width, Aligned.OperandBytes, Aligned.Inside;
    if from < at && from < |code| {
      Aligned.JumpsLand(f, from);
      SameWidth(c.code[from]);
      assert Cells(c)[from].width == Width(c.code[from]);
      NextInside(code, from);
      SameStarts(f, c, from + 1 + Width(c.code[from]), at);
    }
  }

  /** A jump of the machine goes where the compiler meant it to. */
  lemma SameTarget(f: Source.Function, c: ByteChunk, at: nat)
    requires CodeOf(c, f) && at + 5 <= |c.code| && Aligned.IsJump(c.code[at] as int) && Aligned.Goes(CodeGen.Compile(f).code, at) >= 0
    ensures Targets(InstrAt(c, at)) == {Aligned.Goes(CodeGen.Compile(f).code, at)}
  {
    var code := CodeGen.Compile(f).code;
    hide CodeGen.Compile;
    assert code[at + 1..at + 5] == [code[at + 1], code[at + 2], code[at + 3], code[at + 4]];
  }

  lemma JumpTargets(c: ByteChunk, at: nat)
    requires at < |c.code|
    ensures Targets(InstrAt(c, at)) != {} ==> Aligned.IsJump(c.code[at] as int)
  {}

  /** Compiled jumps land where the machine reads instructions. */
  lemma CompiledLands(f: Source.Function, c: ByteChunk, safe: bool)
    requires Compilable(f) && CodeOf(c, f)
    ensures LandsOnLine(Decode(c, safe))
  {
    var code, cells := CodeGen.Compile(f).code, Cells(c);
    hide CodeGen.Compile, StatementSim.JumpsL, InstrAt, Targets, Aligned.Goes;
    Aligned.JumpsLand(f, 0);
    forall ip, to | 0 <= ip < |cells| && StartsAt(cells, 0, ip) && to in Targets(cells[ip].instr) ensures OnLine(cells, to) {
      JumpTargets(c, ip);
      SameStarts(f, c, 0, ip);
      Aligned.JumpsLand(f, ip);
      SameTarget(f, c, ip);
      if to < |cells| { SameStarts(f, c, 0, to); }
    }
  }

  /** In programs whose accepted chunks are the compiler's, recycling decided by the scan is not observable: nothing is
      asked of the jumps. */
  lemma CompiledScanEnough(pr: Program, cs: seq<ByteChunk>, fs: seq<Source.Function>, chunk: nat, els: seq<Value>, store: Store, n: nat)
    requires |pr.chunks| == |cs| == |fs| && !Safe(pr, chunk)
    requires forall i :: 0 <= i < |cs| ==> pr.chunks[i] == Decode(cs[i], Accepts(cs[i]))
    requires forall i :: 0 <= i < |cs| && Accepts(cs[i]) ==> Compilable(fs[i]) && CodeOf(cs[i], fs[i])
    ensures SameRun(Run(pr, Go(Start(chunk, els, store)), n, true), Run(pr, Go(Start(chunk, els, store)), n, false))
  {
    hide Accepts, LandsOnLine, Decode, SameRun, Run, CodeOf, Compilable;
    forall i | 0 <= i < |cs| && Accepts(cs[i]) ensures LandsOnLine(pr.chunks[i]) { CompiledLands(fs[i], cs[i], true); }
    ScanEnough(pr, cs, chunk, els, store, n);
  }

  /** The bytes of an instruction as the compiler writes them stand at ip. */
  predicate WrittenAt(c: ByteChunk, ip: nat, op: Bytecode.Op, arg: int) {
    && 0 <= arg < Bytecode.TWO32 && ip + 1 + Bytecode.Width(op) <= |c.code| && c.code[ip] as int == Bytecode.OpByte(op)
    && (Bytecode.Width(op) == 4 ==>
          forall i :: 0 <= i < 4 ==> c.code[ip + 1 + i] as int == Bytecode.LE32(arg)[i])
  }

  /** What the compiler writes as an access to a variable, a jump, a constant, a return or a throw the environment machine
      reads as that; everything else of the fragment sees operands and store alone. */
  lemma ReadsWhatIsWritten(c: ByteChunk, ip: nat, op: Bytecode.Op, arg: int)
    requires WrittenAt(c, ip, op, arg)
    ensures var to := ip + 5 + Bytecode.Signed(arg);
      var there := if to < 0 then |c.code| + 1 else to;
      InstrAt(c, ip) ==
        if op.OpGetLocal? then GetVar(arg / 65536, arg % 65536)
        else if op.OpSetLocal? then SetVar(arg / 65536, arg % 65536)
        else if op.OpJump? then Jump(there)
        else if op.OpJumpIfFalse? then JumpIfFalse(there)
        else if op.OpJumpIfTrue? then JumpIfTrue(there)
        else if op.OpReturn? then Return
        else if op.OpThrow? then Throw
        else if op.OpInt32? then Literal(Bytecode.Signed(arg))
        else if op.OpConst? && arg >= |c.consts| then Broken
        else if op.OpConst? && c.consts[arg].FunctionConst? then MakeFunction(c.consts[arg].chunk)
        else Data(c.code[ip] as int, if Bytecode.Width(op) == 4 then arg else 0)
  {
    hide Cells;
    WrittenOperand(c, ip, op, arg);
    hide Operand, Bytecode.LE32;
  }

  lemma WrittenOperand(c: ByteChunk, ip: nat, op: Bytecode.Op, arg: int)
    requires WrittenAt(c, ip, op, arg)
    ensures Width(c.code[ip]) == Bytecode.Width(op) && ip + 1 + Width(c.code[ip]) <= |c.code|
    ensures Operand(c.code, ip) == if Bytecode.Width(op) == 4 then arg else 0
  {
    if Bytecode.Width(op) == 4 {
      Bytecode.WordRoundTrip(arg);
      var b := Bytecode.LE32(arg);
      assert c.code[ip + 1] as int == b[0] && c.code[ip + 1 + 1] as int == b[1] && c.code[ip + 1 + 2] as int == b[2] && c.code[ip + 1 + 3] as int == b[3];
      hide Bytecode.LE32;
    }
  }
}
