/**
 The interpreter loop as it runs: one frame whose instruction pointer, operand stack,
 local slots and globals are updated in place, and a gas counter that falls before each
 instruction.  It computes `Bytecode.RunGas`; put after the compiler, it computes the
 source interpreter.
 */
module VmRun {
  import opened Options
  import opened Values
  import opened Bytecode
  import opened Source
  import opened CodeGen
  import opened Simulation
  import opened StatementSim
  import opened CompilerCorrect
  import opened CaseLets
  import opened CompilerRun

  class Vm {
    const p: Prims
    const chunk: Chunk
    var ip: int
    var stack: seq<Value>
    var locals: seq<Value>
    var globals: Globals
    var gasLeft: int

    ghost function State(): Machine
      reads this
    {
      Machine(ip, stack, locals, globals)
    }

    /** A frame for a call: arguments in the parameter slots, the rest Undefined. */
    constructor (p: Prims, chunk: Chunk, args: seq<Value>, g: Globals, gas: int)
      ensures this.p == p && this.chunk == chunk && gasLeft == gas
      ensures State() == InitMachine(chunk, args, g)
    {
      this.p, this.chunk, this.ip, this.stack, this.globals, this.gasLeft := p, chunk, 0, [], g, gas;
      var slots := seq(chunk.locals, _ => Undefined);
      var i := 0;
      while i < chunk.locals
        invariant 0 <= i <= |slots| == chunk.locals
        invariant forall j :: 0 <= j < chunk.locals ==>
          slots[j] == if j < i then ArgAt(args, chunk.params, j) else Undefined
      {
        if i < chunk.params && i < |args| { slots := slots[i := args[i]]; }
        i := i + 1;
      }
      this.locals := slots;
    }

    method Push(v: Value)
      modifies this`stack
      ensures stack == old(stack) + [v]
    {
      stack := stack + [v];
    }

    method Pop() returns (v: Value)
      modifies this`stack
      ensures v == Peek(old(stack), 0) && stack == Drop(old(stack), 1)
    {
      if stack == [] { return Undefined; }
      v := stack[|stack| - 1];
      stack := stack[..|stack| - 1];
    }

    /** Replaces the n topmost values by the result, or stops on its exception. */
    method Settle(n: nat, r: Res) returns (stop: Option<Result>)
      modifies this`stack
      ensures match r
              case Val(v) => stop.None? && stack == Drop(old(stack), n) + [v]
              case Thr(v) => stop == Some(Thrown(v)) && stack == old(stack)
    {
      stop := None;
      match r {
        case Val(v) =>
          stack := Drop(stack, n);
          Push(v);
        case Thr(v) => stop := Some(Thrown(v));
      }
    }

    method ApplyJump(arg: int) returns (stop: Option<Result>)
      modifies this`ip
      ensures match Jump(chunk, old(State()), arg)
              case Go(m) => stop.None? && State() == m
              case Halt(r, g) => stop == Some(r) && globals == g
    {
      stop := None;
      var to := ip + Signed(arg);
      if to < 0 || to > |chunk.code| { return Some(Fault); }
      ip := to;
    }

    /** The string constant at index i, or none: out of the table, or of another kind. */
    method ConstText(i: int) returns (x: Option<string>)
      ensures x == if 0 <= i < |chunk.consts| && chunk.consts[i].StrConst? then Some(chunk.consts[i].s) else None
    {
      x := None;
      if 0 <= i < |chunk.consts| && chunk.consts[i].StrConst? { x := Some(chunk.consts[i].s); }
    }

    /** One instruction, the instruction pointer already past it. */
    method Step(op: Op, arg: int) returns (stop: Option<Result>)
      modifies this`ip, this`stack, this`locals, this`globals
      ensures match Execute(p, chunk, op, arg, old(State()))
              case Go(m) => stop.None? && State() == m
              case Halt(r, g) => stop == Some(r) && globals == g
    {
      hide Signed;
      stop := None;
      match op {
        case OpUndefined => Push(Undefined);
        case OpNull => Push(Null);
        case OpTrue => Push(Bool(true));
        case OpFalse => Push(Bool(false));
        case OpInt32 => Push(Int(Signed(arg)));
        case OpConst =>
          if !(0 <= arg < |chunk.consts|) { return Some(Fault); }
          match chunk.consts[arg] {
            case NumConst(b) => Push(Num(b));
            case StrConst(s) => Push(Str(s));
          }
        case OpPop => var _ := Pop();
        case OpDup => Push(Peek(stack, 0));
        case OpBin(b) => stop := Settle(2, p.Binary(b, Peek(stack, 1), Peek(stack, 0)));
        case OpNeg => stop := Settle(1, p.Unary(Neg, Peek(stack, 0)));
        case OpPos => stop := Settle(1, p.Unary(Pos, Peek(stack, 0)));
        case OpBitNot => stop := Settle(1, p.Unary(BitNot, Peek(stack, 0)));
        case OpNot => stop := Settle(1, p.Unary(Not, Peek(stack, 0)));
        case OpTypeof => stop := Settle(1, p.Unary(Typeof, Peek(stack, 0)));
        case OpIsNullish =>
          var v := Pop();
          Push(Bool(Nullish(v)));
        case OpGetLocal =>
          if arg / 65536 != 0 || arg % 65536 >= |locals| { return Some(Fault); }
          if locals[arg % 65536] == Tdz { return Some(Thrown(ReferenceError("binding"))); }
          Push(locals[arg % 65536]);
        case OpSetLocal =>
          if arg / 65536 != 0 || arg % 65536 >= |locals| { return Some(Fault); }
          locals := locals[arg % 65536 := Peek(stack, 0)];
        case OpGetGlobal =>
          var x := ConstText(arg);
          if x.None? { return Some(Fault); }
          stop := Settle(0, ReadGlobal(globals, x.value));
        case OpGetGlobalSoft =>
          var x := ConstText(arg);
          if x.None? { return Some(Fault); }
          Push(ReadGlobalSoft(globals, x.value));
        case OpSetGlobal =>
          var x := ConstText(arg);
          if x.None? { return Some(Fault); }
          if WriteRefused(globals, x.value, p.strict) { return Some(Thrown(ReferenceError(x.value))); }
          globals := globals[x.value := Peek(stack, 0)];
        case OpJump => stop := ApplyJump(arg);
        case OpJumpIfFalse =>
          var v := Pop();
          if !Truthy(v) { stop := ApplyJump(arg); }
        case OpJumpIfTrue =>
          var v := Pop();
          if Truthy(v) { stop := ApplyJump(arg); }
        case OpReturn => stop := Some(Returned(Peek(stack, 0)));
        case OpThrow => stop := Some(Thrown(Peek(stack, 0)));
      }
    }

    /** Runs until the frame ends or the gas is used up. */
    method Interpret() returns (r: Result)
      requires 0 <= ip
      modifies this
      ensures (r, globals) == RunGas(p, chunk, old(State()), old(gasLeft))
    {
      hide Execute;
      while true
        invariant 0 <= ip && RunGas(p, chunk, State(), gasLeft) == RunGas(p, chunk, old(State()), old(gasLeft))
        decreases if gasLeft > 0 then gasLeft else 0
      {
        if ip >= |chunk.code| { return Returned(Undefined); }
        gasLeft := gasLeft - 1;
        if gasLeft <= 0 { return GasExhausted; }
        ghost var m0 := State();
        var op := ByteOp(chunk.code[ip]);
        if op.None? { return Fault; }
        var arg := 0;
        ip := ip + 1;
        if Width(op.value) == 4 {
          if ip + 4 > |chunk.code| { return Fault; }
          arg := UnLE32(chunk.code[ip..ip + 4]);
          ip := ip + 4;
        }
        assert Fetch(chunk.code, m0.ip) == Fetched(op.value, arg, ip);
        StaysInside(p, chunk, op.value, arg, State());
        var stop := Step(op.value, arg);
        if stop.Some? { return stop.value; }
      }
    }
  }

  /** Compiles a function and calls it.  Unless the gas runs out, the outcome and the globals
      are those of the source interpreter, however much fuel that is given: of the function itself,
      or of the one with the lets of cases turned into assignments where it has any. */
  method CallFunction(p: Prims, f: Function, args: seq<Value>, g: Globals, gas: int) returns (r: Result, g1: Globals)
    requires JumpsL(f.body, [])
    ensures (r, g1) == RunGas(p, Compile(f), InitMachine(Compile(f), args, g), gas)
    ensures forall fuel: nat :: WfFunction(f) && Fits(Compile(f)) && r != GasExhausted && fuel > 0 && fuel > gas ==>
      var (o, g2) := Run(Unconverted(p), PlainFunction(f), args, g, fuel);
      (o.Ret? || o.Exc?) && (r, g1) == (AsResult(o), g2)
    ensures NoCaseLetsL(f.body) ==> PlainFunction(f) == f
  {
    hide Compile, RunGas, Run, InitMachine, WfFunction, NoCaseLetsL, PlainFunction, JumpsL;
    var chunk := CompileFunction(f);
    var vm := new Vm(p, chunk, args, g, gas);
    StartsAtZero(chunk, args, g);
    r := vm.Interpret();
    g1 := vm.globals;
    forall fuel: nat | WfFunction(f) && Fits(Compile(f)) && r != GasExhausted && fuel > 0 && fuel > gas
      ensures var (o, g2) := Run(Unconverted(p), PlainFunction(f), args, g, fuel); (o.Ret? || o.Exc?) && (r, g1) == (AsResult(o), g2)
    {
      RunIsPlain(p, f, args, g, gas, fuel);
    }
    if NoCaseLetsL(f.body) { PlainFunctionSame(f); }
  }

  lemma StartsAtZero(c: Chunk, args: seq<Value>, g: Globals)
    ensures InitMachine(c, args, g).ip == 0
  {}

  lemma StaysInside(p: Prims, c: Chunk, op: Op, arg: int, m: Machine)
    requires 0 <= m.ip
    ensures Execute(p, c, op, arg, m).Go? ==> 0 <= Execute(p, c, op, arg, m).m.ip
  {}
}
