/** Values and the language's primitive operators, taken as parameters: the compiler and
    the interpreter agree on them whatever they compute. */
module Values {
  datatype Value =
    | Undefined | Null | Bool(b: bool) | Int(i: int) | Num(bits: nat) | Str(s: string)
    | BigInt(n: int) | Symbol(id: nat) | Obj(id: nat) | ReferenceError(msg: string)
    | Tdz  // the token a binding holds before its declaration runs

  /** An operator's result, or the exception it throws. */
  datatype Res = Val(v: Value) | Thr(v: Value)

  datatype BinOp =
    | Add | Sub | Mul | Div | Mod | Pow | BitAnd | BitOr | BitXor | Shl | Shr | UShr
    | Eq | Ne | StrictEq | StrictNe | Lt | Gt | Le | Ge | Instanceof | In

  datatype UnOp = Neg | Pos | Not | BitNot | Typeof | Void

  /** ++ and -- add the number to their operand as it is, or convert it first, as the language asks. */
  datatype Counting = AsIs | Converted(toNumeric: Value -> Res)

  datatype Prims = Prims(
    arith: (BinOp, Value, Value) -> Res,
    numeric: (UnOp, Value) -> Res,
    looseEq: (Value, Value) -> bool,
    strictEq: (Value, Value) -> bool,
    typeOf: Value -> string,
    strict: bool,
    counting: Counting)
  {
    /** What ++ and -- make of their operand before they add to it. */
    function Operand(v: Value): Res {
      match counting
      case AsIs => Val(v)
      case Converted(f) => f(v)
    }

    /** What they come to: a converted operand gets one unit of its own type. */
    function Count(n: Value, delta: int): Res {
      if counting.Converted? && n.BigInt? then Val(BigInt(n.n + delta)) else Binary(Add, n, Int(delta))
    }

    function Binary(op: BinOp, a: Value, b: Value): Res {
      match op
      case Eq => Val(Bool(looseEq(a, b)))
      case Ne => Val(Bool(!looseEq(a, b)))
      case StrictEq => Val(Bool(strictEq(a, b)))
      case StrictNe => Val(Bool(!strictEq(a, b)))
      case _ => arith(op, a, b)
    }

    function Unary(op: UnOp, a: Value): Res {
      match op
      case Not => Val(Bool(!Truthy(a)))
      case Typeof => Val(Str(typeOf(a)))
      case Void => Val(Undefined)
      case _ => numeric(op, a)
    }
  }

  function Unconverted(p: Prims): Prims { p.(counting := AsIs) }

  /** Whether a double, given by its bits, is neither a zero nor NaN. */
  predicate CountsAsTrue(bits: nat) { 0 < bits % 0x8000_0000_0000_0000 <= 0x7FF0_0000_0000_0000 }

  predicate Truthy(v: Value) {
    match v
    case Undefined | Null => false
    case Bool(b) => b
    case Int(i) => i != 0
    case Num(bits) => CountsAsTrue(bits)
    case Str(s) => s != ""
    case BigInt(n) => n != 0
    case Symbol(_) | Obj(_) | ReferenceError(_) | Tdz => true
  }

  predicate Nullish(v: Value) { v == Null || v == Undefined }

  // ---------- Global variables ----------

  type Globals = map<string, Value>

  const TDZ_NAME: string := "\0tdz"

  function Bound(g: Globals, x: string): (r: (Value, bool)) {
    if x == TDZ_NAME then (Tdz, true) else if x in g then (g[x], true) else (Undefined, false)
  }

  function ReadGlobal(g: Globals, x: string): Res {
    var (v, ok) := Bound(g, x);
    if !ok || (v == Tdz && x != TDZ_NAME) then Thr(ReferenceError(x)) else Val(v)
  }

  function ReadGlobalSoft(g: Globals, x: string): Value { Bound(g, x).0 }

  /** Whether an assignment to the global x is refused. */
  predicate WriteRefused(g: Globals, x: string, strict: bool) {
    (x in g && g[x] == Tdz) || (strict && !Bound(g, x).1)
  }
}

/** Byte code: the opcodes the fragment uses, their encoding, and one machine step. */
module Bytecode {
  import opened Options
  import opened Values

  datatype Op =
    | OpUndefined | OpNull | OpTrue | OpFalse | OpInt32 | OpConst | OpPop | OpDup
    | OpBin(bin: BinOp)
    | OpNeg | OpPos | OpBitNot | OpNot | OpTypeof | OpIsNullish
    | OpGetLocal | OpSetLocal | OpGetGlobal | OpSetGlobal | OpGetGlobalSoft
    | OpJump | OpJumpIfFalse | OpJumpIfTrue
    | OpReturn | OpThrow

  /** Width of an opcode's operand in bytes. */
  function Width(op: Op): nat {
    match op
    case OpInt32 | OpConst | OpGetLocal | OpSetLocal | OpGetGlobal | OpSetGlobal | OpGetGlobalSoft
      | OpJump | OpJumpIfFalse | OpJumpIfTrue => 4
    case _ => 0
  }

  function BinByte(b: BinOp): nat {
    match b
    case Add => 9 case Sub => 10 case Mul => 11 case Div => 12 case Mod => 13 case Pow => 14
    case BitAnd => 17 case BitOr => 18 case BitXor => 19 case Shl => 21 case Shr => 22 case UShr => 23
    case Eq => 24 case Ne => 25 case StrictEq => 26 case StrictNe => 27
    case Lt => 28 case Gt => 29 case Le => 30 case Ge => 31 case Instanceof => 32 case In => 33
  }

  function OpByte(op: Op): nat {
    match op
    case OpUndefined => 1 case OpNull => 2 case OpTrue => 3 case OpFalse => 4
    case OpInt32 => 5 case OpConst => 6 case OpPop => 7 case OpDup => 8
    case OpBin(b) => BinByte(b)
    case OpNeg => 15 case OpPos => 16 case OpBitNot => 20
    case OpNot => 34 case OpTypeof => 35 case OpIsNullish => 36
    case OpGetLocal => 44 case OpSetLocal => 45 case OpGetGlobal => 46 case OpSetGlobal => 47
    case OpJump => 55 case OpJumpIfFalse => 56 case OpJumpIfTrue => 57
    case OpReturn => 62 case OpThrow => 63 case OpGetGlobalSoft => 65
  }

  /** The opcode a byte stands for; bytes outside the fragment stand for none. */
  function ByteOp(b: int): Option<Op> {
    match b
    case 1 => Some(OpUndefined) case 2 => Some(OpNull) case 3 => Some(OpTrue) case 4 => Some(OpFalse)
    case 5 => Some(OpInt32) case 6 => Some(OpConst) case 7 => Some(OpPop) case 8 => Some(OpDup)
    case 9 => Some(OpBin(Add)) case 10 => Some(OpBin(Sub)) case 11 => Some(OpBin(Mul))
    case 12 => Some(OpBin(Div)) case 13 => Some(OpBin(Mod)) case 14 => Some(OpBin(Pow))
    case 15 => Some(OpNeg) case 16 => Some(OpPos)
    case 17 => Some(OpBin(BitAnd)) case 18 => Some(OpBin(BitOr)) case 19 => Some(OpBin(BitXor))
    case 20 => Some(OpBitNot)
    case 21 => Some(OpBin(Shl)) case 22 => Some(OpBin(Shr)) case 23 => Some(OpBin(UShr))
    case 24 => Some(OpBin(Eq)) case 25 => Some(OpBin(Ne))
    case 26 => Some(OpBin(StrictEq)) case 27 => Some(OpBin(StrictNe))
    case 28 => Some(OpBin(Lt)) case 29 => Some(OpBin(Gt)) case 30 => Some(OpBin(Le)) case 31 => Some(OpBin(Ge))
    case 32 => Some(OpBin(Instanceof)) case 33 => Some(OpBin(In))
    case 34 => Some(OpNot) case 35 => Some(OpTypeof) case 36 => Some(OpIsNullish)
    case 44 => Some(OpGetLocal) case 45 => Some(OpSetLocal)
    case 46 => Some(OpGetGlobal) case 47 => Some(OpSetGlobal)
    case 55 => Some(OpJump) case 56 => Some(OpJumpIfFalse) case 57 => Some(OpJumpIfTrue)
    case 62 => Some(OpReturn) case 63 => Some(OpThrow) case 65 => Some(OpGetGlobalSoft)
    case _ => None
  }

  lemma OpRoundTrip(op: Op)
    ensures ByteOp(OpByte(op)) == Some(op)
  {}

  const TWO32 := 0x1_0000_0000

  /** Little-endian bytes of a 32-bit word. */
  function LE32(a: int): (r: seq<int>)
    ensures |r| == 4
  {
    [a % 256, a / 256 % 256, a / 65536 % 256, a / 16777216 % 256]
  }

  function UnLE32(b: seq<int>): int
    requires |b| == 4
  {
    b[0] + 256 * b[1] + 65536 * b[2] + 16777216 * b[3]
  }

  /** The two's-complement word of an integer, and the integer of a word. */
  function ToWord(d: int): (r: nat)
    ensures r < TWO32
  {
    d % TWO32
  }

  function Signed(w: int): int { if w >= 0x8000_0000 then w - TWO32 else w }

  predicate FitsInt32(d: int) { -0x8000_0000 <= d < 0x8000_0000 }

  lemma WordRoundTrip(a: int)
    requires 0 <= a < TWO32
    ensures UnLE32(LE32(a)) == a
  {
    var q := a / 256;
    assert a == 256 * q + a % 256;
    assert q / 256 == a / 65536 && q / 65536 == a / 16777216;
    assert q == 256 * (q / 256) + q % 256;
    assert q / 256 == 256 * (q / 65536) + q / 256 % 256;
  }

  lemma SignedRoundTrip(d: int)
    requires FitsInt32(d)
    ensures Signed(ToWord(d)) == d
  {
    if d < 0 { assert d % TWO32 == d + TWO32; }
  }

  /** An instruction without, and with, a four-byte operand. */
  function I0(op: Op): (r: seq<int>)
    requires Width(op) == 0
    ensures |r| == 1
  {
    [OpByte(op)]
  }

  function I4(op: Op, a: int): (r: seq<int>)
    requires Width(op) == 4
    ensures |r| == 5
  {
    [OpByte(op)] + LE32(a)
  }

  datatype Const = NumConst(bits: nat) | StrConst(s: string)

  datatype Chunk = Chunk(code: seq<int>, consts: seq<Const>, locals: nat, params: nat)

  datatype Machine = Machine(ip: int, stack: seq<Value>, locals: seq<Value>, globals: Globals)

  datatype Result = Returned(v: Value) | Thrown(v: Value) | Fault | GasExhausted

  /** A running machine, or its result with the globals it leaves. */
  datatype Conf = Go(m: Machine) | Halt(r: Result, globals: Globals)

  datatype Fetched = Fetched(op: Op, arg: int, next: int) | Bad

  function Fetch(code: seq<int>, ip: int): (r: Fetched)
    requires 0 <= ip < |code|
  {
    var o := ByteOp(code[ip]);
    if o.None? then Bad
    else if Width(o.value) == 0 then Fetched(o.value, 0, ip + 1)
    else if ip + 5 > |code| then Bad
    else Fetched(o.value, UnLE32(code[ip + 1..ip + 5]), ip + 5)
  }

  /** The operand stack as the machine uses it: reading below the bottom gives Undefined. */
  function Peek(s: seq<Value>, n: nat): Value { if n < |s| then s[|s| - 1 - n] else Undefined }
  function Drop(s: seq<Value>, n: nat): seq<Value> { if n <= |s| then s[..|s| - n] else [] }

  function Jump(c: Chunk, m: Machine, arg: int): Conf {
    var to := m.ip + Signed(arg);
    if 0 <= to <= |c.code| then Go(m.(ip := to)) else Halt(Fault, m.globals)
  }

  function Push(m: Machine, n: nat, r: Res): Conf {
    match r
    case Val(v) => Go(m.(stack := Drop(m.stack, n) + [v]))
    case Thr(v) => Halt(Thrown(v), m.globals)
  }

  /** One instruction; m.ip is already past it. */
  function Execute(p: Prims, c: Chunk, op: Op, arg: int, m: Machine): Conf {
    var top := Peek(m.stack, 0);
    match op
    case OpUndefined => Push(m, 0, Val(Undefined))
    case OpNull => Push(m, 0, Val(Null))
    case OpTrue => Push(m, 0, Val(Bool(true)))
    case OpFalse => Push(m, 0, Val(Bool(false)))
    case OpInt32 => Push(m, 0, Val(Int(Signed(arg))))
    case OpConst =>
      if !(0 <= arg < |c.consts|) then Halt(Fault, m.globals)
      else Push(m, 0, Val(match c.consts[arg] case NumConst(b) => Num(b) case StrConst(s) => Str(s)))
    case OpPop => Go(m.(stack := Drop(m.stack, 1)))
    case OpDup => Push(m, 0, Val(top))
    case OpBin(b) => Push(m, 2, p.Binary(b, Peek(m.stack, 1), top))
    case OpNeg => Push(m, 1, p.Unary(Neg, top))
    case OpPos => Push(m, 1, p.Unary(Pos, top))
    case OpBitNot => Push(m, 1, p.Unary(BitNot, top))
    case OpNot => Push(m, 1, p.Unary(Not, top))
    case OpTypeof => Push(m, 1, p.Unary(Typeof, top))
    case OpIsNullish => Push(m, 1, Val(Bool(Nullish(top))))
    case OpGetLocal =>
      if arg / 65536 != 0 || !(0 <= arg % 65536 < |m.locals|) then Halt(Fault, m.globals)
      else if m.locals[arg % 65536] == Tdz then Halt(Thrown(ReferenceError("binding")), m.globals)
      else Push(m, 0, Val(m.locals[arg % 65536]))
    case OpSetLocal =>
      if arg / 65536 != 0 || !(0 <= arg % 65536 < |m.locals|) then Halt(Fault, m.globals)
      else Go(m.(locals := m.locals[arg % 65536 := top]))
    case OpGetGlobal =>
      if !(0 <= arg < |c.consts|) || !c.consts[arg].StrConst? then Halt(Fault, m.globals)
      else Push(m, 0, ReadGlobal(m.globals, c.consts[arg].s))
    case OpGetGlobalSoft =>
      if !(0 <= arg < |c.consts|) || !c.consts[arg].StrConst? then Halt(Fault, m.globals)
      else Push(m, 0, Val(ReadGlobalSoft(m.globals, c.consts[arg].s)))
    case OpSetGlobal =>
      if !(0 <= arg < |c.consts|) || !c.consts[arg].StrConst? then Halt(Fault, m.globals)
      else
        var x := c.consts[arg].s;
        if WriteRefused(m.globals, x, p.strict) then Halt(Thrown(ReferenceError(x)), m.globals)
        else Go(m.(globals := m.globals[x := top]))
    case OpJump => Jump(c, m, arg)
    case OpJumpIfFalse =>
      var m1 := m.(stack := Drop(m.stack, 1));
      if Truthy(top) then Go(m1) else Jump(c, m1, arg)
    case OpJumpIfTrue =>
      var m1 := m.(stack := Drop(m.stack, 1));
      if Truthy(top) then Jump(c, m1, arg) else Go(m1)
    case OpReturn => Halt(Returned(top), m.globals)
    case OpThrow => Halt(Thrown(top), m.globals)
  }

  function Step(p: Prims, c: Chunk, m: Machine): Conf {
    if m.ip >= |c.code| then Halt(Returned(Undefined), m.globals)
    else if m.ip < 0 then Halt(Fault, m.globals)
    else
      match Fetch(c.code, m.ip)
      case Bad => Halt(Fault, m.globals)
      case Fetched(op, arg, next) => Execute(p, c, op, arg, m.(ip := next))
  }

  /** n steps; a halted machine stays as it is. */
  function Steps(p: Prims, c: Chunk, k: Conf, n: nat): Conf
    decreases n
  {
    if n == 0 || k.Halt? then k else Steps(p, c, Step(p, c, k.m), n - 1)
  }

  /** The machine under a gas allowance: the counter falls before each instruction, and
      the machine stops when it reaches zero. */
  function RunGas(p: Prims, c: Chunk, m: Machine, gas: int): (r: (Result, Globals))
    decreases if gas > 0 then gas else 0
  {
    if m.ip >= |c.code| then (Returned(Undefined), m.globals)
    else if gas - 1 <= 0 then (GasExhausted, m.globals)
    else
      match Step(p, c, m)
      case Halt(r, g) => (r, g)
      case Go(m1) => RunGas(p, c, m1, gas - 1)
  }

  lemma {:induction false} StepsAdd(p: Prims, c: Chunk, k: Conf, a: nat, b: nat)
    ensures Steps(p, c, Steps(p, c, k, a), b) == Steps(p, c, k, a + b)
    decreases a
  {
    hide Execute, Fetch;
    if a > 0 && k.Go? { StepsAdd(p, c, Step(p, c, k.m), a - 1, b); }
  }

  /** A result other than exhaustion is reached within the allowance. */
  lemma {:induction false} RunGasIsSteps(p: Prims, c: Chunk, m: Machine, gas: int) returns (n: nat)
    requires RunGas(p, c, m, gas).0 != GasExhausted
    ensures n <= (if gas > 0 then gas else 0) + 1
    ensures var (r, g) := RunGas(p, c, m, gas); Steps(p, c, Go(m), n) == Halt(r, g)
    decreases if gas > 0 then gas else 0
  {
    hide Execute, Fetch;
    if m.ip >= |c.code| {
      n := 1;
      assert Steps(p, c, Step(p, c, m), 0) == Step(p, c, m);
    } else {
      match Step(p, c, m)
      case Halt(r, g) =>
        n := 1;
        assert Steps(p, c, Step(p, c, m), 0) == Step(p, c, m);
      case Go(m1) =>
        n := RunGasIsSteps(p, c, m1, gas - 1);
        n := n + 1;
    }
  }

  /** Enough gas lets a run that halts in n steps give its result. */
  lemma {:induction false} EnoughGas(p: Prims, c: Chunk, m: Machine, n: nat, gas: int)
    requires Steps(p, c, Go(m), n).Halt? && gas > n
    requires Steps(p, c, Go(m), n).r != GasExhausted
    ensures Steps(p, c, Go(m), n) == var (r, g) := RunGas(p, c, m, gas); Halt(r, g)
    decreases n
  {
    hide Execute, Fetch;
    match Step(p, c, m)
    case Halt(r, g) => assert Steps(p, c, Step(p, c, m), n - 1) == Step(p, c, m);
    case Go(m1) => if m.ip < |c.code| { EnoughGas(p, c, m1, n - 1, gas - 1); }
  }
}
