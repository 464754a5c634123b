/**
 Every jump of compiled code lands on the start of an instruction, or on the end of the code: not only
 the jumps some run takes.
 */
module Aligned {
  import opened Options
  import opened Values
  import opened Bytecode
  import opened Source
  import opened CodeGen
  import opened StatementSim
  import opened CompilerRun

  // ---------- Instruction starts ----------

  /** Operand bytes after the byte b. */
  function OperandBytes(b: int): nat {
    match ByteOp(b) case Some(op) => Width(op) case None => 0
  }

  /** Reading instruction after instruction from `from` comes to `at`. */
  predicate Reaches(code: seq<int>, from: nat, at: nat)
    decreases |code| - from
  {
    from == at || (from < at && from < |code| && Reaches(code, from + 1 + OperandBytes(code[from]), at))
  }

  /** t is the start of an instruction of g, or its end. */
  predicate Inside(g: seq<int>, t: int) { 0 <= t <= |g| && Reaches(g, 0, t) }

  predicate IsJump(b: int) { b == OpByte(OpJump) || b == OpByte(OpJumpIfFalse) || b == OpByte(OpJumpIfTrue) }

  /** Where the jump at `at` goes. */
  function Goes(code: seq<int>, at: nat): int
    requires at + 5 <= |code|
  {
    at + 5 + Signed(UnLE32(code[at + 1..at + 5]))
  }

  predicate JumpOk(g: seq<int>, pc: int, ext: set<int>, k: nat)
    requires k < |g|
  {
    ByteOp(g[k]).Some? && (IsJump(g[k]) ==> k + 5 <= |g| && (pc + Goes(g, k) in ext || Inside(g, Goes(g, k))))
  }

  predicate AreBytes(g: seq<int>) { forall k :: 0 <= k < |g| ==> 0 <= g[k] < 256 }

  /** The code g, standing at pc, is the bytes of whole instructions, and its jumps land on them or in ext. */
  ghost predicate Good(g: seq<int>, pc: int, ext: set<int>) {
    AreBytes(g) && Inside(g, |g|) && forall k :: 0 <= k < |g| && Reaches(g, 0, k) ==> JumpOk(g, pc, ext, k)
  }

  lemma {:induction false} ReachesFirst(a: seq<int>, b: seq<int>, from: nat, k: nat)
    requires Reaches(a, from, |a|)
    ensures k <= |a| ==> (Reaches(a + b, from, k) <==> Reaches(a, from, k))
    ensures k >= |a| ==> (Reaches(a + b, from, k) <==> Reaches(a + b, |a|, k))
    decreases |a| - from
  {
    if from < |a| {
      assert (a + b)[from] == a[from];
      ReachesFirst(a, b, from + 1 + OperandBytes(a[from]), k);
    }
  }

  lemma {:induction false} ReachesShift(a: seq<int>, b: seq<int>, from: nat, k: nat)
    ensures Reaches(a + b, |a| + from, |a| + k) <==> Reaches(b, from, k)
    decreases |b| - from
  {
    if from < k && from < |b| {
      assert (a + b)[|a| + from] == b[from];
      ReachesShift(a, b, from + 1 + OperandBytes(b[from]), k);
    }
  }

  lemma InsideCat(a: seq<int>, b: seq<int>, t: int)
    requires Inside(a, |a|)
    ensures Inside(a, t) ==> Inside(a + b, t)
    ensures Inside(b, t) ==> Inside(a + b, |a| + t)
  {
    hide Reaches;
    if Inside(a, t) { ReachesFirst(a, b, 0, t); }
    if Inside(b, t) {
      ReachesFirst(a, b, 0, |a| + t);
      ReachesShift(a, b, 0, t);
    }
  }

  lemma GoesCat(a: seq<int>, b: seq<int>, k: nat)
    ensures k + 5 <= |a| ==> Goes(a + b, k) == Goes(a, k)
    ensures k + 5 <= |b| ==> Goes(a + b, |a| + k) == |a| + Goes(b, k)
  {
    hide Signed, UnLE32;
    if k + 5 <= |a| { assert (a + b)[k + 1..k + 5] == a[k + 1..k + 5]; }
    if k + 5 <= |b| { assert (a + b)[|a| + k + 1..|a| + k + 5] == b[k + 1..k + 5]; }
  }

  lemma GoodCat(a: seq<int>, b: seq<int>, pc: int, ext: set<int>)
    requires Good(a, pc, ext) && Good(b, pc + |a|, ext)
    ensures Good(a + b, pc, ext)
  {
    hide Reaches, Goes, IsJump;
    var g := a + b;
    InsideCat(a, b, |b|);
    forall k | 0 <= k < |g| && Reaches(g, 0, k) ensures JumpOk(g, pc, ext, k) {
      ReachesFirst(a, b, 0, k);
      if k < |a| {
        assert JumpOk(a, pc, ext, k);
        GoesCat(a, b, k);
        if k + 5 <= |a| { InsideCat(a, b, Goes(a, k)); }
      } else {
        ReachesShift(a, b, 0, k - |a|);
        assert JumpOk(b, pc + |a|, ext, k - |a|);
        GoesCat(a, b, k - |a|);
        if k - |a| + 5 <= |b| { InsideCat(a, b, Goes(b, k - |a|)); }
      }
    }
  }

  /** Targets that turn out to lie inside need no mention. */
  lemma GoodLess(g: seq<int>, pc: int, ext: set<int>, ext1: set<int>)
    requires Good(g, pc, ext) && forall e :: e in ext ==> e in ext1 || Inside(g, e - pc)
    ensures Good(g, pc, ext1)
  {
    hide Reaches, Goes;
    forall k | 0 <= k < |g| && Reaches(g, 0, k) ensures JumpOk(g, pc, ext1, k) { assert JumpOk(g, pc, ext, k); }
  }

  lemma GoodNil(pc: int, ext: set<int>)
    ensures Good([], pc, ext)
  {}

  lemma GoodOp(op: Op, pc: int, ext: set<int>)
    requires Width(op) == 0
    ensures Good(I0(op), pc, ext)
  {
    OpRoundTrip(op);
    var g := I0(op);
    assert Reaches(g, 1, 1);
  }

  lemma Onward(code: seq<int>, from: nat, at: nat)
    ensures Reaches(code, from, at) ==> from <= at
  {}

  lemma GoodOp4(op: Op, arg: int, pc: int, ext: set<int>)
    requires Width(op) == 4 && (!(op.OpJump? || op.OpJumpIfFalse? || op.OpJumpIfTrue?) || pc + Goes(I4(op, arg), 0) in ext)
    ensures Good(I4(op, arg), pc, ext)
  {
    assert AreBytes(LE32(arg)) && 0 <= OpByte(op) < 256;
    hide LE32, UnLE32, Signed;
    OpRoundTrip(op);
    var g := I4(op, arg);
    assert g == [OpByte(op)] + LE32(arg);
    assert g[0] == OpByte(op) && |g| == 5 && Reaches(g, 5, 5);
    forall k | 0 <= k < |g| && Reaches(g, 0, k) ensures k == 0 {
      Onward(g, 5, k);
    }
  }

  lemma GoodJump(op: Op, d: int, pc: int, ext: set<int>)
    requires Width(op) == 4 && FitsInt32(d) && pc + 5 + d in ext
    ensures Good(JumpBy(op, d), pc, ext)
  {
    hide LE32, UnLE32, Signed, ToWord;
    SignedRoundTrip(d);
    WordRoundTrip(ToWord(d));
    var g := JumpBy(op, d);
    assert g[1..5] == LE32(ToWord(d));
    GoodOp4(op, ToWord(d), pc, ext);
  }

  const LIMIT := 0x8000_0000

  /** Good code in three and four pieces. */
  lemma Good3(a: seq<int>, b: seq<int>, c: seq<int>, pc: int, ext: set<int>)
    requires Good(a, pc, ext) && Good(b, pc + |a|, ext) && Good(c, pc + |a| + |b|, ext)
    ensures Good(a + b + c, pc, ext) && Good(a + b, pc, ext)
    ensures Inside(a + b + c, |a|) && Inside(a + b + c, |a| + |b|)
  {
    hide Reaches;
    GoodCat(a, b, pc, ext);
    GoodCat(a + b, c, pc, ext);
    assert Inside(a + b, |a|) by { InsideCat(a, b, |a|); }
    InsideCat(a + b, c, |a|);
    InsideCat(a + b, c, |a| + |b|);
  }

  // ---------- Expressions ----------

  lemma GoodNamed(op: Op, x: string, cs: seq<Const>, pc: int, ext: set<int>)
    requires op.OpGetGlobal? || op.OpSetGlobal? || op.OpGetGlobalSoft?
    ensures Good(Named(op, x, cs).code, pc, ext)
  {
    hide I4, Good;
    GoodOp4(op, AddConst(cs, StrConst(x)).1, pc, ext);
  }

  lemma GoodAccess(x: string, names: Names, cs: seq<Const>, pc: int, ext: set<int>)
    ensures Good(GenLoad(x, names, cs).code, pc, ext) && Good(GenStore(x, names, cs).code, pc, ext)
  {
    hide I4, Good;
    if x in names {
      GoodOp4(OpGetLocal, Pack(names[x]), pc, ext);
      GoodOp4(OpSetLocal, Pack(names[x]), pc, ext);
    } else {
      GoodNamed(OpGetGlobal, x, cs, pc, ext);
      GoodNamed(OpSetGlobal, x, cs, pc, ext);
    }
  }

  lemma GoodThenOp(a: seq<int>, op: Op, pc: int, ext: set<int>)
    requires Good(a, pc, ext) && Width(op) == 0
    ensures Good(a + I0(op), pc, ext)
  {
    hide Good, I0;
    GoodOp(op, pc + |a|, ext);
    GoodCat(a, I0(op), pc, ext);
  }

  lemma GoodUpdate(x: string, delta: int, prefix: bool, names: Names, cs: seq<Const>, pc: int, ext: set<int>)
    ensures Good(GenE(Update(x, delta, prefix), names, cs).code, pc, ext)
  {
    hide Good, I0, I4, GenLoad, GenStore;
    var l := GenLoad(x, names, cs);
    var s := GenStore(x, names, l.consts);
    var n := I4(OpInt32, ToWord(delta));
    GoodAccess(x, names, cs, pc, ext);
    if prefix {
      GoodOp4(OpInt32, ToWord(delta), pc + 5, ext);
      GoodCat(l.code, n, pc, ext);
      GoodThenOp(l.code + n, OpBin(Add), pc, ext);
      GoodAccess(x, names, l.consts, pc + 11, ext);
      GoodCat(l.code + n + I0(OpBin(Add)), s.code, pc, ext);
    } else {
      GoodThenOp(l.code, OpDup, pc, ext);
      GoodOp4(OpInt32, ToWord(delta), pc + 6, ext);
      GoodCat(l.code + I0(OpDup), n, pc, ext);
      GoodThenOp(l.code + I0(OpDup) + n, OpBin(Add), pc, ext);
      GoodAccess(x, names, l.consts, pc + 12, ext);
      GoodCat(l.code + I0(OpDup) + n + I0(OpBin(Add)), s.code, pc, ext);
      GoodThenOp(l.code + I0(OpDup) + n + I0(OpBin(Add)) + s.code, OpPop, pc, ext);
    }
  }

  lemma GoodDecide(op: LogicalOp, n: nat, pc: int, ext: set<int>)
    requires n + 1 < LIMIT && pc + |DecideCode(op, n)| + 1 + n in ext
    ensures Good(DecideCode(op, n), pc, ext)
  {
    hide Good, I0, JumpBy;
    GoodOp(OpDup, pc, ext);
    if op.Coalesce? {
      GoodThenOp(I0(OpDup), OpIsNullish, pc, ext);
      GoodJump(OpJumpIfFalse, 1 + n, pc + 2, ext);
      GoodCat(I0(OpDup) + I0(OpIsNullish), JumpBy(OpJumpIfFalse, 1 + n), pc, ext);
    } else {
      GoodJump(LogicalJump(op), 1 + n, pc + 1, ext);
      GoodCat(I0(OpDup), JumpBy(LogicalJump(op), 1 + n), pc, ext);
    }
  }

  lemma GoodLogical(op: LogicalOp, a: seq<int>, b: seq<int>, pc: int, ext: set<int>)
    requires |b| + 1 < LIMIT
    requires var ext1 := ext + {pc + |LogicalCode(op, a, b)|};
             Good(a, pc, ext1) && Good(b, pc + |a| + |DecideCode(op, |b|)| + 1, ext1)
    ensures Good(LogicalCode(op, a, b), pc, ext)
  {
    hide Good, I0, DecideCode;
    var d, g := DecideCode(op, |b|), LogicalCode(op, a, b);
    var ext1 := ext + {pc + |g|};
    GoodDecide(op, |b|, pc + |a|, ext1);
    GoodCat(a, d, pc, ext1);
    GoodThenOp(a + d, OpPop, pc, ext1);
    GoodCat(a + d + I0(OpPop), b, pc, ext1);
    GoodEnd(g, pc, ext, ext1);
  }

  /** The end of the code is a place to land. */
  lemma GoodEnd(g: seq<int>, pc: int, ext: set<int>, ext1: set<int>)
    requires Good(g, pc, ext1) && forall e :: e in ext1 ==> e in ext || e == pc || e == pc + |g|
    ensures Good(g, pc, ext)
  {
    assert Inside(g, 0) && Inside(g, |g|);
    GoodLess(g, pc, ext1, ext);
  }

  lemma GoodCond(t: seq<int>, a: seq<int>, b: seq<int>, pc: int, ext: set<int>)
    requires |CondCode(t, a, b)| < LIMIT
    requires var ext1 := ext + {pc + |t| + |a| + 10, pc + |CondCode(t, a, b)|};
             Good(t, pc, ext1) && Good(a, pc + |t| + 5, ext1) && Good(b, pc + |t| + |a| + 10, ext1)
    ensures Good(CondCode(t, a, b), pc, ext)
  {
    hide Good, JumpBy, Inside;
    var g := CondCode(t, a, b);
    var j, k := JumpBy(OpJumpIfFalse, |a| + 5), JumpBy(OpJump, |b|);
    var ext1 := ext + {pc + |t| + |a| + 10, pc + |g|};
    GoodJump(OpJumpIfFalse, |a| + 5, pc + |t|, ext1);
    GoodJump(OpJump, |b|, pc + |t| + 5 + |a|, ext1);
    Good3(t, j, a, pc, ext1);
    Good3(t + j + a, k, b, pc, ext1);
    assert t + j + a + k + b == g;
    GoodMiddle(g, pc, ext, ext1, |t| + |a| + 10);
  }

  lemma GoodMiddle(g: seq<int>, pc: int, ext: set<int>, ext1: set<int>, at: int)
    requires Good(g, pc, ext1) && Inside(g, at) && forall e :: e in ext1 ==> e in ext || e == pc || e == pc + |g| || e == pc + at
    ensures Good(g, pc, ext)
  {
    Ends(g, pc, ext1);
    hide Good, Inside;
    GoodLess(g, pc, ext1, ext);
  }

  lemma Ends(g: seq<int>, pc: int, ext: set<int>)
    requires Good(g, pc, ext)
    ensures Inside(g, 0) && Inside(g, |g|)
  {}

  lemma {:induction false} GoodE(e: Expr, names: Names, cs: seq<Const>, pc: int, ext: set<int>)
    requires SizeE(e) < LIMIT
    ensures Good(GenE(e, names, cs).code, pc, ext)
    decreases e, 1
  {
    hide Good, I0, I4, GenLoad, GenStore, Named, GenConst, LogicalCode, CondCode, UpdateCode;
    match e {
      case SmallInt(i) => GoodOp4(OpInt32, ToWord(i), pc, ext);
      case NumberLit(b) => GoodConst(NumConst(b), cs, pc, ext);
      case StringLit(s) => GoodConst(StrConst(s), cs, pc, ext);
      case BoolLit(b) => GoodOp(if b then OpTrue else OpFalse, pc, ext);
      case NullLit => GoodOp(OpNull, pc, ext);
      case Ident(x) =>
        GoodOp(OpUndefined, pc, ext);
        GoodAccess(x, names, cs, pc, ext);
      case Unary(op, a) => GoodUnary(e, names, cs, pc, ext);
      case Update(x, delta, prefix) => GoodUpdate(x, delta, prefix, names, cs, pc, ext);
      case Binary(_, _, _) => GoodBinary(e, names, cs, pc, ext);
      case Logical(_, _, _) => GoodDecided(e, names, cs, pc, ext);
      case Cond(_, _, _) => GoodChoice(e, names, cs, pc, ext);
      case Assign(x, a) =>
        var ga := GenE(a, names, cs);
        GoodE(a, names, cs, pc, ext);
        GoodAccess(x, names, ga.consts, pc + SizeE(a), ext);
        GoodCat(ga.code, GenStore(x, names, ga.consts).code, pc, ext);
      case AssignOp(op, x, a) => GoodAssignOp(e, names, cs, pc, ext);
      case Sequence(a, rest) =>
        var ga := GenE(a, names, cs);
        GoodE(a, names, cs, pc, ext);
        GoodRest(rest, names, ga.consts, pc + SizeE(a), ext);
        GoodCat(ga.code, GenRest(rest, names, ga.consts).code, pc, ext);
    }
  }

  lemma {:induction false} GoodBinary(e: Expr, names: Names, cs: seq<Const>, pc: int, ext: set<int>)
    requires e.Binary? && SizeE(e) < LIMIT
    ensures Good(GenE(e, names, cs).code, pc, ext)
    decreases e, 0
  {
    hide Good, I0;
    var Binary(op, a, b) := e;
    var ga := GenE(a, names, cs);
    var gb := GenE(b, names, ga.consts);
    GoodE(a, names, cs, pc, ext);
    GoodE(b, names, ga.consts, pc + SizeE(a), ext);
    GoodCat(ga.code, gb.code, pc, ext);
    GoodThenOp(ga.code + gb.code, OpBin(op), pc, ext);
  }

  lemma LogicalParts(e: Expr, names: Names, cs: seq<Const>)
    requires e.Logical?
    ensures var ga := GenE(e.left, names, cs); var gb := GenE(e.right, names, ga.consts);
      && GenE(e, names, cs).code == LogicalCode(e.lop, ga.code, gb.code)
      && SizeE(e) > SizeE(e.left) && SizeE(e) > SizeE(e.right) + 1
  {
    hide LogicalCode;
  }

  lemma {:induction false} GoodDecided(e: Expr, names: Names, cs: seq<Const>, pc: int, ext: set<int>)
    requires e.Logical? && SizeE(e) < LIMIT
    ensures Good(GenE(e, names, cs).code, pc, ext)
    decreases e, 0
  {
    hide Good, DecideCode, LogicalCode, GenE, SizeE, Inside;
    LogicalParts(e, names, cs);
    var ga := GenE(e.left, names, cs);
    var gb := GenE(e.right, names, ga.consts);
    var ext1 := ext + {pc + |LogicalCode(e.lop, ga.code, gb.code)|};
    GoodE(e.left, names, cs, pc, ext1);
    GoodE(e.right, names, ga.consts, pc + |ga.code| + |DecideCode(e.lop, |gb.code|)| + 1, ext1);
    GoodLogical(e.lop, ga.code, gb.code, pc, ext);
  }

  lemma {:induction false} GoodChoice(e: Expr, names: Names, cs: seq<Const>, pc: int, ext: set<int>)
    requires e.Cond? && SizeE(e) < LIMIT
    ensures Good(GenE(e, names, cs).code, pc, ext)
    decreases e, 0
  {
    hide Good, CondCode;
    var Cond(t, a, b) := e;
    var gt := GenE(t, names, cs);
    var ga := GenE(a, names, gt.consts);
    var gb := GenE(b, names, ga.consts);
    var ext1 := ext + {pc + |gt.code| + |ga.code| + 10, pc + |CondCode(gt.code, ga.code, gb.code)|};
    GoodE(t, names, cs, pc, ext1);
    GoodE(a, names, gt.consts, pc + |gt.code| + 5, ext1);
    GoodE(b, names, ga.consts, pc + |gt.code| + |ga.code| + 10, ext1);
    GoodCond(gt.code, ga.code, gb.code, pc, ext);
  }

  lemma GoodConst(k: Const, cs: seq<Const>, pc: int, ext: set<int>)
    ensures Good(GenConst(k, cs).code, pc, ext)
  {
    hide I4, Good;
    GoodOp4(OpConst, AddConst(cs, k).1, pc, ext);
  }

  lemma {:induction false} GoodUnary(e: Expr, names: Names, cs: seq<Const>, pc: int, ext: set<int>)
    requires e.Unary? && SizeE(e) < LIMIT
    ensures Good(GenE(e, names, cs).code, pc, ext)
    decreases e, 0
  {
    hide Good, I0, GenLoad, Named;
    var Unary(op, a) := e;
    if op.Typeof? && a.Ident? {
      GoodAccess(a.name, names, cs, pc, ext);
      GoodNamed(OpGetGlobalSoft, a.name, cs, pc, ext);
      var l := if a.name in names then GenLoad(a.name, names, cs) else Named(OpGetGlobalSoft, a.name, cs);
      GoodThenOp(l.code, OpTypeof, pc, ext);
    } else {
      var ga := GenE(a, names, cs);
      GoodE(a, names, cs, pc, ext);
      if op.Void? {
        GoodThenOp(ga.code, OpPop, pc, ext);
        GoodThenOp(ga.code + I0(OpPop), OpUndefined, pc, ext);
      } else {
        GoodThenOp(ga.code, UnaryOp(op), pc, ext);
      }
    }
  }

  lemma {:induction false} GoodAssignOp(e: Expr, names: Names, cs: seq<Const>, pc: int, ext: set<int>)
    requires e.AssignOp? && SizeE(e) < LIMIT
    ensures Good(GenE(e, names, cs).code, pc, ext)
    decreases e, 0
  {
    hide Good, I0, GenLoad, GenStore;
    var AssignOp(op, x, a) := e;
    var l := GenLoad(x, names, cs);
    var ga := GenE(a, names, l.consts);
    GoodAccess(x, names, cs, pc, ext);
    GoodE(a, names, l.consts, pc + 5, ext);
    GoodCat(l.code, ga.code, pc, ext);
    GoodThenOp(l.code + ga.code, OpBin(op), pc, ext);
    GoodAccess(x, names, ga.consts, pc + 5 + SizeE(a) + 1, ext);
    GoodCat(l.code + ga.code + I0(OpBin(op)), GenStore(x, names, ga.consts).code, pc, ext);
  }

  lemma {:induction false} GoodRest(rest: seq<Expr>, names: Names, cs: seq<Const>, pc: int, ext: set<int>)
    requires SizeRest(rest) < LIMIT
    ensures Good(GenRest(rest, names, cs).code, pc, ext)
    decreases rest, 1
  {
    hide Good, I0, GenE;
    GoodNil(pc, ext);
    if rest != [] {
      var g := GenE(rest[0], names, cs);
      GoodOp(OpPop, pc, ext);
      GoodE(rest[0], names, cs, pc + 1, ext);
      GoodCat(I0(OpPop), g.code, pc, ext);
      GoodRest(rest[1..], names, g.consts, pc + 1 + SizeE(rest[0]), ext);
      GoodCat(I0(OpPop) + g.code, GenRest(rest[1..], names, g.consts).code, pc, ext);
    }
  }

  // ---------- Statements ----------

  /** Where the enclosing loops and switches are left to, and gone on with, may be jumped to. */
  predicate Open(loops: seq<Target>, ext: set<int>) {
    forall i :: 0 <= i < |loops| ==> loops[i].brk in ext && (!loops[i].isSwitch ==> loops[i].cont in ext)
  }

  /** Every place to land is near enough for a 32-bit jump. */
  predicate Near(ext: set<int>, pc: int, size: nat) { 0 <= pc && pc + size < LIMIT && forall e :: e in ext ==> 0 <= e < LIMIT }

  lemma {:induction false} GoodDecls(isLet: bool, ds: seq<Decl>, names: Names, cs: seq<Const>, locals: nat, pc: int, ext: set<int>)
    requires SizeDecls(isLet, ds) < LIMIT
    ensures Good(GenDecls(isLet, ds, names, cs, locals).code, pc, ext)
    decreases |ds|
  {
    hide Good, I0, GenE, GenStore, Declare;
    GoodNil(pc, ext);
    if ds != [] {
      var (names1, locals1) := Declare(ds[0].name, names, locals);
      if ds[0].init.None? && !isLet {
        GoodDecls(isLet, ds[1..], names1, cs, locals1, pc, ext);
      } else {
        var g := if ds[0].init.Some? then GenE(ds[0].init.value, names, cs) else G(I0(OpUndefined), cs);
        var s := GenStore(ds[0].name, names1, g.consts);
        if ds[0].init.Some? { GoodE(ds[0].init.value, names, cs, pc, ext); } else { GoodOp(OpUndefined, pc, ext); }
        GoodAccess(ds[0].name, names1, g.consts, pc + |g.code|, ext);
        GoodCat(g.code, s.code, pc, ext);
        GoodThenOp(g.code + s.code, OpPop, pc, ext);
        GoodDecls(isLet, ds[1..], names1, s.consts, locals1, pc + |g.code| + 6, ext);
        GoodCat(g.code + s.code + I0(OpPop), GenDecls(isLet, ds[1..], names1, s.consts, locals1).code, pc, ext);
      }
    }
  }

  lemma {:induction false} GoodHoist(xs: seq<string>, names: Names, cs: seq<Const>, locals: nat, pc: int, ext: set<int>)
    ensures Good(Hoist(xs, names, cs, locals).code, pc, ext)
    decreases |xs|
  {
    hide Good, I0, I4, Named;
    GoodNil(pc, ext);
    if xs != [] {
      var t := Named(OpGetGlobal, TDZ_NAME, cs);
      var r := Hoist(xs[1..], names[xs[0] := locals], t.consts, locals + 1);
      GoodNamed(OpGetGlobal, TDZ_NAME, cs, pc, ext);
      GoodOp4(OpSetLocal, Pack(locals), pc + 5, ext);
      GoodCat(t.code, I4(OpSetLocal, Pack(locals)), pc, ext);
      GoodThenOp(t.code + I4(OpSetLocal, Pack(locals)), OpPop, pc, ext);
      GoodHoist(xs[1..], names[xs[0] := locals], t.consts, locals + 1, pc + 11, ext);
      GoodCat(t.code + I4(OpSetLocal, Pack(locals)) + I0(OpPop), r.code, pc, ext);
    }
  }

  lemma {:induction false} GoodS(st: Stmt, names: Names, pc: int, cs: seq<Const>, locals: nat, loops: seq<Target>, ext: set<int>)
    requires Near(ext, pc, SizeS(st)) && Open(loops, ext) && JumpsS(st, Ctx(loops))
    ensures Good(GenS(st, names, pc, cs, locals, loops).code, pc, ext)
    decreases st, 1
  {
    hide Good, I0, JumpBy, GenE, SizeE, GenDecls, SizeDecls, GenS, BreakIndex, ContinueIndex, SizeS;
    SimpleShape(st, names, pc, cs, locals, loops);
    match st {
      case EmptyStmt => GoodNil(pc, ext);
      case VarDecl(isLet, ds) =>
        assert SizeS(st) == SizeDecls(isLet, ds);
        GoodDecls(isLet, ds, names, cs, locals, pc, ext);
      case Block(_) => GoodBlock(st, names, pc, cs, locals, loops, ext);
      case If(_, _, _) => GoodIf(st, names, pc, cs, locals, loops, ext);
      case While(_, _, _) => GoodWhile(st, names, pc, cs, locals, loops, ext);
      case DoWhile(_, _, _) => GoodDo(st, names, pc, cs, locals, loops, ext);
      case For(_, _, _, _, _) => GoodFor(st, names, pc, cs, locals, loops, ext);
      case Switch(_, _, _) => GoodSwitch(st, names, pc, cs, locals, loops, ext);
      case _ => GoodSimple(st, names, pc, cs, locals, loops, ext);
    }
  }

  lemma GoodSimple(st: Stmt, names: Names, pc: int, cs: seq<Const>, locals: nat, loops: seq<Target>, ext: set<int>)
    requires st.ExprStmt? || st.Return? || st.Throw? || st.Break? || st.Continue?
    requires Near(ext, pc, SizeS(st)) && Open(loops, ext) && JumpsS(st, Ctx(loops))
    ensures Good(GenS(st, names, pc, cs, locals, loops).code, pc, ext)
  {
    hide Good, I0, JumpBy, GenE, SizeE, BreakIndex, ContinueIndex;
    match st {
      case ExprStmt(e) =>
        GoodE(e, names, cs, pc, ext);
        GoodThenOp(GenE(e, names, cs).code, OpPop, pc, ext);
      case Throw(e) =>
        GoodE(e, names, cs, pc, ext);
        GoodThenOp(GenE(e, names, cs).code, OpThrow, pc, ext);
      case Return(a) =>
        var g := if a.Some? then GenE(a.value, names, cs) else G(I0(OpUndefined), cs);
        if a.Some? { GoodE(a.value, names, cs, pc, ext); } else { GoodOp(OpUndefined, pc, ext); }
        GoodThenOp(g.code, OpReturn, pc, ext);
      case _ => GoodLeave(st, names, pc, cs, locals, loops, ext);
    }
  }

  lemma GoodLeave(st: Stmt, names: Names, pc: int, cs: seq<Const>, locals: nat, loops: seq<Target>, ext: set<int>)
    requires (st.Break? || st.Continue?) && Near(ext, pc, SizeS(st)) && Open(loops, ext) && JumpsS(st, Ctx(loops))
    ensures Good(GenS(st, names, pc, cs, locals, loops).code, pc, ext)
  {
    hide Good, I0, JumpBy, BreakIndex, ContinueIndex;
    if st.Break? {
      WfIndex(loops, st.target);
      GoodJump(OpJump, loops[BreakIndex(loops, st.target)].brk - (pc + 5), pc, ext);
    } else {
      WfIndex(loops, st.target);
      GoodJump(OpJump, loops[ContinueIndex(loops, st.target)].cont - (pc + 5), pc, ext);
    }
  }

  lemma {:induction false} GoodBlock(st: Stmt, names: Names, pc: int, cs: seq<Const>, locals: nat, loops: seq<Target>, ext: set<int>)
    requires st.Block? && Near(ext, pc, SizeS(st)) && Open(loops, ext) && JumpsS(st, Ctx(loops))
    ensures Good(GenS(st, names, pc, cs, locals, loops).code, pc, ext)
    decreases st, 0
  {
    hide Good, GenS, GenL, Hoist, LexNames, SizeL;
    SimpleShape(st, names, pc, cs, locals, loops);
    var h := Hoist(LexNames(st.body), names, cs, locals);
    GoodHoist(LexNames(st.body), names, cs, locals, pc, ext);
    GoodL(st.body, h.names, pc + |h.code|, h.consts, h.locals, loops, ext);
    GoodCat(h.code, GenL(st.body, h.names, pc + |h.code|, h.consts, h.locals, loops).code, pc, ext);
  }

  lemma {:induction false} GoodL(body: seq<Stmt>, names: Names, pc: int, cs: seq<Const>, locals: nat, loops: seq<Target>, ext: set<int>)
    requires Near(ext, pc, SizeL(body)) && Open(loops, ext) && JumpsL(body, Ctx(loops))
    ensures Good(GenL(body, names, pc, cs, locals, loops).code, pc, ext)
    decreases body, 2
  {
    hide Good, GenS, SizeS;
    GoodNil(pc, ext);
    if body != [] {
      var g := GenS(body[0], names, pc, cs, locals, loops);
      GoodS(body[0], names, pc, cs, locals, loops, ext);
      GoodL(body[1..], g.names, pc + SizeS(body[0]), g.consts, g.locals, loops, ext);
      GoodCat(g.code, GenL(body[1..], g.names, pc + SizeS(body[0]), g.consts, g.locals, loops).code, pc, ext);
    }
  }

  lemma {:induction false} GoodIf(st: Stmt, names: Names, pc: int, cs: seq<Const>, locals: nat, loops: seq<Target>, ext: set<int>)
    requires st.If? && Near(ext, pc, SizeS(st)) && Open(loops, ext) && JumpsS(st, Ctx(loops))
    ensures Good(GenS(st, names, pc, cs, locals, loops).code, pc, ext)
    decreases st, 0
  {
    hide Good, GenS, GenE, SizeE, SizeS, JumpBy, CondCode;
    IfShape(st, names, pc, cs, locals, loops);
    IfSize(st);
    var gt, at := GenE(st.test, names, cs), pc + SizeE(st.test) + 5;
    var ga := GenS(st.cons, names, at, gt.consts, locals, loops);
    var end := pc + SizeS(st);
    var ext1 := ext + {end, at + SizeS(st.cons) + if st.alt.Some? then 5 else 0};
    GoodE(st.test, names, cs, pc, ext1);
    GoodS(st.cons, names, at, gt.consts, locals, loops, ext1);
    if st.alt.Some? {
      var gb := GenS(st.alt.value, ga.names, at + SizeS(st.cons) + 5, ga.consts, ga.locals, loops);
      GoodS(st.alt.value, ga.names, at + SizeS(st.cons) + 5, ga.consts, ga.locals, loops, ext1);
      assert ext1 == ext + {pc + |gt.code| + |ga.code| + 10, pc + |CondCode(gt.code, ga.code, gb.code)|};
      GoodCond(gt.code, ga.code, gb.code, pc, ext);
    } else {
      var j := JumpBy(OpJumpIfFalse, SizeS(st.cons));
      GoodJump(OpJumpIfFalse, SizeS(st.cons), pc + SizeE(st.test), ext1);
      Good3(gt.code, j, ga.code, pc, ext1);
      GoodEnd(gt.code + j + ga.code, pc, ext, ext1);
    }
  }

  lemma {:induction false} GoodWhile(st: Stmt, names: Names, pc: int, cs: seq<Const>, locals: nat, loops: seq<Target>, ext: set<int>)
    requires st.While? && Near(ext, pc, SizeS(st)) && Open(loops, ext) && JumpsS(st, Ctx(loops))
    ensures Good(GenS(st, names, pc, cs, locals, loops).code, pc, ext)
    decreases st, 0
  {
    hide Good, GenS, GenE, SizeE, JumpBy, Inside;
    WhileShape(st, names, pc, cs, locals, loops);
    var t := WhileTarget(st, pc);
    var gt := GenE(st.test, names, cs);
    var at, n := pc + SizeE(st.test) + 5, SizeS(st.loop);
    var gs := GenS(st.loop, names, at, gt.consts, locals, loops + [t]);
    var ext1 := ext + {pc, t.cont, t.brk};
    var j, k := JumpBy(OpJumpIfFalse, n + 5), JumpBy(OpJump, pc - (at + n + 5));
    CtxPush(loops, t);
    GoodE(st.test, names, cs, pc, ext1);
    GoodJump(OpJumpIfFalse, n + 5, pc + SizeE(st.test), ext1);
    GoodS(st.loop, names, at, gt.consts, locals, loops + [t], ext1);
    GoodJump(OpJump, pc - (at + n + 5), at + n, ext1);
    Good3(gt.code, j, gs.code, pc, ext1);
    GoodLast(gt.code + j + gs.code, k, pc, ext1);
    GoodMiddle(gt.code + j + gs.code + k, pc, ext, ext1, t.cont - pc);
  }

  lemma GoodLast(a: seq<int>, b: seq<int>, pc: int, ext: set<int>)
    requires Good(a, pc, ext) && Good(b, pc + |a|, ext)
    ensures Good(a + b, pc, ext) && Inside(a + b, |a|)
  {
    GoodCat(a, b, pc, ext);
    InsideCat(a, b, |a|);
  }

  lemma {:induction false} GoodDo(st: Stmt, names: Names, pc: int, cs: seq<Const>, locals: nat, loops: seq<Target>, ext: set<int>)
    requires st.DoWhile? && Near(ext, pc, SizeS(st)) && Open(loops, ext) && JumpsS(st, Ctx(loops))
    ensures Good(GenS(st, names, pc, cs, locals, loops).code, pc, ext)
    decreases st, 0
  {
    hide Good, GenS, GenE, SizeE, JumpBy, Inside;
    DoShape(st, names, pc, cs, locals, loops);
    var t := DoTarget(st, pc);
    var gs := GenS(st.loop, names, pc, cs, locals, loops + [t]);
    var gt := GenE(st.test, gs.names, gs.consts);
    var next := pc + SizeS(st.loop);
    var ext1 := ext + {pc, t.cont, t.brk};
    var d := pc - (next + SizeE(st.test) + 5);
    CtxPush(loops, t);
    GoodS(st.loop, names, pc, cs, locals, loops + [t], ext1);
    GoodE(st.test, gs.names, gs.consts, next, ext1);
    GoodJump(OpJumpIfTrue, d, next + SizeE(st.test), ext1);
    Good3(gs.code, gt.code, JumpBy(OpJumpIfTrue, d), pc, ext1);
    GoodMiddle(gs.code + gt.code + JumpBy(OpJumpIfTrue, d), pc, ext, ext1, SizeS(st.loop));
  }

  lemma GoodTest(t: Option<Expr>, d: nat, names: Names, cs: seq<Const>, pc: int, ext: set<int>)
    requires SizeTest(t) + d < LIMIT && pc + SizeTest(t) + d in ext
    ensures Good(GenTest(t, d, names, cs).code, pc, ext)
  {
    hide Good, GenE, SizeE, JumpBy;
    GoodNil(pc, ext);
    if t.Some? {
      GoodE(t.value, names, cs, pc, ext);
      GoodJump(OpJumpIfFalse, d, pc + SizeE(t.value), ext);
      GoodCat(GenE(t.value, names, cs).code, JumpBy(OpJumpIfFalse, d), pc, ext);
    }
  }

  lemma GoodDropped(e: Option<Expr>, names: Names, cs: seq<Const>, pc: int, ext: set<int>)
    requires SizeUpdate(e) < LIMIT
    ensures Good(GenUpdate(e, names, cs).code, pc, ext)
  {
    hide Good, GenE, SizeE, I0;
    GoodNil(pc, ext);
    if e.Some? {
      GoodE(e.value, names, cs, pc, ext);
      GoodThenOp(GenE(e.value, names, cs).code, OpPop, pc, ext);
    }
  }

  lemma GoodInit(init: ForInit, names: Names, cs: seq<Const>, locals: nat, pc: int, ext: set<int>)
    requires SizeInit(init) < LIMIT
    ensures Good(GenInit(init, names, cs, locals).code, pc, ext)
  {
    hide Good, GenE, SizeE, GenDecls, SizeDecls, I0;
    match init
    case NoInit => GoodNil(pc, ext);
    case InitExpr(e) =>
      GoodE(e, names, cs, pc, ext);
      GoodThenOp(GenE(e, names, cs).code, OpPop, pc, ext);
    case InitDecl(isLet, ds) => GoodDecls(isLet, ds, names, cs, locals, pc, ext);
  }

  lemma {:induction false} GoodFor(st: Stmt, names: Names, pc: int, cs: seq<Const>, locals: nat, loops: seq<Target>, ext: set<int>)
    requires st.For? && Near(ext, pc, SizeS(st)) && Open(loops, ext) && JumpsS(st, Ctx(loops))
    ensures Good(GenS(st, names, pc, cs, locals, loops).code, pc, ext)
    decreases st, 0, 1
  {
    hide Good, GenS, GenFor, SizeS, Hoist, GenInit, SizeInit, SizeTest, SizeUpdate, ForLoop, InitNames;
    ForIsFor(st, names, pc, cs, locals, loops);
    ForShape(st, names, pc, cs, locals, loops);
    var h := Hoist(InitNames(st.init), names, cs, locals);
    var gi := GenInit(st.init, h.names, h.consts, h.locals);
    var top := pc + |h.code| + SizeInit(st.init);
    GoodHoist(InitNames(st.init), names, cs, locals, pc, ext);
    GoodInit(st.init, h.names, h.consts, h.locals, pc + |h.code|, ext);
    GoodForLoop(st, gi.names, top, gi.consts, gi.locals, loops, ext);
    Good3(h.code, gi.code, ForLoop(st, gi.names, top, gi.consts, gi.locals, loops).code, pc, ext);
  }

  lemma {:induction false} GoodForLoop(st: Stmt, names: Names, top: int, cs: seq<Const>, locals: nat, loops: seq<Target>, ext: set<int>)
    requires st.For? && Near(ext, top, SizeTest(st.cond) + SizeS(st.loop) + SizeUpdate(st.update) + 5) && Open(loops, ext)
    requires JumpsS(st, Ctx(loops))
    ensures Good(ForLoop(st, names, top, cs, locals, loops).code, top, ext)
    decreases st, 0, 0
  {
    hide Good, GenS, SizeS, GenTest, SizeTest, GenUpdate, SizeUpdate, JumpBy, Inside;
    var t, d := ForTarget(st, top), SizeS(st.loop) + SizeUpdate(st.update) + 5;
    var body := top + SizeTest(st.cond);
    var gt := GenTest(st.cond, d, names, cs);
    var gs := GenS(st.loop, names, body, gt.consts, locals, loops + [t]);
    var gu := GenUpdate(st.update, gs.names, gs.consts);
    var k := JumpBy(OpJump, top - (body + d));
    var ext1 := ext + {top, t.cont, t.brk};
    CtxPush(loops, t);
    GoodTest(st.cond, d, names, cs, top, ext1);
    GoodS(st.loop, names, body, gt.consts, locals, loops + [t], ext1);
    GoodDropped(st.update, gs.names, gs.consts, body + SizeS(st.loop), ext1);
    GoodJump(OpJump, top - (body + d), body + d - 5, ext1);
    GoodLast(gt.code, gs.code, top, ext1);
    GoodLast(gt.code + gs.code, gu.code, top, ext1);
    GoodLast(gt.code + gs.code + gu.code, k, top, ext1);
    GoodWhole(gt.code + gs.code, top, ext1);
    GoodWhole(gu.code, t.cont, ext1);
    assert |gt.code + gs.code| == t.cont - top;
    InsideAt(gt.code + gs.code, gu.code, k);
    GoodMiddle(gt.code + gs.code + gu.code + k, top, ext, ext1, t.cont - top);
  }

  lemma InsideAt(a: seq<int>, b: seq<int>, c: seq<int>)
    requires Inside(a, |a|) && Inside(b, |b|)
    ensures Inside(a + b, |a + b|) && Inside(a + b + c, |a|)
  {
    hide Reaches;
    InsideCat(a, b, |a|);
    InsideCat(a, b, |b|);
    InsideCat(a + b, c, |a|);
  }

  // ---------- switch ----------

  /** The entries of n cases, and the place without a match; the bodies, and the end. */
  function EntrySet(entries: int, n: nat): set<int> { set i | 0 <= i <= n :: entries + 6 * i }
  function BodySet(cases: seq<Case>, bodies: int): set<int> { set j | 0 <= j <= |cases| :: BodyAt(cases, j, bodies) }

  lemma {:induction false} GoodTests(cases: seq<Case>, i: nat, names: Names, pc: int, entries: int, cs: seq<Const>, ext: set<int>)
    requires 0 <= pc && 0 <= entries && entries + 6 * (i + |cases|) < LIMIT && pc + SizeTests(cases) < LIMIT
    requires forall j :: i <= j < i + |cases| ==> entries + 6 * j in ext
    ensures Good(GenTests(cases, i, names, pc, entries, cs).code, pc, ext)
    decreases |cases|
  {
    hide Good, GenE, SizeE, I0, JumpBy;
    GoodNil(pc, ext);
    if cases != [] {
      if cases[0].test.None? {
        GoodTests(cases[1..], i + 1, names, pc, entries, cs, ext);
      } else {
        var e := cases[0].test.value;
        var g, at := GenE(e, names, cs), pc + 1 + SizeE(e) + 1;
        var d := entries + 6 * i - (at + 5);
        GoodOp(OpDup, pc, ext);
        GoodE(e, names, cs, pc + 1, ext);
        GoodCat(I0(OpDup), g.code, pc, ext);
        GoodThenOp(I0(OpDup) + g.code, OpBin(StrictEq), pc, ext);
        GoodJump(OpJumpIfTrue, d, at, ext);
        GoodCat(I0(OpDup) + g.code + I0(OpBin(StrictEq)), JumpBy(OpJumpIfTrue, d), pc, ext);
        GoodTests(cases[1..], i + 1, names, at + 5, entries, g.consts, ext);
        GoodCat(I0(OpDup) + g.code + I0(OpBin(StrictEq)) + JumpBy(OpJumpIfTrue, d),
                GenTests(cases[1..], i + 1, names, at + 5, entries, g.consts).code, pc, ext);
      }
    }
  }

  lemma {:induction false} GoodEntries(cases: seq<Case>, i: nat, entries: int, body: int, ext: set<int>)
    requires 0 <= entries && entries + 6 * (i + |cases|) < LIMIT && 0 <= body && body + SizeBodies(cases) < LIMIT
    requires forall j :: 0 <= j < |cases| ==> BodyAt(cases, j, body) in ext
    ensures Good(GenEntries(cases, i, entries, body), entries + 6 * i, ext)
    ensures forall j :: 0 <= j <= |cases| ==> Inside(GenEntries(cases, i, entries, body), 6 * j)
    decreases |cases|
  {
    hide Good, I0, JumpBy, SizeL;
    GoodNil(entries + 6 * i, ext);
    if cases == [] {
      assert Inside([], 0);
    } else {
      var d, at := body - (entries + 6 * i + 6), entries + 6 * i;
      var stub := I0(OpPop) + JumpBy(OpJump, d);
      var rest := GenEntries(cases[1..], i + 1, entries, body + SizeL(cases[0].body));
      assert BodyAt(cases, 0, body) == body;
      var body1 := body + SizeL(cases[0].body);
      forall j | 0 <= j < |cases[1..]| ensures BodyAt(cases[1..], j, body1) in ext {
        assert BodyAt(cases, j + 1, body) in ext;
      }
      GoodOp(OpPop, at, ext);
      GoodJump(OpJump, d, at + 1, ext);
      GoodCat(I0(OpPop), JumpBy(OpJump, d), at, ext);
      GoodEntries(cases[1..], i + 1, entries, body + SizeL(cases[0].body), ext);
      GoodCat(stub, rest, at, ext);
      StubInside(stub, rest, at, ext, |cases|);
    }
  }

  lemma StubInside(stub: seq<int>, rest: seq<int>, at: int, ext: set<int>, n: nat)
    requires |stub| == 6 && Good(stub, at, ext) && forall j :: 0 <= j < n ==> Inside(rest, 6 * j)
    ensures forall j :: 0 <= j <= n ==> Inside(stub + rest, 6 * j)
  {
    hide Reaches, JumpOk;
    forall j | 0 <= j <= n ensures Inside(stub + rest, 6 * j) {
      if j == 0 {
        ZeroInside(stub + rest);
      } else {
        assert Inside(rest, 6 * (j - 1));
        InsideCat(stub, rest, 6 * (j - 1));
      }
    }
  }

  lemma ZeroInside(g: seq<int>)
    ensures Inside(g, 0)
  {}

  /** In b, which stands at pc, every body is the start of an instruction, or the end. */
  predicate BodiesInside(cases: seq<Case>, b: seq<int>, pc: int) {
    forall j :: 0 <= j <= |cases| ==> Inside(b, BodyAt(cases, j, pc) - pc)
  }

  lemma {:induction false} GoodBodies(cases: seq<Case>, names: Names, pc: int, cs: seq<Const>, locals: nat, loops: seq<Target>, ext: set<int>)
    requires Near(ext, pc, SizeBodies(cases)) && Open(loops, ext) && JumpsCases(cases, Ctx(loops))
    ensures Good(GenBodies(cases, names, pc, cs, locals, loops).code, pc, ext)
    ensures BodiesInside(cases, GenBodies(cases, names, pc, cs, locals, loops).code, pc)
    decreases cases, 3
  {
    hide Good, GenL, SizeL, JumpsL;
    GoodNil(pc, ext);
    if cases == [] {
      assert Inside([], 0);
    } else {
      var g := GenL(cases[0].body, names, pc, cs, locals, loops);
      var at := pc + SizeL(cases[0].body);
      var r := GenBodies(cases[1..], g.names, at, g.consts, g.locals, loops);
      GoodL(cases[0].body, names, pc, cs, locals, loops, ext);
      GoodBodies(cases[1..], g.names, at, g.consts, g.locals, loops, ext);
      GoodCat(g.code, r.code, pc, ext);
      forall j | 0 <= j <= |cases| ensures Inside(g.code + r.code, BodyAt(cases, j, pc) - pc) {
        if j == 0 {
          ZeroInside(g.code + r.code);
        } else {
          BodyInside(cases[1..], r.code, at, j - 1);
          GoodWhole(g.code, pc, ext);
          InsideCat(g.code, r.code, BodyAt(cases[1..], j - 1, at) - at);
        }
      }
    }
  }

  lemma GoodWhole(g: seq<int>, pc: int, ext: set<int>)
    requires Good(g, pc, ext)
    ensures Inside(g, |g|)
  {}

  lemma {:induction false} LastDefaultIn(cases: seq<Case>, i: nat, default: nat)
    ensures LastDefault(cases, i, default) == default || i <= LastDefault(cases, i, default) < i + |cases|
    decreases |cases|
  {
    if cases != [] { LastDefaultIn(cases[1..], i + 1, if cases[0].test.None? then i else default); }
  }

  lemma GoodDispatch(cases: seq<Case>, entries: int, ext: set<int>)
    requires 5 <= entries && entries + 6 * |cases| + 6 + SizeBodies(cases) < LIMIT
    requires EntrySet(entries, |cases|) <= ext && BodySet(cases, entries + 6 * |cases| + 6) <= ext
    ensures Good(DispatchCode(cases, entries), entries - 5, ext)
    ensures forall i :: 0 <= i <= |cases| ==> Inside(DispatchCode(cases, entries), 5 + 6 * i)
  {
    hide Good, I0, JumpBy, GenEntries, SizeBodies, LastDefault, BodyAt, Inside, EntrySet, BodySet;
    DispatchPlaces(cases, entries, ext);
    var n, default := |cases|, LastDefault(cases, 0, |cases|);
    DispatchPieces(cases, n, default, entries, entries + 6 * n + 6, SizeBodies(cases), ext);
    EntriesInside(JumpBy(OpJump, 6 * default), GenEntries(cases, 0, entries, entries + 6 * n + 6), I0(OpPop), JumpBy(OpJump, SizeBodies(cases)), n);
  }

  lemma DispatchPieces(cases: seq<Case>, n: nat, default: nat, entries: int, bodies: int, size: nat, ext: set<int>)
    requires n == |cases| && 5 <= entries && bodies == entries + 6 * n + 6 && bodies + size < LIMIT && SizeBodies(cases) == size
    requires default <= n && entries + 6 * default in ext && bodies + size in ext
    requires forall j :: 0 <= j < n ==> BodyAt(cases, j, bodies) in ext
    ensures var (a, e, p, k) := (JumpBy(OpJump, 6 * default), GenEntries(cases, 0, entries, bodies), I0(OpPop), JumpBy(OpJump, size));
      && Good(a + e + p + k, entries - 5, ext) && |a| == 5 && (forall i :: 0 <= i <= n ==> Inside(e, 6 * i))
      && Inside(a, |a|) && Inside(a + e, |a + e|) && Inside(a + e + p, |a + e + p|)
  {
    hide Good, I0, JumpBy, GenEntries, SizeBodies, BodyAt, Inside;
    var a, e, p, k := JumpBy(OpJump, 6 * default), GenEntries(cases, 0, entries, bodies), I0(OpPop), JumpBy(OpJump, size);
    GoodJump(OpJump, 6 * default, entries - 5, ext);
    GoodEntries(cases, 0, entries, bodies, ext);
    GoodOp(OpPop, entries + 6 * n, ext);
    GoodJump(OpJump, size, bodies - 5, ext);
    FourPieces(a, e, p, k, entries - 5, ext);
  }

  lemma FourPieces(a: seq<int>, e: seq<int>, p: seq<int>, k: seq<int>, pc: int, ext: set<int>)
    requires Good(a, pc, ext) && Good(e, pc + |a|, ext) && Good(p, pc + |a| + |e|, ext) && Good(k, pc + |a| + |e| + |p|, ext)
    ensures Good(a + e + p + k, pc, ext)
    ensures Inside(a, |a|) && Inside(a + e, |a + e|) && Inside(a + e + p, |a + e + p|)
  {
    hide Good, Inside;
    GoodCat(a, e, pc, ext);
    GoodCat(a + e, p, pc, ext);
    GoodCat(a + e + p, k, pc, ext);
    GoodWhole(a, pc, ext);
    GoodWhole(a + e, pc, ext);
    GoodWhole(a + e + p, pc, ext);
  }

  lemma EntriesInside(a: seq<int>, e: seq<int>, p: seq<int>, k: seq<int>, n: nat)
    requires |a| == 5 && Inside(a, 5) && Inside(a + e, |a + e|) && Inside(a + e + p, |a + e + p|)
    requires forall i :: 0 <= i <= n ==> Inside(e, 6 * i)
    ensures forall i :: 0 <= i <= n ==> Inside(a + e + p + k, 5 + 6 * i)
  {
    hide Inside;
    forall i | 0 <= i <= n ensures Inside(a + e + p + k, 5 + 6 * i) {
      assert Inside(e, 6 * i);
      InsideCat(a, e, 6 * i);
      InsideCat(a + e, p, 5 + 6 * i);
      InsideCat(a + e + p, k, 5 + 6 * i);
    }
  }

  /** The places the dispatch of a switch jumps to. */
  lemma DispatchPlaces(cases: seq<Case>, entries: int, ext: set<int>)
    requires EntrySet(entries, |cases|) <= ext && BodySet(cases, entries + 6 * |cases| + 6) <= ext
    ensures var n, default, bodies := |cases|, LastDefault(cases, 0, |cases|), entries + 6 * |cases| + 6;
      && default <= n && entries + 6 * default in ext && bodies + SizeBodies(cases) in ext
      && forall j :: 0 <= j < n ==> BodyAt(cases, j, bodies) in ext
  {
    hide SizeBodies, LastDefault, BodyAt;
    var n, bodies := |cases|, entries + 6 * |cases| + 6;
    LastDefaultIn(cases, 0, n);
    var default := LastDefault(cases, 0, n);
    assert entries + 6 * default in EntrySet(entries, n);
    forall j | 0 <= j <= n ensures BodyAt(cases, j, bodies) in ext { assert BodyAt(cases, j, bodies) in BodySet(cases, bodies); }
    BodyAtEnd(cases, n, bodies);
    assert cases[n..] == [];
    NoBodies();
  }

  lemma NoBodies()
    ensures SizeBodies([]) == 0
  {}

  lemma {:induction false} GoodSwitch(st: Stmt, names: Names, pc: int, cs: seq<Const>, locals: nat, loops: seq<Target>, ext: set<int>)
    requires st.Switch? && Near(ext, pc, SizeS(st)) && Open(loops, ext) && JumpsS(st, Ctx(loops))
    ensures Good(GenS(st, names, pc, cs, locals, loops).code, pc, ext)
    decreases st, 0
  {
    hide Good, GenS, GenSwitch, GenE, SizeE, GenTests, SizeTests, GenBodies, SizeBodies, DispatchCode, EntrySet, BodySet, Inside;
    SimpleShape(st, names, pc, cs, locals, loops);
    SwitchShape(st, names, pc, cs, locals, loops);
    var cases, t, n := st.cases, SwitchTarget(st, pc), |st.cases|;
    var gd, entries := GenE(st.disc, names, cs), Entries(st, pc);
    var bodies := entries + 6 * n + 6;
    var gt := GenTests(cases, 0, names, pc + SizeE(st.disc), entries, gd.consts);
    var gb := GenBodies(cases, names, bodies, gt.consts, locals, loops + [t]);
    var dispatch := DispatchCode(cases, entries);
    var ext1 := ext + EntrySet(entries, n) + BodySet(cases, bodies) + {pc + SizeS(st)};
    CtxPush(loops, t);
    SwitchNear(st, pc, ext);
    GoodE(st.disc, names, cs, pc, ext1);
    GoodTests(cases, 0, names, pc + SizeE(st.disc), entries, gd.consts, ext1);
    GoodDispatch(cases, entries, ext1);
    GoodBodies(cases, names, bodies, gt.consts, locals, loops + [t], ext1);
    GoodCat(gt.code, dispatch, pc + SizeE(st.disc), ext1);
    GoodCat(gd.code, gt.code + dispatch, pc, ext1);
    GoodCat(gd.code + (gt.code + dispatch), gb.code, pc, ext1);
    GoodWhole(gd.code, pc, ext1);
    GoodWhole(gt.code, pc + SizeE(st.disc), ext1);
    GoodWhole(dispatch, entries - 5, ext1);
    GoodWhole(gb.code, bodies, ext1);
    SwitchInside(st, pc, gd.code, gt.code, dispatch, gb.code);
    var g := gd.code + (gt.code + dispatch) + gb.code;
    var places := EntrySet(entries, n) + BodySet(cases, bodies);
    forall e | e in ext1 ensures e in ext || Inside(g, e - pc) { assert e in ext || e in places || e == pc + SizeS(st); }
    GoodLess(g, pc, ext1, ext);
  }

  lemma SwitchNear(st: Stmt, pc: int, ext: set<int>)
    requires st.Switch? && Near(ext, pc, SizeS(st))
    ensures var entries, n := Entries(st, pc), |st.cases|;
      var bodies := entries + 6 * n + 6;
      var ext1 := ext + EntrySet(entries, n) + BodySet(st.cases, bodies) + {pc + SizeS(st)};
      && Near(ext1, bodies, SizeBodies(st.cases)) && bodies + SizeBodies(st.cases) == pc + SizeS(st) && entries >= 5
      && forall j :: 0 <= j < n ==> entries + 6 * j in ext1
  {
    hide SizeE, SizeTests, SizeBodies, BodyAt, EntrySet, BodySet;
    var entries, n := Entries(st, pc), |st.cases|;
    var bodies := entries + 6 * n + 6;
    assert SizeS(st) == SizeE(st.disc) + SizeTests(st.cases) + 5 + 6 * n + 6 + SizeBodies(st.cases);
    EntriesNear(entries, n, bodies);
    BodiesNear(st.cases, bodies);
  }

  lemma EntriesNear(entries: int, n: nat, bodies: int)
    requires 0 <= entries && bodies == entries + 6 * n + 6
    ensures forall e :: e in EntrySet(entries, n) ==> 0 <= e < bodies
    ensures forall j :: 0 <= j <= n ==> entries + 6 * j in EntrySet(entries, n)
  {}

  lemma BodiesNear(cases: seq<Case>, bodies: int)
    ensures forall e :: e in BodySet(cases, bodies) ==> bodies <= e <= bodies + SizeBodies(cases)
  {
    hide BodyAt, SizeBodies;
    forall j | 0 <= j <= |cases| ensures bodies <= BodyAt(cases, j, bodies) <= bodies + SizeBodies(cases) {
      BodyAtBounds(cases, j, bodies);
    }
  }

  lemma BodyInside(cases: seq<Case>, b: seq<int>, pc: int, j: nat)
    requires BodiesInside(cases, b, pc) && j <= |cases|
    ensures Inside(b, BodyAt(cases, j, pc) - pc)
  {}

  /** Every entry and every body is the start of an instruction of the whole switch. */
  lemma SwitchInside(st: Stmt, pc: int, d: seq<int>, t: seq<int>, dispatch: seq<int>, b: seq<int>)
    requires st.Switch? && |d| == SizeE(st.disc) && |t| == SizeTests(st.cases) && |dispatch| == 6 * |st.cases| + 11 && |b| == SizeBodies(st.cases)
    requires Inside(d, |d|) && Inside(t, |t|) && Inside(dispatch, |dispatch|) && Inside(b, |b|)
    requires forall i :: 0 <= i <= |st.cases| ==> Inside(dispatch, 5 + 6 * i)
    requires BodiesInside(st.cases, b, Entries(st, pc) + 6 * |st.cases| + 6)
    ensures
      var entries, n, g := Entries(st, pc), |st.cases|, d + (t + dispatch) + b;
      var places := EntrySet(entries, n) + BodySet(st.cases, entries + 6 * n + 6);
      && (forall e :: e in places ==> Inside(g, e - pc)) && Inside(g, SizeS(st))
  {
    hide Reaches, BodyAt, SizeE, SizeTests, SizeBodies;
    var entries, n, g := Entries(st, pc), |st.cases|, d + (t + dispatch) + b;
    var bodies := entries + 6 * n + 6;
    InsideCat(t, dispatch, |dispatch|);
    InsideCat(d, t + dispatch, |t + dispatch|);
    InsideCat(d + (t + dispatch), b, |b|);
    forall i | 0 <= i <= n ensures Inside(g, entries + 6 * i - pc) {
      InsideCat(t, dispatch, 5 + 6 * i);
      InsideCat(d, t + dispatch, |t| + 5 + 6 * i);
      InsideCat(d + (t + dispatch), b, |d| + |t| + 5 + 6 * i);
    }
    assert |d + (t + dispatch)| == bodies - pc;
    forall j | 0 <= j <= n ensures Inside(g, BodyAt(st.cases, j, bodies) - pc) {
      var x := BodyAt(st.cases, j, bodies) - bodies;
      BodyInside(st.cases, b, bodies, j);
      InsideCat(d + (t + dispatch), b, x);
      assert |d + (t + dispatch)| + x == BodyAt(st.cases, j, bodies) - pc;
    }
  }

  // ---------- Whole functions ----------

  /** Compiled code is the bytes of whole instructions, and every jump in it lands on one of them or on the end. */
  lemma JumpsLand(f: Function, at: nat)
    requires JumpsL(f.body, []) && |Compile(f).code| < LIMIT
    ensures var code := Compile(f).code;
      && AreBytes(code) && Inside(code, |code|)
      && (at < |code| && Inside(code, at) ==> ByteOp(code[at]).Some?)
      && (at < |code| && Inside(code, at) && IsJump(code[at]) ==> at + 5 <= |code| && Inside(code, Goes(code, at)))
  {
    hide Good, GenL, SizeL, Hoist, DeclareAll, VarNamesIn, LexNames, ParamSlots, I0, JumpsL;
    var (names, locals) := DeclareAll(VarNamesIn(f.body), ParamSlots(f.params), |f.params|);
    var h := Hoist(LexNames(f.body), names, [], locals);
    var b := GenL(f.body, h.names, |h.code|, h.consts, h.locals, []);
    GoodHoist(LexNames(f.body), names, [], locals, 0, {});
    GoodL(f.body, h.names, |h.code|, h.consts, h.locals, [], {});
    GoodCat(h.code, b.code, 0, {});
    GoodThenOp(h.code + b.code, OpUndefined, 0, {});
    GoodThenOp(h.code + b.code + I0(OpUndefined), OpReturn, 0, {});
    GoodAt(Compile(f).code, at);
  }

  lemma GoodAt(g: seq<int>, at: nat)
    requires Good(g, 0, {})
    ensures AreBytes(g) && Inside(g, |g|) && (at < |g| && Inside(g, at) ==> ByteOp(g[at]).Some?)
    ensures at < |g| && Inside(g, at) && IsJump(g[at]) ==> at + 5 <= |g| && Inside(g, Goes(g, at))
  {
    hide Reaches;
    if at < |g| && Inside(g, at) { assert JumpOk(g, 0, {}, at); }
  }
}
