/**
 The one-pass compiler as it runs: bytes are appended to the chunk, forward jumps are
 emitted with an empty operand and patched once their target is known, breaks and
 continues wait in their loop's lists.  Its output is shown to be, byte for byte, the
 code of `CodeGen`, which is given every target in advance.
 */
module CompilerRun {
  import opened Options
  import opened Values
  import opened Bytecode
  import opened Source
  import opened CodeGen
  import opened StatementSim

  /** A loop or switch being compiled: positions of jumps still to patch. */
  datatype LoopCtx = LoopCtx(lbl: Option<string>, isSwitch: bool, breaks: seq<int>, continues: seq<int>)

  /** The operand bytes of some unpatched jump. */
  predicate Covered(i: int, holes: set<int>) { exists h :: h in holes && h < i < h + 5 }

  function Pending(loops: seq<LoopCtx>): set<int> {
    set k, h | 0 <= k < |loops| && h in loops[k].breaks + loops[k].continues :: h
  }

  /** In the finished code, a jump over d bytes stands at `at`. */
  predicate JumpAt(ideal: seq<int>, at: int, op: Op, d: int)
    requires Width(op) == 4
    ensures JumpAt(ideal, at, op, d) ==> 0 <= at && at + 5 <= |ideal|
  {
    0 <= at && at + 5 <= |ideal| && ideal[at..at + 5] == JumpBy(op, d)
  }

  predicate LoopOk(l: LoopCtx, t: Target, ideal: seq<int>) {
    && l.lbl == t.lbl && l.isSwitch == t.isSwitch && (l.isSwitch ==> l.continues == [])
    && (forall h :: h in l.breaks ==> JumpAt(ideal, h, OpJump, t.brk - (h + 5)))
    && (forall h :: h in l.continues ==> JumpAt(ideal, h, OpJump, t.cont - (h + 5)))
  }

  predicate LoopsOk(loops: seq<LoopCtx>, targets: seq<Target>, ideal: seq<int>) {
    |loops| == |targets| && forall k :: 0 <= k < |loops| ==> LoopOk(loops[k], targets[k], ideal)
  }

  /** Code and finished code agree outside the holes. */
  predicate Agree(code: seq<int>, ideal: seq<int>, holes: set<int>)
    ensures Agree(code, ideal, holes) ==> |code| == |ideal|
  {
    |code| == |ideal| && forall i :: 0 <= i < |code| && !Covered(i, holes) ==> code[i] == ideal[i]
  }

  lemma CoveredMore(i: int, a: set<int>, b: set<int>)
    requires a <= b
    ensures Covered(i, a) ==> Covered(i, b)
    ensures forall h :: h in b && h < i < h + 5 ==> Covered(i, b)
  {}

  lemma CoveredOther(i: int, holes: set<int>, at: int)
    requires !(at < i < at + 5)
    ensures Covered(i, holes) ==> Covered(i, holes - {at})
  {
    if h :| h in holes && h < i < h + 5 { assert h in holes - {at}; }
  }

  lemma AgreeAppend(code: seq<int>, ideal: seq<int>, holes: set<int>, g: seq<int>)
    requires Agree(code, ideal, holes)
    ensures Agree(code + g, ideal + g, holes)
  {}

  lemma AgreeHole(code: seq<int>, ideal: seq<int>, holes: set<int>, a: seq<int>, b: seq<int>)
    requires Agree(code, ideal, holes) && |a| == |b| == 5 && a[0] == b[0]
    ensures Agree(code + a, ideal + b, holes + {|code|})
  {
    forall i | 0 <= i < |code| + 5 && !Covered(i, holes + {|code|})
      ensures (code + a)[i] == (ideal + b)[i]
    {
      CoveredMore(i, holes, holes + {|code|});
      CoveredMore(i, {|code|}, holes + {|code|});
    }
  }

  /** Writing the right operand closes a hole. */
  lemma AgreePatch(code: seq<int>, ideal: seq<int>, holes: set<int>, at: int, op: Op, d: int)
    requires Width(op) == 4 && Agree(code, ideal, holes) && JumpAt(ideal, at, op, d)
    ensures Agree(code[..at + 1] + LE32(ToWord(d)) + code[at + 5..], ideal, holes - {at})
  {
    hide LE32, ToWord;
    var w := LE32(ToWord(d));
    var code1 := code[..at + 1] + w + code[at + 5..];
    assert ideal[at..at + 5] == [OpByte(op)] + w;
    forall i | 0 <= i < |code| && !Covered(i, holes - {at})
      ensures code1[i] == ideal[i]
    {
      if at < i < at + 5 {
        assert code1[i] == w[i - at - 1] == ideal[at..at + 5][i - at];
      } else {
        CoveredOther(i, holes, at);
      }
    }
  }

  lemma JumpKept(ideal: seq<int>, more: seq<int>, at: int, op: Op, d: int)
    requires Width(op) == 4 && JumpAt(ideal, at, op, d)
    ensures JumpAt(ideal + more, at, op, d)
  {
    assert (ideal + more)[at..at + 5] == ideal[at..at + 5];
  }

  lemma JumpUpTo(upTo: seq<int>, ideal: seq<int>, at: int, op: Op, d: int)
    requires Width(op) == 4 && upTo <= ideal && JumpAt(upTo, at, op, d)
    ensures JumpAt(ideal, at, op, d)
  {
    JumpKept(upTo, ideal[|upTo|..], at, op, d);
    assert upTo + ideal[|upTo|..] == ideal;
  }

  lemma LoopsKept(loops: seq<LoopCtx>, targets: seq<Target>, ideal: seq<int>, more: seq<int>)
    requires LoopsOk(loops, targets, ideal)
    ensures LoopsOk(loops, targets, ideal + more)
  {
    hide JumpAt;
    forall k | 0 <= k < |loops| ensures LoopOk(loops[k], targets[k], ideal + more) {
      forall h | h in loops[k].breaks { JumpKept(ideal, more, h, OpJump, targets[k].brk - (h + 5)); }
      forall h | h in loops[k].continues { JumpKept(ideal, more, h, OpJump, targets[k].cont - (h + 5)); }
    }
  }

  /** Regrouping of emitted pieces. */
  lemma Cat(o: seq<int>, a: seq<int>, b: seq<int>, c: seq<int>, d: seq<int>, e: seq<int>)
    ensures o + a + b + c + d + e == o + (a + b + c + d + e)
    ensures o + a + b + c + d == o + (a + b + c + d)
    ensures o + a + b + c == o + (a + b + c)
    ensures o + a + b == o + (a + b)
  {}

  class Compiler {
    var code: seq<int>
    var consts: seq<Const>
    var locals: nat
    var names: Names
    var loops: seq<LoopCtx>
    ghost var ideal: seq<int>  // the code once every jump is patched
    ghost var open: set<int>   // jumps of the construct being compiled that wait for a patch

    ghost predicate Inv(targets: seq<Target>)
      reads this`code, this`ideal, this`loops, this`open
      ensures Inv(targets) ==> |code| == |ideal| && forall h :: h in open ==> h < |code|
    {
      Agree(code, ideal, open + Pending(loops)) && LoopsOk(loops, targets, ideal) && forall h :: h in open ==> h < |code|
    }

    lemma Finished()
      requires Inv([]) && open == {}
      ensures code == ideal
    {
      Closed(code, ideal, open, loops);
    }

    constructor ()
      ensures code == ideal == [] && consts == [] && locals == 0 && names == map[] && loops == [] && open == {}
      ensures Inv([])
    {
      code, ideal, consts, locals, names, loops, open := [], [], [], 0, map[], [], {};
    }

    method Append(g: seq<int>, ghost targets: seq<Target>)
      requires Inv(targets)
      modifies this`code, this`ideal
      ensures Inv(targets) && ideal == old(ideal) + g
    {
      hide Agree, LoopsOk;
      AgreeAppend(code, ideal, open + Pending(loops), g);
      LoopsKept(loops, targets, ideal, g);
      code := code + g;
      ideal := ideal + g;
    }

    method Emit(op: Op, ghost targets: seq<Target>)
      requires Inv(targets) && Width(op) == 0
      modifies this`code, this`ideal
      ensures Inv(targets) && ideal == old(ideal) + I0(op)
    {
      Append(I0(op), targets);
    }

    method Emit32(op: Op, arg: int, ghost targets: seq<Target>)
      requires Inv(targets) && Width(op) == 4
      modifies this`code, this`ideal
      ensures Inv(targets) && ideal == old(ideal) + I4(op, arg)
    {
      Append(I4(op, arg), targets);
    }

    /** A jump over d bytes, d being known only to the proof. */
    method EmitJump(op: Op, ghost d: int, ghost targets: seq<Target>) returns (at: int)
      requires Inv(targets) && Width(op) == 4
      modifies this`code, this`ideal, this`open
      ensures Inv(targets) && ideal == old(ideal) + JumpBy(op, d)
      ensures at == |old(code)| == |old(ideal)| && open == old(open) + {at} && at !in old(open)
      ensures JumpAt(ideal, at, op, d)
    {
      hide LoopsOk, LE32, ToWord, Pending;
      at := |code|;
      AgreeHole(code, ideal, open + Pending(loops), I4(op, 0), JumpBy(op, d));
      LoopsKept(loops, targets, ideal, JumpBy(op, d));
      code := code + I4(op, 0);
      ideal := ideal + JumpBy(op, d);
      open := open + {at};
      assert open + Pending(loops) == old(open + Pending(loops)) + {at};
    }

    /** Fills in the operand of the jump at `at`. */
    method Patch32(at: int, d: int, ghost op: Op, ghost targets: seq<Target>)
      requires Inv(targets) && Width(op) == 4 && JumpAt(ideal, at, op, d)
      modifies this`code, this`open
      ensures Inv(targets) && open == old(open) - {at}
      ensures Agree(code, ideal, old(open + Pending(loops)) - {at})
    {
      hide LoopsOk, LE32, ToWord, Pending;
      AgreePatch(code, ideal, open + Pending(loops), at, op, d);
      code := code[..at + 1] + LE32(ToWord(d)) + code[at + 5..];
      AgreeMore(code, ideal, open + Pending(loops) - {at}, (open - {at}) + Pending(loops));
      open := open - {at};
    }

    /** Lets the jump at `at`, emitted when the finished code was upTo, lead to `to`. */
    method Land(at: int, to: int, ghost upTo: seq<int>, ghost op: Op, ghost d: int, ghost targets: seq<Target>)
      requires Inv(targets) && Width(op) == 4 && upTo <= ideal && JumpAt(upTo, at, op, d)
      requires d == to - (at + 5)
      modifies this`code, this`open
      ensures Inv(targets) && open == old(open) - {at}
    {
      hide Inv, JumpAt;
      JumpUpTo(upTo, ideal, at, op, d);
      Patch32(at, to - (at + 5), op, targets);
    }

    method ConstOp(op: Op, k: Const, ghost targets: seq<Target>)
      requires Inv(targets) && Width(op) == 4
      modifies this`code, this`ideal, this`consts
      ensures var (cs, i) := AddConst(old(consts), k);
              Inv(targets) && ideal == old(ideal) + I4(op, i) && consts == cs
    {
      var i;
      consts, i := AddConst(consts, k).0, AddConst(consts, k).1;
      Emit32(op, i, targets);
    }

    method LoadIdent(x: string, ghost targets: seq<Target>)
      requires Inv(targets)
      modifies this`code, this`ideal, this`consts
      ensures var g := GenLoad(x, names, old(consts));
              Inv(targets) && ideal == old(ideal) + g.code && consts == g.consts
    {
      if x in names { Emit32(OpGetLocal, Pack(names[x]), targets); } else { ConstOp(OpGetGlobal, StrConst(x), targets); }
    }

    method StoreIdent(x: string, ghost targets: seq<Target>)
      requires Inv(targets)
      modifies this`code, this`ideal, this`consts
      ensures var g := GenStore(x, names, old(consts));
              Inv(targets) && ideal == old(ideal) + g.code && consts == g.consts
    {
      if x in names { Emit32(OpSetLocal, Pack(names[x]), targets); } else { ConstOp(OpSetGlobal, StrConst(x), targets); }
    }

    method Expr(e: Expr, ghost targets: seq<Target>)
      requires Inv(targets)
      modifies this`code, this`ideal, this`consts, this`open
      ensures var g := GenE(e, names, old(consts));
              Inv(targets) && ideal == old(ideal) + g.code && consts == g.consts && open == old(open)
      decreases e, 1
    {
      hide Inv, I0, I4, JumpBy, ToWord, LE32, Pending, GenLoad, GenStore, AddConst, Named, Agree, LoopsOk, JumpAt,
           UnaryCode, UpdateCode, LogicalCode, CondCode, SizeE;
      match e {
        case SmallInt(i) => Emit32(OpInt32, ToWord(i), targets);
        case NumberLit(b) => ConstOp(OpConst, NumConst(b), targets);
        case StringLit(s) => ConstOp(OpConst, StrConst(s), targets);
        case BoolLit(b) => Emit(if b then OpTrue else OpFalse, targets);
        case NullLit => Emit(OpNull, targets);
        case Ident(x) => if x == "undefined" { Emit(OpUndefined, targets); } else { LoadIdent(x, targets); }
        case Unary(_, _) => CompileUnary(e, targets);
        case Update(_, _, _) => CompileUpdate(e, targets);
        case Binary(_, _, _) => CompileBinary(e, targets);
        case Logical(_, _, _) => CompileLogical(e, targets);
        case Cond(_, _, _) => CompileCond(e, targets);
        case Assign(x, a) =>
          Expr(a, targets);
          StoreIdent(x, targets);
        case AssignOp(_, _, _) => CompileAssignOp(e, targets);
        case Sequence(a, rest) =>
          Expr(a, targets);
          CompileRest(rest, targets);
      }
    }

    method CompileUnary(e: Expr, ghost targets: seq<Target>)
      requires Inv(targets) && e.Unary?
      modifies this`code, this`ideal, this`consts, this`open
      ensures var g := GenE(e, names, old(consts));
              Inv(targets) && ideal == old(ideal) + g.code && consts == g.consts && open == old(open)
      decreases e, 0
    {
      hide Inv, I0, I4, JumpBy, ToWord, LE32, Pending, GenLoad, GenStore, Agree, LoopsOk, JumpAt;
      if e.op.Typeof? && e.operand.Ident? {
        var x := e.operand.name;
        if x in names { LoadIdent(x, targets); } else { ConstOp(OpGetGlobalSoft, StrConst(x), targets); }
        Emit(OpTypeof, targets);
      } else {
        Expr(e.operand, targets);
        if e.op.Void? {
          Emit(OpPop, targets);
          Emit(OpUndefined, targets);
        } else {
          Emit(UnaryOp(e.op), targets);
        }
      }
    }

    method CompileBinary(e: Expr, ghost targets: seq<Target>)
      requires Inv(targets) && e.Binary?
      modifies this`code, this`ideal, this`consts, this`open
      ensures var g := GenE(e, names, old(consts));
              Inv(targets) && ideal == old(ideal) + g.code && consts == g.consts && open == old(open)
      decreases e, 0
    {
      hide Inv, I0;
      ghost var ga := GenE(e.left, names, consts);
      Expr(e.left, targets);
      Expr(e.right, targets);
      Emit(OpBin(e.bop), targets);
      Cat(old(ideal), ga.code, GenE(e.right, names, ga.consts).code, I0(OpBin(e.bop)), [], []);
    }

    method CompileAssignOp(e: Expr, ghost targets: seq<Target>)
      requires Inv(targets) && e.AssignOp?
      modifies this`code, this`ideal, this`consts, this`open
      ensures var g := GenE(e, names, old(consts));
              Inv(targets) && ideal == old(ideal) + g.code && consts == g.consts && open == old(open)
      decreases e, 0
    {
      hide Inv, I0, GenLoad, GenStore;
      ghost var l := GenLoad(e.name, names, consts);
      ghost var ga := GenE(e.value, names, l.consts);
      LoadIdent(e.name, targets);
      Expr(e.value, targets);
      Emit(OpBin(e.bop), targets);
      StoreIdent(e.name, targets);
      Cat(old(ideal), l.code, ga.code, I0(OpBin(e.bop)), GenStore(e.name, names, ga.consts).code, []);
    }

    method CompileUpdate(e: Expr, ghost targets: seq<Target>)
      requires Inv(targets) && e.Update?
      modifies this`code, this`ideal, this`consts, this`open
      ensures var g := GenE(e, names, old(consts));
              Inv(targets) && ideal == old(ideal) + g.code && consts == g.consts && open == old(open)
    {
      hide Inv, I0, I4, GenLoad, GenStore, UpdateCode;
      ghost var l := GenLoad(e.name, names, consts);
      ghost var s := GenStore(e.name, names, l.consts);
      UpdateShape(old(ideal), l.code, e.delta, e.prefix, s.code);
      LoadIdent(e.name, targets);
      if !e.prefix { Emit(OpDup, targets); }
      Emit32(OpInt32, ToWord(e.delta), targets);
      Emit(OpBin(Add), targets);
      StoreIdent(e.name, targets);
      if !e.prefix { Emit(OpPop, targets); }
    }

    method CompileLogical(e: Expr, ghost targets: seq<Target>)
      requires Inv(targets) && e.Logical?
      modifies this`code, this`ideal, this`consts, this`open
      ensures var g := GenE(e, names, old(consts));
              Inv(targets) && ideal == old(ideal) + g.code && consts == g.consts && open == old(open)
      decreases e, 0
    {
      hide Inv, I0, DecideCode, Agree, LoopsOk, JumpAt, SizeE;
      ghost var ga := GenE(e.left, names, consts);
      ghost var b := GenE(e.right, names, ga.consts).code;
      ghost var d := 1 + SizeE(e.right);
      Expr(e.left, targets);
      var op := LogicalJump(e.lop);
      var at := EmitDecide(e.lop, SizeE(e.right), targets);
      ghost var upTo := ideal;
      Emit(OpPop, targets);
      Expr(e.right, targets);
      Land(at, |code|, upTo, op, d, targets);
      Cat(old(ideal), ga.code, DecideCode(e.lop, SizeE(e.right)), I0(OpPop), b, []);
    }

    method EmitDecide(op: LogicalOp, ghost n: nat, ghost targets: seq<Target>) returns (at: int)
      requires Inv(targets)
      modifies this`code, this`ideal, this`open
      ensures Inv(targets) && ideal == old(ideal) + DecideCode(op, n)
      ensures at == |old(ideal)| + |DecideCode(op, n)| - 5 && at !in old(open)
      ensures open == old(open) + {at} && JumpAt(ideal, at, LogicalJump(op), 1 + n)
    {
      hide Inv, I0, JumpBy, JumpAt;
      var jump := LogicalJump(op);
      Emit(OpDup, targets);
      if op.Coalesce? { Emit(OpIsNullish, targets); }
      at := EmitJump(jump, 1 + n, targets);
      Cat(old(ideal), I0(OpDup), I0(OpIsNullish), JumpBy(jump, 1 + n), [], []);
      Cat(old(ideal), I0(OpDup), JumpBy(jump, 1 + n), [], [], []);
    }

    method CompileCond(e: Expr, ghost targets: seq<Target>)
      requires Inv(targets) && e.Cond?
      modifies this`code, this`ideal, this`consts, this`open
      ensures var g := GenE(e, names, old(consts));
              Inv(targets) && ideal == old(ideal) + g.code && consts == g.consts && open == old(open)
      decreases e, 0
    {
      hide Inv, I0, I4, JumpBy, ToWord, LE32, Pending, GenLoad, GenStore, AddConst, Named, Agree, LoopsOk, JumpAt, SizeE;
      ghost var gt := GenE(e.test, names, consts);
      ghost var ga := GenE(e.cons, names, gt.consts);
      ghost var t, a, b := gt.code, ga.code, GenE(e.alt, names, ga.consts).code;
      Expr(e.test, targets);
      var jf := EmitJump(OpJumpIfFalse, SizeE(e.cons) + 5, targets);
      ghost var upTo := ideal;
      Expr(e.cons, targets);
      var jend := EmitJump(OpJump, SizeE(e.alt), targets);
      ghost var upTo2 := ideal;
      Land(jf, |code|, upTo, OpJumpIfFalse, SizeE(e.cons) + 5, targets);
      Expr(e.alt, targets);
      Land(jend, |code|, upTo2, OpJump, SizeE(e.alt), targets);
      Cat(old(ideal), t, JumpBy(OpJumpIfFalse, SizeE(e.cons) + 5), a, JumpBy(OpJump, SizeE(e.alt)), b);
    }

    method CompileRest(rest: seq<Expr>, ghost targets: seq<Target>)
      requires Inv(targets)
      modifies this`code, this`ideal, this`consts, this`open
      ensures var g := GenRest(rest, names, old(consts));
              Inv(targets) && ideal == old(ideal) + g.code && consts == g.consts && open == old(open)
      decreases rest, 2
    {
      hide Inv, I0, GenE, GenRest;
      var i := 0;
      assert rest[0..] == rest;
      while i < |rest|
        invariant 0 <= i <= |rest| && Inv(targets) && open == old(open)
        invariant var g, now := GenRest(rest, names, old(consts)), GenRest(rest[i..], names, consts);
                  ideal + now.code == old(ideal) + g.code && now.consts == g.consts
      {
        RestStep(rest, i, names, consts);
        Emit(OpPop, targets);
        Expr(rest[i], targets);
        i := i + 1;
      }
      RestStep(rest, i, names, consts);
    }

    // ---------- Loops ----------

    method PushLoop(l: Option<string>, isSwitch: bool, ghost t: Target, ghost targets: seq<Target>)
      requires Inv(targets) && t.lbl == l && t.isSwitch == isSwitch
      modifies this`loops
      ensures Inv(targets + [t]) && loops == old(loops) + [LoopCtx(l, isSwitch, [], [])]
    {
      hide Agree, JumpAt, Pending;
      PendingPush(loops, l, isSwitch);
      loops := loops + [LoopCtx(l, isSwitch, [], [])];
    }

    /** Patches the jumps listed in ats, which all lead to `to`. */
    method PatchAll(ats: seq<int>, to: int, ghost rest: set<int>)
      requires Agree(code, ideal, rest + NumbersOf(ats))
      requires forall at :: at in ats ==> JumpAt(ideal, at, OpJump, to - (at + 5))
      modifies this`code
      ensures Agree(code, ideal, rest) && |code| == |old(code)|
    {
      hide Agree, JumpAt, LE32, ToWord;
      var i := 0;
      assert ats[0..] == ats;
      while i < |ats|
        invariant 0 <= i <= |ats| && |code| == |ideal| == |old(code)|
        invariant Agree(code, ideal, rest + NumbersOf(ats[i..]))
      {
        var at := ats[i];
        assert at in ats;
        AgreePatch(code, ideal, rest + NumbersOf(ats[i..]), at, OpJump, to - (at + 5));
        code := code[..at + 1] + LE32(ToWord(to - (at + 5))) + code[at + 5..];
        assert forall h :: h in ats[i..] <==> h == at || h in ats[i + 1..];
        AgreeMore(code, ideal, rest + NumbersOf(ats[i..]) - {at}, rest + NumbersOf(ats[i + 1..]));
        i := i + 1;
      }
      assert ats[i..] == [] && rest + NumbersOf([]) == rest;
    }

    /** Closes the innermost statement: its breaks lead to brk, its continues, which a switch
        does not have, to cont. */
    method PopLoop(brk: int, cont: int, ghost t: Target, ghost targets: seq<Target>)
      requires Inv(targets + [t]) && brk == t.brk && (t.isSwitch || 0 <= cont == t.cont)
      modifies this`code, this`loops
      ensures Inv(targets) && |code| == |old(code)|
    {
      hide Agree, JumpAt;
      var lp := loops[|loops| - 1];
      assert LoopOk(lp, t, ideal) by { assert (targets + [t])[|targets|] == t; }
      loops := loops[..|loops| - 1];
      ghost var rest := open + Pending(loops);
      PendingPop(old(loops));
      AgreeMore(code, ideal, open + Pending(old(loops)), rest + NumbersOf(lp.continues) + NumbersOf(lp.breaks));
      PatchAll(lp.breaks, brk, rest + NumbersOf(lp.continues));
      PatchAll(lp.continues, if cont < 0 then brk else cont, rest);
      assert forall k :: 0 <= k < |targets| ==> (targets + [t])[k] == targets[k];
    }

    /** Emits a jump that an enclosing loop will patch. */
    method EmitPending(k: nat, isBreak: bool, ghost targets: seq<Target>)
      requires Inv(targets) && k < |loops| && (isBreak || !targets[k].isSwitch)
      modifies this`code, this`ideal, this`loops
      ensures Inv(targets) && |targets| == |loops| && |loops| == |old(loops)|
      ensures k < |targets| && ideal == old(ideal) + JumpBy(OpJump, Dest(targets[k], isBreak) - (|old(ideal)| + 5))
    {
      hide JumpAt, LE32, ToWord, LoopOk, Pending, Note, JumpBy;
      var at := |code|;
      ghost var d := Dest(targets[k], isBreak) - (at + 5);
      assert I4(OpJump, 0)[0] == JumpBy(OpJump, d)[0] by { JumpHead(d); }
      AgreeHole(code, ideal, open + Pending(loops), I4(OpJump, 0), JumpBy(OpJump, d));
      LoopsKept(loops, targets, ideal, JumpBy(OpJump, d));
      JumpHere(ideal, OpJump, d);
      code := code + I4(OpJump, 0);
      ideal := ideal + JumpBy(OpJump, d);
      loops := Note(loops, k, isBreak, at);
      NoteOk(old(loops), targets, ideal, k, isBreak, at);
      AgreeMore(code, ideal, old(open + Pending(loops)) + {at}, open + Pending(loops));
    }

    // ---------- Declarations ----------

    /** Gives each let name a fresh slot holding the dead-zone token. */
    method HoistLexicals(xs: seq<string>, ghost targets: seq<Target>)
      requires Inv(targets)
      modifies this`code, this`ideal, this`consts, this`locals, this`names
      ensures var h := Hoist(xs, old(names), old(consts), old(locals));
              && Inv(targets) && ideal == old(ideal) + h.code && consts == h.consts
              && names == h.names && locals == h.locals
    {
      hide Inv, I0, I4, Named, AddConst;
      var i := 0;
      assert xs[0..] == xs;
      while i < |xs|
        invariant 0 <= i <= |xs| && Inv(targets)
        invariant var h, now := Hoist(xs, old(names), old(consts), old(locals)), Hoist(xs[i..], names, consts, locals);
                  && ideal + now.code == old(ideal) + h.code && now.consts == h.consts
                  && now.names == h.names && now.locals == h.locals
      {
        assert xs[i..][1..] == xs[i + 1..];
        EmitTdz(xs[i], targets);
        i := i + 1;
      }
      assert xs[i..] == [];
    }

    method EmitTdz(x: string, ghost targets: seq<Target>)
      requires Inv(targets)
      modifies this`code, this`ideal, this`consts, this`locals, this`names
      ensures var t := Named(OpGetGlobal, TDZ_NAME, old(consts));
              && Inv(targets) && consts == t.consts
              && ideal == old(ideal) + (t.code + I4(OpSetLocal, Pack(old(locals))) + I0(OpPop))
              && names == old(names)[x := old(locals)] && locals == old(locals) + 1
    {
      hide Inv, I0, I4, AddConst;
      ConstOp(OpGetGlobal, StrConst(TDZ_NAME), targets);
      var slot := locals;
      locals := locals + 1;
      names := names[x := slot];
      Emit32(OpSetLocal, Pack(slot), targets);
      Emit(OpPop, targets);
      Cat(old(ideal), Named(OpGetGlobal, TDZ_NAME, old(consts)).code, I4(OpSetLocal, Pack(slot)), I0(OpPop), [], []);
    }

    method CompileDecls(isLet: bool, ds: seq<Decl>, ghost targets: seq<Target>)
      requires Inv(targets)
      modifies this`code, this`ideal, this`consts, this`open, this`names, this`locals
      ensures var g := GenDecls(isLet, ds, old(names), old(consts), old(locals));
              && Inv(targets) && ideal == old(ideal) + g.code && consts == g.consts && open == old(open)
              && names == g.names && locals == g.locals
    {
      hide Inv, I0, GenE, SizeE, GenStore, GenDecls, Declare;
      var i := 0;
      assert ds[0..] == ds;
      while i < |ds|
        invariant 0 <= i <= |ds| && Inv(targets) && open == old(open)
        invariant var g, now := GenDecls(isLet, ds, old(names), old(consts), old(locals)), GenDecls(isLet, ds[i..], names, consts, locals);
                  && ideal + now.code == old(ideal) + g.code && now.consts == g.consts
                  && now.names == g.names && now.locals == g.locals
      {
        DeclsStep(isLet, ds, i, names, consts, locals);
        if ds[i].init.Some? || isLet { CompileDecl(ds[i], targets); } else { DeclareName(ds[i].name); }
        i := i + 1;
      }
      DeclsStep(isLet, ds, i, names, consts, locals);
    }

    /** The slot of x in the current scope, a new one if it has none. */
    method DeclareName(x: string)
      modifies this`names, this`locals
      ensures (names, locals) == Declare(x, old(names), old(locals))
    {
      if x !in names { names, locals := names[x := locals], locals + 1; }
    }

    method CompileDecl(d: Decl, ghost targets: seq<Target>)
      requires Inv(targets)
      modifies this`code, this`ideal, this`consts, this`open, this`names, this`locals
      ensures var g := if d.init.Some? then GenE(d.init.value, old(names), old(consts)) else G(I0(OpUndefined), old(consts));
              var s := GenStore(d.name, names, g.consts);
              && Inv(targets) && ideal == old(ideal) + (g.code + s.code + I0(OpPop)) && consts == s.consts
              && open == old(open) && (names, locals) == Declare(d.name, old(names), old(locals))
    {
      hide Inv, I0, GenE, SizeE, GenStore, Declare;
      if d.init.Some? { Expr(d.init.value, targets); } else { Emit(OpUndefined, targets); }
      DeclareName(d.name);
      StoreIdent(d.name, targets);
      Emit(OpPop, targets);
    }

    // ---------- Statements ----------

    method StmtList(body: seq<Stmt>, ghost targets: seq<Target>)
      requires Inv(targets) && JumpsL(body, Ctx(targets))
      modifies this
      ensures Inv(targets) && open == old(open)
      ensures var g := GenL(body, old(names), |old(code)|, old(consts), old(locals), targets);
              ideal == old(ideal) + g.code && consts == g.consts && names == g.names && locals == g.locals
      decreases body, 2
    {
      hide Inv, GenS, SizeS, JumpsS;
      var i := 0;
      assert body[0..] == body;
      while i < |body|
        invariant 0 <= i <= |body| && Inv(targets) && open == old(open)
        invariant JumpsL(body[i..], Ctx(targets))
        invariant var g, now := GenL(body, old(names), |old(code)|, old(consts), old(locals), targets),
                                GenL(body[i..], names, |code|, consts, locals, targets);
                  && ideal + now.code == old(ideal) + g.code && now.consts == g.consts
                  && now.names == g.names && now.locals == g.locals
      {
        assert body[i..][1..] == body[i + 1..];
        Stmt(body[i], targets);
        i := i + 1;
      }
      assert body[i..] == [];
    }

    method Stmt(st: Stmt, ghost targets: seq<Target>)
      requires Inv(targets) && JumpsS(st, Ctx(targets))
      modifies this
      ensures Inv(targets) && open == old(open)
      ensures var g := GenS(st, old(names), |old(code)|, old(consts), old(locals), targets);
              ideal == old(ideal) + g.code && consts == g.consts && names == g.names && locals == g.locals
      decreases st, 1
    {
      hide Inv, I0, GenE, SizeE, GenDecls, SizeDecls, GenFor, GenSwitch, JumpBy, BreakIndex, ContinueIndex, GenL,
           Hoist, GenS, SizeS, SizeL, LexNames, Dest, JumpsS;
      SimpleShape(st, names, |code|, consts, locals, targets);
      match st {
        case ExprStmt(_) => CompileSimple(st, targets);
        case EmptyStmt =>
        case VarDecl(isLet, ds) => CompileDecls(isLet, ds, targets);
        case Block(_) => CompileBlock(st, targets);
        case If(_, _, _) => CompileIf(st, targets);
        case While(_, _, _) => CompileWhile(st, targets);
        case DoWhile(_, _, _) => CompileDo(st, targets);
        case For(_, _, _, _, _) => CompileFor(st, targets);
        case Switch(_, _, _) => CompileSwitch(st, targets);
        case Break(_) => CompileJump(st, targets);
        case Continue(_) => CompileJump(st, targets);
        case Return(_) => CompileSimple(st, targets);
        case Throw(_) => CompileSimple(st, targets);
      }
    }

    /** An expression and what becomes of its value. */
    method CompileSimple(st: Stmt, ghost targets: seq<Target>)
      requires Inv(targets) && (st.ExprStmt? || st.Return? || st.Throw?)
      modifies this`code, this`ideal, this`consts, this`open
      ensures Inv(targets) && open == old(open)
      ensures var g := GenS(st, names, |old(code)|, old(consts), locals, targets);
              ideal == old(ideal) + g.code && consts == g.consts && names == g.names && locals == g.locals
    {
      hide Inv, I0, GenE, GenDecls, GenFor, GenSwitch, JumpBy, BreakIndex, ContinueIndex, GenL, Hoist, GenS, LexNames;
      SimpleShape(st, names, |code|, consts, locals, targets);
      match st {
        case ExprStmt(e) => ExprThen(e, OpPop, targets);
        case Return(a) =>
          if a.Some? {
            ExprThen(a.value, OpReturn, targets);
          } else {
            Emit(OpUndefined, targets);
            Emit(OpReturn, targets);
          }
        case Throw(e) => ExprThen(e, OpThrow, targets);
      }
    }

    method ExprThen(e: Expr, op: Op, ghost targets: seq<Target>)
      requires Inv(targets) && Width(op) == 0
      modifies this`code, this`ideal, this`consts, this`open
      ensures var g := GenE(e, names, old(consts));
              Inv(targets) && ideal == old(ideal) + (g.code + I0(op)) && consts == g.consts && open == old(open)
      decreases e, 2
    {
      hide Inv, I0, GenE;
      Expr(e, targets);
      Emit(op, targets);
    }

    method CompileJump(st: Stmt, ghost targets: seq<Target>)
      requires Inv(targets) && (st.Break? || st.Continue?) && JumpsS(st, Ctx(targets))
      modifies this`code, this`ideal, this`loops
      ensures Inv(targets)
      ensures var g := GenS(st, names, |old(code)|, consts, locals, targets);
              ideal == old(ideal) + g.code && consts == g.consts && names == g.names && locals == g.locals
    {
      hide Inv, JumpBy, BreakIndex, ContinueIndex, GenS, Dest;
      SimpleShape(st, names, |code|, consts, locals, targets);
      WfIndex(targets, st.target);
      if st.Break? {
        var k := FindBreak(st.target, targets);
        EmitPending(k, true, targets);
      } else {
        var k := FindContinue(st.target, targets);
        EmitPending(k, false, targets);
      }
    }

    /** The innermost statement a break leaves, or -1. */
    method FindBreak(l: Option<string>, ghost targets: seq<Target>) returns (k: int)
      requires Inv(targets)
      ensures k == BreakIndex(targets, l) && k < |loops|
    {
      hide Agree, LoopOk, BreakIndex;
      LabelsKept(loops, targets, ideal);
      k := |loops| - 1;
      if l.Some? {
        while k >= 0 && loops[k].lbl != l
          invariant -1 <= k < |loops|
          invariant forall j :: k < j < |loops| ==> loops[j].lbl != l
        {
          k := k - 1;
        }
      }
      IsBreakIndex(targets, l, k);
    }

    /** The innermost loop a continue goes on with, or -1. */
    method FindContinue(l: Option<string>, ghost targets: seq<Target>) returns (k: int)
      requires Inv(targets)
      ensures k == ContinueIndex(targets, l) && k < |loops|
    {
      hide Agree, LoopOk, ContinueIndex;
      LabelsKept(loops, targets, ideal);
      k := |loops| - 1;
      while k >= 0 && (loops[k].isSwitch || (l.Some? && loops[k].lbl != l))
        invariant -1 <= k < |loops|
        invariant forall j :: k < j < |loops| ==> loops[j].isSwitch || (l.Some? && loops[j].lbl != l)
      {
        k := k - 1;
      }
      IsContinueIndex(targets, l, k);
    }

    method CompileBlock(st: Stmt, ghost targets: seq<Target>)
      requires Inv(targets) && st.Block? && JumpsS(st, Ctx(targets))
      modifies this
      ensures Inv(targets) && open == old(open)
      ensures var g := GenS(st, old(names), |old(code)|, old(consts), old(locals), targets);
              ideal == old(ideal) + g.code && consts == g.consts && names == g.names && locals == g.locals
      decreases st, 0
    {
      hide Inv, GenS, GenL, SizeL, Hoist, LexNames, JumpsL;
      SimpleShape(st, names, |code|, consts, locals, targets);
      var Block(body) := st;
      var outer := names;
      HoistLexicals(LexNames(body), targets);
      ghost var h := Hoist(LexNames(body), outer, old(consts), old(locals));
      ghost var g := GenL(body, names, |code|, consts, locals, targets);
      StmtList(body, targets);
      Cat(old(ideal), h.code, g.code, [], [], []);
      names := outer;
    }

    method CompileIf(st: Stmt, ghost targets: seq<Target>)
      requires Inv(targets) && st.If? && JumpsS(st, Ctx(targets))
      modifies this
      ensures Inv(targets) && open == old(open)
      ensures var g := GenS(st, old(names), |old(code)|, old(consts), old(locals), targets);
              ideal == old(ideal) + g.code && consts == g.consts && names == g.names && locals == g.locals
      decreases st, 0
    {
      hide Inv, I0, GenS, GenE, SizeE, JumpBy, SizeS, JumpAt;
      IfPieces(st, names, |code|, consts, locals, targets);
      var If(t, a, b) := st;
      ghost var toElse := SizeS(a) + if b.Some? then 5 else 0;
      ghost var gt := GenE(t, names, consts);
      ghost var ga := GenS(a, names, |code| + SizeE(t) + 5, gt.consts, locals, targets);
      Expr(t, targets);
      var jf := EmitJump(OpJumpIfFalse, toElse, targets);
      ghost var upTo := ideal;
      Stmt(a, targets);
      if b.Some? {
        ghost var gb := GenS(b.value, names, |code| + 5, consts, locals, targets);
        CompileElse(b.value, jf, toElse, upTo, targets);
        Cat(old(ideal), gt.code, JumpBy(OpJumpIfFalse, toElse), ga.code, JumpBy(OpJump, SizeS(b.value)), gb.code);
      } else {
        Land(jf, |code|, upTo, OpJumpIfFalse, toElse, targets);
        Cat(old(ideal), gt.code, JumpBy(OpJumpIfFalse, toElse), ga.code, [], []);
      }
    }

    /** The jump over the alternative, where the test's jump lands, and the alternative. */
    method CompileElse(st: Stmt, jf: int, ghost toElse: int, ghost upTo: seq<int>, ghost targets: seq<Target>)
      requires Inv(targets) && JumpsS(st, Ctx(targets))
      requires upTo <= ideal && JumpAt(upTo, jf, OpJumpIfFalse, toElse) && toElse == |code| + 5 - (jf + 5)
      modifies this
      ensures Inv(targets) && open == old(open) - {jf}
      ensures var g := GenS(st, old(names), |old(code)| + 5, old(consts), old(locals), targets);
              ideal == old(ideal) + JumpBy(OpJump, SizeS(st)) + g.code && consts == g.consts && names == g.names && locals == g.locals
      decreases st, 2
    {
      hide Inv, I0, GenS, JumpBy, SizeS, JumpAt;
      var jend := EmitJump(OpJump, SizeS(st), targets);
      ghost var upTo2 := ideal;
      Land(jf, |code|, upTo, OpJumpIfFalse, toElse, targets);
      Stmt(st, targets);
      Land(jend, |code|, upTo2, OpJump, SizeS(st), targets);
    }

    method CompileWhile(st: Stmt, ghost targets: seq<Target>)
      requires Inv(targets) && st.While? && JumpsS(st, Ctx(targets))
      modifies this
      ensures Inv(targets) && open == old(open)
      ensures var g := GenS(st, old(names), |old(code)|, old(consts), old(locals), targets);
              ideal == old(ideal) + g.code && consts == g.consts && names == g.names && locals == g.locals
      decreases st, 0
    {
      hide Inv, I0, GenS, GenE, SizeE, JumpBy, SizeS, JumpAt;
      WhileShape(st, names, |code|, consts, locals, targets);
      var While(l, t, s) := st;
      var top := |code|;
      Expr(t, targets);
      var jf := EmitJump(OpJumpIfFalse, SizeS(s) + 5, targets);
      ghost var upTo := ideal;
      ghost var target := Target(l, false, |code| + SizeS(s) + 5, |code| + SizeS(s));
      CtxPush(targets, target);
      PushLoop(l, false, target, targets);
      Stmt(s, targets + [target]);
      var cont := |code|;
      EmitBack(OpJump, top, targets + [target]);
      Land(jf, |code|, upTo, OpJumpIfFalse, SizeS(s) + 5, targets + [target]);
      PopLoop(|code|, cont, target, targets);
    }

    /** A jump back to `top`, patched at once. */
    method EmitBack(op: Op, top: int, ghost targets: seq<Target>)
      requires Inv(targets) && Width(op) == 4
      modifies this`code, this`ideal, this`open
      ensures Inv(targets) && ideal == old(ideal) + JumpBy(op, top - (|old(code)| + 5)) && open == old(open)
    {
      hide Inv, JumpBy, JumpAt;
      var back := EmitJump(op, top - (|code| + 5), targets);
      Patch32(back, top - (back + 5), op, targets);
    }

    method CompileDo(st: Stmt, ghost targets: seq<Target>)
      requires Inv(targets) && st.DoWhile? && JumpsS(st, Ctx(targets))
      modifies this
      ensures Inv(targets) && open == old(open)
      ensures var g := GenS(st, old(names), |old(code)|, old(consts), old(locals), targets);
              ideal == old(ideal) + g.code && consts == g.consts && names == g.names && locals == g.locals
      decreases st, 0
    {
      hide Inv, I0, GenS, GenE, SizeE, JumpBy, SizeS, JumpAt;
      DoShape(st, names, |code|, consts, locals, targets);
      var DoWhile(l, s, t) := st;
      var top := |code|;
      ghost var target := Target(l, false, top + SizeS(s) + SizeE(t) + 5, top + SizeS(s));
      CtxPush(targets, target);
      PushLoop(l, false, target, targets);
      Stmt(s, targets + [target]);
      var cont := |code|;
      ghost var gs := GenS(s, names, top, old(consts), old(locals), targets + [target]);
      ghost var gt := GenE(t, names, consts);
      Expr(t, targets + [target]);
      EmitBack(OpJumpIfTrue, top, targets + [target]);
      PopLoop(|code|, cont, target, targets);
      Cat(old(ideal), gs.code, gt.code, JumpBy(OpJumpIfTrue, -(SizeS(s) + SizeE(t) + 5)), [], []);
    }

    method CompileFor(st: Stmt, ghost targets: seq<Target>)
      requires Inv(targets) && st.For? && JumpsS(st, Ctx(targets))
      modifies this
      ensures Inv(targets) && open == old(open)
      ensures var g := GenFor(st, old(names), |old(code)|, old(consts), old(locals), targets);
              ideal == old(ideal) + g.code && consts == g.consts && names == g.names && locals == g.locals
      decreases st, 0, 1
    {
      hide Inv, Hoist, GenInit, SizeInit, GenS, GenFor, InitNames, ForLoop;
      ForShape(st, names, |code|, consts, locals, targets);
      var outer := names;
      HoistLexicals(InitNames(st.init), targets);
      ghost var h := Hoist(InitNames(st.init), outer, old(consts), old(locals));
      ghost var gi := GenInit(st.init, names, h.consts, locals);
      CompileInit(st.init, targets);
      ghost var g := ForLoop(st, names, |code|, consts, locals, targets);
      CompileForLoop(st, targets);
      Cat(old(ideal), h.code, gi.code, g.code, [], []);
      if st.init.InitDecl? && st.init.isLet { names := outer; }
    }

    method CompileForLoop(st: Stmt, ghost targets: seq<Target>)
      requires Inv(targets) && st.For? && JumpsS(st.loop, Ctx(targets) + [Context(st.lbl, false)])
      modifies this
      ensures Inv(targets) && open == old(open)
      ensures var g := ForLoop(st, old(names), |old(code)|, old(consts), old(locals), targets);
              ideal == old(ideal) + g.code && consts == g.consts && names == g.names && locals == g.locals
      decreases st, 0, 0
    {
      hide Inv, JumpBy, SizeS, JumpAt, GenTest, SizeTest, GenUpdate, SizeUpdate, GenS, JumpsS;
      var For(l, init, t, u, s) := st;
      var top := |code|;
      ghost var d := SizeS(s) + SizeUpdate(u) + 5;
      ghost var gt := GenTest(t, d, names, consts);
      var jf := CompileTest(t, d, targets);
      ghost var upTo := ideal;
      ghost var target := Target(l, false, |code| + d, |code| + SizeS(s));
      CtxPush(targets, target);
      PushLoop(l, false, target, targets);
      ghost var gs := GenS(s, names, |code|, consts, locals, targets + [target]);
      Stmt(s, targets + [target]);
      var cont := |code|;
      ghost var gu := GenUpdate(u, names, consts);
      CompileUpdateOf(u, targets + [target]);
      EmitBack(OpJump, top, targets + [target]);
      if jf >= 0 { Land(jf, |code|, upTo, OpJumpIfFalse, d, targets + [target]); }
      PopLoop(|code|, cont, target, targets);
      Cat(old(ideal), gt.code, gs.code, gu.code, JumpBy(OpJump, top - |code|), []);
    }

    // ---------- switch ----------

    method CompileSwitch(st: Stmt, ghost targets: seq<Target>)
      requires Inv(targets) && st.Switch? && JumpsS(st, Ctx(targets))
      modifies this
      ensures Inv(targets) && open == old(open)
      ensures var g := GenSwitch(st, old(names), |old(code)|, old(consts), old(locals), targets);
              ideal == old(ideal) + g.code && consts == g.consts && names == g.names && locals == g.locals
      decreases st, 0
    {
      hide Inv, JumpBy, GenE, SizeE, SizeTests, GenBodies, SizeBodies, SizeS, JumpAt, JumpsTo, GenSwitch, JumpsCases,
           SwitchHead;
      SwitchShape(st, names, |code|, consts, locals, targets);
      var cases := st.cases;
      ghost var t := SwitchTarget(st, |code|);
      CtxPush(targets, t);
      ghost var gd := GenE(st.disc, names, consts);
      Expr(st.disc, targets);
      ghost var h := SwitchHead(cases, names, |code|, consts);
      PushLoop(st.lbl, true, t, targets);
      var entryToBody, endAfterPop := CompileSwitchHead(cases, targets + [t]);
      ghost var upTo := ideal;
      ghost var g := GenBodies(cases, names, |code|, consts, locals, targets + [t]);
      CompileBodies(cases, entryToBody, old(open) + {endAfterPop}, targets + [t]);
      Land(endAfterPop, |code|, upTo, OpJump, SizeBodies(cases), targets + [t]);
      PopLoop(|code|, -1, t, targets);
      Cat(old(ideal), gd.code, h.code, g.code, [], []);
    }

    /** Tests, entries and the jumps between them; the jumps to the bodies and past them stay open. */
    method CompileSwitchHead(cases: seq<Case>, ghost targets: seq<Target>) returns (entryToBody: seq<int>, endAfterPop: int)
      requires Inv(targets)
      modifies this`code, this`ideal, this`consts, this`open
      ensures Inv(targets)
      ensures var h := SwitchHead(cases, names, |old(code)|, old(consts)); ideal == old(ideal) + h.code && consts == h.consts
      ensures JumpsTo(ideal, entryToBody, OpJump, BodyStarts(cases, |code|, |cases|))
      ensures JumpAt(ideal, endAfterPop, OpJump, SizeBodies(cases))
      ensures open == old(open) + {endAfterPop} + Waiting(entryToBody)
      ensures endAfterPop == |code| - 5 && endAfterPop !in old(open)
      ensures (old(open) + {endAfterPop}) !! Waiting(entryToBody) && -1 !in entryToBody
      ensures Within(entryToBody, 0, |code|)
    {
      hide Inv, I0, JumpBy, GenTests, SizeTests, GenEntries, SizeBodies, LastDefault, JumpAt, JumpsTo, BodyStarts,
           EntryIPs, Waiting, Within;
      ghost var entries := |code| + SizeTests(cases) + 5;
      ghost var default := LastDefault(cases, 0, |cases|);
      ghost var gt := GenTests(cases, 0, names, |code|, entries, consts);
      var matchJumps, defaultIdx := CompileTests(cases, entries, targets);
      ghost var upTo := ideal;
      var noMatch, entryIPs, endPop;
      noMatch, entryIPs, entryToBody, endPop, endAfterPop := EmitEntries(cases, targets);
      Cat(old(ideal), gt.code, DispatchCode(cases, entries), [], [], []);
      ghost var rest := old(open) + {noMatch} + Waiting(entryToBody) + {endAfterPop};
      OpenParts(old(open), old(|code|), matchJumps, noMatch, entryToBody, endAfterPop);
      JumpsToKept(upTo, ideal, matchJumps, OpJumpIfTrue, EntryIPs(entries, |cases|));
      PatchEach(matchJumps, entryIPs, OpJumpIfTrue, rest, targets);
      EntryAt(entries, |cases|, defaultIdx);
      Land(noMatch, if defaultIdx >= 0 then entryIPs[defaultIdx] else endPop, ideal, OpJump, 6 * default, targets);
    }

    /** The jump taken without a match, the entries, and the jump past the bodies. */
    method EmitEntries(cases: seq<Case>, ghost targets: seq<Target>)
      returns (noMatch: int, entryIPs: seq<int>, entryToBody: seq<int>, endPop: int, endAfterPop: int)
      requires Inv(targets)
      modifies this`code, this`ideal, this`open
      ensures Inv(targets) && ideal == old(ideal) + DispatchCode(cases, |old(code)| + 5)
      ensures noMatch == |old(code)| && endPop == |code| - 6 == noMatch + 5 + 6 * |cases| && endAfterPop == |code| - 5
      ensures entryIPs == EntryIPs(noMatch + 5, |cases|) && -1 !in entryToBody
      ensures Within(entryToBody, noMatch + 1, endAfterPop) && Within(entryToBody, 0, |code|)
      ensures JumpAt(ideal, noMatch, OpJump, 6 * LastDefault(cases, 0, |cases|))
      ensures JumpsTo(ideal, entryToBody, OpJump, BodyStarts(cases, |code|, |cases|))
      ensures JumpAt(ideal, endAfterPop, OpJump, SizeBodies(cases))
      ensures open == old(open) + {noMatch} + Waiting(entryToBody) + {endAfterPop}
    {
      hide Inv, I0, JumpBy, GenEntries, SizeBodies, LastDefault, JumpAt, JumpsTo, BodyStarts, EntryIPs, Waiting, Within;
      ghost var entries := |code| + 5;
      ghost var bodies := entries + 6 * |cases| + 6;
      ghost var default := LastDefault(cases, 0, |cases|);
      noMatch := EmitJump(OpJump, 6 * default, targets);
      ghost var upTo := ideal;
      entryIPs, entryToBody := CompileEntries(cases, bodies, targets);
      ghost var upTo1 := ideal;
      endPop := |code|;
      Emit(OpPop, targets);
      endAfterPop := EmitJump(OpJump, SizeBodies(cases), targets);
      Cat(old(ideal), JumpBy(OpJump, 6 * default), GenEntries(cases, 0, entries, bodies), I0(OpPop),
          JumpBy(OpJump, SizeBodies(cases)), []);
      WithinMore(entryToBody, entries, endPop, noMatch + 1, endAfterPop);
      WithinMore(entryToBody, entries, endPop, 0, |code|);
      JumpsToKept(upTo1, ideal, entryToBody, OpJump, BodyStarts(cases, bodies, |cases|));
      JumpUpTo(upTo, ideal, noMatch, OpJump, 6 * default);
    }

    /** The tests in order, each jumping to the entry of its case; -1 stands where a default has no test. */
    method CompileTests(cases: seq<Case>, ghost entries: int, ghost targets: seq<Target>)
      returns (matchJumps: seq<int>, defaultIdx: int)
      requires Inv(targets)
      modifies this`code, this`ideal, this`consts, this`open
      ensures Inv(targets)
      ensures var g := GenTests(cases, 0, names, |old(code)|, entries, old(consts)); ideal == old(ideal) + g.code && consts == g.consts
      ensures JumpsTo(ideal, matchJumps, OpJumpIfTrue, EntryIPs(entries, |cases|))
      ensures open == old(open) + Waiting(matchJumps)
      ensures Within(matchJumps, |old(code)|, |code|)
      ensures -1 <= defaultIdx < |cases|
      ensures (if defaultIdx >= 0 then defaultIdx else |cases|) == LastDefault(cases, 0, |cases|)
    {
      hide Inv, I0, JumpBy, GenE, SizeE, SizeTests, JumpAt, JumpsTo, EntryIPs, Waiting, Within;
      WithinNone(|code|);
      matchJumps, defaultIdx := [], -1;
      var i := 0;
      assert cases[0..] == cases;
      NoJumps(ideal, OpJumpIfTrue, entries);
      while i < |cases|
        invariant 0 <= i <= |cases| && Inv(targets)
        invariant var g, now := GenTests(cases, 0, names, |old(code)|, entries, old(consts)),
                                GenTests(cases[i..], i, names, |code|, entries, consts);
                  ideal + now.code == old(ideal) + g.code && now.consts == g.consts
        invariant JumpsTo(ideal, matchJumps, OpJumpIfTrue, EntryIPs(entries, i))
        invariant open == old(open) + Waiting(matchJumps)
        invariant Within(matchJumps, |old(code)|, |code|) && |old(code)| <= |code|
        invariant -1 <= defaultIdx < i
        invariant LastDefault(cases[i..], i, if defaultIdx >= 0 then defaultIdx else |cases|) == LastDefault(cases, 0, |cases|)
      {
        assert cases[i..][1..] == cases[i + 1..];
        var at := -1;
        ghost var upTo := ideal;
        if cases[i].test.None? {
          defaultIdx := i;
        } else {
          at := CompileTestOf(cases[i].test.value, entries + 6 * i, targets);
        }
        AddJump(upTo, ideal, matchJumps, OpJumpIfTrue, entries, i, at);
        WithinAdd(matchJumps, at, |old(code)|, |upTo|, |code|);
        matchJumps := matchJumps + [at];
        i := i + 1;
      }
      assert cases[i..] == [];
    }

    method CompileTestOf(e: Expr, ghost entry: int, ghost targets: seq<Target>) returns (at: int)
      requires Inv(targets)
      modifies this`code, this`ideal, this`consts, this`open
      ensures var g := GenE(e, names, old(consts));
              && Inv(targets) && consts == g.consts && at == |code| - 5 && |code| == |old(code)| + SizeE(e) + 7
              && ideal == old(ideal) + (I0(OpDup) + g.code + I0(OpBin(StrictEq)) + JumpBy(OpJumpIfTrue, entry - (at + 5)))
      ensures open == old(open) + {at} && JumpAt(ideal, at, OpJumpIfTrue, entry - (at + 5))
    {
      hide Inv, I0, JumpBy, GenE, SizeE, JumpAt;
      ghost var g := GenE(e, names, consts);
      Emit(OpDup, targets);
      Expr(e, targets);
      Emit(OpBin(StrictEq), targets);
      at := EmitJump(OpJumpIfTrue, entry - (|code| + 5), targets);
      Cat(old(ideal), I0(OpDup), g.code, I0(OpBin(StrictEq)), JumpBy(OpJumpIfTrue, entry - (at + 5)), []);
    }

    /** One stub per case: drop the switch value, jump to the body. */
    method CompileEntries(cases: seq<Case>, ghost bodies: int, ghost targets: seq<Target>)
      returns (entryIPs: seq<int>, entryToBody: seq<int>)
      requires Inv(targets)
      modifies this`code, this`ideal, this`open
      ensures Inv(targets) && ideal == old(ideal) + GenEntries(cases, 0, |old(code)|, bodies)
      ensures entryIPs == EntryIPs(|old(code)|, |cases|)
      ensures JumpsTo(ideal, entryToBody, OpJump, BodyStarts(cases, bodies, |cases|))
      ensures open == old(open) + Waiting(entryToBody)
      ensures Within(entryToBody, |old(code)|, |code|) && -1 !in entryToBody
    {
      hide Inv, I0, JumpBy, SizeL, JumpAt, JumpsTo, EntryIPs, BodyStarts, Waiting, BodyAt, Within, GenEntries;
      WithinNone(|code|);
      entryIPs, entryToBody := [], [];
      var i := 0;
      assert cases[0..] == cases;
      NoStarts(ideal, cases, bodies, |code|);
      while i < |cases|
        invariant 0 <= i <= |cases| && Inv(targets) && |code| == |old(code)| + 6 * i
        invariant ideal + GenEntries(cases[i..], i, |old(code)|, BodyAt(cases, i, bodies))
                  == old(ideal) + GenEntries(cases, 0, |old(code)|, bodies)
        invariant entryIPs == EntryIPs(|old(code)|, i)
        invariant JumpsTo(ideal, entryToBody, OpJump, BodyStarts(cases, bodies, i))
        invariant open == old(open) + Waiting(entryToBody)
        invariant Within(entryToBody, |old(code)|, |code|) && -1 !in entryToBody
      {
        EntriesStep(cases, i, |old(code)|, BodyAt(cases, i, bodies));
        BodyNext(cases, i, bodies);
        ghost var upTo := ideal;
        ghost var to := BodyAt(cases, i, bodies);
        EntryNext(|old(code)|, i);
        entryIPs := entryIPs + [|code|];
        Emit(OpPop, targets);
        var at := EmitJump(OpJump, to - (|code| + 5), targets);
        Cat(upTo, I0(OpPop), JumpBy(OpJump, to - (at + 5)), GenEntries(cases[i + 1..], i + 1, |old(code)|, BodyAt(cases, i + 1, bodies)), [], []);
        AddStart(upTo, ideal, entryToBody, cases, bodies, i, at);
        WithinAdd(entryToBody, at, |old(code)|, |upTo|, |code|);
        entryToBody := entryToBody + [at];
        i := i + 1;
      }
      EntriesStep(cases, i, |old(code)|, BodyAt(cases, i, bodies));
    }

    /** The bodies one after the other; each entry's jump is patched as its body is reached. */
    method CompileBodies(cases: seq<Case>, entryToBody: seq<int>, ghost rest: set<int>, ghost targets: seq<Target>)
      requires Inv(targets) && JumpsCases(cases, Ctx(targets))
      requires JumpsTo(ideal, entryToBody, OpJump, BodyStarts(cases, |code|, |cases|))
      requires open == rest + Waiting(entryToBody) && rest !! Waiting(entryToBody)
      requires Within(entryToBody, 0, |code|) && -1 !in entryToBody
      modifies this
      ensures Inv(targets) && open == rest
      ensures var g := GenBodies(cases, old(names), |old(code)|, old(consts), old(locals), targets);
              ideal == old(ideal) + g.code && consts == g.consts && names == g.names && locals == g.locals
      decreases cases, 3
    {
      hide Inv, GenL, SizeL, JumpsL, JumpAt, BodyAt, JumpsTo, BodyStarts, Waiting, GenBodies;
      BodyFirst(cases, |code|);
      ghost var starts := BodyStarts(cases, |code|, |cases|);
      var i := 0;
      assert cases[0..] == cases && entryToBody[0..] == entryToBody;
      while i < |cases|
        invariant 0 <= i <= |cases| && Inv(targets)
        invariant JumpsCases(cases[i..], Ctx(targets)) && |code| == BodyAt(cases, i, |old(code)|)
        invariant JumpsTo(ideal, entryToBody, OpJump, starts)
        invariant rest <= open <= rest + Waiting(entryToBody[i..])
        invariant var g, now := GenBodies(cases, old(names), |old(code)|, old(consts), old(locals), targets),
                                GenBodies(cases[i..], names, |code|, consts, locals, targets);
                  && ideal + now.code == old(ideal) + g.code && now.consts == g.consts
                  && now.names == g.names && now.locals == g.locals
      {
        assert cases[i..][1..] == cases[i + 1..];
        BodiesStep(cases, i, names, |code|, consts, locals, targets);
        BodyNext(cases, i, |old(code)|);
        var bodyIP := |code|;
        WaitingNext(entryToBody, i);
        assert entryToBody[i] in entryToBody;
        StartOf(ideal, entryToBody, cases, |old(code)|, i);
        Patch32(entryToBody[i], bodyIP - (entryToBody[i] + 5), OpJump, targets);
        ghost var upTo := ideal;
        StmtList(cases[i].body, targets);
        JumpsToKept(upTo, ideal, entryToBody, OpJump, starts);
        i := i + 1;
      }
      assert entryToBody[i..] == [];
      BodiesStep(cases, i, names, |code|, consts, locals, targets);
      NoJumps(ideal, OpJump, 0);
    }

    /** Patches each jump that exists to its destination. */
    method PatchEach(ats: seq<int>, tos: seq<int>, ghost op: Op, ghost rest: set<int>, ghost targets: seq<Target>)
      requires Inv(targets) && Width(op) == 4 && JumpsTo(ideal, ats, op, tos)
      requires rest <= open <= rest + Waiting(ats) && rest !! Waiting(ats)
      modifies this`code, this`open
      ensures Inv(targets) && open == rest
    {
      hide Inv, JumpAt;
      var i := 0;
      assert ats[0..] == ats;
      while i < |ats|
        invariant 0 <= i <= |ats| && Inv(targets)
        invariant rest <= open <= rest + Waiting(ats[i..])
      {
        WaitingNext(ats, i);
        if ats[i] >= 0 { Patch32(ats[i], tos[i] - (ats[i] + 5), op, targets); }
        i := i + 1;
      }
      assert ats[i..] == [];
    }

    method CompileInit(init: ForInit, ghost targets: seq<Target>)
      requires Inv(targets)
      modifies this`code, this`ideal, this`consts, this`open, this`names, this`locals
      ensures var g := GenInit(init, old(names), old(consts), old(locals));
              && Inv(targets) && ideal == old(ideal) + g.code && consts == g.consts && open == old(open)
              && names == g.names && locals == g.locals
    {
      hide Inv, I0, GenE, SizeE, GenDecls;
      match init {
        case NoInit =>
        case InitExpr(e) =>
          Expr(e, targets);
          Emit(OpPop, targets);
        case InitDecl(isLet, ds) => CompileDecls(isLet, ds, targets);
      }
    }

    /** The loop test and its exit jump, left open; -1 without a test. */
    method CompileTest(t: Option<Expr>, ghost d: int, ghost targets: seq<Target>) returns (jf: int)
      requires Inv(targets)
      modifies this`code, this`ideal, this`consts, this`open
      ensures var g := GenTest(t, d, names, old(consts));
              Inv(targets) && ideal == old(ideal) + g.code && consts == g.consts
      ensures if t.Some? then jf == |code| - 5 >= 0 else jf == -1
      ensures jf >= 0 ==> JumpAt(ideal, jf, OpJumpIfFalse, d)
      ensures open == if t.Some? then old(open) + {jf} else old(open)
      ensures t.Some? ==> jf !in old(open)
    {
      hide Inv, I0, GenE, SizeE, JumpBy, JumpAt;
      jf := -1;
      if t.Some? {
        Expr(t.value, targets);
        jf := EmitJump(OpJumpIfFalse, d, targets);
      }
    }

    method CompileUpdateOf(u: Option<Expr>, ghost targets: seq<Target>)
      requires Inv(targets)
      modifies this`code, this`ideal, this`consts, this`open
      ensures var g := GenUpdate(u, names, old(consts));
              Inv(targets) && ideal == old(ideal) + g.code && consts == g.consts && open == old(open)
    {
      hide Inv, I0, GenE, SizeE;
      if u.Some? {
        Expr(u.value, targets);
        Emit(OpPop, targets);
      }
    }
  }

  lemma UpdateShape(o: seq<int>, load: seq<int>, delta: int, prefix: bool, store: seq<int>)
    ensures o + UpdateCode(load, delta, prefix, store)
      == if prefix then o + load + I4(OpInt32, ToWord(delta)) + I0(OpBin(Add)) + store
         else o + load + I0(OpDup) + I4(OpInt32, ToWord(delta)) + I0(OpBin(Add)) + store + I0(OpPop)
  {
    hide I0, I4;
  }

  lemma IsBreakIndex(targets: seq<Target>, l: Option<string>, k: int)
    requires -1 <= k < |targets| && (k >= 0 ==> Hits(l, targets[k].lbl))
    requires forall j :: k < j < |targets| ==> !Hits(l, targets[j].lbl)
    ensures k == BreakIndex(targets, l)
  {
    hide BreakIndex, Hits;
  }

  lemma IsContinueIndex(targets: seq<Target>, l: Option<string>, k: int)
    requires -1 <= k < |targets| && (k >= 0 ==> Hits(l, targets[k].lbl) && !targets[k].isSwitch)
    requires forall j :: k < j < |targets| ==> targets[j].isSwitch || !Hits(l, targets[j].lbl)
    ensures k == ContinueIndex(targets, l)
  {
    hide ContinueIndex, Hits;
  }

  // ---------- Jumps of a switch ----------

  /** Jumps that wait for a patch; -1 marks a case without one. */
  function Waiting(ats: seq<int>): set<int> { set x | x in ats && x >= 0 }

  lemma WaitingNext(ats: seq<int>, i: nat)
    requires i < |ats|
    ensures Waiting(ats[i..]) == Waiting(ats[i + 1..]) + (if ats[i] >= 0 then {ats[i]} else {})
    ensures ats[i] >= 0 ==> ats[i] in Waiting(ats)
  {
    assert ats[i..] == [ats[i]] + ats[i + 1..];
  }

  /** Every jump of ats stands between lo and hi. */
  predicate Within(ats: seq<int>, lo: int, hi: int) { forall at :: at in ats ==> at == -1 || lo <= at < hi }

  lemma WithinNone(at: int)
    ensures Within([], at, at)
  {}

  lemma WithinMore(ats: seq<int>, lo: int, hi: int, lo1: int, hi1: int)
    requires Within(ats, lo, hi) && lo1 <= lo && hi <= hi1
    ensures Within(ats, lo1, hi1)
  {}

  lemma WithinAdd(ats: seq<int>, at: int, lo: int, hi: int, hi1: int)
    requires Within(ats, lo, hi) && hi <= hi1 && (at == -1 || lo <= at < hi1)
    ensures Within(ats + [at], lo, hi1)
  {}

  /** In the finished code every jump of ats leads to its place in tos. */
  predicate JumpsTo(ideal: seq<int>, ats: seq<int>, op: Op, tos: seq<int>)
    requires Width(op) == 4
    ensures JumpsTo(ideal, ats, op, tos) ==> |ats| == |tos|
  {
    |ats| == |tos| && forall j :: 0 <= j < |ats| && ats[j] >= 0 ==> JumpAt(ideal, ats[j], op, tos[j] - (ats[j] + 5))
  }

  lemma JumpsToKept(upTo: seq<int>, ideal: seq<int>, ats: seq<int>, op: Op, tos: seq<int>)
    requires Width(op) == 4 && JumpsTo(upTo, ats, op, tos) && upTo <= ideal
    ensures JumpsTo(ideal, ats, op, tos)
  {
    hide JumpAt;
    assert upTo + ideal[|upTo|..] == ideal;
    forall j | 0 <= j < |ats| && ats[j] >= 0 ensures JumpAt(ideal, ats[j], op, tos[j] - (ats[j] + 5)) {
      JumpKept(upTo, ideal[|upTo|..], ats[j], op, tos[j] - (ats[j] + 5));
    }
  }

  /** Where the entries of n cases stand. */
  function EntryIPs(entries: int, n: nat): (r: seq<int>)
    ensures |r| == n
  {
    seq(n, j requires 0 <= j < n => entries + 6 * j)
  }

  lemma EntryAt(entries: int, n: nat, i: int)
    requires i < n
    ensures i >= 0 ==> EntryIPs(entries, n)[i] == entries + 6 * i
  {}

  /** The jumps of a switch are distinct and none was open before. */
  lemma OpenParts(open: set<int>, lo: int, matchJumps: seq<int>, noMatch: int, entryToBody: seq<int>, endAfterPop: int)
    requires forall h :: h in open ==> h < lo
    requires 0 <= lo <= noMatch < endAfterPop && Within(matchJumps, lo, noMatch) && Within(entryToBody, noMatch + 1, endAfterPop)
    ensures var rest := open + {noMatch} + Waiting(entryToBody) + {endAfterPop};
            && open + Waiting(matchJumps) + {noMatch} + Waiting(entryToBody) + {endAfterPop} == rest + Waiting(matchJumps)
            && rest !! Waiting(matchJumps) && rest - {noMatch} == open + {endAfterPop} + Waiting(entryToBody)
            && endAfterPop !in open && (open + {endAfterPop}) !! Waiting(entryToBody)
  {}

  lemma EntryNext(entries: int, i: nat)
    ensures EntryIPs(entries, i + 1) == EntryIPs(entries, i) + [entries + 6 * i]
  {}

  function BodyStarts(cases: seq<Case>, bodies: int, n: nat): (r: seq<int>)
    requires n <= |cases|
    ensures |r| == n
  {
    seq(n, j requires 0 <= j < n => BodyAt(cases, j, bodies))
  }

  lemma BodyFirst(cases: seq<Case>, pc: int)
    ensures BodyAt(cases, 0, pc) == pc
  {}

  lemma {:induction false} BodyNext(cases: seq<Case>, i: nat, pc: int)
    requires i < |cases|
    ensures BodyAt(cases, i + 1, pc) == BodyAt(cases, i, pc) + SizeL(cases[i].body)
  {
    if i > 0 { BodyNext(cases[1..], i - 1, pc + SizeL(cases[0].body)); }
  }

  lemma NoJumps(ideal: seq<int>, op: Op, entries: int)
    requires Width(op) == 4
    ensures JumpsTo(ideal, [], op, EntryIPs(entries, 0)) && Waiting([]) == {}
  {}

  lemma NoStarts(ideal: seq<int>, cases: seq<Case>, bodies: int, entries: int)
    ensures JumpsTo(ideal, [], OpJump, BodyStarts(cases, bodies, 0)) && Waiting([]) == {}
    ensures EntryIPs(entries, 0) == [] && BodyAt(cases, 0, bodies) == bodies
  {}

  lemma StartOf(ideal: seq<int>, ats: seq<int>, cases: seq<Case>, bodies: int, i: nat)
    requires i < |cases| && JumpsTo(ideal, ats, OpJump, BodyStarts(cases, bodies, |cases|)) && i < |ats| && ats[i] >= 0
    ensures JumpAt(ideal, ats[i], OpJump, BodyAt(cases, i, bodies) - (ats[i] + 5))
  {
    hide JumpAt;
  }

  lemma AddAny(upTo: seq<int>, ideal: seq<int>, ats: seq<int>, op: Op, tos: seq<int>, at: int, to: int)
    requires Width(op) == 4 && JumpsTo(upTo, ats, op, tos) && upTo <= ideal
    requires at >= 0 ==> JumpAt(ideal, at, op, to - (at + 5))
    ensures JumpsTo(ideal, ats + [at], op, tos + [to])
    ensures Waiting(ats + [at]) == Waiting(ats) + (if at >= 0 then {at} else {})
  {
    hide JumpAt;
    JumpsToKept(upTo, ideal, ats, op, tos);
  }

  lemma AddJump(upTo: seq<int>, ideal: seq<int>, ats: seq<int>, op: Op, entries: int, i: nat, at: int)
    requires Width(op) == 4 && JumpsTo(upTo, ats, op, EntryIPs(entries, i)) && upTo <= ideal
    requires at >= 0 ==> JumpAt(ideal, at, op, entries + 6 * i - (at + 5))
    ensures JumpsTo(ideal, ats + [at], op, EntryIPs(entries, i + 1))
    ensures Waiting(ats + [at]) == Waiting(ats) + (if at >= 0 then {at} else {})
  {
    hide JumpAt, JumpsTo, EntryIPs, Waiting;
    EntryNext(entries, i);
    AddAny(upTo, ideal, ats, op, EntryIPs(entries, i), at, entries + 6 * i);
  }

  lemma AddStart(upTo: seq<int>, ideal: seq<int>, ats: seq<int>, cases: seq<Case>, bodies: int, i: nat, at: int)
    requires i < |cases| && JumpsTo(upTo, ats, OpJump, BodyStarts(cases, bodies, i)) && upTo <= ideal
    requires at >= 0 && JumpAt(ideal, at, OpJump, BodyAt(cases, i, bodies) - (at + 5))
    ensures JumpsTo(ideal, ats + [at], OpJump, BodyStarts(cases, bodies, i + 1))
    ensures Waiting(ats + [at]) == Waiting(ats) + {at}
  {
    hide JumpAt, JumpsTo, Waiting;
    assert BodyStarts(cases, bodies, i + 1) == BodyStarts(cases, bodies, i) + [BodyAt(cases, i, bodies)];
    AddAny(upTo, ideal, ats, OpJump, BodyStarts(cases, bodies, i), at, BodyAt(cases, i, bodies));
  }

  /** A switch after its discriminant and before its first body. */
  function SwitchHead(cases: seq<Case>, names: Names, pc: int, cs: seq<Const>): G {
    var entries := pc + SizeTests(cases) + 5;
    var gt := GenTests(cases, 0, names, pc, entries, cs);
    G(gt.code + DispatchCode(cases, entries), gt.consts)
  }

  function DispatchCode(cases: seq<Case>, entries: int): (r: seq<int>)
    ensures |r| == 5 + 6 * |cases| + 6
  {
    JumpBy(OpJump, 6 * LastDefault(cases, 0, |cases|)) + GenEntries(cases, 0, entries, entries + 6 * |cases| + 6)
    + I0(OpPop) + JumpBy(OpJump, SizeBodies(cases))
  }

  lemma SwitchShape(st: Stmt, names: Names, pc: int, cs: seq<Const>, locals: nat, ts: seq<Target>)
    requires st.Switch?
    ensures
      var gd := GenE(st.disc, names, cs);
      var h := SwitchHead(st.cases, names, pc + SizeE(st.disc), gd.consts);
      var g := GenBodies(st.cases, names, pc + SizeE(st.disc) + |h.code|, h.consts, locals, ts + [SwitchTarget(st, pc)]);
      && GenSwitch(st, names, pc, cs, locals, ts) == GS(gd.code + h.code + g.code, g.consts, g.names, g.locals)
      && pc + SizeS(st) == pc + SizeE(st.disc) + |h.code| + SizeBodies(st.cases)
  {
    hide GenE, SizeE, GenTests, SizeTests, GenEntries, GenBodies, SizeBodies, LastDefault, I0, JumpBy;
  }

  lemma LabelsKept(loops: seq<LoopCtx>, targets: seq<Target>, ideal: seq<int>)
    requires LoopsOk(loops, targets, ideal)
    ensures forall j :: 0 <= j < |loops| ==> loops[j].lbl == targets[j].lbl && loops[j].isSwitch == targets[j].isSwitch
  {
    hide JumpAt;
  }

  /** Compiles a whole function: parameters, hoisted vars and lets, the body, a final return. */
  method CompileFunction(f: Function) returns (chunk: Chunk)
    requires JumpsL(f.body, [])
    ensures chunk == Compile(f)
  {
    hide GenL, SizeL, LexNames, VarNamesIn, Hoist, JumpsL, Agree, LoopsOk, Pending, Compiler.Inv, I0, DeclareAll,
         ParamSlots;
    var c := new Compiler();
    c.names := DeclareParams(f.params);
    c.names, c.locals := DeclareVars(VarNamesIn(f.body), c.names, |f.params|);
    ghost var names0, locals0 := c.names, c.locals;
    c.HoistLexicals(LexNames(f.body), []);
    ghost var h := Hoist(LexNames(f.body), names0, [], locals0);
    ghost var b := GenL(f.body, h.names, |h.code|, h.consts, h.locals, []);
    c.StmtList(f.body, []);
    c.Emit(OpUndefined, []);
    c.Emit(OpReturn, []);
    Cat(h.code, b.code, I0(OpUndefined), I0(OpReturn), [], []);
    c.Finished();
    chunk := Chunk(c.code, c.consts, c.locals, |f.params|);
  }

  method DeclareParams(params: seq<string>) returns (names: Names)
    ensures names == ParamSlots(params)
  {
    names := map[];
    var i := 0;
    while i < |params|
      invariant 0 <= i <= |params| && names == ParamSlots(params[..i])
    {
      assert params[..i + 1][..i] == params[..i];
      names := names[params[i] := i];
      i := i + 1;
    }
    assert params[..i] == params;
  }

  method DeclareVars(xs: seq<string>, names0: Names, locals0: nat) returns (names: Names, locals: nat)
    ensures (names, locals) == DeclareAll(xs, names0, locals0)
  {
    names, locals := names0, locals0;
    var i := 0;
    assert xs[0..] == xs;
    while i < |xs|
      invariant 0 <= i <= |xs| && DeclareAll(xs[i..], names, locals) == DeclareAll(xs, names0, locals0)
    {
      assert xs[i..][1..] == xs[i + 1..];
      if xs[i] !in names { names, locals := names[xs[i] := locals], locals + 1; }
      i := i + 1;
    }
    assert xs[i..] == [];
  }

  /** With no jump open, the code is finished. */
  lemma Closed(code: seq<int>, ideal: seq<int>, open: set<int>, loops: seq<LoopCtx>)
    requires open == {} && loops == [] && Agree(code, ideal, open + Pending(loops))
    ensures code == ideal
  {
    assert open + Pending(loops) == {};
  }

  // ---------- The generators, one step deep ----------

  lemma DeclsStep(isLet: bool, ds: seq<Decl>, i: nat, names: Names, cs: seq<Const>, locals: nat)
    requires i <= |ds|
    ensures var now := GenDecls(isLet, ds[i..], names, cs, locals);
      if i == |ds| then now == GS([], cs, names, locals)
      else
        var (names1, locals1) := Declare(ds[i].name, names, locals);
        if ds[i].init.None? && !isLet then now == GenDecls(isLet, ds[i + 1..], names1, cs, locals1)
        else
          var g := if ds[i].init.Some? then GenE(ds[i].init.value, names, cs) else G(I0(OpUndefined), cs);
          var s := GenStore(ds[i].name, names1, g.consts);
          var rest := GenDecls(isLet, ds[i + 1..], names1, s.consts, locals1);
          now == GS(g.code + s.code + I0(OpPop) + rest.code, rest.consts, rest.names, rest.locals)
  {
    hide GenE, GenStore, I0, Declare;
    if i < |ds| { assert ds[i..][1..] == ds[i + 1..]; }
  }

  lemma RestStep(rest: seq<Expr>, i: nat, names: Names, cs: seq<Const>)
    requires i <= |rest|
    ensures var now := GenRest(rest[i..], names, cs);
      if i == |rest| then now == G([], cs)
      else
        var g := GenE(rest[i], names, cs);
        var r := GenRest(rest[i + 1..], names, g.consts);
        now == G(I0(OpPop) + g.code + r.code, r.consts)
  {
    hide GenE, I0;
    if i < |rest| { assert rest[i..][1..] == rest[i + 1..]; }
  }

  lemma BodiesStep(cases: seq<Case>, i: nat, names: Names, pc: int, cs: seq<Const>, locals: nat, ts: seq<Target>)
    requires i <= |cases|
    ensures var now := GenBodies(cases[i..], names, pc, cs, locals, ts);
      if i == |cases| then now == GS([], cs, names, locals)
      else
        var g := GenL(cases[i].body, names, pc, cs, locals, ts);
        var r := GenBodies(cases[i + 1..], g.names, pc + SizeL(cases[i].body), g.consts, g.locals, ts);
        now == GS(g.code + r.code, r.consts, r.names, r.locals)
  {
    hide GenL, SizeL;
    if i < |cases| { assert cases[i..][1..] == cases[i + 1..]; }
  }

  lemma EntriesStep(cases: seq<Case>, i: nat, entries: int, body: int)
    requires i <= |cases|
    ensures GenEntries(cases[i..], i, entries, body)
      == if i == |cases| then []
         else I0(OpPop) + JumpBy(OpJump, body - (entries + 6 * i + 6))
              + GenEntries(cases[i + 1..], i + 1, entries, body + SizeL(cases[i].body))
  {
    hide SizeL, I0, JumpBy;
    if i < |cases| { assert cases[i..][1..] == cases[i + 1..]; }
  }

  /** What the generator does at each statement, one step deep. */
  lemma SimpleShape(st: Stmt, names: Names, pc: int, cs: seq<Const>, locals: nat, ts: seq<Target>)
    ensures var r := GenS(st, names, pc, cs, locals, ts);
      match st
      case ExprStmt(e) => (var g := GenE(e, names, cs); r == GS(g.code + I0(OpPop), g.consts, names, locals))
      case EmptyStmt => r == GS([], cs, names, locals)
      case VarDecl(isLet, ds) => r == GenDecls(isLet, ds, names, cs, locals)
      case Block(body) =>
        var h := Hoist(LexNames(body), names, cs, locals);
        var b := GenL(body, h.names, pc + |h.code|, h.consts, h.locals, ts);
        r == GS(h.code + b.code, b.consts, names, b.locals)
      case For(_, _, _, _, _) => r == GenFor(st, names, pc, cs, locals, ts)
      case Switch(_, _, _) => r == GenSwitch(st, names, pc, cs, locals, ts)
      case Break(l) =>
        var k := BreakIndex(ts, l);
        k >= 0 ==> r == GS(JumpBy(OpJump, Dest(ts[k], true) - (pc + 5)), cs, names, locals)
      case Continue(l) =>
        var k := ContinueIndex(ts, l);
        k >= 0 ==> r == GS(JumpBy(OpJump, Dest(ts[k], false) - (pc + 5)), cs, names, locals)
      case Return(a) =>
        var g := if a.Some? then GenE(a.value, names, cs) else G(I0(OpUndefined), cs);
        r == GS(g.code + I0(OpReturn), g.consts, names, locals)
      case Throw(e) => (var g := GenE(e, names, cs); r == GS(g.code + I0(OpThrow), g.consts, names, locals))
      case _ => true
  {
    hide GenE, I0, GenDecls, Hoist, GenL, GenFor, GenSwitch, JumpBy, BreakIndex, ContinueIndex, LexNames, IfCode,
         CondCode, WhileCode, DoCode, SizeE, SizeS;
  }

  lemma IfPieces(st: Stmt, names: Names, pc: int, cs: seq<Const>, locals: nat, ts: seq<Target>)
    requires st.If?
    ensures
      var r := GenS(st, names, pc, cs, locals, ts);
      var gt := GenE(st.test, names, cs);
      var ga := GenS(st.cons, names, pc + SizeE(st.test) + 5, gt.consts, locals, ts);
      if st.alt.None? then
        r == GS(gt.code + JumpBy(OpJumpIfFalse, SizeS(st.cons)) + ga.code, ga.consts, ga.names, ga.locals)
      else
        var b := st.alt.value;
        var gb := GenS(b, ga.names, pc + SizeE(st.test) + 5 + SizeS(st.cons) + 5, ga.consts, ga.locals, ts);
        r == GS(gt.code + JumpBy(OpJumpIfFalse, SizeS(st.cons) + 5) + ga.code + JumpBy(OpJump, SizeS(b)) + gb.code,
                gb.consts, gb.names, gb.locals)
  {
    hide GenE, JumpBy, SizeE, SizeS, GenS;
    IfShape(st, names, pc, cs, locals, ts);
  }

  lemma WhileShape(st: Stmt, names: Names, pc: int, cs: seq<Const>, locals: nat, ts: seq<Target>)
    requires st.While?
    ensures
      var r := GenS(st, names, pc, cs, locals, ts);
      var body := pc + SizeE(st.test) + 5;
      var target := Target(st.lbl, false, body + SizeS(st.loop) + 5, body + SizeS(st.loop));
      var gt := GenE(st.test, names, cs);
      var gs := GenS(st.loop, names, body, gt.consts, locals, ts + [target]);
      r == GS(gt.code + JumpBy(OpJumpIfFalse, SizeS(st.loop) + 5) + gs.code
              + JumpBy(OpJump, pc - (body + SizeS(st.loop) + 5)), gs.consts, gs.names, gs.locals)
  {
    hide GenE, JumpBy, SizeE, SizeS, GenDecls, Hoist, GenL, GenFor, GenSwitch, BreakIndex, ContinueIndex, LexNames;
  }

  lemma DoShape(st: Stmt, names: Names, pc: int, cs: seq<Const>, locals: nat, ts: seq<Target>)
    requires st.DoWhile?
    ensures
      var r := GenS(st, names, pc, cs, locals, ts);
      var next := pc + SizeS(st.loop);
      var target := Target(st.lbl, false, next + SizeE(st.test) + 5, next);
      var gs := GenS(st.loop, names, pc, cs, locals, ts + [target]);
      var gt := GenE(st.test, gs.names, gs.consts);
      r == GS(gs.code + gt.code + JumpBy(OpJumpIfTrue, pc - (next + SizeE(st.test) + 5)), gt.consts, gs.names, gs.locals)
  {
    hide GenE, JumpBy, SizeE, SizeS, GenDecls, Hoist, GenL, GenFor, GenSwitch, BreakIndex, ContinueIndex, LexNames;
  }

  /** A for statement from its test on. */
  function ForLoop(st: Stmt, names: Names, top: int, cs: seq<Const>, locals: nat, ts: seq<Target>): GS
    requires st.For?
  {
    var For(l, init, t, u, s) := st;
    var d := SizeS(s) + SizeUpdate(u) + 5;
    var body := top + SizeTest(t);
    var target := Target(l, false, body + d, body + SizeS(s));
    var gt := GenTest(t, d, names, cs);
    var gs := GenS(s, names, body, gt.consts, locals, ts + [target]);
    var gu := GenUpdate(u, gs.names, gs.consts);
    GS(gt.code + gs.code + gu.code + JumpBy(OpJump, top - (body + d)), gu.consts, gs.names, gs.locals)
  }

  lemma ForShape(st: Stmt, names: Names, pc: int, cs: seq<Const>, locals: nat, ts: seq<Target>)
    requires st.For?
    ensures
      var h := Hoist(InitNames(st.init), names, cs, locals);
      var gi := GenInit(st.init, h.names, h.consts, h.locals);
      var g := ForLoop(st, gi.names, pc + |h.code| + SizeInit(st.init), gi.consts, gi.locals, ts);
      GenFor(st, names, pc, cs, locals, ts)
      == GS(h.code + gi.code + g.code, g.consts, if st.init.InitDecl? && st.init.isLet then names else g.names, g.locals)
  {
    hide GenS, GenE, JumpBy, SizeE, SizeS, Hoist, GenInit, SizeInit, GenTest, SizeTest, GenUpdate, SizeUpdate, InitNames;
  }

  function Dest(t: Target, isBreak: bool): int { if isBreak then t.brk else t.cont }

  /** The k-th enclosing loop remembers the jump at `at`. */
  function Note(loops: seq<LoopCtx>, k: nat, isBreak: bool, at: int): (r: seq<LoopCtx>)
    requires k < |loops|
    ensures |r| == |loops|
  {
    var lp := loops[k];
    loops[k := if isBreak then lp.(breaks := lp.breaks + [at]) else lp.(continues := lp.continues + [at])]
  }

  lemma NoteOk(loops: seq<LoopCtx>, targets: seq<Target>, ideal: seq<int>, k: nat, isBreak: bool, at: int)
    requires k < |loops| && LoopsOk(loops, targets, ideal) && (isBreak || !targets[k].isSwitch)
    requires JumpAt(ideal, at, OpJump, Dest(targets[k], isBreak) - (at + 5))
    ensures LoopsOk(Note(loops, k, isBreak, at), targets, ideal)
    ensures Pending(loops) + {at} <= Pending(Note(loops, k, isBreak, at))
  {
    hide JumpAt;
    PendingAdd(loops, k, isBreak, at);
  }

  lemma JumpHead(d: int)
    ensures I4(OpJump, 0)[0] == JumpBy(OpJump, d)[0]
  {}

  function NumbersOf(xs: seq<int>): set<int> { set x | x in xs }

  lemma PendingPush(loops: seq<LoopCtx>, l: Option<string>, isSwitch: bool)
    ensures Pending(loops + [LoopCtx(l, isSwitch, [], [])]) == Pending(loops)
  {
    var loops1 := loops + [LoopCtx(l, isSwitch, [], [])];
    forall h | h in Pending(loops) ensures h in Pending(loops1) {
      var k :| 0 <= k < |loops| && h in loops[k].breaks + loops[k].continues;
      assert loops1[k] == loops[k];
    }
  }

  lemma PendingPop(loops: seq<LoopCtx>)
    requires loops != []
    ensures var lp := loops[|loops| - 1];
            Pending(loops) <= Pending(loops[..|loops| - 1]) + NumbersOf(lp.continues) + NumbersOf(lp.breaks)
  {
    var front := loops[..|loops| - 1];
    forall h | h in Pending(loops)
      ensures h in Pending(front) + NumbersOf(loops[|loops| - 1].continues) + NumbersOf(loops[|loops| - 1].breaks)
    {
      var k :| 0 <= k < |loops| && h in loops[k].breaks + loops[k].continues;
      if k < |front| { assert front[k] == loops[k]; }
    }
  }

  lemma PendingAdd(loops: seq<LoopCtx>, k: nat, isBreak: bool, at: int)
    requires k < |loops|
    ensures Pending(loops) + {at} <= Pending(Note(loops, k, isBreak, at))
  {
    var loops1 := Note(loops, k, isBreak, at);
    assert at in loops1[k].breaks + loops1[k].continues;
    forall h | h in Pending(loops) ensures h in Pending(loops1) {
      var j :| 0 <= j < |loops| && h in loops[j].breaks + loops[j].continues;
      assert h in loops1[j].breaks + loops1[j].continues;
    }
  }

  lemma JumpHere(ideal: seq<int>, op: Op, d: int)
    requires Width(op) == 4
    ensures JumpAt(ideal + JumpBy(op, d), |ideal|, op, d)
  {}

  /** A larger set of holes asks less. */
  lemma AgreeMore(code: seq<int>, ideal: seq<int>, a: set<int>, b: set<int>)
    requires Agree(code, ideal, a) && a <= b
    ensures Agree(code, ideal, b)
  {
    forall i | 0 <= i < |code| && !Covered(i, b) ensures !Covered(i, a) { CoveredMore(i, a, b); }
  }
}
