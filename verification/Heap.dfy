/** Handles: an index and a generation, and the words that carry them. */
module Handles {
  const MAX_LOCAL_GEN := 0x7FFF
  const ROOT_BIT := 0x8000
  const TWO16 := 0x1_0000
  const TWO32 := 0x1_0000_0000
  const TWO48 := 0x1_0000_0000_0000

  /** A reference to a heap cell.  The generation's top bit marks the shared frozen realm. */
  datatype Handle = Handle(index: nat, gen: nat)

  const NO_HANDLE := Handle(0, 0)

  predicate Fits(h: Handle) { h.index < TWO32 && h.gen < TWO16 }

  predicate IsRoot(h: Handle)
    ensures h.gen <= MAX_LOCAL_GEN ==> !IsRoot(h)
  {
    h != NO_HANDLE && h.gen / ROOT_BIT % 2 == 1
  }

  function TagRoot(h: Handle): Handle {
    if h == NO_HANDLE || IsRoot(h) then h else Handle(h.index, h.gen + ROOT_BIT)
  }

  function StripRoot(h: Handle): Handle {
    if IsRoot(h) then Handle(h.index, h.gen - ROOT_BIT) else h
  }

  function NextGen(g: nat): (r: nat)
    ensures g < MAX_LOCAL_GEN ==> g < r <= MAX_LOCAL_GEN
    ensures g >= MAX_LOCAL_GEN ==> r == MAX_LOCAL_GEN
  {
    if g >= MAX_LOCAL_GEN then MAX_LOCAL_GEN else g + 1
  }

  /** The 48-bit word of a handle, and the handle of a word. */
  function Word(h: Handle): int { h.index + h.gen * TWO32 }

  function OfWord(w: int): (h: Handle)
    requires 0 <= w < TWO48
    ensures Fits(h)
  {
    Handle(w % TWO32, w / TWO32)
  }

  /** The word determines the handle, and back. */
  lemma WordRoundTrip(h: Handle, w: int)
    requires Fits(h) && 0 <= w < TWO48
    ensures 0 <= Word(h) < TWO48 && OfWord(Word(h)) == h && Word(OfWord(w)) == w
  {}

  /** Tagging and stripping undo each other; a shared handle is never a local one. */
  lemma RootTag(h: Handle, k: Handle)
    requires Fits(h) && Fits(k)
    ensures Fits(TagRoot(h)) && Fits(StripRoot(h))
    ensures TagRoot(TagRoot(h)) == TagRoot(h)
    ensures !IsRoot(h) ==> StripRoot(TagRoot(h)) == h
    ensures IsRoot(h) && StripRoot(h) != NO_HANDLE ==> TagRoot(StripRoot(h)) == h
    ensures h != NO_HANDLE ==> IsRoot(TagRoot(h)) && !IsRoot(StripRoot(h))
    ensures k.gen <= MAX_LOCAL_GEN && h != NO_HANDLE ==> TagRoot(h) != k
  {}

  // ---------- Value words ----------

  const TAG_NAN := 0x7FF8
  const TAG_NULL := 0x7FFA
  const TAG_INT32 := 0x7FFC
  const TAG_POINTER := 0xFFF8

  function Tag(v: int): int { v / TWO48 }

  predicate IsObject(v: int) { Tag(v) == TAG_POINTER }

  /** The word of an object reference; the empty handle gives null. */
  function ObjectValue(h: int): int { if h == 0 then TAG_NULL * TWO48 else TAG_POINTER * TWO48 + h % TWO48 }

  function HandleOf(v: int): int { if IsObject(v) then v % TWO48 else 0 }

  /** The bits of a double that is not a number. */
  predicate NanBits(b: int) { b / 0x10_0000_0000_0000 % 0x800 == 0x7FF && b % 0x10_0000_0000_0000 != 0 }

  function Number(b: int): int { if NanBits(b) then TAG_NAN * TWO48 else b }

  function IntValue(i: int): int { TAG_INT32 * TWO48 + i % TWO32 }

  /** Only object references hold a handle, and they give it back: no number, whatever its bits,
      can be taken for one. */
  lemma ValueRoundTrip(h: Handle, bits: int, i: int)
    requires Fits(h) && 0 <= bits < TWO48 * TWO16
    ensures HandleOf(ObjectValue(Word(h))) == Word(h)
    ensures IsObject(ObjectValue(Word(h))) <==> h != NO_HANDLE
    ensures !IsObject(Number(bits)) && !IsObject(IntValue(i))
  {
    WordRoundTrip(h, 0);
    if IsObject(bits) {
      assert bits / 0x10_0000_0000_0000 == 0xFFF;
    }
  }
}

/** Heap cells and everything a cell can refer to. */
module Cells {
  import opened Options
  import opened Handles

  datatype Value = Prim(n: int) | Obj(h: Handle)

  datatype Kind = WeakMap | OtherKind(k: nat)

  datatype MapData = MapData(keys: seq<Value>, values: seq<Value>)
  datatype Reaction = Reaction(onFulfilled: Value, onRejected: Value, child: Value)
  datatype Promise = Promise(result: Value, reactions: seq<Reaction>)
  datatype Proxy = Proxy(target: Value, handler: Value)
  datatype Generator = Generator(this_: Value, delegate: Value, sent: Value, stack: seq<Value>)

  datatype Cell = Cell(
    kind: Kind,
    slots: seq<Value>,
    elements: seq<Value>,
    proto: Handle,
    env: Handle,
    home: Handle,
    map_: Option<MapData>,
    set_: Option<seq<Value>>,
    prim: Value,
    promise: Option<Promise>,
    proxy: Option<Proxy>,
    gen: Option<Generator>)

  const EMPTY_CELL :=
    Cell(OtherKind(0), [], [], NO_HANDLE, NO_HANDLE, NO_HANDLE, None, None, Prim(0), None, None, None)

  predicate ReactsTo(rs: seq<Reaction>, h: Handle) {
    exists k :: 0 <= k < |rs| && Obj(h) in [rs[k].onFulfilled, rs[k].onRejected, rs[k].child]
  }

  /** The cell refers to h by one of its strong edges: every kind but a weak map's entries. */
  predicate PointsTo(c: Cell, h: Handle) {
    || ShortPointsTo(c, h)
    || (c.map_.Some? && !c.kind.WeakMap? && (Obj(h) in c.map_.value.keys || Obj(h) in c.map_.value.values))
    || (c.set_.Some? && Obj(h) in c.set_.value)
    || (c.promise.Some? && (c.promise.value.result == Obj(h) || ReactsTo(c.promise.value.reactions, h)))
    || (c.proxy.Some? && Obj(h) in [c.proxy.value.target, c.proxy.value.handler])
    || (c.gen.Some? && Obj(h) in [c.gen.value.this_, c.gen.value.delegate, c.gen.value.sent] + c.gen.value.stack)
  }

  /** The edges the second marking pass, after weak maps, still follows. */
  predicate ShortPointsTo(c: Cell, h: Handle) {
    || Obj(h) in c.slots || Obj(h) in c.elements || (h != NO_HANDLE && h in [c.proto, c.env, c.home]) || c.prim == Obj(h)
  }
}

/** Slots: allocation, sweeping and the reset between two programs. */
module HeapSlots {
  import opened Options
  import opened Handles
  import opened Cells

  datatype Slots = Slots(objs: seq<Option<Cell>>, gens: seq<nat>, free: seq<nat>)

  /** Slot zero is never used; free slots are empty and listed once; generations stay local. */
  ghost predicate SlotsOk(s: Slots) {
    && 1 <= |s.objs| <= |s.gens| && s.objs[0].None?
    && (forall i :: 0 <= i < |s.gens| ==> s.gens[i] <= MAX_LOCAL_GEN)
    && (forall i :: 0 <= i < |s.objs| && s.objs[i].Some? ==> s.gens[i] < MAX_LOCAL_GEN)
    && (forall k :: 0 <= k < |s.free| ==> 0 < s.free[k] < |s.objs| && s.objs[s.free[k]].None?)
    && (forall k, l :: 0 <= k < l < |s.free| ==> s.free[k] != s.free[l])
  }

  /** The cell a local handle designates: its generation must be the slot's. */
  function Resolve(s: Slots, h: Handle): Option<Cell> {
    if h != NO_HANDLE && !IsRoot(h) && 0 < h.index < |s.objs| && h.index < |s.gens| && s.gens[h.index] == h.gen
    then s.objs[h.index] else None
  }

  /** A slot for o: the last listed free one whose generation is not used up, else a new one. */
  function Take(s: Slots, o: Cell): (r: (Slots, Handle))
    requires SlotsOk(s)
    decreases |s.free|, |s.gens| - |s.objs|
  {
    if s.free != [] then
      var i := s.free[|s.free| - 1];
      var s1 := s.(free := s.free[..|s.free| - 1]);
      if s.gens[i] >= MAX_LOCAL_GEN then Take(s1, o) else (s1.(objs := s.objs[i := Some(o)]), Handle(i, s.gens[i]))
    else
      var i := |s.objs|;
      if i < |s.gens| && s.gens[i] >= MAX_LOCAL_GEN then Take(s.(objs := s.objs + [None]), o)
      else
        var gens := if i < |s.gens| then s.gens else s.gens + [0];
        (s.(objs := s.objs + [Some(o)], gens := gens), Handle(i, gens[i]))
  }

  /** The slots below n, in order, that hold an unmarked cell. */
  function Garbage(objs: seq<Option<Cell>>, marked: set<nat>, n: nat): (r: seq<nat>)
    requires n <= |objs|
    ensures forall k :: 0 <= k < |r| ==> 0 < r[k] < n && objs[r[k]].Some? && r[k] !in marked
    ensures forall k, l :: 0 <= k < l < |r| ==> r[k] < r[l]
  {
    if n <= 1 then []
    else Garbage(objs, marked, n - 1) + (if objs[n - 1].Some? && n - 1 !in marked then [n - 1] else [])
  }

  /** Every unmarked cell is freed and its slot moves to the next generation. */
  function Swept(s: Slots, marked: set<nat>): Slots
    requires |s.objs| <= |s.gens|
  {
    Slots(seq(|s.objs|, i requires 0 <= i < |s.objs| => if i in marked then s.objs[i] else None),
          seq(|s.gens|, i requires 0 <= i < |s.gens| =>
                if i < |s.objs| && s.objs[i].Some? && i !in marked then NextGen(s.gens[i]) else s.gens[i]),
          s.free + Garbage(s.objs, marked, |s.objs|))
  }

  /** Every slot but the global object's is emptied and moves to the next generation; the
      table is cut after the global object. */
  function Reset(s: Slots, g: nat, shell: Option<Cell>): Slots
    requires |s.objs| <= |s.gens|
  {
    var objs := seq(|s.objs|, i requires 0 <= i < |s.objs| => if i == g then shell else None);
    Slots(if g < |objs| then objs[..g + 1] else objs,
          seq(|s.gens|, i requires 0 <= i < |s.gens| =>
                if 0 < i < |s.objs| && i != g then NextGen(s.gens[i]) else s.gens[i]),
          [])
  }

  // ---------- Histories ----------

  /** A heap and every handle it ever gave out. */
  datatype World = World(slots: Slots, issued: set<Handle>)

  datatype Op =
    | Alloc(o: Cell)
    | Collect(marked: set<nat>)          // any mark set whatever
    | Mutate(h: Handle, o: Cell)         // any change to a live cell
    | ResetTo(g: Handle, shell: Cell)

  ghost predicate WorldOk(w: World) {
    && SlotsOk(w.slots)
    && (forall h :: h in w.issued ==> 0 < h.index < |w.slots.gens| && h.gen <= w.slots.gens[h.index] && h.gen < MAX_LOCAL_GEN)
    && (forall h :: h in w.issued && h.gen == w.slots.gens[h.index] ==> Resolve(w.slots, h).Some?)
    && (forall i :: 0 <= i < |w.slots.objs| && w.slots.objs[i].Some? ==> Handle(i, w.slots.gens[i]) in w.issued)
  }

  /** One operation, and the handle it gives out, if any. */
  function Apply(w: World, op: Op): (World, Option<Handle>)
    requires WorldOk(w)
  {
    match op
    case Alloc(o) => (var (s, h) := Take(w.slots, o); (World(s, w.issued + {h}), Some(h)))
    case Collect(marked) => (w.(slots := Swept(w.slots, marked)), None)
    case Mutate(h, o) =>
      var s := if Resolve(w.slots, h).Some? then w.slots.(objs := w.slots.objs[h.index := Some(o)]) else w.slots;
      (w.(slots := s), None)
    case ResetTo(g, shell) =>
      var s := if Resolve(w.slots, g).Some? then Some(shell)
               else if g.index < |w.slots.objs| then w.slots.objs[g.index] else None;
      (w.(slots := Reset(w.slots, g.index, s)), None)
  }

  /** What an allocation does: an empty slot, at its current generation, now holds o. */
  ghost predicate Taken(s: Slots, o: Cell, s1: Slots, h: Handle) {
    && SlotsOk(s1) && |s.objs| <= |s1.objs| && |s.gens| <= |s1.gens|
    && 0 < h.index < |s1.objs| && h.gen == s1.gens[h.index] < MAX_LOCAL_GEN && s1.objs[h.index] == Some(o)
    && (h.index < |s.objs| ==> s.objs[h.index].None?)
    && (forall i :: 0 <= i < |s.gens| ==> s1.gens[i] == s.gens[i])
    && (forall i :: 0 <= i < |s1.objs| && i != h.index ==> s1.objs[i] == if i < |s.objs| then s.objs[i] else None)
  }

  lemma {:induction false} TakeRight(s: Slots, o: Cell)
    requires SlotsOk(s)
    ensures Taken(s, o, Take(s, o).0, Take(s, o).1)
    decreases |s.free|, |s.gens| - |s.objs|
  {
    if s.free != [] {
      var i := s.free[|s.free| - 1];
      var s1 := s.(free := s.free[..|s.free| - 1]);
      if s.gens[i] >= MAX_LOCAL_GEN { TakeRight(s1, o); } else { TakeListed(s, o); }
    } else if |s.objs| < |s.gens| && s.gens[|s.objs|] >= MAX_LOCAL_GEN {
      TakeRight(s.(objs := s.objs + [None]), o);
    } else {
      TakeNew(s, o);
    }
  }

  lemma TakeListed(s: Slots, o: Cell)
    requires SlotsOk(s) && s.free != [] && s.gens[s.free[|s.free| - 1]] < MAX_LOCAL_GEN
    ensures Taken(s, o, Take(s, o).0, Take(s, o).1)
  {}

  lemma TakeNew(s: Slots, o: Cell)
    requires SlotsOk(s) && s.free == [] && (|s.objs| < |s.gens| ==> s.gens[|s.objs|] < MAX_LOCAL_GEN)
    ensures Taken(s, o, Take(s, o).0, Take(s, o).1)
  {}

  lemma SweptRight(s: Slots, marked: set<nat>)
    requires SlotsOk(s)
    ensures SlotsOk(Swept(s, marked))
  {
    var s1, g := Swept(s, marked), Garbage(s.objs, marked, |s.objs|);
    forall k | 0 <= k < |s1.free| ensures 0 < s1.free[k] < |s1.objs| && s1.objs[s1.free[k]].None? {
      if k >= |s.free| { assert s1.free[k] == g[k - |s.free|]; }
    }
    forall k, l | 0 <= k < l < |s1.free| ensures s1.free[k] != s1.free[l] {
      if k >= |s.free| { assert s1.free[k] == g[k - |s.free|] && s1.free[l] == g[l - |s.free|]; }
      else if l >= |s.free| { assert s1.free[l] == g[l - |s.free|] && s.objs[s.free[k]].None?; }
    }
  }

  lemma ResetRight(s: Slots, g: nat, shell: Option<Cell>)
    requires SlotsOk(s) && (g < |s.objs| ==> (shell.Some? <==> s.objs[g].Some?))
    ensures SlotsOk(Reset(s, g, shell))
  {}

  /** What every operation keeps: the history is sound, a handle given out is new, the dead
      stay dead. */
  ghost predicate Steps(w: World, w1: World, r: Option<Handle>) {
    && WorldOk(w1) && w.issued <= w1.issued
    && (if r.Some? then r.value !in w.issued && w1.issued == w.issued + {r.value} && Resolve(w1.slots, r.value).Some?
        else w1.issued == w.issued)
    && forall h :: h in w.issued && Resolve(w.slots, h).None? ==> Resolve(w1.slots, h).None?
  }

  lemma Step(w: World, op: Op)
    requires WorldOk(w)
    ensures Steps(w, Apply(w, op).0, Apply(w, op).1)
  {
    hide Take, Swept, Reset, Resolve, WorldOk, Steps;
    match op
    case Alloc(o) => AllocStep(w, o);
    case Collect(marked) => CollectStep(w, marked);
    case Mutate(h, o) => MutateStep(w, h, o);
    case ResetTo(g, shell) => ResetStep(w, g, shell);
  }

  lemma AllocStep(w: World, o: Cell)
    requires WorldOk(w)
    ensures Steps(w, Apply(w, Alloc(o)).0, Apply(w, Alloc(o)).1)
  {
    hide Take, IsRoot;
    TakeRight(w.slots, o);
    AllocIssued(w, o, Take(w.slots, o).0, Take(w.slots, o).1);
  }

  lemma AllocIssued(w: World, o: Cell, s1: Slots, h: Handle)
    requires WorldOk(w) && Taken(w.slots, o, s1, h)
    ensures Steps(w, World(s1, w.issued + {h}), Some(h))
  {
    hide IsRoot, SlotsOk;
    SlotsShape(w.slots);
    SlotsShape(s1);
    forall k | k in w.issued ensures k != h && Resolve(s1, k).Some? == Resolve(w.slots, k).Some? {}
  }

  lemma CollectStep(w: World, marked: set<nat>)
    requires WorldOk(w)
    ensures Steps(w, Apply(w, Collect(marked)).0, Apply(w, Collect(marked)).1)
  {
    hide IsRoot, SlotsOk, Garbage;
    SweptRight(w.slots, marked);
    SlotsShape(w.slots);
  }

  lemma SlotsShape(s: Slots)
    requires SlotsOk(s)
    ensures 1 <= |s.objs| <= |s.gens| && s.objs[0].None?
    ensures forall i :: 0 <= i < |s.gens| ==> s.gens[i] <= MAX_LOCAL_GEN
    ensures forall i :: 0 <= i < |s.objs| && s.objs[i].Some? ==> s.gens[i] < MAX_LOCAL_GEN
  {}

  lemma MutateStep(w: World, h: Handle, o: Cell)
    requires WorldOk(w)
    ensures Steps(w, Apply(w, Mutate(h, o)).0, Apply(w, Mutate(h, o)).1)
  {
    hide IsRoot, Steps;
    SameSlots(w, Apply(w, Mutate(h, o)).0);
  }

  /** Writing to cells changes nothing about handles. */
  lemma SameSlots(w: World, w1: World)
    requires WorldOk(w) && w1.issued == w.issued
    requires w1.slots.gens == w.slots.gens && w1.slots.free == w.slots.free && |w1.slots.objs| == |w.slots.objs|
    requires forall i :: 0 <= i < |w.slots.objs| ==> w1.slots.objs[i].Some? == w.slots.objs[i].Some?
    ensures Steps(w, w1, None)
  {
    hide IsRoot;
    forall k | k in w.issued ensures Resolve(w1.slots, k).Some? == Resolve(w.slots, k).Some? {}
  }

  lemma ResetStep(w: World, g: Handle, shell: Cell)
    requires WorldOk(w)
    ensures Steps(w, Apply(w, ResetTo(g, shell)).0, Apply(w, ResetTo(g, shell)).1)
  {
    hide IsRoot, SlotsOk;
    SlotsShape(w.slots);
    var s := if Resolve(w.slots, g).Some? then Some(shell)
             else if g.index < |w.slots.objs| then w.slots.objs[g.index] else None;
    ResetRight(w.slots, g.index, s);
  }

  function Run(w: World, ops: seq<Op>): (r: World)
    requires WorldOk(w)
    ensures WorldOk(r)
    decreases |ops|
  {
    hide Take, Swept, Reset, Resolve, WorldOk, Apply;
    if ops == [] then w else
    Step(w, ops[0]);
    Run(Apply(w, ops[0]).0, ops[1..])
  }

  /** The handles a run gives out, in order. */
  function Given(w: World, ops: seq<Op>): seq<Handle>
    requires WorldOk(w)
    decreases |ops|
  {
    hide Take, Swept, Reset, Resolve, WorldOk, Apply;
    if ops == [] then [] else
    Step(w, ops[0]);
    var (w1, r) := Apply(w, ops[0]);
    (if r.Some? then [r.value] else []) + Given(w1, ops[1..])
  }

  /** No handle is ever given out twice, not even one from before the run. */
  lemma {:induction false} NeverReissued(w: World, ops: seq<Op>)
    requires WorldOk(w)
    ensures forall k :: 0 <= k < |Given(w, ops)| ==> Given(w, ops)[k] !in w.issued
    ensures forall k, l :: 0 <= k < l < |Given(w, ops)| ==> Given(w, ops)[k] != Given(w, ops)[l]
    decreases |ops|
  {
    hide Take, Swept, Reset, Resolve, WorldOk, Apply;
    if ops != [] {
      Step(w, ops[0]);
      NeverReissued(Apply(w, ops[0]).0, ops[1..]);
    }
  }

  /** A handle that no longer resolves never resolves again. */
  lemma {:induction false} DeadForever(w: World, h: Handle, ops: seq<Op>)
    requires WorldOk(w) && h in w.issued && Resolve(w.slots, h).None?
    ensures Resolve(Run(w, ops).slots, h).None?
    decreases |ops|
  {
    hide Take, Swept, Reset, Resolve, WorldOk, Apply;
    if ops != [] {
      Step(w, ops[0]);
      DeadForever(Apply(w, ops[0]).0, h, ops[1..]);
    }
  }
}
