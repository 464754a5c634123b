/**
 Mark and sweep.  A collection keeps exactly the cells reachable from the roots, through
 every kind of edge and through the private clones of shared objects; it frees the others,
 and leaves no dangling reference in a heap that had none.
 */
module Reachability {
  import opened Options
  import opened Handles
  import opened Cells
  import opened HeapSlots

  /** What marking looks at: the slots and the clones that stand for shared objects. */
  datatype Snap = Snap(slots: Slots, cow: map<Handle, Handle>)

  /** The local handle a reference stands for while marking, if it designates a cell. */
  function LocalForMark(s: Snap, h: Handle): (r: Option<Handle>)
    ensures r.Some? ==> Resolve(s.slots, r.value).Some?
  {
    if IsRoot(h) then
      if StripRoot(h) in s.cow && Resolve(s.slots, s.cow[StripRoot(h)]).Some? then Some(s.cow[StripRoot(h)]) else None
    else if Resolve(s.slots, h).Some? then Some(h) else None
  }

  predicate Marks(s: Snap, v: Value) { v.Obj? && LocalForMark(s, v.h).Some? }

  /** The slots a list of values refers to. */
  function Targets(s: Snap, vs: seq<Value>): set<nat> {
    set v | v in vs && Marks(s, v) :: LocalForMark(s, v.h).value.index
  }

  /** One step from slot i to slot j; the short steps are those the pass after weak maps takes. */
  ghost predicate Leads(s: Snap, i: nat, j: nat, full: bool) {
    && i < |s.slots.objs| && s.slots.objs[i].Some?
    && exists h :: (if full then PointsTo(s.slots.objs[i].value, h) else ShortPointsTo(s.slots.objs[i].value, h))
                   && Marks(s, Obj(h)) && LocalForMark(s, h).value.index == j
  }

  /** A chain of references that starts at a root. */
  ghost predicate Chain(s: Snap, roots: set<nat>, p: seq<nat>, full: bool) {
    p != [] && p[0] in roots && forall k :: 0 < k < |p| ==> Leads(s, p[k - 1], p[k], full)
  }

  ghost predicate Reached(s: Snap, roots: set<nat>, i: nat, full: bool) {
    exists p :: Chain(s, roots, p, full) && p[|p| - 1] == i
  }

  /** The slots reached from the roots. */
  ghost function Alive(s: Snap, roots: set<nat>, full: bool): set<nat> {
    set i | 0 <= i < |s.slots.objs| && Reached(s, roots, i, full)
  }

  ghost predicate Closed(s: Snap, m: set<nat>, full: bool) {
    forall i: nat, j: nat :: i in m && Leads(s, i, j, full) ==> j in m
  }

  /** Every closed set that holds the roots holds what they reach. */
  lemma {:induction false} ChainInside(s: Snap, roots: set<nat>, p: seq<nat>, m: set<nat>, full: bool)
    requires Chain(s, roots, p, full) && roots <= m && Closed(s, m, full)
    ensures p[|p| - 1] in m
  {
    if |p| > 1 {
      var q := p[..|p| - 1];
      assert forall k :: 0 < k < |q| ==> Leads(s, q[k - 1], q[k], full);
      ChainInside(s, roots, q, m, full);
      assert Leads(s, p[|p| - 2], p[|p| - 1], full);
    }
  }

  lemma AliveClosed(s: Snap, roots: set<nat>, full: bool)
    requires forall i :: i in roots ==> i < |s.slots.objs|
    ensures roots <= Alive(s, roots, full) && Closed(s, Alive(s, roots, full), full)
  {
    forall i | i in roots ensures i in Alive(s, roots, full) { assert Chain(s, roots, [i], full); }
    forall i: nat, j: nat | i in Alive(s, roots, full) && Leads(s, i, j, full) ensures j in Alive(s, roots, full) {
      var p :| Chain(s, roots, p, full) && p[|p| - 1] == i;
      var q := p + [j];
      assert forall k :: 0 < k < |q| ==> Leads(s, q[k - 1], q[k], full);
      assert Chain(s, roots, q, full) && q[|q| - 1] == j;
    }
  }

  /** The closed set between the roots and what they reach is what they reach. */
  lemma AliveLeast(s: Snap, roots: set<nat>, m: set<nat>, full: bool)
    requires roots <= m && Closed(s, m, full)
    ensures Alive(s, roots, full) <= m
  {
    forall i | i in Alive(s, roots, full) ensures i in m {
      var p :| Chain(s, roots, p, full) && p[|p| - 1] == i;
      ChainInside(s, roots, p, m, full);
    }
  }

  // ---------- Edges ----------

  function ReactionValues(rs: seq<Reaction>): seq<Value> {
    if rs == [] then []
    else ReactionValues(rs[..|rs| - 1]) + [rs[|rs| - 1].onFulfilled, rs[|rs| - 1].onRejected, rs[|rs| - 1].child]
  }

  lemma {:induction false} ReactionValuesRight(rs: seq<Reaction>, h: Handle)
    ensures Obj(h) in ReactionValues(rs) <==> ReactsTo(rs, h)
  {
    if rs != [] {
      var n := |rs| - 1;
      ReactionValuesRight(rs[..n], h);
      if Obj(h) in ReactionValues(rs[..n]) {
        var k :| 0 <= k < n && Obj(h) in [rs[..n][k].onFulfilled, rs[..n][k].onRejected, rs[..n][k].child];
        assert Obj(h) in [rs[k].onFulfilled, rs[k].onRejected, rs[k].child];
      }
      if Obj(h) in [rs[n].onFulfilled, rs[n].onRejected, rs[n].child] { assert ReactsTo(rs, h); }
      if ReactsTo(rs, h) {
        var k :| 0 <= k < |rs| && Obj(h) in [rs[k].onFulfilled, rs[k].onRejected, rs[k].child];
        if k < n { assert Obj(h) in [rs[..n][k].onFulfilled, rs[..n][k].onRejected, rs[..n][k].child]; }
      }
    }
  }

  /** The values the second pass visits, and the rest of those the first one does. */
  function ShortEdges(c: Cell): seq<Value> {
    c.slots + c.elements + [Obj(c.proto), Obj(c.env), Obj(c.home), c.prim]
  }

  function MapEdges(c: Cell): seq<Value> {
    if c.map_.Some? && !c.kind.WeakMap? then c.map_.value.keys + c.map_.value.values else []
  }

  function SetEdges(c: Cell): seq<Value> { if c.set_.Some? then c.set_.value else [] }

  function PromiseEdges(c: Cell): seq<Value> {
    if c.promise.Some? then [c.promise.value.result] + ReactionValues(c.promise.value.reactions) else []
  }

  function ProxyEdges(c: Cell): seq<Value> {
    if c.proxy.Some? then [c.proxy.value.target, c.proxy.value.handler] else []
  }

  function GeneratorEdges(c: Cell): seq<Value> {
    if c.gen.Some? then [c.gen.value.this_, c.gen.value.delegate, c.gen.value.sent] + c.gen.value.stack else []
  }

  function LongEdges(c: Cell): seq<Value> {
    MapEdges(c) + SetEdges(c) + PromiseEdges(c) + ProxyEdges(c) + GeneratorEdges(c)
  }

  function Edges(c: Cell, full: bool): seq<Value> { ShortEdges(c) + if full then LongEdges(c) else [] }

  lemma EdgesRight(c: Cell, h: Handle)
    requires h != NO_HANDLE
    ensures Obj(h) in Edges(c, true) <==> PointsTo(c, h)
    ensures Obj(h) in Edges(c, false) <==> ShortPointsTo(c, h)
  {
    if c.promise.Some? { ReactionValuesRight(c.promise.value.reactions, h); }
    hide ReactsTo, ReactionValues;
    assert Obj(h) in LongEdges(c) <==>
      Obj(h) in MapEdges(c) || Obj(h) in SetEdges(c) || Obj(h) in PromiseEdges(c) || Obj(h) in ProxyEdges(c) || Obj(h) in GeneratorEdges(c);
  }

  /** A slot's successors are the targets of its edges. */
  lemma LeadsRight(s: Snap, i: nat, j: nat, full: bool)
    requires i < |s.slots.objs| && s.slots.objs[i].Some?
    ensures Leads(s, i, j, full) <==> j in Targets(s, Edges(s.slots.objs[i].value, full))
  {
    hide Edges, PointsTo, ShortPointsTo;
    var c := s.slots.objs[i].value;
    if Leads(s, i, j, full) {
      var h :| (if full then PointsTo(c, h) else ShortPointsTo(c, h)) && Marks(s, Obj(h)) && LocalForMark(s, h).value.index == j;
      EdgesRight(c, h);
      assert Obj(h) in Edges(c, full);
    }
    if j in Targets(s, Edges(c, full)) {
      var v :| v in Edges(c, full) && Marks(s, v) && LocalForMark(s, v.h).value.index == j;
      EdgesRight(c, v.h);
    }
  }

  lemma TargetsSame(s: Snap, a: seq<Value>, b: seq<Value>)
    requires forall v :: v in a <==> v in b
    ensures Targets(s, a) == Targets(s, b)
  {}

  lemma TargetsNull(s: Snap)
    ensures Targets(s, [Obj(NO_HANDLE)]) == {}
  {}

  lemma TargetsAdd(s: Snap, a: seq<Value>, b: seq<Value>)
    ensures Targets(s, a + b) == Targets(s, a) + Targets(s, b)
  {
    hide LocalForMark;
  }
}

module HeapGc {
  import opened Options
  import opened Sets
  import opened Handles
  import opened Cells
  import opened HeapSlots
  import opened Reachability

  lemma Fewer(all: set<nat>, m: set<nat>, m1: set<nat>)
    requires m <= m1 <= all
    ensures m == m1 || all - m1 < all - m
  {
    if m != m1 {
      var i :| i in m1 && i !in m;
      assert i in all - m && i !in all - m1;
    }
  }

  function Indices(work: seq<Handle>): set<nat> { set h | h in work :: h.index }

  /** Marking t: the slots not marked before join the work list. */
  ghost predicate Grown(m: set<nat>, w: seq<Handle>, m1: set<nat>, w1: seq<Handle>, t: set<nat>) {
    m1 == m + t && Indices(w1) == Indices(w) + (t - m) && (t <= m ==> w1 == w)
  }

  lemma GrownTwice(m: set<nat>, w: seq<Handle>, m1: set<nat>, w1: seq<Handle>, t1: set<nat>, m2: set<nat>, w2: seq<Handle>, t2: set<nat>)
    requires Grown(m, w, m1, w1, t1) && Grown(m1, w1, m2, w2, t2)
    ensures Grown(m, w, m2, w2, t1 + t2)
  {
    hide Indices;
  }

  /** Mark bits and work list of one collection. */
  class Collector {
    const s: Snap
    var marked: set<nat>
    var work: seq<Handle>

    ghost predicate Valid()
      reads this
    {
      && (forall h :: h in work ==> Resolve(s.slots, h).Some? && h.index in marked)
      && forall i :: i in marked ==> i < |s.slots.objs| && s.slots.objs[i].Some?
    }

    lemma Bounded()
      requires Valid()
      ensures forall i :: i in marked ==> i < |s.slots.objs|
    {}

    lemma IsTidy()
      requires work == [] && Closed(s, marked, false)
      ensures Tidy(false)
    {}

    /** Every marked slot has marked successors, but for those whose cell is still to be visited. */
    ghost predicate Tidy(full: bool)
      reads this
    {
      forall i: nat, j: nat :: i in marked && i !in Indices(work) && Leads(s, i, j, full) ==> j in marked
    }

    constructor (s: Snap)
      ensures this.s == s && marked == {} && work == [] && Valid()
    {
      this.s, marked, work := s, {}, [];
    }

    method Push(v: Value)
      requires Valid()
      modifies this
      ensures Valid() && Grown(old(marked), old(work), marked, work, Targets(s, [v]))
    {
      if !v.Obj? { return; }
      var r := LocalForMark(s, v.h);
      if r.None? { return; }
      assert Marks(s, v) && v in [v];
      if r.value.index in marked { return; }
      marked := marked + {r.value.index};
      work := work + [r.value];
    }

    method PushAll(vs: seq<Value>)
      requires Valid()
      modifies this
      ensures Valid() && Grown(old(marked), old(work), marked, work, Targets(s, vs))
    {
      hide LocalForMark, Grown, Targets, Valid;
      var i := 0;
      TargetsNone(s, marked, work);
      while i < |vs|
        invariant 0 <= i <= |vs| && Valid()
        invariant Grown(old(marked), old(work), marked, work, Targets(s, vs[..i]))
      {
        ghost var m, w := marked, work;
        Push(vs[i]);
        assert vs[..i + 1] == vs[..i] + [vs[i]];
        TargetsAdd(s, vs[..i], [vs[i]]);
        GrownTwice(old(marked), old(work), m, w, Targets(s, vs[..i]), marked, work, Targets(s, [vs[i]]));
        i := i + 1;
      }
      assert vs[..i] == vs;
    }

    /** Visits the edges of one cell. */
    method Scan(c: Cell, full: bool)
      requires Valid()
      modifies this
      ensures Valid() && Grown(old(marked), old(work), marked, work, Targets(s, Edges(c, full)))
    {
      hide LocalForMark, Grown, Targets, Valid, ReactionValues;
      ghost var m, w := marked, work;
      PushAll(c.slots);
      PushMore(c.elements, m, w, c.slots);
      ghost var e := c.slots + c.elements;
      PushHandle(c.proto, m, w, e);
      e := e + [Obj(c.proto)];
      PushHandle(c.env, m, w, e);
      e := e + [Obj(c.env)];
      PushHandle(c.home, m, w, e);
      e := e + [Obj(c.home)];
      if full { e := ScanCollections(c, m, w, e); }
      PushMore([c.prim], m, w, e);
      e := e + [c.prim];
      if full { e := ScanInternals(c, m, w, e); }
      TargetsSame(s, e, Edges(c, full));
    }

    method ScanCollections(c: Cell, ghost m: set<nat>, ghost w: seq<Handle>, ghost before: seq<Value>)
      returns (ghost e: seq<Value>)
      requires Valid() && Grown(m, w, marked, work, Targets(s, before))
      modifies this
      ensures e == before + MapEdges(c) + SetEdges(c)
      ensures Valid() && Grown(m, w, marked, work, Targets(s, e))
    {
      hide LocalForMark, Grown, Targets, Valid;
      e := before;
      if c.map_.Some? && !c.kind.WeakMap? {
        PushMore(c.map_.value.keys, m, w, e);
        PushMore(c.map_.value.values, m, w, e + c.map_.value.keys);
        e := e + c.map_.value.keys + c.map_.value.values;
        assert e == before + MapEdges(c);
      }
      if c.set_.Some? {
        PushMore(c.set_.value, m, w, e);
        e := e + c.set_.value;
      }
    }

    method ScanInternals(c: Cell, ghost m: set<nat>, ghost w: seq<Handle>, ghost before: seq<Value>)
      returns (ghost e: seq<Value>)
      requires Valid() && Grown(m, w, marked, work, Targets(s, before))
      modifies this
      ensures e == before + PromiseEdges(c) + ProxyEdges(c) + GeneratorEdges(c)
      ensures Valid() && Grown(m, w, marked, work, Targets(s, e))
    {
      hide LocalForMark, Grown, Targets, Valid, ReactionValues;
      e := before;
      if c.promise.Some? {
        PushMore([c.promise.value.result], m, w, e);
        PushReactions(c.promise.value.reactions, m, w, e + [c.promise.value.result]);
        e := e + [c.promise.value.result] + ReactionValues(c.promise.value.reactions);
        assert e == before + PromiseEdges(c);
      }
      if c.proxy.Some? {
        PushMore([c.proxy.value.target], m, w, e);
        PushMore([c.proxy.value.handler], m, w, e + [c.proxy.value.target]);
        ghost var e1 := e;
        e := e + [c.proxy.value.target] + [c.proxy.value.handler];
        assert e == e1 + ProxyEdges(c);
      }
      if c.gen.Some? {
        var g := c.gen.value;
        ghost var e1 := e;
        PushMore([g.this_], m, w, e);
        PushMore([g.delegate], m, w, e + [g.this_]);
        PushMore([g.sent], m, w, e + [g.this_] + [g.delegate]);
        PushMore(g.stack, m, w, e + [g.this_] + [g.delegate] + [g.sent]);
        e := e + [g.this_] + [g.delegate] + [g.sent] + g.stack;
        assert e == e1 + GeneratorEdges(c);
      }
    }

    method PushReactions(rs: seq<Reaction>, ghost m: set<nat>, ghost w: seq<Handle>, ghost before: seq<Value>)
      requires Valid() && Grown(m, w, marked, work, Targets(s, before))
      modifies this
      ensures Valid() && Grown(m, w, marked, work, Targets(s, before + ReactionValues(rs)))
    {
      hide LocalForMark, Grown, Targets, Valid;
      var i := 0;
      assert before + ReactionValues(rs[..0]) == before;
      while i < |rs|
        invariant 0 <= i <= |rs| && Valid()
        invariant Grown(m, w, marked, work, Targets(s, before + ReactionValues(rs[..i])))
      {
        ghost var e := before + ReactionValues(rs[..i]);
        var r := rs[i];
        PushMore([r.onFulfilled], m, w, e);
        PushMore([r.onRejected], m, w, e + [r.onFulfilled]);
        PushMore([r.child], m, w, e + [r.onFulfilled] + [r.onRejected]);
        assert rs[..i + 1][..i] == rs[..i];
        assert e + [r.onFulfilled] + [r.onRejected] + [r.child] == before + ReactionValues(rs[..i + 1]);
        i := i + 1;
      }
      assert rs[..i] == rs;
    }

    method PushHandle(h: Handle, ghost m: set<nat>, ghost w: seq<Handle>, ghost before: seq<Value>)
      requires Valid() && Grown(m, w, marked, work, Targets(s, before))
      modifies this
      ensures Valid() && Grown(m, w, marked, work, Targets(s, before + [Obj(h)]))
    {
      hide LocalForMark, Grown, Targets, Valid;
      if h != NO_HANDLE {
        PushMore([Obj(h)], m, w, before);
      } else {
        TargetsNull(s);
        TargetsAdd(s, before, [Obj(h)]);
        assert Targets(s, before + [Obj(h)]) == Targets(s, before);
      }
    }

    /** Visits what the interpreter keeps alive. */
    method ScanRoots(vm: VmState, ghost m: set<nat>, ghost w: seq<Handle>, ghost before: seq<Value>)
      requires Valid() && Grown(m, w, marked, work, Targets(s, before))
      modifies this
      ensures Valid() && Grown(m, w, marked, work, Targets(s, before + VmValues(vm)))
    {
      hide LocalForMark, Grown, Targets, Valid, FrameValues, EnvValues, Flatten;
      ghost var e := before;
      PushMore([Obj(vm.globalObj)], m, w, e);
      e := e + [Obj(vm.globalObj)];
      PushMore([Obj(vm.generatorProto)], m, w, e);
      e := e + [Obj(vm.generatorProto)];
      PushFrames(vm.frames, m, w, e);
      e := e + FrameValues(vm.frames);
      PushMore(vm.globals, m, w, e);
      PushMore(vm.moduleExports, m, w, e + vm.globals);
      e := e + vm.globals + vm.moduleExports;
      PushMore(vm.thisStack, m, w, e);
      PushMore(vm.newStack, m, w, e + vm.thisStack);
      e := e + vm.thisStack + vm.newStack;
      PushEnvs(vm.safeEnvs, m, w, e);
      e := e + EnvValues(vm.safeEnvs);
      PushMore([vm.keep], m, w, e);
      PushMore([vm.returnTok], m, w, e + [vm.keep]);
      PushMore([vm.tdzTok], m, w, e + [vm.keep] + [vm.returnTok]);
      e := e + [vm.keep] + [vm.returnTok] + [vm.tdzTok];
      PushJobs(vm.jobs, m, w, e);
      assert e + Flatten(vm.jobs) == before + VmValues(vm);
    }

    method PushFrames(fs: seq<Frame>, ghost m: set<nat>, ghost w: seq<Handle>, ghost before: seq<Value>)
      requires Valid() && Grown(m, w, marked, work, Targets(s, before))
      modifies this
      ensures Valid() && Grown(m, w, marked, work, Targets(s, before + FrameValues(fs)))
    {
      hide LocalForMark, Grown, Targets, Valid;
      var i := 0;
      assert before + FrameValues(fs[..0]) == before;
      while i < |fs|
        invariant 0 <= i <= |fs| && Valid()
        invariant Grown(m, w, marked, work, Targets(s, before + FrameValues(fs[..i])))
      {
        ghost var e := before + FrameValues(fs[..i]);
        var f := fs[i];
        PushMore([Obj(f.env)], m, w, e);
        PushMore([f.callee], m, w, e + [Obj(f.env)]);
        PushMore([f.newTarget], m, w, e + [Obj(f.env)] + [f.callee]);
        assert fs[..i + 1][..i] == fs[..i];
        assert before + FrameValues(fs[..i + 1]) == e + [Obj(f.env)] + [f.callee] + [f.newTarget];
        i := i + 1;
      }
      assert fs[..i] == fs;
    }

    method PushEnvs(hs: seq<Handle>, ghost m: set<nat>, ghost w: seq<Handle>, ghost before: seq<Value>)
      requires Valid() && Grown(m, w, marked, work, Targets(s, before))
      modifies this
      ensures Valid() && Grown(m, w, marked, work, Targets(s, before + EnvValues(hs)))
    {
      hide LocalForMark, Grown, Targets, Valid;
      var i := 0;
      assert before + EnvValues(hs[..0]) == before;
      while i < |hs|
        invariant 0 <= i <= |hs| && Valid()
        invariant Grown(m, w, marked, work, Targets(s, before + EnvValues(hs[..i])))
      {
        PushMore([Obj(hs[i])], m, w, before + EnvValues(hs[..i]));
        assert before + EnvValues(hs[..i + 1]) == before + EnvValues(hs[..i]) + [Obj(hs[i])];
        i := i + 1;
      }
      assert hs[..i] == hs;
    }

    method PushJobs(jobs: seq<seq<Value>>, ghost m: set<nat>, ghost w: seq<Handle>, ghost before: seq<Value>)
      requires Valid() && Grown(m, w, marked, work, Targets(s, before))
      modifies this
      ensures Valid() && Grown(m, w, marked, work, Targets(s, before + Flatten(jobs)))
    {
      hide LocalForMark, Grown, Targets, Valid;
      var i := 0;
      assert before + Flatten(jobs[..0]) == before;
      while i < |jobs|
        invariant 0 <= i <= |jobs| && Valid()
        invariant Grown(m, w, marked, work, Targets(s, before + Flatten(jobs[..i])))
      {
        PushMore(jobs[i], m, w, before + Flatten(jobs[..i]));
        assert jobs[..i + 1][..i] == jobs[..i];
        assert before + Flatten(jobs[..i + 1]) == before + Flatten(jobs[..i]) + jobs[i];
        i := i + 1;
      }
      assert jobs[..i] == jobs;
    }

    /** Marks the clones. */
    method PushClones(cow: map<Handle, Handle>)
      requires Valid() && cow == s.cow
      modifies this
      ensures Valid() && Grown(old(marked), old(work), marked, work, CloneSlots(s))
    {
      hide LocalForMark, Grown, Targets, Valid;
      var keys := cow.Keys;
      ClonesOf(s, {});
      assert cow.Keys - keys == {};
      TargetsNone(s, marked, work);
      while keys != {}
        invariant keys <= cow.Keys && Valid()
        invariant Grown(old(marked), old(work), marked, work, ClonesAmong(s, cow.Keys - keys))
      {
        var k :| k in keys;
        ghost var m, w := marked, work;
        Push(Obj(cow[k]));
        GrownTwice(old(marked), old(work), m, w, ClonesAmong(s, cow.Keys - keys), marked, work, Targets(s, [Obj(cow[k])]));
        CloneNext(s, cow.Keys - keys, k);
        assert cow.Keys - (keys - {k}) == (cow.Keys - keys) + {k};
        keys := keys - {k};
      }
      ClonesOf(s, cow.Keys);
      assert cow.Keys - keys == cow.Keys;
    }

    /** Follows references until none leads to an unmarked cell; whatever closed set the marks
        started in, they stay in it. */
    method Drain(full: bool, ghost c: set<nat>)
      requires Valid() && Tidy(full) && marked <= c && Closed(s, c, full)
      modifies this
      ensures Valid() && work == [] && old(marked) <= marked <= c && Closed(s, marked, full)
    {
      hide LocalForMark, Grown, Targets, Edges, Leads;
      ghost var all := Below(|s.slots.objs|);
      while work != []
        invariant Valid() && Tidy(full) && old(marked) <= marked <= c
        decreases all - marked, |work|
      {
        var hd := work[|work| - 1];
        ghost var m, w := marked, work;
        work := work[..|work| - 1];
        assert w == work + [hd];
        var o := Resolve(s.slots, hd);
        ghost var rest := work;
        Scan(o.value, full);
        AfterScan(s, m, w, hd, rest, marked, work, o.value, full);
        ScanInside(s, hd.index, o.value, full, c);
        GrownMarks(m, rest, marked, work, Targets(s, Edges(o.value, full)));
        Fewer(all, m, marked);
      }
    }

    /** Visits more edges after some have been. */
    method PushMore(vs: seq<Value>, ghost m: set<nat>, ghost w: seq<Handle>, ghost before: seq<Value>)
      requires Valid() && Grown(m, w, marked, work, Targets(s, before))
      modifies this
      ensures Valid() && Grown(m, w, marked, work, Targets(s, before + vs))
    {
      hide LocalForMark, Grown, Targets, Valid;
      PushAll(vs);
      TargetsAdd(s, before, vs);
      GrownTwice(m, w, old(marked), old(work), Targets(s, before), marked, work, Targets(s, vs));
    }
  }

  lemma GrownMarks(m: set<nat>, w: seq<Handle>, m1: set<nat>, w1: seq<Handle>, t: set<nat>)
    requires Grown(m, w, m1, w1, t)
    ensures m1 == m + t && (m1 == m ==> w1 == w)
  {}

  lemma GrownFromNone(m: set<nat>, w: seq<Handle>, t: set<nat>)
    requires Grown({}, [], m, w, t)
    ensures m == t == Indices(w)
  {}

  lemma ScanInside(s: Snap, i: nat, c: Cell, full: bool, m: set<nat>)
    requires i in m && Closed(s, m, full) && i < |s.slots.objs| && s.slots.objs[i] == Some(c)
    ensures Targets(s, Edges(c, full)) <= m
  {
    hide Leads, Targets, Edges;
    forall j | j in Targets(s, Edges(c, full)) ensures j in m { LeadsRight(s, i, j, full); }
  }

  /** Visiting the cell taken from the work list keeps every other mark tidy. */
  lemma AfterScan(s: Snap, m: set<nat>, w: seq<Handle>, hd: Handle, rest: seq<Handle>, m1: set<nat>, w1: seq<Handle>, c: Cell, full: bool)
    requires w == rest + [hd] && hd.index < |s.slots.objs| && s.slots.objs[hd.index] == Some(c)
    requires Grown(m, rest, m1, w1, Targets(s, Edges(c, full)))
    requires forall i: nat, j: nat :: i in m && i !in Indices(w) && Leads(s, i, j, full) ==> j in m
    ensures forall i: nat, j: nat :: i in m1 && i !in Indices(w1) && Leads(s, i, j, full) ==> j in m1
  {
    hide Leads, Targets, Edges;
    forall i: nat, j: nat | i in m1 && i !in Indices(w1) && Leads(s, i, j, full) ensures j in m1 {
      if i == hd.index { LeadsRight(s, i, j, full); }
    }
  }

  /** The clones of some shared objects. */
  function ClonesAmong(s: Snap, keys: set<Handle>): set<nat> {
    set k | k in keys && k in s.cow && Marks(s, Obj(s.cow[k])) :: LocalForMark(s, s.cow[k]).value.index
  }

  lemma ClonesOf(s: Snap, keys: set<Handle>)
    ensures ClonesAmong(s, {}) == {} && Targets(s, []) == {}
    ensures keys == s.cow.Keys ==> ClonesAmong(s, keys) == CloneSlots(s)
  {
    hide LocalForMark;
  }

  lemma CloneNext(s: Snap, keys: set<Handle>, k: Handle)
    requires k in s.cow
    ensures ClonesAmong(s, keys + {k}) == ClonesAmong(s, keys) + Targets(s, [Obj(s.cow[k])])
  {
    hide LocalForMark;
    assert forall v :: v in [Obj(s.cow[k])] <==> v == Obj(s.cow[k]);
    assert k in keys + {k};
  }

  lemma TargetsNone(s: Snap, m: set<nat>, w: seq<Handle>)
    ensures Grown(m, w, m, w, Targets(s, []))
  {}

  // ---------- Roots ----------

  datatype Frame = Frame(env: Handle, callee: Value, newTarget: Value)

  /** What the interpreter keeps alive; the values of its maps stand in some order. */
  datatype VmState = VmState(globalObj: Handle, generatorProto: Handle, frames: seq<Frame>, globals: seq<Value>,
                             moduleExports: seq<Value>, thisStack: seq<Value>, newStack: seq<Value>,
                             safeEnvs: seq<Handle>, keep: Value, returnTok: Value, tdzTok: Value,
                             jobs: seq<seq<Value>>)

  function FrameValues(fs: seq<Frame>): seq<Value> {
    if fs == [] then []
    else FrameValues(fs[..|fs| - 1]) + [Obj(fs[|fs| - 1].env), fs[|fs| - 1].callee, fs[|fs| - 1].newTarget]
  }

  function Flatten(vs: seq<seq<Value>>): seq<Value> {
    if vs == [] then [] else Flatten(vs[..|vs| - 1]) + vs[|vs| - 1]
  }

  function EnvValues(hs: seq<Handle>): seq<Value> { seq(|hs|, i requires 0 <= i < |hs| => Obj(hs[i])) }

  function VmValues(vm: VmState): seq<Value> {
    [Obj(vm.globalObj), Obj(vm.generatorProto)] + FrameValues(vm.frames) + vm.globals + vm.moduleExports
    + vm.thisStack + vm.newStack + EnvValues(vm.safeEnvs) + [vm.keep, vm.returnTok, vm.tdzTok] + Flatten(vm.jobs)
  }

  /** The private clones of shared objects are roots. */
  function CloneSlots(s: Snap): set<nat> {
    set k | k in s.cow && Marks(s, Obj(s.cow[k])) :: LocalForMark(s, s.cow[k]).value.index
  }

  function RootSlots(s: Snap, roots: seq<Value>): set<nat> { Targets(s, roots) + CloneSlots(s) }

  lemma RootSlotsInside(s: Snap, roots: seq<Value>)
    ensures forall i :: i in RootSlots(s, roots) ==> i < |s.slots.objs|
  {}

  /** The slots a collection must keep. */
  ghost function Live(s: Snap, roots: seq<Value>): set<nat> { Alive(s, RootSlots(s, roots), true) }

  ghost predicate NoWeakMap(s: Snap, m: set<nat>) {
    forall i :: i in m && i < |s.slots.objs| && s.slots.objs[i].Some? ==> !s.slots.objs[i].value.kind.WeakMap?
  }

  /** Cells as they were, but for entries dropped from weak maps. */
  ghost predicate KeptButWeak(objs: seq<Option<Cell>>, kept: seq<Option<Cell>>) {
    && |kept| == |objs|
    && forall i :: 0 <= i < |objs| ==>
         kept[i] == objs[i] ||
         (objs[i].Some? && objs[i].value.kind.WeakMap? && kept[i].Some? && kept[i].value.map_.Some?
          && kept[i].value == objs[i].value.(map_ := kept[i].value.map_)
          && |kept[i].value.map_.value.keys| == |kept[i].value.map_.value.values|)
  }

  /** The values of all weak maps, and the cells they lead to without passing through a map again. */
  function WeakValues(objs: seq<Option<Cell>>): seq<Value> {
    if objs == [] then []
    else WeakValues(objs[..|objs| - 1]) + WeakEntries(objs[|objs| - 1])
  }

  predicate HasEntries(o: Option<Cell>) { o.Some? && o.value.kind.WeakMap? && o.value.map_.Some? }

  function WeakEntries(o: Option<Cell>): seq<Value> {
    if HasEntries(o) then o.value.map_.value.values else []
  }

  lemma {:induction false} WeakValuesHold(s: Snap, objs: seq<Option<Cell>>, i: nat)
    requires i < |objs|
    ensures Targets(s, WeakEntries(objs[i])) <= Targets(s, WeakValues(objs))
  {
    hide LocalForMark, WeakEntries;
    if i < |objs| - 1 { WeakValuesHold(s, objs[..|objs| - 1], i); }
  }

  ghost function Upper(s: Snap, reached: set<nat>): set<nat> {
    Alive(s, reached + Targets(s, WeakValues(s.slots.objs)), false)
  }

  predicate KeyAlive(s: Snap, m: set<nat>, k: Value) {
    k.Obj? && (IsRoot(k.h) || (LocalForMark(s, k.h).Some? && LocalForMark(s, k.h).value.index in m))
  }

  /** The marks after the first j entries of a weak map: a value is marked if its key is by then. */
  function EntryMarks(s: Snap, m: set<nat>, d: MapData, j: nat): set<nat>
    requires j <= |d.keys| == |d.values|
  {
    if j == 0 then m
    else
      var m1 := EntryMarks(s, m, d, j - 1);
      if KeyAlive(s, m1, d.keys[j - 1]) then m1 + Targets(s, [d.values[j - 1]]) else m1
  }

  /** The entries the pass leaves of the first j: those whose key is marked when it comes to them, in their order. */
  function EntriesLeft(s: Snap, m: set<nat>, d: MapData, j: nat): (r: MapData)
    requires j <= |d.keys| == |d.values|
    ensures |r.keys| == |r.values|
  {
    if j == 0 then MapData([], [])
    else
      var r := EntriesLeft(s, m, d, j - 1);
      if KeyAlive(s, EntryMarks(s, m, d, j - 1), d.keys[j - 1])
      then MapData(r.keys + [d.keys[j - 1]], r.values + [d.values[j - 1]]) else r
  }

  lemma {:induction false} EntryMarksGrow(s: Snap, m: set<nat>, d: MapData, i: nat, j: nat)
    requires i <= j <= |d.keys| == |d.values|
    ensures m <= EntryMarks(s, m, d, i) <= EntryMarks(s, m, d, j)
    decreases j
  {
    hide KeyAlive, Targets;
    if i < j { EntryMarksGrow(s, m, d, i, j - 1); } else if j > 0 { EntryMarksGrow(s, m, d, j - 1, j - 1); }
  }

  /** d holds the entry of k with v. */
  ghost predicate Holds(d: MapData, k: Value, v: Value) {
    exists i :: 0 <= i < |d.keys| && i < |d.values| && d.keys[i] == k && d.values[i] == v
  }

  /** No entry with a live key is dropped, none is made up, and none is left whose key is unmarked in the end. */
  lemma {:induction false} EntriesLeftAre(s: Snap, m: set<nat>, d: MapData, j: nat)
    requires j <= |d.keys| == |d.values|
    ensures forall i :: 0 <= i < j && KeyAlive(s, m, d.keys[i]) ==> Holds(EntriesLeft(s, m, d, j), d.keys[i], d.values[i])
    ensures forall k, v :: Holds(EntriesLeft(s, m, d, j), k, v) ==> Holds(d, k, v) && KeyAlive(s, EntryMarks(s, m, d, j), k)
  {
    hide LocalForMark, Targets;
    if j > 0 {
      EntriesLeftAre(s, m, d, j - 1);
      EntryMarksGrow(s, m, d, j - 1, j);
      var (r0, r) := (EntriesLeft(s, m, d, j - 1), EntriesLeft(s, m, d, j));
      forall k, v ensures Holds(r, k, v) <==> Holds(r0, k, v) || (r != r0 && k == d.keys[j - 1] && v == d.values[j - 1]) {
        EntryAdded(r0, d.keys[j - 1], d.values[j - 1], k, v);
      }
    }
  }

  lemma EntryAdded(r0: MapData, k0: Value, v0: Value, k: Value, v: Value)
    requires |r0.keys| == |r0.values|
    ensures Holds(MapData(r0.keys + [k0], r0.values + [v0]), k, v) <==> Holds(r0, k, v) || (k == k0 && v == v0)
    ensures MapData(r0.keys + [k0], r0.values + [v0]) != r0
  {
    var r := MapData(r0.keys + [k0], r0.values + [v0]);
    if i :| 0 <= i < |r0.keys| && r0.keys[i] == k && r0.values[i] == v { assert r.keys[i] == k && r.values[i] == v; }
    assert r.keys[|r0.keys|] == k0 && r.values[|r0.keys|] == v0;
    assert |r.keys| == |r0.keys| + 1;
  }

  /** Slot i after the pass: marked weak maps keep the entries left, everything else is as it was. */
  function Passed(s: Snap, m: set<nat>, i: nat): Option<Cell>
    requires i < |s.slots.objs| && MapsParallel(s.slots.objs)
  {
    var o := s.slots.objs[i];
    if i > 0 && HasEntries(o) && i in WeakMarks(s, m, i) then
      Some(o.value.(map_ := Some(EntriesLeft(s, WeakMarks(s, m, i), o.value.map_.value, |o.value.map_.value.keys|))))
    else o
  }

  /** The marks after the pass has been through the slots below n, in their order. */
  function WeakMarks(s: Snap, m: set<nat>, n: nat): set<nat>
    requires n <= |s.slots.objs| && MapsParallel(s.slots.objs)
  {
    if n <= 1 then m
    else
      var m1 := WeakMarks(s, m, n - 1);
      var o := s.slots.objs[n - 1];
      if n - 1 in m1 && HasEntries(o) then EntryMarks(s, m1, o.value.map_.value, |o.value.map_.value.keys|) else m1
  }

  lemma NothingPassed(s: Snap, m: set<nat>)
    requires 1 <= |s.slots.objs| && MapsParallel(s.slots.objs)
    ensures Passed(s, m, 0) == s.slots.objs[0] && WeakMarks(s, m, 1) == m
  {}

  lemma PassedIs(s: Snap, m: set<nat>, i: nat)
    requires 0 < i < |s.slots.objs| && MapsParallel(s.slots.objs)
    ensures var (o, before) := (s.slots.objs[i], WeakMarks(s, m, i));
      if HasEntries(o) && i in before then
        && Passed(s, m, i) == Some(o.value.(map_ := Some(EntriesLeft(s, before, o.value.map_.value, |o.value.map_.value.keys|))))
        && WeakMarks(s, m, i + 1) == EntryMarks(s, before, o.value.map_.value, |o.value.map_.value.keys|)
      else Passed(s, m, i) == o && WeakMarks(s, m, i + 1) == before
  {
    hide EntriesLeft, EntryMarks;
  }

  lemma {:induction false} NoWeakMarks(s: Snap, m: set<nat>, n: nat)
    requires n <= |s.slots.objs| && MapsParallel(s.slots.objs) && NoWeakMap(s, m)
    ensures WeakMarks(s, m, n) == m
  {
    hide EntryMarks, EntriesLeft;
    if n > 1 { NoWeakMarks(s, m, n - 1); }
  }

  /** The pass changes weak maps alone, and nothing when no marked cell is one. */
  lemma PassedKeeps(s: Snap, m: set<nat>, objs: seq<Option<Cell>>)
    requires |objs| == |s.slots.objs| && MapsParallel(s.slots.objs)
    requires forall i: nat :: i < |objs| ==> objs[i] == Passed(s, m, i)
    ensures KeptButWeak(s.slots.objs, objs) && (NoWeakMap(s, m) ==> objs == s.slots.objs)
  {
    hide EntriesLeft, WeakMarks;
    if NoWeakMap(s, m) {
      forall i | 0 <= i < |objs| ensures objs[i] == s.slots.objs[i] { NoWeakMarks(s, m, i); }
    }
  }

  /** What a collection keeps, weak maps or not: what the roots reach, the values of entries whose key is
      marked when the pass comes to them, and what those reach without the second pass looking inside maps,
      sets, promises, proxies and generators. */
  ghost function Final(s: Snap, roots: seq<Value>): set<nat>
    requires MapsParallel(s.slots.objs)
  {
    Alive(s, WeakMarks(s, Live(s, roots), |s.slots.objs|), false)
  }

  /** The values that entries with a live key lead to are in live. */
  ghost predicate WeakKept(s: Snap, m: set<nat>, live: set<nat>, n: nat) {
    forall i :: i in m && i < n && i < |s.slots.objs| && HasEntries(s.slots.objs[i]) ==>
      EntriesKept(s, m, live, s.slots.objs[i].value.map_.value)
  }

  ghost predicate EntriesKept(s: Snap, m: set<nat>, live: set<nat>, d: MapData) {
    forall j :: 0 <= j < |d.keys| && j < |d.values| && KeyAlive(s, m, d.keys[j]) ==> Targets(s, [d.values[j]]) <= live
  }

  predicate MapsParallel(objs: seq<Option<Cell>>) {
    forall i :: 0 <= i < |objs| && objs[i].Some? && objs[i].value.map_.Some? ==>
      |objs[i].value.map_.value.keys| == |objs[i].value.map_.value.values|
  }

  // ---------- Roots by where they stand ----------

  /** The machine names v: in a frame, a global, an export, a stack, an environment it returns to, a register or a job. */
  ghost predicate VmNames(vm: VmState, v: Value) {
    || v == Obj(vm.globalObj) || v == Obj(vm.generatorProto)
    || FrameNames(vm.frames, v)
    || (exists i :: 0 <= i < |vm.globals| && vm.globals[i] == v)
    || (exists i :: 0 <= i < |vm.moduleExports| && vm.moduleExports[i] == v)
    || (exists i :: 0 <= i < |vm.thisStack| && vm.thisStack[i] == v)
    || (exists i :: 0 <= i < |vm.newStack| && vm.newStack[i] == v)
    || (exists i :: 0 <= i < |vm.safeEnvs| && Obj(vm.safeEnvs[i]) == v)
    || v == vm.keep || v == vm.returnTok || v == vm.tdzTok
    || JobNames(vm.jobs, v)
  }

  ghost predicate FrameNames(fs: seq<Frame>, v: Value) {
    exists i :: 0 <= i < |fs| && (v == Obj(fs[i].env) || v == fs[i].callee || v == fs[i].newTarget)
  }

  ghost predicate JobNames(jobs: seq<seq<Value>>, v: Value) {
    exists i, j :: 0 <= i < |jobs| && 0 <= j < |jobs[i]| && jobs[i][j] == v
  }

  lemma {:induction false} FrameNamesAre(fs: seq<Frame>, v: Value)
    ensures v in FrameValues(fs) <==> FrameNames(fs, v)
  {
    hide FrameNames;
    if fs == [] {
      assert !FrameNames(fs, v) by { FrameNamesNext(fs, v); }
    } else {
      FrameNamesAre(fs[..|fs| - 1], v);
      FrameNamesNext(fs, v);
    }
  }

  lemma FrameNamesNext(fs: seq<Frame>, v: Value)
    ensures FrameNames(fs, v) <==>
      fs != [] && (FrameNames(fs[..|fs| - 1], v)
                   || (var f := fs[|fs| - 1]; v == Obj(f.env) || v == f.callee || v == f.newTarget))
  {
    assert fs != [] ==> forall i :: 0 <= i < |fs| - 1 ==> fs[..|fs| - 1][i] == fs[i];
    if fs != [] && FrameNames(fs[..|fs| - 1], v) {
      var gs := fs[..|fs| - 1];
      var i :| 0 <= i < |gs| && (v == Obj(gs[i].env) || v == gs[i].callee || v == gs[i].newTarget);
      assert gs[i] == fs[i];
    }
  }

  lemma {:induction false} JobNamesAre(jobs: seq<seq<Value>>, v: Value)
    ensures v in Flatten(jobs) <==> JobNames(jobs, v)
  {
    if jobs != [] {
      var n := |jobs| - 1;
      JobNamesAre(jobs[..n], v);
      if JobNames(jobs[..n], v) {
        var i, j :| 0 <= i < n && 0 <= j < |jobs[..n][i]| && jobs[..n][i][j] == v;
        assert jobs[..n][i] == jobs[i];
      }
      if JobNames(jobs, v) {
        var i, j :| 0 <= i < |jobs| && 0 <= j < |jobs[i]| && jobs[i][j] == v;
        if i < n { assert jobs[..n][i] == jobs[i]; }
      }
    }
  }

  /** The values given to the collector are those the machine names, and no others. */
  lemma VmNamesAre(vm: VmState, v: Value)
    ensures v in VmValues(vm) <==> VmNames(vm, v)
  {
    hide FrameValues, Flatten, FrameNames, JobNames;
    FrameNamesAre(vm.frames, v);
    JobNamesAre(vm.jobs, v);
    if i :| 0 <= i < |vm.safeEnvs| && Obj(vm.safeEnvs[i]) == v { assert EnvValues(vm.safeEnvs)[i] == v; }
  }

  /** Everything that names roots. */
  datatype Roots = Roots(listed: seq<Value>, stack: seq<Value>, scanned: seq<Value>, vm: Option<VmState>,
                         objectProto: Handle, arrayProto: Handle, functionProto: Handle)

  ghost predicate Names(r: Roots, v: Value) {
    || (exists i :: 0 <= i < |r.listed| && r.listed[i] == v)
    || (exists i :: 0 <= i < |r.stack| && r.stack[i] == v)
    || (exists i :: 0 <= i < |r.scanned| && r.scanned[i] == v)
    || (r.vm.Some? && VmNames(r.vm.value, v))
    || v == Obj(r.objectProto) || v == Obj(r.arrayProto) || v == Obj(r.functionProto)
  }

  /** h is the handle of the cell in slot i. */
  predicate LocalAt(s: Slots, h: Handle, i: nat) {
    && h != NO_HANDLE && !IsRoot(h) && h.index == i
    && 0 < i < |s.objs| && i < |s.gens| && s.gens[i] == h.gen && s.objs[i].Some?
  }

  /** The reference h stands for the cell in slot i: its own, or the private clone of a shared object. */
  predicate Designates(s: Snap, h: Handle, i: nat) {
    if IsRoot(h) then StripRoot(h) in s.cow && LocalAt(s.slots, s.cow[StripRoot(h)], i) else LocalAt(s.slots, h, i)
  }

  lemma DesignatesIs(s: Snap, h: Handle, i: nat)
    ensures Designates(s, h, i) <==> Marks(s, Obj(h)) && LocalForMark(s, h).value.index == i
  {}

  /** Slot i holds a cell that a root names, or a private clone. */
  ghost predicate Rooted(s: Snap, r: Roots, i: nat) {
    || (exists h :: Names(r, Obj(h)) && Designates(s, h, i))
    || (exists k :: k in s.cow && Designates(s, s.cow[k], i))
  }

  /** A way from a root through the references that cells hold, slot by slot. */
  ghost predicate Trail(s: Snap, r: Roots, p: seq<nat>) {
    && p != [] && Rooted(s, r, p[0])
    && forall k :: 0 < k < |p| ==> RefersTo(s, p[k - 1], p[k])
  }

  ghost predicate RefersTo(s: Snap, i: nat, j: nat) {
    i < |s.slots.objs| && s.slots.objs[i].Some? && exists h :: PointsTo(s.slots.objs[i].value, h) && Designates(s, h, j)
  }

  function ValuesOf(r: Roots): seq<Value> {
    r.listed + r.stack + r.scanned + (if r.vm.Some? then VmValues(r.vm.value) else [])
    + [Obj(r.objectProto), Obj(r.arrayProto), Obj(r.functionProto)]
  }

  lemma NamesAre(r: Roots, v: Value)
    ensures v in ValuesOf(r) <==> Names(r, v)
  {
    hide VmValues, VmNames;
    if r.vm.Some? { VmNamesAre(r.vm.value, v); }
  }

  /** The slots that marking starts from are those that roots and clones designate. */
  lemma RootedAre(s: Snap, r: Roots, i: nat)
    ensures i in RootSlots(s, ValuesOf(r)) <==> Rooted(s, r, i)
  {
    hide VmValues, VmNames, Designates, LocalForMark, Names, ValuesOf;
    var vs := ValuesOf(r);
    if i in Targets(s, vs) {
      var v :| v in vs && Marks(s, v) && LocalForMark(s, v.h).value.index == i;
      NamesAre(r, v);
      DesignatesIs(s, v.h, i);
    }
    if h :| Names(r, Obj(h)) && Designates(s, h, i) {
      NamesAre(r, Obj(h));
      DesignatesIs(s, h, i);
      assert Obj(h) in vs && Marks(s, Obj(h));
    }
    if i in CloneSlots(s) {
      var k :| k in s.cow && Marks(s, Obj(s.cow[k])) && LocalForMark(s, s.cow[k]).value.index == i;
      DesignatesIs(s, s.cow[k], i);
    }
    if k :| k in s.cow && Designates(s, s.cow[k], i) { DesignatesIs(s, s.cow[k], i); }
  }

  /** What a trail leads to is reached. */
  lemma TrailLive(s: Snap, r: Roots, p: seq<nat>)
    requires Trail(s, r, p)
    ensures p[|p| - 1] in Live(s, ValuesOf(r)) && p[|p| - 1] < |s.slots.objs| && s.slots.objs[p[|p| - 1]].Some?
  {
    hide LocalForMark, PointsTo, ShortPointsTo, ValuesOf, Names, VmNames, RootSlots;
    RootedAre(s, r, p[0]);
    forall k | 0 < k < |p| ensures Leads(s, p[k - 1], p[k], true) {
      assert RefersTo(s, p[k - 1], p[k]);
      var h :| PointsTo(s.slots.objs[p[k - 1]].value, h) && Designates(s, h, p[k]);
      DesignatesIs(s, h, p[k]);
    }
    assert Chain(s, RootSlots(s, ValuesOf(r)), p, true);
    if |p| > 1 { assert RefersTo(s, p[|p| - 2], p[|p| - 1]); }
  }

  /** The cell in slot i is still there: the same, but for entries a weak map has dropped. */
  predicate StillThere(s: Slots, s1: Slots, i: nat) {
    && i < |s.objs| && i < |s1.objs| && i < |s.gens| && i < |s1.gens| && s1.gens[i] == s.gens[i]
    && s.objs[i].Some? && s1.objs[i].Some?
    && (s1.objs[i] == s.objs[i]
        || (s.objs[i].value.kind.WeakMap? && s1.objs[i].value == s.objs[i].value.(map_ := s1.objs[i].value.map_)))
  }

  /** Every trail leads to a cell that is still there after a sweep that spares what is reached. */
  lemma TrailKept(s: Snap, r: Roots, kept: seq<Option<Cell>>, live: set<nat>, p: seq<nat>)
    requires |s.slots.objs| <= |s.slots.gens| && KeptButWeak(s.slots.objs, kept)
    requires Live(s, ValuesOf(r)) <= live && Trail(s, r, p)
    ensures StillThere(s.slots, Swept(Slots(kept, s.slots.gens, s.slots.free), live), p[|p| - 1])
  {
    hide Live, Trail, ValuesOf, Garbage;
    TrailLive(s, r, p);
  }

  lemma AllTrailsKept(s: Snap, r: Roots, kept: seq<Option<Cell>>, live: set<nat>)
    requires |kept| == |s.slots.objs| <= |s.slots.gens| && KeptButWeak(s.slots.objs, kept) && Live(s, ValuesOf(r)) <= live
    ensures var s1 := Swept(Slots(kept, s.slots.gens, s.slots.free), live);
      && (forall p :: Trail(s, r, p) ==> StillThere(s.slots, s1, p[|p| - 1]))
      && (forall h, i: nat :: Names(r, Obj(h)) && Designates(s, h, i) ==> StillThere(s.slots, s1, i))
  {
    hide Live, Rooted, RefersTo, ValuesOf, Swept, KeptButWeak, Designates, Names, StillThere;
    forall p | Trail(s, r, p)
      ensures StillThere(s.slots, Swept(Slots(kept, s.slots.gens, s.slots.free), live), p[|p| - 1])
    {
      TrailKept(s, r, kept, live, p);
    }
    forall h, i: nat | Names(r, Obj(h)) && Designates(s, h, i)
      ensures StillThere(s.slots, Swept(Slots(kept, s.slots.gens, s.slots.free), live), i)
    {
      OneTrail(s, r, h, i);
      TrailKept(s, r, kept, live, [i]);
    }
  }

  lemma OneTrail(s: Snap, r: Roots, h: Handle, i: nat)
    requires Names(r, Obj(h)) && Designates(s, h, i)
    ensures Trail(s, r, [i])
  {
    hide Names, Designates;
  }

  class Heap {
    var objs: seq<Option<Cell>>
    var gens: seq<nat>
    var free: seq<nat>
    var roots: seq<Value>
    var stack: seq<Value>
    var scanned: seq<Value>          // what the registered scanners enumerate
    var vm: Option<VmState>
    var objectProto: Handle
    var arrayProto: Handle
    var functionProto: Handle
    var cowMap: map<Handle, Handle>
    var stress: bool
    var allocs: int
    var threshold: int
    var collections: nat
    var swept: nat
    ghost var issued: set<Handle>    // every handle ever given out

    ghost function State(): Slots
      reads this
    {
      Slots(objs, gens, free)
    }

    ghost function Snapshot(): Snap
      reads this
    {
      Snap(State(), cowMap)
    }

    function RootValues(): seq<Value>
      reads this
    {
      ListedValues() + ProtoValues()
    }

    ghost function NamedRoots(): Roots
      reads this
    {
      Roots(roots, stack, scanned, vm, objectProto, arrayProto, functionProto)
    }

    ghost predicate Valid()
      reads this
    {
      WorldOk(World(State(), issued)) && MapsParallel(objs)
    }

    constructor ()
      ensures Valid() && issued == {} && State() == Slots([None], [0], []) && cowMap == map[] && roots == stack == []
    {
      objs, gens, free, roots, stack, scanned, vm := [None], [0], [], [], [], [], None;
      objectProto, arrayProto, functionProto := NO_HANDLE, NO_HANDLE, NO_HANDLE;
      cowMap, stress, allocs, threshold, collections, swept, issued := map[], false, 0, 1024, 0, 0, {};
    }

    /** Marks the roots. */
    method MarkRoots(c: Collector)
      requires c.s == Snapshot() && c.Valid() && c.marked == {} && c.work == []
      modifies c
      ensures c.Valid() && c.marked == RootSlots(c.s, RootValues()) == Indices(c.work)
      ensures forall i: nat :: i in c.marked <==> Rooted(c.s, NamedRoots(), i)
    {
      hide Targets, LocalForMark, Collector.Valid, CloneSlots, Grown, VmValues, Indices;
      ghost var e := ListedValues();
      PushListed(c);
      ghost var m, w := c.marked, c.work;
      c.PushClones(cowMap);
      GrownTwice({}, [], m, w, Targets(c.s, e), c.marked, c.work, CloneSlots(c.s));
      m, w := c.marked, c.work;
      PushProtos(c);
      GrownTwice({}, [], m, w, Targets(c.s, e) + CloneSlots(c.s), c.marked, c.work, Targets(c.s, ProtoValues()));
      TargetsAdd(c.s, e, ProtoValues());
      GrownFromNone(c.marked, c.work, Targets(c.s, e) + CloneSlots(c.s) + Targets(c.s, ProtoValues()));
      forall i: nat ensures i in c.marked <==> Rooted(c.s, NamedRoots(), i) { RootedAre(c.s, NamedRoots(), i); }
    }

    function ListedValues(): seq<Value>
      reads this
    {
      roots + stack + scanned + if vm.Some? then VmValues(vm.value) else []
    }

    function ProtoValues(): seq<Value>
      reads this
    {
      [Obj(objectProto), Obj(arrayProto), Obj(functionProto)]
    }

    method PushListed(c: Collector)
      requires c.s == Snapshot() && c.Valid()
      modifies c
      ensures c.Valid() && Grown(old(c.marked), old(c.work), c.marked, c.work, Targets(c.s, ListedValues()))
    {
      hide Targets, LocalForMark, Collector.Valid, Grown, VmValues;
      c.PushAll(roots);
      c.PushMore(stack, old(c.marked), old(c.work), roots);
      c.PushMore(scanned, old(c.marked), old(c.work), roots + stack);
      if vm.Some? {
        c.ScanRoots(vm.value, old(c.marked), old(c.work), roots + stack + scanned);
      } else {
        assert roots + stack + scanned + [] == roots + stack + scanned;
      }
    }

    method PushProtos(c: Collector)
      requires c.s == Snapshot() && c.Valid()
      modifies c
      ensures c.Valid() && Grown(old(c.marked), old(c.work), c.marked, c.work, Targets(c.s, ProtoValues()))
    {
      hide Targets, LocalForMark, Collector.Valid, Grown;
      TargetsNone(c.s, c.marked, c.work);
      c.PushHandle(objectProto, old(c.marked), old(c.work), []);
      c.PushHandle(arrayProto, old(c.marked), old(c.work), [] + [Obj(objectProto)]);
      c.PushHandle(functionProto, old(c.marked), old(c.work), [] + [Obj(objectProto)] + [Obj(arrayProto)]);
      assert [] + [Obj(objectProto)] + [Obj(arrayProto)] + [Obj(functionProto)] == ProtoValues();
    }

    // ---------- Weak maps ----------

    /** Drops the entries of marked weak maps whose key is not marked, and marks the values of the others. */
    method WeakPass(c: Collector, ghost u: set<nat>)
      requires Valid() && c.s == Snapshot() && c.Valid() && c.work == [] && Closed(c.s, c.marked, true)
      requires c.marked + Targets(c.s, WeakValues(objs)) <= u
      modifies this`objs, c
      ensures |objs| == |old(objs)| && KeptButWeak(old(objs), objs)
      ensures c.Valid() && c.Tidy(false) && old(c.marked) <= c.marked <= u
      ensures WeakKept(c.s, old(c.marked), c.marked, |objs|)
      ensures c.marked == WeakMarks(c.s, old(c.marked), |objs|)
      ensures forall i: nat :: i < |objs| ==> objs[i] == Passed(c.s, old(c.marked), i)
      ensures NoWeakMap(c.s, old(c.marked)) ==> objs == old(objs) && c.marked == old(c.marked) && c.work == []
    {
      hide LocalForMark, Leads, Targets, WorldOk, Grown, KeyAlive, EntriesKept, WeakValues, Collector.Tidy, Collector.Valid,
           EntryMarks, EntriesLeft, Passed, KeptButWeak;
      ClosedShort(c.s, c.marked);
      c.IsTidy();
      OkShape(World(State(), issued));
      NothingPassed(c.s, c.marked);
      var i := 1;
      while i < |objs|
        invariant 1 <= i <= |objs| && |objs| == |old(objs)|
        invariant forall j :: i <= j < |objs| ==> objs[j] == old(objs)[j]
        invariant c.Valid() && c.Tidy(false) && old(c.marked) <= c.marked <= u
        invariant WeakKept(c.s, old(c.marked), c.marked, i) && c.marked == WeakMarks(c.s, old(c.marked), i)
        invariant forall j: nat :: j < i ==> objs[j] == Passed(c.s, old(c.marked), j)
        invariant NoWeakMap(c.s, old(c.marked)) ==> c.marked == old(c.marked) && c.work == []
      {
        WeakValuesHold(c.s, old(objs), i);
        ghost var m := c.marked;
        PassedIs(c.s, old(c.marked), i);
        if i in c.marked && HasEntries(objs[i]) {
          var kept := KeepEntries(c, objs[i].value.map_.value, u, old(c.marked));
          objs := objs[i := Some(objs[i].value.(map_ := Some(kept)))];
        }
        WeakNext(c.s, old(c.marked), m, c.marked, i);
        i := i + 1;
      }
      PassedKeeps(c.s, old(c.marked), objs);
    }

    method KeepEntries(c: Collector, d: MapData, ghost u: set<nat>, ghost m: set<nat>) returns (kept: MapData)
      requires c.s.cow == cowMap && c.Valid() && c.Tidy(false) && |d.keys| == |d.values|
      requires m <= c.marked && c.marked + Targets(c.s, d.values) <= u
      modifies c
      ensures c.Valid() && c.Tidy(false) && old(c.marked) <= c.marked <= u && |kept.keys| == |kept.values|
      ensures EntriesKept(c.s, m, c.marked, d) && c.marked == EntryMarks(c.s, old(c.marked), d, |d.keys|)
      ensures kept == EntriesLeft(c.s, old(c.marked), d, |d.keys|)
    {
      hide LocalForMark, Leads, Targets, Collector.Valid;
      kept := MapData([], []);
      var j := 0;
      while j < |d.keys|
        invariant 0 <= j <= |d.keys| && |kept.keys| == |kept.values|
        invariant c.Valid() && c.Tidy(false) && old(c.marked) <= c.marked <= u
        invariant forall l :: 0 <= l < j && KeyAlive(c.s, m, d.keys[l]) ==> Targets(c.s, [d.values[l]]) <= c.marked
        invariant c.marked == EntryMarks(c.s, old(c.marked), d, j) && kept == EntriesLeft(c.s, old(c.marked), d, j)
      {
        var k := d.keys[j];
        var live := false;
        if k.Obj? {
          if IsRoot(k.h) {
            live := true;
          } else {
            var r := LocalForMark(c.s, k.h);
            live := r.Some? && r.value.index in c.marked;
          }
        }
        if live {
          kept := MapData(kept.keys + [k], kept.values + [d.values[j]]);
          ghost var m1, w1 := c.marked, c.work;
          TargetIn(c.s, d.values, j);
          c.Push(d.values[j]);
          StaysTidy(c.s, m1, w1, c.marked, c.work, Targets(c.s, [d.values[j]]));
        }
        j := j + 1;
      }
    }

    // ---------- Collection ----------

    /** Frees every unmarked cell; its slot moves to the next generation. */
    method Sweep(c: Collector)
      requires |objs| <= |gens| && objs != [] && objs[0].None?
      modifies this`objs, this`gens, this`free, this`swept
      ensures State() == Swept(old(State()), c.marked)
      ensures swept == old(swept) + |Garbage(old(objs), c.marked, |old(objs)|)|
    {
      hide SweptTo, Garbage;
      ghost var s0 := State();
      var i := 1;
      SweepStarts(s0, c.marked);
      while i < |objs|
        invariant 1 <= i <= |objs| == |s0.objs| && |gens| == |s0.gens|
        invariant State() == SweptTo(s0, c.marked, i)
        invariant swept == old(swept) + |Garbage(s0.objs, c.marked, i)|
      {
        SweepNext(s0, c.marked, i);
        if objs[i].Some? && i !in c.marked {
          objs := objs[i := None];
          gens := gens[i := NextGen(gens[i])];
          free := free + [i];
          swept := swept + 1;
        }
        i := i + 1;
      }
      SweepEnds(s0, c.marked);
    }

    /** Marks everything reached from the roots. */
    method Mark(c: Collector)
      requires c.s == Snapshot() && c.Valid() && c.marked == {} && c.work == []
      modifies c
      ensures c.Valid() && c.work == [] && Closed(c.s, c.marked, true)
      ensures c.marked == Live(c.s, RootValues()) && forall i :: i in c.marked ==> i < |objs|
    {
      hide LocalForMark, Leads, Targets, CloneSlots, Collector.Valid, Alive;
      MarkRoots(c);
      ghost var first := c.marked;
      RootSlotsInside(c.s, RootValues());
      AliveClosed(c.s, first, true);
      AllTidy(c.s, c.marked, c.work, true);
      c.Drain(true, Alive(c.s, first, true));
      AliveLeast(c.s, first, c.marked, true);
      c.Bounded();
    }

    /** A full collection.  Exactly the cells of `Final` survive, every reached one among them; without weak
        maps among the reached cells these are all, and nothing about them changes. */
    method Collect() returns (ghost live: set<nat>, ghost kept: seq<Option<Cell>>)
      requires Valid()
      modifies this`objs, this`gens, this`free, this`collections, this`swept
      ensures Valid()
      ensures KeptButWeak(old(objs), kept) && State() == Swept(Slots(kept, old(gens), old(free)), live)
      ensures Live(old(Snapshot()), old(RootValues())) <= live <= Upper(old(Snapshot()), Live(old(Snapshot()), old(RootValues())))
      ensures live == Final(old(Snapshot()), old(RootValues()))
      ensures forall i: nat :: i < |kept| ==> kept[i] == Passed(old(Snapshot()), Live(old(Snapshot()), old(RootValues())), i)
      ensures WeakKept(old(Snapshot()), Live(old(Snapshot()), old(RootValues())), live, |old(objs)|)
      ensures NoWeakMap(old(Snapshot()), Live(old(Snapshot()), old(RootValues()))) ==>
                live == Live(old(Snapshot()), old(RootValues())) && kept == old(objs)
      ensures forall h, i: nat :: old(Names(NamedRoots(), Obj(h)) && Designates(Snapshot(), h, i)) ==>
                StillThere(old(State()), State(), i)
      ensures forall p :: old(Trail(Snapshot(), NamedRoots(), p)) ==> StillThere(old(State()), State(), p[|p| - 1])
    {
      hide LocalForMark, Leads, WorldOk, Collector.Valid, Live, Swept, MapsParallel, KeptButWeak, WeakKept, Upper, Targets,
           WeakValues, Closed, Collector.Tidy, WeakMarks, Alive, Names, Designates, Trail, StillThere, Passed;
      ghost var s0, named := Snapshot(), NamedRoots();
      assert ValuesOf(named) == RootValues();
      collections := collections + 1;
      var c := new Collector(Snap(Slots(objs, gens, free), cowMap));
      Mark(c);
      ghost var reached := c.marked;
      ghost var u := Upper(s0, reached);
      UpperRight(World(s0.slots, issued), s0, reached);
      WeakPass(c, u);
      kept := objs;
      ghost var mid := c.marked;
      LaterDrain(c, reached, s0, u);
      live := c.marked;
      WeakMore(s0, reached, mid, live, |old(objs)|);
      AnySweepOk(World(s0.slots, issued), kept, live);
      OkShape(World(Slots(kept, gens, free), issued));
      Sweep(c);
      KeptMaps(old(objs), kept);
      SweptMaps(kept, old(gens), old(free), live);
      AllTrailsKept(s0, named, kept, live);
    }

    /** The second marking pass. */
    method LaterDrain(c: Collector, ghost reached: set<nat>, ghost s0: Snap, ghost u: set<nat>)
      requires c.Valid() && c.Tidy(false) && c.s == s0 && reached <= c.marked <= u
      requires Closed(s0, reached, true) && Closed(s0, u, false)
      modifies c
      ensures c.Valid() && old(c.marked) <= c.marked <= u && c.marked == Alive(s0, old(c.marked), false)
      ensures old(c.marked) == reached ==> c.marked == reached
    {
      hide LocalForMark, Leads, Alive;
      ClosedShort(s0, reached);
      ghost var first := c.marked;
      c.Bounded();
      AliveClosed(s0, first, false);
      AliveLeast(s0, first, u, false);
      if first == reached { AliveLeast(s0, first, reached, false); }
      c.Drain(false, Alive(s0, first, false));
      AliveLeast(s0, first, c.marked, false);
    }

    // ---------- Allocation and reset ----------

    function Alive_(): int
      reads this
    {
      |objs| - 1 - |free|
    }

    /** Stores o in a slot.  The handle is new: it was never given out before, and no dead
        handle comes back to life. */
    method Alloc(o: Cell) returns (h: Handle)
      requires Valid() && (o.map_.Some? ==> |o.map_.value.keys| == |o.map_.value.values|)
      modifies this`objs, this`gens, this`free, this`collections, this`swept, this`allocs, this`threshold, this`issued
      ensures Valid() && h !in old(issued) && issued == old(issued) + {h} && Resolve(State(), h) == Some(o)
      ensures forall k :: k in old(issued) && Resolve(old(State()), k).None? ==> Resolve(State(), k).None?
      ensures !stress && old(allocs) + 1 < old(threshold) ==> (State(), h) == Take(old(State()), o)
      ensures Spared(old(State()), Live(old(Snapshot()), old(RootValues())), State())
    {
      hide WorldOk, Resolve, Live, Take, Swept, MapsParallel, KeptButWeak, Taken, Spared, SlotsOk;
      ghost var s0, live := State(), Live(Snapshot(), RootValues());
      MaybeCollect();
      ghost var w := World(State(), issued);
      OkShape(w);
      h := TakeSlot(o);
      issued := issued + {h};
      AllocStep(w, o);
      TakeRight(w.slots, o);
      TakenSpares(s0, live, w.slots, o, State(), h);
    }

    /** Collects before the allocation, always in stress mode, else once in a while. */
    method MaybeCollect()
      requires Valid()
      modifies this`objs, this`gens, this`free, this`collections, this`swept, this`allocs, this`threshold
      ensures Valid()
      ensures !stress && old(allocs) + 1 < old(threshold) ==> State() == old(State())
      ensures forall k :: k in issued && Resolve(old(State()), k).None? ==> Resolve(State(), k).None?
      ensures Spared(old(State()), Live(old(Snapshot()), old(RootValues())), State())
    {
      hide WorldOk, Resolve, Live, Swept, MapsParallel, KeptButWeak, Spared;
      SparedSelf(State(), Live(Snapshot(), RootValues()));
      ghost var w0, reached := World(State(), issued), Live(Snapshot(), RootValues());
      if stress {
        ghost var live, kept := Collect();
        Survive(w0, kept, reached, live);
      } else {
        allocs := allocs + 1;
        if allocs >= threshold {
          ghost var live, kept := Collect();
          Survive(w0, kept, reached, live);
          allocs := 0;
          if Alive_() * 2 > threshold { threshold := Alive_() * 2; }
        }
      }
    }

    method TakeSlot(o: Cell) returns (h: Handle)
      requires SlotsOk(State())
      modifies this`objs, this`gens, this`free
      ensures (State(), h) == Take(old(State()), o)
    {
      while free != []
        invariant SlotsOk(State()) && Take(State(), o) == Take(old(State()), o)
        decreases |free|
      {
        var i := free[|free| - 1];
        ghost var s := State();
        free := free[..|free| - 1];
        if gens[i] < MAX_LOCAL_GEN {
          objs := objs[i := Some(o)];
          return Handle(i, gens[i]);
        }
      }
      while |objs| < |gens| && gens[|objs|] >= MAX_LOCAL_GEN
        invariant SlotsOk(State()) && free == [] && Take(State(), o) == Take(old(State()), o)
        decreases |gens| - |objs|
      {
        objs := objs + [None];
      }
      var i := |objs|;
      objs := objs + [Some(o)];
      if i >= |gens| { gens := gens + [0]; }
      h := Handle(i, gens[i]);
    }

    /** Prepares the heap for the next program: every handle dies but the global object's. */
    method ResetLocal(g: Handle)
      requires Valid()
      modifies this`objs, this`gens, this`free, this`roots, this`stack, this`cowMap, this`allocs
      ensures Valid() && roots == stack == [] && cowMap == map[]
      ensures forall k :: k in issued && Resolve(old(State()), k).None? ==> Resolve(State(), k).None?
      ensures forall k :: k in issued && k.index != g.index ==> Resolve(State(), k).None?
      ensures Resolve(old(State()), g).Some? ==>
                Resolve(State(), g) == Some(Shell(Resolve(old(State()), g).value, objectProto))
      ensures Resolve(old(State()), g).Some? ==> Emptied(Resolve(old(State()), g).value, Resolve(State(), g).value, objectProto)
    {
      hide WorldOk, SlotsOk, MapsParallel, Reset, Resolve;
      ghost var w := World(State(), issued);
      OkShape(w);
      ghost var s0 := w.slots;
      ResetStarts(s0, g, objectProto);
      stack, cowMap, roots, free := [], map[], [], [];
      var i := 1;
      while i < |objs|
        invariant 1 <= i <= |objs| == |s0.objs| && State() == ResetUpTo(s0, g, objectProto, i)
        invariant roots == stack == [] && cowMap == map[]
      {
        ResetNext(s0, g, objectProto, i);
        if i == g.index {
          ResetSees(s0, g, objectProto);
          var o := Resolve(Slots(objs, gens, free), g);
          if o.Some? { objs := objs[i := Some(Shell(o.value, objectProto))]; }
        } else {
          gens := gens[i := NextGen(gens[i])];
          objs := objs[i := None];
        }
        i := i + 1;
      }
      if g.index < |objs| { objs := objs[..g.index + 1]; }
      allocs := 0;
      ResetDone(w, g, objectProto);
    }
  }

  lemma UpperRight(w: World, s: Snap, reached: set<nat>)
    requires WorldOk(w) && w.slots == s.slots && forall i :: i in reached ==> i < |s.slots.objs|
    ensures reached + Targets(s, WeakValues(s.slots.objs)) <= Upper(s, reached) && Closed(s, Upper(s, reached), false)
  {
    hide Leads, WeakValues, Alive;
    AliveClosed(s, reached + Targets(s, WeakValues(s.slots.objs)), false);
  }

  lemma WeakNext(s: Snap, m: set<nat>, before: set<nat>, after: set<nat>, i: nat)
    requires WeakKept(s, m, before, i) && before <= after
    requires i in m && i < |s.slots.objs| && HasEntries(s.slots.objs[i]) ==>
               EntriesKept(s, m, after, s.slots.objs[i].value.map_.value)
    ensures WeakKept(s, m, after, i + 1)
  {
    hide Targets, KeyAlive;
  }

  lemma WeakMore(s: Snap, m: set<nat>, before: set<nat>, after: set<nat>, n: nat)
    requires WeakKept(s, m, before, n) && before <= after
    ensures WeakKept(s, m, after, n)
  {
    hide Targets, KeyAlive;
  }

  lemma TargetIn(s: Snap, vs: seq<Value>, j: nat)
    requires j < |vs|
    ensures Targets(s, [vs[j]]) <= Targets(s, vs)
  {
    hide LocalForMark;
  }

  /** When all marks are on the work list, none has to be tidy yet. */
  lemma AllTidy(s: Snap, m: set<nat>, w: seq<Handle>, full: bool)
    requires m == Indices(w)
    ensures forall i: nat, j: nat :: i in m && i !in Indices(w) && Leads(s, i, j, full) ==> j in m
  {}

  /** Sweeping with any mark set keeps the handles sound. */
  lemma AnySweepOk(w: World, kept: seq<Option<Cell>>, marked: set<nat>)
    requires WorldOk(w) && KeptButWeak(w.slots.objs, kept)
    ensures WorldOk(World(Swept(Slots(kept, w.slots.gens, w.slots.free), marked), w.issued))
    ensures WorldOk(World(Slots(kept, w.slots.gens, w.slots.free), w.issued))
  {
    hide Resolve, Swept, WorldOk;
    var w1 := World(Slots(kept, w.slots.gens, w.slots.free), w.issued);
    KeptSome(w, kept);
    SameSlots(w, w1);
    CollectStep(w1, marked);
  }

  lemma KeptSome(w: World, kept: seq<Option<Cell>>)
    requires KeptButWeak(w.slots.objs, kept)
    ensures forall i :: 0 <= i < |w.slots.objs| ==> kept[i].Some? == w.slots.objs[i].Some?
  {}

  lemma OkShape(w: World)
    requires WorldOk(w)
    ensures SlotsOk(w.slots)
    ensures 1 <= |w.slots.objs| <= |w.slots.gens| && w.slots.objs[0].None?
  {}

  // ---------- Sweeping slot by slot ----------

  function SweptTo(s: Slots, marked: set<nat>, n: nat): (r: Slots)
    requires n <= |s.objs| <= |s.gens|
    ensures |r.objs| == |s.objs| && |r.gens| == |s.gens|
  {
    Slots(seq(|s.objs|, i requires 0 <= i < |s.objs| => if i < n && i !in marked then None else s.objs[i]),
          seq(|s.gens|, i requires 0 <= i < |s.gens| =>
                if i < n && s.objs[i].Some? && i !in marked then NextGen(s.gens[i]) else s.gens[i]),
          s.free + Garbage(s.objs, marked, n))
  }

  lemma SweepStarts(s: Slots, marked: set<nat>)
    requires 1 <= |s.objs| <= |s.gens| && s.objs[0].None?
    ensures SweptTo(s, marked, 1) == s && Garbage(s.objs, marked, 1) == []
  {
    assert SweptTo(s, marked, 1).gens == s.gens && SweptTo(s, marked, 1).objs == s.objs;
  }

  lemma SweepNext(s: Slots, marked: set<nat>, i: nat)
    requires 1 <= i < |s.objs| <= |s.gens|
    ensures var a, b := SweptTo(s, marked, i), SweptTo(s, marked, i + 1);
      && a.objs[i] == s.objs[i]
      && if s.objs[i].Some? && i !in marked then
           && b == Slots(a.objs[i := None], a.gens[i := NextGen(a.gens[i])], a.free + [i])
           && Garbage(s.objs, marked, i + 1) == Garbage(s.objs, marked, i) + [i]
         else b == a && Garbage(s.objs, marked, i + 1) == Garbage(s.objs, marked, i)
  {
    var a, b := SweptTo(s, marked, i), SweptTo(s, marked, i + 1);
    var freed := s.objs[i].Some? && i !in marked;
    assert Garbage(s.objs, marked, i + 1) == Garbage(s.objs, marked, i) + if freed then [i] else [];
    hide Garbage;
    if freed {
      assert b.objs == a.objs[i := None];
      assert b.gens == a.gens[i := NextGen(a.gens[i])];
      assert b.free == a.free + [i];
    } else {
      assert b.objs == a.objs;
      assert b.gens == a.gens;
    }
  }

  lemma SweepEnds(s: Slots, marked: set<nat>)
    requires 1 <= |s.objs| <= |s.gens|
    ensures SweptTo(s, marked, |s.objs|) == Swept(s, marked)
  {
    var a, b := SweptTo(s, marked, |s.objs|), Swept(s, marked);
    assert a.objs == b.objs && a.gens == b.gens;
  }

  /** The cells in the slots of m, weak maps apart, are as they were. */
  ghost predicate Spared(s: Slots, m: set<nat>, s1: Slots) {
    forall i :: i in m && i < |s.objs| && i < |s.gens| && s.objs[i].Some? && !s.objs[i].value.kind.WeakMap? ==>
      i < |s1.objs| && i < |s1.gens| && s1.objs[i] == s.objs[i] && s1.gens[i] == s.gens[i]
  }

  lemma SparedSelf(s: Slots, m: set<nat>)
    ensures Spared(s, m, s)
  {}

  lemma TakenSpares(s0: Slots, m: set<nat>, s: Slots, o: Cell, s1: Slots, h: Handle)
    requires SlotsOk(s) && Spared(s0, m, s) && Taken(s, o, s1, h)
    ensures Spared(s0, m, s1) && Resolve(s1, h) == Some(o)
    ensures MapsParallel(s.objs) && (o.map_.Some? ==> |o.map_.value.keys| == |o.map_.value.values|) ==> MapsParallel(s1.objs)
  {
    hide SlotsOk, IsRoot;
    SlotsShape(s);
    SlotsShape(s1);
  }

  /** What a collection leaves alone. */
  lemma Survive(w: World, kept: seq<Option<Cell>>, reached: set<nat>, live: set<nat>)
    requires WorldOk(w) && KeptButWeak(w.slots.objs, kept) && reached <= live
    ensures var s := Swept(Slots(kept, w.slots.gens, w.slots.free), live);
      && Spared(w.slots, reached, s)
      && forall k :: k in w.issued && Resolve(w.slots, k).None? ==> Resolve(s, k).None?
  {
    hide IsRoot, Garbage;
    OkShape(w);
  }

  // ---------- Resetting slot by slot ----------

  /** The cell has lost its properties and elements and hangs on the object prototype, if there is one; the rest stays. */
  predicate Emptied(c: Cell, r: Cell, objectProto: Handle) {
    && r.slots == [] && r.elements == []
    && (objectProto != NO_HANDLE ==> r.proto == objectProto) && (objectProto == NO_HANDLE ==> r.proto == c.proto)
    && r.kind == c.kind && r.env == c.env && r.home == c.home && r.map_ == c.map_ && r.set_ == c.set_ && r.prim == c.prim
    && r.promise == c.promise && r.proxy == c.proxy && r.gen == c.gen
  }

  /** What is left of the global object. */
  function Shell(c: Cell, objectProto: Handle): Cell {
    c.(slots := [], elements := [], proto := if objectProto != NO_HANDLE then objectProto else c.proto)
  }

  /** The cell the global object's slot keeps; a handle that does not resolve leaves it alone. */
  function ShellAt(s: Slots, g: Handle, objectProto: Handle): Option<Cell> {
    if Resolve(s, g).Some? then Some(Shell(Resolve(s, g).value, objectProto))
    else if g.index < |s.objs| then s.objs[g.index] else None
  }

  function ResetUpTo(s: Slots, g: Handle, objectProto: Handle, n: nat): (r: Slots)
    requires n <= |s.objs| <= |s.gens|
    ensures |r.objs| == |s.objs| && |r.gens| == |s.gens|
  {
    Slots(seq(|s.objs|, i requires 0 <= i < |s.objs| =>
                if 0 < i < n then (if i == g.index then ShellAt(s, g, objectProto) else None) else s.objs[i]),
          seq(|s.gens|, i requires 0 <= i < |s.gens| => if 0 < i < n && i != g.index then NextGen(s.gens[i]) else s.gens[i]),
          [])
  }

  lemma ResetStarts(s: Slots, g: Handle, objectProto: Handle)
    requires 1 <= |s.objs| <= |s.gens|
    ensures ResetUpTo(s, g, objectProto, 1) == s.(free := [])
  {
    var a := ResetUpTo(s, g, objectProto, 1);
    assert a.objs == s.objs && a.gens == s.gens;
  }

  /** Until its turn the global object's slot is as it was. */
  lemma ResetSees(s: Slots, g: Handle, objectProto: Handle)
    requires 0 < g.index < |s.objs| <= |s.gens|
    ensures Resolve(ResetUpTo(s, g, objectProto, g.index), g) == Resolve(s, g)
    ensures Resolve(s, g).None? ==> ShellAt(s, g, objectProto) == s.objs[g.index]
  {}

  lemma ResetDone(w: World, g: Handle, objectProto: Handle)
    requires WorldOk(w) && MapsParallel(w.slots.objs)
    ensures var s0 := w.slots;
      var s := ResetUpTo(s0, g, objectProto, |s0.objs|);
      var s1 := if g.index < |s0.objs| then s.(objs := s.objs[..g.index + 1]) else s;
      && WorldOk(World(s1, w.issued)) && MapsParallel(s1.objs)
      && (forall k :: k in w.issued && Resolve(s0, k).None? ==> Resolve(s1, k).None?)
      && (forall k :: k in w.issued && k.index != g.index ==> Resolve(s1, k).None?)
      && (Resolve(s0, g).Some? ==> Resolve(s1, g) == Some(Shell(Resolve(s0, g).value, objectProto)))
  {
    hide WorldOk, SlotsOk;
    OkShape(w);
    var s0 := w.slots;
    var s := ResetUpTo(s0, g, objectProto, |s0.objs|);
    var s1 := if g.index < |s0.objs| then s.(objs := s.objs[..g.index + 1]) else s;
    var shell := if Resolve(s0, g).Some? then Shell(Resolve(s0, g).value, objectProto) else EMPTY_CELL;
    var r := Reset(s0, g.index, ShellAt(s0, g, objectProto));
    assert s1.objs == r.objs && s1.gens == r.gens;
    assert Apply(w, ResetTo(g, shell)).0 == World(s1, w.issued);
    ResetStep(w, g, shell);
  }

  lemma ResetNext(s: Slots, g: Handle, objectProto: Handle, i: nat)
    requires 1 <= i < |s.objs| <= |s.gens|
    ensures var a, b := ResetUpTo(s, g, objectProto, i), ResetUpTo(s, g, objectProto, i + 1);
      if i == g.index then b == a.(objs := a.objs[i := ShellAt(s, g, objectProto)]) && a.objs[i] == s.objs[i] && a.gens[i] == s.gens[i]
      else b == a.(objs := a.objs[i := None], gens := a.gens[i := NextGen(a.gens[i])])
  {
    var a, b := ResetUpTo(s, g, objectProto, i), ResetUpTo(s, g, objectProto, i + 1);
    if i == g.index {
      assert b.objs == a.objs[i := ShellAt(s, g, objectProto)] && b.gens == a.gens;
    } else {
      assert b.objs == a.objs[i := None] && b.gens == a.gens[i := NextGen(a.gens[i])];
    }
  }

  lemma KeptMaps(objs: seq<Option<Cell>>, kept: seq<Option<Cell>>)
    requires MapsParallel(objs) && KeptButWeak(objs, kept)
    ensures MapsParallel(kept)
  {}

  lemma SweptMaps(kept: seq<Option<Cell>>, gens: seq<nat>, free: seq<nat>, marked: set<nat>)
    requires MapsParallel(kept) && |kept| <= |gens|
    ensures MapsParallel(Swept(Slots(kept, gens, free), marked).objs)
  {}

  lemma ClosedShort(s: Snap, m: set<nat>)
    requires Closed(s, m, true)
    ensures Closed(s, m, false)
  {
    forall i: nat, j: nat | i in m && Leads(s, i, j, false) ensures j in m { assert Leads(s, i, j, true); }
  }

  /** More marks with their cells on the work list leave the others tidy. */
  lemma StaysTidy(s: Snap, m: set<nat>, w: seq<Handle>, m1: set<nat>, w1: seq<Handle>, t: set<nat>)
    requires Grown(m, w, m1, w1, t)
    requires forall i: nat, j: nat :: i in m && i !in Indices(w) && Leads(s, i, j, false) ==> j in m
    ensures m <= m1
    ensures forall i: nat, j: nat :: i in m1 && i !in Indices(w1) && Leads(s, i, j, false) ==> j in m1
  {
    hide Leads, Indices;
  }
}
