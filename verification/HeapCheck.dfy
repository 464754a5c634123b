/** References after a collection: none dangles, and the heap's own check agrees. */
module HeapCheck {
  import opened Options
  import opened Handles
  import opened Cells
  import opened HeapSlots
  import opened Reachability
  import opened HeapGc

  /** The cell a shared handle designates in the frozen realm, whose generations carry the realm bit. */
  function RealmGet(realm: Slots, h: Handle): Option<Cell> {
    var k := StripRoot(h);
    if 0 < k.index < |realm.objs| && k.index < |realm.gens| && realm.gens[k.index] % ROOT_BIT == k.gen
    then realm.objs[k.index] else None
  }

  /** What a handle designates: for a shared one its private clone, if there is one, else the realm's cell. */
  function Get(s: Snap, realm: Option<Slots>, h: Handle): Option<Cell> {
    if h == NO_HANDLE then None
    else if !IsRoot(h) then Resolve(s.slots, h)
    else if StripRoot(h) in s.cow then Resolve(s.slots, s.cow[StripRoot(h)])
    else if realm.Some? then RealmGet(realm.value, h)
    else None
  }

  ghost predicate RefOk(s: Snap, realm: Option<Slots>, v: Value) {
    v.Obj? && v.h != NO_HANDLE ==> Get(s, realm, v.h).Some?
  }

  /** No edge of the cell dangles. */
  ghost predicate CellOk(s: Snap, realm: Option<Slots>, c: Cell) {
    forall h :: PointsTo(c, h) ==> RefOk(s, realm, Obj(h))
  }

  ghost predicate AllOk(s: Snap, realm: Option<Slots>, vs: seq<Value>) {
    forall v :: v in vs ==> RefOk(s, realm, v)
  }

  /** A reference that marking follows into m still designates the same cell after sweeping all but m. */
  lemma RefSurvives(s: Snap, realm: Option<Slots>, h: Handle, m: set<nat>)
    requires |s.slots.objs| <= |s.slots.gens| && h != NO_HANDLE && Get(s, realm, h).Some?
    requires Marks(s, Obj(h)) ==> LocalForMark(s, h).value.index in m
    ensures Get(Snap(Swept(s.slots, m), s.cow), realm, h) == Get(s, realm, h)
  {
    hide IsRoot, Garbage, StripRoot;
  }

  function After(s: Snap, m: set<nat>): Snap
    requires |s.slots.objs| <= |s.slots.gens|
  {
    Snap(Swept(s.slots, m), s.cow)
  }

  lemma EdgeSurvives(s: Snap, realm: Option<Slots>, roots: seq<Value>, i: nat, h: Handle)
    requires |s.slots.objs| <= |s.slots.gens| && i < |s.slots.objs| && s.slots.objs[i].Some? && i in Live(s, roots)
    requires PointsTo(s.slots.objs[i].value, h) && h != NO_HANDLE && Get(s, realm, h).Some?
    ensures Get(After(s, Live(s, roots)), realm, h) == Get(s, realm, h)
  {
    hide LocalForMark, PointsTo, Get, IsRoot, Garbage, Swept, Targets, CloneSlots, Alive;
    RootSlotsInside(s, roots);
    AliveClosed(s, RootSlots(s, roots), true);
    if Marks(s, Obj(h)) { assert Leads(s, i, LocalForMark(s, h).value.index, true); }
    RefSurvives(s, realm, h, Live(s, roots));
  }

  lemma RootSurvives(s: Snap, realm: Option<Slots>, roots: seq<Value>, v: Value)
    requires |s.slots.objs| <= |s.slots.gens| && v in roots && v.Obj? && v.h != NO_HANDLE && Get(s, realm, v.h).Some?
    ensures Get(After(s, Live(s, roots)), realm, v.h) == Get(s, realm, v.h)
  {
    hide LocalForMark, Get, IsRoot, Garbage, Swept, CloneSlots, Alive;
    RootSlotsInside(s, roots);
    AliveClosed(s, RootSlots(s, roots), true);
    RefSurvives(s, realm, v.h, Live(s, roots));
  }

  /** The survivors are the reached cells, unchanged; the handles of the others are dead. */
  lemma SurvivorsExact(s: Snap, roots: seq<Value>)
    requires SlotsOk(s.slots)
    ensures var live := Live(s, roots);
      && |After(s, live).slots.objs| == |s.slots.objs|
      && (forall i :: 0 <= i < |s.slots.objs| ==> After(s, live).slots.objs[i] == if i in live then s.slots.objs[i] else None)
      && forall h :: Resolve(After(s, live).slots, h) == if h.index in live then Resolve(s.slots, h) else None
  {
    hide Live, IsRoot, Garbage, SlotsOk;
    SlotsShape(s.slots);
  }

  /** Without weak maps a heap whose references all resolve is left so, each reference designating
      the cell it did. */
  lemma CollectSound(s: Snap, realm: Option<Slots>, roots: seq<Value>)
    requires SlotsOk(s.slots) && AllOk(s, realm, roots)
    requires forall i: nat :: i in Live(s, roots) && i < |s.slots.objs| && s.slots.objs[i].Some? ==>
               CellOk(s, realm, s.slots.objs[i].value)
    ensures var s1 := After(s, Live(s, roots));
      && (forall v :: v in roots && v.Obj? && v.h != NO_HANDLE ==> Get(s1, realm, v.h) == Get(s, realm, v.h))
      && AllOk(s1, realm, roots)
      && forall i: nat :: i < |s1.slots.objs| && s1.slots.objs[i].Some? ==> CellOk(s1, realm, s1.slots.objs[i].value)
  {
    hide Live, LocalForMark, PointsTo, Get, IsRoot, Garbage, SlotsOk, Swept;
    SlotsShape(s.slots);
    var live := Live(s, roots);
    var s1 := After(s, live);
    forall v | v in roots && v.Obj? && v.h != NO_HANDLE ensures Get(s1, realm, v.h) == Get(s, realm, v.h) {
      RootSurvives(s, realm, roots, v);
    }
    SurvivorsExact(s, roots);
    forall i: nat | i < |s1.slots.objs| && s1.slots.objs[i].Some? ensures CellOk(s1, realm, s1.slots.objs[i].value) {
      var c := s.slots.objs[i].value;
      assert CellOk(s, realm, c);
      forall h | PointsTo(c, h) && h != NO_HANDLE ensures Get(s1, realm, h).Some? { EdgeSurvives(s, realm, roots, i, h); }
    }
  }

  // ---------- The heap's own check ----------

  ghost predicate CellChecked(s: Snap, realm: Option<Slots>, c: Cell) {
    AllOk(s, realm, [Obj(c.proto), Obj(c.env)]) && AllOk(s, realm, c.slots) && AllOk(s, realm, c.elements)
  }

  ghost predicate Checked(s: Snap, realm: Option<Slots>, roots: seq<Value>, stack: seq<Value>) {
    && (forall i :: 0 < i < |s.slots.objs| && s.slots.objs[i].Some? ==> CellChecked(s, realm, s.slots.objs[i].value))
    && AllOk(s, realm, roots) && AllOk(s, realm, stack)
  }

  method CheckValues(s: Snap, realm: Option<Slots>, vs: seq<Value>) returns (ok: bool)
    ensures ok <==> AllOk(s, realm, vs)
  {
    hide Get;
    for k := 0 to |vs|
      invariant forall j :: 0 <= j < k ==> RefOk(s, realm, vs[j])
    {
      if vs[k].Obj? && vs[k].h != NO_HANDLE && Get(s, realm, vs[k].h).None? {
        assert vs[k] in vs && !RefOk(s, realm, vs[k]);
        return false;
      }
    }
    return true;
  }

  /** Whether every reference it looks at resolves: prototypes, environments, slots and elements of
      the cells, the explicit roots and the stack. */
  method CheckHeap(s: Snap, realm: Option<Slots>, roots: seq<Value>, stack: seq<Value>) returns (ok: bool)
    ensures ok <==> Checked(s, realm, roots, stack)
  {
    hide Get, RefOk, AllOk;
    var i := 1;
    while i < |s.slots.objs|
      invariant 1 <= i
      invariant forall j :: 0 < j < i && j < |s.slots.objs| && s.slots.objs[j].Some? ==> CellChecked(s, realm, s.slots.objs[j].value)
    {
      if s.slots.objs[i].Some? {
        var c := s.slots.objs[i].value;
        var a := CheckValues(s, realm, [Obj(c.proto), Obj(c.env)]);
        if !a { return false; }
        a := CheckValues(s, realm, c.slots);
        if !a { return false; }
        a := CheckValues(s, realm, c.elements);
        if !a { return false; }
      }
      i := i + 1;
    }
    ok := CheckValues(s, realm, roots);
    if ok { ok := CheckValues(s, realm, stack); }
  }

  lemma SoundIsChecked(s: Snap, realm: Option<Slots>, roots: seq<Value>, stack: seq<Value>)
    requires AllOk(s, realm, roots) && AllOk(s, realm, stack)
    requires forall i: nat :: i < |s.slots.objs| && s.slots.objs[i].Some? ==> CellOk(s, realm, s.slots.objs[i].value)
    ensures Checked(s, realm, roots, stack)
  {
    hide Get;
    forall i | 0 < i < |s.slots.objs| && s.slots.objs[i].Some? ensures CellChecked(s, realm, s.slots.objs[i].value) {
      OkIsChecked(s, realm, s.slots.objs[i].value);
    }
  }

  lemma OkIsChecked(s: Snap, realm: Option<Slots>, c: Cell)
    requires CellOk(s, realm, c)
    ensures CellChecked(s, realm, c)
  {
    hide Get;
    forall v | v in [Obj(c.proto), Obj(c.env)] || v in c.slots || v in c.elements ensures RefOk(s, realm, v) {
      if v.Obj? && v.h != NO_HANDLE { assert PointsTo(c, v.h); }
    }
  }

  /** A collection on a heap whose reached references resolve: the check after it succeeds. */
  method CollectAndCheck(h: Heap, realm: Option<Slots>) returns (ok: bool)
    requires h.Valid()
    requires AllOk(h.Snapshot(), realm, h.RootValues())
    requires forall i: nat :: i in Live(h.Snapshot(), h.RootValues()) && i < |h.objs| && h.objs[i].Some? ==>
               CellOk(h.Snapshot(), realm, h.objs[i].value)
    requires NoWeakMap(h.Snapshot(), Live(h.Snapshot(), h.RootValues()))
    modifies h
    ensures h.Valid() && ok
  {
    hide Live, LocalForMark, PointsTo, Get, IsRoot, Garbage, SlotsOk, Swept, WorldOk, CellOk, RefOk, MapsParallel, Checked;
    ghost var s, roots := h.Snapshot(), h.RootValues();
    OkShape(World(h.State(), h.issued));
    CollectSound(s, realm, roots);
    ghost var live, kept := h.Collect();
    ok := CheckHeap(Snap(Slots(h.objs, h.gens, h.free), h.cowMap), realm, h.roots, h.stack);
    SoundIsChecked(After(s, live), realm, h.roots, h.stack);
  }

  // ---------- Weak maps ----------

  /** Cells that survive only for the entries of weak maps, and hold a reference to one that does not: in a map,
      set, promise, proxy or generator, where the second pass does not look. */
  ghost predicate Stranded(s: Snap, roots: seq<Value>)
    requires MapsParallel(s.slots.objs)
  {
    exists i: nat :: i in Final(s, roots) && i !in Live(s, roots) && i < |s.slots.objs| && s.slots.objs[i].Some?
      && !(Targets(s, LongEdges(s.slots.objs[i].value)) <= Final(s, roots))
  }

  lemma FinalIs(s: Snap, roots: seq<Value>)
    requires MapsParallel(s.slots.objs)
    ensures Live(s, roots) <= Final(s, roots) && Closed(s, Final(s, roots), false) && Closed(s, Live(s, roots), true)
    ensures RootSlots(s, roots) <= Live(s, roots)
  {
    hide Alive, Closed, WeakMarks, RootSlots;
    RootSlotsInside(s, roots);
    AliveClosed(s, RootSlots(s, roots), true);
    LiveInside(s, roots);
    MarksInside(s, Live(s, roots), |s.slots.objs|);
    AliveClosed(s, WeakMarks(s, Live(s, roots), |s.slots.objs|), false);
  }

  lemma LiveInside(s: Snap, roots: seq<Value>)
    ensures forall i :: i in Live(s, roots) ==> i < |s.slots.objs|
  {
    hide Reached, RootSlots;
  }

  lemma {:induction false} MarksInside(s: Snap, m: set<nat>, n: nat)
    requires n <= |s.slots.objs| && MapsParallel(s.slots.objs) && forall i :: i in m ==> i < |s.slots.objs|
    ensures m <= WeakMarks(s, m, n) && forall i :: i in WeakMarks(s, m, n) ==> i < |s.slots.objs|
  {
    hide EntryMarks, MapsParallel;
    if n > 1 {
      MarksInside(s, m, n - 1);
      var o := s.slots.objs[n - 1];
      if HasEntries(o) {
        assert |o.value.map_.value.keys| == |o.value.map_.value.values| by { ParallelAt(s.slots.objs, n - 1); }
        EntriesInside(s, WeakMarks(s, m, n - 1), o.value.map_.value, |o.value.map_.value.keys|);
      }
    }
  }

  lemma ParallelAt(objs: seq<Option<Cell>>, i: nat)
    requires MapsParallel(objs) && i < |objs| && objs[i].Some? && objs[i].value.map_.Some?
    ensures |objs[i].value.map_.value.keys| == |objs[i].value.map_.value.values|
  {}

  lemma {:induction false} EntriesInside(s: Snap, m: set<nat>, d: MapData, j: nat)
    requires j <= |d.keys| == |d.values| && forall i :: i in m ==> i < |s.slots.objs|
    ensures m <= EntryMarks(s, m, d, j) && forall i :: i in EntryMarks(s, m, d, j) ==> i < |s.slots.objs|
  {
    hide KeyAlive;
    if j > 0 { EntriesInside(s, m, d, j - 1); }
  }

  /** A reference marking does not follow into m is dangling once all but m is swept. */
  lemma RefDangles(s: Snap, realm: Option<Slots>, h: Handle, m: set<nat>)
    requires |s.slots.objs| <= |s.slots.gens| && h != NO_HANDLE && Marks(s, Obj(h)) && LocalForMark(s, h).value.index !in m
    ensures Get(After(s, m), realm, h).None?
  {
    hide Garbage;
  }

  /** For every heap whose surviving references resolve: after a collection the survivors' references all
      resolve exactly when no cell is stranded, which can be told before it. */
  lemma SurvivorsClosedExactly(s: Snap, realm: Option<Slots>, roots: seq<Value>)
    requires SlotsOk(s.slots) && MapsParallel(s.slots.objs)
    requires forall i: nat :: i in Final(s, roots) && i < |s.slots.objs| && s.slots.objs[i].Some? ==> CellOk(s, realm, s.slots.objs[i].value)
    ensures var s1 := After(s, Final(s, roots));
      (forall i: nat :: i < |s.slots.objs| && s1.slots.objs[i].Some? ==> CellOk(s1, realm, s.slots.objs[i].value))
      <==> !Stranded(s, roots)
  {
    hide Final, Live, LocalForMark, PointsTo, Get, IsRoot, Garbage, Swept, Targets, LongEdges, CellOk, SlotsOk;
    SlotsShape(s.slots);
    var m := Final(s, roots);
    var s1 := After(s, m);
    SweptSome(s, m);
    if !Stranded(s, roots) {
      forall i: nat | i < |s.slots.objs| && s1.slots.objs[i].Some? ensures CellOk(s1, realm, s.slots.objs[i].value) {
        CellStays(s, realm, roots, i);
      }
    } else {
      var i: nat :| i in m && i !in Live(s, roots) && i < |s.slots.objs| && s.slots.objs[i].Some?
                    && !(Targets(s, LongEdges(s.slots.objs[i].value)) <= m);
      CellDangles(s, realm, m, i);
      assert s1.slots.objs[i].Some?;
    }
  }

  lemma SweptSome(s: Snap, m: set<nat>)
    requires |s.slots.objs| <= |s.slots.gens|
    ensures |After(s, m).slots.objs| == |s.slots.objs|
    ensures forall i :: 0 <= i < |s.slots.objs| ==> After(s, m).slots.objs[i] == if i in m then s.slots.objs[i] else None
  {
    hide Garbage;
  }

  lemma CellStays(s: Snap, realm: Option<Slots>, roots: seq<Value>, i: nat)
    requires SlotsOk(s.slots) && MapsParallel(s.slots.objs) && !Stranded(s, roots)
    requires i in Final(s, roots) && i < |s.slots.objs| && s.slots.objs[i].Some? && CellOk(s, realm, s.slots.objs[i].value)
    ensures CellOk(After(s, Final(s, roots)), realm, s.slots.objs[i].value)
  {
    hide Final, Live, LocalForMark, PointsTo, Get, IsRoot, Garbage, Swept, Targets, SlotsOk, LongEdges, Edges, Leads;
    SlotsShape(s.slots);
    FinalIs(s, roots);
    var m, c := Final(s, roots), s.slots.objs[i].value;
    forall h | PointsTo(c, h) && h != NO_HANDLE ensures RefOk(After(s, m), realm, Obj(h)) {
      if Marks(s, Obj(h)) { EdgeInside(s, roots, i, h); }
      assert RefOk(s, realm, Obj(h));
      RefSurvives(s, realm, h, m);
    }
  }

  lemma EdgeInside(s: Snap, roots: seq<Value>, i: nat, h: Handle)
    requires MapsParallel(s.slots.objs) && !Stranded(s, roots) && i in Final(s, roots) && i < |s.slots.objs| && s.slots.objs[i].Some?
    requires PointsTo(s.slots.objs[i].value, h) && h != NO_HANDLE && Marks(s, Obj(h))
    ensures LocalForMark(s, h).value.index in Final(s, roots)
  {
    hide Final, Live, LocalForMark, PointsTo, Targets, LongEdges, Edges;
    var c, j := s.slots.objs[i].value, LocalForMark(s, h).value.index;
    FinalIs(s, roots);
    if i in Live(s, roots) {
      assert Leads(s, i, j, true);
    } else {
      EdgeKind(s, c, h);
      if j in Targets(s, ShortEdges(c)) { LeadsRight(s, i, j, false); ShortOnly(c); }
    }
  }

  lemma ShortOnly(c: Cell)
    ensures Edges(c, false) == ShortEdges(c)
  {
    hide LongEdges, ShortEdges;
  }

  lemma EdgeKind(s: Snap, c: Cell, h: Handle)
    requires PointsTo(c, h) && h != NO_HANDLE && Marks(s, Obj(h))
    ensures LocalForMark(s, h).value.index in Targets(s, ShortEdges(c)) || LocalForMark(s, h).value.index in Targets(s, LongEdges(c))
  {
    hide PointsTo, LongEdges, ShortEdges, LocalForMark;
    EdgesRight(c, h);
    assert Obj(h) in ShortEdges(c) || Obj(h) in LongEdges(c);
  }

  lemma CellDangles(s: Snap, realm: Option<Slots>, m: set<nat>, i: nat)
    requires |s.slots.objs| <= |s.slots.gens| && i in m && i < |s.slots.objs| && s.slots.objs[i].Some?
    requires !(Targets(s, LongEdges(s.slots.objs[i].value)) <= m)
    ensures !CellOk(After(s, m), realm, s.slots.objs[i].value)
  {
    hide LocalForMark, PointsTo, Get, IsRoot, Garbage, Swept, LongEdges;
    var c := s.slots.objs[i].value;
    var j :| j in Targets(s, LongEdges(c)) && j !in m;
    var v :| v in LongEdges(c) && Marks(s, v) && LocalForMark(s, v.h).value.index == j;
    assert v.h != NO_HANDLE by { NullMarks(s); }
    assert Obj(v.h) in Edges(c, true);
    EdgesRight(c, v.h);
    RefDangles(s, realm, v.h, m);
    assert !RefOk(After(s, m), realm, Obj(v.h));
  }

  lemma NullMarks(s: Snap)
    ensures !Marks(s, Obj(NO_HANDLE))
  {}

  /** The heap itself: collected, its survivors' references resolve exactly when no cell was stranded. */
  method CollectExactly(h: Heap, realm: Option<Slots>) returns (ghost closed: bool)
    requires h.Valid()
    requires forall i: nat :: i in Final(h.Snapshot(), h.RootValues()) && i < |h.objs| && h.objs[i].Some? ==>
               CellOk(h.Snapshot(), realm, h.objs[i].value)
    modifies h
    ensures h.Valid() && (closed <==> forall i: nat :: i < |h.objs| && h.objs[i].Some? ==> CellOk(h.Snapshot(), realm, h.objs[i].value))
    ensures closed <==> !Stranded(old(h.Snapshot()), old(h.RootValues()))
  {
    hide Final, Live, LocalForMark, PointsTo, Get, IsRoot, Garbage, Swept, Targets, LongEdges, CellOk, SlotsOk, WorldOk, MapsParallel,
         Stranded, WeakKept, Upper, NoWeakMap;
    ghost var s, roots := h.Snapshot(), h.RootValues();
    OkShape(World(h.State(), h.issued));
    ParallelOf(h.State(), h.issued, h.objs);
    ghost var live, kept := h.Collect();
    SurvivorsClosedExactly(s, realm, roots);
    ghost var s1 := After(s, live);
    KeptEdges(s, kept, live, realm, h.Snapshot());
    closed := !Stranded(s, roots);
  }

  lemma ParallelOf(s: Slots, issued: set<Handle>, objs: seq<Option<Cell>>)
    requires WorldOk(World(s, issued)) && s.objs == objs
    ensures |objs| <= |s.gens|
  {
    OkShape(World(s, issued));
  }

  /** Dropping entries from weak maps changes no strong reference. */
  lemma KeptEdges(s: Snap, kept: seq<Option<Cell>>, live: set<nat>, realm: Option<Slots>, s2: Snap)
    requires |s.slots.objs| <= |s.slots.gens| && KeptButWeak(s.slots.objs, kept)
    requires s2 == Snap(Swept(Slots(kept, s.slots.gens, s.slots.free), live), s.cow)
    ensures (forall i: nat :: i < |s2.slots.objs| && s2.slots.objs[i].Some? ==> CellOk(s2, realm, s2.slots.objs[i].value))
      <==> (forall i: nat :: i < |s.slots.objs| && After(s, live).slots.objs[i].Some? ==> CellOk(After(s, live), realm, s.slots.objs[i].value))
  {
    hide Get, PointsTo, Garbage, CellOk;
    var s1 := After(s, live);
    SweptSome(s, live);
    SweptSome(Snap(Slots(kept, s.slots.gens, s.slots.free), s.cow), live);
    forall i: nat | i < |s.slots.objs| && s1.slots.objs[i].Some?
      ensures s2.slots.objs[i].Some? && (CellOk(s2, realm, s2.slots.objs[i].value) <==> CellOk(s1, realm, s.slots.objs[i].value))
    {
      SameEdges(s1, s2, realm, s.slots.objs[i].value, kept[i].value, s.slots.objs, kept, live, s);
    }
  }

  lemma SameEdges(s1: Snap, s2: Snap, realm: Option<Slots>, c: Cell, c2: Cell, objs: seq<Option<Cell>>, kept: seq<Option<Cell>>, live: set<nat>, s: Snap)
    requires |s.slots.objs| <= |s.slots.gens| && KeptButWeak(s.slots.objs, kept) && objs == s.slots.objs
    requires s1 == After(s, live) && s2 == Snap(Swept(Slots(kept, s.slots.gens, s.slots.free), live), s.cow)
    requires c2 == c || (c.kind.WeakMap? && c2 == c.(map_ := c2.map_))
    ensures CellOk(s2, realm, c2) <==> CellOk(s1, realm, c)
  {
    forall h ensures PointsTo(c2, h) <==> PointsTo(c, h) { WeakEdges(c, c2, h); }
    forall h ensures Get(s1, realm, h).Some? <==> Get(s2, realm, h).Some? { SameGets(s, kept, live, realm, h); }
    hide Get, PointsTo, Swept;
  }

  lemma WeakEdges(c: Cell, c2: Cell, h: Handle)
    requires c2 == c || (c.kind.WeakMap? && c2 == c.(map_ := c2.map_))
    ensures PointsTo(c2, h) <==> PointsTo(c, h)
  {
    hide ReactsTo;
  }

  lemma SameGets(s: Snap, kept: seq<Option<Cell>>, live: set<nat>, realm: Option<Slots>, h: Handle)
    requires |s.slots.objs| <= |s.slots.gens| && KeptButWeak(s.slots.objs, kept)
    ensures Get(After(s, live), realm, h).Some?
      <==> Get(Snap(Swept(Slots(kept, s.slots.gens, s.slots.free), live), s.cow), realm, h).Some?
  {
    hide Garbage, IsRoot, StripRoot;
  }

  function At(i: nat): Handle { Handle(i, 0) }

  /** A weak map in slot 1 whose one entry leads from the live key in slot 2 to a map in slot 3,
      and that map holds slot 4. */
  function WeakHeap(): Snap {
    var weak := EMPTY_CELL.(kind := WeakMap, map_ := Some(MapData([Obj(At(2))], [Obj(At(3))])));
    var m := EMPTY_CELL.(map_ := Some(MapData([Obj(At(4))], [Prim(0)])));
    Snap(Slots([None, Some(weak), Some(EMPTY_CELL), Some(m), Some(EMPTY_CELL)], [0, 0, 0, 0, 0], []), map[])
  }

  const WEAK_ROOTS := [Obj(At(1)), Obj(At(2))]

  lemma WeakHeapSound(i: nat)
    requires i < |WeakHeap().slots.objs| && WeakHeap().slots.objs[i].Some?
    ensures CellOk(WeakHeap(), None, WeakHeap().slots.objs[i].value)
  {}

  lemma {:induction false} WeakValuesFrom(objs: seq<Option<Cell>>, v: Value)
    requires v in WeakValues(objs)
    ensures exists i :: 0 <= i < |objs| && v in WeakEntries(objs[i])
  {
    var n := |objs| - 1;
    if v in WeakValues(objs[..n]) {
      WeakValuesFrom(objs[..n], v);
      var i :| 0 <= i < n && v in WeakEntries(objs[..n][i]);
      assert v in WeakEntries(objs[i]);
    } else {
      assert v in WeakEntries(objs[n]);
    }
  }

  lemma WeakHeapSteps()
    ensures Closed(WeakHeap(), {1, 2}, true) && Closed(WeakHeap(), {1, 2, 3}, false)
  {
    hide IsRoot;
    var s := WeakHeap();
    forall i: nat, j: nat | i in {1, 2} ensures !Leads(s, i, j, true) { NoSteps(s, i, j, true); }
    forall i: nat, j: nat | i in {1, 2, 3} ensures !Leads(s, i, j, false) { NoSteps(s, i, j, false); }
  }

  lemma NoSteps(s: Snap, i: nat, j: nat, full: bool)
    requires i < |s.slots.objs| && s.slots.objs[i].Some?
    requires var c := s.slots.objs[i].value;
      forall h :: h != NO_HANDLE ==> !(if full then PointsTo(c, h) else ShortPointsTo(c, h))
    ensures !Leads(s, i, j, full)
  {
    hide PointsTo, ShortPointsTo;
  }

  lemma WeakHeapRootSlots()
    ensures Targets(WeakHeap(), WEAK_ROOTS) == {1, 2} && CloneSlots(WeakHeap()) == {}
  {
    var s := WeakHeap();
    assert LocalForMark(s, At(1)) == Some(At(1)) && LocalForMark(s, At(2)) == Some(At(2));
    assert Obj(At(1)) in WEAK_ROOTS && Obj(At(2)) in WEAK_ROOTS;
    assert forall v :: v in WEAK_ROOTS <==> v == Obj(At(1)) || v == Obj(At(2));
    assert 1 in Targets(s, WEAK_ROOTS) && 2 in Targets(s, WEAK_ROOTS);
  }

  lemma WeakHeapValues()
    ensures Targets(WeakHeap(), WeakValues(WeakHeap().slots.objs)) <= {3}
  {
    hide WeakValues;
    var s := WeakHeap();
    forall v | v in WeakValues(s.slots.objs) ensures v == Obj(At(3)) {
      WeakValuesFrom(s.slots.objs, v);
      var i :| 0 <= i < |s.slots.objs| && v in WeakEntries(s.slots.objs[i]);
    }
  }

  lemma WeakHeapReach()
    ensures Live(WeakHeap(), WEAK_ROOTS) == {1, 2}
    ensures Upper(WeakHeap(), {1, 2}) <= {1, 2, 3}
  {
    hide WeakHeap, Targets, Alive, Closed, WeakValues, CloneSlots;
    var s := WeakHeap();
    WeakHeapSteps();
    WeakHeapRootSlots();
    WeakHeapValues();
    assert RootSlots(s, WEAK_ROOTS) == {1, 2};
    AliveClosed(s, {1, 2}, true) by { WeakHeapSize(); }
    AliveLeast(s, {1, 2}, {1, 2}, true);
    AliveLeast(s, {1, 2} + Targets(s, WeakValues(s.slots.objs)), {1, 2, 3}, false);
  }

  lemma WeakHeapSize()
    ensures |WeakHeap().slots.objs| == 5
  {}

  lemma WeakHeapEntry(live: set<nat>)
    requires WeakKept(WeakHeap(), {1, 2}, live, 5)
    ensures 3 in live
  {
    var s := WeakHeap();
    assert KeyAlive(s, {1, 2}, Obj(At(2)));
    assert EntriesKept(s, {1, 2}, live, s.slots.objs[1].value.map_.value);
    assert Marks(s, Obj(At(3))) && LocalForMark(s, At(3)).value.index == 3;
    assert Obj(At(3)) in [Obj(At(3))];
    assert 3 in Targets(s, [Obj(At(3))]);
  }

  lemma WeakHeapAfter(live: set<nat>)
    requires 3 in live && 4 !in live
    ensures SlotsOk(WeakHeap().slots)
    ensures After(WeakHeap(), live).slots.objs[3] == WeakHeap().slots.objs[3]
    ensures !CellOk(After(WeakHeap(), live), None, WeakHeap().slots.objs[3].value)
  {
    hide Garbage;
    var s := WeakHeap();
    assert PointsTo(s.slots.objs[3].value, At(4));
    assert Resolve(After(s, live).slots, At(4)).None?;
    assert !RefOk(After(s, live), None, Obj(At(4)));
  }

  /** The concrete case: every reference resolves, and a collection keeps the ordinary map in slot 3, for being
      the value of an entry of the weak map, with a key that is gone. */
  lemma WeakMapDangles(live: set<nat>)
    requires var s, reached := WeakHeap(), Live(WeakHeap(), WEAK_ROOTS);
             reached <= live <= Upper(s, reached) && WeakKept(s, reached, live, |s.slots.objs|)
    ensures SlotsOk(WeakHeap().slots) && AllOk(WeakHeap(), None, WEAK_ROOTS)
    ensures forall i: nat :: i < |WeakHeap().slots.objs| && WeakHeap().slots.objs[i].Some? ==> CellOk(WeakHeap(), None, WeakHeap().slots.objs[i].value)
    ensures After(WeakHeap(), live).slots.objs[3] == WeakHeap().slots.objs[3]
    ensures !CellOk(After(WeakHeap(), live), None, WeakHeap().slots.objs[3].value)
  {
    hide WeakHeap, Live, Upper, WeakKept, CellOk, After;
    forall i: nat | i < |WeakHeap().slots.objs| && WeakHeap().slots.objs[i].Some? ensures CellOk(WeakHeap(), None, WeakHeap().slots.objs[i].value) {
      WeakHeapSound(i);
    }
    WeakHeapReach();
    WeakHeapSize();
    WeakHeapEntry(live);
    WeakHeapAfter(live);
    WeakHeapRoots();
  }

  lemma WeakHeapRoots()
    ensures AllOk(WeakHeap(), None, WEAK_ROOTS)
  {}
}
