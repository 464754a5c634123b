/** Sealing the realm: from a heap under construction to the frozen part every isolate reads. */
module Realm {
  import opened Options
  import opened Sets
  import opened Properties
  import opened Shapes
  import opened Overlay
  import opened OverlayRuns

  function TagRoot(h: Handle): Handle { if h.Local? then Root(h.i) else h }

  function TagRootValue(v: Value): Value {
    match v
    case Ref(h) => Ref(TagRoot(h))
    case Function(h) => Function(TagRoot(h))
    case Accessor(h) => Accessor(TagRoot(h))
    case _ => v
  }

  function TagAll(vs: seq<Value>): (r: seq<Value>)
    ensures |r| == |vs| && forall i :: 0 <= i < |r| ==> r[i] == TagRootValue(vs[i])
  {
    seq(|vs|, i requires 0 <= i < |vs| => TagRootValue(vs[i]))
  }

  function SealedCell(c: Cell): Cell {
    c.(body := c.body.(isRoot := true, proto := TagRoot(c.body.proto), slots := TagAll(c.body.slots),
                       elements := TagAll(c.body.elements), inner := TagAll(c.body.inner)))
  }

  /** Every node a set reaches by parents and transitions is in it. */
  predicate Closed(ns: seq<Shape>, seen: set<nat>, from: set<nat>) {
    forall i :: i in from ==> i < |ns| && (ns[i].parent.Some? ==> ns[i].parent.value in seen)
                              && forall k :: k in ns[i].transitions ==> ns[i].transitions[k] in seen
  }

  predicate InRange(ns: seq<Shape>) {
    forall i :: 0 <= i < |ns| ==> (ns[i].parent.Some? ==> ns[i].parent.value < |ns|)
                                  && forall k :: k in ns[i].transitions ==> ns[i].transitions[k] < |ns|
  }

  function Marked(ns: seq<Shape>, seen: set<nat>): (r: seq<Shape>)
    ensures |r| == |ns| && forall i :: 0 <= i < |r| ==> r[i] == ns[i].(shared := ns[i].shared || i in seen)
  {
    seq(|ns|, i requires 0 <= i < |ns| => ns[i].(shared := ns[i].shared || i in seen))
  }

  class Builder {
    var shapes: seq<Shape>
    var store: seq<Cell>
    var rootShape: nat

    constructor (shapes: seq<Shape>, store: seq<Cell>, rootShape: nat)
      ensures this.shapes == shapes && this.store == store && this.rootShape == rootShape
    {
      this.shapes, this.store, this.rootShape := shapes, store, rootShape;
    }

    /** Marks a node and all it reaches; `seen` is the set of the nodes met so far. */
    method MarkShapeShared(s: nat, seen: set<nat>) returns (out: set<nat>)
      requires s < |shapes| && InRange(shapes) && forall i :: i in seen ==> i < |shapes|
      modifies this`shapes
      ensures seen <= out && s in out && (forall i :: i in out ==> i < |shapes|)
      ensures shapes == Marked(old(shapes), out - seen) && Closed(old(shapes), out, out - seen)
      decreases Below(|shapes|) - seen, 1, 0
    {
      if s in seen { assert shapes == Marked(shapes, seen - seen); return seen; }
      ghost var before, all := shapes, Below(|shapes|);
      out := seen + {s};
      shapes := shapes[s := shapes[s].(shared := true)];
      assert shapes == Marked(before, out - seen);
      assert all - out < all - seen by { assert s in all - seen; }
      ghost var first := out;
      assert Closed(before, first, {});
      if shapes[s].parent.Some? { out := MarkNext(shapes[s].parent.value, before, seen, out); }
      assert {} + (out - first) == out - seen - {s};
      var todo := shapes[s].transitions.Keys;
      while todo != {}
        invariant seen + {s} <= out && (forall i :: i in out ==> i < |before|) && todo <= before[s].transitions.Keys
        invariant shapes == Marked(before, out - seen) && Closed(before, out, out - seen - {s})
        invariant (before[s].parent.Some? ==> before[s].parent.value in out)
        invariant forall k :: k in before[s].transitions && k !in todo ==> before[s].transitions[k] in out
        decreases todo
      {
        var k :| k in todo;
        ghost var was := out;
        assert all - out < all - seen by { assert s in all - seen; }
        out := MarkNext(shapes[s].transitions[k], before, seen, out);
        assert (was - seen - {s}) + (out - was) == out - seen - {s};
        todo := todo - {k};
      }
    }

    /** One more neighbour, seen from the start of the marking. */
    method MarkNext(t: nat, ghost before: seq<Shape>, ghost seen: set<nat>, now: set<nat>) returns (out: set<nat>)
      requires t < |shapes| && InRange(before) && seen <= now && (forall i :: i in now ==> i < |shapes|)
      requires shapes == Marked(before, now - seen)
      modifies this`shapes
      ensures now <= out && t in out && (forall i :: i in out ==> i < |shapes|) && |shapes| == |before|
      ensures shapes == Marked(before, out - seen)
      ensures forall from :: Closed(before, now, from) ==> Closed(before, out, from + (out - now))
      decreases Below(|shapes|) - now, 1, 1
    {
      out := MarkShapeShared(t, now);
      assert Marked(Marked(before, now - seen), out - now) == Marked(before, out - seen);
    }

    method SealRoot() returns (ghost seen: set<nat>)
      requires rootShape < |shapes| && InRange(shapes) && forall p :: 0 <= p < |store| ==> store[p].shape < |shapes|
      modifies this`shapes, this`store
      ensures |store| == old(|store|) && forall p :: 0 <= p < |store| ==> store[p] == SealedCell(old(store)[p])
      ensures shapes == Marked(old(shapes), seen) && Closed(old(shapes), seen, seen) && rootShape in seen
      ensures forall p :: 0 <= p < |store| ==> store[p].shape in seen
    {
      var met: set<nat> := {};
      assert shapes == Marked(shapes, {});
      for p := 0 to |store|
        invariant |store| == old(|store|) && |shapes| == old(|shapes|)
        invariant forall q :: 0 <= q < |store| ==> store[q] == if q < p then SealedCell(old(store)[q]) else old(store)[q]
        invariant (forall i :: i in met ==> i < |shapes|) && shapes == Marked(old(shapes), met) && Closed(old(shapes), met, met)
        invariant forall q :: 0 <= q < p ==> store[q].shape in met
      {
        store := store[p := store[p].(body := store[p].body.(isRoot := true))];
        store := store[p := store[p].(body := store[p].body.(proto := TagRoot(store[p].body.proto)))];
        store := store[p := store[p].(body := store[p].body.(slots := TagAll(store[p].body.slots)))];
        store := store[p := store[p].(body := store[p].body.(elements := TagAll(store[p].body.elements)))];
        store := store[p := store[p].(body := store[p].body.(inner := TagAll(store[p].body.inner)))];
        assert met - {} == met;
        var out := MarkNext(store[p].shape, old(shapes), {}, met);
        assert met + (out - met) == out && out - {} == out;
        met := out;
      }
      assert met - {} == met;
      var out := MarkNext(rootShape, old(shapes), {}, met);
      assert met + (out - met) == out && out - {} == out;
      seen := out;
    }
  }

  // ---------- What sealing gives ----------

  predicate RootHandle(h: Handle) { !h.Local? }

  predicate RootValue(v: Value) {
    match v
    case Ref(h) => RootHandle(h)
    case Function(h) => RootHandle(h)
    case Accessor(h) => RootHandle(h)
    case _ => true
  }

  /** No handle left in a sealed cell names an isolate's object. */
  predicate RootCell(c: Cell) {
    && c.body.isRoot && RootHandle(c.body.proto)
    && (forall i :: 0 <= i < |c.body.slots| ==> RootValue(c.body.slots[i]))
    && (forall i :: 0 <= i < |c.body.elements| ==> RootValue(c.body.elements[i]))
    && (forall i :: 0 <= i < |c.body.inner| ==> RootValue(c.body.inner[i]))
  }

  lemma SealedIsRoot(c: Cell)
    ensures RootCell(SealedCell(c))
  {
    var r := SealedCell(c);
    forall i | 0 <= i < |c.body.slots| ensures RootValue(r.body.slots[i]) { assert r.body.slots[i] == TagRootValue(c.body.slots[i]); }
    forall i | 0 <= i < |c.body.elements| ensures RootValue(r.body.elements[i]) { assert r.body.elements[i] == TagRootValue(c.body.elements[i]); }
    forall i | 0 <= i < |c.body.inner| ensures RootValue(r.body.inner[i]) { assert r.body.inner[i] == TagRootValue(c.body.inner[i]); }
  }

  /** w is v, but that an object of the heap being sealed is named as one of the realm. */
  predicate Renamed(v: Value, w: Value) {
    if v.Ref? && v.h.Local? then w == Ref(Root(v.h.i))
    else if v.Function? && v.h.Local? then w == Function(Root(v.h.i))
    else if v.Accessor? && v.cell.Local? then w == Accessor(Root(v.cell.i))
    else w == v
  }

  predicate AllRenamed(vs: seq<Value>, ws: seq<Value>) {
    |ws| == |vs| && forall i :: 0 <= i < |vs| ==> Renamed(vs[i], ws[i])
  }

  /** Sealing changes nothing about an object but the names of what it refers to. */
  lemma SealKeeps(keys: seq<Key>, c: Cell, text: string)
    requires Ok(Object(keys, c.body))
    ensures var (b, r) := (c.body, SealedCell(c).body);
      && SealedCell(c).shape == c.shape && Ok(Object(keys, r)) && r.isRoot
      && r.kind == b.kind && r.frozen == b.frozen && r.deleted == b.deleted && r.attrs == b.attrs
      && r.proto == (if b.proto.Local? then Root(b.proto.i) else b.proto)
      && AllRenamed(b.slots, r.slots) && AllRenamed(b.elements, r.elements) && AllRenamed(b.inner, r.inner)
      && match Own(Object(keys, b), text) {
           case None => Own(Object(keys, r), text).None?
           case Some(p) =>
             var q := Own(Object(keys, r), text);
             q.Some? && q.value.attrs == p.attrs && Renamed(p.value, q.value.value)
         }
  {
    hide TagRootValue, Deleted, Renamed;
    forall v ensures Renamed(v, TagRootValue(v)) { TagRenames(v); }
  }

  lemma TagRenames(v: Value)
    ensures Renamed(v, TagRootValue(v))
  {}

  /** Every node hangs from the root shape by remembered transitions. */
  predicate Remembered(ns: seq<Shape>, root: nat) {
    root < |ns| && forall i :: 0 <= i < |ns| ==>
      if ns[i].parent.None? then i == root
      else ns[i].key.Some? && ns[i].parent.value < i && ns[i].key.value in ns[ns[i].parent.value].transitions
           && ns[ns[i].parent.value].transitions[ns[i].key.value] == i
  }

  /** A realm is built by transitions from the root shape, none of it being shared yet. */
  lemma ExtendRemembered(ns: seq<Shape>, root: nat, s: nat, k: Key)
    requires Remembered(ns, root) && s < |ns|
    ensures Remembered(Extend(ns, s, k).0, root)
  {
    var r := Extend(ns, s, k).0;
    forall i | 0 <= i < |r| && r[i].parent.Some?
      ensures var p := r[i].parent.value; r[i].key.Some? && p < i && r[i].key.value in r[p].transitions && r[p].transitions[r[i].key.value] == i
    {
      if i < |ns| { assert r[i].parent == ns[i].parent && r[i].key == ns[i].key; }
    }
  }

  lemma {:induction false} AllSeen(ns: seq<Shape>, root: nat, seen: set<nat>, i: nat)
    requires Remembered(ns, root) && root in seen && Closed(ns, seen, seen) && i < |ns|
    ensures i in seen
    decreases i
  {
    if ns[i].parent.Some? { AllSeen(ns, root, seen, ns[i].parent.value); }
  }

  /** Sealing marks every shape, and changes no object's keys. */
  lemma SealedShapes(ns: seq<Shape>, root: nat, seen: set<nat>)
    requires ShapesOk(ns) && Remembered(ns, root) && root in seen && Closed(ns, seen, seen)
    ensures var r := Marked(ns, seen);
      && ShapesOk(r) && (forall i :: 0 <= i < |r| ==> r[i].shared)
      && forall i :: 0 <= i < |r| ==> KeysOf(r, i) == KeysOf(ns, i)
  {
    var r := Marked(ns, seen);
    forall i | 0 <= i < |r| ensures NodeOk(r, i) && r[i].shared {
      AllSeen(ns, root, seen, i);
      assert NodeOk(ns, i);
      if ns[i].parent.Some? { AllSeen(ns, root, seen, ns[i].parent.value); }
      forall k | k in r[i].transitions ensures TransitionOk(r, i, k, r[i].transitions[k]) {
        assert TransitionOk(ns, i, k, ns[i].transitions[k]);
        AllSeen(ns, root, seen, ns[i].transitions[k]);
      }
    }
    forall i | 0 <= i < |r| ensures KeysOf(r, i) == KeysOf(ns, i) { SameKeys(ns, r, i); }
    forall i | 0 <= i < |r| ensures Unique(KeysOf(r, i)) { assert Unique(KeysOf(ns, i)); }
  }

  lemma {:induction false} SameKeys(ns: seq<Shape>, r: seq<Shape>, i: nat)
    requires NodesOk(ns) && NodesOk(r) && |r| == |ns| && i < |ns|
    requires forall j :: 0 <= j < |ns| ==> r[j] == ns[j].(shared := r[j].shared)
    ensures KeysOf(r, i) == KeysOf(ns, i)
    decreases i
  {
    assert NodeOk(ns, i);
    if ns[i].parent.Some? { SameKeys(ns, r, ns[i].parent.value); }
  }

  /** An isolate attached to a sealed realm starts well formed: the hypotheses of every theorem about overlays. */
  lemma AttachedValid(realm: seq<Cell>, ns: seq<Shape>, table: nat)
    requires ShapesOk(ns) && (forall i :: 0 <= i < |ns| ==> ns[i].shared)
    requires forall p :: 0 <= p < |realm| ==>
      realm[p].body.isRoot && realm[p].shape < |ns| && Ok(Object(KeysOf(ns, realm[p].shape), realm[p].body))
    ensures Valid(Heap(|realm|, |ns|, ns + [BLANK], realm + [Cell(|ns|, NEW_BODY)], map[], table, |ns|))
  {
    BlankRight(ns);
    var s := Heap(|realm|, |ns|, ns + [BLANK], realm + [Cell(|ns|, NEW_BODY)], map[], table, |ns|);
    forall p | 0 <= p < |s.store| ensures CellOk(s, p) {
      if p < |realm| { KeysStay(ns, s.shapes, realm[p].shape); }
    }
  }

  /** A realm built without arrays is sealed and attached without arrays. */
  lemma AttachedNoArrays(built: Heap, realm: seq<Cell>, ns: seq<Shape>, table: nat)
    requires NoArrays(built) && |realm| == |built.store| && forall p :: 0 <= p < |realm| ==> realm[p] == SealedCell(built.store[p])
    ensures NoRealmArrays(Heap(|realm|, |ns|, ns + [BLANK], realm + [Cell(|ns|, NEW_BODY)], map[], table, |ns|))
  {}

  // ---------- A program that changes the realm ----------

  /** A realm of one ordinary object, as the first isolate and the second have it. */
  function SmallHeap(table: nat): Heap {
    var cell := Cell(0, NEW_BODY.(isRoot := true));
    Heap(2, 1, [BLANK.(shared := true), BLANK], [cell, cell, Cell(1, NEW_BODY)], map[], table, 1)
  }

  lemma SmallValid(table: nat)
    ensures Valid(SmallHeap(table))
  {
    var ns := [BLANK.(shared := true)];
    assert NodeOk(ns, 0) && KeysOf(ns, 0) == [];
    var cell := Cell(0, NEW_BODY.(isRoot := true));
    AttachedValid([cell, cell], ns, table);
    assert [cell, cell] + [Cell(1, NEW_BODY)] == [cell, cell, Cell(1, NEW_BODY)];
    assert ns + [BLANK] == [BLANK.(shared := true), BLANK];
  }

  /** `Map.call(Object.prototype)` in one isolate: the other, having done nothing, finds its
      Object.prototype a map. */
  lemma RealmLeaks()
    ensures Valid(SmallHeap(1)) && Valid(SmallHeap(2)) && OneRealm(SmallHeap(1), SmallHeap(2))
    ensures var w := WorldDo(World(SmallHeap(1), SmallHeap(2)), true, One(Poke(Root(1), Construct(Role(MapKind, [], None)))));
      && Get(SmallHeap(2), Root(1)) == Get(w.b, Root(1)) == Some(1)
      && SmallHeap(2).store[1].body.kind == Ordinary && w.b.store[1].body.kind == MapKind
  {
    SmallValid(1);
    SmallValid(2);
    var (a, b) := (SmallHeap(1), SmallHeap(2));
    var d := Construct(Role(MapKind, [], None));
    OneIs(a, Poke(Root(1), d));
    OneMove(a, Poke(Root(1), d));
    var a1 := WriteDirect(a, Root(1), d);
    assert a1.store[..2][1] == a1.store[1];
    assert Follow(b, a1).store[1] == a1.store[1];
    hide Valid;
  }

  // ---------- A getter written over a realm's ----------

  /** Steps of the first of two isolates. */
  function Lefts(steps: seq<Step>): seq<(bool, Step)> {
    if steps == [] then [] else [(true, steps[0])] + Lefts(steps[1..])
  }

  /** `({...proto, get text() {..}})`. */
  function Overriding(n: Handle, proto: Handle, text: string, f: Value): seq<Step> {
    [One(Make(Plain)), Copy(n, proto, text), Literal(n, text, f, false)]
  }

  lemma MadePlain(s: Heap, g: Handle)
    requires Valid(s)
    ensures var (n, s1) := (NamesOf(s).next, Do(s, One(Make(Plain))));
      && n in View(s1) && Seen(s1, n) == Object([], NEW_BODY) && s1.table == s.table && s1.base == s.base && n.Local?
      && (g in View(s) ==> g in View(s1) && Get(s1, g) == Get(s, g) && Seen(s1, g) == Seen(s, g))
  {
    OneIs(s, Make(Plain));
    OneMove(s, Make(Plain));
    NewIs(s, Plain);
    if g in View(s) { NewSeen(s, Plain, g); }
    hide Valid, Moves, Seen;
  }

  lemma CopyIs(s: Heap, n: Handle, h: Handle, text: string)
    requires Valid(s) && h in View(s) && Ok(Seen(s, h)) && Listed(Seen(s, h), text) && Bound(Seen(s, h), text).Some?
    ensures Do(s, Copy(n, h, text)) == Act(s, On(n, Op.SetProperty(text, Bound(Seen(s, h), text).value)))
  {
    ViewOk(s);
    var mv := On(n, Op.SetProperty(text, Bound(Seen(s, h), text).value));
    assert Moves(View(s), Copy(n, h, text), NamesOf(s)) == [mv] by { hide Valid, Bound, Listed, Seen; }
    hide Valid, Moves, Seen, Listed, Bound, Act;
    OneMove(s, mv);
  }

  /** A write through a local handle moves no object. */
  lemma LocalWrite(s: Heap, n: Handle, op: Op, g: Handle)
    requires Valid(s) && n.Local?
    ensures Get(Act(s, On(n, op)), g) == Get(s, g) && Act(s, On(n, op)).base == s.base
  {
    WriteGets(s, n, op, g);
    WriteKeepsRealm(s, n, op);
    hide Valid, Write;
  }

  lemma SetBound(k: Key, v: Value)
    ensures Bound(Properties.SetProperty(Object([], NEW_BODY), k, v), k.text) == Some(v)
  {
    assert Find([k], k.text) == Some(0);
  }

  /** A new object, and the spread of one key into it. */
  lemma SpreadInto(s: Heap, h: Handle, text: string, g: Handle)
    requires Valid(s) && h in View(s) && g in View(s) && Ok(Seen(s, h)) && Listed(Seen(s, h), text) && Bound(Seen(s, h), text).Some?
    ensures var n := NamesOf(s).next;
      var s2 := Do(Do(s, One(Make(Plain))), Copy(n, h, text));
      && n in View(s2) && Ok(Seen(s2, n)) && s2.base == s.base
      && Bound(Seen(s2, n), text) == Bound(Seen(s, h), text) && Get(s2, g) == Get(s, g)
  {
    hide Valid, Seen, Bound, Listed, Act, Do, Get;
    var n, v, s1 := NamesOf(s).next, Bound(Seen(s, h), text).value, Do(s, One(Make(Plain)));
    MadePlain(s, h);
    MadePlain(s, g);
    CopyIs(s1, n, h, text);
    OnSeen(s1, n, Op.SetProperty(text, v), n, n);
    LocalWrite(s1, n, Op.SetProperty(text, v), g);
    SetBound(Key(text, s1.table), v);
    SeenOk(Act(s1, On(n, Op.SetProperty(text, v))), n);
  }

  lemma SpreadKeeps(s: Heap, h: Handle, text: string)
    requires Valid(s)
    ensures RealmKept(s, Do(Do(s, One(Make(Plain))), Copy(NamesOf(s).next, h, text)))
  {
    hide Valid, Do, RealmKept;
    var s1 := Do(s, One(Make(Plain)));
    DoKeepsRealm(s, One(Make(Plain)));
    DoKeepsRealm(s1, Copy(NamesOf(s).next, h, text));
    KeptTrans(s, s1, Do(s1, Copy(NamesOf(s).next, h, text)));
  }

  /** A realm cell with another getter takes the new one. */
  lemma PokedCell(s: Heap, c: Handle, f: Value)
    requires Valid(s) && c in View(s) && Get(s, c).value < s.base && FunctionsAt(View(s), Some(c)).getter != f
    ensures TouchesRealm(s, c, SetFunction(f, false))
    ensures var (r, p) := (WriteDirect(s, c, SetFunction(f, false)), Get(s, c).value);
      p < |r.store| && |r.store[p].body.elements| >= 2 && r.store[p].body.elements[0] == f && r.base == s.base
  {
    var p := Get(s, c).value;
    assert FunctionsAt(View(s), Some(c)).getter == (var es := s.store[p].body.elements; if |es| > 0 then es[0] else Undefined);
    assert Changed(s.store[p].body, SetFunction(f, false)).elements[0] == f;
    hide Valid, Get;
  }

  /** What a realm cell holds is the same in two states of the heap with the realm kept. */
  lemma CellKept(s: Heap, s1: Heap, c: Handle)
    requires Valid(s) && Valid(s1) && RealmKept(s, s1) && c in View(s) && Get(s, c).value < s.base && Get(s1, c) == Get(s, c)
    ensures c in View(s1) && FunctionsAt(View(s1), Some(c)) == FunctionsAt(View(s), Some(c))
    ensures Seen(s1, c).body.kind == Seen(s, c).body.kind
  {
    var p := Get(s, c).value;
    assert s1.store[p] == s1.store[..s.base][p] == s.store[p];
    assert View(s)[c].body.elements == s.store[p].body.elements && View(s1)[c].body.elements == s1.store[p].body.elements;
    hide Valid, Get;
  }

  lemma FirstStep(s: Heap, st: Step, rest: seq<Step>)
    requires Valid(s)
    ensures Run(s, [st] + rest) == Run(Do(s, st), rest)
    ensures NeverTouches(s, [st] + rest) ==> !Touches(s, st) && NeverTouches(Do(s, st), rest)
  {
    hide Valid, Do, Touches;
    assert ([st] + rest)[1..] == rest;
  }

  lemma ThreeSteps(s: Heap, x: Step, y: Step, z: Step)
    requires Valid(s)
    ensures Run(s, [x, y, z]) == Do(Do(Do(s, x), y), z)
    ensures NeverTouches(s, [x, y, z]) ==> !Touches(Do(Do(s, x), y), z)
  {
    assert Run(Do(Do(Do(s, x), y), z), []) == Do(Do(Do(s, x), y), z) by { hide Valid, Do; }
    hide Valid, Do, Touches, Run, NeverTouches;
    assert [x] + [y, z] == [x, y, z] && [y] + [z] == [y, z] && [z] + [] == [z];
    FirstStep(s, x, [y, z]);
    FirstStep(Do(s, x), y, [z]);
    FirstStep(Do(Do(s, x), y), z, []);
  }

  /** A realm's accessor one can spread: its cell has no clone yet. */
  ghost predicate RealmAccessor(s: Heap, h: Handle, text: string)
    requires Valid(s)
  {
    h in View(s) && (SeenOk(s, h); Listed(Seen(s, h), text)) &&
    var v := Bound(Seen(s, h), text);
    CellAt(View(s), v).Some? && Get(s, v.value.cell).value < s.base
  }

  ghost function CellIn(s: Heap, h: Handle, text: string): Handle
    requires Valid(s) && RealmAccessor(s, h, text)
  {
    SeenOk(s, h); Bound(Seen(s, h), text).value.cell
  }

  /** The literal finds the realm's cell in the object that was spread into. */
  lemma SpreadTouches(s: Heap, h: Handle, text: string, f: Value)
    requires Valid(s) && RealmAccessor(s, h, text) && FunctionsAt(View(s), Some(CellIn(s, h, text))).getter != f
    ensures var (n, c) := (NamesOf(s).next, CellIn(s, h, text));
      var s2 := Do(Do(s, One(Make(Plain))), Copy(n, h, text));
      && Touches(s2, Literal(n, text, f, false)) && CellOfLiteral(s2, n, text) == Some(c) && c in View(s2)
      && Get(s2, c) == Get(s, c) && s2.base == s.base && Get(s2, c).value < s2.base && FunctionsAt(View(s2), Some(c)).getter != f
  {
    hide Valid, Do, Get, TouchesRealm, RealmKept, FunctionsAt, RealmAccessor, CellIn, CellOfLiteral;
    var c, n := CellIn(s, h, text), NamesOf(s).next;
    var s2 := Do(Do(s, One(Make(Plain))), Copy(n, h, text));
    SpreadFound(s, h, text);
    SpreadKeeps(s, h, text);
    CellKept(s, s2, c);
    CellFound(s2, n, text, c);
    PokedCell(s2, c, f);
  }

  lemma SpreadFound(s: Heap, h: Handle, text: string)
    requires Valid(s) && RealmAccessor(s, h, text)
    ensures var (n, c) := (NamesOf(s).next, CellIn(s, h, text));
      var s2 := Do(Do(s, One(Make(Plain))), Copy(n, h, text));
      && n in View(s2) && Ok(Seen(s2, n)) && Bound(Seen(s2, n), text) == Some(Accessor(c)) && s2.base == s.base
      && c in View(s) && Seen(s, c).body.kind.AccessorKind? && Get(s2, c) == Get(s, c) && Get(s, c).value < s.base
  {
    var c, n := CellIn(s, h, text), NamesOf(s).next;
    SeenOk(s, h);
    hide Valid, Seen, Bound, Listed, Do, Get;
    SpreadInto(s, h, text, c);
  }

  lemma CellFound(s: Heap, n: Handle, text: string, c: Handle)
    requires Valid(s) && n in View(s) && Get(s, c).Some? && Seen(s, c).body.kind.AccessorKind?
    requires Ok(Seen(s, n)) && Bound(Seen(s, n), text) == Some(Accessor(c))
    ensures CellOfLiteral(s, n, text) == Some(c)
  {
    hide Valid, Seen, Bound;
  }

  /** Spreading any object with an accessor of the realm, and writing a getter of one's own over it, changes the
      realm: the cell is the realm's, and gets a function of the isolate. */
  lemma SpreadLeaks(s: Heap, h: Handle, text: string, f: Value)
    requires Valid(s) && RealmAccessor(s, h, text) && FunctionsAt(View(s), Some(CellIn(s, h, text))).getter != f
    ensures var (r, p) := (Run(s, Overriding(NamesOf(s).next, h, text, f)), Get(s, CellIn(s, h, text)).value);
      && !EveryStepKeepsRealm(s, Overriding(NamesOf(s).next, h, text, f)) && r.base == s.base
      && p < |r.store| && |r.store[p].body.elements| >= 2 && r.store[p].body.elements[0] == f
  {
    SpreadTouches(s, h, text, f);
    hide Valid, Do, Get, TouchesRealm, RealmKept, WriteDirect, Run, NeverTouches, EveryStepKeepsRealm, FunctionsAt, Touches, CellOfLiteral, RealmAccessor, CellIn;
    var c, n := CellIn(s, h, text), NamesOf(s).next;
    var x, y, z := One(Make(Plain)), Copy(n, h, text), Literal(n, text, f, false);
    var s2 := Do(Do(s, x), y);
    PokedCell(s2, c, f);
    ThreeSteps(s, x, y, z);
    RunKeepsRealm(s, [x, y, z]);
    LiteralDone(s2, n, text, f, c);
  }

  lemma LiteralDone(s: Heap, n: Handle, text: string, f: Value, c: Handle)
    requires Valid(s) && CellOfLiteral(s, n, text) == Some(c)
    ensures Do(s, Literal(n, text, f, false)) == WriteDirect(s, c, SetFunction(f, false))
  {
    hide Valid, Moves, CellOfLiteral, WriteDirect;
    LiteralIs(s, n, text, f, false);
    OneMove(s, Poke(c, SetFunction(f, false)));
  }

  /** A realm of an object with a getter: object 1 has property "source" in cell 2, whose getter is function 3. */
  function GetterShapes(): seq<Shape> {
    [BLANK.(transitions := map[Key("source", 0) := 1], shared := true), Shape(Some(0), Some(Key("source", 0)), 0, 1, map[], true)]
  }

  function GetterCells(): seq<Cell> {
    var b := NEW_BODY.(isRoot := true);
    [Cell(0, b), Cell(1, b.(slots := [Accessor(Root(2))])), Cell(0, b.(kind := AccessorKind, elements := [Function(Root(3)), Undefined])),
     Cell(0, b.(kind := FunctionKind))]
  }

  function GetterHeap(table: nat): Heap {
    Heap(4, 2, GetterShapes() + [BLANK], GetterCells() + [Cell(2, NEW_BODY)], map[], table, 2)
  }

  lemma GetterShapesOk()
    ensures ShapesOk(GetterShapes()) && KeysOf(GetterShapes(), 0) == [] && KeysOf(GetterShapes(), 1) == [Key("source", 0)]
  {
    var ns, k := GetterShapes(), Key("source", 0);
    assert TransitionOk(ns, 0, k, 1) && NodeOk(ns, 0) && NodeOk(ns, 1);
    assert NodesOk(ns) && KeysOf(ns, 0) == [] && KeysOf(ns, 1) == KeysOf(ns, 0) + [k];
  }

  lemma GetterValid(table: nat)
    ensures Valid(GetterHeap(table)) && KeysOf(GetterHeap(table).shapes, 1) == [Key("source", 0)]
  {
    GetterShapesOk();
    hide KeysOf, NodesOk, GetterShapes;
    assert |GetterShapes()| == 2 && forall i :: 0 <= i < 2 ==> GetterShapes()[i].shared by { GetterShapesShared(); }
    AttachedValid(GetterCells(), GetterShapes(), table);
    BlankRight(GetterShapes());
    KeysStay(GetterShapes(), GetterHeap(table).shapes, 1);
  }

  lemma GetterShapesShared()
    ensures |GetterShapes()| == 2 && forall i :: 0 <= i < 2 ==> GetterShapes()[i].shared
  {}

  lemma GetterThere(table: nat)
    ensures Valid(GetterHeap(table)) && RealmAccessor(GetterHeap(table), Root(1), "source")
    ensures Get(GetterHeap(table), Root(2)) == Some(2) && CellIn(GetterHeap(table), Root(1), "source") == Root(2)
    ensures FunctionsAt(View(GetterHeap(table)), Some(Root(2))).getter == Function(Root(3))
  {
    GetterValid(table);
    hide Valid, ShapesOk, NodesOk, KeysOf;
    var s, k := GetterHeap(table), Key("source", 0);
    assert Get(s, Root(1)) == Some(1) && Seen(s, Root(1)).keys == [k] && Find([k], "source") == Some(0);
    assert Seen(s, Root(2)).body.elements == [Function(Root(3)), Undefined];
  }

  /** `({...RegExp.prototype, get source() {..}})` in one isolate: the other, having done nothing, finds that function
      behind the `source` of its regular expressions. */
  lemma RealmGetterLeaks(f: Value)
    requires f.Function? && f != Function(Root(3))
    ensures WorldOk(World(GetterHeap(1), GetterHeap(2))) && GetterHeap(2).store[2].body.elements[0] == Function(Root(3))
    ensures var ss := Overriding(NamesOf(GetterHeap(1)).next, Root(1), "source", f);
      var w := WorldRun(World(GetterHeap(1), GetterHeap(2)), Lefts(ss));
      2 < |w.b.store| && |w.b.store[2].body.elements| >= 2 && w.b.store[2].body.elements[0] == f
  {
    GetterThere(1);
    GetterThere(2);
    GetterWorld();
    var ss := Overriding(NamesOf(GetterHeap(1)).next, Root(1), "source", f);
    SpreadLeaks(GetterHeap(1), Root(1), "source", f);
    LeftRun(World(GetterHeap(1), GetterHeap(2)), ss);
    var w := WorldRun(World(GetterHeap(1), GetterHeap(2)), Lefts(ss));
    SameRealmCell(w, 2);
  }

  lemma SameRealmCell(w: World, p: nat)
    requires OneRealm(w.a, w.b) && p < w.a.base
    ensures p < |w.a.store| && p < |w.b.store| && w.b.store[p] == w.a.store[p]
  {
    assert w.b.store[p] == w.b.store[..w.b.base][p] && w.a.store[p] == w.a.store[..w.a.base][p];
  }

  lemma GetterWorld()
    requires Valid(GetterHeap(1)) && Valid(GetterHeap(2))
    ensures WorldOk(World(GetterHeap(1), GetterHeap(2))) && GetterHeap(1).base == 4
    ensures GetterHeap(2).store[2].body.elements[0] == Function(Root(3))
  {
    hide Valid;
  }

  lemma FirstOfWorld(w: World, st: Step, rest: seq<(bool, Step)>)
    requires WorldOk(w)
    ensures WorldOk(WorldDo(w, true, st)) && WorldDo(w, true, st).a == Do(w.a, st)
    ensures WorldRun(w, [(true, st)] + rest) == WorldRun(WorldDo(w, true, st), rest)
  {
    hide Valid, Do, Follow, OneRealm, Touches;
    WorldStep(w, true, st);
    assert ([(true, st)] + rest)[1..] == rest;
  }

  lemma NoSteps(w: World)
    requires WorldOk(w)
    ensures WorldRun(w, []) == w && OneRealm(w.a, w.b)
  {
    hide Valid;
  }

  /** What the first isolate comes to does not depend on the other. */
  lemma {:induction false} LeftRun(w: World, steps: seq<Step>)
    requires WorldOk(w)
    ensures var r := WorldRun(w, Lefts(steps)); r.a == Run(w.a, steps) && OneRealm(r.a, r.b)
    decreases |steps|
  {
    if steps == [] {
      NoSteps(w);
    } else {
      FirstOfWorld(w, steps[0], Lefts(steps[1..]));
      LeftRun(WorldDo(w, true, steps[0]), steps[1..]);
    }
    hide Valid, Do, WorldDo, OneRealm;
  }
}
