/**
 An isolate's view of the shared frozen realm.  A root handle names a realm object until the
 isolate first writes to it; from then on it names a private clone.
 */
module Overlay {
  import opened Options
  import opened Properties
  import opened Shapes
  import Descriptors

  /** An object in memory: its shape's node, and the rest. */
  datatype Cell = Cell(shape: nat, body: Body)

  /** Memory is one store.  Its first `base` cells and first `shapeBase` nodes are the realm's, read by every
      isolate; Root(i) is cell i of the realm, Local(i) cell i after it.  Place 0 of either part is never used. */
  datatype Heap = Heap(base: nat, shapeBase: nat, shapes: seq<Shape>, store: seq<Cell>, cow: map<nat, nat>,
                       table: nat, rootShape: nat)

  // ---------- Handles ----------

  function GetLocal(s: Heap, h: Handle): Option<nat> {
    if h.Local? && 0 < h.i && s.base + h.i < |s.store| then Some(s.base + h.i) else None
  }

  /** The place of the object a handle names. */
  function Get(s: Heap, h: Handle): (r: Option<nat>) {
    if h.Root? then
      if h.i in s.cow then GetLocal(s, Local(s.cow[h.i]))
      else if 0 < h.i < s.base && h.i < |s.store| then Some(h.i) else None
    else GetLocal(s, h)
  }

  /** The handle to write through, the object behind a root handle being cloned the first time. */
  function PrepareWrite(s: Heap, h: Handle): (Heap, Handle) {
    if !h.Root? then (s, h)
    else if h.i in s.cow then (s, Local(s.cow[h.i]))
    else if !(0 < h.i < s.base && s.base <= |s.store|) then (s, h)
    else
      var src := s.store[h.i];
      var local := |s.store| - s.base;
      (s.(store := s.store + [src.(body := src.body.(isRoot := false))], cow := s.cow[h.i := local]), Local(local))
  }

  // ---------- Operations ----------

  datatype Op =
    | SetProperty(text: string, v: Value)
    | DefineData(text: string, v: Value, attrs: Attrs)
    | Delete(text: string)
    | SetAttrs(text: string, attrs: Attrs)
    | SetProto(h: Handle)
    | SetElement(i: int, v: Value)
    | PreventExtensions
    | Seal
    | Freeze

  /** An operation on an object by itself. */
  function Apply(o: Object, op: Op, table: nat): (r: Object)
    requires Ok(o)
    ensures Ok(r)
  {
    match op
    case SetProperty(text, v) => Properties.SetProperty(o, Key(text, table), v)
    case DefineData(text, v, attrs) => DefineDataProperty(o, Key(text, table), v, attrs)
    case Delete(text) => DeleteProperty(o, Key(text, table)).1
    case SetAttrs(text, attrs) => SetPropertyAttrs(o, Key(text, table), attrs)
    case SetProto(h) => if o.body.isRoot then o else o.(body := o.body.(proto := h))
    case SetElement(i, v) => Properties.SetElement(o, i, v)
    case PreventExtensions => Descriptors.PreventExtensions(o)
    case Seal => Descriptors.Seal(o)
    case Freeze => Descriptors.Freeze(o)
  }

  predicate CellOk(s: Heap, p: nat)
    requires ShapesOk(s.shapes) && p < |s.store|
  {
    var c := s.store[p];
    && c.shape < |s.shapes| && Ok(Object(KeysOf(s.shapes, c.shape), c.body))
    && (c.body.isRoot <==> p < s.base)
  }

  predicate CowOk(s: Heap) {
    && (forall i :: i in s.cow ==> 0 < i < s.base && 0 < s.cow[i] && s.base + s.cow[i] < |s.store|)
    && (forall i, j :: i in s.cow && j in s.cow && i != j ==> s.cow[i] != s.cow[j])
  }

  ghost predicate Valid(s: Heap) {
    && ShapesOk(s.shapes) && s.shapeBase <= |s.shapes| && s.base < |s.store| && s.rootShape < |s.shapes|
    && KeysOf(s.shapes, s.rootShape) == []
    && (forall i :: 0 <= i < s.shapeBase ==> s.shapes[i].shared)
    && (forall p :: 0 <= p < |s.store| ==> CellOk(s, p))
    && CowOk(s)
  }

  function ObjectAt(s: Heap, p: nat): (r: Object)
    requires Valid(s) && p < |s.store|
    ensures Ok(r)
  {
    assert CellOk(s, p);
    Object(KeysOf(s.shapes, s.store[p].shape), s.store[p].body)
  }

  /** Writes an object back: a new key takes the cell to the next shape. */
  function Put(s: Heap, p: nat, o: Object): Heap
    requires Valid(s) && p < |s.store|
  {
    assert CellOk(s, p);
    var shape := s.store[p].shape;
    if |o.keys| <= |KeysOf(s.shapes, shape)| then s.(store := s.store[p := Cell(shape, o.body)])
    else
      var (ns, t) := Transition(s.shapes, shape, o.keys[|o.keys| - 1]);
      s.(shapes := ns, store := s.store[p := Cell(t, o.body)])
  }

  function Write(s: Heap, h: Handle, op: Op): Heap
    requires Valid(s)
  {
    PrepareValid(s, h);
    var (s1, l) := PrepareWrite(s, h);
    match GetLocal(s1, l)
    case None => s1
    case Some(p) => Put(s1, p, Apply(ObjectAt(s1, p), op, s.table))
  }

  const NEW_BODY := Body(Ordinary, [], [], [], [], NoHandle, false, false, [])

  /** What is made: an object, an array of undefined elements, or the cell of an accessor. */
  datatype Made = Plain | ArrayOf(length: nat) | CellOf(fs: Descriptors.Functions)

  function NewBody(made: Made): Body {
    match made
    case Plain => NEW_BODY
    case ArrayOf(n) => NEW_BODY.(kind := Array, elements := seq(n, _ => Undefined))
    case CellOf(fs) => NEW_BODY.(kind := AccessorKind, elements := [fs.getter, fs.setter])
  }

  /** A new object, and its handle. */
  function New(s: Heap, made: Made): (Heap, Handle) {
    (s.(store := s.store + [Cell(s.rootShape, NewBody(made))]), Local(if |s.store| < s.base then 0 else |s.store| - s.base))
  }

  /** What a built-in constructor makes of its receiver: a kind, what belongs to it, perhaps a prototype. */
  datatype Role = Role(kind: Kind, inner: seq<Value>, proto: Option<Handle>)

  /** What is done to an object that was looked up, and not prepared for writing: a constructor to its receiver, an
      accessor of a literal to the cell it finds. */
  datatype Direct = Construct(role: Role) | SetFunction(f: Value, setter: bool)

  function Changed(b: Body, d: Direct): Body {
    match d
    case Construct(r) => b.(kind := r.kind, inner := r.inner, proto := if r.proto.Some? then r.proto.value else b.proto)
    case SetFunction(f, setter) =>
      var fs := if |b.elements| < 2 then [Undefined, Undefined] else b.elements;
      b.(elements := fs[(if setter then 1 else 0) := f])
  }

  function WriteDirect(s: Heap, h: Handle, d: Direct): Heap {
    var p := Get(s, h);
    if p.None? || p.value >= |s.store| then s
    else s.(store := s.store[p.value := s.store[p.value].(body := Changed(s.store[p.value].body, d))])
  }

  function DiscardCow(s: Heap): Heap { s.(cow := map[]) }

  // ---------- The overlay stays well formed ----------

  lemma PrepareValid(s: Heap, h: Handle)
    requires Valid(s)
    ensures Valid(PrepareWrite(s, h).0)
  {
    var (s1, l) := PrepareWrite(s, h);
    if s1 != s {
      forall p | 0 <= p < |s1.store| ensures CellOk(s1, p) { assert CellOk(s, if p < |s.store| then p else h.i); }
    }
  }

  /** The object behind the handle to write through is the one the handle named, and is not the realm's. */
  lemma PrepareSame(s: Heap, h: Handle)
    requires Valid(s)
    ensures var (s1, l) := PrepareWrite(s, h);
      && (GetLocal(s1, l).Some? <==> Get(s, h).Some?)
      && GetLocal(s1, l) == Get(s1, h)
      && (Get(s, h).Some? ==>
            && s.base <= GetLocal(s1, l).value < |s1.store|
            && s1.store[GetLocal(s1, l).value] == s.store[Get(s, h).value].(body := s.store[Get(s, h).value].body.(isRoot := false)))
      && s1.shapes == s.shapes && |s.store| <= |s1.store| && s1.store[..|s.store|] == s.store
  {
    if Get(s, h).Some? { assert CellOk(s, Get(s, h).value); }
  }

  /** Other handles keep their objects; the ones that named the same object still do. */
  lemma PrepareOthers(s: Heap, h: Handle, g: Handle)
    requires Valid(s) && Get(s, g).Some?
    ensures var s1 := PrepareWrite(s, h).0;
      && Get(s1, g) == (if Get(s, g) == Get(s, h) then Get(s1, h) else Get(s, g))
      && (Get(s, g) != Get(s, h) ==> Get(s1, g) != Get(s1, h))
  {
    if g.Root? && h.Root? && g.i in s.cow && h.i in s.cow && g.i != h.i { assert s.cow[g.i] != s.cow[h.i]; }
  }

  lemma {:induction false} ApplyKeys(o: Object, op: Op, table: nat)
    requires Ok(o)
    ensures var r := Apply(o, op, table);
      && r.body.isRoot == o.body.isRoot
      && (r.keys == o.keys || (|r.keys| == |o.keys| + 1 && r.keys == o.keys + [r.keys[|o.keys|]] && Shapes.Fresh(o.keys, r.keys[|o.keys|])))
  {
    hide GrowFor;
  }

  lemma PutShapes(s: Heap, p: nat, o: Object)
    requires Valid(s) && p < |s.store| && Ok(o)
    requires var keys := ObjectAt(s, p).keys;
      o.keys == keys || (|o.keys| == |keys| + 1 && o.keys == keys + [o.keys[|keys|]] && Shapes.Fresh(keys, o.keys[|keys|]))
    ensures var s1 := Put(s, p, o);
      && ShapesOk(s1.shapes) && Preserved(s.shapes, s1.shapes) && |s1.store| == |s.store| && s1.store[p].shape < |s1.shapes|
      && KeysOf(s1.shapes, s1.store[p].shape) == o.keys && s1.store[p].body == o.body
      && (forall i :: 0 <= i < |s.shapes| ==> KeysOf(s1.shapes, i) == KeysOf(s.shapes, i))
      && (forall q :: 0 <= q < |s.store| && q != p ==> s1.store[q] == s.store[q])
      && s1 == s.(shapes := s1.shapes, store := s1.store)
  {
    assert CellOk(s, p);
    var keys := ObjectAt(s, p).keys;
    if |o.keys| > |keys| { TransitionRight(s.shapes, s.store[p].shape, o.keys[|keys|]); }
    hide Transition;
  }

  lemma PutValid(s: Heap, p: nat, o: Object)
    requires Valid(s) && s.base <= p < |s.store| && Ok(o) && !o.body.isRoot
    requires var keys := ObjectAt(s, p).keys;
      o.keys == keys || (|o.keys| == |keys| + 1 && o.keys == keys + [o.keys[|keys|]] && Shapes.Fresh(keys, o.keys[|keys|]))
    ensures Valid(Put(s, p, o))
  {
    PutShapes(s, p, o);
    var s1 := Put(s, p, o);
    hide Put;
    forall q | 0 <= q < |s1.store| ensures CellOk(s1, q) { assert CellOk(s, q); }
  }

  lemma WriteValid(s: Heap, h: Handle, op: Op)
    requires Valid(s)
    ensures Valid(Write(s, h, op))
  {
    PrepareValid(s, h);
    PrepareSame(s, h);
    var (s1, l) := PrepareWrite(s, h);
    if GetLocal(s1, l).Some? {
      var p := GetLocal(s1, l).value;
      var o := ObjectAt(s1, p);
      assert CellOk(s1, p);
      ApplyKeys(o, op, s.table);
      PutValid(s1, p, Apply(o, op, s.table));
    }
    hide Valid, PrepareWrite, Put, Apply, ShapesOk;
  }

  // ---------- The realm is never written ----------

  predicate RealmKept(s: Heap, s1: Heap) {
    && s1.base == s.base && s1.shapeBase == s.shapeBase && s.base <= |s.store| <= |s1.store|
    && s.shapeBase <= |s.shapes| <= |s1.shapes|
    && s1.store[..s.base] == s.store[..s.base] && s1.shapes[..s.shapeBase] == s.shapes[..s.shapeBase]
  }

  /** No write reaches the realm's objects or the nodes it shares, through any handle. */
  lemma WriteKeepsRealm(s: Heap, h: Handle, op: Op)
    requires Valid(s)
    ensures RealmKept(s, Write(s, h, op))
  {
    PrepareValid(s, h);
    PrepareSame(s, h);
    var (s1, l) := PrepareWrite(s, h);
    PrepareKeepsRealm(s, h);
    if GetLocal(s1, l).Some? {
      var p := GetLocal(s1, l).value;
      ApplyKeys(ObjectAt(s1, p), op, s.table);
      PutKeepsRealm(s1, p, Apply(ObjectAt(s1, p), op, s.table));
    }
    hide Valid, Put, Apply, PrepareWrite, ShapesOk;
  }

  lemma PrepareKeepsRealm(s: Heap, h: Handle)
    requires Valid(s)
    ensures RealmKept(s, PrepareWrite(s, h).0)
  {}

  lemma PutKeepsRealm(s: Heap, p: nat, o: Object)
    requires Valid(s) && s.base <= p < |s.store| && Ok(o)
    requires var keys := ObjectAt(s, p).keys;
      o.keys == keys || (|o.keys| == |keys| + 1 && o.keys == keys + [o.keys[|keys|]] && Shapes.Fresh(keys, o.keys[|keys|]))
    ensures RealmKept(s, Put(s, p, o))
  {
    PutShapes(s, p, o);
    hide Put, ShapesOk, CellOk, CowOk;
  }

  // ---------- What the isolate sees ----------

  /** Every handle that names an object, with the object. */
  ghost function View(s: Heap): (m: map<Handle, Object>)
    requires Valid(s)
    ensures forall h :: h in m <==> Get(s, h).Some?
    ensures forall h :: h in m ==> m[h] == Seen(s, h)
  {
    var hs := (set i: nat | i < s.base :: Root(i)) + (set i: nat | i < |s.store| :: Local(i));
    map h | h in hs && Get(s, h).Some? :: Seen(s, h)
  }

  ghost function Seen(s: Heap, h: Handle): Object
    requires Valid(s) && Get(s, h).Some?
  {
    var o := ObjectAt(s, Get(s, h).value);
    o.(body := o.body.(isRoot := false))
  }

  /** A write changes what is seen exactly at the object it names, and there as the operation by itself does;
      which handles name one object stays the same. */
  lemma WriteSeen(s: Heap, h: Handle, op: Op, g: Handle)
    requires Valid(s) && Get(s, g).Some?
    ensures Valid(Write(s, h, op)) && Get(Write(s, h, op), g).Some?
    ensures Seen(Write(s, h, op), g) == if Get(s, g) == Get(s, h) then Apply(Seen(s, g), op, s.table) else Seen(s, g)
  {
    WriteValid(s, h, op);
    PrepareValid(s, h);
    PrepareSame(s, h);
    PrepareOthers(s, h, g);
    var (s1, l) := PrepareWrite(s, h);
    PreparedSeen(s, h, g);
    if GetLocal(s1, l).Some? { PutSeen(s1, GetLocal(s1, l).value, Apply(ObjectAt(s1, GetLocal(s1, l).value), op, s.table), op, g); }
    hide Valid, ShapesOk, Put, Apply;
  }

  lemma PreparedSeen(s: Heap, h: Handle, g: Handle)
    requires Valid(s) && Get(s, g).Some?
    ensures var s1 := PrepareWrite(s, h).0; Valid(s1) && Get(s1, g).Some? && Seen(s1, g) == Seen(s, g)
  {
    PrepareValid(s, h);
    PrepareSame(s, h);
    PrepareOthers(s, h, g);
    hide Valid, ShapesOk, PrepareWrite;
  }

  lemma PutSeen(s: Heap, p: nat, o: Object, op: Op, g: Handle)
    requires Valid(s) && s.base <= p < |s.store| && Get(s, g).Some? && o == Apply(ObjectAt(s, p), op, s.table)
    ensures Valid(Put(s, p, o)) && Get(Put(s, p, o), g) == Get(s, g)
    ensures Seen(Put(s, p, o), g) == if Get(s, g).value == p then o else Seen(s, g)
  {
    assert CellOk(s, p);
    ApplyKeys(ObjectAt(s, p), op, s.table);
    PutAt(s, p, o, Get(s, g).value);
    SameGet(s, Put(s, p, o), g);
    hide Put, Apply, Valid, CellOk, ShapesOk, Ok, Get, GetLocal;
  }

  lemma SameGet(s: Heap, s1: Heap, g: Handle)
    requires s1.base == s.base && |s1.store| == |s.store| && s1.cow == s.cow
    ensures Get(s1, g) == Get(s, g)
  {}

  lemma PutAt(s: Heap, p: nat, o: Object, q: nat)
    requires Valid(s) && s.base <= p < |s.store| && Ok(o) && q < |s.store| && !o.body.isRoot
    requires var keys := ObjectAt(s, p).keys;
      o.keys == keys || (|o.keys| == |keys| + 1 && o.keys == keys + [o.keys[|keys|]] && Shapes.Fresh(keys, o.keys[|keys|]))
    ensures Valid(Put(s, p, o)) && |Put(s, p, o).store| == |s.store| && Put(s, p, o).cow == s.cow && Put(s, p, o).base == s.base
    ensures ObjectAt(Put(s, p, o), q) == if q == p then o else ObjectAt(s, q)
  {
    PutValid(s, p, o);
    PutShapes(s, p, o);
    assert CellOk(s, q);
    hide Put, Valid, ShapesOk, Preserved, Ok;
  }

  /** Discarding the clones brings the realm's own objects back, whatever happened before. */
  lemma DiscardRestores(s: Heap, i: nat)
    requires Valid(s) && 0 < i < s.base
    ensures Valid(DiscardCow(s)) && Get(DiscardCow(s), Root(i)) == Some(i)
    ensures ObjectAt(DiscardCow(s), i) == ObjectAt(s, i)
  {
    var s1 := DiscardCow(s);
    forall p | 0 <= p < |s1.store| ensures CellOk(s1, p) { assert CellOk(s, p); }
  }

  // ---------- Direct writes ----------

  lemma DirectValid(s: Heap, h: Handle, d: Direct)
    requires Valid(s)
    ensures Valid(WriteDirect(s, h, d))
  {
    var s1 := WriteDirect(s, h, d);
    forall p | 0 <= p < |s1.store| ensures CellOk(s1, p) { assert CellOk(s, p); }
  }

  /** The object named is seen to change, no other. */
  lemma DirectSeen(s: Heap, h: Handle, d: Direct, g: Handle)
    requires Valid(s) && Get(s, g).Some?
    ensures Valid(WriteDirect(s, h, d)) && Get(WriteDirect(s, h, d), g) == Get(s, g)
    ensures var o := Seen(s, g);
      Seen(WriteDirect(s, h, d), g) == if Get(s, g) == Get(s, h) then o.(body := Changed(o.body, d)) else o
  {
    DirectValid(s, h, d);
    SameGet(s, WriteDirect(s, h, d), g);
    assert CellOk(s, Get(s, g).value);
    hide Get, GetLocal, Valid;
  }

  /** The write goes to an object of the realm that has no clone yet, and changes it. */
  predicate TouchesRealm(s: Heap, h: Handle, d: Direct) {
    var p := Get(s, h);
    p.Some? && p.value < s.base && p.value < |s.store| && Changed(s.store[p.value].body, d) != s.store[p.value].body
  }

  /** That is exactly when the realm is written. */
  lemma DirectRealm(s: Heap, h: Handle, d: Direct)
    requires Valid(s)
    ensures RealmKept(s, WriteDirect(s, h, d)) <==> !TouchesRealm(s, h, d)
  {
    var s1 := WriteDirect(s, h, d);
    if TouchesRealm(s, h, d) {
      var p := Get(s, h).value;
      assert s1.store[..s.base][p] == s1.store[p] && s.store[..s.base][p] == s.store[p];
    } else {
      assert forall q :: 0 <= q < s.base ==> s1.store[q] == s.store[q];
      assert s1.store[..s.base] == s.store[..s.base];
    }
    hide Valid, Changed;
  }
}
