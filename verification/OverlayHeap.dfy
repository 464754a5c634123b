/** The heap of an isolate as the engine works on it: shapes, objects and clones updated in place. */
module OverlayHeap {
  import opened Options
  import opened Properties
  import opened Shapes
  import opened Overlay
  import opened OverlayRuns
  import opened Descriptors

  /** The keys of an ancestor are a prefix. */
  lemma KeysPrefix(ns: seq<Shape>, s: nat, c: nat)
    requires NodesOk(ns) && s < |ns| && c < |ns| && ns[c].count <= ns[s].count && ns[c].parent.Some?
    requires KeysOf(ns, c) == KeysOf(ns, s)[..ns[c].count]
    ensures var p := ns[c].parent.value;
      && p < c && ns[p].count + 1 == ns[c].count && ns[p].count < |KeysOf(ns, s)| && ns[c].slot == ns[p].count && ns[c].key.Some?
      && KeysOf(ns, p) == KeysOf(ns, s)[..ns[p].count] && ns[c].key.value == KeysOf(ns, s)[ns[p].count]
  {
    assert NodeOk(ns, c);
    var p := ns[c].parent.value;
    assert KeysOf(ns, c)[..ns[p].count] == KeysOf(ns, p);
    assert KeysOf(ns, c)[ns[p].count] == ns[c].key.value;
  }

  /** The list of a node without a key is empty. */
  lemma KeysEnd(ns: seq<Shape>)
    requires NodesOk(ns)
    ensures forall i :: 0 <= i < |ns| ==> (ns[i].key.Some? <==> ns[i].parent.Some?) && (ns[i].key.None? ==> ns[i].count == 0)
  {
    forall i | 0 <= i < |ns| ensures (ns[i].key.Some? <==> ns[i].parent.Some?) && (ns[i].key.None? ==> ns[i].count == 0) { assert NodeOk(ns, i); }
  }

  class Isolate {
    const base: nat
    const shapeBase: nat
    const table: nat
    const rootShape: nat
    var shapes: seq<Shape>
    var store: seq<Cell>
    var cow: map<nat, nat>

    ghost function Now(): Heap
      reads this
    {
      Heap(base, shapeBase, shapes, store, cow, table, rootShape)
    }

    /** An isolate attached to a realm, with nothing of its own yet. */
    constructor (realm: seq<Cell>, realmShapes: seq<Shape>, table: nat)
      ensures Now() == Heap(|realm|, |realmShapes|, realmShapes + [BLANK], realm + [Cell(|realmShapes|, NEW_BODY)], map[], table, |realmShapes|)
    {
      base, shapeBase, this.table, rootShape := |realm|, |realmShapes|, table, |realmShapes|;
      shapes, store, cow := realmShapes + [BLANK], realm + [Cell(|realmShapes|, NEW_BODY)], map[];
    }

    // ---------- Shapes ----------

    method Lookup(s: nat, k: Key) returns (r: Option<nat>)
      requires NodesOk(shapes) && s < |shapes|
      ensures r == Shapes.Lookup(shapes, s, k)
    {
      var c: nat := s;
      while shapes[c].key.Some?
        invariant c < |shapes| && LookupKey(shapes, s, k) == LookupKey(shapes, c, k)
        decreases c
      {
        assert NodeOk(shapes, c);
        if shapes[c].key.value == k { return Some(shapes[c].slot); }
        c := shapes[c].parent.value;
      }
      c := s;
      while shapes[c].key.Some?
        invariant c < |shapes| && LookupText(shapes, s, k.text) == LookupText(shapes, c, k.text)
        decreases c
      {
        assert NodeOk(shapes, c);
        if shapes[c].key.value.text == k.text { return Some(shapes[c].slot); }
        c := shapes[c].parent.value;
      }
      return None;
    }

    method Keys(s: nat) returns (keys: seq<Key>)
      requires NodesOk(shapes) && s < |shapes|
      ensures keys == KeysOf(shapes, s)
    {
      var n := shapes[s].count;
      KeysEnd(shapes);
      hide KeysOf, NodesOk;
      var out := new Key[n](_ => Key("", 0));
      var c: nat := s;
      while shapes[c].key.Some?
        invariant c < |shapes| && shapes[c].count <= n
        invariant KeysOf(shapes, c) == KeysOf(shapes, s)[..shapes[c].count]
        invariant forall i :: shapes[c].count <= i < n ==> out[i] == KeysOf(shapes, s)[i]
        decreases c
      {
        KeysPrefix(shapes, s, c);
        out[shapes[c].slot] := shapes[c].key.value;
        c := shapes[c].parent.value;
      }
      return out[..];
    }

    method Transition(s: nat, k: Key) returns (t: nat)
      requires ShapesOk(shapes) && s < |shapes|
      modifies this`shapes
      ensures (shapes, t) == Shapes.Transition(old(shapes), s, k)
      decreases if shapes[s].shared then 2 else 0
    {
      if shapes[s].shared {
        UnshareRight(shapes, s);
        var u := Unshare(s);
        t := Transition(u, k);
        return;
      }
      if k in shapes[s].transitions { return shapes[s].transitions[k]; }
      t := |shapes|;
      shapes := shapes[s := shapes[s].(transitions := shapes[s].transitions[k := t])]
        + [Shape(Some(s), Some(k), shapes[s].count, shapes[s].count + 1, map[], false)];
    }

    method Unshare(s: nat) returns (u: nat)
      requires ShapesOk(shapes) && s < |shapes|
      modifies this`shapes
      ensures (shapes, u) == Shapes.Unshare(old(shapes), s)
      decreases 1
    {
      if !shapes[s].shared { return s; }
      var keys := Keys(s);
      u := |shapes|;
      shapes := shapes + [BLANK];
      BlankRight(old(shapes));
      ghost var first := shapes;
      assert keys[0..] == keys;
      for i := 0 to |keys|
        invariant ShapesOk(shapes) && u < |shapes| && !shapes[u].shared && KeysOf(shapes, u) == keys[..i]
        invariant ExtendAll(shapes, u, keys[i..]) == ExtendAll(first, |old(shapes)|, keys)
      {
        assert keys[i..][0] == keys[i] && keys[i..][1..] == keys[i + 1..];
        assert Shapes.Fresh(keys[..i], keys[i]);
        ExtendRight(shapes, u, keys[i]);
        u := Transition(u, keys[i]);
        assert keys[..i + 1] == keys[..i] + [keys[i]];
      }
    }

    // ---------- Objects ----------

    method GetLocal(h: Handle) returns (p: Option<nat>)
      ensures p == Overlay.GetLocal(Now(), h)
    {
      if h.Local? && 0 < h.i && base + h.i < |store| { return Some(base + h.i); }
      return None;
    }

    method Get(h: Handle) returns (p: Option<nat>)
      ensures p == Overlay.Get(Now(), h)
    {
      if h.Root? {
        if h.i in cow { p := GetLocal(Local(cow[h.i])); return; }
        if 0 < h.i < base && h.i < |store| { return Some(h.i); }
        return None;
      }
      p := GetLocal(h);
    }

    method PrepareWrite(h: Handle) returns (l: Handle)
      modifies this`store, this`cow
      ensures (Now(), l) == Overlay.PrepareWrite(old(Now()), h)
    {
      if !h.Root? { return h; }
      if h.i in cow { return Local(cow[h.i]); }
      if !(0 < h.i < base && base <= |store|) { return h; }
      var clone := store[h.i].(body := store[h.i].body.(isRoot := false));
      var local := |store| - base;
      store := store + [clone];
      cow := cow[h.i := local];
      return Local(local);
    }

    method IsDeleted(p: nat, text: string) returns (yes: bool)
      requires p < |store|
      ensures yes == Deleted(store[p].body.deleted, text)
    {
      for i := 0 to |store[p].body.deleted|
        invariant forall j :: 0 <= j < i ==> store[p].body.deleted[j].text != text
      {
        if store[p].body.deleted[i].text == text { return true; }
      }
      return false;
    }

    /** Takes a key off the list of deleted ones, by identity, and lets an array grow for an index. */
    method Revive(p: nat, k: Key)
      requires p < |store|
      modifies this`store
      ensures store == old(store)[p := old(store[p]).(body := GrowFor(old(store[p]).body.(deleted := Without(old(store[p]).body.deleted, k)), k.text))]
    {
      var ds := store[p].body.deleted;
      var alive: seq<Key> := [];
      for i := 0 to |ds|
        invariant alive == Without(ds[..i], k)
      {
        assert ds[..i + 1][..i] == ds[..i];
        if ds[i] != k { alive := alive + [ds[i]]; }
      }
      assert ds[..|ds|] == ds;
      store := store[p := store[p].(body := store[p].body.(deleted := alive))];
      if store[p].body.kind.Array? {
        var n := Atoi(k.text);
        if n.Some? && 0 <= n.value < DENSE_KEY_LIMIT {
          GrowElements(p, n.value + 1);
        }
      }
    }

    method GrowElements(p: nat, n: nat)
      requires p < |store|
      modifies this`store
      ensures store == old(store)[p := old(store[p]).(body := old(store[p]).body.(elements := Grown(old(store[p]).body.elements, n)))]
    {
      ghost var es := store[p].body.elements;
      while |store[p].body.elements| < n
        invariant p < |store| && |es| <= |store[p].body.elements| && (|es| < |store[p].body.elements| ==> |store[p].body.elements| <= n)
        invariant store[p].body.elements == Grown(es, |store[p].body.elements|)
        invariant store == old(store)[p := old(store[p]).(body := old(store[p]).body.(elements := store[p].body.elements))]
        decreases n - |store[p].body.elements|
      {
        assert Grown(es, |store[p].body.elements| + 1) == Grown(es, |store[p].body.elements|) + [Undefined];
        store := store[p := store[p].(body := store[p].body.(elements := store[p].body.elements + [Undefined]))];
      }
      assert store[p].body.elements == Grown(es, n);
    }

    /** Adds a slot under a new key. */
    method AddSlot(p: nat, k: Key, v: Value)
      requires ShapesOk(shapes) && p < |store| && store[p].shape < |shapes|
      modifies this`shapes, this`store
      ensures |store| == old(|store|) && (shapes, store[p].shape) == Shapes.Transition(old(shapes), old(store[p]).shape, k)
      ensures store == old(store)[p := Cell(store[p].shape, old(store[p]).body.(slots := old(store[p]).body.slots + [v]))]
    {
      var t := Transition(store[p].shape, k);
      store := store[p := store[p].(shape := t)];
      store := store[p := store[p].(body := store[p].body.(slots := store[p].body.slots + [v]))];
    }

    method EnsureAttrs(p: nat)
      requires p < |store|
      modifies this`store
      ensures store == old(store)[p := old(store[p]).(body := old(store[p]).body.(attrs := Padded(old(store[p]).body.attrs, |old(store[p]).body.slots|)))]
    {
      ghost var was := store[p].body.attrs;
      ghost var n := |store[p].body.slots|;
      while |store[p].body.attrs| < |store[p].body.slots|
        invariant p < |store| && |was| <= |store[p].body.attrs| && (|was| < |store[p].body.attrs| ==> |store[p].body.attrs| <= n)
        invariant store[p].body.attrs == Padded(was, |store[p].body.attrs|)
        invariant store == old(store)[p := old(store[p]).(body := old(store[p]).body.(attrs := store[p].body.attrs))]
        decreases n - |store[p].body.attrs|
      {
        assert Padded(was, |store[p].body.attrs| + 1) == Padded(was, |store[p].body.attrs|) + [DEFAULT];
        store := store[p := store[p].(body := store[p].body.(attrs := store[p].body.attrs + [DEFAULT]))];
      }
      assert store[p].body.attrs == Padded(was, n);
    }

    ghost predicate Writable(p: nat)
      reads this
    {
      Valid(Now()) && base <= p < |store|
    }

    method SetProperty(h: Handle, text: string, v: Value)
      requires Valid(Now())
      modifies this`shapes, this`store, this`cow
      ensures Now() == Write(old(Now()), h, Op.SetProperty(text, v))
    {
      Prepared(Now(), h);
      var l := PrepareWrite(h);
      var p := GetLocal(l);
      if p.Some? { SetAt(p.value, Key(text, table), v); }
    }

    method SetAt(p: nat, k: Key, v: Value)
      requires Writable(p) && k.table == table
      modifies this`shapes, this`store
      ensures Now() == Put(old(Now()), p, Apply(ObjectAt(old(Now()), p), Op.SetProperty(k.text, v), table))
    {
      PutSet(Now(), p, k, v);
      hide Put, Valid, ShapesOk, NodesOk, Shapes.Transition, Shapes.Lookup, GrowFor, ObjectAt, Without, Apply;
      var slot := Lookup(store[p].shape, k);
      Revive(p, k);
      if slot.Some? {
        if !SlotAttr(p, slot.value).writable { return; }
        store := store[p := store[p].(body := store[p].body.(slots := store[p].body.slots[slot.value := v]))];
      } else {
        AddSlot(p, k, v);
      }
    }

    function SlotAttr(p: nat, i: nat): Attrs
      requires p < |store|
      reads this`store
    {
      if i < |store[p].body.attrs| then store[p].body.attrs[i] else DEFAULT
    }

    method DefineDataProperty(h: Handle, text: string, v: Value, attrs: Attrs)
      requires Valid(Now())
      modifies this`shapes, this`store, this`cow
      ensures Now() == Write(old(Now()), h, DefineData(text, v, attrs))
    {
      Prepared(Now(), h);
      var l := PrepareWrite(h);
      var p := GetLocal(l);
      if p.Some? { DefineAt(p.value, Key(text, table), v, attrs); }
    }

    method DefineAt(p: nat, k: Key, v: Value, attrs: Attrs)
      requires Writable(p) && k.table == table
      modifies this`shapes, this`store
      ensures Now() == Put(old(Now()), p, Apply(ObjectAt(old(Now()), p), DefineData(k.text, v, attrs), table))
    {
      PutDefine(Now(), p, k, v, attrs);
      hide Put, Valid, ShapesOk, NodesOk, Shapes.Transition, Shapes.Lookup, GrowFor, ObjectAt, Without, Padded, Apply;
      var slot := Lookup(store[p].shape, k);
      Revive(p, k);
      if slot.Some? { Redefine(p, slot.value, v, attrs); } else { DefineNew(p, k, v, attrs); }
    }

    method Redefine(p: nat, slot: nat, v: Value, attrs: Attrs)
      requires p < |store| && slot < |store[p].body.slots|
      modifies this`store
      ensures var b := old(store[p]).body;
        store == old(store)[p := old(store[p]).(body := b.(slots := b.slots[slot := v], attrs := Padded(b.attrs, |b.slots|)[slot := attrs]))]
    {
      store := store[p := store[p].(body := store[p].body.(slots := store[p].body.slots[slot := v]))];
      EnsureAttrs(p);
      store := store[p := store[p].(body := store[p].body.(attrs := store[p].body.attrs[slot := attrs]))];
    }

    method DefineNew(p: nat, k: Key, v: Value, attrs: Attrs)
      requires ShapesOk(shapes) && p < |store| && store[p].shape < |shapes| && |store[p].body.attrs| <= |store[p].body.slots|
      modifies this`shapes, this`store
      ensures |store| == old(|store|) && (shapes, store[p].shape) == Shapes.Transition(old(shapes), old(store[p]).shape, k)
      ensures var b := old(store[p]).body;
        store == old(store)[p := Cell(store[p].shape, b.(slots := b.slots + [v], attrs := Padded(b.attrs, |b.slots| + 1)[|b.slots| := attrs]))]
    {
      hide ShapesOk, Shapes.Transition, Padded;
      AddSlot(p, k, v);
      EnsureAttrs(p);
      var last := |store[p].body.slots| - 1;
      store := store[p := store[p].(body := store[p].body.(attrs := store[p].body.attrs[last := attrs]))];
    }

    method DeleteProperty(h: Handle, text: string) returns (done: bool)
      requires Valid(Now())
      modifies this`shapes, this`store, this`cow
      ensures Now() == Write(old(Now()), h, Delete(text))
      ensures done <==> Overlay.Get(old(Now()), h).Some? && Properties.DeleteProperty(Seen(old(Now()), h), Key(text, table)).0
    {
      Prepared(Now(), h);
      var l := PrepareWrite(h);
      var p := GetLocal(l);
      if p.None? { return false; }
      done := DeleteAt(p.value, Key(text, table));
    }

    method DeleteAt(p: nat, k: Key) returns (done: bool)
      requires Writable(p) && k.table == table
      modifies this`store
      ensures Now() == Put(old(Now()), p, Apply(ObjectAt(old(Now()), p), Delete(k.text), table))
      ensures done == Properties.DeleteProperty(ObjectAt(old(Now()), p), k).0
    {
      PutDelete(Now(), p, k);
      hide Put, Valid, ShapesOk, NodesOk, CellOk, Shapes.Transition, Shapes.Lookup, GrowFor, ObjectAt, Without, Padded,
           Unique, Apply, Properties.DeleteProperty;
      if store[p].body.frozen { return false; }
      var gone := IsDeleted(p, k.text);
      if gone { return true; }
      var slot := Lookup(store[p].shape, k);
      if slot.Some? {
        if !SlotAttr(p, slot.value).configurable { return false; }
        store := store[p := store[p].(body := store[p].body.(slots := store[p].body.slots[slot.value := Undefined]))];
      }
      store := store[p := store[p].(body := store[p].body.(deleted := store[p].body.deleted + [k]))];
      ClearElement(p, k.text);
      return true;
    }

    method ClearElement(p: nat, text: string)
      requires p < |store|
      modifies this`store
      ensures store == old(store)[p := old(store[p]).(body := WithoutElement(old(store[p]).body, text))]
    {
      if store[p].body.kind.Array? {
        var n := Atoi(text);
        if n.Some? && 0 <= n.value < |store[p].body.elements| {
          store := store[p := store[p].(body := store[p].body.(elements := store[p].body.elements[n.value := Undefined]))];
        }
      }
    }

    method SetPropertyAttrs(h: Handle, text: string, attrs: Attrs)
      requires Valid(Now())
      modifies this`shapes, this`store, this`cow
      ensures Now() == Write(old(Now()), h, SetAttrs(text, attrs))
    {
      Prepared(Now(), h);
      var l := PrepareWrite(h);
      var p := GetLocal(l);
      if p.Some? { AttrsAt(p.value, Key(text, table), attrs); }
    }

    method AttrsAt(p: nat, k: Key, attrs: Attrs)
      requires Writable(p) && k.table == table
      modifies this`store
      ensures Now() == Put(old(Now()), p, Apply(ObjectAt(old(Now()), p), SetAttrs(k.text, attrs), table))
    {
      assert CellOk(Now(), p);
      PutIs(Now(), p, Apply(ObjectAt(Now(), p), SetAttrs(k.text, attrs), table));
      LookupIs(shapes, store[p].shape, k);
      assert ShapesOk(shapes) && NodesOk(shapes);
      hide Put, Valid, ShapesOk, NodesOk, CellOk, Shapes.Transition, Shapes.Lookup, GrowFor, ObjectAt, Without, Padded,
           Unique;
      var slot := Lookup(store[p].shape, k);
      if slot.None? { return; }
      EnsureAttrs(p);
      store := store[p := store[p].(body := store[p].body.(attrs := store[p].body.attrs[slot.value := attrs]))];
    }

    method SetProto(h: Handle, proto: Handle)
      requires Valid(Now())
      modifies this`store, this`cow
      ensures Now() == Write(old(Now()), h, Op.SetProto(proto))
    {
      Prepared(Now(), h);
      var l := PrepareWrite(h);
      var p := GetLocal(l);
      if p.Some? {
        assert CellOk(Now(), p.value);
        PutIs(Now(), p.value, Apply(ObjectAt(Now(), p.value), Op.SetProto(proto), table));
        hide Put, Valid, CellOk, ObjectAt;
        store := store[p.value := store[p.value].(body := store[p.value].body.(proto := proto))];
      }
    }

    method SetElement(h: Handle, i: int, v: Value)
      requires Valid(Now())
      modifies this`store, this`cow
      ensures Now() == Write(old(Now()), h, Op.SetElement(i, v))
    {
      Prepared(Now(), h);
      var l := PrepareWrite(h);
      var p := GetLocal(l);
      if p.Some? { SetElementAt(p.value, i, v); }
    }

    method SetElementAt(p: nat, i: int, v: Value)
      requires Writable(p)
      modifies this`store
      ensures Now() == Put(old(Now()), p, Apply(ObjectAt(old(Now()), p), Op.SetElement(i, v), table))
    {
      assert CellOk(Now(), p);
      PutIs(Now(), p, Apply(ObjectAt(Now(), p), Op.SetElement(i, v), table));
      hide Put, Valid, ShapesOk, NodesOk, CellOk, ObjectAt, Unique, Grown;
      if i < 0 { return; }
      GrowElements(p, i + 1);
      store := store[p := store[p].(body := store[p].body.(elements := store[p].body.elements[i := v]))];
    }

    // ---------- Integrity levels ----------

    method PreventExtensions(h: Handle)
      requires Valid(Now())
      modifies this`store, this`cow
      ensures Now() == Write(old(Now()), h, Op.PreventExtensions)
    {
      Prepared(Now(), h);
      var l := PrepareWrite(h);
      var p := GetLocal(l);
      if p.Some? {
        PutIs(Now(), p.value, Apply(ObjectAt(Now(), p.value), Op.PreventExtensions, table));
        hide Put, Valid, ObjectAt;
        store := store[p.value := store[p.value].(body := store[p.value].body.(frozen := true))];
      }
    }

    method Freeze(h: Handle)
      requires Valid(Now())
      modifies this`store, this`cow
      ensures Now() == Write(old(Now()), h, Op.Freeze)
    {
      Prepared(Now(), h);
      var l := PrepareWrite(h);
      var p := GetLocal(l);
      if p.Some? { FreezeAt(p.value); }
    }

    method FreezeAt(p: nat)
      requires Writable(p)
      modifies this`store
      ensures Now() == Put(old(Now()), p, Apply(ObjectAt(old(Now()), p), Op.Freeze, table))
    {
      assert CellOk(Now(), p);
      PutIs(Now(), p, Apply(ObjectAt(Now(), p), Op.Freeze, table));
      hide Put, Valid, ShapesOk, NodesOk, CellOk, ObjectAt, Padded, Unique, FreezeAttrs;
      store := store[p := store[p].(body := store[p].body.(frozen := true))];
      EnsureAttrs(p);
      FreezeSlots(p);
    }

    method FreezeSlots(p: nat)
      requires p < |store| && |store[p].body.attrs| == |store[p].body.slots|
      modifies this`store
      ensures var b := old(store[p]).body; store == old(store)[p := old(store[p]).(body := b.(attrs := FreezeAttrs(b.slots, b.attrs)))]
    {
      ghost var b := store[p].body;
      ghost var goal := FreezeAttrs(b.slots, b.attrs);
      for i := 0 to |store[p].body.attrs|
        invariant p < |store| && |store[p].body.attrs| == |b.attrs|
        invariant store == old(store)[p := old(store[p]).(body := b.(attrs := store[p].body.attrs))]
        invariant forall j :: 0 <= j < |b.attrs| ==> store[p].body.attrs[j] == if j < i then goal[j] else b.attrs[j]
      {
        var a := store[p].body.attrs[i];
        if store[p].body.slots[i].Accessor? { a := a.(configurable := false); }
        else { a := a.(writable := false, configurable := false); }
        store := store[p := store[p].(body := store[p].body.(attrs := store[p].body.attrs[i := a]))];
      }
      assert store[p].body.attrs == goal;
    }

    method Seal(h: Handle)
      requires Valid(Now())
      modifies this`store, this`cow
      ensures Now() == Write(old(Now()), h, Op.Seal)
    {
      Prepared(Now(), h);
      var l := PrepareWrite(h);
      var p := GetLocal(l);
      if p.Some? { SealAt(p.value); }
    }

    method SealAt(p: nat)
      requires Writable(p)
      modifies this`store
      ensures Now() == Put(old(Now()), p, Apply(ObjectAt(old(Now()), p), Op.Seal, table))
    {
      assert CellOk(Now(), p);
      PutIs(Now(), p, Apply(ObjectAt(Now(), p), Op.Seal, table));
      hide Put, Valid, ShapesOk, NodesOk, CellOk, ObjectAt, Padded, Unique, SealAttrs;
      store := store[p := store[p].(body := store[p].body.(frozen := true))];
      EnsureAttrs(p);
      SealSlots(p);
    }

    method SealSlots(p: nat)
      requires p < |store|
      modifies this`store
      ensures var b := old(store[p]).body; store == old(store)[p := old(store[p]).(body := b.(attrs := SealAttrs(b.attrs)))]
    {
      ghost var b := store[p].body;
      ghost var goal := SealAttrs(b.attrs);
      for i := 0 to |store[p].body.attrs|
        invariant p < |store| && |store[p].body.attrs| == |b.attrs|
        invariant store == old(store)[p := old(store[p]).(body := b.(attrs := store[p].body.attrs))]
        invariant forall j :: 0 <= j < |b.attrs| ==> store[p].body.attrs[j] == if j < i then goal[j] else b.attrs[j]
      {
        store := store[p := store[p].(body := store[p].body.(attrs := store[p].body.attrs[i := store[p].body.attrs[i].(configurable := false)]))];
      }
      assert store[p].body.attrs == goal;
    }

    // ---------- Object.defineProperty ----------

    method GetOwnProperty(h: Handle, text: string) returns (r: Option<Property>)
      requires Valid(Now()) && Overlay.Get(Now(), h).Some?
      ensures r == Own(Seen(Now(), h), text)
    {
      var p := Get(h);
      PutIs(Now(), p.value, ObjectAt(Now(), p.value));
      var k := Key(text, table);
      LookupIs(shapes, store[p.value].shape, k);
      hide Put, Valid;
      var gone := IsDeleted(p.value, text);
      if gone { return None; }
      var slot := Lookup(store[p.value].shape, k);
      if slot.None? { return None; }
      return Some(Property(store[p.value].body.slots[slot.value], SlotAttr(p.value, slot.value)));
    }

    /** The cell a property is an accessor in, and what it holds. */
    method ReadCell(p: Option<Property>) returns (c: Option<Handle>, fs: Functions)
      requires Valid(Now())
      ensures c == CellAt(View(Now()), ValueOf(p)) && fs == FunctionsAt(View(Now()), c)
    {
      c, fs := None, NO_FUNCTIONS;
      if p.Some? && p.value.value.Accessor? {
        var at := Get(p.value.value.cell);
        if at.Some? && store[at.value].body.kind.AccessorKind? {
          assert View(Now())[p.value.value.cell].body.elements == store[at.value].body.elements;
          c := Some(p.value.value.cell);
          var es := store[at.value].body.elements;
          fs := Functions(if |es| > 0 then es[0] else Undefined, if |es| > 1 then es[1] else Undefined);
        }
      }
    }

    /** On an ordinary object: refused with nothing written, or done on the object and the cell it holds. */
    method DefineFromDesc(h: Handle, text: string, d: Desc) returns (err: Option<Reason>)
      requires Valid(Now()) && h in View(Now()) && Seen(Now(), h).body.kind.Ordinary?
      modifies this`shapes, this`store, this`cow
      ensures Now() == Do(old(Now()), Define(h, text, d)) && RealmKept(old(Now()), Now())
      ensures var r := Defined(old(Now()), h, text, d); err == if r.TypeError? then Some(r.reason) else None
    {
      ghost var s := Now();
      SeenOk(s, h);
      DefinedFrom(s, h, text, d);
      hide Valid, Seen, View, Own, Overlay.Get, Write, Descriptors.DefineFromDesc, Defined, NewAttrs, Do,
           CellAt, FunctionsAt, Act, Acts, CellMoves, InstallMoves, RealmKept, DefinedCell, DataMove, AttrsDefined, CellHeld, Filled;
      DefineIs(s, h, text, d);
      DoKeepsRealm(s, Define(h, text, d));
      var p := GetOwnProperty(h, text);
      var c, was := ReadCell(p);
      err := Refused(h, text, p, was, d, DefinedCell(s, h, text));
      if err.Some? { return; }
      var attrs := NewAttrs(p, d);
      if d.getter.Some? || d.setter.Some? {
        Install(h, text, c, was, d, attrs);
      } else {
        ActIs(Now(), DataMove(s, h, text, d));
        DefineDataProperty(h, text, OrElse(d.value, if p.Some? then p.value.value else Undefined), attrs);
      }
      return None;
    }

    /** The refusals, in their order. */
    method Refused(h: Handle, text: string, p: Option<Property>, was: Functions, d: Desc, ghost cell: Handle) returns (err: Option<Reason>)
      requires Valid(Now()) && h in View(Now()) && Ok(Seen(Now(), h)) && p == Own(Seen(Now(), h), text)
      ensures var r := Descriptors.DefineFromDesc(Seen(Now(), h), Key(text, table), d, was, cell);
        err == if r.TypeError? then Some(r.reason) else None
    {
      hide Valid, Seen, View, Own, Descriptors.Refusal, Descriptors.Malformed, NewAttrs;
      var malformed := Descriptors.Malformed(d);
      if malformed.Some? { return malformed; }
      var extensible := Extensible(h);
      if p.None? && !extensible { return Some(NotExtensible); }
      if p.Some? && !p.value.attrs.configurable {
        var refused := Descriptors.Refusal(p.value, d, was);
        if refused.Some? { return refused; }
      }
      return None;
    }

    /** The functions go to the cell there is, prepared for writing, or to a new one; the property gets its handle. */
    method Install(h: Handle, text: string, c: Option<Handle>, was: Functions, d: Desc, attrs: Attrs)
      requires Valid(Now()) && h in View(Now()) && (d.getter.Some? || d.setter.Some?)
      requires c == CellHeld(Now(), h, text) && was == FunctionsAt(View(Now()), c)
      modifies this`shapes, this`store, this`cow
      ensures Now() == Acts(Acts(old(Now()), CellMoves(old(Now()), h, text, d, Filled(was, d))),
                            InstallMoves(h, text, DefinedCell(old(Now()), h, text), attrs))
    {
      ghost var s := Now();
      HeldInView(s, h, text);
      hide Valid, View, Overlay.Get, Write, Act, Acts, FunctionsAt, CellHeld;
      var cell: Handle;
      if c.Some? {
        cell := FillCell(c.value, d);
      } else {
        ActIs(s, Make(CellOf(Filled(was, d))));
        OneMove(s, Make(CellOf(Filled(was, d))));
        cell := NewObject(CellOf(Filled(was, d)));
      }
      ghost var s1 := Now();
      TwoMoves(s1, On(h, Op.SetProperty(text, Accessor(cell))), On(h, SetAttrs(text, attrs.(writable := false))));
      ActIs(s1, On(h, Op.SetProperty(text, Accessor(cell))));
      SetProperty(h, text, Accessor(cell));
      ActIs(Now(), On(h, SetAttrs(text, attrs.(writable := false))));
      SetPropertyAttrs(h, text, attrs.(writable := false));
    }

    method FillCell(c: Handle, d: Desc) returns (cell: Handle)
      requires Valid(Now()) && c in View(Now()) && (d.getter.Some? || d.setter.Some?)
      modifies this`store, this`cow
      ensures Now() == Acts(old(Now()), FillMoves(c, d)) && cell == Through(NamesOf(old(Now())), c)
    {
      ghost var s := Now();
      FillThrough(s, c, d);
      PrepareValid(s, c);
      hide Valid, View, Overlay.Get, Write, Act, Acts, FillMoves, Through;
      cell := PrepareWrite(c);
      if d.getter.Some? {
        WriteValid(Now(), cell, Op.SetElement(0, d.getter.value));
        SetElement(cell, 0, d.getter.value);
      }
      if d.setter.Some? { SetElement(cell, 1, d.setter.value); }
    }

    // ---------- Literals ----------

    /** An accessor of a literal or a class: the cell that is found is written as it is. */
    method DefineAccessor(h: Handle, text: string, f: Value, setter: bool)
      requires Valid(Now())
      modifies this`shapes, this`store, this`cow
      ensures Now() == Do(old(Now()), Literal(h, text, f, setter))
    {
      ghost var s := Now();
      LiteralDo(s, h, text, f, setter);
      hide Valid, View, Write, Act, Acts, Do, CellOfLiteral, Bound;
      var p := Get(h);
      if p.None? { return; }
      PlaceOf(s, h);
      var v := BoundAt(p.value, Key(text, table));
      if v.Some? && v.value.Accessor? {
        var at := Get(v.value.cell);
        if at.Some? {
          PlaceOf(s, v.value.cell);
          if store[at.value].body.kind.AccessorKind? { SetFunctionAt(v.value.cell, f, setter); return; }
        }
      }
      ActIs(s, Make(CellOf(NO_FUNCTIONS)));
      var cell := NewObject(CellOf(NO_FUNCTIONS));
      ActIs(Now(), On(h, Op.SetProperty(text, Accessor(cell))));
      SetProperty(h, text, Accessor(cell));
      ActIs(Now(), Poke(cell, SetFunction(f, setter)));
      SetFunctionAt(cell, f, setter);
    }

    method SetFunctionAt(c: Handle, f: Value, setter: bool)
      modifies this`store
      ensures Now() == WriteDirect(old(Now()), c, SetFunction(f, setter))
    {
      var p := Get(c);
      if p.None? || p.value >= |store| { return; }
      if |store[p.value].body.elements| < 2 {
        store := store[p.value := store[p.value].(body := store[p.value].body.(elements := [Undefined, Undefined]))];
      }
      store := store[p.value := store[p.value].(body := store[p.value].body.(elements :=
        store[p.value].body.elements[(if setter then 1 else 0) := f]))];
    }

    /** One key of a spread: the value is read along the prototypes, and written as it is. */
    method CopyProperty(dest: Handle, src: Handle, text: string)
      requires Valid(Now()) && src in View(Now()) && Listed(Seen(Now(), src), text)
      modifies this`shapes, this`store, this`cow
      ensures Now() == Do(old(Now()), Copy(dest, src, text))
    {
      ghost var s := Now();
      CopyDo(s, dest, src, text);
      hide Valid, View, Write, Act, Acts, Do, Walk;
      var v := GetProperty(src, text);
      if v.Some? {
        ActIs(s, On(dest, Op.SetProperty(text, v.value)));
        SetProperty(dest, text, v.value);
      }
    }

    method Extensible(h: Handle) returns (yes: bool)
      requires Valid(Now()) && Overlay.Get(Now(), h).Some?
      ensures yes == !Seen(Now(), h).body.frozen
    {
      var p := Get(h);
      PutIs(Now(), p.value, ObjectAt(Now(), p.value));
      return !store[p.value].body.frozen;
    }

    // ---------- Objects and constructors ----------

    method NewObject(made: Made) returns (h: Handle)
      requires Valid(Now())
      modifies this`store
      ensures (Now(), h) == New(old(Now()), made)
    {
      h := Local(|store| - base);
      store := store + [Cell(rootShape, NewBody(made))];
    }

    /** A built-in constructor on its receiver: the object is looked up, not prepared for writing. */
    method Construct(h: Handle, role: Role)
      modifies this`store
      ensures Now() == WriteDirect(old(Now()), h, Direct.Construct(role))
    {
      var p := Get(h);
      if p.None? || p.value >= |store| { return; }
      store := store[p.value := store[p.value].(body := store[p.value].body.(kind := role.kind, inner := role.inner))];
      if role.proto.Some? {
        store := store[p.value := store[p.value].(body := store[p.value].body.(proto := role.proto.value))];
      }
    }

    method DiscardCow()
      modifies this`cow
      ensures Now() == Overlay.DiscardCow(old(Now()))
    {
      cow := map[];
    }

    // ---------- Reading ----------

    method BoundAt(p: nat, k: Key) returns (v: Option<Value>)
      requires Valid(Now()) && p < |store|
      ensures v == Bound(ObjectAt(Now(), p), k.text)
    {
      assert CellOk(Now(), p);
      var gone := IsDeleted(p, k.text);
      if gone { return None; }
      var slot := Lookup(store[p].shape, k);
      LookupIs(shapes, store[p].shape, k);
      if slot.Some? { return Some(store[p].body.slots[slot.value]); }
      if store[p].body.kind.Array? {
        var n := ArrayIndexKey(k.text);
        if n.Some? && n.value < |store[p].body.elements| { return Some(store[p].body.elements[n.value]); }
      }
      return None;
    }

    method GetProperty(h: Handle, text: string) returns (v: Option<Value>)
      requires Valid(Now())
      ensures v == OverlayRuns.GetProperty(Now(), h, text)
    {
      hide Valid, View, Walk, Bound;
      ViewOk(Now());
      ghost var m := View(Now());
      var cur, guard: nat := h, |store| + 1;
      while cur != NoHandle && guard > 0
        invariant Walk(m, cur, text, guard) == Walk(m, h, text, |store| + 1)
        decreases guard
      {
        WalkOnce(Now(), cur, text, guard);
        var p := Get(cur);
        if p.None? { return None; }
        v := BoundAt(p.value, Key(text, table));
        if v.Some? { return; }
        cur := store[p.value].body.proto;
        guard := guard - 1;
      }
      WalkEnds(Now(), cur, text, guard);
      return None;
    }
  }

  lemma ActIs(s: Heap, mv: Move)
    requires Valid(s)
    ensures Valid(Act(s, mv))
    ensures Act(s, mv) == match mv { case On(h, op) => Write(s, h, op) case Make(made) => New(s, made).0 case Poke(h, d) => WriteDirect(s, h, d) }
  {}

  /** Writing a cell through the handle it was prepared under is writing the cell. */
  lemma WritePrepared(s: Heap, c: Handle, op: Op)
    requires Valid(s) && c in View(s)
    ensures var (s1, l) := Overlay.PrepareWrite(s, c);
      Valid(s1) && Write(s1, l, op) == Write(s, c, op) && l == Through(NamesOf(s), c) && l.Local?
  {
    PrepareValid(s, c);
    hide Valid;
  }

  lemma PreparedAgain(s: Heap, c: Handle, op: Op)
    requires Valid(s) && c in View(s)
    ensures var s1 := Write(s, c, op); Valid(s1) && c in View(s1) && Overlay.PrepareWrite(s1, c) == (s1, Through(NamesOf(s), c))
  {
    WriteValid(s, c, op);
    WriteSeen(s, c, op, c);
    PrepareSame(s, c);
    PrepareValid(s, c);
    WriteFrame(s, c, op);
    hide Valid, Write;
  }

  lemma WriteFrame(s: Heap, c: Handle, op: Op)
    requires Valid(s)
    ensures Write(s, c, op).cow == Overlay.PrepareWrite(s, c).0.cow && Write(s, c, op).base == s.base
  {
    PrepareValid(s, c);
    PrepareKeepsRealm(s, c);
    PrepareSame(s, c);
    hide Apply, Put, Valid, Overlay.PrepareWrite, Overlay.Get, ShapesOk;
    var (s1, l) := Overlay.PrepareWrite(s, c);
    if Overlay.GetLocal(s1, l).Some? {
      var p := Overlay.GetLocal(s1, l).value;
      PutFrame(s1, p, Apply(ObjectAt(s1, p), op, s.table));
    }
  }

  /** The cell is prepared once, and its fields written through the handle of what was prepared. */
  lemma FillThrough(s: Heap, c: Handle, d: Desc)
    requires Valid(s) && c in View(s) && (d.getter.Some? || d.setter.Some?)
    ensures var (s1, l) := Overlay.PrepareWrite(s, c);
      && Valid(s1) && l == Through(NamesOf(s), c)
      && var s2 := if d.getter.Some? then Write(s1, l, Op.SetElement(0, d.getter.value)) else s1;
      && Valid(s2)
      && Acts(s, FillMoves(c, d)) == if d.setter.Some? then Write(s2, l, Op.SetElement(1, d.setter.value)) else s2
  {
    hide Valid, Write, View, Overlay.PrepareWrite, Through, Overlay.Get;
    ActsAppend(s, FieldMove(c, 0, d.getter), FieldMove(c, 1, d.setter));
    var (s1, l) := Overlay.PrepareWrite(s, c);
    if d.getter.Some? {
      var op := Op.SetElement(0, d.getter.value);
      WritePrepared(s, c, op);
      OneMove(s, On(c, op));
      PreparedAgain(s, c, op);
      if d.setter.Some? {
        WritePrepared(Write(s, c, op), c, Op.SetElement(1, d.setter.value));
        OneMove(Write(s, c, op), On(c, Op.SetElement(1, d.setter.value)));
      }
    } else {
      WritePrepared(s, c, Op.SetElement(1, d.setter.value));
      OneMove(s, On(c, Op.SetElement(1, d.setter.value)));
    }
  }

  lemma PlaceOf(s: Heap, h: Handle)
    requires Valid(s) && Overlay.Get(s, h).Some?
    ensures Overlay.Get(s, h).value < |s.store| && Ok(Seen(s, h))
    ensures forall text :: Bound(ObjectAt(s, Overlay.Get(s, h).value), text) == Bound(Seen(s, h), text)
    ensures Seen(s, h).body.kind == s.store[Overlay.Get(s, h).value].body.kind
  {}

  lemma LiteralDo(s: Heap, h: Handle, text: string, f: Value, setter: bool)
    requires Valid(s)
    ensures var (c, n, r) := (CellOfLiteral(s, h, text), NamesOf(s).next, Do(s, Literal(h, text, f, setter)));
      if Overlay.Get(s, h).None? then r == s
      else if c.Some? then r == WriteDirect(s, c.value, SetFunction(f, setter))
      else r == Act(Act(Act(s, Make(CellOf(NO_FUNCTIONS))), On(h, Op.SetProperty(text, Accessor(n)))), Poke(n, SetFunction(f, setter)))
  {
    LiteralIs(s, h, text, f, setter);
    var (c, n) := (CellOfLiteral(s, h, text), NamesOf(s).next);
    if c.Some? { OneMove(s, Poke(c.value, SetFunction(f, setter))); }
    ThreeMoves(s, Make(CellOf(NO_FUNCTIONS)), On(h, Op.SetProperty(text, Accessor(n))), Poke(n, SetFunction(f, setter)));
    hide Valid, Write, WriteDirect, LiteralMoves;
  }

  lemma CopyMoves(s: Heap, dest: Handle, src: Handle, text: string)
    requires Valid(s) && src in View(s) && Ok(Seen(s, src)) && Listed(Seen(s, src), text)
    ensures AllOk(View(s))
    ensures var v := OverlayRuns.GetProperty(s, src, text);
      Moves(View(s), Copy(dest, src, text), NamesOf(s)) == if v.Some? then [On(dest, Op.SetProperty(text, v.value))] else []
  {
    hide Valid, Walk, Listed, Seen, LiteralMoves, DefineMoves, AllOk;
    ViewOk(s);
    var m := View(s);
    assert src in m && m[src] == Seen(s, src);
    assert OverlayRuns.GetProperty(s, src, text) == Walk(m, src, text, NamesOf(s).guard);
  }

  lemma CopyDo(s: Heap, dest: Handle, src: Handle, text: string)
    requires Valid(s) && src in View(s) && Ok(Seen(s, src)) && Listed(Seen(s, src), text)
    ensures var v := OverlayRuns.GetProperty(s, src, text);
      Do(s, Copy(dest, src, text)) == if v.Some? then Act(s, On(dest, Op.SetProperty(text, v.value))) else s
  {
    hide Valid, Walk, Act, Listed, Moves, Seen, OverlayRuns.GetProperty;
    CopyMoves(s, dest, src, text);
    var v := OverlayRuns.GetProperty(s, src, text);
    if v.Some? { OneMove(s, On(dest, Op.SetProperty(text, v.value))); }
  }

  /** What a definition comes to, from the parts its method works with. */
  lemma DefinedFrom(s: Heap, h: Handle, text: string, d: Desc)
    requires Valid(s) && h in View(s) && Ok(Seen(s, h))
    ensures var (p, c, r) := (Own(Seen(s, h), text), CellHeld(s, h, text), Defined(s, h, text, d));
      && c == CellAt(View(s), ValueOf(p))
      && r == Descriptors.DefineFromDesc(Seen(s, h), Key(text, s.table), d, FunctionsAt(View(s), c), DefinedCell(s, h, text))
      && (r.Done? ==> r.functions == if d.getter.Some? || d.setter.Some? then Some(Filled(FunctionsAt(View(s), c), d)) else None)
      && AttrsDefined(s, h, text, d) == NewAttrs(p, d)
      && DataMove(s, h, text, d) == On(h, DefineData(text, OrElse(d.value, if p.Some? then p.value.value else Undefined), NewAttrs(p, d)))
  {
    hide Valid, Seen, Own, Descriptors.Malformed, Descriptors.Refusal, NewAttrs, Properties.SetProperty, Properties.SetPropertyAttrs,
         Properties.DefineDataProperty;
  }

  lemma HeldInView(s: Heap, h: Handle, text: string)
    requires Valid(s) && h in View(s)
    ensures CellHeld(s, h, text).Some? ==> CellHeld(s, h, text).value in View(s)
  {
    hide Valid, Seen, Own;
  }

  /** What a property write stores, at the slot the key has or a new one. */
  lemma PutSet(s: Heap, p: nat, k: Key, v: Value)
    requires Valid(s) && p >= s.base && p < |s.store| && k.table == s.table
    ensures s.store[p].shape < |s.shapes| && NodesOk(s.shapes) && ShapesOk(s.shapes)
    ensures var c := s.store[p];
      var b := GrowFor(c.body.(deleted := Without(c.body.deleted, k)), k.text);
      var slot := Shapes.Lookup(s.shapes, c.shape, k);
      var s1 := Put(s, p, Apply(ObjectAt(s, p), Op.SetProperty(k.text, v), s.table));
      && |b.attrs| <= |b.slots| && (slot.Some? ==>
          && slot.value < |b.slots|
          && s1 == s.(store := s.store[p := c.(body := if AttrAt(b.attrs, slot.value).writable then b.(slots := b.slots[slot.value := v]) else b)]))
      && (slot.None? ==>
          var (ns, t) := Shapes.Transition(s.shapes, c.shape, k);
          s1 == s.(shapes := ns, store := s.store[p := Cell(t, b.(slots := b.slots + [v]))]))
  {
    assert CellOk(s, p);
    PutIs(s, p, Apply(ObjectAt(s, p), Op.SetProperty(k.text, v), s.table));
    LookupIs(s.shapes, s.store[p].shape, k);
    hide Put, ShapesOk, NodesOk, CellOk, Shapes.Transition, Shapes.Lookup, GrowFor, Without, Unique;
  }

  /** What a definition writes, at the slot the key has or a new one. */
  lemma PutDefine(s: Heap, p: nat, k: Key, v: Value, attrs: Attrs)
    requires Valid(s) && p >= s.base && p < |s.store| && k.table == s.table
    ensures s.store[p].shape < |s.shapes| && NodesOk(s.shapes) && ShapesOk(s.shapes)
    ensures var c := s.store[p];
      var b := GrowFor(c.body.(deleted := Without(c.body.deleted, k)), k.text);
      var slot := Shapes.Lookup(s.shapes, c.shape, k);
      var s1 := Put(s, p, Apply(ObjectAt(s, p), DefineData(k.text, v, attrs), s.table));
      && |b.attrs| <= |b.slots| && (slot.Some? ==>
          && slot.value < |b.slots|
          && s1 == s.(store := s.store[p := c.(body := b.(slots := b.slots[slot.value := v],
                                                          attrs := Padded(b.attrs, |b.slots|)[slot.value := attrs]))]))
      && (slot.None? ==>
          var (ns, t) := Shapes.Transition(s.shapes, c.shape, k);
          s1 == s.(shapes := ns, store := s.store[p := Cell(t, b.(slots := b.slots + [v], attrs := Padded(b.attrs, |b.slots| + 1)[|b.slots| := attrs]))]))
  {
    assert CellOk(s, p);
    PutIs(s, p, Apply(ObjectAt(s, p), DefineData(k.text, v, attrs), s.table));
    LookupIs(s.shapes, s.store[p].shape, k);
    hide Put, ShapesOk, NodesOk, CellOk, Shapes.Transition, Shapes.Lookup, GrowFor, Without, Padded, Unique;
  }

  function WithoutElement(b: Body, text: string): Body {
    var n := Atoi(text);
    if b.kind.Array? && n.Some? && 0 <= n.value < |b.elements| then b.(elements := b.elements[n.value := Undefined]) else b
  }

  /** What a deletion writes: the value goes, the key is listed as deleted. */
  lemma PutDelete(s: Heap, p: nat, k: Key)
    requires Valid(s) && p >= s.base && p < |s.store| && k.table == s.table
    ensures s.store[p].shape < |s.shapes| && NodesOk(s.shapes) && ShapesOk(s.shapes)
    ensures var c := s.store[p];
      var slot := Shapes.Lookup(s.shapes, c.shape, k);
      var r := Properties.DeleteProperty(ObjectAt(s, p), k);
      var s1 := Put(s, p, Apply(ObjectAt(s, p), Delete(k.text), s.table));
      && (slot.Some? ==> slot.value < |c.body.slots|)
      && if c.body.frozen || Deleted(c.body.deleted, k.text) || (slot.Some? && !AttrAt(c.body.attrs, slot.value).configurable) then
           s1 == s && r.0 == (!c.body.frozen && Deleted(c.body.deleted, k.text))
         else
           var b := c.body.(slots := if slot.Some? then c.body.slots[slot.value := Undefined] else c.body.slots,
                            deleted := c.body.deleted + [k]);
           r.0 && s1 == s.(store := s.store[p := c.(body := WithoutElement(b, k.text))])
  {
    assert CellOk(s, p);
    PutIs(s, p, Apply(ObjectAt(s, p), Delete(k.text), s.table));
    LookupIs(s.shapes, s.store[p].shape, k);
    hide Put, ShapesOk, NodesOk, CellOk, Shapes.Transition, Shapes.Lookup, Unique;
  }

  /** One turn of the walk, at the place the handle names. */
  lemma WalkOnce(s: Heap, h: Handle, text: string, guard: nat)
    requires Valid(s) && guard > 0 && AllOk(View(s))
    ensures var p, r := Overlay.Get(s, h), Walk(View(s), h, text, guard);
      && (p.None? ==> r.None?)
      && (p.Some? ==>
            && p.value < |s.store|
            && r == (var v := Bound(ObjectAt(s, p.value), text);
                     if v.Some? then v else Walk(View(s), s.store[p.value].body.proto, text, guard - 1)))
  {
    if Overlay.Get(s, h).Some? { assert View(s)[h] == Seen(s, h); }
  }

  lemma WalkEnds(s: Heap, h: Handle, text: string, guard: nat)
    requires Valid(s) && AllOk(View(s)) && (h == NoHandle || guard == 0)
    ensures Walk(View(s), h, text, guard).None?
  {}

  /** Writing back an object with its old keys, or with one more. */
  lemma PutIs(s: Heap, p: nat, o: Object)
    requires Valid(s) && p < |s.store|
    ensures s.store[p].shape < |s.shapes| && ObjectAt(s, p) == Object(KeysOf(s.shapes, s.store[p].shape), s.store[p].body)
    ensures o.keys == ObjectAt(s, p).keys ==> Put(s, p, o) == s.(store := s.store[p := Cell(s.store[p].shape, o.body)])
    ensures |o.keys| == |ObjectAt(s, p).keys| + 1 ==>
      Put(s, p, o) == (var (ns, t) := Shapes.Transition(s.shapes, s.store[p].shape, o.keys[|o.keys| - 1]);
                       s.(shapes := ns, store := s.store[p := Cell(t, o.body)]))
  {
    assert CellOk(s, p);
  }

  lemma Prepared(s: Heap, h: Handle)
    requires Valid(s)
    ensures var (s1, l) := Overlay.PrepareWrite(s, h);
      && Valid(s1) && (Overlay.GetLocal(s1, l).Some? ==> s.base <= Overlay.GetLocal(s1, l).value < |s1.store|)
      && (Overlay.GetLocal(s1, l).Some? <==> Overlay.Get(s, h).Some?)
      && (Overlay.Get(s, h).Some? ==> ObjectAt(s1, Overlay.GetLocal(s1, l).value) == Seen(s, h))
  {
    PrepareValid(s, h);
    PrepareSame(s, h);
  }
}
