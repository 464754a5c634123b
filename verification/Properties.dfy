/**
 The properties of one object: keys in insertion order, parallel slots and attributes, and a
 list of deleted keys.  Keys are interned per heap, so one text has one key per table; some
 comparisons in the source are by text and some by identity, and the model keeps them apart.
 */
module Properties {
  import opened Options

  datatype Handle = NoHandle | Root(i: nat) | Local(i: nat)

  datatype Float = NaN | Zero(negative: bool) | Infinite(negative: bool) | Finite(r: real)

  /** What a value names tells its kind: an object, a function, or the cell of an accessor, an object of its own that
      holds the two functions.  A property with a cell for its value is an accessor.  Several may hold one cell, and
      `o["x"]` hands a program the cell itself, where `o.x` calls the getter. */
  datatype Value =
    | Undefined | Null | Bool(b: bool) | Int(n: int) | Double(x: Float) | Str(s: string) | BigInt(n: int)
    | Ref(h: Handle) | Function(h: Handle) | Accessor(cell: Handle)

  datatype Key = Key(text: string, table: nat)

  datatype Attrs = Attrs(writable: bool, enumerable: bool, configurable: bool)

  const DEFAULT := Attrs(true, true, true)
  const CLEAR := Attrs(false, false, false)

  datatype Kind =
    | Ordinary | Array | FunctionKind | RegExpKind | PromiseKind | ProxyKind | MapKind | SetKind | WeakMapKind | StringKind | AccessorKind

  /** Everything an object holds except the list of its keys, which is its shape.  `inner` are the values that
      belong to its kind: a wrapped primitive, a promise's result and reactions, a proxy's target and handler,
      the entries of a map or set. */
  datatype Body = Body(kind: Kind, slots: seq<Value>, attrs: seq<Attrs>, elements: seq<Value>, inner: seq<Value>,
                       proto: Handle, frozen: bool, isRoot: bool, deleted: seq<Key>)

  datatype Object = Object(keys: seq<Key>, body: Body)

  datatype Property = Property(value: Value, attrs: Attrs)

  // ---------- Reading ----------

  predicate Unique(keys: seq<Key>) {
    forall i, j :: 0 <= i < j < |keys| ==> keys[i].text != keys[j].text
  }

  predicate Ok(o: Object) {
    Unique(o.keys) && |o.body.slots| == |o.keys| && |o.body.attrs| <= |o.keys|
  }

  /** The slot of a text, if it has one. */
  function Find(keys: seq<Key>, text: string): (r: Option<nat>)
    ensures r.Some? ==> r.value < |keys| && keys[r.value].text == text
    ensures r.None? ==> forall i :: 0 <= i < |keys| ==> keys[i].text != text
  {
    if keys == [] then None
    else if keys[|keys| - 1].text == text then Some(|keys| - 1)
    else Find(keys[..|keys| - 1], text)
  }

  predicate Deleted(ds: seq<Key>, text: string) { exists i :: 0 <= i < |ds| && ds[i].text == text }

  function AttrAt(attrs: seq<Attrs>, i: nat): Attrs { if i < |attrs| then attrs[i] else DEFAULT }

  /** The own property an object shows under a text. */
  function Own(o: Object, text: string): Option<Property>
    requires Ok(o)
  {
    if Deleted(o.body.deleted, text) then None
    else
      match Find(o.keys, text)
      case None => None
      case Some(i) => Some(Property(o.body.slots[i], AttrAt(o.body.attrs, i)))
  }

  // ---------- Writing ----------

  /** The list without one key, compared by identity. */
  function Without(ds: seq<Key>, k: Key): (r: seq<Key>)
    ensures forall d :: d in r <==> d in ds && d != k
  {
    if ds == [] then [] else
      var n := |ds| - 1;
      if ds[n] == k then Without(ds[..n], k) else Without(ds[..n], k) + [ds[n]]
  }

  function Padded(attrs: seq<Attrs>, n: nat): (r: seq<Attrs>)
    ensures |r| == if |attrs| < n then n else |attrs|
    ensures forall i :: 0 <= i < |r| ==> r[i] == AttrAt(attrs, i)
  {
    if |attrs| < n then attrs + seq(n - |attrs|, _ => DEFAULT) else attrs
  }

  function Grown(elements: seq<Value>, n: nat): (r: seq<Value>)
    ensures |r| == if |elements| < n then n else |elements|
    ensures forall i :: 0 <= i < |r| ==> r[i] == if i < |elements| then elements[i] else Undefined
  {
    if |elements| < n then elements + seq(n - |elements|, _ => Undefined) else elements
  }

  const DENSE_KEY_LIMIT := 10000

  /** A text that reads as an index makes an array that long. */
  function GrowFor(b: Body, text: string): (r: Body)
    ensures r == b.(elements := r.elements)
  {
    if !b.kind.Array? then b
    else
      match Atoi(text)
      case None => b
      case Some(n) => if 0 <= n < DENSE_KEY_LIMIT then b.(elements := Grown(b.elements, n + 1)) else b
  }

  function SetProperty(o: Object, k: Key, v: Value): (r: Object)
    requires Ok(o)
    ensures Ok(r)
  {
    if o.body.isRoot then o
    else
      var b := GrowFor(o.body.(deleted := Without(o.body.deleted, k)), k.text);
      match Find(o.keys, k.text)
      case Some(i) => if AttrAt(b.attrs, i).writable then Object(o.keys, b.(slots := b.slots[i := v])) else Object(o.keys, b)
      case None => Object(o.keys + [k], b.(slots := b.slots + [v]))
  }

  function DefineDataProperty(o: Object, k: Key, v: Value, attrs: Attrs): (r: Object)
    requires Ok(o)
    ensures Ok(r)
  {
    if o.body.isRoot then o
    else
      var b := GrowFor(o.body.(deleted := Without(o.body.deleted, k)), k.text);
      match Find(o.keys, k.text)
      case Some(i) => Object(o.keys, b.(slots := b.slots[i := v], attrs := Padded(b.attrs, |b.slots|)[i := attrs]))
      case None =>
        Object(o.keys + [k], b.(slots := b.slots + [v], attrs := Padded(b.attrs, |b.slots| + 1)[|b.slots| := attrs]))
  }

  /** Whether the deletion is reported done, and the object after it. */
  function DeleteProperty(o: Object, k: Key): (r: (bool, Object))
    requires Ok(o)
    ensures Ok(r.1)
  {
    if o.body.frozen || o.body.isRoot then (false, o)
    else if Deleted(o.body.deleted, k.text) then (true, o)
    else
      var i := Find(o.keys, k.text);
      if i.Some? && !AttrAt(o.body.attrs, i.value).configurable then (false, o)
      else
        var b := o.body.(slots := if i.Some? then o.body.slots[i.value := Undefined] else o.body.slots,
                         deleted := o.body.deleted + [k]);
        var n := Atoi(k.text);
        (true, Object(o.keys, if b.kind.Array? && n.Some? && 0 <= n.value < |b.elements|
                              then b.(elements := b.elements[n.value := Undefined]) else b))
  }

  function SetPropertyAttrs(o: Object, k: Key, attrs: Attrs): (r: Object)
    requires Ok(o)
    ensures Ok(r)
  {
    if o.body.isRoot then o
    else
      match Find(o.keys, k.text)
      case None => o
      case Some(i) => o.(body := o.body.(attrs := Padded(o.body.attrs, |o.body.slots|)[i := attrs]))
  }

  function SetElement(o: Object, i: int, v: Value): (r: Object)
    requires Ok(o)
    ensures Ok(r)
  {
    if o.body.isRoot || i < 0 then o else o.(body := o.body.(elements := Grown(o.body.elements, i + 1)[i := v]))
  }

  // ---------- Texts that are numbers ----------

  const INT_LIMIT := 0x8000_0000_0000_0000

  predicate Digit(c: char) { '0' <= c <= '9' }

  predicate Digits(s: string) { s != "" && forall i :: 0 <= i < |s| ==> Digit(s[i]) }

  function Number(s: string): nat
    requires forall i :: 0 <= i < |s| ==> Digit(s[i])
  {
    if s == "" then 0
    else
      assert Digit(s[|s| - 1]);
      Number(s[..|s| - 1]) * 10 + (s[|s| - 1] as nat - '0' as nat)
  }

  /** Signs and leading zeros are read too; what a 64-bit int cannot hold is not. */
  function Atoi(s: string): Option<int> {
    var signed := s != "" && (s[0] == '-' || s[0] == '+');
    var ds := if signed then s[1..] else s;
    if !Digits(ds) then None
    else
      var n := if signed && s[0] == '-' then -(Number(ds) as int) else Number(ds);
      if -INT_LIMIT <= n < INT_LIMIT then Some(n) else None
  }

  /** The decimal text of an index: no sign, no leading zero. */
  function ArrayIndexKey(s: string): Option<nat> {
    if Digits(s) && (s[0] != '0' || |s| == 1) && Number(s) < INT_LIMIT then Some(Number(s)) else None
  }

  // ---------- Enumeration ----------

  /** The keys a spread goes through; deleted ones are among them. */
  predicate Listed(o: Object, text: string)
    requires Ok(o)
  {
    && !(o.body.kind.Array? && text == "length") && !(o.body.kind.RegExpKind? && text == "lastIndex")
    && match Find(o.keys, text)
       case Some(i) => AttrAt(o.body.attrs, i).enumerable
       case None => var n := ArrayIndexKey(text); o.body.kind.Array? && n.Some? && n.value < |o.body.elements|
  }

  // ---------- Lists of keys ----------

  lemma {:induction false} FindIs(keys: seq<Key>, i: nat)
    requires Unique(keys) && i < |keys|
    ensures Find(keys, keys[i].text) == Some(i)
  {
    if i < |keys| - 1 { FindIs(keys[..|keys| - 1], i); }
  }

  lemma FindMore(keys: seq<Key>, k: Key, text: string)
    ensures Find(keys + [k], text) == if k.text == text then Some(|keys|) else Find(keys, text)
  {
    assert (keys + [k])[..|keys|] == keys;
  }

  // ---------- What an object's properties are ----------

  /** A deleted entry for the text that was made in another heap. */
  predicate DeletedElsewhere(ds: seq<Key>, k: Key) { exists i :: 0 <= i < |ds| && ds[i].text == k.text && ds[i] != k }

  lemma DeletedWithout(ds: seq<Key>, k: Key, text: string)
    ensures Deleted(Without(ds, k), text) <==> if text == k.text then DeletedElsewhere(ds, k) else Deleted(ds, text)
  {
    var r := Without(ds, k);
    if text == k.text {
      if DeletedElsewhere(ds, k) {
        var i :| 0 <= i < |ds| && ds[i].text == k.text && ds[i] != k;
        assert ds[i] in r;
        var j :| 0 <= j < |r| && r[j] == ds[i];
      }
      if Deleted(r, text) {
        var j :| 0 <= j < |r| && r[j].text == text;
        assert r[j] in ds && r[j] != k;
        var i :| 0 <= i < |ds| && ds[i] == r[j];
      }
    } else {
      if Deleted(ds, text) {
        var i :| 0 <= i < |ds| && ds[i].text == text;
        assert ds[i] in r;
        var j :| 0 <= j < |r| && r[j] == ds[i];
      }
      if Deleted(r, text) {
        var j :| 0 <= j < |r| && r[j].text == text;
        assert r[j] in ds;
        var i :| 0 <= i < |ds| && ds[i] == r[j];
      }
    }
  }

  /** Whether a property write by key k gets through: the slot the key may have left behind is
      writable, and no other heap's entry keeps it deleted. */
  predicate Settable(o: Object, k: Key)
    requires Ok(o)
  {
    && !o.body.isRoot && !DeletedElsewhere(o.body.deleted, k)
    && var i := Find(o.keys, k.text); (i.Some? ==> AttrAt(o.body.attrs, i.value).writable)
  }

  lemma SetOthers(o: Object, k: Key, v: Value, text: string)
    requires Ok(o) && text != k.text
    ensures Own(SetProperty(o, k, v), text) == Own(o, text)
  {
    hide GrowFor;
    DeletedWithout(o.body.deleted, k, text);
    FindMore(o.keys, k, text);
    hide Without, Deleted, DeletedElsewhere;
  }

  /** A settable property reads back; it keeps the attributes of its slot, a deleted one's too. */
  lemma SetReadsBack(o: Object, k: Key, v: Value)
    requires Ok(o) && Settable(o, k)
    ensures var p := Own(SetProperty(o, k, v), k.text);
      p.Some? && p.value.value == v
      && p.value.attrs == match Find(o.keys, k.text) { case Some(i) => AttrAt(o.body.attrs, i) case None => DEFAULT }
  {
    hide GrowFor;
    DeletedWithout(o.body.deleted, k, k.text);
    FindMore(o.keys, k, k.text);
  }

  /** Read after write holds exactly when the property is settable, or happened to hold the value. */
  lemma ReadAfterWrite(o: Object, k: Key, v: Value)
    requires Ok(o) && !o.body.isRoot
    ensures var p := Own(SetProperty(o, k, v), k.text);
      (p.Some? && p.value.value == v)
      <==> Settable(o, k) || (!DeletedElsewhere(o.body.deleted, k) && Find(o.keys, k.text).Some?
                              && o.body.slots[Find(o.keys, k.text).value] == v)
  {
    hide GrowFor;
    DeletedWithout(o.body.deleted, k, k.text);
    FindMore(o.keys, k, k.text);
  }

  /** A deleted read-only property comes back as undefined when it is written. */
  lemma RevivedUnstored()
    ensures exists o, k: Key, v ::
      Ok(o) && !o.body.frozen && Own(o, k.text) == None
      && Own(SetProperty(o, k, v), k.text) == Some(Property(Undefined, Attrs(false, true, true))) && v != Undefined
  {
    var k := Key("x", 1);
    var o0 := Object([k], Body(Ordinary, [Int(1)], [Attrs(false, true, true)], [], [], NoHandle, false, false, []));
    assert Find([k], "x") == Some(0);
    var o := DeleteProperty(o0, k).1;
    assert o.body.deleted == [k];
    assert Deleted(o.body.deleted, "x");
    DeletedWithout([k], k, "x");
    var r := SetProperty(o, k, Int(2));
    assert Own(r, "x") == Some(Property(Undefined, Attrs(false, true, true)));
    assert Own(o, k.text) == None && Int(2) != Undefined;
  }

  lemma DefineReadsBack(o: Object, k: Key, v: Value, attrs: Attrs, text: string)
    requires Ok(o) && !o.body.isRoot
    ensures var r := Own(DefineDataProperty(o, k, v, attrs), text);
      if text != k.text then r == Own(o, text)
      else r == if DeletedElsewhere(o.body.deleted, k) then None else Some(Property(v, attrs))
  {
    hide GrowFor;
    DeletedWithout(o.body.deleted, k, text);
    FindMore(o.keys, k, text);
    hide Without, Deleted, DeletedElsewhere;
    var i := Find(o.keys, text);
    if i.Some? && text != k.text && Find(o.keys, k.text).Some? { assert i.value != Find(o.keys, k.text).value; }
  }

  /** A deletion reported done leaves no property, one refused changes nothing; it is refused exactly
      for a property that is not configurable, or on a frozen object. */
  lemma DeleteRemoves(o: Object, k: Key, text: string)
    requires Ok(o) && !o.body.isRoot
    ensures var (done, r) := DeleteProperty(o, k);
      && (done ==> Own(r, text) == if text == k.text then None else Own(o, text))
      && (!done ==> r == o)
      && (!done <==> o.body.frozen || (Own(o, k.text).Some? && !Own(o, k.text).value.attrs.configurable))
  {
    var ds := o.body.deleted;
    assert (ds + [k])[|ds|] == k;
    if Deleted(ds, text) {
      var i :| 0 <= i < |ds| && ds[i].text == text;
      assert (ds + [k])[i].text == text;
    }
  }

  lemma AttrsChange(o: Object, k: Key, attrs: Attrs, text: string)
    requires Ok(o) && !o.body.isRoot
    ensures Own(SetPropertyAttrs(o, k, attrs), text)
      == match Own(o, text) { case None => None case Some(p) => Some(if text == k.text then p.(attrs := attrs) else p) }
  {}

  /** The keys of a whole object, and the values behind them, as a finite map. */
  function Map(o: Object): (m: map<string, Property>)
    requires Ok(o)
    ensures forall text :: text in m <==> Own(o, text).Some?
    ensures forall text :: text in m ==> m[text] == Own(o, text).value
  {
    var texts := set i | 0 <= i < |o.keys| :: o.keys[i].text;
    map text | text in texts && Own(o, text).Some? :: Own(o, text).value
  }

  /** Over the finite map of its properties, an object's operations are the map's. */
  lemma DefineOnMap(o: Object, k: Key, v: Value, attrs: Attrs)
    requires Ok(o) && !o.body.isRoot && !DeletedElsewhere(o.body.deleted, k)
    ensures Map(DefineDataProperty(o, k, v, attrs)) == Map(o)[k.text := Property(v, attrs)]
  {
    forall text ensures Own(DefineDataProperty(o, k, v, attrs), text)
        == if text == k.text then Some(Property(v, attrs)) else Own(o, text) { DefineReadsBack(o, k, v, attrs, text); }
    hide DefineDataProperty, Own;
  }

  lemma SetOnMap(o: Object, k: Key, v: Value)
    requires Ok(o) && Settable(o, k)
    ensures Map(SetProperty(o, k, v))
      == Map(o)[k.text := Property(v, match Find(o.keys, k.text) { case Some(i) => AttrAt(o.body.attrs, i) case None => DEFAULT })]
  {
    SetReadsBack(o, k, v);
    hide SetProperty, Own, Settable, Find, Ok;
    forall text | text != k.text ensures Own(SetProperty(o, k, v), text) == Own(o, text) { SetOthers(o, k, v, text); }
    MapUpdated(Map(o), Map(SetProperty(o, k, v)), k.text);
  }

  lemma MapUpdated(m: map<string, Property>, n: map<string, Property>, key: string)
    requires key in n && forall text :: text != key ==> (text in n <==> text in m) && (text in m ==> n[text] == m[text])
    ensures n == m[key := n[key]]
  {}

  lemma DeleteOnMap(o: Object, k: Key)
    requires Ok(o) && !o.body.isRoot
    ensures Map(DeleteProperty(o, k).1) == if DeleteProperty(o, k).0 then Map(o) - {k.text} else Map(o)
  {
    var (done, r) := DeleteProperty(o, k);
    DeleteRemoves(o, k, k.text);
    if done {
      forall text ensures Own(r, text) == if text == k.text then None else Own(o, text) { DeleteRemoves(o, k, text); }
    }
    hide DeleteProperty, Own, Find, Ok;
  }

  lemma AttrsOnMap(o: Object, k: Key, attrs: Attrs)
    requires Ok(o) && !o.body.isRoot
    ensures Map(SetPropertyAttrs(o, k, attrs))
      == if k.text in Map(o) then Map(o)[k.text := Map(o)[k.text].(attrs := attrs)] else Map(o)
  {
    forall text ensures Own(SetPropertyAttrs(o, k, attrs), text)
        == match Own(o, text) { case None => None case Some(p) => Some(if text == k.text then p.(attrs := attrs) else p) } {
      AttrsChange(o, k, attrs, text);
    }
    hide SetPropertyAttrs, Own;
  }
}
