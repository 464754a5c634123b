/**
 Property descriptors, assignment and the integrity levels of one ordinary object, and what each of
 them keeps: the invariants of section 6.1.7.3 of ECMA-262.
 */
module Descriptors {
  import opened Options
  import opened Properties

  /** The fields a descriptor object shows. */
  datatype Desc = Desc(getter: Option<Value>, setter: Option<Value>, value: Option<Value>,
                       writable: Option<Value>, enumerable: Option<Value>, configurable: Option<Value>)

  /** What the cell of an accessor holds. */
  datatype Functions = Functions(getter: Value, setter: Value)

  /** The object afterwards, and what the accessor's cell holds if the definition is one of an accessor. */
  datatype Outcome = Done(o: Object, functions: Option<Functions>) | TypeError(reason: Reason)

  datatype Reason =
    | BothKinds | GetterNotFunction | SetterNotFunction | NotExtensible | NotConfigurable | EnumerableFixed
    | AccessorToData | GetterFixed | SetterFixed | DataToAccessor | NotWritable | ValueFixed

  predicate Truthy(v: Value) {
    match v
    case Undefined => false
    case Null => false
    case Bool(b) => b
    case Int(n) => n != 0
    case Double(x) => !x.NaN? && !x.Zero?
    case Str(s) => s != ""
    case BigInt(n) => n != 0
    case _ => true
  }

  // ---------- SameValue ----------

  function ToFloat(v: Value): Float
    requires v.Int? || v.Double?
  {
    match v
    case Int(n) => if n == 0 then Zero(false) else Finite(n as real)
    case Double(x) => if x == Finite(0.0) then Zero(false) else x
  }

  predicate FloatEq(a: Float, b: Float) { !a.NaN? && !b.NaN? && ((a.Zero? && b.Zero?) || a == b) }

  predicate StrictEq(a: Value, b: Value) {
    if (a.Int? || a.Double?) && (b.Int? || b.Double?) then FloatEq(ToFloat(a), ToFloat(b)) else a == b
  }

  predicate SameValue(a: Value, b: Value) {
    if (a.Int? || a.Double?) && (b.Int? || b.Double?) then
      var (fa, fb) := (ToFloat(a), ToFloat(b));
      if fa.NaN? && fb.NaN? then true
      else if fa.Zero? && fb.Zero? then fa.negative == fb.negative
      else FloatEq(fa, fb)
    else StrictEq(a, b)
  }

  /** SameValue tells numbers apart exactly as their floats do, and is an equivalence. */
  lemma SameValueIs(a: Value, b: Value)
    ensures SameValue(a, b) <==>
      if (a.Int? || a.Double?) && (b.Int? || b.Double?) then ToFloat(a) == ToFloat(b) else a == b
  {}

  // ---------- Object.defineProperty ----------

  predicate IsFunction(v: Value) { v.Function? }

  function Bit(field: Option<Value>, was: bool): bool { if field.Some? then Truthy(field.value) else was }

  /** The refusals of a property that is not configurable; `was` is what its cell holds. */
  function Refusal(p: Property, d: Desc, was: Functions): Option<Reason> {
    if d.configurable.Some? && Truthy(d.configurable.value) then Some(NotConfigurable)
    else if d.enumerable.Some? && Truthy(d.enumerable.value) != p.attrs.enumerable then Some(EnumerableFixed)
    else if p.value.Accessor? then
      if d.value.Some? || d.writable.Some? then Some(AccessorToData)
      else if d.getter.Some? && !SameValue(d.getter.value, was.getter) then Some(GetterFixed)
      else if d.setter.Some? && !SameValue(d.setter.value, was.setter) then Some(SetterFixed)
      else None
    else if d.getter.Some? || d.setter.Some? then Some(DataToAccessor)
    else if !p.attrs.writable && d.writable.Some? && Truthy(d.writable.value) then Some(NotWritable)
    else if !p.attrs.writable && d.value.Some? && !SameValue(d.value.value, p.value) then Some(ValueFixed)
    else None
  }

  function Malformed(d: Desc): Option<Reason> {
    if (d.getter.Some? || d.setter.Some?) && (d.value.Some? || d.writable.Some?) then Some(BothKinds)
    else if d.getter.Some? && !IsFunction(d.getter.value) && d.getter.value != Undefined then Some(GetterNotFunction)
    else if d.setter.Some? && !IsFunction(d.setter.value) && d.setter.value != Undefined then Some(SetterNotFunction)
    else None
  }

  function OrElse(v: Option<Value>, w: Value): Value { if v.Some? then v.value else w }

  const NO_FUNCTIONS := Functions(Undefined, Undefined)

  /** What the cell holds afterwards. */
  function Filled(was: Functions, d: Desc): Functions { Functions(OrElse(d.getter, was.getter), OrElse(d.setter, was.setter)) }

  function NewAttrs(p: Option<Property>, d: Desc): Attrs {
    var was := if p.Some? then p.value.attrs else CLEAR;
    Attrs(Bit(d.writable, was.writable), Bit(d.enumerable, was.enumerable), Bit(d.configurable, was.configurable))
  }

  /** `was` is what the property's cell holds, if it is an accessor, and `cell` the one to hold the accessor that
      is defined: the property's own, or a new one. */
  function DefineFromDesc(o: Object, k: Key, d: Desc, was: Functions, cell: Handle): (r: Outcome)
    requires Ok(o)
    ensures r.Done? ==> Ok(r.o)
  {
    var p := Own(o, k.text);
    if Malformed(d).Some? then TypeError(Malformed(d).value)
    else if p.None? && o.body.frozen then TypeError(NotExtensible)
    else if p.Some? && !p.value.attrs.configurable && Refusal(p.value, d, was).Some? then TypeError(Refusal(p.value, d, was).value)
    else
      var attrs := NewAttrs(p, d);
      if d.getter.Some? || d.setter.Some? then
        Done(SetPropertyAttrs(SetProperty(o, k, Accessor(cell)), k, attrs.(writable := false)),
             Some(Filled(if IsAccessor(p) then was else NO_FUNCTIONS, d)))
      else
        Done(DefineDataProperty(o, k, OrElse(d.value, if p.Some? then p.value.value else Undefined), attrs), None)
  }

  predicate IsAccessor(p: Option<Property>) { p.Some? && p.value.value.Accessor? }

  // ---------- Assignment ----------

  datatype Assigned = Stored(o: Object) | CallSetter(f: Value) | NoSetter | ReadOnly | FrozenObject

  /** `was` is what the property's cell holds, if it is an accessor. */
  function SetProp(o: Object, k: Key, v: Value, strict: bool, was: Functions): (r: Assigned)
    requires Ok(o)
    ensures r.Stored? ==> Ok(r.o)
  {
    if o.body.frozen then FrozenObject
    else
      var p := Own(o, k.text);
      if IsAccessor(p) then if IsFunction(was.setter) then CallSetter(was.setter) else NoSetter
      else if p.Some? && !p.value.attrs.writable then if strict then ReadOnly else Stored(o)
      else Stored(SetProperty(o, k, v))
  }

  // ---------- Integrity levels ----------

  function Frozen(v: Value, a: Attrs): Attrs {
    if v.Accessor? then a.(configurable := false) else a.(writable := false, configurable := false)
  }

  function FreezeAttrs(slots: seq<Value>, attrs: seq<Attrs>): (r: seq<Attrs>)
    requires |slots| == |attrs|
    ensures |r| == |attrs| && forall i :: 0 <= i < |r| ==> r[i] == Frozen(slots[i], attrs[i])
  {
    seq(|attrs|, i requires 0 <= i < |attrs| => Frozen(slots[i], attrs[i]))
  }

  function SealAttrs(attrs: seq<Attrs>): (r: seq<Attrs>)
    ensures |r| == |attrs| && forall i :: 0 <= i < |r| ==> r[i] == attrs[i].(configurable := false)
  {
    seq(|attrs|, i requires 0 <= i < |attrs| => attrs[i].(configurable := false))
  }

  function Freeze(o: Object): (r: Object)
    requires Ok(o)
    ensures Ok(r)
  {
    o.(body := o.body.(frozen := true, attrs := FreezeAttrs(o.body.slots, Padded(o.body.attrs, |o.body.slots|))))
  }

  function Seal(o: Object): (r: Object)
    requires Ok(o)
    ensures Ok(r)
  {
    o.(body := o.body.(frozen := true, attrs := SealAttrs(Padded(o.body.attrs, |o.body.slots|))))
  }

  function PreventExtensions(o: Object): Object { o.(body := o.body.(frozen := true)) }

  /** The object after an assignment; a setter that is to be called has not run yet. */
  function After(o: Object, r: Assigned): Object { if r.Stored? then r.o else o }

  // ---------- What operations keep ----------

  /** How far a property that is not configurable may change: an accessor keeps its cell. */
  predicate Fixed(p: Property, q: Property) {
    && !q.attrs.configurable && q.attrs.enumerable == p.attrs.enumerable && (q.value.Accessor? <==> p.value.Accessor?)
    && (p.value.Accessor? || !p.attrs.writable ==> SameValue(p.value, q.value))
    && (!p.attrs.writable ==> !q.attrs.writable)
  }

  predicate KeepsAt(o: Object, r: Object, text: string)
    requires Ok(o) && Ok(r)
  {
    var (p, q) := (Own(o, text), Own(r, text));
    && (p.Some? && !p.value.attrs.configurable ==> q.Some? && Fixed(p.value, q.value))
    && (o.body.frozen && q.Some? ==> p.Some?)
  }

  ghost predicate Keeps(o: Object, r: Object)
    requires Ok(o) && Ok(r)
  {
    (o.body.frozen ==> r.body.frozen) && forall text :: KeepsAt(o, r, text)
  }

  lemma SameTrans(a: Value, b: Value, c: Value)
    ensures SameValue(a, b) && SameValue(b, c) ==> SameValue(a, c)
    ensures SameValue(a, a)
    ensures SameValue(a, b) ==> SameValue(b, a)
  {
    SameValueIs(a, b);
    SameValueIs(b, c);
    SameValueIs(a, c);
    SameValueIs(a, a);
    SameValueIs(b, a);
    hide SameValue;
  }

  lemma KeepsTrans(a: Object, b: Object, c: Object)
    requires Ok(a) && Ok(b) && Ok(c) && Keeps(a, b) && Keeps(b, c)
    ensures Keeps(a, c)
  {
    forall text ensures KeepsAt(a, c, text) {
      assert KeepsAt(a, b, text) && KeepsAt(b, c, text);
      var (p, q, r) := (Own(a, text), Own(b, text), Own(c, text));
      if p.Some? && !p.value.attrs.configurable && (p.value.value.Accessor? || !p.value.attrs.writable) {
        SameTrans(p.value.value, q.value.value, r.value.value);
      }
      hide Own, SameValue, Ok;
    }
  }

  lemma SameSelf(v: Value)
    ensures SameValue(v, v)
  {
    SameTrans(v, v, v);
    hide SameValue;
  }

  lemma KeepsSelf(o: Object)
    requires Ok(o)
    ensures Keeps(o, o)
  {
    forall text ensures KeepsAt(o, o, text) {
      var p := Own(o, text);
      if p.Some? { SameSelf(p.value.value); }
    }
  }

  // ---------- Each operation ----------

  lemma RemoveKeeps(o: Object, k: Key)
    requires Ok(o) && !o.body.isRoot
    ensures Keeps(o, DeleteProperty(o, k).1)
  {
    var (done, r) := DeleteProperty(o, k);
    DeleteRemoves(o, k, k.text);
    KeepsSelf(o);
    if done {
      forall text ensures KeepsAt(o, r, text) { assert KeepsAt(o, o, text); DeleteRemoves(o, k, text); }
    }
  }

  /** A cell, as a computed read gives it, goes over a data property that is not configurable, which becomes an
      accessor by that. */
  predicate AssignRecasts(o: Object, k: Key, v: Value)
    requires Ok(o)
  {
    var p := Own(o, k.text);
    v.Accessor? && !o.body.frozen && p.Some? && !IsAccessor(p) && p.value.attrs.writable && !p.value.attrs.configurable
  }

  lemma AssignKeeps(o: Object, k: Key, v: Value, strict: bool, was: Functions)
    requires Ok(o) && !o.body.isRoot
    ensures Keeps(o, After(o, SetProp(o, k, v, strict, was))) <==> !AssignRecasts(o, k, v)
  {
    var r := After(o, SetProp(o, k, v, strict, was));
    KeepsSelf(o);
    if AssignRecasts(o, k, v) {
      NotDeletedElsewhere(o.body.deleted, k);
      SetReadsBack(o, k, v);
      assert !KeepsAt(o, r, k.text);
    } else if r != o {
      forall text ensures KeepsAt(o, r, text) {
        assert KeepsAt(o, o, text);
        if text != k.text { SetOthers(o, k, v, text); } else { StoreKeeps(o, k, v); }
      }
    }
    hide SetProperty, Own, Find;
  }

  /** Assigning to a writable data property, or to none. */
  lemma StoreKeeps(o: Object, k: Key, v: Value)
    requires Ok(o) && !o.body.isRoot && !o.body.frozen && !AssignRecasts(o, k, v)
    requires Own(o, k.text).Some? ==> Own(o, k.text).value.attrs.writable && !Own(o, k.text).value.value.Accessor?
    ensures KeepsAt(o, SetProperty(o, k, v), k.text)
  {
    hide GrowFor;
    var p := Own(o, k.text);
    if p.Some? {
      NotDeletedElsewhere(o.body.deleted, k);
      SetReadsBack(o, k, v);
    }
  }

  lemma NotDeletedElsewhere(ds: seq<Key>, k: Key)
    ensures !Deleted(ds, k.text) ==> !DeletedElsewhere(ds, k)
  {}

  lemma IntegrityKeeps(o: Object, r: Object, attrs: seq<Attrs>)
    requires Ok(o) && Ok(r) && r == o.(body := o.body.(frozen := true, attrs := attrs)) && |attrs| <= |o.keys|
    requires forall i :: 0 <= i < |o.keys| ==>
      var (a, b) := (AttrAt(o.body.attrs, i), AttrAt(attrs, i));
      && b.enumerable == a.enumerable && (b.configurable ==> a.configurable) && (b.writable ==> a.writable)
    ensures Keeps(o, r)
  {
    forall text ensures KeepsAt(o, r, text) {
      var p := Own(o, text);
      if p.Some? { SameSelf(p.value.value); }
    }
  }

  lemma IntegrityLevelsKeep(o: Object)
    requires Ok(o)
    ensures Keeps(o, Freeze(o)) && Keeps(o, Seal(o)) && Keeps(o, PreventExtensions(o))
  {
    IntegrityKeeps(o, Freeze(o), Freeze(o).body.attrs);
    IntegrityKeeps(o, Seal(o), Seal(o).body.attrs);
    IntegrityKeeps(o, PreventExtensions(o), o.body.attrs);
  }

  /** The same by a definition of a value. */
  predicate DefineRecasts(o: Object, k: Key, d: Desc, was: Functions)
    requires Ok(o)
  {
    var p := Own(o, k.text);
    && d.value.Some? && d.value.value.Accessor? && d.getter.None? && d.setter.None?
    && p.Some? && !IsAccessor(p) && !p.value.attrs.configurable && Refusal(p.value, d, was).None?
  }

  /** Data properties: what the definition leaves under the key. */
  lemma DefineDataIs(o: Object, k: Key, d: Desc, was: Functions, cell: Handle)
    requires Ok(o) && !o.body.isRoot && DefineFromDesc(o, k, d, was, cell).Done? && d.getter.None? && d.setter.None?
    ensures var (r, p) := (DefineFromDesc(o, k, d, was, cell), Own(o, k.text));
      && r.functions.None?
      && (p.Some? ==> Own(r.o, k.text) == Some(Property(OrElse(d.value, p.value.value), NewAttrs(p, d))))
      && (p.None? && Own(r.o, k.text).Some? ==> Own(r.o, k.text) == Some(Property(OrElse(d.value, Undefined), NewAttrs(p, d))))
  {
    hide DefineDataProperty;
    var p := Own(o, k.text);
    if p.Some? { NotDeletedElsewhere(o.body.deleted, k); }
    DefineReadsBack(o, k, OrElse(d.value, if p.Some? then p.value.value else Undefined), NewAttrs(p, d), k.text);
  }

  /** A property that is not configurable and passes the refusals keeps to its limits. */
  lemma DataFixed(p: Property, d: Desc, was: Functions)
    requires !p.attrs.configurable && Refusal(p, d, was).None? && d.getter.None? && d.setter.None?
    requires d.value.Some? && d.value.value.Accessor? ==> p.value.Accessor?
    ensures Fixed(p, Property(OrElse(d.value, p.value), NewAttrs(Some(p), d)))
  {
    SameSelf(p.value);
    if d.value.Some? { SameTrans(d.value.value, p.value, p.value); }
    hide SameValue;
  }

  /** So does an accessor, whose cell keeps the functions it has. */
  lemma AccessorFixed(p: Property, d: Desc, was: Functions)
    requires !p.attrs.configurable && Refusal(p, d, was).None? && Malformed(d).None? && (d.getter.Some? || d.setter.Some?)
    ensures p.value.Accessor? && Filled(was, d) == was
    ensures Fixed(p, Property(p.value, NewAttrs(Some(p), d).(writable := false)))
  {
    SameSelf(p.value);
    if d.getter.Some? { SameValueIs(d.getter.value, was.getter); }
    if d.setter.Some? { SameValueIs(d.setter.value, was.setter); }
    hide SameValue;
  }

  /** Accessor properties that exist: the property keeps its cell, which takes the functions whatever the
      attributes are. */
  lemma DefineAccessorIs(o: Object, k: Key, d: Desc, was: Functions)
    requires Ok(o) && !o.body.isRoot && IsAccessor(Own(o, k.text)) && (d.getter.Some? || d.setter.Some?)
    requires DefineFromDesc(o, k, d, was, Own(o, k.text).value.value.cell).Done?
    ensures var (r, p) := (DefineFromDesc(o, k, d, was, Own(o, k.text).value.value.cell), Own(o, k.text));
      && r.functions == Some(Filled(was, d))
      && Own(r.o, k.text) == Some(Property(p.value.value, NewAttrs(p, d).(writable := false)))
  {
    var p := Own(o, k.text);
    var v := p.value.value;
    NotDeletedElsewhere(o.body.deleted, k);
    ReadAfterWrite(o, k, v);
    AttrsChange(SetProperty(o, k, v), k, NewAttrs(p, d).(writable := false), k.text);
    hide SetProperty, SetPropertyAttrs, NewAttrs, DeletedElsewhere, Deleted;
  }

  lemma DefineOthers(o: Object, k: Key, d: Desc, was: Functions, cell: Handle, text: string)
    requires Ok(o) && !o.body.isRoot && DefineFromDesc(o, k, d, was, cell).Done? && text != k.text
    ensures Own(DefineFromDesc(o, k, d, was, cell).o, text) == Own(o, text)
  {
    hide SetPropertyAttrs, DefineDataProperty, Refusal, Malformed, NewAttrs;
    var p := Own(o, k.text);
    if d.getter.Some? || d.setter.Some? {
      var o1 := SetProperty(o, k, Accessor(cell));
      SetOthers(o, k, Accessor(cell), text);
      AttrsChange(o1, k, NewAttrs(p, d).(writable := false), text);
    } else {
      DefineReadsBack(o, k, OrElse(d.value, if p.Some? then p.value.value else Undefined), NewAttrs(p, d), text);
    }
  }

  /** The cell the definition goes to is the property's own, if it has one. */
  predicate Into(o: Object, k: Key, cell: Handle)
    requires Ok(o)
  {
    IsAccessor(Own(o, k.text)) ==> cell == Own(o, k.text).value.value.cell
  }

  lemma DefineKeepsAt(o: Object, k: Key, d: Desc, was: Functions, cell: Handle)
    requires Ok(o) && !o.body.isRoot && DefineFromDesc(o, k, d, was, cell).Done? && Into(o, k, cell)
    ensures KeepsAt(o, DefineFromDesc(o, k, d, was, cell).o, k.text) <==> !DefineRecasts(o, k, d, was)
  {
    var p := Own(o, k.text);
    if p.Some? && !p.value.attrs.configurable {
      if d.getter.Some? || d.setter.Some? {
        AccessorFixed(p.value, d, was);
        DefineAccessorIs(o, k, d, was);
      } else {
        DefineDataIs(o, k, d, was, cell);
        if !DefineRecasts(o, k, d, was) { DataFixed(p.value, d, was); }
      }
    }
    hide Own, DefineFromDesc, SameValue;
  }

  lemma DefineKeeps(o: Object, k: Key, d: Desc, was: Functions, cell: Handle)
    requires Ok(o) && !o.body.isRoot && DefineFromDesc(o, k, d, was, cell).Done? && Into(o, k, cell)
    ensures Keeps(o, DefineFromDesc(o, k, d, was, cell).o) <==> !DefineRecasts(o, k, d, was)
  {
    KeepsSelf(o);
    var r := DefineFromDesc(o, k, d, was, cell).o;
    DefineKeepsAt(o, k, d, was, cell);
    forall text | text != k.text ensures KeepsAt(o, r, text) {
      DefineOthers(o, k, d, was, cell, text);
      assert KeepsAt(o, o, text);
    }
    DefineFrozen(o, k, d, was, cell);
    hide DefineRecasts, DefineFromDesc, KeepsAt;
  }

  lemma DefineFrozen(o: Object, k: Key, d: Desc, was: Functions, cell: Handle)
    requires Ok(o) && DefineFromDesc(o, k, d, was, cell).Done?
    ensures var r := DefineFromDesc(o, k, d, was, cell).o; r.body.frozen == o.body.frozen && r.body.isRoot == o.body.isRoot
  {
    hide GrowFor, Padded;
  }

  lemma FrozenOwn(o: Object, text: string)
    requires Ok(o)
    ensures Freeze(o).body.frozen && !Freeze(o).body.isRoot == !o.body.isRoot
    ensures Own(Freeze(o), text)
      == match Own(o, text) { case None => None case Some(p) => Some(Property(p.value, Frozen(p.value, p.attrs))) }
  {}

  // ---------- Where defineProperty installs nothing ----------

  /** An accessor defined over a data property, or over none, is there afterwards exactly when the key is
      settable: the new cell goes in through an ordinary property write, which read-only slots ignore. */
  lemma AccessorInstalled(o: Object, k: Key, d: Desc, was: Functions, cell: Handle)
    requires Ok(o) && !o.body.isRoot && DefineFromDesc(o, k, d, was, cell).Done? && (d.getter.Some? || d.setter.Some?)
    requires Find(o.keys, k.text).Some? ==> !o.body.slots[Find(o.keys, k.text).value].Accessor?
    ensures var r := DefineFromDesc(o, k, d, was, cell);
      && r.functions == Some(Functions(OrElse(d.getter, Undefined), OrElse(d.setter, Undefined)))
      && (Own(r.o, k.text).Some? && Own(r.o, k.text).value.value == Accessor(cell) <==> Settable(o, k))
  {
    var p := Own(o, k.text);
    var o1 := SetProperty(o, k, Accessor(cell));
    ReadAfterWrite(o, k, Accessor(cell));
    AttrsChange(o1, k, NewAttrs(p, d).(writable := false), k.text);
    hide SetProperty, SetPropertyAttrs, NewAttrs, DeletedElsewhere;
  }

  /** A getter defined over a read-only configurable property: accepted, and lost. */
  lemma GetterLost(was: Functions, cell: Handle)
    ensures exists o, k, d: Desc ::
      && Ok(o) && !o.body.isRoot && d.getter.Some? && DefineFromDesc(o, k, d, was, cell).Done? && Own(o, k.text).Some?
      && Own(DefineFromDesc(o, k, d, was, cell).o, k.text).Some?
      && Own(DefineFromDesc(o, k, d, was, cell).o, k.text).value.value == Int(1)
  {
    var k := Key("x", 1);
    var o := Object([k], Body(Ordinary, [Int(1)], [Attrs(false, true, true)], [], [], NoHandle, false, false, []));
    var d := Desc(Some(Function(Local(1))), None, None, None, None, None);
    assert Find([k], "x") == Some(0);
    assert Own(o, k.text) == Some(Property(Int(1), Attrs(false, true, true)));
    assert Malformed(d).None? && DefineFromDesc(o, k, d, was, cell).Done?;
    AccessorInstalled(o, k, d, was, cell);
    assert DefineFromDesc(o, k, d, was, cell).o.body.slots == [Int(1)];
    assert Own(DefineFromDesc(o, k, d, was, cell).o, k.text).value.value == Int(1);
  }
}
