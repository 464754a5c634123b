/**
 What definitions, assignments and integrity levels come to, field by field: the isolate's view, its heap and
 the private copies share the operation on one object.
 */
module DescriptorLaws {
  import opened Options
  import opened Properties
  import opened Descriptors

  // ---------- Booleans ----------

  /** The values that count as false: undefined, null, false, the zeros, NaN and the empty string. */
  predicate Falsy(v: Value) {
    || v == Undefined || v == Null || v == Bool(false) || v == Int(0) || v == BigInt(0) || v == Str("")
    || v == Double(NaN) || v == Double(Zero(true)) || v == Double(Zero(false))
  }

  predicate Says(field: Option<Value>, was: bool) { if field.Some? then !Falsy(field.value) else was }

  lemma BitIs(field: Option<Value>, was: bool)
    ensures Bit(field, was) == Says(field, was)
  {}

  lemma AttrsAre(p: Option<Property>, d: Desc)
    ensures var a := NewAttrs(p, d);
      && a.writable == Says(d.writable, p.Some? && p.value.attrs.writable)
      && a.enumerable == Says(d.enumerable, p.Some? && p.value.attrs.enumerable)
      && a.configurable == Says(d.configurable, p.Some? && p.value.attrs.configurable)
  {
    hide Bit, Says;
    var was := if p.Some? then p.value.attrs else CLEAR;
    BitIs(d.writable, was.writable);
    BitIs(d.enumerable, was.enumerable);
    BitIs(d.configurable, was.configurable);
  }

  // ---------- Object.defineProperty ----------

  /** A descriptor is of data, of an accessor, or of neither, and its functions are functions or undefined. */
  predicate WellFormed(d: Desc) {
    && (d.getter.Some? || d.setter.Some? ==> d.value.None? && d.writable.None?)
    && (d.getter.Some? ==> d.getter.value.Function? || d.getter.value == Undefined)
    && (d.setter.Some? ==> d.setter.value.Function? || d.setter.value == Undefined)
  }

  /** The descriptor asks nothing of a property that is not configurable that this may not give. */
  predicate Compatible(p: Property, d: Desc, was: Functions) {
    && !Says(d.configurable, false) && Says(d.enumerable, p.attrs.enumerable) == p.attrs.enumerable
    && if p.value.Accessor? then
         && d.value.None? && d.writable.None?
         && (d.getter.Some? ==> SameValue(d.getter.value, was.getter))
         && (d.setter.Some? ==> SameValue(d.setter.value, was.setter))
       else
         && d.getter.None? && d.setter.None?
         && (!p.attrs.writable ==> !Says(d.writable, false) && (d.value.Some? ==> SameValue(d.value.value, p.value)))
  }

  /** A definition is refused exactly when the descriptor is malformed, when it would add to an object that is not
      extensible, or when it asks a property that is not configurable for more than that may give. */
  lemma DefinitionAccepted(o: Object, k: Key, d: Desc, was: Functions, cell: Handle)
    requires Ok(o)
    ensures DefineFromDesc(o, k, d, was, cell).Done? <==>
      WellFormed(d)
      && match Own(o, k.text) {
           case None => !o.body.frozen
           case Some(p) => p.attrs.configurable || Compatible(p, d, was)
         }
  {
    hide Own, SetProperty, SetPropertyAttrs, DefineDataProperty;
    forall v ensures Truthy(v) <==> !Falsy(v) {}
  }

  /** The fields of an accepted definition end up in the property: each attribute is what its field says, or else
      what it was, or else false; the value is the one given, or the old one, or undefined. */
  lemma DefinitionFields(o: Object, k: Key, d: Desc, was: Functions, cell: Handle)
    requires Ok(o) && !o.body.isRoot && !DeletedElsewhere(o.body.deleted, k)
    requires DefineFromDesc(o, k, d, was, cell).Done? && d.getter.None? && d.setter.None?
    ensures var (p, q) := (Own(o, k.text), Own(DefineFromDesc(o, k, d, was, cell).o, k.text));
      && q.Some?
      && q.value.value == (if d.value.Some? then d.value.value else if p.Some? then p.value.value else Undefined)
      && q.value.attrs.writable == Says(d.writable, p.Some? && p.value.attrs.writable)
      && q.value.attrs.enumerable == Says(d.enumerable, p.Some? && p.value.attrs.enumerable)
      && q.value.attrs.configurable == Says(d.configurable, p.Some? && p.value.attrs.configurable)
  {
    hide DefineDataProperty, Own, DeletedElsewhere, NewAttrs, Says, Refusal, Malformed;
    var p := Own(o, k.text);
    DefineReadsBack(o, k, OrElse(d.value, if p.Some? then p.value.value else Undefined), NewAttrs(p, d), k.text);
    AttrsAre(p, d);
  }

  /** An accessor that is defined has the functions given, for the others those it had, or undefined; its flags are what
      their fields say, or what they were, or false, and it is not writable. */
  lemma AccessorFields(o: Object, k: Key, d: Desc, was: Functions, cell: Handle)
    requires Ok(o) && Settable(o, k) && (d.getter.Some? || d.setter.Some?)
    requires DefineFromDesc(o, k, d, was, cell).Done?
    ensures var (r, p) := (DefineFromDesc(o, k, d, was, cell), Own(o, k.text));
      var q := Own(r.o, k.text);
      var had := p.Some? && p.value.value.Accessor?;
      && r.functions.Some?
      && r.functions.value.getter == (if d.getter.Some? then d.getter.value else if had then was.getter else Undefined)
      && r.functions.value.setter == (if d.setter.Some? then d.setter.value else if had then was.setter else Undefined)
      && q.Some? && q.value.value == Accessor(cell) && !q.value.attrs.writable
      && q.value.attrs.enumerable == Says(d.enumerable, p.Some? && p.value.attrs.enumerable)
      && q.value.attrs.configurable == Says(d.configurable, p.Some? && p.value.attrs.configurable)
  {
    hide SetProperty, SetPropertyAttrs, Own, DeletedElsewhere, NewAttrs, Says, Refusal, Malformed;
    var p := Own(o, k.text);
    SetReadsBack(o, k, Accessor(cell));
    StillWritable(o, k, Accessor(cell));
    AttrsChange(SetProperty(o, k, Accessor(cell)), k, NewAttrs(p, d).(writable := false), k.text);
    AttrsAre(p, d);
  }

  lemma StillWritable(o: Object, k: Key, v: Value)
    requires Ok(o) && !o.body.isRoot
    ensures !SetProperty(o, k, v).body.isRoot
  {}

  // ---------- Assignment ----------

  /** An assignment, case by case: an object that is not extensible takes none; an accessor is called if its setter
      is a function; a property that is not writable throws in strict code and is ignored in other; any other property
      takes the value and keeps its attributes; a new one has all three. */
  lemma AssignmentIs(o: Object, k: Key, v: Value, strict: bool, was: Functions)
    requires Ok(o) && !o.body.isRoot
    ensures var (p, r) := (Own(o, k.text), SetProp(o, k, v, strict, was));
      if o.body.frozen then r.FrozenObject?
      else if p.Some? && p.value.value.Accessor? then
        if was.setter.Function? then r == CallSetter(was.setter) else r.NoSetter?
      else if p.Some? && !p.value.attrs.writable then
        if strict then r.ReadOnly? else r == Stored(o)
      else
        && r.Stored?
        && (p.Some? ==> Own(r.o, k.text) == Some(Property(v, p.value.attrs)))
        && (Find(o.keys, k.text).None? && !DeletedElsewhere(o.body.deleted, k) ==>
              Own(r.o, k.text) == Some(Property(v, Attrs(true, true, true))))
        && forall text :: text != k.text ==> Own(r.o, text) == Own(o, text)
  {
    hide SetProperty, DeletedElsewhere, Deleted;
    var p := Own(o, k.text);
    if !o.body.frozen && !(p.Some? && (p.value.value.Accessor? || !p.value.attrs.writable)) {
      if p.Some? { NotDeletedElsewhere(o.body.deleted, k); }
      if Settable(o, k) { SetReadsBack(o, k, v); }
      forall text | text != k.text ensures Own(SetProperty(o, k, v), text) == Own(o, text) { SetOthers(o, k, v, text); }
    }
  }

  // ---------- Arrays ----------

  /** Writing under a text that reads as an index below 10000 makes an array at least that long, the new elements
      undefined; nothing else touches the elements, and no other object has any made. */
  lemma ArrayGrows(o: Object, k: Key, v: Value, attrs: Attrs)
    requires Ok(o) && !o.body.isRoot
    ensures var (a, n) := (o.body.elements, Atoi(k.text));
      var (s, d) := (SetProperty(o, k, v).body.elements, DefineDataProperty(o, k, v, attrs).body.elements);
      if o.body.kind == Array && n.Some? && 0 <= n.value < 10000 then
        && |s| == |d| == (if |a| > n.value then |a| else n.value + 1)
        && forall i :: 0 <= i < |s| ==> s[i] == d[i] == if i < |a| then a[i] else Undefined
      else s == d == a
  {
    hide Atoi, Without, Padded;
  }

  /** Deleting under the text of an element leaves undefined in its place; a refused deletion changes nothing. */
  lemma ElementDeleted(o: Object, k: Key)
    requires Ok(o) && !o.body.isRoot && !Deleted(o.body.deleted, k.text)
    ensures var ((done, r), n) := (DeleteProperty(o, k), Atoi(k.text));
      r.body.elements ==
        if done && o.body.kind == Array && n.Some? && 0 <= n.value < |o.body.elements|
        then o.body.elements[n.value := Undefined] else o.body.elements
  {
    hide Atoi;
  }

  // ---------- Integrity levels ----------

  /** The three levels close the object to new properties and change no value; sealing makes every property
      non-configurable, freezing every data property non-writable as well. */
  lemma IntegrityIs(o: Object, text: string)
    requires Ok(o)
    ensures var (f, s, x) := (Freeze(o), Seal(o), PreventExtensions(o));
      && f.body.frozen && s.body.frozen && x.body.frozen && Own(x, text) == Own(o, text)
      && match Own(o, text) {
           case None => Own(f, text).None? && Own(s, text).None?
           case Some(p) =>
             && Own(s, text) == Some(Property(p.value, Attrs(p.attrs.writable, p.attrs.enumerable, false)))
             && Own(f, text) == Some(Property(p.value, Attrs(p.value.Accessor? && p.attrs.writable, p.attrs.enumerable, false)))
         }
  {}
}

/** What operations through the overlay come to, in terms of what is seen afterwards. */
module ObjectLaws {
  import opened Options
  import opened Properties
  import opened Overlay
  import opened OverlayRuns
  import Decimals

  // ---------- Elements and prototypes ----------

  /** What a text is bound to in an object by itself: a property, or an element of an array under its index. */
  lemma BoundIs(o: Object, text: string)
    requires Ok(o)
    ensures Own(o, text).Some? ==> Bound(o, text) == Some(Own(o, text).value.value)
    ensures Deleted(o.body.deleted, text) ==> Bound(o, text) == None
    ensures Find(o.keys, text).None? && !Deleted(o.body.deleted, text) ==>
      var n := ArrayIndexKey(text);
      Bound(o, text) == if o.body.kind == Array && n.Some? && n.value < |o.body.elements| then Some(o.body.elements[n.value]) else None
  {}

  /** A changed prototype is the next object on the chain, for every handle of the object; nothing else about it is
      changed, and nothing about others. */
  lemma ProtoWritten(s: Heap, h: Handle, p: Handle, g: Handle)
    requires Valid(s) && Get(s, g).Some? && Get(s, h).Some?
    ensures var s1 := Write(s, h, SetProto(p));
      && Valid(s1) && Get(s1, g).Some?
      && Seen(s1, g).body.proto == (if Get(s, g) == Get(s, h) then p else Seen(s, g).body.proto)
      && Seen(s1, g) == Seen(s, g).(body := Seen(s, g).body.(proto := Seen(s1, g).body.proto))
      && Nth(View(s1), h, 1) == p
  {
    hide Valid, Write, Get, View, Seen, Ok;
    WriteSeen(s, h, SetProto(p), g);
    WriteSeen(s, h, SetProto(p), h);
    NotRoot(s, g);
    NotRoot(s, h);
    var s1 := Write(s, h, SetProto(p));
    assert h in View(s1) && Nth(View(s1), h, 1) == Nth(View(s1), View(s1)[h].body.proto, 0);
  }

  lemma NotRoot(s: Heap, g: Handle)
    requires Valid(s) && Get(s, g).Some?
    ensures !Seen(s, g).body.isRoot
  {}

  /** An element that is written is there, with undefined in the gap before it; the others stay. */
  lemma ElementWritten(s: Heap, h: Handle, i: nat, v: Value)
    requires Valid(s) && Get(s, h).Some?
    ensures var s1 := Write(s, h, Op.SetElement(i, v));
      && Valid(s1) && Get(s1, h).Some?
      && var (a, b) := (Seen(s, h).body.elements, Seen(s1, h).body.elements);
      && |b| == (if |a| > i then |a| else i + 1) && b[i] == v
      && (forall j :: 0 <= j < |b| && j != i ==> b[j] == if j < |a| then a[j] else Undefined)
      && Seen(s1, h) == Seen(s, h).(body := Seen(s, h).body.(elements := b))
  {
    hide Valid, Write, Get;
    WriteSeen(s, h, Op.SetElement(i, v), h);
  }

  // ---------- What is made, and what is not prepared ----------

  /** A new object has a handle of its own, no prototype and no properties; an array has its length of undefined
      elements, and the cell of an accessor its two functions. */
  lemma MadeIs(s: Heap, made: Made, text: string)
    requires Valid(s)
    ensures var (s1, h) := New(s, made);
      && Valid(s1) && Get(s1, h).Some? && h !in View(s)
      && var o := Seen(s1, h);
      && Own(o, text).None? && o.body.proto == NoHandle && !o.body.frozen
      && match made {
           case Plain => o.body.kind == Ordinary && o.body.elements == []
           case ArrayOf(n) => o.body.kind == Array && |o.body.elements| == n && forall i :: 0 <= i < n ==> o.body.elements[i] == Undefined
           case CellOf(fs) => o.body.kind == AccessorKind && FunctionsAt(View(s1), Some(h)) == fs
         }
  {
    NewValid(s, made);
    var (s1, h) := New(s, made);
    assert GetLocal(s1, h) == Some(|s.store|);
    assert s1.store[|s.store|] == Overlay.Cell(s.rootShape, NewBody(made));
    assert h in View(s1);
  }

  /** A function poked into the cell of an accessor is its getter or its setter; the other one stays. */
  lemma FunctionPoked(s: Heap, h: Handle, f: Value, setter: bool)
    requires Valid(s) && Get(s, h).Some?
    ensures var s1 := WriteDirect(s, h, SetFunction(f, setter));
      && Valid(s1) && h in View(s1) && h in View(s)
      && var (a, b) := (FunctionsAt(View(s), Some(h)), FunctionsAt(View(s1), Some(h)));
      && (setter ==> b.setter == f && (|Seen(s, h).body.elements| >= 2 ==> b.getter == a.getter))
      && (!setter ==> b.getter == f && (|Seen(s, h).body.elements| >= 2 ==> b.setter == a.setter))
  {
    hide Valid, WriteDirect, Get;
    DirectSeen(s, h, SetFunction(f, setter), h);
  }

  /** A constructor gives its receiver a kind, what belongs to it, and a prototype if it has one to give; the
      properties, elements and flags stay. */
  lemma Constructed(s: Heap, h: Handle, role: Role)
    requires Valid(s) && Get(s, h).Some?
    ensures var s1 := WriteDirect(s, h, Construct(role));
      && Valid(s1) && Get(s1, h).Some?
      && var (a, b) := (Seen(s, h), Seen(s1, h));
      && b.body.kind == role.kind && b.body.inner == role.inner
      && b.body.proto == (match role.proto case Some(p) => p case None => a.body.proto)
      && b == a.(body := a.body.(kind := role.kind, inner := role.inner, proto := b.body.proto))
  {
    hide Valid, WriteDirect, Get;
    DirectSeen(s, h, Construct(role), h);
  }

  // ---------- Steps of a program ----------

  /** Spreading one key assigns the value that the source's chain first binds it to, if the source's own property is
      enumerable, and does nothing if it is not. */
  lemma SpreadIs(s: Heap, dest: Handle, src: Handle, text: string, v: Value, n: nat)
    requires Valid(s) && Get(s, dest).Some? && src in View(s) && Seen(s, src).body.kind == Ordinary
    requires Own(Seen(s, src), text).Some? && FirstAt(View(s), src, text, n, v)
    ensures var (p, s1) := (Own(Seen(s, src), text).value, Do(s, Copy(dest, src, text)));
      && (p.attrs.enumerable ==> Get(s1, dest).Some? && Seen(s1, dest) == Properties.SetProperty(Seen(s, dest), Key(text, s.table), v))
      && (!p.attrs.enumerable ==> s1 == s)
  {
    hide Valid, Get, Seen, View, Walk, FirstAt, Properties.SetProperty, Write;
    ViewOk(s);
    GetPropertyExact(s, src, text, v);
    WriteSeen(s, dest, Op.SetProperty(text, v), dest);
    var p := Own(Seen(s, src), text).value;
    ListedOwn(Seen(s, src), text);
    var moves := Moves(View(s), Copy(dest, src, text), NamesOf(s));
    if p.attrs.enumerable {
      assert moves == [On(dest, Op.SetProperty(text, v))];
      OneAct(s, On(dest, Op.SetProperty(text, v)));
    } else {
      assert moves == [];
    }
  }

  lemma ListedOwn(o: Object, text: string)
    requires Ok(o) && o.body.kind == Ordinary && Own(o, text).Some?
    ensures Listed(o, text) <==> Own(o, text).value.attrs.enumerable
  {}

  lemma OneAct(s: Heap, mv: Move)
    requires Valid(s)
    ensures Acts(s, [mv]) == Act(s, mv)
  {
    hide Act;
    assert Acts(Act(s, mv), [mv][1..]) == Act(s, mv);
  }

  /** An accessor of a literal over a property whose value is a cell: that cell takes the function in the place asked
      for and keeps the other, and the object stays as it is. */
  lemma LiteralOverCell(s: Heap, h: Handle, text: string, f: Value, setter: bool, c: Handle)
    requires Valid(s) && h in View(s) && c in View(s) && Own(Seen(s, h), text).Some?
    requires Own(Seen(s, h), text).value.value == Accessor(c) && Seen(s, c).body.kind == AccessorKind && |Seen(s, c).body.elements| == 2
    ensures var s1 := Do(s, Literal(h, text, f, setter));
      && c in View(s1)
      && var (a, b) := (FunctionsAt(View(s), Some(c)), FunctionsAt(View(s1), Some(c)));
      && b == (if setter then a.(setter := f) else a.(getter := f))
      && (Get(s, h) != Get(s, c) ==> h in View(s1) && Seen(s1, h) == Seen(s, h))
  {
    hide Valid, Get, View, Seen, WriteDirect;
    ViewOk(s);
    BoundIs(Seen(s, h), text);
    OneAct(s, Poke(c, SetFunction(f, setter)));
    assert Moves(View(s), Literal(h, text, f, setter), NamesOf(s)) == [Poke(c, SetFunction(f, setter))];
    FunctionPoked(s, c, f, setter);
    DirectSeen(s, c, SetFunction(f, setter), h);
  }

  // ---------- Index texts ----------

  lemma {:induction false} NumberIs(s: string)
    requires forall i :: 0 <= i < |s| ==> Digit(s[i])
    ensures Decimals.IsDigits(s) && Number(s) == Decimals.DecOf(s)
  {
    if s != "" {
      assert Digit(s[|s| - 1]);
      NumberIs(s[..|s| - 1]);
    }
  }

  /** The texts that name elements are the decimal texts of numbers that fit a 64-bit int, each for its own number. */
  lemma IndexTexts(s: string, n: nat)
    ensures ArrayIndexKey(s) == Some(n) <==> n < INT_LIMIT && s == Decimals.Dec(n)
  {
    hide Number;
    hide Decimals.DecOf, Decimals.Digits;
    if Digits(s) {
      NumberIs(s);
      if s[0] == '0' { LeadingZero(s, n); } else { Decimals.DigitsOfDec(s); }
    }
    if s == Decimals.Dec(n) {
      assert forall i :: 0 <= i < |s| ==> Decimals.IsDigit(s[i]) == Digit(s[i]);
      Decimals.DecOfDigits(n);
    }
  }

  /** Only zero's own text begins with a zero. */
  lemma LeadingZero(s: string, n: nat)
    requires Digits(s) && s[0] == '0'
    ensures s == Decimals.Dec(n) ==> s == "0" && n == 0
    ensures s == "0" ==> Number(s) == 0
  {
    if s == "0" { assert s[..0] == ""; }
  }

  /** A text of digits reads as its number, after a minus sign as the opposite; beyond 64 bits it does not read. */
  lemma TextsRead(ds: string)
    requires Decimals.IsDigits(ds) && ds != ""
    ensures var n: int := Decimals.DecOf(ds);
      && Atoi(ds) == Atoi("+" + ds) == (if n < 0x8000_0000_0000_0000 then Some(n) else None)
      && Atoi("-" + ds) == (if n <= 0x8000_0000_0000_0000 then Some(-n) else None)
  {
    hide Number, Decimals.DecOf;
    assert forall i :: 0 <= i < |ds| ==> Decimals.IsDigit(ds[i]);
    NumberIs(ds);
    assert ("+" + ds)[1..] == ds && ("-" + ds)[1..] == ds;
  }
}
