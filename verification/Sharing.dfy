/**
 Several objects, and the cells their accessors live in.  A cell is an object of its own: spreading copies a
 property's value as it is, so two objects can hold one cell, and a definition through one of them shows in both.
 */
module Sharing {
  import opened Options
  import opened Properties
  import opened Descriptors

  /** Accessor(Local(c)) names cell c.  `building` are the object literals and classes still being evaluated, which
      nothing else can reach. */
  datatype Memory = Memory(objects: seq<Object>, building: set<nat>, cells: seq<Functions>, table: nat)

  datatype Step =
    | Open | Close(i: nat) | Copy(i: nat, src: nat, from: nat, text: string) | Literal(i: nat, text: string, f: Value, setter: bool)
    | Define(i: nat, text: string, d: Desc) | Assign(i: nat, text: string, v: Value, strict: bool)
    | Remove(i: nat, text: string) | FreezeObject(i: nat) | SealObject(i: nat) | PreventExtensionsOf(i: nat)

  const EMPTY := Object([], Body(Ordinary, [], [], [], [], NoHandle, false, false, []))

  // ---------- Well-formed memories ----------

  predicate InRange(v: Value, n: nat) { v.Accessor? ==> v.cell.Local? && v.cell.i < n }

  predicate CellsIn(o: Object, n: nat) { forall j :: 0 <= j < |o.body.slots| ==> InRange(o.body.slots[j], n) }

  /** A slot with an accessor whose key is deleted is hidden for good, by an entry no key of this heap takes off. */
  predicate HiddenIn(o: Object, table: nat)
    requires Ok(o)
  {
    forall j :: 0 <= j < |o.keys| && o.body.slots[j].Accessor? ==> HiddenAt(o.body.deleted, o.keys[j].text, table)
  }

  predicate HiddenAt(ds: seq<Key>, text: string, table: nat) { Deleted(ds, text) ==> DeletedElsewhere(ds, Key(text, table)) }

  /** An object under construction: nothing restricts it yet. */
  predicate Loose(o: Object) {
    && !o.body.frozen && o.body.deleted == [] && forall j :: 0 <= j < |o.body.attrs| ==> o.body.attrs[j] == DEFAULT
  }

  predicate ObjectOk(o: Object, n: nat, table: nat) { Ok(o) && !o.body.isRoot && CellsIn(o, n) && HiddenIn(o, table) }

  ghost predicate MemoryOk(m: Memory) {
    && (forall i :: 0 <= i < |m.objects| ==> ObjectOk(m.objects[i], |m.cells|, m.table))
    && (forall i :: i in m.building ==> i < |m.objects| && Loose(m.objects[i]))
  }

  lemma OkOf(m: Memory, i: nat)
    requires MemoryOk(m) && i < |m.objects|
    ensures ObjectOk(m.objects[i], |m.cells|, m.table) && Ok(m.objects[i]) && !m.objects[i].body.isRoot
  {
    assert ObjectOk(m.objects[i], |m.cells|, m.table);
  }

  /** The property an object of the memory has. */
  function PropertyOf(m: Memory, i: nat, text: string): Option<Property>
    requires MemoryOk(m) && i < |m.objects|
  {
    OkOf(m, i); Own(m.objects[i], text)
  }

  // ---------- Steps ----------

  /** What a literal does it does to the object it builds; the other operations need one that is there.  A spread
      goes through the enumerable keys of `src`, deleted ones too; what is deleted is found further up its
      prototypes, in `from`.  Any value a program has can be assigned or defined, cells too, which computed reads of
      accessors give. */
  predicate Legal(m: Memory, st: Step) {
    match st
    case Open => true
    case Close(i) => i in m.building
    case Copy(i, src, from, text) =>
      && i in m.building && src < |m.objects| && from < |m.objects| && Ok(m.objects[src]) && Listed(m.objects[src], text)
      && (from == src || Deleted(m.objects[src].body.deleted, text))
    case Literal(i, _, f, _) => i in m.building && IsFunction(f)
    case Assign(i, _, v, _) => i < |m.objects| && InRange(v, |m.cells|)
    case Define(i, _, d) => i < |m.objects| && i !in m.building && (d.value.Some? ==> InRange(d.value.value, |m.cells|))
    case _ => st.i < |m.objects| && st.i !in m.building
  }

  /** What the cell of a property holds. */
  function FunctionsOf(m: Memory, p: Option<Property>): Functions {
    if IsAccessor(p) && p.value.value.cell.Local? && p.value.value.cell.i < |m.cells| then m.cells[p.value.value.cell.i] else NO_FUNCTIONS
  }

  /** The cell an accessor is written to: the property's own, or a new one. */
  function CellFor(m: Memory, p: Option<Property>): Handle {
    if IsAccessor(p) then p.value.value.cell else Local(|m.cells|)
  }

  function Put(m: Memory, i: nat, o: Object): Memory
    requires i < |m.objects|
  {
    m.(objects := m.objects[i := o])
  }

  function Fill(m: Memory, cell: Handle, fs: Functions): Memory {
    if !cell.Local? then m
    else if cell.i < |m.cells| then m.(cells := m.cells[cell.i := fs])
    else m.(cells := m.cells + [fs])
  }

  function With(fs: Functions, f: Value, setter: bool): Functions { if setter then fs.(setter := f) else fs.(getter := f) }

  function Do(m: Memory, st: Step): Memory
    requires MemoryOk(m)
  {
    if !Legal(m, st) then m
    else if st.Open? then m.(objects := m.objects + [EMPTY], building := m.building + {|m.objects|})
    else if st.Close? then m.(building := m.building - {st.i})
    else if st.Copy? then DoCopy(m, st.i, st.from, st.text)
    else
      OkOf(m, st.i);
      var o := m.objects[st.i];
      match st
      case Literal(i, text, f, setter) => DoLiteral(m, i, text, f, setter)
      case Define(i, text, d) => DoDefine(m, i, text, d)
      case Assign(i, text, v, strict) => Put(m, i, After(o, SetProp(o, Key(text, m.table), v, strict, FunctionsOf(m, Own(o, text)))))
      case Remove(i, text) => Put(m, i, DeleteProperty(o, Key(text, m.table)).1)
      case FreezeObject(i) => Put(m, i, Freeze(o))
      case SealObject(i) => Put(m, i, Seal(o))
      case PreventExtensionsOf(i) => Put(m, i, PreventExtensions(o))
  }

  /** One key of a spread: the value found is copied as it is. */
  function DoCopy(m: Memory, i: nat, from: nat, text: string): Memory
    requires MemoryOk(m) && i < |m.objects| && from < |m.objects|
  {
    OkOf(m, i);
    var p := PropertyOf(m, from, text);
    if p.Some? then Put(m, i, SetProperty(m.objects[i], Key(text, m.table), p.value.value)) else m
  }

  /** An accessor in a literal or a class, whatever the attributes are. */
  function DoLiteral(m: Memory, i: nat, text: string, f: Value, setter: bool): Memory
    requires MemoryOk(m) && i < |m.objects|
  {
    OkOf(m, i);
    var p := PropertyOf(m, i, text);
    var m1 := Fill(m, CellFor(m, p), With(FunctionsOf(m, p), f, setter));
    if IsAccessor(p) then m1 else Put(m1, i, SetProperty(m.objects[i], Key(text, m.table), Accessor(CellFor(m, p))))
  }

  function DoDefine(m: Memory, i: nat, text: string, d: Desc): Memory
    requires MemoryOk(m) && i < |m.objects|
  {
    OkOf(m, i);
    var p := PropertyOf(m, i, text);
    match DefineFromDesc(m.objects[i], Key(text, m.table), d, FunctionsOf(m, p), CellFor(m, p))
    case TypeError(_) => m
    case Done(o, fs) => Put(if fs.Some? then Fill(m, CellFor(m, p), fs.value) else m, i, o)
  }

  function Run(m: Memory, steps: seq<Step>): Memory
    requires MemoryOk(m)
    decreases |steps|
  {
    if steps == [] then m else DoOk(m, steps[0]); Run(Do(m, steps[0]), steps[1..])
  }

  // ---------- Memories stay well formed ----------

  lemma HiddenWithout(ds: seq<Key>, k: Key, text: string)
    requires HiddenAt(ds, text, k.table)
    ensures HiddenAt(Without(ds, k), text, k.table)
  {
    DeletedWithout(ds, k, text);
    var r := Without(ds, k);
    if Deleted(r, text) {
      assert DeletedElsewhere(ds, Key(text, k.table));
      var i :| 0 <= i < |ds| && ds[i].text == text && ds[i] != Key(text, k.table);
      assert ds[i] in r;
      var j :| 0 <= j < |r| && r[j] == ds[i];
    }
  }

  /** A key taken off the list is hidden only for good. */
  lemma HiddenOwn(ds: seq<Key>, k: Key)
    ensures HiddenAt(Without(ds, k), k.text, k.table)
  {
    DeletedWithout(ds, k, k.text);
    var r := Without(ds, k);
    if Deleted(r, k.text) {
      var j :| 0 <= j < |r| && r[j].text == k.text;
      assert r[j] in r;
      assert r[j] != k;
    }
  }

  lemma SetOk(o: Object, k: Key, v: Value, n: nat)
    requires ObjectOk(o, n, k.table) && InRange(v, n)
    ensures ObjectOk(SetProperty(o, k, v), n, k.table) && (Loose(o) ==> Loose(SetProperty(o, k, v)))
  {
    var r := SetProperty(o, k, v);
    forall j | 0 <= j < |r.keys| && r.body.slots[j].Accessor? ensures HiddenAt(r.body.deleted, r.keys[j].text, k.table) {
      if r.keys[j].text == k.text { HiddenOwn(o.body.deleted, k); }
      else { HiddenWithout(o.body.deleted, k, r.keys[j].text); }
    }
    hide GrowFor, Unique, HiddenAt;
    assert Ok(r);
    if Loose(o) { assert Without([], k) == []; }
  }

  lemma DefineDataOk(o: Object, k: Key, v: Value, attrs: Attrs, n: nat)
    requires ObjectOk(o, n, k.table) && InRange(v, n)
    ensures ObjectOk(DefineDataProperty(o, k, v, attrs), n, k.table)
  {
    var r := DefineDataProperty(o, k, v, attrs);
    forall j | 0 <= j < |r.keys| && r.body.slots[j].Accessor? ensures HiddenAt(r.body.deleted, r.keys[j].text, k.table) {
      if r.keys[j].text == k.text { HiddenOwn(o.body.deleted, k); }
      else { HiddenWithout(o.body.deleted, k, r.keys[j].text); }
    }
    hide GrowFor, Unique, Padded, HiddenAt;
    assert Ok(r);
  }

  lemma HiddenMore(ds: seq<Key>, k: Key, text: string, table: nat)
    requires HiddenAt(ds, text, table) && text != k.text
    ensures HiddenAt(ds + [k], text, table)
  {
    if Deleted(ds + [k], text) {
      var i :| 0 <= i < |ds + [k]| && (ds + [k])[i].text == text;
      assert ds[i].text == text;
      var j :| 0 <= j < |ds| && ds[j].text == text && ds[j] != Key(text, table);
      assert (ds + [k])[j] == ds[j];
    }
  }

  lemma DeleteOk(o: Object, k: Key, n: nat)
    requires ObjectOk(o, n, k.table)
    ensures ObjectOk(DeleteProperty(o, k).1, n, k.table)
  {
    var r := DeleteProperty(o, k).1;
    if r != o {
      forall j | 0 <= j < |r.keys| && r.body.slots[j].Accessor? ensures HiddenAt(r.body.deleted, r.keys[j].text, k.table) {
        HiddenMore(o.body.deleted, k, r.keys[j].text, k.table);
      }
    }
    hide Atoi, Deleted, HiddenAt, Unique;
    assert Ok(r);
  }

  lemma MoreCells(o: Object, n: nat, n1: nat, table: nat)
    requires ObjectOk(o, n, table) && n <= n1
    ensures ObjectOk(o, n1, table)
  {
    hide Ok, HiddenAt;
    forall j | 0 <= j < |o.body.slots| ensures InRange(o.body.slots[j], n1) { assert InRange(o.body.slots[j], n); }
  }

  lemma OwnInRange(m: Memory, i: nat, text: string)
    requires MemoryOk(m) && i < |m.objects|
    ensures PropertyOf(m, i, text).Some? ==> InRange(PropertyOf(m, i, text).value.value, |m.cells|)
    ensures var (cell, p) := (CellFor(m, PropertyOf(m, i, text)), PropertyOf(m, i, text));
      cell.Local? && cell.i <= |m.cells| && (IsAccessor(p) <==> cell.i < |m.cells|) && InRange(Accessor(cell), |m.cells| + 1)
      && (IsAccessor(p) ==> FunctionsOf(m, p) == m.cells[cell.i])
  {
    OkOf(m, i);
  }

  lemma LevelOk(o: Object, r: Object, n: nat, table: nat)
    requires ObjectOk(o, n, table) && Ok(r) && r.keys == o.keys && r.body.slots == o.body.slots && r.body.deleted == o.body.deleted
    requires r.body.isRoot == o.body.isRoot
    ensures ObjectOk(r, n, table)
  {
    hide Ok, HiddenAt;
  }

  lemma PutOk(m: Memory, i: nat, o: Object)
    requires MemoryOk(m) && i < |m.objects| && ObjectOk(o, |m.cells|, m.table) && (i in m.building ==> Loose(o))
    ensures MemoryOk(Put(m, i, o))
  {
    hide ObjectOk, Loose;
  }

  lemma FillOk(m: Memory, cell: Handle, fs: Functions)
    requires MemoryOk(m) && cell.Local? && cell.i <= |m.cells|
    ensures MemoryOk(Fill(m, cell, fs)) && cell.i < |Fill(m, cell, fs).cells|
  {
    forall i | 0 <= i < |m.objects| ensures ObjectOk(m.objects[i], |Fill(m, cell, fs).cells|, m.table) {
      OkOf(m, i);
      MoreCells(m.objects[i], |m.cells|, |Fill(m, cell, fs).cells|, m.table);
    }
    hide ObjectOk, Loose;
  }

  lemma BuildingLoose(m: Memory, i: nat)
    requires MemoryOk(m) && i in m.building
    ensures i < |m.objects| && Loose(m.objects[i])
  {}

  lemma DoOk(m: Memory, st: Step)
    requires MemoryOk(m)
    ensures MemoryOk(Do(m, st))
  {
    if Legal(m, st) {
      match st
      case Open => OpenOk(m);
      case Close(_) => hide ObjectOk, Loose;
      case Copy(i, _, from, text) => CopyOk(m, i, from, text);
      case Literal(i, text, f, setter) => LiteralOk(m, i, text, f, setter);
      case Define(i, text, d) => DefineOk(m, i, text, d);
      case Assign(i, text, v, strict) => AssignOk(m, i, text, v, strict);
      case Remove(i, text) =>
        OkOf(m, i);
        DeleteOk(m.objects[i], Key(text, m.table), |m.cells|);
        PutOk(m, i, DeleteProperty(m.objects[i], Key(text, m.table)).1);
      case _ => LevelsOk(m, st);
    }
    hide MemoryOk, ObjectOk, Loose, Own, DeleteProperty, SetProp, DoCopy, DoLiteral, DoDefine, Freeze, Seal, PreventExtensions;
  }

  lemma LevelsOk(m: Memory, st: Step)
    requires MemoryOk(m) && Legal(m, st) && (st.FreezeObject? || st.SealObject? || st.PreventExtensionsOf?)
    ensures MemoryOk(Do(m, st))
  {
    OkOf(m, st.i);
    var r := Do(m, st).objects[st.i];
    LevelOk(m.objects[st.i], r, |m.cells|, m.table);
    PutOk(m, st.i, r);
    hide MemoryOk, ObjectOk, Loose;
  }

  lemma OpenOk(m: Memory)
    requires MemoryOk(m)
    ensures MemoryOk(Do(m, Open))
  {
    EmptyOk(|m.cells|, m.table);
    hide ObjectOk;
    assert Loose(EMPTY);
  }

  lemma EmptyOk(n: nat, table: nat)
    ensures ObjectOk(EMPTY, n, table)
  {}

  lemma CopyOk(m: Memory, i: nat, from: nat, text: string)
    requires MemoryOk(m) && i in m.building && from < |m.objects|
    ensures i < |m.objects| && MemoryOk(DoCopy(m, i, from, text))
  {
    BuildingLoose(m, i);
    OkOf(m, i);
    OwnInRange(m, from, text);
    hide ObjectOk, Own, SetProperty, Loose, MemoryOk;
    var p := PropertyOf(m, from, text);
    if p.Some? {
      SetOk(m.objects[i], Key(text, m.table), p.value.value, |m.cells|);
      PutOk(m, i, SetProperty(m.objects[i], Key(text, m.table), p.value.value));
    }
  }

  lemma LiteralOk(m: Memory, i: nat, text: string, f: Value, setter: bool)
    requires MemoryOk(m) && i in m.building
    ensures i < |m.objects| && MemoryOk(DoLiteral(m, i, text, f, setter))
  {
    BuildingLoose(m, i);
    OkOf(m, i);
    OwnInRange(m, i, text);
    hide ObjectOk, Own, SetProperty, Loose, MemoryOk;
    var p := PropertyOf(m, i, text);
    FillOk(m, CellFor(m, p), With(FunctionsOf(m, p), f, setter));
    var m1 := Fill(m, CellFor(m, p), With(FunctionsOf(m, p), f, setter));
    if !IsAccessor(p) {
      OkOf(m1, i);
      SetOk(m.objects[i], Key(text, m.table), Accessor(CellFor(m, p)), |m1.cells|);
      PutOk(m1, i, SetProperty(m.objects[i], Key(text, m.table), Accessor(CellFor(m, p))));
    }
  }

  lemma DefineOk(m: Memory, i: nat, text: string, d: Desc)
    requires MemoryOk(m) && i < |m.objects| && i !in m.building && (d.value.Some? ==> InRange(d.value.value, |m.cells|))
    ensures MemoryOk(DoDefine(m, i, text, d))
  {
    OkOf(m, i);
    OwnInRange(m, i, text);
    var (o, k) := (m.objects[i], Key(text, m.table));
    var p := PropertyOf(m, i, text);
    var (was, cell) := (FunctionsOf(m, p), CellFor(m, p));
    var r := DefineFromDesc(o, k, d, was, cell);
    if r.Done? {
      if r.functions.Some? {
        FillOk(m, cell, r.functions.value);
        var m1 := Fill(m, cell, r.functions.value);
        OkOf(m1, i);
        SetOk(o, k, Accessor(cell), |m1.cells|);
        LevelOk(SetProperty(o, k, Accessor(cell)), r.o, |m1.cells|, m.table);
        PutOk(m1, i, r.o);
      } else {
        DefineDataOk(o, k, OrElse(d.value, if p.Some? then p.value.value else Undefined), NewAttrs(p, d), |m.cells|);
        PutOk(m, i, r.o);
      }
    }
    hide ObjectOk, Own, SetProperty, Loose, MemoryOk, Malformed, Refusal, NewAttrs, DefineDataProperty, Padded;
  }

  lemma AssignOk(m: Memory, i: nat, text: string, v: Value, strict: bool)
    requires MemoryOk(m) && Legal(m, Assign(i, text, v, strict))
    ensures MemoryOk(Do(m, Assign(i, text, v, strict)))
  {
    OkOf(m, i);
    if i in m.building { BuildingLoose(m, i); }
    hide ObjectOk, Own, SetProperty, Loose, MemoryOk;
    SetOk(m.objects[i], Key(text, m.table), v, |m.cells|);
    PutOk(m, i, After(m.objects[i], SetProp(m.objects[i], Key(text, m.table), v, strict, FunctionsOf(m, PropertyOf(m, i, text)))));
  }

  // ---------- Every object keeps its invariants ----------

  /** Nothing restricts an object under construction, so nothing can be broken there. */
  lemma LooseKeeps(o: Object, r: Object)
    requires Ok(o) && Ok(r) && Loose(o)
    ensures Keeps(o, r)
  {
    forall text ensures KeepsAt(o, r, text) {}
  }

  lemma DoLength(m: Memory, st: Step)
    requires MemoryOk(m)
    ensures |Do(m, st).objects| >= |m.objects| && Do(m, st).table == m.table
  {
    hide Own, Freeze, Seal, PreventExtensions, DeleteProperty, SetProp, DefineFromDesc, SetProperty, Loose;
  }

  /** The step stores a cell over a data property of object i that is not configurable, and so makes an accessor of it. */
  predicate Recasts(m: Memory, st: Step, i: nat)
    requires MemoryOk(m) && i < |m.objects|
  {
    Legal(m, st) &&
    (OkOf(m, i);
     match st
     case Assign(j, text, v, _) => j == i && AssignRecasts(m.objects[i], Key(text, m.table), v)
     case Define(j, text, d) => j == i && DefineRecasts(m.objects[i], Key(text, m.table), d, FunctionsOf(m, PropertyOf(m, i, text)))
     case _ => false)
  }

  /** A step keeps the invariants of an object exactly when it is not that. */
  lemma StepKeeps(m: Memory, st: Step, i: nat)
    requires MemoryOk(m) && i < |m.objects|
    ensures MemoryOk(Do(m, st)) && |Do(m, st).objects| >= |m.objects| && Ok(m.objects[i]) && Ok(Do(m, st).objects[i])
    ensures Keeps(m.objects[i], Do(m, st).objects[i]) <==> !Recasts(m, st, i)
  {
    DoOk(m, st);
    OkOf(m, i);
    DoLength(m, st);
    OkOf(Do(m, st), i);
    var o := m.objects[i];
    if i in m.building {
      BuildingLoose(m, i);
      LooseKeeps(o, Do(m, st).objects[i]);
      LooseNever(m, st, i);
    } else {
      KeepsSelf(o);
      if Legal(m, st) && !st.Open? && st.i == i { ChangeKeeps(m, st); }
    }
    hide MemoryOk, ObjectOk, Keeps, Own, Freeze, Seal, PreventExtensions, DeleteProperty, SetProp, DefineFromDesc, SetProperty, Loose,
         AssignRecasts, DefineRecasts;
  }

  lemma LooseNever(m: Memory, st: Step, i: nat)
    requires MemoryOk(m) && i in m.building && i < |m.objects| && Loose(m.objects[i])
    ensures !Recasts(m, st, i)
  {
    OkOf(m, i);
    hide MemoryOk;
  }

  lemma ChangeKeeps(m: Memory, st: Step)
    requires MemoryOk(m) && Legal(m, st) && !st.Open? && st.i < |m.objects| && st.i !in m.building
    requires Ok(m.objects[st.i]) && |Do(m, st).objects| >= |m.objects| && Ok(Do(m, st).objects[st.i])
    ensures Keeps(m.objects[st.i], Do(m, st).objects[st.i]) <==> !Recasts(m, st, st.i)
  {
    OkOf(m, st.i);
    var o := m.objects[st.i];
    KeepsSelf(o);
    match st
    case Define(_, text, d) =>
      var p := Own(o, text);
      if DefineFromDesc(o, Key(text, m.table), d, FunctionsOf(m, p), CellFor(m, p)).Done? {
        DefineKeeps(o, Key(text, m.table), d, FunctionsOf(m, p), CellFor(m, p));
      } else {
        RefusedNever(o, Key(text, m.table), d, FunctionsOf(m, p), CellFor(m, p));
      }
    case Assign(_, text, v, strict) => AssignKeeps(o, Key(text, m.table), v, strict, FunctionsOf(m, Own(o, text)));
    case Remove(_, text) => RemoveKeeps(o, Key(text, m.table));
    case _ => IntegrityLevelsKeep(o);
    hide MemoryOk, ObjectOk, Keeps, Own, Freeze, Seal, PreventExtensions, DeleteProperty, SetProp, DefineFromDesc, SetProperty, Loose,
         AssignRecasts, DefineRecasts;
  }

  lemma RefusedNever(o: Object, k: Key, d: Desc, was: Functions, cell: Handle)
    requires Ok(o) && DefineFromDesc(o, k, d, was, cell).TypeError?
    ensures !DefineRecasts(o, k, d, was)
  {
    hide Own, Refusal;
  }

  ghost predicate NeverRecasts(m: Memory, steps: seq<Step>, i: nat)
    requires MemoryOk(m) && i < |m.objects|
    decreases |steps|
  {
    steps == []
    || (!Recasts(m, steps[0], i) && (DoOk(m, steps[0]); DoLength(m, steps[0]); NeverRecasts(Do(m, steps[0]), steps[1..], i)))
  }

  ghost predicate EveryStepKeeps(m: Memory, steps: seq<Step>, i: nat)
    requires MemoryOk(m) && i < |m.objects|
    decreases |steps|
  {
    steps == [] || (
      StepKeeps(m, steps[0], i);
      Keeps(m.objects[i], Do(m, steps[0]).objects[i]) && EveryStepKeeps(Do(m, steps[0]), steps[1..], i))
  }

  lemma {:induction false} RunOk(m: Memory, steps: seq<Step>, i: nat)
    requires MemoryOk(m) && i < |m.objects|
    ensures i < |Run(m, steps).objects| && Ok(m.objects[i]) && Ok(Run(m, steps).objects[i])
    decreases |steps|
  {
    OkOf(m, i);
    hide MemoryOk, Do, Ok;
    if steps != [] {
      DoOk(m, steps[0]);
      DoLength(m, steps[0]);
      RunOk(Do(m, steps[0]), steps[1..], i);
    }
  }

  /** Over any run over any number of objects, of each of them: a property that is not configurable stays, with its
      enumerability; one that is not writable either keeps its value up to SameValue, and every accessor its cell;
      writable only falls; an object that is not extensible gains no property and stays so.  That is so at every step
      exactly if none makes an accessor of such a property by storing a cell in it, and then from start to end. */
  lemma {:induction false} RunKeeps(m: Memory, steps: seq<Step>, i: nat)
    requires MemoryOk(m) && i < |m.objects|
    ensures EveryStepKeeps(m, steps, i) <==> NeverRecasts(m, steps, i)
    ensures i < |Run(m, steps).objects| && Ok(m.objects[i]) && Ok(Run(m, steps).objects[i])
    ensures NeverRecasts(m, steps, i) ==> Keeps(m.objects[i], Run(m, steps).objects[i])
    decreases |steps|
  {
    OkOf(m, i);
    RunOk(m, steps, i);
    hide MemoryOk, Keeps, Do, Ok, Recasts;
    if steps == [] {
      KeepsSelf(m.objects[i]);
    } else {
      StepKeeps(m, steps[0], i);
      RunKeeps(Do(m, steps[0]), steps[1..], i);
      if NeverRecasts(m, steps, i) { KeepsTrans(m.objects[i], Do(m, steps[0]).objects[i], Run(m, steps).objects[i]); }
    }
  }

  /** Nothing more can be done to the object. */
  ghost predicate Locked(o: Object)
    requires Ok(o)
  {
    o.body.frozen && forall text :: LockedAt(o, text)
  }

  predicate LockedAt(o: Object, text: string)
    requires Ok(o)
  {
    var p := Own(o, text); p.Some? ==> !p.value.attrs.configurable && (IsAccessor(p) || !p.value.attrs.writable)
  }

  lemma LockedNever(m: Memory, st: Step, i: nat)
    requires MemoryOk(m) && i < |m.objects| && Ok(m.objects[i]) && Locked(m.objects[i])
    ensures !Recasts(m, st, i)
  {
    if (st.Assign? || st.Define?) && st.i == i { assert LockedAt(m.objects[i], st.text); }
    hide MemoryOk, Own;
  }

  lemma LockedStays(o: Object, r: Object)
    requires Ok(o) && Ok(r) && Locked(o) && Keeps(o, r)
    ensures Locked(r)
  {
    forall text ensures LockedAt(r, text) { assert KeepsAt(o, r, text) && LockedAt(o, text); }
    hide Own, Ok;
  }

  lemma {:induction false} LockedForever(m: Memory, steps: seq<Step>, i: nat)
    requires MemoryOk(m) && i < |m.objects| && Ok(m.objects[i]) && Locked(m.objects[i])
    ensures NeverRecasts(m, steps, i)
    decreases |steps|
  {
    hide MemoryOk, Keeps, Do, Ok, Recasts, Locked;
    if steps != [] {
      LockedNever(m, steps[0], i);
      StepKeeps(m, steps[0], i);
      LockedStays(m.objects[i], Do(m, steps[0]).objects[i]);
      LockedForever(Do(m, steps[0]), steps[1..], i);
    }
  }

  /** After Object.freeze no run adds or removes a property, changes the value of a data property, or gives an
      accessor another cell. */
  lemma FrozenForever(m: Memory, i: nat, steps: seq<Step>, text: string)
    requires MemoryOk(m) && Legal(m, FreezeObject(i))
    ensures MemoryOk(Do(m, FreezeObject(i))) && i < |Run(Do(m, FreezeObject(i)), steps).objects|
    ensures Ok(m.objects[i]) && Ok(Run(Do(m, FreezeObject(i)), steps).objects[i])
    ensures var (p, q) := (Own(m.objects[i], text), Own(Run(Do(m, FreezeObject(i)), steps).objects[i], text));
      && (p.Some? <==> q.Some?)
      && (p.Some? ==> SameValue(p.value.value, q.value.value) && !q.value.attrs.configurable
                      && (p.value.value.Accessor? || !q.value.attrs.writable))
  {
    DoOk(m, FreezeObject(i));
    OkOf(m, i);
    var m1 := Do(m, FreezeObject(i));
    assert m1.objects[i] == Freeze(m.objects[i]);
    FrozenLocked(m.objects[i]);
    LockedForever(m1, steps, i);
    RunKeeps(m1, steps, i);
    assert KeepsAt(m1.objects[i], Run(m1, steps).objects[i], text);
    FrozenOwn(m.objects[i], text);
    hide Run, Ok, Own, Keeps, Freeze, Do, MemoryOk, Locked;
  }

  lemma FrozenLocked(o: Object)
    requires Ok(o)
    ensures Locked(Freeze(o))
  {
    forall text ensures LockedAt(Freeze(o), text) { FrozenOwn(o, text); }
    hide Own, Ok;
  }

  // ---------- What changes the functions of an accessor ----------

  /** The property is an accessor in that cell. */
  predicate Holds(m: Memory, i: nat, text: string, c: nat)
    requires MemoryOk(m)
  {
    i < |m.objects| && PropertyOf(m, i, text).Some? && PropertyOf(m, i, text).value.value == Accessor(Local(c))
  }

  predicate Configurable(m: Memory, i: nat, text: string)
    requires MemoryOk(m) && i < |m.objects|
  {
    PropertyOf(m, i, text).Some? && PropertyOf(m, i, text).value.attrs.configurable
  }

  /** Told before the step: a definition that is accepted, through a property in that cell, with another function. */
  predicate Redefines(m: Memory, st: Step, c: nat)
    requires MemoryOk(m)
  {
    c < |m.cells| && Legal(m, st) &&
    match st
    case Literal(i, text, f, setter) => Holds(m, i, text, c) && With(m.cells[c], f, setter) != m.cells[c]
    case Define(i, text, d) =>
      && Holds(m, i, text, c) && (d.getter.Some? || d.setter.Some?) && Filled(m.cells[c], d) != m.cells[c]
      && Malformed(d).None? && (Configurable(m, i, text) || Refusal(PropertyOf(m, i, text).value, d, m.cells[c]).None?)
    case _ => false
  }

  /** A step changes the functions in a cell exactly when it is such a definition. */
  lemma StepFunctions(m: Memory, st: Step, c: nat)
    requires MemoryOk(m) && c < |m.cells|
    ensures |Do(m, st).cells| >= |m.cells|
    ensures Do(m, st).cells[c] == m.cells[c] <==> !Redefines(m, st, c)
  {
    match st
    case Literal(i, text, _, _) => if Legal(m, st) { OkOf(m, i); OwnInRange(m, i, text); }
    case Define(i, text, d) => if Legal(m, st) { OkOf(m, i); OwnInRange(m, i, text); }
    case _ =>
    hide MemoryOk, Own, Freeze, Seal, PreventExtensions, DeleteProperty, SetProp, SetProperty, Malformed, Refusal, NewAttrs, DefineDataProperty, SetPropertyAttrs;
  }

  /** No definition through a property that is not configurable changes them: it has to go through another
      property, a configurable one, in the same cell. */
  lemma ThroughAnother(m: Memory, st: Step, c: nat)
    requires MemoryOk(m) && Redefines(m, st, c)
    ensures (st.Define? || st.Literal?) && Holds(m, st.i, st.text, c) && Configurable(m, st.i, st.text)
  {
    if st.Literal? { BuildingLoose(m, st.i); OkOf(m, st.i); }
    else if !Configurable(m, st.i, st.text) { AccessorFixed(PropertyOf(m, st.i, st.text).value, st.d, m.cells[c]); }
    hide MemoryOk, Refusal, Malformed;
  }

  /** Some configurable property is in the cell. */
  ghost predicate Changeable(m: Memory, c: nat)
    requires MemoryOk(m)
  {
    exists i, text :: Holds(m, i, text, c) && Configurable(m, i, text)
  }

  /** A next step can change an accessor's functions exactly if a configurable property is in its cell. */
  lemma Exposed(m: Memory, c: nat)
    requires MemoryOk(m) && c < |m.cells|
    ensures (exists st :: Redefines(m, st, c)) <==> Changeable(m, c)
  {
    forall st | Redefines(m, st, c) ensures Changeable(m, c) { ThroughAnother(m, st, c); }
    if Changeable(m, c) {
      var i, text :| Holds(m, i, text, c) && Configurable(m, i, text);
      var f := Function(Local(if m.cells[c].getter == Function(Local(0)) then 1 else 0));
      var st := if i in m.building then Literal(i, text, f, false)
                else Define(i, text, Desc(Some(f), None, None, None, None, None));
      assert Redefines(m, st, c);
    }
    hide MemoryOk, Holds, Configurable;
  }

  // ---------- Over runs ----------

  ghost predicate NeverRedefines(m: Memory, steps: seq<Step>, c: nat)
    requires MemoryOk(m)
    decreases |steps|
  {
    steps == [] || (!Redefines(m, steps[0], c) && (DoOk(m, steps[0]); NeverRedefines(Do(m, steps[0]), steps[1..], c)))
  }

  ghost predicate EveryStepKeepsFunctions(m: Memory, steps: seq<Step>, c: nat)
    requires MemoryOk(m) && c < |m.cells|
    decreases |steps|
  {
    steps == [] || (
      DoOk(m, steps[0]);
      StepFunctions(m, steps[0], c);
      Do(m, steps[0]).cells[c] == m.cells[c] && EveryStepKeepsFunctions(Do(m, steps[0]), steps[1..], c))
  }

  /** Over any run over any objects an accessor has the same functions at every step exactly if no step is such a
      definition; and then it has them at the end. */
  lemma {:induction false} RunFunctions(m: Memory, steps: seq<Step>, c: nat)
    requires MemoryOk(m) && c < |m.cells|
    ensures EveryStepKeepsFunctions(m, steps, c) <==> NeverRedefines(m, steps, c)
    ensures NeverRedefines(m, steps, c) ==> c < |Run(m, steps).cells| && Run(m, steps).cells[c] == m.cells[c]
    decreases |steps|
  {
    hide MemoryOk, Do, Redefines;
    if steps != [] {
      DoOk(m, steps[0]);
      StepFunctions(m, steps[0], c);
      RunFunctions(Do(m, steps[0]), steps[1..], c);
    }
  }

  // ---------- How a cell comes into a property ----------

  /** The attributes a write through the key leaves a property with. */
  function AttrsLeft(o: Object, text: string): Attrs {
    match Find(o.keys, text) case Some(j) => AttrAt(o.body.attrs, j) case None => DEFAULT
  }

  /** The step puts the cell into a configurable property: a spread of one in the cell, or the cell, as a computed
      read gives it, assigned or defined where the write gets through. */
  predicate Stores(m: Memory, st: Step, c: nat)
    requires MemoryOk(m)
  {
    Legal(m, st) &&
    match st
    case Copy(_, _, from, text) => Holds(m, from, text, c)
    case Assign(i, text, v, _) =>
      OkOf(m, i);
      && v == Accessor(Local(c)) && !m.objects[i].body.frozen && !IsAccessor(PropertyOf(m, i, text))
      && Settable(m.objects[i], Key(text, m.table)) && AttrsLeft(m.objects[i], text).configurable
    case Define(i, text, d) =>
      OkOf(m, i);
      var p := PropertyOf(m, i, text);
      && d.value == Some(Accessor(Local(c))) && NewAttrs(p, d).configurable
      && DefineFromDesc(m.objects[i], Key(text, m.table), d, FunctionsOf(m, p), CellFor(m, p)).Done?
      && !DeletedElsewhere(m.objects[i].body.deleted, Key(text, m.table))
    case _ => false
  }

  /** The value a step writes at its key, if it writes one of the program's. */
  function Written(st: Step): Option<Value> {
    match st case Assign(_, _, v, _) => Some(v) case Define(_, _, d) => d.value case _ => None
  }

  /** An ordinary write puts an accessor nowhere it was not, unless it is the value and gets through: what it reveals
      was there. */
  lemma SetHeld(o: Object, k: Key, v: Value, text: string, a: Value, n: nat)
    requires ObjectOk(o, n, k.table) && a.Accessor? && (v != a || text != k.text || !Settable(o, k))
    requires Own(SetProperty(o, k, v), text).Some? && Own(SetProperty(o, k, v), text).value.value == a
    ensures Own(o, text).Some? && Own(o, text).value.value == a
  {
    if text != k.text {
      SetOthers(o, k, v, text);
    } else {
      DeletedWithout(o.body.deleted, k, k.text);
      FindMore(o.keys, k, k.text);
      assert HiddenAt(o.body.deleted, k.text, k.table) by {
        var i := Find(o.keys, k.text);
        assert HiddenAt(o.body.deleted, o.keys[i.value].text, k.table);
      }
    }
    hide GrowFor, Without, Unique;
  }

  lemma DefineHeld(o: Object, k: Key, d: Desc, was: Functions, cell: Handle, text: string, a: Value, n: nat)
    requires ObjectOk(o, n, k.table) && a.Accessor? && DefineFromDesc(o, k, d, was, cell).Done? && Into(o, k, cell)
    requires IsAccessor(Own(o, k.text)) || Accessor(cell) != a
    requires d.value != Some(a) || text != k.text
    requires var r := DefineFromDesc(o, k, d, was, cell).o; Own(r, text).Some? && Own(r, text).value.value == a
    ensures Own(o, text).Some? && Own(o, text).value.value == a
  {
    var p := Own(o, k.text);
    if text != k.text {
      DefineOthers(o, k, d, was, cell, text);
    } else if d.getter.None? && d.setter.None? {
      DefineDataIs(o, k, d, was, cell);
    } else if !IsAccessor(p) {
      AttrsChange(SetProperty(o, k, Accessor(cell)), k, NewAttrs(p, d).(writable := false), k.text);
      SetHeld(o, k, Accessor(cell), text, a, n);
    } else {
      DefineAccessorIs(o, k, d, was);
    }
    hide Own, SetProperty, SetPropertyAttrs, DefineDataProperty, ObjectOk, Refusal, Malformed, NewAttrs;
  }

  lemma LevelHeld(o: Object, text: string)
    requires Ok(o)
    ensures forall r :: (r == Freeze(o) || r == Seal(o) || r == PreventExtensions(o)) ==>
      (Own(r, text).Some? <==> Own(o, text).Some?) && (Own(r, text).Some? ==> Own(r, text).value.value == Own(o, text).value.value)
  {}

  /** A property in the cell after a step was in it before, unless the step writes the cell there. */
  lemma HeldBefore(m: Memory, st: Step, j: nat, text: string, c: nat)
    requires MemoryOk(m) && MemoryOk(Do(m, st)) && c < |m.cells| && !Stores(m, st, c) && Holds(Do(m, st), j, text, c)
    requires Written(st) != Some(Accessor(Local(c)))
    ensures Holds(m, j, text, c)
  {
    var m1 := Do(m, st);
    if j < |m.objects| {
      OkOf(m, j);
      if m1.objects[j] != m.objects[j] { ChangedHeld(m, st, text, c); }
    }
    hide MemoryOk, ObjectOk, Own, DeleteProperty, SetProp, DefineFromDesc, SetProperty, Freeze, Seal, PreventExtensions, Stores;
  }

  lemma ChangedHeld(m: Memory, st: Step, text: string, c: nat)
    requires MemoryOk(m) && MemoryOk(Do(m, st)) && c < |m.cells| && !Stores(m, st, c) && Legal(m, st) && !st.Open? && !st.Close?
    requires Written(st) != Some(Accessor(Local(c)))
    requires Holds(Do(m, st), st.i, text, c) && st.i < |m.objects| && Do(m, st).objects[st.i] != m.objects[st.i]
    ensures Holds(m, st.i, text, c)
  {
    OkOf(m, st.i);
    var (o, a) := (m.objects[st.i], Accessor(Local(c)));
    match st
    case Copy(_, _, from, t) => SetHeld(o, Key(t, m.table), PropertyOf(m, from, t).value.value, text, a, |m.cells|);
    case Literal(i, t, _, _) =>
      OwnInRange(m, i, t);
      SetHeld(o, Key(t, m.table), Accessor(CellFor(m, PropertyOf(m, i, t))), text, a, |m.cells|);
    case Define(i, t, d) =>
      OwnInRange(m, i, t);
      var p := PropertyOf(m, i, t);
      DefineHeld(o, Key(t, m.table), d, FunctionsOf(m, p), CellFor(m, p), text, a, |m.cells|);
    case Assign(_, t, v, strict) => SetHeld(o, Key(t, m.table), v, text, a, |m.cells|);
    case Remove(_, t) => DeleteRemoves(o, Key(t, m.table), text);
    case _ => LevelHeld(o, text);
    hide MemoryOk, ObjectOk, Own, DeleteProperty, DefineFromDesc, SetProperty, Freeze, Seal, PreventExtensions;
  }

  /** What is stored is configurable where it goes. */
  lemma StoresOpens(m: Memory, st: Step, c: nat)
    requires MemoryOk(m) && MemoryOk(Do(m, st)) && Stores(m, st, c)
    ensures Holds(Do(m, st), st.i, st.text, c) && Configurable(Do(m, st), st.i, st.text)
  {
    OkOf(m, st.i);
    var (o, k) := (m.objects[st.i], Key(st.text, m.table));
    match st
    case Copy(i, _, _, _) =>
      BuildingLoose(m, i);
      SetReadsBack(o, k, Accessor(Local(c)));
    case Assign(_, _, v, strict) => SetReadsBack(o, k, v);
    case Define(_, _, d) => DefineReadsBack(o, k, d.value.value, NewAttrs(PropertyOf(m, st.i, st.text), d), st.text);
    hide MemoryOk, ObjectOk, SetProperty, Own, DefineDataProperty, NewAttrs, Refusal;
  }

  /** Where a step writes the cell without storing it, the property is not configurable. */
  lemma WrittenClosed(m: Memory, st: Step, text: string, c: nat)
    requires MemoryOk(m) && MemoryOk(Do(m, st)) && c < |m.cells| && !Stores(m, st, c) && Written(st) == Some(Accessor(Local(c)))
    requires Legal(m, st) && st.i < |m.objects| && Do(m, st).objects[st.i] != m.objects[st.i]
    requires Holds(m, st.i, text, c) ==> !Configurable(m, st.i, text)
    requires Holds(Do(m, st), st.i, text, c)
    ensures !Configurable(Do(m, st), st.i, text)
  {
    OkOf(m, st.i);
    var (o, k, a) := (m.objects[st.i], Key(st.text, m.table), Accessor(Local(c)));
    match st
    case Assign(_, t, _, strict) =>
      if text != t { SetOthers(o, k, a, text); }
      else if Settable(o, k) { SetReadsBack(o, k, a); }
      else { SetHeld(o, k, a, text, a, |m.cells|); }
    case Define(i, t, d) => DefineReadsBack(o, k, a, NewAttrs(PropertyOf(m, i, t), d), text);
    hide MemoryOk, ObjectOk, SetProperty, Own, DefineDataProperty, NewAttrs, Refusal, Settable;
  }

  /** A property in the cell that is not configurable stays so. */
  lemma HolderStays(m: Memory, st: Step, j: nat, text: string, c: nat)
    requires MemoryOk(m) && MemoryOk(Do(m, st)) && Holds(m, j, text, c) && !Configurable(m, j, text)
    ensures j < |Do(m, st).objects| && !Configurable(Do(m, st), j, text)
  {
    OkOf(m, j);
    StepKeeps(m, st, j);
    if Recasts(m, st, j) {
      RecastOthers(m, st, text);
    } else {
      assert KeepsAt(m.objects[j], Do(m, st).objects[j], text);
    }
    hide MemoryOk, Do, Own, Ok, Recasts;
  }

  lemma RecastOthers(m: Memory, st: Step, text: string)
    requires MemoryOk(m) && MemoryOk(Do(m, st)) && (st.Assign? || st.Define?) && st.i < |m.objects| && Recasts(m, st, st.i)
    requires IsAccessor(PropertyOf(m, st.i, text))
    ensures st.i < |Do(m, st).objects| && PropertyOf(Do(m, st), st.i, text) == PropertyOf(m, st.i, text)
  {
    OkOf(m, st.i);
    var (o, k) := (m.objects[st.i], Key(st.text, m.table));
    match st
    case Assign(_, _, v, _) => SetOthers(o, k, v, text);
    case Define(i, t, d) =>
      var p := PropertyOf(m, i, t);
      if DefineFromDesc(o, k, d, FunctionsOf(m, p), CellFor(m, p)).Done? { DefineOthers(o, k, d, FunctionsOf(m, p), CellFor(m, p), text); }
    hide MemoryOk, ObjectOk, SetProperty, Own, DefineDataProperty, NewAttrs, Refusal, DefineFromDesc;
  }

  /** Once no configurable property is in a cell, one comes to be exactly by storing the cell. */
  lemma ChangeableAgain(m: Memory, st: Step, c: nat)
    requires MemoryOk(m) && c < |m.cells| && !Changeable(m, c)
    ensures MemoryOk(Do(m, st)) && (Changeable(Do(m, st), c) <==> Stores(m, st, c))
  {
    DoOk(m, st);
    if Stores(m, st, c) {
      StoresOpens(m, st, c);
    } else {
      forall j: nat, text | Holds(Do(m, st), j, text, c) ensures !Configurable(Do(m, st), j, text) { StaysClosed(m, st, j, text, c); }
    }
    hide MemoryOk, Do, Stores, Holds, Configurable;
  }

  lemma StaysClosed(m: Memory, st: Step, j: nat, text: string, c: nat)
    requires MemoryOk(m) && c < |m.cells| && !Changeable(m, c) && MemoryOk(Do(m, st)) && !Stores(m, st, c)
    requires Holds(Do(m, st), j, text, c)
    ensures !Configurable(Do(m, st), j, text)
  {
    assert Holds(m, j, text, c) ==> !Configurable(m, j, text);
    if Written(st) == Some(Accessor(Local(c))) && Legal(m, st) && st.i == j && Do(m, st).objects[j] != m.objects[j] {
      WrittenClosed(m, st, text, c);
    } else {
      if Written(st) == Some(Accessor(Local(c))) { SameObject(m, st, j, text, c); } else { HeldBefore(m, st, j, text, c); }
      HolderStays(m, st, j, text, c);
    }
    hide MemoryOk, Do, Stores, Holds, Configurable, Changeable;
  }

  lemma SameObject(m: Memory, st: Step, j: nat, text: string, c: nat)
    requires MemoryOk(m) && MemoryOk(Do(m, st)) && Written(st).Some? && Holds(Do(m, st), j, text, c)
    requires !(Legal(m, st) && st.i == j && Do(m, st).objects[j] != m.objects[j])
    ensures Holds(m, j, text, c)
  {
    hide MemoryOk, Own, SetProp, DefineFromDesc;
  }

  ghost predicate NeverStores(m: Memory, steps: seq<Step>, c: nat)
    requires MemoryOk(m)
    decreases |steps|
  {
    steps == [] || (!Stores(m, steps[0], c) && (DoOk(m, steps[0]); NeverStores(Do(m, steps[0]), steps[1..], c)))
  }

  /** So an accessor all of whose properties are past configuring keeps its functions in every run that stores its
      cell nowhere. */
  lemma {:induction false} GuardedForever(m: Memory, steps: seq<Step>, c: nat)
    requires MemoryOk(m) && c < |m.cells| && !Changeable(m, c) && NeverStores(m, steps, c)
    ensures c < |Run(m, steps).cells| && Run(m, steps).cells[c] == m.cells[c]
    decreases |steps|
  {
    hide MemoryOk, Do, Stores, Changeable;
    if steps != [] {
      ChangeableAgain(m, steps[0], c);
      StepFunctions(m, steps[0], c);
      if Redefines(m, steps[0], c) { Exposed(m, c); }
      GuardedForever(Do(m, steps[0]), steps[1..], c);
    }
  }

  // ---------- A frozen object's getter changes ----------

  const NOTHING := Memory([], {}, [], 0)

  /** `var a = {get x() {..}}, b = {...a}; Object.freeze(a)`, which makes objects 0 and 1. */
  function Spreading(f: Value): seq<Step> {
    [Open, Literal(0, "x", f, false), Close(0), Open, Copy(1, 0, 0, "x"), Close(1), FreezeObject(0)]
  }

  function Getter(g: Value): Desc { Desc(Some(g), None, None, None, None, None) }

  const SPREAD := Object([Key("x", 0)], Body(Ordinary, [Accessor(Local(0))], [], [], [], NoHandle, false, false, []))

  lemma SpreadOwn()
    ensures Ok(SPREAD) && Listed(SPREAD, "x") && Own(SPREAD, "x") == Some(Property(Accessor(Local(0)), DEFAULT))
    ensures Own(EMPTY, "x") == None && SetProperty(EMPTY, Key("x", 0), Accessor(Local(0))) == SPREAD
    ensures Own(Freeze(SPREAD), "x") == Some(Property(Accessor(Local(0)), Attrs(true, true, false)))
  {
    assert Find([Key("x", 0)], "x") == Some(0);
    assert Find([], "x") == None;
  }

  lemma Next(m: Memory, st: Step, rest: seq<Step>)
    requires MemoryOk(m)
    ensures MemoryOk(Do(m, st)) && Run(m, [st] + rest) == Run(Do(m, st), rest)
  {
    DoOk(m, st);
    assert ([st] + rest)[1..] == rest;
    hide MemoryOk, Do;
  }

  function Spread(f: Value): Memory { Memory([Freeze(SPREAD), SPREAD], {}, [Functions(f, Undefined)], 0) }

  /** The first literal. */
  lemma MakesFirst(f: Value, rest: seq<Step>)
    requires f.Function?
    ensures var m := Memory([SPREAD], {}, [Functions(f, Undefined)], 0);
      MemoryOk(NOTHING) && MemoryOk(m) && Run(NOTHING, [Open, Literal(0, "x", f, false), Close(0)] + rest) == Run(m, rest)
  {
    SpreadOwn();
    var fs := [Functions(f, Undefined)];
    var ss := [Open, Literal(0, "x", f, false), Close(0)] + rest;
    var m1, m2, m3 := Memory([EMPTY], {0}, [], 0), Memory([SPREAD], {0}, fs, 0), Memory([SPREAD], {}, fs, 0);
    assert NOTHING.building + {0} == {0} && m2.building - {0} == {};
    hide SetProperty, Own, Freeze, Run, Ok;
    assert ss == [ss[0]] + ss[1..] && ss[1..] == [ss[1]] + ss[2..] && ss[2..] == [ss[2]] + rest;
    Next(NOTHING, ss[0], ss[1..]);
    assert Do(NOTHING, ss[0]) == m1;
    Next(m1, ss[1], ss[2..]);
    assert Do(m1, ss[1]) == m2;
    Next(m2, ss[2], rest);
  }

  /** The second, which spreads it, and the freezing. */
  lemma SpreadsAndFreezes(f: Value, rest: seq<Step>)
    requires f.Function?
    ensures var m := Memory([SPREAD], {}, [Functions(f, Undefined)], 0);
      MemoryOk(m) && MemoryOk(Spread(f)) && Run(m, [Open, Copy(1, 0, 0, "x"), Close(1), FreezeObject(0)] + rest) == Run(Spread(f), rest)
  {
    MakesFirst(f, []);
    SpreadOwn();
    var fs := [Functions(f, Undefined)];
    var ss := [Open, Copy(1, 0, 0, "x"), Close(1), FreezeObject(0)] + rest;
    var m3, m4 := Memory([SPREAD], {}, fs, 0), Memory([SPREAD, EMPTY], {1}, fs, 0);
    var m5, m6 := Memory([SPREAD, SPREAD], {1}, fs, 0), Memory([SPREAD, SPREAD], {}, fs, 0);
    assert m3.building + {1} == {1} && m5.building - {1} == {};
    hide SetProperty, Own, Freeze, Run, Ok, Listed, Deleted;
    assert ss == [ss[0]] + ss[1..] && ss[1..] == [ss[1]] + ss[2..] && ss[2..] == [ss[2]] + ss[3..] && ss[3..] == [ss[3]] + rest;
    Next(m3, ss[0], ss[1..]);
    assert Do(m3, ss[0]) == m4;
    Next(m4, ss[1], ss[2..]);
    assert Do(m4, ss[1]) == m5;
    Next(m5, ss[2], ss[3..]);
    assert Do(m5, ss[2]) == m6;
    Next(m6, ss[3], rest);
    assert Do(m6, ss[3]) == Spread(f);
  }

  lemma SpreadingTo(f: Value, rest: seq<Step>)
    requires f.Function?
    ensures MemoryOk(NOTHING) && MemoryOk(Spread(f)) && Run(NOTHING, Spreading(f) + rest) == Run(Spread(f), rest)
  {
    var second := [Open, Copy(1, 0, 0, "x"), Close(1), FreezeObject(0)] + rest;
    assert Spreading(f) + rest == [Open, Literal(0, "x", f, false), Close(0)] + second;
    MakesFirst(f, second);
    SpreadsAndFreezes(f, rest);
    hide Run, MemoryOk;
  }

  /** Then `Object.defineProperty(b, "x", {get() {..}})`: the getter of a's x is the one defined on b, although a is
      frozen and nothing was done to it. */
  lemma SharedGetter(f: Value, g: Value)
    requires f.Function? && g.Function? && f != g
    ensures MemoryOk(NOTHING)
    ensures var m := Run(NOTHING, Spreading(f));
      && MemoryOk(m) && |m.objects| == 2 && m.objects[0].body.frozen && !Configurable(m, 0, "x")
      && FunctionsOf(m, PropertyOf(m, 0, "x")) == Functions(f, Undefined)
    ensures var m := Run(NOTHING, Spreading(f) + [Define(1, "x", Getter(g))]);
      && MemoryOk(m) && |m.objects| == 2 && FunctionsOf(m, PropertyOf(m, 0, "x")) == Functions(g, Undefined)
  {
    SpreadOwn();
    SpreadingTo(f, []);
    assert Spreading(f) + [] == Spreading(f);
    SpreadingTo(f, [Define(1, "x", Getter(g))]);
    Next(Spread(f), Define(1, "x", Getter(g)), []);
    assert [Define(1, "x", Getter(g))] + [] == [Define(1, "x", Getter(g))];
    hide SetProperty, SetPropertyAttrs, Own, Freeze, Ok, MemoryOk, Spreading;
  }

  // ---------- A data property becomes an accessor ----------

  /** What `o[key]` gives for a property of an object: its value as it is, so the cell of an accessor. */
  function ComputedRead(m: Memory, i: nat, text: string): Value
    requires MemoryOk(m) && i < |m.objects|
  {
    if PropertyOf(m, i, text).Some? then PropertyOf(m, i, text).value.value else Undefined
  }

  /** An object whose property p may be written but not configured. */
  const PINNED := Object([Key("p", 0)], Body(Ordinary, [Int(1)], [Attrs(true, true, false)], [], [], NoHandle, false, false, []))

  lemma PinnedOwn()
    ensures ObjectOk(PINNED, 1, 0) && Own(PINNED, "p") == Some(Property(Int(1), Attrs(true, true, false)))
    ensures Settable(PINNED, Key("p", 0)) && AttrsLeft(PINNED, "p") == Attrs(true, true, false)
  {
    assert Find([Key("p", 0)], "p") == Some(0);
  }

  /** `o.p = a["x"]`, where a's x has a getter: o's p, a data property that is not configurable, is an accessor with that
      getter afterwards. */
  lemma CellRecasts(f: Value)
    requires f.Function?
    ensures var m := Memory([SPREAD, PINNED], {}, [Functions(f, Undefined)], 0);
      && MemoryOk(m) && PropertyOf(m, 1, "p") == Some(Property(Int(1), Attrs(true, true, false)))
      && var st := Assign(1, "p", ComputedRead(m, 0, "x"), true);
      && Recasts(m, st, 1) && MemoryOk(Do(m, st)) && |Do(m, st).objects| == 2
      && IsAccessor(PropertyOf(Do(m, st), 1, "p")) && FunctionsOf(Do(m, st), PropertyOf(Do(m, st), 1, "p")).getter == f
  {
    var m := Memory([SPREAD, PINNED], {}, [Functions(f, Undefined)], 0);
    SpreadOwn();
    PinnedOwn();
    assert ObjectOk(SPREAD, 1, 0);
    assert MemoryOk(m);
    var st := Assign(1, "p", ComputedRead(m, 0, "x"), true);
    DoOk(m, st);
    SetReadsBack(PINNED, Key("p", 0), Accessor(Local(0)));
    hide MemoryOk, Own, SetProperty, Settable, ObjectOk;
  }
}
