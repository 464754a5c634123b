/** What copying, literals and definitions put under a key, where cells are shared between objects. */
module SharingLaws {
  import opened Properties
  import opened Descriptors
  import opened Sharing

  lemma LooseSettable(o: Object, k: Key)
    requires Ok(o) && !o.body.isRoot && Loose(o)
    ensures Settable(o, k) && !Deleted(o.body.deleted, k.text)
  {}

  /** A spread puts the value it finds under the key: the same cell, if that is an accessor's; other objects and all
      cells stay as they are. */
  lemma CopyShares(m: Memory, i: nat, src: nat, from: nat, text: string)
    requires MemoryOk(m) && Legal(m, Copy(i, src, from, text)) && i < |m.objects| && PropertyOf(m, from, text).Some?
    ensures var m1 := Do(m, Copy(i, src, from, text));
      && MemoryOk(m1) && |m1.objects| == |m.objects| && m1.cells == m.cells
      && PropertyOf(m1, i, text).Some? && PropertyOf(m1, i, text).value.value == PropertyOf(m, from, text).value.value
      && forall j :: 0 <= j < |m.objects| && j != i ==> m1.objects[j] == m.objects[j]
  {
    hide MemoryOk, Own, Settable, Properties.SetProperty, Loose, ObjectOk, Listed;
    DoOk(m, Copy(i, src, from, text));
    OkOf(m, i);
    BuildingLoose(m, i);
    LooseSettable(m.objects[i], Key(text, m.table));
    SetReadsBack(m.objects[i], Key(text, m.table), PropertyOf(m, from, text).value.value);
  }

  lemma BuildingLoose(m: Memory, i: nat)
    requires MemoryOk(m) && i in m.building
    ensures i < |m.objects| && Loose(m.objects[i])
  {}

  /** An accessor of a literal is there afterwards, with the function in its place; the other function is the one it
      had, or undefined where there was no accessor, and then the cell is new. */
  lemma LiteralInstalls(m: Memory, i: nat, text: string, f: Value, setter: bool)
    requires MemoryOk(m) && Legal(m, Literal(i, text, f, setter)) && i < |m.objects|
    ensures var (m1, p) := (Do(m, Literal(i, text, f, setter)), PropertyOf(m, i, text));
      && MemoryOk(m1) && |m1.objects| == |m.objects|
      && var q := PropertyOf(m1, i, text);
      && IsAccessor(q)
      && (if setter then FunctionsOf(m1, q).setter else FunctionsOf(m1, q).getter) == f
      && (if setter then FunctionsOf(m1, q).getter else FunctionsOf(m1, q).setter)
         == (if IsAccessor(p) then (if setter then FunctionsOf(m, p).getter else FunctionsOf(m, p).setter) else Undefined)
      && (IsAccessor(p) ==> q == p && |m1.cells| == |m.cells|)
      && (!IsAccessor(p) ==> q.value.value == Accessor(Local(|m.cells|)) && |m1.cells| == |m.cells| + 1 && m1.cells[..|m.cells|] == m.cells)
  {
    hide MemoryOk, Settable, Properties.SetProperty, Loose, ObjectOk;
    DoOk(m, Literal(i, text, f, setter));
    OkOf(m, i);
    BuildingLoose(m, i);
    var (o, k, p) := (m.objects[i], Key(text, m.table), PropertyOf(m, i, text));
    LooseSettable(o, k);
    SetReadsBack(o, k, Accessor(CellFor(m, p)));
    if IsAccessor(p) { CellThere(m, i, text); }
    hide Own;
  }

  /** The cell of an accessor is one of the memory's. */
  lemma CellThere(m: Memory, i: nat, text: string)
    requires MemoryOk(m) && i < |m.objects| && IsAccessor(PropertyOf(m, i, text))
    ensures var c := PropertyOf(m, i, text).value.value.cell; c.Local? && c.i < |m.cells|
  {
    OkOf(m, i);
    var j := Find(m.objects[i].keys, text).value;
    assert InRange(m.objects[i].body.slots[j], |m.cells|);
  }

  /** Redefining an accessor changes the functions in its cell to those given, whoever else holds the cell; they are seen
      through every property in it. */
  lemma DefinedThroughout(m: Memory, i: nat, text: string, d: Desc, j: nat, text2: string)
    requires MemoryOk(m) && Legal(m, Define(i, text, d)) && i < |m.objects| && j < |m.objects| && j != i
    requires IsAccessor(PropertyOf(m, i, text)) && (d.getter.Some? || d.setter.Some?)
    requires IsAccessor(PropertyOf(m, j, text2)) && PropertyOf(m, j, text2).value.value == PropertyOf(m, i, text).value.value
    requires DefineFromDesc(m.objects[i], Key(text, m.table), d, FunctionsOf(m, PropertyOf(m, i, text)), PropertyOf(m, i, text).value.value.cell).Done?
    ensures var (m1, was) := (Do(m, Define(i, text, d)), FunctionsOf(m, PropertyOf(m, i, text)));
      && MemoryOk(m1) && |m1.objects| == |m.objects| && m1.objects[j] == m.objects[j]
      && FunctionsOf(m1, PropertyOf(m1, j, text2))
         == Functions(if d.getter.Some? then d.getter.value else was.getter, if d.setter.Some? then d.setter.value else was.setter)
  {
    hide MemoryOk, Own, Properties.SetProperty, SetPropertyAttrs, ObjectOk, Refusal, Malformed, NewAttrs;
    DoOk(m, Define(i, text, d));
    OkOf(m, i);
    CellThere(m, i, text);
  }
}
