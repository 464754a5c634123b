/** Whole runs of isolates over one realm, and the walk along a prototype chain. */
module OverlayRuns {
  import opened Options
  import opened Sets
  import opened Properties
  import opened Shapes
  import opened Overlay
  import opened Descriptors

  // ---------- The prototype chain ----------

  /** The value an object itself shows under a text: a property, or an element of an array. */
  function Bound(o: Object, text: string): Option<Value>
    requires Ok(o)
  {
    if Deleted(o.body.deleted, text) then None
    else
      match Find(o.keys, text)
      case Some(i) => Some(o.body.slots[i])
      case None =>
        var n := ArrayIndexKey(text);
        if o.body.kind.Array? && n.Some? && n.value < |o.body.elements| then Some(o.body.elements[n.value]) else None
  }

  predicate AllOk(m: map<Handle, Object>) { forall h :: h in m ==> Ok(m[h]) }

  function Walk(m: map<Handle, Object>, h: Handle, text: string, guard: nat): Option<Value>
    requires AllOk(m)
    decreases guard
  {
    if guard == 0 || h !in m then None
    else if Bound(m[h], text).Some? then Bound(m[h], text)
    else Walk(m, m[h].body.proto, text, guard - 1)
  }

  /** The n-th object on the chain of h. */
  function Nth(m: map<Handle, Object>, h: Handle, n: nat): Handle
    decreases n
  {
    if n == 0 then h else if h in m then Nth(m, m[h].body.proto, n - 1) else NoHandle
  }

  predicate Unbound(m: map<Handle, Object>, h: Handle, text: string)
    requires AllOk(m)
  {
    h in m && Bound(m[h], text).None?
  }

  /** The first binding on the chain of h is on its n-th object. */
  predicate FirstAt(m: map<Handle, Object>, h: Handle, text: string, n: nat, v: Value)
    requires AllOk(m)
  {
    && Nth(m, h, n) in m && Bound(m[Nth(m, h, n)], text) == Some(v)
    && forall i :: 0 <= i < n ==> Unbound(m, Nth(m, h, i), text)
  }

  lemma {:induction false} WalkFinds(m: map<Handle, Object>, h: Handle, text: string, guard: nat, n: nat, v: Value)
    requires AllOk(m) && FirstAt(m, h, text, n, v) && n < guard
    ensures Walk(m, h, text, guard) == Some(v)
    decreases n
  {
    if n > 0 {
      assert Unbound(m, Nth(m, h, 0), text);
      var next := m[h].body.proto;
      forall i | 0 <= i < n - 1 ensures Unbound(m, Nth(m, next, i), text) { assert Nth(m, h, i + 1) == Nth(m, next, i); }
      WalkFinds(m, next, text, guard - 1, n - 1, v);
    }
  }

  lemma {:induction false} WalkSound(m: map<Handle, Object>, h: Handle, text: string, guard: nat) returns (n: nat)
    requires AllOk(m) && Walk(m, h, text, guard).Some?
    ensures FirstAt(m, h, text, n, Walk(m, h, text, guard).value)
    decreases guard
  {
    if Bound(m[h], text).Some? { return 0; }
    var next := m[h].body.proto;
    var k := WalkSound(m, next, text, guard - 1);
    forall i | 0 <= i < k + 1 ensures Unbound(m, Nth(m, h, i), text) {
      if i > 0 { assert Nth(m, h, i) == Nth(m, next, i - 1); }
    }
    return k + 1;
  }

  lemma {:induction false} NthNth(m: map<Handle, Object>, h: Handle, i: nat, j: nat)
    requires forall k :: 0 <= k < i ==> Nth(m, h, k) in m
    ensures Nth(m, h, i + j) == Nth(m, Nth(m, h, i), j)
    decreases i
  {
    if i > 0 {
      assert Nth(m, h, 0) in m;
      var next := m[h].body.proto;
      forall k | 0 <= k < i - 1 ensures Nth(m, next, k) in m { assert Nth(m, h, k + 1) == Nth(m, next, k); }
      NthNth(m, next, i - 1, j);
    }
  }

  /** Up to the first binding the chain meets no object twice: a cycle without a binding would be endless. */
  lemma ChainDistinct(m: map<Handle, Object>, h: Handle, text: string, n: nat, v: Value, i: nat, j: nat)
    requires AllOk(m) && FirstAt(m, h, text, n, v) && i < j <= n
    ensures Nth(m, h, i) != Nth(m, h, j)
  {
    forall k | 0 <= k < n ensures Nth(m, h, k) in m { assert Unbound(m, Nth(m, h, k), text); }
    NthNth(m, h, j, n - j);
    NthNth(m, h, i, n - j);
    assert Unbound(m, Nth(m, h, i + (n - j)), text);
  }

  function Visited(m: map<Handle, Object>, h: Handle, n: nat): set<Handle>
    decreases n
  {
    if n == 0 then {} else Visited(m, h, n - 1) + {Nth(m, h, n - 1)}
  }

  lemma {:induction false} VisitedIs(m: map<Handle, Object>, h: Handle, n: nat, g: Handle)
    ensures g in Visited(m, h, n) ==> exists i: nat :: i < n && g == Nth(m, h, i)
    decreases n
  {
    hide Nth;
    if n > 0 && g in Visited(m, h, n - 1) { VisitedIs(m, h, n - 1, g); }
  }

  lemma {:induction false} VisitedCard(m: map<Handle, Object>, h: Handle, n: nat)
    requires forall i, j :: 0 <= i < j < n ==> Nth(m, h, i) != Nth(m, h, j)
    ensures |Visited(m, h, n)| == n
    decreases n
  {
    hide Nth;
    if n > 0 {
      VisitedCard(m, h, n - 1);
      VisitedIs(m, h, n - 1, Nth(m, h, n - 1));
    }
  }

  /** With a guard of at least the number of objects, the walk returns the first binding on the chain
      exactly when there is one, cyclic or not. */
  lemma WalkExact(m: map<Handle, Object>, h: Handle, text: string, guard: nat, v: Value)
    requires AllOk(m) && guard >= |m|
    ensures Walk(m, h, text, guard) == Some(v) <==> exists n :: FirstAt(m, h, text, n, v)
  {
    if Walk(m, h, text, guard) == Some(v) {
      var n := WalkSound(m, h, text, guard);
    }
    forall n: nat | FirstAt(m, h, text, n, v) ensures Walk(m, h, text, guard) == Some(v) {
      FirstBelow(m, h, text, n, v);
      WalkFinds(m, h, text, guard, n, v);
    }
  }

  lemma FirstBelow(m: map<Handle, Object>, h: Handle, text: string, n: nat, v: Value)
    requires AllOk(m) && FirstAt(m, h, text, n, v)
    ensures n < |m|
  {
    hide Nth, Visited, Bound;
    forall i, j | 0 <= i < j < n + 1 ensures Nth(m, h, i) != Nth(m, h, j) { ChainDistinct(m, h, text, n, v, i, j); }
    VisitedCard(m, h, n + 1);
    forall g | g in Visited(m, h, n + 1) ensures g in m.Keys {
      VisitedIs(m, h, n + 1, g);
      var i: nat :| i < n + 1 && g == Nth(m, h, i);
      if i < n { assert Unbound(m, Nth(m, h, i), text); }
    }
    SubsetCard(Visited(m, h, n + 1), m.Keys);
    assert |m.Keys| == |m|;
  }

  // ---------- Reading through the overlay ----------

  ghost function GetProperty(s: Heap, h: Handle, text: string): Option<Value>
    requires Valid(s)
  {
    ViewOk(s);
    Walk(View(s), h, text, |s.store| + 1)
  }

  lemma ViewOk(s: Heap)
    requires Valid(s)
    ensures AllOk(View(s))
  {}

  function RootsBelow(n: nat): (r: set<Handle>)
    ensures |r| == n && forall h: Handle :: h in r <==> h.Root? && h.i < n
  {
    if n == 0 then {} else RootsBelow(n - 1) + {Root(n - 1)}
  }

  function LocalsBelow(n: nat): (r: set<Handle>)
    ensures |r| == n && forall h: Handle :: h in r <==> h.Local? && h.i < n
  {
    if n == 0 then {} else LocalsBelow(n - 1) + {Local(n - 1)}
  }

  lemma HandlesBelow(s: Heap, h: Handle)
    requires Valid(s) && Get(s, h).Some?
    ensures h in RootsBelow(s.base) + LocalsBelow(|s.store| - s.base)
  {}

  /** The guard of the walk covers every object of the isolate and the realm. */
  lemma GuardEnough(s: Heap)
    requires Valid(s)
    ensures |View(s)| <= |s.store|
  {
    var all := RootsBelow(s.base) + LocalsBelow(|s.store| - s.base);
    forall h | h in View(s).Keys ensures h in all { HandlesBelow(s, h); }
    hide Valid, View, RootsBelow, LocalsBelow;
    SubsetCard(View(s).Keys, all);
    assert |View(s).Keys| == |View(s)|;
  }

  /** A property read returns the first binding on the chain of what the isolate sees, if there is one. */
  lemma GetPropertyExact(s: Heap, h: Handle, text: string, v: Value)
    requires Valid(s)
    ensures AllOk(View(s))
    ensures GetProperty(s, h, text) == Some(v) <==> exists n :: FirstAt(View(s), h, text, n, v)
  {
    hide Valid, View, Walk, FirstAt, AllOk;
    ViewOk(s);
    GuardEnough(s);
    WalkExact(View(s), h, text, |s.store| + 1, v);
  }

  // ---------- Moves ----------

  /** One access of the store: a write through a prepared handle, a new object, a write to one that was looked up. */
  datatype Move = On(h: Handle, op: Op) | Make(made: Made) | Poke(h: Handle, direct: Direct)

  ghost function Act(s: Heap, mv: Move): (r: Heap)
    requires Valid(s)
    ensures Valid(r)
  {
    match mv
    case On(h, op) => WriteValid(s, h, op); Write(s, h, op)
    case Make(made) => NewValid(s, made); New(s, made).0
    case Poke(h, d) => DirectValid(s, h, d); WriteDirect(s, h, d)
  }

  ghost function Acts(s: Heap, moves: seq<Move>): (r: Heap)
    requires Valid(s)
    ensures Valid(r)
    decreases |moves|
  {
    if moves == [] then s else Acts(Act(s, moves[0]), moves[1..])
  }

  // ---------- Steps of a program ----------

  /** A single move, one key of a spread, an accessor of a literal or a class, or Object.defineProperty. */
  datatype Step =
    | One(move: Move) | Copy(dest: Handle, src: Handle, text: string)
    | Literal(h: Handle, text: string, f: Value, setter: bool) | Define(h: Handle, text: string, d: Desc)

  /** What the isolate's bookkeeping gives: its next handle, its clones, the length of a walk, its table of keys. */
  datatype Names = Names(next: Handle, cow: map<nat, nat>, guard: nat, table: nat)

  function NamesOf(s: Heap): Names { Names(New(s, Plain).1, s.cow, |s.store| + 1, s.table) }

  /** The handle a write through h goes to. */
  function Through(n: Names, h: Handle): Handle {
    if !h.Root? then h else if h.i in n.cow then Local(n.cow[h.i]) else n.next
  }

  /** The cell a value names; what a constructor has been applied to is none any more. */
  function CellAt(m: map<Handle, Object>, v: Option<Value>): Option<Handle> {
    if v.Some? && v.value.Accessor? && v.value.cell in m && m[v.value.cell].body.kind.AccessorKind? then Some(v.value.cell) else None
  }

  function FunctionsAt(m: map<Handle, Object>, c: Option<Handle>): Functions {
    if c.None? || c.value !in m then NO_FUNCTIONS
    else
      var es := m[c.value].body.elements;
      Functions(if |es| > 0 then es[0] else Undefined, if |es| > 1 then es[1] else Undefined)
  }

  function ValueOf(p: Option<Property>): Option<Value> { if p.Some? then Some(p.value.value) else None }

  /** The moves of a step, where m is what each handle shows. */
  function Moves(m: map<Handle, Object>, st: Step, n: Names): seq<Move>
    requires AllOk(m)
  {
    match st
    case One(mv) => [mv]
    case Copy(dest, src, text) =>
      if src in m && Listed(m[src], text) && Walk(m, src, text, n.guard).Some?
      then [On(dest, Op.SetProperty(text, Walk(m, src, text, n.guard).value))] else []
    case Literal(h, text, f, setter) => if h in m then LiteralMoves(m, h, text, f, setter, n) else []
    case Define(h, text, d) => if h in m then DefineMoves(m, h, text, d, n) else []
  }

  /** The cell of an accessor there is takes the function in place; else a new cell is made. */
  function LiteralMoves(m: map<Handle, Object>, h: Handle, text: string, f: Value, setter: bool, n: Names): seq<Move>
    requires AllOk(m) && h in m
  {
    var c := CellAt(m, Bound(m[h], text));
    if c.Some? then [Poke(c.value, SetFunction(f, setter))]
    else [Make(CellOf(NO_FUNCTIONS)), On(h, Op.SetProperty(text, Accessor(n.next))), Poke(n.next, SetFunction(f, setter))]
  }

  /** Here the cell is prepared for writing, and the property gets the handle of what was prepared. */
  function DefineMoves(m: map<Handle, Object>, h: Handle, text: string, d: Desc, n: Names): seq<Move>
    requires AllOk(m) && h in m
  {
    var p := Own(m[h], text);
    var c := CellAt(m, ValueOf(p));
    var cell := if c.Some? then Through(n, c.value) else n.next;
    match DefineFromDesc(m[h], Key(text, n.table), d, FunctionsAt(m, c), cell)
    case TypeError(_) => []
    case Done(_, fs) =>
      if fs.None? then [On(h, DefineData(text, OrElse(d.value, if p.Some? then p.value.value else Undefined), NewAttrs(p, d)))]
      else (if c.Some? then FillMoves(c.value, d) else [Make(CellOf(fs.value))]) + InstallMoves(h, text, cell, NewAttrs(p, d))
  }

  function FillMoves(c: Handle, d: Desc): seq<Move> {
    FieldMove(c, 0, d.getter) + FieldMove(c, 1, d.setter)
  }

  /** The write of a field of the cell, if the descriptor has it. */
  function FieldMove(c: Handle, i: nat, v: Option<Value>): seq<Move> {
    if v.Some? then [On(c, Op.SetElement(i, v.value))] else []
  }

  function InstallMoves(h: Handle, text: string, cell: Handle, attrs: Attrs): seq<Move> {
    [On(h, Op.SetProperty(text, Accessor(cell))), On(h, SetAttrs(text, attrs.(writable := false)))]
  }

  ghost function Do(s: Heap, st: Step): (r: Heap)
    requires Valid(s)
    ensures Valid(r)
  {
    ViewOk(s); Acts(s, Moves(View(s), st, NamesOf(s)))
  }

  ghost function Run(s: Heap, steps: seq<Step>): (r: Heap)
    requires Valid(s)
    ensures Valid(r)
    decreases |steps|
  {
    if steps == [] then s else Run(Do(s, steps[0]), steps[1..])
  }

  // ---------- A private deep copy ----------

  /** Objects of one's own.  An object may have a second name: the handle of the clone the isolate made of it. */
  datatype Private = Private(objects: map<Handle, Object>, alias: map<Handle, Handle>)

  function Canon(a: Private, h: Handle): Handle { if h in a.alias then a.alias[h] else h }

  predicate Has(a: Private, h: Handle) { Canon(a, h) in a.objects }

  function ObjectOf(a: Private, h: Handle): Object
    requires Has(a, h)
  {
    a.objects[Canon(a, h)]
  }

  predicate PrivateOk(a: Private) {
    AllOk(a.objects) && forall h :: h in a.alias ==> a.alias[h] in a.objects && a.alias[h] !in a.alias && h !in a.objects
  }

  /** What each name shows. */
  function Shown(a: Private): (m: map<Handle, Object>)
    requires PrivateOk(a)
    ensures AllOk(m) && forall h :: h in m <==> Has(a, h)
    ensures forall h :: h in m ==> m[h] == ObjectOf(a, h)
  {
    map h | h in a.objects.Keys + a.alias.Keys :: ObjectOf(a, h)
  }

  function Named(a: Private, t: Handle, h: Handle): Private {
    if Has(a, t) then a else a.(alias := a.alias[t := Canon(a, h)])
  }

  function Stored(a: Private, h: Handle, o: Object): Private { a.(objects := a.objects[Canon(a, h) := o]) }

  /** A move over objects of one's own; new names are the ones the isolate gave. */
  function PrivateAct(a: Private, mv: Move, n: Names): (r: Private)
    requires PrivateOk(a)
    ensures PrivateOk(r)
  {
    match mv
    case On(h, op) =>
      if !Has(a, h) then a else Named(Stored(a, h, Apply(ObjectOf(a, h), op, n.table)), Through(n, h), h)
    case Make(made) => Private(a.objects[n.next := Object([], NewBody(made))], a.alias - {n.next})
    case Poke(h, d) =>
      if !Has(a, h) then a else Stored(a, h, ObjectOf(a, h).(body := Changed(ObjectOf(a, h).body, d)))
  }


  lemma NewValid(s: Heap, made: Made)
    requires Valid(s)
    ensures Valid(New(s, made).0) && Get(New(s, made).0, New(s, made).1) == Some(|s.store|)
  {
    var s1 := New(s, made).0;
    assert Unique(KeysOf(s.shapes, s.rootShape));
    forall p | 0 <= p < |s1.store| ensures CellOk(s1, p) { if p < |s.store| { assert CellOk(s, p); } }
  }

  lemma NewSeen(s: Heap, made: Made, g: Handle)
    requires Valid(s) && Get(s, g).Some?
    ensures var s1 := New(s, made).0; Valid(s1) && Get(s1, g) == Get(s, g) && Seen(s1, g) == Seen(s, g) && Get(s, g).value < |s.store|
  {
    NewValid(s, made);
    assert CellOk(s, Get(s, g).value);
  }


  ghost function PrivateActs(s: Heap, a: Private, moves: seq<Move>): (r: Private)
    requires Valid(s) && PrivateOk(a)
    ensures PrivateOk(r)
    decreases |moves|
  {
    if moves == [] then a else PrivateActs(Act(s, moves[0]), PrivateAct(a, moves[0], NamesOf(s)), moves[1..])
  }

  /** A step works out its moves from the objects one has. */
  ghost function PrivateDo(s: Heap, a: Private, st: Step): (r: Private)
    requires Valid(s) && PrivateOk(a)
    ensures PrivateOk(r)
  {
    PrivateActs(s, a, Moves(Shown(a), st, NamesOf(s)))
  }

  ghost function PrivateRun(s: Heap, a: Private, steps: seq<Step>): (r: Private)
    requires Valid(s) && PrivateOk(a)
    ensures PrivateOk(r)
    decreases |steps|
  {
    if steps == [] then a else PrivateRun(Do(s, steps[0]), PrivateDo(s, a, steps[0]), steps[1..])
  }

  // ---------- A program works through the handles it was given ----------

  predicate Knows(a: Private, mv: Move) { mv.Make? || Has(a, mv.h) }

  ghost predicate UsesMoves(s: Heap, a: Private, moves: seq<Move>)
    requires Valid(s) && PrivateOk(a)
    decreases |moves|
  {
    moves == [] || (Knows(a, moves[0]) && UsesMoves(Act(s, moves[0]), PrivateAct(a, moves[0], NamesOf(s)), moves[1..]))
  }

  /** With an accessor one has its cell. */
  ghost predicate CellKnown(s: Heap, a: Private, v: Option<Value>)
    requires Valid(s)
  {
    v.Some? && v.value.Accessor? && v.value.cell in View(s) ==> Has(a, v.value.cell)
  }

  /** With an object one has its prototypes. */
  ghost predicate ProtosKnown(s: Heap, a: Private)
    requires Valid(s)
  {
    forall g :: Has(a, g) ==> Has(a, ObjectOf(a, g).body.proto) || ObjectOf(a, g).body.proto !in View(s)
  }

  ghost predicate UsesStep(s: Heap, a: Private, st: Step)
    requires Valid(s) && PrivateOk(a)
  {
    match st
    case One(mv) => Knows(a, mv)
    case Copy(dest, src, _) => Has(a, dest) && Has(a, src) && ProtosKnown(s, a)
    case Literal(h, text, _, _) => Has(a, h) && CellKnown(s, a, Bound(ObjectOf(a, h), text))
    case Define(h, text, _) => Has(a, h) && CellKnown(s, a, ValueOf(Own(ObjectOf(a, h), text)))
  }

  ghost predicate Uses(s: Heap, a: Private, steps: seq<Step>)
    requires Valid(s) && PrivateOk(a)
    decreases |steps|
  {
    steps == [] || (UsesStep(s, a, steps[0]) && Uses(Do(s, steps[0]), PrivateDo(s, a, steps[0]), steps[1..]))
  }

  /** The isolate shows the private copy: object by object, and two handles name one object in both or in neither. */
  ghost predicate Shows(s: Heap, a: Private)
    requires Valid(s) && PrivateOk(a)
  {
    && (forall h :: Has(a, h) ==> h in View(s) && View(s)[h] == ObjectOf(a, h))
    && (forall h, g :: Has(a, h) && Has(a, g) ==> (Get(s, h) == Get(s, g) <==> Canon(a, h) == Canon(a, g)))
  }

  lemma WriteGet(s: Heap, h: Handle, op: Op, g: Handle, g1: Handle)
    requires Valid(s) && g in View(s) && g1 in View(s)
    ensures Get(Write(s, h, op), g) == Get(Write(s, h, op), g1) <==> Get(s, g) == Get(s, g1)
  {
    PrepareValid(s, h);
    PrepareSame(s, h);
    PrepareOthers(s, h, g);
    PrepareOthers(s, h, g1);
    WriteGets(s, h, op, g);
    WriteGets(s, h, op, g1);
    hide Valid, Write, PrepareWrite, Get, GetLocal;
  }

  /** The handle a write went through names what was written. */
  lemma WriteThrough(s: Heap, h: Handle, op: Op)
    requires Valid(s) && h in View(s)
    ensures Valid(Write(s, h, op)) && Get(Write(s, h, op), Through(NamesOf(s), h)) == Get(Write(s, h, op), h)
    ensures Get(Write(s, h, op), h).Some?
  {
    WriteValid(s, h, op);
    WriteSeen(s, h, op, h);
    PrepareValid(s, h);
    PrepareSame(s, h);
    var t := Through(NamesOf(s), h);
    assert t == PrepareWrite(s, h).1;
    assert Get(PrepareWrite(s, h).0, t) == Get(PrepareWrite(s, h).0, h);
    WriteGets(s, h, op, h);
    WriteGets(s, h, op, t);
    hide Valid, Write;
  }

  lemma WriteGets(s: Heap, h: Handle, op: Op, g: Handle)
    requires Valid(s)
    ensures Get(Write(s, h, op), g) == Get(PrepareWrite(s, h).0, g)
  {
    PrepareValid(s, h);
    PrepareSame(s, h);
    var (s1, l) := PrepareWrite(s, h);
    hide PrepareWrite, Apply, Get, Put;
    if GetLocal(s1, l).Some? {
      var p := GetLocal(s1, l).value;
      var s2 := Put(s1, p, Apply(ObjectAt(s1, p), op, s.table));
      PutFrame(s1, p, Apply(ObjectAt(s1, p), op, s.table));
      SameGet(s1, s2, g);
    }
    hide Valid;
  }

  /** Writing an object back moves no handle. */
  lemma PutFrame(s: Heap, p: nat, o: Object)
    requires Valid(s) && p < |s.store|
    ensures var s1 := Put(s, p, o); s1.base == s.base && |s1.store| == |s.store| && s1.cow == s.cow
  {
    hide Transition;
  }

  lemma MoveShows(s: Heap, a: Private, mv: Move)
    requires Valid(s) && PrivateOk(a) && Shows(s, a) && Knows(a, mv)
    ensures Shows(Act(s, mv), PrivateAct(a, mv, NamesOf(s))) && Act(s, mv).table == s.table
  {
    match mv
    case On(h, op) => OnShows(s, a, h, op);
    case Make(made) => MakeShows(s, a, made);
    case Poke(h, d) => PokeShows(s, a, h, d);
  }

  lemma OnShows(s: Heap, a: Private, h: Handle, op: Op)
    requires Valid(s) && PrivateOk(a) && Shows(s, a) && Has(a, h)
    ensures Valid(Write(s, h, op)) && Shows(Write(s, h, op), PrivateAct(a, On(h, op), NamesOf(s))) && Write(s, h, op).table == s.table
  {
    WriteValid(s, h, op);
    WriteTable(s, h, op);
    hide Valid, Get, Apply, Write, View, Ok, Through, PrivateAct, Canon, ObjectOf, PrivateOk, Shows, Has;
    var (s1, a1, t) := (Write(s, h, op), PrivateAct(a, On(h, op), NamesOf(s)), Through(NamesOf(s), h));
    forall g | Has(a1, g) ensures g in View(s1) && View(s1)[g] == ObjectOf(a1, g) { OnShowsAt(s, a, h, op, g); }
    forall g, g1 | Has(a1, g) && Has(a1, g1) ensures Get(s1, g) == Get(s1, g1) <==> Canon(a1, g) == Canon(a1, g1) {
      ShowsAt(s, a, h, h);
      WriteThrough(s, h, op);
      var (e, e1) := (if Has(a, g) then g else h, if Has(a, g1) then g1 else h);
      OnCanon(s, a, h, op, g);
      OnCanon(s, a, h, op, g1);
      ShowsAt(s, a, e, e1);
      WriteGet(s, h, op, e, e1);
    }
    ShowsFrom(s1, a1);
  }

  /** A name is as before, or the one the write went through. */
  lemma OnCanon(s: Heap, a: Private, h: Handle, op: Op, g: Handle)
    requires Valid(s) && PrivateOk(a) && Has(a, h)
    requires Has(PrivateAct(a, On(h, op), NamesOf(s)), g)
    ensures var (a1, e) := (PrivateAct(a, On(h, op), NamesOf(s)), if Has(a, g) then g else h);
      && Canon(a1, g) == Canon(a, e)
      && ObjectOf(a1, g) == if Canon(a, e) == Canon(a, h) then Apply(ObjectOf(a, h), op, s.table) else ObjectOf(a, e)
    ensures !Has(a, g) ==> g == Through(NamesOf(s), h)
  {
    hide Apply, Through;
  }

  lemma OnShowsAt(s: Heap, a: Private, h: Handle, op: Op, g: Handle)
    requires Valid(s) && PrivateOk(a) && Shows(s, a) && Has(a, h) && Has(PrivateAct(a, On(h, op), NamesOf(s)), g)
    ensures var s1 := Write(s, h, op);
      Valid(s1) && g in View(s1) && View(s1)[g] == ObjectOf(PrivateAct(a, On(h, op), NamesOf(s)), g)
  {
    OnCanon(s, a, h, op, g);
    var e := if Has(a, g) then g else h;
    ShowsAt(s, a, h, e);
    WriteThrough(s, h, op);
    WriteSeen(s, h, op, e);
    SameSeen(Write(s, h, op), g, e);
    hide Valid, Write, Apply, Seen, Get, Through, Shows, PrivateAct, Has, ObjectOf, Canon, PrivateOk;
  }

  lemma ShowsAt(s: Heap, a: Private, h: Handle, g: Handle)
    requires Valid(s) && PrivateOk(a) && Shows(s, a) && Has(a, h) && Has(a, g)
    ensures h in View(s) && View(s)[h] == ObjectOf(a, h) && g in View(s) && View(s)[g] == ObjectOf(a, g)
    ensures Get(s, g) == Get(s, h) <==> Canon(a, g) == Canon(a, h)
  {
    hide Valid, Get, Seen;
  }

  lemma SameSeen(s: Heap, g: Handle, e: Handle)
    requires Valid(s)
    ensures Get(s, g) == Get(s, e) && Get(s, e).Some? ==> Seen(s, g) == Seen(s, e)
  {}

  lemma WriteTable(s: Heap, h: Handle, op: Op)
    requires Valid(s)
    ensures Write(s, h, op).table == s.table
  {
    hide Valid, Apply;
  }

  lemma MakeShows(s: Heap, a: Private, made: Made)
    requires Valid(s) && PrivateOk(a) && Shows(s, a)
    ensures Valid(New(s, made).0) && Shows(New(s, made).0, PrivateAct(a, Make(made), NamesOf(s)))
  {
    NewValid(s, made);
    NewIs(s, made);
    var (s1, name) := New(s, made);
    var a1 := PrivateAct(a, Make(made), NamesOf(s));
    hide NewBody, Valid, New, Seen, Get, View, PrivateAct, Shows, Canon, Has, ObjectOf, PrivateOk;
    assert !Has(a, name) by { if Has(a, name) { ShowsAt(s, a, name, name); } }
    forall g | Has(a1, g) ensures g in View(s1) && View(s1)[g] == ObjectOf(a1, g) && (g == name || Has(a, g)) {
      MakeAt(s, a, made, g);
      if g != name { ShowsAt(s, a, g, g); NewSeen(s, made, g); }
    }
    forall g, g1 | Has(a1, g) && Has(a1, g1) ensures Get(s1, g) == Get(s1, g1) <==> Canon(a1, g) == Canon(a1, g1) {
      MakeAt(s, a, made, g);
      MakeAt(s, a, made, g1);
      if g != name { ShowsAt(s, a, g, g); NewSeen(s, made, g); }
      if g1 != name { ShowsAt(s, a, g1, g1); NewSeen(s, made, g1); }
      if g != name && g1 != name { ShowsAt(s, a, g, g1); }
    }
    ShowsFrom(s1, a1);
  }

  lemma ShowsFrom(s: Heap, a: Private)
    requires Valid(s) && PrivateOk(a)
    requires forall h :: Has(a, h) ==> h in View(s) && View(s)[h] == ObjectOf(a, h)
    requires forall h, g :: Has(a, h) && Has(a, g) ==> (Get(s, h) == Get(s, g) <==> Canon(a, h) == Canon(a, g))
    ensures Shows(s, a)
  {}

  lemma MakeAt(s: Heap, a: Private, made: Made, g: Handle)
    requires Valid(s) && PrivateOk(a) && !Has(a, NamesOf(s).next) && Has(PrivateAct(a, Make(made), NamesOf(s)), g)
    ensures var (a1, name) := (PrivateAct(a, Make(made), NamesOf(s)), NamesOf(s).next);
      && (g == name ==> Canon(a1, g) == name && ObjectOf(a1, g) == Object([], NewBody(made)))
      && (g != name ==> Has(a, g) && Canon(a1, g) == Canon(a, g) && ObjectOf(a1, g) == ObjectOf(a, g) && Canon(a, g) != name)
  {
    hide NewBody, NamesOf;
  }

  lemma NewIs(s: Heap, made: Made)
    requires Valid(s)
    ensures var (s1, name) := New(s, made);
      && Valid(s1) && Get(s1, name) == Some(|s.store|) && Seen(s1, name) == Object([], NewBody(made)) && name == NamesOf(s).next
      && Get(s, name) == None
  {
    NewValid(s, made);
    assert KeysOf(New(s, made).0.shapes, s.rootShape) == [];
  }

  lemma PokeShows(s: Heap, a: Private, h: Handle, d: Direct)
    requires Valid(s) && PrivateOk(a) && Shows(s, a) && Has(a, h)
    ensures var s1 := WriteDirect(s, h, d);
      Valid(s1) && s1.table == s.table && Shows(s1, PrivateAct(a, Poke(h, d), NamesOf(s)))
  {
    var s1 := WriteDirect(s, h, d);
    DirectValid(s, h, d);
    PokeTable(s, h, d);
    var a1 := PrivateAct(a, Poke(h, d), NamesOf(s));
    hide Valid, Get, View, Seen, Changed, WriteDirect, PrivateAct, Shows, Canon, Has, ObjectOf, PrivateOk;
    forall g | Has(a1, g) ensures Has(a, g) && Get(s1, g) == Get(s, g) && Canon(a1, g) == Canon(a, g) && g in View(s1) && View(s1)[g] == ObjectOf(a1, g) {
      PokeAt(s, a, h, d, g);
      ShowsAt(s, a, h, g);
      DirectSeen(s, h, d, g);
    }
    forall g, g1 | Has(a1, g) && Has(a1, g1) ensures Get(s1, g) == Get(s1, g1) <==> Canon(a1, g) == Canon(a1, g1) { ShowsAt(s, a, g, g1); }
    ShowsFrom(s1, a1);
  }

  lemma PokeTable(s: Heap, h: Handle, d: Direct)
    ensures WriteDirect(s, h, d).table == s.table
  {}

  lemma PokeAt(s: Heap, a: Private, h: Handle, d: Direct, g: Handle)
    requires Valid(s) && PrivateOk(a) && Has(a, h) && Has(PrivateAct(a, Poke(h, d), NamesOf(s)), g)
    ensures var (a1, o) := (PrivateAct(a, Poke(h, d), NamesOf(s)), ObjectOf(a, h));
      && Has(a, g) && Canon(a1, g) == Canon(a, g)
      && ObjectOf(a1, g) == if Canon(a, g) == Canon(a, h) then o.(body := Changed(o.body, d)) else ObjectOf(a, g)
  {
    hide Changed, NamesOf;
  }

  lemma {:induction false} MovesShow(s: Heap, a: Private, moves: seq<Move>)
    requires Valid(s) && PrivateOk(a) && Shows(s, a) && UsesMoves(s, a, moves)
    ensures Shows(Acts(s, moves), PrivateActs(s, a, moves)) && Acts(s, moves).table == s.table
    decreases |moves|
  {
    hide Valid, Shows, Act, PrivateAct, PrivateOk;
    if moves != [] {
      MoveShows(s, a, moves[0]);
      MovesShow(Act(s, moves[0]), PrivateAct(a, moves[0], NamesOf(s)), moves[1..]);
    }
  }

  /** No move makes one forget a handle, and one gets the handle of what one makes. */
  lemma KnowsMore(a: Private, mv: Move, n: Names, g: Handle)
    requires PrivateOk(a)
    ensures Has(a, g) || (mv.Make? && g == n.next) ==> Has(PrivateAct(a, mv, n), g)
  {
    hide Apply, Changed, NewBody;
  }

  lemma {:induction false} UsesKnown(s: Heap, a: Private, moves: seq<Move>)
    requires Valid(s) && PrivateOk(a) && forall i :: 0 <= i < |moves| ==> Knows(a, moves[i])
    ensures UsesMoves(s, a, moves)
    decreases |moves|
  {
    hide Valid, Act, PrivateAct, Shown;
    if moves != [] {
      var a1 := PrivateAct(a, moves[0], NamesOf(s));
      forall i | 0 <= i < |moves[1..]| ensures Knows(a1, moves[1..][i]) {
        assert Knows(a, moves[i + 1]);
        if !moves[i + 1].Make? { KnowsMore(a, moves[0], NamesOf(s), moves[i + 1].h); }
      }
      UsesKnown(Act(s, moves[0]), a1, moves[1..]);
    }
  }
  /** Walks agree where all the objects on the way do. */
  lemma {:induction false} WalksAgree(m: map<Handle, Object>, n: map<Handle, Object>, h: Handle, text: string, guard: nat)
    requires AllOk(m) && AllOk(n) && (h in n || h !in m) && forall g :: g in n ==> g in m && m[g] == n[g]
    requires forall g :: g in n ==> n[g].body.proto in n || n[g].body.proto !in m
    ensures Walk(m, h, text, guard) == Walk(n, h, text, guard)
    decreases guard
  {
    if guard > 0 && h in n { WalksAgree(m, n, n[h].body.proto, text, guard - 1); }
  }

  /** Property reads agree too, on any set of handles closed under prototypes. */
  lemma ReadsAgree(s: Heap, a: Private, h: Handle, text: string, guard: nat)
    requires Valid(s) && PrivateOk(a) && Shows(s, a) && AllOk(View(s)) && (Has(a, h) || h !in View(s)) && ProtosKnown(s, a)
    ensures Walk(View(s), h, text, guard) == Walk(Shown(a), h, text, guard)
  {
    forall g | Has(a, g) ensures g in View(s) && View(s)[g] == ObjectOf(a, g) { ShowsAt(s, a, g, g); }
    hide Valid, Shows, Walk, Get;
    WalksAgree(View(s), Shown(a), h, text, guard);
  }

  // ---------- Steps over both ----------

  lemma SameLiteral(m: map<Handle, Object>, k: map<Handle, Object>, h: Handle, text: string, f: Value, setter: bool, n: Names)
    requires AllOk(m) && AllOk(k) && h in m && h in k && m[h] == k[h] && CellAt(m, Bound(m[h], text)) == CellAt(k, Bound(m[h], text))
    ensures LiteralMoves(m, h, text, f, setter, n) == LiteralMoves(k, h, text, f, setter, n)
  {}

  lemma SameDefine(m: map<Handle, Object>, k: map<Handle, Object>, h: Handle, text: string, d: Desc, n: Names)
    requires AllOk(m) && AllOk(k) && h in m && h in k && m[h] == k[h]
    requires var c := CellAt(m, ValueOf(Own(m[h], text)));
      c == CellAt(k, ValueOf(Own(m[h], text))) && FunctionsAt(m, c) == FunctionsAt(k, c)
    ensures DefineMoves(m, h, text, d, n) == DefineMoves(k, h, text, d, n)
  {
    hide Own, DefineFromDesc, NewAttrs, FunctionsAt, CellAt;
  }

  lemma CopyAgree(s: Heap, a: Private, dest: Handle, h: Handle, text: string)
    requires Valid(s) && PrivateOk(a) && Shows(s, a) && Has(a, h) && ProtosKnown(s, a) && AllOk(View(s))
    ensures Moves(View(s), Copy(dest, h, text), NamesOf(s)) == Moves(Shown(a), Copy(dest, h, text), NamesOf(s))
  {
    hide Valid, Shows, Walk, Get, AllOk, PrivateOk, Has, ObjectOf, Listed, ProtosKnown;
    ShowsAt(s, a, h, h);
    ReadsAgree(s, a, h, text, |s.store| + 1);
  }

  lemma LiteralAgree(s: Heap, a: Private, h: Handle, text: string, f: Value, setter: bool)
    requires Valid(s) && PrivateOk(a) && Shows(s, a) && Has(a, h) && AllOk(View(s)) && CellKnown(s, a, Bound(ObjectOf(a, h), text))
    ensures Moves(View(s), Literal(h, text, f, setter), NamesOf(s)) == Moves(Shown(a), Literal(h, text, f, setter), NamesOf(s))
  {
    hide Valid, Shows, Get, Bound, AllOk, PrivateOk, CellAt, FunctionsAt, CellKnown, LiteralMoves, Has, ObjectOf;
    ShowsAt(s, a, h, h);
    CellsAgree(s, a, Bound(ObjectOf(a, h), text));
    SameLiteral(View(s), Shown(a), h, text, f, setter, NamesOf(s));
  }

  lemma DefineAgree(s: Heap, a: Private, h: Handle, text: string, d: Desc)
    requires Valid(s) && PrivateOk(a) && Shows(s, a) && Has(a, h) && AllOk(View(s)) && CellKnown(s, a, ValueOf(Own(ObjectOf(a, h), text)))
    ensures Moves(View(s), Define(h, text, d), NamesOf(s)) == Moves(Shown(a), Define(h, text, d), NamesOf(s))
  {
    hide Valid, Shows, Get, Own, AllOk, PrivateOk, CellAt, FunctionsAt, CellKnown, DefineMoves, Has, ObjectOf;
    ShowsAt(s, a, h, h);
    CellsAgree(s, a, ValueOf(Own(ObjectOf(a, h), text)));
    SameDefine(View(s), Shown(a), h, text, d, NamesOf(s));
  }

  /** Over the objects one has, a step has the moves it has over the isolate's. */
  lemma MovesAgree(s: Heap, a: Private, st: Step)
    requires Valid(s) && PrivateOk(a) && Shows(s, a) && UsesStep(s, a, st)
    ensures AllOk(View(s)) && Moves(View(s), st, NamesOf(s)) == Moves(Shown(a), st, NamesOf(s))
  {
    hide Valid, Shows, AllOk, PrivateOk, CellKnown, LiteralMoves, DefineMoves, Has, ObjectOf, Listed, ProtosKnown, Own, Bound, Walk;
    ViewOk(s);
    match st
    case One(_) =>
    case Copy(dest, h, text) => CopyAgree(s, a, dest, h, text);
    case Literal(h, text, f, setter) => LiteralAgree(s, a, h, text, f, setter);
    case Define(h, text, d) => DefineAgree(s, a, h, text, d);
  }

  lemma CellsAgree(s: Heap, a: Private, v: Option<Value>)
    requires Valid(s) && PrivateOk(a) && Shows(s, a) && CellKnown(s, a, v)
    ensures CellAt(View(s), v) == CellAt(Shown(a), v)
    ensures FunctionsAt(View(s), CellAt(View(s), v)) == FunctionsAt(Shown(a), CellAt(View(s), v))
    ensures CellAt(View(s), v).Some? ==> Has(a, CellAt(View(s), v).value)
  {
    if v.Some? && v.value.Accessor? && Has(a, v.value.cell) { ShowsAt(s, a, v.value.cell, v.value.cell); }
    hide Valid, Shows, Get;
  }

  /** The moves go through the object and the cell. */
  lemma DefineHandles(m: map<Handle, Object>, h: Handle, text: string, d: Desc, n: Names)
    requires AllOk(m) && h in m
    ensures forall i :: 0 <= i < |DefineMoves(m, h, text, d, n)| ==>
      var mv := DefineMoves(m, h, text, d, n)[i]; mv.Make? || mv.h == h || Some(mv.h) == CellAt(m, ValueOf(Own(m[h], text)))
  {
    hide Own, DefineFromDesc, NewAttrs, FunctionsAt, CellAt;
  }

  lemma DefineUsed(s: Heap, a: Private, h: Handle, text: string, d: Desc)
    requires Valid(s) && PrivateOk(a) && Shows(s, a) && Has(a, h) && CellKnown(s, a, ValueOf(Own(ObjectOf(a, h), text)))
    ensures UsesMoves(s, a, DefineMoves(Shown(a), h, text, d, NamesOf(s)))
  {
    hide Valid, Shows, Get, Own, FunctionsAt, CellKnown, DefineMoves, UsesMoves;
    CellsAgree(s, a, ValueOf(Own(ObjectOf(a, h), text)));
    DefineHandles(Shown(a), h, text, d, NamesOf(s));
    UsesKnown(s, a, DefineMoves(Shown(a), h, text, d, NamesOf(s)));
  }

  /** A step works through the handles one has. */
  lemma MovesUsed(s: Heap, a: Private, st: Step)
    requires Valid(s) && PrivateOk(a) && Shows(s, a) && UsesStep(s, a, st)
    ensures UsesMoves(s, a, Moves(Shown(a), st, NamesOf(s)))
  {
    hide Valid, Shows, Walk, Get, Own, Bound, DefineMoves, Listed, FunctionsAt, CellKnown, ProtosKnown, UsesMoves;
    var moves := Moves(Shown(a), st, NamesOf(s));
    match st
    case One(_) => UsesKnown(s, a, moves);
    case Copy(_, _, _) => UsesKnown(s, a, moves);
    case Literal(h, text, _, _) =>
      CellsAgree(s, a, Bound(ObjectOf(a, h), text));
      if |moves| == 3 { LiteralUsed(s, a, st, moves); } else { UsesKnown(s, a, moves); }
    case Define(h, text, d) => DefineUsed(s, a, h, text, d);
  }

  lemma LiteralUsed(s: Heap, a: Private, st: Step, moves: seq<Move>)
    requires Valid(s) && PrivateOk(a) && st.Literal? && Has(a, st.h) && |moves| == 3
    requires moves[0].Make? && moves[1].On? && moves[1].h == st.h && moves[2].Poke? && moves[2].h == NamesOf(s).next
    ensures UsesMoves(s, a, moves)
  {
    var a1 := PrivateAct(a, moves[0], NamesOf(s));
    KnowsMore(a, moves[0], NamesOf(s), st.h);
    KnowsMore(a, moves[0], NamesOf(s), NamesOf(s).next);
    UsesKnown(Act(s, moves[0]), a1, moves[1..]);
    hide Valid, PrivateAct, Has, PrivateOk, NamesOf;
  }

  lemma StepShows(s: Heap, a: Private, st: Step)
    requires Valid(s) && PrivateOk(a) && Shows(s, a) && UsesStep(s, a, st)
    ensures Shows(Do(s, st), PrivateDo(s, a, st))
  {
    MovesAgree(s, a, st);
    MovesUsed(s, a, st);
    MovesShow(s, a, Moves(Shown(a), st, NamesOf(s)));
    hide Valid, Shows, Moves, PrivateOk, UsesStep;
  }

  /** The overlay refines a private deep copy: whatever a program does through its handles, each of them
      shows the object a private copy would hold. */
  lemma {:induction false} RunShows(s: Heap, a: Private, steps: seq<Step>)
    requires Valid(s) && PrivateOk(a) && Shows(s, a) && Uses(s, a, steps)
    ensures Shows(Run(s, steps), PrivateRun(s, a, steps))
    decreases |steps|
  {
    hide Valid, Shows, Do, PrivateDo, PrivateOk, UsesStep;
    if steps != [] {
      StepShows(s, a, steps[0]);
      RunShows(Do(s, steps[0]), PrivateDo(s, a, steps[0]), steps[1..]);
    }
  }

  /** An isolate that has written nothing shows the realm. */
  lemma PristineShows(s: Heap, a: map<Handle, Object>)
    requires Valid(s) && s.cow == map[]
    requires forall h :: h in a ==> h.Root? && 0 < h.i < s.base && a[h] == Seen(s, h)
    ensures PrivateOk(Private(a, map[])) && Shows(s, Private(a, map[]))
  {}

  // ---------- What a definition changes ----------

  lemma {:induction false} ActsAppend(s: Heap, x: seq<Move>, y: seq<Move>)
    requires Valid(s)
    ensures Acts(s, x + y) == Acts(Acts(s, x), y)
    decreases |x|
  {
    hide Valid, Act;
    if x == [] {
      assert x + y == y;
    } else {
      assert (x + y)[0] == x[0] && (x + y)[1..] == x[1..] + y;
      ActsAppend(Act(s, x[0]), x[1..], y);
    }
  }

  /** A write leaves every handle but those of its object what it showed, and names apart that were apart. */
  lemma OnSeen(s: Heap, h: Handle, op: Op, g: Handle, e: Handle)
    requires Valid(s) && g in View(s) && e in View(s)
    ensures var s1 := Act(s, On(h, op));
      && g in View(s1) && e in View(s1) && s1.table == s.table
      && Seen(s1, g) == (if Get(s, g) == Get(s, h) then Apply(Seen(s, g), op, s.table) else Seen(s, g))
      && (Get(s1, g) == Get(s1, e) <==> Get(s, g) == Get(s, e))
  {
    WriteSeen(s, h, op, g);
    WriteSeen(s, h, op, e);
    WriteGet(s, h, op, g, e);
    WriteTable(s, h, op);
    hide Valid, Write, Seen, Get, Apply;
  }

  /** The cell with the functions a definition gives. */
  function FilledCell(o: Object, d: Desc): Object {
    var es := o.body.elements;
    o.(body := o.body.(elements :=
      [OrElse(d.getter, if |es| > 0 then es[0] else Undefined), OrElse(d.setter, if |es| > 1 then es[1] else Undefined)]))
  }

  function FieldSet(o: Object, i: nat, v: Option<Value>, table: nat): Object
    requires Ok(o)
  {
    if v.Some? then Apply(o, Op.SetElement(i, v.value), table) else o
  }

  lemma FieldSeen(s: Heap, c: Handle, i: nat, v: Option<Value>, g: Handle, e: Handle)
    requires Valid(s) && c in View(s) && g in View(s) && e in View(s)
    ensures var s1 := Acts(s, FieldMove(c, i, v));
      && g in View(s1) && e in View(s1) && c in View(s1) && s1.table == s.table && Ok(Seen(s, g))
      && Seen(s1, g) == (if Get(s, g) == Get(s, c) then FieldSet(Seen(s, g), i, v, s.table) else Seen(s, g))
      && (Get(s1, g) == Get(s1, e) <==> Get(s, g) == Get(s, e))
      && (Get(s1, g) == Get(s1, c) <==> Get(s, g) == Get(s, c))
  {
    SeenOk(s, g);
    hide Valid, Seen, Get, Apply, Act, Ok;
    if v.Some? {
      var op := Op.SetElement(i, v.value);
      OneMove(s, On(c, op));
      OnSeen(s, c, op, g, e);
      OnSeen(s, c, op, g, c);
    }
  }

  lemma FillSeen(s: Heap, c: Handle, d: Desc, g: Handle, e: Handle)
    requires Valid(s) && c in View(s) && g in View(s) && e in View(s) && |Seen(s, c).body.elements| == 2
    ensures var s1 := Acts(s, FillMoves(c, d));
      && g in View(s1) && e in View(s1) && s1.table == s.table
      && Seen(s1, g) == (if Get(s, g) == Get(s, c) then FilledCell(Seen(s, g), d) else Seen(s, g))
      && (Get(s1, g) == Get(s1, e) <==> Get(s, g) == Get(s, e))
  {
    hide Valid, Seen, Get, Apply, Act, Ok, FilledCell, FieldSet, FieldMove;
    ActsAppend(s, FieldMove(c, 0, d.getter), FieldMove(c, 1, d.setter));
    FieldSeen(s, c, 0, d.getter, g, e);
    FieldSeen(Acts(s, FieldMove(c, 0, d.getter)), c, 1, d.setter, g, e);
    if Get(s, g) == Get(s, c) { SameSeen(s, g, c); FilledTwice(s, g, d); }
  }

  lemma FilledTwice(s: Heap, g: Handle, d: Desc)
    requires Valid(s) && g in View(s) && |Seen(s, g).body.elements| == 2
    ensures Ok(Seen(s, g))
    ensures var o1 := FieldSet(Seen(s, g), 0, d.getter, s.table); Ok(o1) && FilledCell(Seen(s, g), d) == FieldSet(o1, 1, d.setter, s.table)
  {
    SeenOk(s, g);
    var o := Seen(s, g);
    hide Valid, Seen;
    var o1 := FieldSet(o, 0, d.getter, s.table);
    assert o1.body.elements == [OrElse(d.getter, o.body.elements[0]), o.body.elements[1]];
    var o2 := FieldSet(o1, 1, d.setter, s.table);
    assert o2.body.elements == [OrElse(d.getter, o.body.elements[0]), OrElse(d.setter, o.body.elements[1])];
  }

  lemma TwoMoves(s: Heap, x: Move, y: Move)
    requires Valid(s)
    ensures Acts(s, [x, y]) == Act(Act(s, x), y)
  {
    hide Valid, Act;
    assert [x, y][1..] == [y];
    OneMove(Act(s, x), y);
  }

  /** What installing an accessor makes of an object. */
  function Installed(o: Object, text: string, cell: Handle, attrs: Attrs, table: nat): Object
    requires Ok(o)
  {
    Apply(Apply(o, Op.SetProperty(text, Accessor(cell)), table), SetAttrs(text, attrs.(writable := false)), table)
  }

  lemma InstallSeen(s: Heap, h: Handle, text: string, cell: Handle, attrs: Attrs, g: Handle)
    requires Valid(s) && h in View(s) && g in View(s)
    ensures var s1 := Acts(s, InstallMoves(h, text, cell, attrs));
      && g in View(s1) && Ok(Seen(s, g))
      && Seen(s1, g) == if Get(s, g) == Get(s, h) then Installed(Seen(s, g), text, cell, attrs, s.table) else Seen(s, g)
  {
    hide Valid, Seen, Get, Act, Apply, Ok, Acts;
    SeenOk(s, g);
    var x, y := Op.SetProperty(text, Accessor(cell)), SetAttrs(text, attrs.(writable := false));
    TwoMoves(s, On(h, x), On(h, y));
    OnSeen(s, h, x, g, h);
    OnSeen(Act(s, On(h, x)), h, y, g, h);
  }

  lemma SeenOk(s: Heap, g: Handle)
    requires Valid(s) && g in View(s)
    ensures Ok(Seen(s, g)) && !Seen(s, g).body.isRoot
  {}

  /** The cell a property is an accessor in. */
  ghost function CellHeld(s: Heap, h: Handle, text: string): Option<Handle>
    requires Valid(s) && h in View(s)
  {
    SeenOk(s, h); CellAt(View(s), ValueOf(Own(Seen(s, h), text)))
  }

  /** What Object.defineProperty comes to, from what the handles show. */
  ghost function Defined(s: Heap, h: Handle, text: string, d: Desc): Outcome
    requires Valid(s) && h in View(s)
  {
    SeenOk(s, h);
    var c := CellHeld(s, h, text);
    DefineFromDesc(Seen(s, h), Key(text, s.table), d, FunctionsAt(View(s), c),
                   if c.Some? then Through(NamesOf(s), c.value) else NamesOf(s).next)
  }

  ghost function DefinedCell(s: Heap, h: Handle, text: string): Handle
    requires Valid(s) && h in View(s)
  {
    var c := CellHeld(s, h, text); if c.Some? then Through(NamesOf(s), c.value) else NamesOf(s).next
  }

  /** The moves that make the cell hold the functions. */
  ghost function CellMoves(s: Heap, h: Handle, text: string, d: Desc, fs: Functions): seq<Move>
    requires Valid(s) && h in View(s)
  {
    var c := CellHeld(s, h, text); if c.Some? then FillMoves(c.value, d) else [Make(CellOf(fs))]
  }

  ghost function DataMove(s: Heap, h: Handle, text: string, d: Desc): Move
    requires Valid(s) && h in View(s)
  {
    SeenOk(s, h);
    var p := Own(Seen(s, h), text);
    On(h, DefineData(text, OrElse(d.value, if p.Some? then p.value.value else Undefined), NewAttrs(p, d)))
  }

  ghost function AttrsDefined(s: Heap, h: Handle, text: string, d: Desc): Attrs
    requires Valid(s) && h in View(s)
  {
    SeenOk(s, h); NewAttrs(Own(Seen(s, h), text), d)
  }

  lemma DefineMovesAre(s: Heap, h: Handle, text: string, d: Desc)
    requires Valid(s) && h in View(s)
    ensures AllOk(View(s))
    ensures var r := Defined(s, h, text, d);
      Moves(View(s), Define(h, text, d), NamesOf(s)) ==
        if r.TypeError? then []
        else if r.functions.None? then [DataMove(s, h, text, d)]
        else CellMoves(s, h, text, d, r.functions.value) + InstallMoves(h, text, DefinedCell(s, h, text), AttrsDefined(s, h, text, d))
  {
    ViewOk(s);
    SeenOk(s, h);
    hide Valid, Own, DefineFromDesc, NewAttrs, FunctionsAt, CellAt, Seen, FillMoves, InstallMoves;
  }

  lemma DefineIs(s: Heap, h: Handle, text: string, d: Desc)
    requires Valid(s) && h in View(s)
    ensures var r := Defined(s, h, text, d);
      Do(s, Define(h, text, d)) ==
        if r.TypeError? then s
        else if r.functions.None? then Act(s, DataMove(s, h, text, d))
        else Acts(Acts(s, CellMoves(s, h, text, d, r.functions.value)), InstallMoves(h, text, DefinedCell(s, h, text), AttrsDefined(s, h, text, d)))
  {
    DefineMovesAre(s, h, text, d);
    hide Valid, Act, Moves, Defined, CellMoves, InstallMoves, DataMove, DefinedCell, AttrsDefined;
    var r := Defined(s, h, text, d);
    if r.Done? {
      if r.functions.None? { OneMove(s, DataMove(s, h, text, d)); }
      else { ActsAppend(s, CellMoves(s, h, text, d, r.functions.value), InstallMoves(h, text, DefinedCell(s, h, text), AttrsDefined(s, h, text, d))); }
    }
  }

  /** The functions are in place before the property is. */
  lemma PreparedCell(s: Heap, h: Handle, text: string, d: Desc, g: Handle)
    requires Valid(s) && h in View(s) && g in View(s) && Defined(s, h, text, d).Done? && Defined(s, h, text, d).functions.Some?
    requires var c := CellHeld(s, h, text); c.Some? ==> Get(s, c.value) != Get(s, h) && |Seen(s, c.value).body.elements| == 2
    ensures var (fs, c) := (Defined(s, h, text, d).functions.value, CellHeld(s, h, text));
      var s1 := Acts(s, CellMoves(s, h, text, d, fs));
      && h in View(s1) && g in View(s1) && s1.table == s.table && Seen(s1, h) == Seen(s, h)
      && (Get(s1, g) == Get(s1, h) <==> Get(s, g) == Get(s, h))
      && Seen(s1, g) == if c.Some? && Get(s, g) == Get(s, c.value) then FilledCell(Seen(s, g), d) else Seen(s, g)
  {
    var (fs, c) := (Defined(s, h, text, d).functions.value, CellHeld(s, h, text));
    hide Valid, Seen, Get, Act, Own, DefineFromDesc, FillMoves, FilledCell, Defined, CellHeld;
    if c.Some? {
      FillSeen(s, c.value, d, g, h);
      FillSeen(s, c.value, d, h, h);
    } else {
      OneMove(s, Make(CellOf(fs)));
      MadeSeen(s, CellOf(fs), g);
      MadeSeen(s, CellOf(fs), h);
    }
  }

  lemma MadeSeen(s: Heap, made: Made, g: Handle)
    requires Valid(s) && g in View(s)
    ensures var s1 := Act(s, Make(made)); g in View(s1) && s1.table == s.table && Seen(s1, g) == Seen(s, g) && Get(s1, g) == Get(s, g)
  {
    NewSeen(s, made, g);
  }

  /** The object a definition gives, as operations of the heap. */
  lemma DefinedByOps(o: Object, text: string, d: Desc, was: Functions, cell: Handle, table: nat)
    requires Ok(o) && DefineFromDesc(o, Key(text, table), d, was, cell).Done?
    ensures var (r, p) := (DefineFromDesc(o, Key(text, table), d, was, cell), Own(o, text));
      r.o == if r.functions.Some? then Installed(o, text, cell, NewAttrs(p, d), table)
             else Apply(o, DefineData(text, OrElse(d.value, if p.Some? then p.value.value else Undefined), NewAttrs(p, d)), table)
  {
    hide Own, SetPropertyAttrs, Properties.SetProperty, Properties.DefineDataProperty, Malformed, Refusal, NewAttrs;
  }

  lemma AccessorDefined(s: Heap, h: Handle, text: string, d: Desc)
    requires Valid(s) && h in View(s) && Defined(s, h, text, d).Done?
    ensures Ok(Seen(s, h))
    ensures Defined(s, h, text, d).o ==
      if Defined(s, h, text, d).functions.Some? then Installed(Seen(s, h), text, DefinedCell(s, h, text), AttrsDefined(s, h, text, d), s.table)
      else Apply(Seen(s, h), DataMove(s, h, text, d).op, s.table)
  {
    hide Valid, Own, Seen, DefineFromDesc, Installed, Apply, NewAttrs, FunctionsAt, CellHeld;
    SeenOk(s, h);
    DefinedByOps(Seen(s, h), text, d, FunctionsAt(View(s), CellHeld(s, h, text)), DefinedCell(s, h, text), s.table);
  }

  /** A definition is refused with nothing written, or changes what is seen of the object and, if it is one of an
      accessor that is there, of its cell, for every property in that cell; nothing else. */
  lemma DefineSeen(s: Heap, h: Handle, text: string, d: Desc, g: Handle)
    requires Valid(s) && h in View(s) && g in View(s)
    requires var c := CellHeld(s, h, text); c.Some? ==> Get(s, c.value) != Get(s, h) && |Seen(s, c.value).body.elements| == 2
    ensures var (r, c, s1) := (Defined(s, h, text, d), CellHeld(s, h, text), Do(s, Define(h, text, d)));
      && g in View(s1)
      && (r.TypeError? ==> s1 == s)
      && (r.Done? ==>
            Seen(s1, g) ==
              if Get(s, g) == Get(s, h) then r.o
              else if c.Some? && r.functions.Some? && Get(s, g) == Get(s, c.value) then FilledCell(Seen(s, g), d)
              else Seen(s, g))
  {
    hide Valid, Seen, Get, Act, CellAt, Own, CellHeld, CellMoves, Defined, DefinedCell, AttrsDefined, FilledCell, Do,
         Apply, Installed, InstallMoves, NewAttrs;
    SeenOk(s, h);
    DefineIs(s, h, text, d);
    var r := Defined(s, h, text, d);
    if Get(s, g) == Get(s, h) { SameSeen(s, g, h); }
    if r.Done? {
      AccessorDefined(s, h, text, d);
      if r.functions.None? {
        OnSeen(s, h, DataMove(s, h, text, d).op, g, h);
      } else {
        PreparedCell(s, h, text, d, g);
        InstallSeen(Acts(s, CellMoves(s, h, text, d, r.functions.value)), h, text, DefinedCell(s, h, text), AttrsDefined(s, h, text, d), g);
      }
    }
  }

  // ---------- The realm, over runs ----------

  /** The cell a literal's accessor writes in place. */
  ghost function CellOfLiteral(s: Heap, h: Handle, text: string): Option<Handle>
    requires Valid(s)
  {
    if h in View(s) then CellAt(View(s), Bound(Seen(s, h), text)) else None
  }

  /** A direct write that changes an object of the realm the isolate has not cloned: a constructor applied to it, or
      an accessor in a literal over a property that holds it and has other functions. */
  ghost predicate Touches(s: Heap, st: Step)
    requires Valid(s)
  {
    match st
    case One(mv) => mv.Poke? && TouchesRealm(s, mv.h, mv.direct)
    case Literal(h, text, f, setter) =>
      CellOfLiteral(s, h, text).Some? && TouchesRealm(s, CellOfLiteral(s, h, text).value, SetFunction(f, setter))
    case _ => false
  }

  lemma KeptTrans(a: Heap, b: Heap, c: Heap)
    requires RealmKept(a, b) && RealmKept(b, c)
    ensures RealmKept(a, c)
  {}

  lemma ActKeeps(s: Heap, mv: Move)
    requires Valid(s)
    ensures RealmKept(s, Act(s, mv)) <==> !(mv.Poke? && TouchesRealm(s, mv.h, mv.direct))
  {
    match mv
    case On(h, op) => WriteKeepsRealm(s, h, op);
    case Make(_) =>
    case Poke(h, d) => DirectRealm(s, h, d);
    hide Write, WriteDirect, TouchesRealm;
  }

  lemma {:induction false} ActsKeep(s: Heap, moves: seq<Move>)
    requires Valid(s) && forall i :: 0 <= i < |moves| ==> !moves[i].Poke?
    ensures RealmKept(s, Acts(s, moves))
    decreases |moves|
  {
    hide Valid, Act;
    if moves == [] {
      KeptSelf(s);
    } else {
      ActKeeps(s, moves[0]);
      ActsKeep(Act(s, moves[0]), moves[1..]);
      KeptTrans(s, Act(s, moves[0]), Acts(s, moves));
    }
  }

  lemma KeptSelf(s: Heap)
    requires Valid(s)
    ensures RealmKept(s, s)
  {}

  lemma LocalUntouched(s: Heap, h: Handle, d: Direct)
    requires h.Local?
    ensures !TouchesRealm(s, h, d)
  {}

  lemma ThreeMoves(s: Heap, x: Move, y: Move, z: Move)
    requires Valid(s)
    ensures Acts(s, [x, y, z]) == Act(Act(Act(s, x), y), z)
  {
    hide Valid, Act;
    assert [x, y, z][1..] == [y, z] && [y, z][1..] == [z];
    OneMove(Act(Act(s, x), y), z);
  }

  /** A new cell is the isolate's own. */
  lemma FreshCellKeeps(s: Heap, h: Handle, text: string, f: Value, setter: bool)
    requires Valid(s)
    ensures var n := NamesOf(s).next;
      RealmKept(s, Acts(s, [Make(CellOf(NO_FUNCTIONS)), On(h, Op.SetProperty(text, Accessor(n))), Poke(n, SetFunction(f, setter))]))
  {
    hide Valid, Act, TouchesRealm, RealmKept;
    var n := NamesOf(s).next;
    var x, y, z := Make(CellOf(NO_FUNCTIONS)), On(h, Op.SetProperty(text, Accessor(n))), Poke(n, SetFunction(f, setter));
    ThreeMoves(s, x, y, z);
    ActKeeps(s, x);
    ActKeeps(Act(s, x), y);
    KeptTrans(s, Act(s, x), Act(Act(s, x), y));
    LocalUntouched(Act(Act(s, x), y), n, SetFunction(f, setter));
    ActKeeps(Act(Act(s, x), y), z);
    KeptTrans(s, Act(Act(s, x), y), Act(Act(Act(s, x), y), z));
  }

  lemma LiteralIs(s: Heap, h: Handle, text: string, f: Value, setter: bool)
    requires Valid(s)
    ensures AllOk(View(s))
    ensures var (moves, c, n) := (Moves(View(s), Literal(h, text, f, setter), NamesOf(s)), CellOfLiteral(s, h, text), NamesOf(s).next);
      && (c.Some? ==> moves == [Poke(c.value, SetFunction(f, setter))])
      && (c.None? ==> moves == [] || moves == [Make(CellOf(NO_FUNCTIONS)), On(h, Op.SetProperty(text, Accessor(n))), Poke(n, SetFunction(f, setter))])
  {
    ViewOk(s);
    hide Valid, Seen, Get;
  }

  lemma DefineUnpoked(m: map<Handle, Object>, st: Step, n: Names)
    requires AllOk(m) && (st.Copy? || st.Define?)
    ensures forall i :: 0 <= i < |Moves(m, st, n)| ==> !Moves(m, st, n)[i].Poke?
  {
    hide Own, DefineFromDesc, NewAttrs, FunctionsAt, CellAt, Walk, Listed;
  }

  /** A step writes the realm exactly when it is such a write. */
  lemma DoKeepsRealm(s: Heap, st: Step)
    requires Valid(s)
    ensures RealmKept(s, Do(s, st)) <==> !Touches(s, st)
  {
    hide Valid, Get, TouchesRealm, Act, LiteralMoves, DefineMoves, CellOfLiteral, Moves, RealmKept;
    ViewOk(s);
    var moves := Moves(View(s), st, NamesOf(s));
    match st
    case One(mv) => ActKeeps(s, mv); OneMove(s, mv); OneIs(s, mv);
    case Literal(h, text, f, setter) =>
      LiteralIs(s, h, text, f, setter);
      FreshCellKeeps(s, h, text, f, setter);
      KeptSelf(s);
      if CellOfLiteral(s, h, text).Some? {
        var mv := Poke(CellOfLiteral(s, h, text).value, SetFunction(f, setter));
        ActKeeps(s, mv);
        OneMove(s, mv);
      }
    case _ => DefineUnpoked(View(s), st, NamesOf(s)); ActsKeep(s, moves);
  }

  lemma OneMove(s: Heap, mv: Move)
    requires Valid(s)
    ensures Acts(s, [mv]) == Act(s, mv)
  {
    hide Act, Valid;
  }

  lemma OneIs(s: Heap, mv: Move)
    requires Valid(s)
    ensures AllOk(View(s)) && Moves(View(s), One(mv), NamesOf(s)) == [mv]
  {
    ViewOk(s);
  }

  ghost predicate NeverTouches(s: Heap, steps: seq<Step>)
    requires Valid(s)
    decreases |steps|
  {
    steps == [] || (!Touches(s, steps[0]) && NeverTouches(Do(s, steps[0]), steps[1..]))
  }

  ghost predicate EveryStepKeepsRealm(s: Heap, steps: seq<Step>)
    requires Valid(s)
    decreases |steps|
  {
    steps == [] || (RealmKept(s, Do(s, steps[0])) && EveryStepKeepsRealm(Do(s, steps[0]), steps[1..]))
  }

  /** No step of a run writes the realm exactly when none is such a write; and then the realm is at the end as it was. */
  lemma {:induction false} RunKeepsRealm(s: Heap, steps: seq<Step>)
    requires Valid(s)
    ensures EveryStepKeepsRealm(s, steps) <==> NeverTouches(s, steps)
    ensures NeverTouches(s, steps) ==> RealmKept(s, Run(s, steps))
    decreases |steps|
  {
    if steps != [] {
      DoKeepsRealm(s, steps[0]);
      RunKeepsRealm(Do(s, steps[0]), steps[1..]);
    }
    hide Valid, Do, Touches;
  }

  /** Two isolates in one memory: what one writes to the realm's part, the other has too. */
  datatype World = World(a: Heap, b: Heap)

  predicate OneRealm(a: Heap, b: Heap) {
    && a.base == b.base && a.shapeBase == b.shapeBase && a.base <= |a.store| && b.base <= |b.store|
    && a.shapeBase <= |a.shapes| && b.shapeBase <= |b.shapes|
    && a.store[..a.base] == b.store[..b.base] && a.shapes[..a.shapeBase] == b.shapes[..b.shapeBase]
  }

  function Follow(b: Heap, a: Heap): Heap
    requires b.base <= |b.store| && b.shapeBase <= |b.shapes| && a.base <= |a.store| && a.shapeBase <= |a.shapes|
  {
    b.(store := a.store[..a.base] + b.store[b.base..], shapes := a.shapes[..a.shapeBase] + b.shapes[b.shapeBase..])
  }

  ghost function WorldDo(w: World, left: bool, st: Step): World
    requires Valid(w.a) && Valid(w.b)
  {
    if left then (var a1 := Do(w.a, st); World(a1, Follow(w.b, a1)))
    else (var b1 := Do(w.b, st); World(Follow(w.a, b1), b1))
  }

  ghost predicate WorldOk(w: World) { Valid(w.a) && Valid(w.b) && OneRealm(w.a, w.b) }

  /** A step of one isolate leaves the other as it was exactly when it does not write the realm. */
  lemma WorldStep(w: World, left: bool, st: Step)
    requires WorldOk(w)
    ensures WorldOk(WorldDo(w, left, st))
    ensures var mine := if left then w.a else w.b;
      WorldDo(w, left, st) == (if left then World(Do(w.a, st), w.b) else World(w.a, Do(w.b, st))) <==> !Touches(mine, st)
  {
    if left { Followed(w.a, w.b, st); } else { Followed(w.b, w.a, st); }
    hide Valid, Do, Touches;
  }

  lemma Followed(a: Heap, b: Heap, st: Step)
    requires Valid(a) && Valid(b) && OneRealm(a, b)
    ensures var a1 := Do(a, st); var b1 := Follow(b, a1);
      Valid(b1) && OneRealm(a1, b1) && (b1 == b <==> !Touches(a, st))
  {
    hide Valid, Do, Touches, TouchesRealm, WriteDirect;
    DoKeepsRealm(a, st);
    if Touches(a, st) {
      var h, d := Touching(a, st);
      FollowTouch(a, b, h, d);
    } else {
      FollowSame(a, b, Do(a, st));
    }
  }

  /** The direct write such a step is. */
  lemma Touching(s: Heap, st: Step) returns (h: Handle, d: Direct)
    requires Valid(s) && Touches(s, st)
    ensures Do(s, st) == WriteDirect(s, h, d) && TouchesRealm(s, h, d) && (d.Construct? ==> st == One(Poke(h, d)))
  {
    hide Valid, TouchesRealm, WriteDirect, Moves, CellOfLiteral;
    match st
    case One(mv) =>
      OneMove(s, mv);
      OneIs(s, mv);
      return mv.h, mv.direct;
    case Literal(h0, text, f, setter) =>
      LiteralIs(s, h0, text, f, setter);
      h, d := CellOfLiteral(s, h0, text).value, SetFunction(f, setter);
      OneMove(s, Poke(h, d));
  }

  lemma FollowSame(a: Heap, b: Heap, a1: Heap)
    requires OneRealm(a, b) && RealmKept(a, a1)
    ensures Follow(b, a1) == b && OneRealm(a1, b)
  {
    assert b.store[..b.base] + b.store[b.base..] == b.store;
    assert b.shapes[..b.shapeBase] + b.shapes[b.shapeBase..] == b.shapes;
  }

  /** A changed realm object is changed for the other isolate too. */
  lemma FollowTouch(a: Heap, b: Heap, h: Handle, d: Direct)
    requires Valid(a) && Valid(b) && OneRealm(a, b) && TouchesRealm(a, h, d)
    ensures var a1 := WriteDirect(a, h, d); var b1 := Follow(b, a1);
      Valid(b1) && OneRealm(a1, b1) && b1 != b
  {
    var p := Get(a, h).value;
    var a1 := WriteDirect(a, h, d);
    var c := a.store[p].(body := Changed(a.store[p].body, d));
    assert a1.store[..a.base] == a.store[..a.base][p := c];
    assert b.store[..b.base][p] == b.store[p] && a.store[..a.base][p] == a.store[p];
    var b1 := Follow(b, a1);
    assert b1.store == b.store[p := c];
    assert b1.shapes == b.shapes;
    assert b1.store[..b.base] == a1.store[..a.base];
    forall q | 0 <= q < |b1.store| ensures CellOk(b1, q) { assert CellOk(b, q); }
    hide Get;
  }

  ghost function WorldRun(w: World, steps: seq<(bool, Step)>): World
    requires WorldOk(w)
    decreases |steps|
  {
    if steps == [] then w else WorldStep(w, steps[0].0, steps[0].1); WorldRun(WorldDo(w, steps[0].0, steps[0].1), steps[1..])
  }

  function Mine(steps: seq<(bool, Step)>, left: bool): seq<Step> {
    if steps == [] then [] else (if steps[0].0 == left then [steps[0].1] else []) + Mine(steps[1..], left)
  }

  /** Two isolates that write the realm in no way never observe each other: in any interleaving, each is where
      its own steps alone take it. */
  lemma {:induction false} Isolated(w: World, steps: seq<(bool, Step)>)
    requires WorldOk(w) && NeverTouches(w.a, Mine(steps, true)) && NeverTouches(w.b, Mine(steps, false))
    ensures WorldRun(w, steps) == World(Run(w.a, Mine(steps, true)), Run(w.b, Mine(steps, false)))
    decreases |steps|
  {
    if steps != [] {
      var (left, st) := steps[0];
      assert [st] + Mine(steps[1..], left) == Mine(steps, left);
      assert ([st] + Mine(steps[1..], left))[1..] == Mine(steps[1..], left);
      assert Mine(steps, !left) == Mine(steps[1..], !left);
      WorldStep(w, left, st);
      Isolated(WorldDo(w, left, st), steps[1..]);
    }
    hide Valid, Do, OneRealm, Touches;
  }

  // ---------- A pointer kept across the clone ----------

  const DENSE_LIMIT := 0x10_0000

  /** Defining an indexed property of an array, which also stores it in the elements of the object looked up
      before the write. */
  ghost function DefineIndexed(s: Heap, h: Handle, text: string, v: Value, attrs: Attrs): Heap
    requires Valid(s)
  {
    var p := Get(s, h);
    var s1 := Write(s, h, DefineData(text, v, attrs));
    var n := ArrayIndexKey(text);
    if p.None? || p.value >= |s1.store| || !s.store[p.value].body.kind.Array? || n.None? || n.value >= DENSE_LIMIT then s1
    else
      var b := s1.store[p.value].body;
      s1.(store := s1.store[p.value := s1.store[p.value].(body := b.(elements := Grown(b.elements, n.value + 1)[n.value := v]))])
  }

  /** Through that pointer the realm itself is written: exactly when the handle still names a realm array, the
      index is in the dense range, and the element is not there already. */
  lemma StalePointer(s: Heap, h: Handle, text: string, v: Value, attrs: Attrs)
    requires Valid(s)
    ensures var n := ArrayIndexKey(text);
      !RealmKept(s, DefineIndexed(s, h, text, v, attrs))
      <==> && Get(s, h).Some? && Get(s, h).value < s.base && s.store[Get(s, h).value].body.kind.Array?
           && n.Some? && n.value < DENSE_LIMIT
           && !(n.value < |s.store[Get(s, h).value].body.elements| && s.store[Get(s, h).value].body.elements[n.value] == v)
  {
    var p, n, s1 := Get(s, h), ArrayIndexKey(text), Write(s, h, DefineData(text, v, attrs));
    WriteKeepsRealm(s, h, DefineData(text, v, attrs));
    hide Write, ArrayIndexKey, Valid;
    var s2 := DefineIndexed(s, h, text, v, attrs);
    if p.Some? && p.value < s.base {
      assert s1.store[p.value] == s1.store[..s.base][p.value] == s.store[..s.base][p.value];
      assert s2.store[..s.base][p.value] == s2.store[p.value];
      forall q | 0 <= q < s.base && q != p.value ensures s2.store[..s.base][q] == s.store[..s.base][q] { assert s1.store[..s.base][q] == s.store[..s.base][q]; }
      if n.Some? && n.value < DENSE_LIMIT {
        var es := s.store[p.value].body.elements;
        if n.value < |es| && es[n.value] == v { assert Grown(es, n.value + 1)[n.value := v] == es; }
      }
    }
  }

  // ---------- Arrays ----------

  predicate NoRealmArrays(s: Heap) { forall p :: 0 <= p < s.base && p < |s.store| ==> !s.store[p].body.kind.Array? }

  predicate NoArrays(s: Heap) { forall p :: 0 <= p < |s.store| ==> !s.store[p].body.kind.Array? }

  /** No constructor makes an array of its receiver. */
  predicate BuiltInMove(mv: Move) { mv.Poke? && mv.direct.Construct? ==> !mv.direct.role.kind.Array? }

  predicate BuiltIn(st: Step) { st.One? ==> BuiltInMove(st.move) }

  predicate MakesNone(st: Step) { st.One? && st.move.Make? ==> !st.move.made.ArrayOf? }

  lemma ApplyKind(o: Object, op: Op, table: nat)
    requires Ok(o)
    ensures Apply(o, op, table).body.kind == o.body.kind
  {
    hide GrowFor;
  }

  lemma PrepareNoArrays(s: Heap, h: Handle)
    requires Valid(s) && NoArrays(s)
    ensures NoArrays(PrepareWrite(s, h).0)
  {
    hide Valid;
  }

  lemma PutNoArrays(s: Heap, p: nat, o: Object)
    requires Valid(s) && NoArrays(s) && p < |s.store| && !o.body.kind.Array?
    ensures NoArrays(Put(s, p, o))
  {
    hide Transition;
  }

  lemma WriteNoArrays(s: Heap, h: Handle, op: Op)
    requires Valid(s) && NoArrays(s)
    ensures NoArrays(Write(s, h, op))
  {
    PrepareValid(s, h);
    PrepareNoArrays(s, h);
    var (s1, l) := PrepareWrite(s, h);
    if GetLocal(s1, l).Some? {
      var p := GetLocal(s1, l).value;
      var o := ObjectAt(s1, p);
      assert !s1.store[p].body.kind.Array?;
      ApplyKind(o, op, s.table);
      PutNoArrays(s1, p, Apply(o, op, s.table));
    }
    hide Valid, NoArrays, PrepareWrite, Put, Apply;
  }

  lemma ActNoArrays(s: Heap, mv: Move)
    requires Valid(s) && NoArrays(s) && BuiltInMove(mv) && !(mv.Make? && mv.made.ArrayOf?)
    ensures NoArrays(Act(s, mv))
  {
    match mv
    case On(h, op) =>
      WriteNoArrays(s, h, op);
      hide Write, Valid, NoArrays;
    case Make(_) =>
    case Poke(h, d) => DirectNoArrays(s, h, d);
  }

  lemma DirectNoArrays(s: Heap, h: Handle, d: Direct)
    requires NoArrays(s) && (d.Construct? ==> !d.role.kind.Array?)
    ensures NoArrays(WriteDirect(s, h, d))
  {
    hide Get;
  }

  lemma {:induction false} ActsNoArrays(s: Heap, moves: seq<Move>)
    requires Valid(s) && NoArrays(s)
    requires forall i :: 0 <= i < |moves| ==> BuiltInMove(moves[i]) && !(moves[i].Make? && moves[i].made.ArrayOf?)
    ensures NoArrays(Acts(s, moves))
    decreases |moves|
  {
    hide Act, Valid, NoArrays;
    if moves != [] {
      ActNoArrays(s, moves[0]);
      ActsNoArrays(Act(s, moves[0]), moves[1..]);
    }
  }

  lemma MovesBuiltIn(m: map<Handle, Object>, st: Step, n: Names)
    requires AllOk(m) && BuiltIn(st) && MakesNone(st)
    ensures forall i :: 0 <= i < |Moves(m, st, n)| ==>
      var mv := Moves(m, st, n)[i]; BuiltInMove(mv) && !(mv.Make? && mv.made.ArrayOf?)
  {
    hide Own, DefineFromDesc, NewAttrs, FunctionsAt, CellAt, Walk, Listed, Bound;
  }

  /** What installs the intrinsics makes objects and functions, never an array. */
  lemma DoNoArrays(s: Heap, st: Step)
    requires Valid(s) && NoArrays(s) && BuiltIn(st) && MakesNone(st)
    ensures NoArrays(Do(s, st))
  {
    hide Valid, NoArrays, Moves, BuiltIn, MakesNone;
    ViewOk(s);
    MovesBuiltIn(View(s), st, NamesOf(s));
    ActsNoArrays(s, Moves(View(s), st, NamesOf(s)));
  }

  lemma {:induction false} RunNoArrays(s: Heap, steps: seq<Step>)
    requires Valid(s) && NoArrays(s)
    requires forall i :: 0 <= i < |steps| ==> BuiltIn(steps[i]) && MakesNone(steps[i])
    ensures NoArrays(Run(s, steps))
    decreases |steps|
  {
    hide Do, Valid, NoArrays;
    if steps != [] {
      DoNoArrays(s, steps[0]);
      RunNoArrays(Do(s, steps[0]), steps[1..]);
    }
  }

  /** Nor does any isolate make an array of a realm object. */
  lemma DoNoRealmArrays(s: Heap, st: Step)
    requires Valid(s) && NoRealmArrays(s) && BuiltIn(st)
    ensures NoRealmArrays(Do(s, st))
  {
    hide Valid, Touches, TouchesRealm, Do;
    DoKeepsRealm(s, st);
    if Touches(s, st) {
      var h, d := Touching(s, st);
      hide Get;
    } else {
      var s1 := Do(s, st);
      forall p | 0 <= p < s1.base && p < |s1.store| ensures !s1.store[p].body.kind.Array? {
        assert s1.store[p] == s1.store[..s.base][p] && s.store[..s.base][p] == s.store[p];
      }
    }
  }

  lemma {:induction false} RunNoRealmArrays(s: Heap, steps: seq<Step>)
    requires Valid(s) && NoRealmArrays(s) && forall i :: 0 <= i < |steps| ==> BuiltIn(steps[i])
    ensures NoRealmArrays(Run(s, steps))
    decreases |steps|
  {
    hide Do, Valid, NoRealmArrays;
    if steps != [] {
      DoNoRealmArrays(s, steps[0]);
      RunNoRealmArrays(Do(s, steps[0]), steps[1..]);
    }
  }

  /** So over a realm without arrays the kept pointer never writes the realm, at any moment of any run. */
  lemma IndexedKeepsRealm(s: Heap, steps: seq<Step>, h: Handle, text: string, v: Value, attrs: Attrs)
    requires Valid(s) && NoRealmArrays(s) && forall i :: 0 <= i < |steps| ==> BuiltIn(steps[i])
    ensures RealmKept(Run(s, steps), DefineIndexed(Run(s, steps), h, text, v, attrs))
  {
    RunNoRealmArrays(s, steps);
    StalePointer(Run(s, steps), h, text, v, attrs);
    hide Run, DefineIndexed, Valid, Get;
  }
}
