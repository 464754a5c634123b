/**
 The resumable vertex-normals kernel: zero the normals, accumulate the triangles, normalise,
 a budget of units at a time.  However the budget is cut up, the result is the same.
 Floating-point operations are parameters.
 */
module NormalsSpec {
  /** Single and double precision numbers, by their bits. */
  datatype F = F(bits: nat)
  datatype D = D(bits: nat)

  datatype Ops = Ops(widen: F -> D, narrow: D -> F, add: (D, D) -> D, sub: (D, D) -> D, mul: (D, D) -> D,
                     div: (D, D) -> D, sqrt: D -> D, isZero: D -> bool, zero: F, one: D)

  datatype Mesh = Mesh(pos: seq<F>, idx: seq<nat>, nverts: nat, ntris: nat)

  ghost predicate MeshOk(g: Mesh) {
    && |g.pos| == 3 * g.nverts && |g.idx| == 3 * g.ntris
    && forall i :: 0 <= i < |g.idx| ==> g.idx[i] < g.nverts
  }

  const ZERO: nat := 0
  const ACCUM: nat := 1
  const NORM: nat := 2
  const DONE: nat := 3

  // ---------- One unit of work ----------

  function SetTriple(nor: seq<F>, v: nat, x: F, y: F, z: F): (r: seq<F>)
    requires 3 * v + 2 < |nor|
    ensures |r| == |nor|
  {
    nor[3 * v := x][3 * v + 1 := y][3 * v + 2 := z]
  }

  /** Coordinate i of the vector from vertex b to vertex a. */
  function Edge(o: Ops, pos: seq<F>, a: nat, b: nat, i: nat): D
    requires i < 3 && 3 * a + 2 < |pos| && 3 * b + 2 < |pos|
  {
    o.sub(o.widen(pos[3 * a + i]), o.widen(pos[3 * b + i]))
  }

  /** Coordinate i of the triangle's normal: the cross product of its edges from b. */
  function Cross(o: Ops, pos: seq<F>, a: nat, b: nat, c: nat, i: nat): D
    requires i < 3 && 3 * a + 2 < |pos| && 3 * b + 2 < |pos| && 3 * c + 2 < |pos|
  {
    var j, k := (i + 1) % 3, (i + 2) % 3;
    o.sub(o.mul(Edge(o, pos, c, b, j), Edge(o, pos, a, b, k)), o.mul(Edge(o, pos, c, b, k), Edge(o, pos, a, b, j)))
  }

  function Plus(o: Ops, nor: seq<F>, at: nat, d: D): F
    requires at < |nor|
  {
    o.narrow(o.add(o.widen(nor[at]), d))
  }

  /** The sums are computed before any is stored: a vertex that occurs twice gets the last one only. */
  function AccumulateTriangle(o: Ops, pos: seq<F>, nor: seq<F>, a: nat, b: nat, c: nat): (r: seq<F>)
    requires |pos| == |nor| && 3 * a + 2 < |nor| && 3 * b + 2 < |nor| && 3 * c + 2 < |nor|
    ensures |r| == |nor|
  {
    var x, y, z := Cross(o, pos, a, b, c, 0), Cross(o, pos, a, b, c, 1), Cross(o, pos, a, b, c, 2);
    var n1 := SetTriple(nor, a, Plus(o, nor, 3 * a, x), Plus(o, nor, 3 * a + 1, y), Plus(o, nor, 3 * a + 2, z));
    var n2 := SetTriple(n1, b, Plus(o, nor, 3 * b, x), Plus(o, nor, 3 * b + 1, y), Plus(o, nor, 3 * b + 2, z));
    SetTriple(n2, c, Plus(o, nor, 3 * c, x), Plus(o, nor, 3 * c + 1, y), Plus(o, nor, 3 * c + 2, z))
  }

  function Accumulate(o: Ops, g: Mesh, nor: seq<F>, t: nat): (r: seq<F>)
    requires MeshOk(g) && |nor| == |g.pos| && t < g.ntris
    ensures |r| == |nor|
  {
    AccumulateTriangle(o, g.pos, nor, g.idx[3 * t], g.idx[3 * t + 1], g.idx[3 * t + 2])
  }

  /** The normal of vertex v scaled to unit length, in double precision; the zero vector is kept. */
  function Scaled(o: Ops, nor: seq<F>, v: nat): (r: seq<D>)
    requires 3 * v + 2 < |nor|
    ensures |r| == 3
  {
    var x, y, z := o.widen(nor[3 * v]), o.widen(nor[3 * v + 1]), o.widen(nor[3 * v + 2]);
    var len := o.sqrt(o.add(o.add(o.mul(x, x), o.mul(y, y)), o.mul(z, z)));
    var inv := if o.isZero(len) then o.one else o.div(o.one, len);
    [o.mul(x, inv), o.mul(y, inv), o.mul(z, inv)]
  }

  function StoreScaled(o: Ops, nor: seq<F>, v: nat): (r: seq<F>)
    requires 3 * v + 2 < |nor|
    ensures |r| == |nor|
  {
    var s := Scaled(o, nor, v);
    SetTriple(nor, v, o.narrow(s[0]), o.narrow(s[1]), o.narrow(s[2]))
  }

  /** Phase and cursor, the normals, and the last vector normalised, if any. */
  datatype K = K(phase: nat, cursor: nat, nor: seq<F>, last: seq<D>, ok: bool)

  predicate KOk(g: Mesh, k: K) {
    && |k.nor| == |g.pos| && |k.last| == 3 && k.phase <= DONE
    && (k.phase == ZERO || k.phase == NORM ==> k.cursor <= g.nverts)
    && (k.phase == ACCUM ==> k.cursor <= g.ntris)
  }

  /** Units of a phase. */
  function Extent(g: Mesh, phase: nat): nat { if phase == ACCUM then g.ntris else if phase >= DONE then 0 else g.nverts }

  /** A phase whose units are all done gives way to the next. */
  function Settle(g: Mesh, k: K): (r: K)
    requires KOk(g, k)
    ensures KOk(g, r) && (r.phase < DONE ==> r.cursor < Extent(g, r.phase))
    ensures r.nor == k.nor && r.last == k.last && r.ok == k.ok && k.phase <= r.phase
    decreases DONE - k.phase
  {
    if k.phase < DONE && k.cursor == Extent(g, k.phase) then Settle(g, k.(phase := k.phase + 1, cursor := 0)) else k
  }

  function Unit(o: Ops, g: Mesh, k: K): (r: K)
    requires MeshOk(g) && KOk(g, k) && k.phase < DONE && k.cursor < Extent(g, k.phase)
    ensures KOk(g, r) && r.phase == k.phase && r.cursor == k.cursor + 1
  {
    var c := k.cursor;
    if k.phase == ZERO then k.(cursor := c + 1, nor := SetTriple(k.nor, c, o.zero, o.zero, o.zero))
    else if k.phase == ACCUM then k.(cursor := c + 1, nor := Accumulate(o, g, k.nor, c))
    else k.(cursor := c + 1, nor := StoreScaled(o, k.nor, c), last := Scaled(o, k.nor, c), ok := true)
  }

  /** Up to b units from a settled state. */
  function Work(o: Ops, g: Mesh, k: K, b: nat): (r: K)
    requires MeshOk(g) && KOk(g, k)
    ensures KOk(g, r)
    decreases b
  {
    if b == 0 || k.phase >= DONE || k.cursor >= Extent(g, k.phase) then k else Work(o, g, Settle(g, Unit(o, g, k)), b - 1)
  }

  /** What one call with budget b does. */
  function Step(o: Ops, g: Mesh, k: K, b: nat): (r: K)
    requires MeshOk(g) && KOk(g, k)
    ensures KOk(g, r)
  {
    if b == 0 then k else Work(o, g, Settle(g, k), b)
  }

  /** Units still to do. */
  function Remaining(g: Mesh, k: K): nat {
    var left := if k.cursor <= Extent(g, k.phase) then Extent(g, k.phase) - k.cursor else 0;
    if k.phase == ZERO then left + g.ntris + g.nverts
    else if k.phase == ACCUM then left + g.nverts
    else if k.phase == NORM then left
    else 0
  }

  predicate Settled(g: Mesh, k: K) { k.phase < DONE ==> k.cursor < Extent(g, k.phase) }

  // ---------- Slicing ----------

  lemma SettleSettled(g: Mesh, k: K)
    requires KOk(g, k) && Settled(g, k)
    ensures Settle(g, k) == k
  {}

  lemma {:induction false} SettleRemaining(g: Mesh, k: K)
    requires KOk(g, k)
    ensures Remaining(g, Settle(g, k)) == Remaining(g, k)
    decreases DONE - k.phase
  {
    if k.phase < DONE && k.cursor == Extent(g, k.phase) { SettleRemaining(g, k.(phase := k.phase + 1, cursor := 0)); }
  }

  lemma {:induction false} WorkSettled(o: Ops, g: Mesh, k: K, b: nat)
    requires MeshOk(g) && KOk(g, k) && Settled(g, k)
    ensures Settled(g, Work(o, g, k, b))
    ensures Remaining(g, Work(o, g, k, b)) == if b < Remaining(g, k) then Remaining(g, k) - b else 0
    decreases b
  {
    hide Unit, Settle;
    if b > 0 && k.phase < DONE {
      var k1 := Unit(o, g, k);
      SettleRemaining(g, k1);
      WorkSettled(o, g, Settle(g, k1), b - 1);
    }
  }

  lemma {:induction false} WorkTwice(o: Ops, g: Mesh, k: K, a: nat, b: nat)
    requires MeshOk(g) && KOk(g, k) && Settled(g, k)
    ensures Work(o, g, Work(o, g, k, a), b) == Work(o, g, k, a + b)
    decreases a
  {
    hide Unit, Settle;
    if a > 0 && k.phase < DONE { WorkTwice(o, g, Settle(g, Unit(o, g, k)), a - 1, b); }
  }

  /** Two calls with budgets a and b leave what one call with a + b leaves. */
  lemma StepTwice(o: Ops, g: Mesh, k: K, a: nat, b: nat)
    requires MeshOk(g) && KOk(g, k)
    ensures Step(o, g, Step(o, g, k, a), b) == Step(o, g, k, a + b)
  {
    hide Settle, Work;
    if a > 0 {
      var k0 := Settle(g, k);
      WorkSettled(o, g, k0, a);
      WorkTwice(o, g, k0, a, b);
      SettleSettled(g, Work(o, g, k0, a));
      if b == 0 { assert a + b == a; }
    }
  }

  function Sum(bs: seq<nat>): nat { if bs == [] then 0 else bs[0] + Sum(bs[1..]) }

  /** A schedule of calls. */
  function Steps(o: Ops, g: Mesh, k: K, bs: seq<nat>): (r: K)
    requires MeshOk(g) && KOk(g, k)
    ensures KOk(g, r)
    decreases |bs|
  {
    if bs == [] then k else Steps(o, g, Step(o, g, k, bs[0]), bs[1..])
  }

  /** Only the total of the budgets matters. */
  lemma {:induction false} Schedules(o: Ops, g: Mesh, k: K, bs: seq<nat>)
    requires MeshOk(g) && KOk(g, k)
    ensures Steps(o, g, k, bs) == Step(o, g, k, Sum(bs))
    decreases |bs|
  {
    hide Step;
    if bs == [] {
      StepNone(o, g, k);
    } else {
      Schedules(o, g, Step(o, g, k, bs[0]), bs[1..]);
      StepTwice(o, g, k, bs[0], Sum(bs[1..]));
    }
  }

  lemma StepNone(o: Ops, g: Mesh, k: K)
    requires MeshOk(g) && KOk(g, k)
    ensures Step(o, g, k, 0) == k
  {}

  /** From the start, any schedule of at least 2 * nverts + ntris units finishes, with the normals and
      the last vector of a single call. */
  lemma AnyScheduleFinishes(o: Ops, g: Mesh, k: K, bs: seq<nat>)
    requires MeshOk(g) && KOk(g, k) && k.phase == ZERO && k.cursor == 0 && g.nverts > 0
    requires Sum(bs) >= 2 * g.nverts + g.ntris
    ensures Steps(o, g, k, bs) == Step(o, g, k, 2 * g.nverts + g.ntris)
    ensures Steps(o, g, k, bs).phase == DONE
  {
    hide Step, Work;
    var all := 2 * g.nverts + g.ntris;
    Schedules(o, g, k, bs);
    StepTwice(o, g, k, all, Sum(bs) - all);
    Finished(o, g, k, all);
    DoneStays(o, g, Step(o, g, k, all), Sum(bs) - all);
  }

  lemma Finished(o: Ops, g: Mesh, k: K, b: nat)
    requires MeshOk(g) && KOk(g, k) && b >= Remaining(g, k) && b > 0
    ensures Step(o, g, k, b).phase == DONE
  {
    hide Work;
    SettleRemaining(g, k);
    WorkSettled(o, g, Settle(g, k), b);
  }

  lemma DoneStays(o: Ops, g: Mesh, k: K, b: nat)
    requires MeshOk(g) && KOk(g, k) && k.phase == DONE
    ensures Step(o, g, k, b) == k
  {}
}
