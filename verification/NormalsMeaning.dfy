/**
 What the kernel computes where its arithmetic is exact: each vertex normal is the sum of the right-handed
 cross products of the triangles around the vertex, scaled to unit length.
 */
module NormalsMeaning {
  import opened NormalsSpec

  /** The numbers of a computation without rounding. */
  ghost predicate Exact(o: Ops, f: F -> real, d: D -> real) {
    && Carried(o, f, d) && Added(o, d) && Multiplied(o, d) && Divided(o, d) && Rooted(o, d)
    && f(o.zero) == 0.0 && d(o.one) == 1.0
  }

  ghost predicate Carried(o: Ops, f: F -> real, d: D -> real) {
    && (forall x {:trigger o.widen(x)} :: d(o.widen(x)) == f(x))
    && (forall x {:trigger o.narrow(x)} :: f(o.narrow(x)) == d(x))
    && (forall x {:trigger o.isZero(x)} :: o.isZero(x) <==> d(x) == 0.0)
  }

  ghost predicate Added(o: Ops, d: D -> real) {
    && (forall x, y {:trigger o.add(x, y)} :: d(o.add(x, y)) == d(x) + d(y))
    && (forall x, y {:trigger o.sub(x, y)} :: d(o.sub(x, y)) == d(x) - d(y))
  }

  ghost predicate Multiplied(o: Ops, d: D -> real) {
    forall x, y {:trigger o.mul(x, y)} :: d(o.mul(x, y)) == d(x) * d(y)
  }

  ghost predicate Divided(o: Ops, d: D -> real) {
    forall x, y {:trigger o.div(x, y)} :: d(y) != 0.0 ==> d(o.div(x, y)) * d(y) == d(x)
  }

  ghost predicate Rooted(o: Ops, d: D -> real) {
    forall x {:trigger o.sqrt(x)} :: d(x) >= 0.0 ==> d(o.sqrt(x)) >= 0.0 && d(o.sqrt(x)) * d(o.sqrt(x)) == d(x)
  }

  /** Coordinate i of vertex v. */
  function At(g: Mesh, f: F -> real, v: nat, i: nat): real
    requires i < 3 && 3 * v + 2 < |g.pos|
  {
    f(g.pos[3 * v + i])
  }

  /** Coordinate i of the right-handed product of the edges from a to b and from a to c. */
  function Facing(g: Mesh, f: F -> real, a: nat, b: nat, c: nat, i: nat): real
    requires i < 3 && 3 * a + 2 < |g.pos| && 3 * b + 2 < |g.pos| && 3 * c + 2 < |g.pos|
  {
    if i == 0 then
      (At(g, f, b, 1) - At(g, f, a, 1)) * (At(g, f, c, 2) - At(g, f, a, 2)) - (At(g, f, b, 2) - At(g, f, a, 2)) * (At(g, f, c, 1) - At(g, f, a, 1))
    else if i == 1 then
      (At(g, f, b, 2) - At(g, f, a, 2)) * (At(g, f, c, 0) - At(g, f, a, 0)) - (At(g, f, b, 0) - At(g, f, a, 0)) * (At(g, f, c, 2) - At(g, f, a, 2))
    else
      (At(g, f, b, 0) - At(g, f, a, 0)) * (At(g, f, c, 1) - At(g, f, a, 1)) - (At(g, f, b, 1) - At(g, f, a, 1)) * (At(g, f, c, 0) - At(g, f, a, 0))
  }

  /** The sum over the first n triangles that have v for a corner. */
  function Around(g: Mesh, f: F -> real, v: nat, i: nat, n: nat): real
    requires MeshOk(g) && i < 3 && n <= g.ntris
  {
    if n == 0 then 0.0
    else
      var (a, b, c) := (g.idx[3 * n - 3], g.idx[3 * n - 2], g.idx[3 * n - 1]);
      Around(g, f, v, i, n - 1) + if v == a || v == b || v == c then Facing(g, f, a, b, c, i) else 0.0
  }

  // ---------- One triangle ----------

  lemma Product(y1: real, z1: real, y2: real, z2: real, y3: real, z3: real)
    ensures (y3 - y2) * (z1 - z2) - (z3 - z2) * (y1 - y2) == (y2 - y1) * (z3 - z1) - (z2 - z1) * (y3 - y1)
  {
    assert (y3 - y2) * (z1 - z2) == y3 * z1 - y3 * z2 - y2 * z1 + y2 * z2;
    assert (z3 - z2) * (y1 - y2) == z3 * y1 - z3 * y2 - z2 * y1 + z2 * y2;
    assert (y2 - y1) * (z3 - z1) == y2 * z3 - y2 * z1 - y1 * z3 + y1 * z1;
    assert (z2 - z1) * (y3 - y1) == z2 * y3 - z2 * y1 - z1 * y3 + z1 * y1;
  }

  lemma EdgeIs(o: Ops, f: F -> real, d: D -> real, g: Mesh, a: nat, b: nat, i: nat)
    requires Exact(o, f, d) && i < 3 && 3 * a + 2 < |g.pos| && 3 * b + 2 < |g.pos|
    ensures d(Edge(o, g.pos, a, b, i)) == At(g, f, a, i) - At(g, f, b, i)
  {
    hide Multiplied, Divided, Rooted;
  }

  lemma MulSub(o: Ops, f: F -> real, d: D -> real, w: D, x: D, y: D, z: D, wr: real, xr: real, yr: real, zr: real)
    requires Exact(o, f, d) && d(w) == wr && d(x) == xr && d(y) == yr && d(z) == zr
    ensures d(o.sub(o.mul(w, x), o.mul(y, z))) == wr * xr - yr * zr
  {
    hide Multiplied, Divided, Rooted, Carried;
    MulIs(o, f, d, w, x);
    MulIs(o, f, d, y, z);
  }

  lemma MulIs(o: Ops, f: F -> real, d: D -> real, x: D, y: D)
    requires Exact(o, f, d)
    ensures d(o.mul(x, y)) == d(x) * d(y)
  {
    hide Added, Divided, Rooted, Carried;
  }

  /** The cross product taken at the middle corner is the one taken at the first. */
  lemma CrossIs(o: Ops, f: F -> real, d: D -> real, g: Mesh, a: nat, b: nat, c: nat, i: nat)
    requires Exact(o, f, d) && i < 3 && 3 * a + 2 < |g.pos| && 3 * b + 2 < |g.pos| && 3 * c + 2 < |g.pos|
    ensures d(Cross(o, g.pos, a, b, c, i)) == Facing(g, f, a, b, c, i)
  {
    hide Exact, Edge, At, Facing;
    var (j, k) := ((i + 1) % 3, (i + 2) % 3);
    EdgeIs(o, f, d, g, c, b, j);
    EdgeIs(o, f, d, g, a, b, k);
    EdgeIs(o, f, d, g, c, b, k);
    EdgeIs(o, f, d, g, a, b, j);
    MulSub(o, f, d, Edge(o, g.pos, c, b, j), Edge(o, g.pos, a, b, k), Edge(o, g.pos, c, b, k), Edge(o, g.pos, a, b, j),
           At(g, f, c, j) - At(g, f, b, j), At(g, f, a, k) - At(g, f, b, k), At(g, f, c, k) - At(g, f, b, k), At(g, f, a, j) - At(g, f, b, j));
    Product(At(g, f, a, j), At(g, f, a, k), At(g, f, b, j), At(g, f, b, k), At(g, f, c, j), At(g, f, c, k));
    FacingIs(g, f, a, b, c, i);
  }

  lemma FacingIs(g: Mesh, f: F -> real, a: nat, b: nat, c: nat, i: nat)
    requires i < 3 && 3 * a + 2 < |g.pos| && 3 * b + 2 < |g.pos| && 3 * c + 2 < |g.pos|
    ensures var (j, k) := ((i + 1) % 3, (i + 2) % 3);
      Facing(g, f, a, b, c, i) ==
      (At(g, f, b, j) - At(g, f, a, j)) * (At(g, f, c, k) - At(g, f, a, k)) - (At(g, f, b, k) - At(g, f, a, k)) * (At(g, f, c, j) - At(g, f, a, j))
  {}

  // ---------- One triangle, and all of them ----------

  /** The normals stored stand for these sums. */
  ghost predicate Sums(g: Mesh, f: F -> real, nor: seq<F>, n: nat, from: nat)
    requires MeshOk(g) && |nor| == |g.pos| && n <= g.ntris
  {
    forall v: nat, i: nat :: from <= v < g.nverts && i < 3 ==> SumAt(g, f, nor, n, v, i)
  }

  predicate SumAt(g: Mesh, f: F -> real, nor: seq<F>, n: nat, v: nat, i: nat)
    requires MeshOk(g) && |nor| == |g.pos| && n <= g.ntris && v < g.nverts && i < 3
  {
    f(nor[3 * v + i]) == Around(g, f, v, i, n)
  }

  lemma PlusIs(o: Ops, f: F -> real, d: D -> real, nor: seq<F>, at: nat, x: D)
    requires Exact(o, f, d) && at < |nor|
    ensures f(Plus(o, nor, at, x)) == f(nor[at]) + d(x)
  {
    hide Multiplied, Divided, Rooted;
  }

  lemma SetTripleIs(nor: seq<F>, v: nat, x: F, y: F, z: F, w: nat, i: nat)
    requires 3 * v + 2 < |nor| && 3 * w + 2 < |nor| && i < 3
    ensures SetTriple(nor, v, x, y, z)[3 * w + i] == if w != v then nor[3 * w + i] else if i == 0 then x else if i == 1 then y else z
  {}

  lemma AddedAt(o: Ops, f: F -> real, d: D -> real, g: Mesh, nor: seq<F>, a: nat, b: nat, c: nat, v: nat, i: nat)
    requires Exact(o, f, d) && |g.pos| == |nor| && i < 3
    requires 3 * a + 2 < |nor| && 3 * b + 2 < |nor| && 3 * c + 2 < |nor| && 3 * v + 2 < |nor|
    ensures f(AccumulateTriangle(o, g.pos, nor, a, b, c)[3 * v + i]) ==
      f(nor[3 * v + i]) + if v == a || v == b || v == c then Facing(g, f, a, b, c, i) else 0.0
  {
    hide Exact, Cross, Facing, Plus, SetTriple;
    var (x, y, z) := (Cross(o, g.pos, a, b, c, 0), Cross(o, g.pos, a, b, c, 1), Cross(o, g.pos, a, b, c, 2));
    CrossIs(o, f, d, g, a, b, c, i);
    PlusIs(o, f, d, nor, 3 * v + i, Cross(o, g.pos, a, b, c, i));
    var (a0, a1, a2) := (Plus(o, nor, 3 * a, x), Plus(o, nor, 3 * a + 1, y), Plus(o, nor, 3 * a + 2, z));
    var n1 := SetTriple(nor, a, a0, a1, a2);
    var (b0, b1, b2) := (Plus(o, nor, 3 * b, x), Plus(o, nor, 3 * b + 1, y), Plus(o, nor, 3 * b + 2, z));
    var n2 := SetTriple(n1, b, b0, b1, b2);
    SetTripleIs(nor, a, a0, a1, a2, v, i);
    SetTripleIs(n1, b, b0, b1, b2, v, i);
    SetTripleIs(n2, c, Plus(o, nor, 3 * c, x), Plus(o, nor, 3 * c + 1, y), Plus(o, nor, 3 * c + 2, z), v, i);
  }

  /** One more triangle makes the sums go one further. */
  lemma TriangleAdds(o: Ops, f: F -> real, d: D -> real, g: Mesh, nor: seq<F>, t: nat)
    requires Exact(o, f, d) && MeshOk(g) && |nor| == |g.pos| && t < g.ntris && Sums(g, f, nor, t, 0)
    ensures Sums(g, f, Accumulate(o, g, nor, t), t + 1, 0)
  {
    hide Exact, Facing, AccumulateTriangle;
    var (nor1, n) := (Accumulate(o, g, nor, t), t + 1);
    forall v: nat, i: nat | v < g.nverts && i < 3 ensures SumAt(g, f, nor1, n, v, i) {
      assert SumAt(g, f, nor, t, v, i);
      Corners(g, t);
      AddedAt(o, f, d, g, nor, g.idx[3 * t], g.idx[3 * t + 1], g.idx[3 * t + 2], v, i);
    }
  }

  lemma Corners(g: Mesh, t: nat)
    requires MeshOk(g) && t < g.ntris
    ensures 3 * t + 2 < |g.idx|
    ensures 3 * g.idx[3 * t] + 2 < |g.pos| && 3 * g.idx[3 * t + 1] + 2 < |g.pos| && 3 * g.idx[3 * t + 2] + 2 < |g.pos|
  {}

  // ---------- Unit length ----------

  /** The vector at v is the sum around v, scaled to unit length; a zero sum stays zero. */
  ghost predicate Normal(g: Mesh, f: F -> real, nor: seq<F>, v: nat)
    requires MeshOk(g) && |nor| == |g.pos| && v < g.nverts
  {
    var (x, y, z) := (Around(g, f, v, 0, g.ntris), Around(g, f, v, 1, g.ntris), Around(g, f, v, 2, g.ntris));
    UnitOf(x, y, z, f(nor[3 * v]), f(nor[3 * v + 1]), f(nor[3 * v + 2]))
  }

  ghost predicate UnitOf(x: real, y: real, z: real, a: real, b: real, c: real) {
    if x == 0.0 && y == 0.0 && z == 0.0 then a == 0.0 && b == 0.0 && c == 0.0
    else
      && a * a + b * b + c * c == 1.0
      && exists len: real :: ScaledBy(x, y, z, a, b, c, len)
  }

  predicate ScaledBy(x: real, y: real, z: real, a: real, b: real, c: real, len: real) {
    len > 0.0 && len * a == x && len * b == y && len * c == z
  }

  function Sq(x: real): real { x * x }

  lemma Square(x: real)
    ensures if x == 0.0 then Sq(x) == 0.0 else Sq(x) > 0.0
  {
    if x > 0.0 { Positive(x); } else if x < 0.0 { Negative(x); }
  }

  lemma Negative(x: real)
    requires x < 0.0
    ensures Sq(x) > 0.0
  {
    Positive(-x);
    Opposite(x, -x);
  }

  lemma Opposite(x: real, y: real)
    requires x + y == 0.0
    ensures Sq(x) == Sq(y)
  {
    assert (x + y) * (x - y) == x * x - y * y;
  }

  lemma Positive(x: real)
    requires x > 0.0
    ensures Sq(x) > 0.0
  {
    ProductPositive(x, x, Sq(x));
  }

  lemma ProductPositive(x: real, y: real, p: real)
    requires x > 0.0 && y > 0.0 && p == x * y
    ensures p > 0.0
  {}

  /** Scaling by the inverse of the length. */
  lemma Unit3(x: real, y: real, z: real, a: real, b: real, c: real, len: real, inv: real)
    requires len > 0.0 && len * len == x * x + y * y + z * z && inv * len == 1.0
    requires a == x * inv && b == y * inv && c == z * inv
    ensures ScaledBy(x, y, z, a, b, c, len) && a * a + b * b + c * c == 1.0
  {
    Back(x, a, len, inv);
    Back(y, b, len, inv);
    Back(z, c, len, inv);
    Both(x, a, inv);
    Both(y, b, inv);
    Both(z, c, inv);
    assert x * x * (inv * inv) + y * y * (inv * inv) + z * z * (inv * inv) == len * len * (inv * inv);
    Both(len, 1.0, inv);
  }

  /** The scaled vector, from the length and its inverse; a zero length comes with the factor one. */
  lemma UnitOfIs(x: real, y: real, z: real, a: real, b: real, c: real, len: real, inv: real)
    requires a == x * inv && b == y * inv && c == z * inv
    requires len >= 0.0 && len * len == x * x + y * y + z * z
    requires if len == 0.0 then inv == 1.0 else inv * len == 1.0
    ensures UnitOf(x, y, z, a, b, c)
  {
    Length(x, y, z, len);
    if len > 0.0 {
      Unit3(x, y, z, a, b, c, len, inv);
    } else {
      Nothing(x, inv);
      Nothing(y, inv);
      Nothing(z, inv);
    }
  }

  /** A sum of squares that is a square itself. */
  lemma Length(x: real, y: real, z: real, len: real)
    requires Sq(len) == Sq(x) + Sq(y) + Sq(z)
    ensures len == 0.0 <==> x == 0.0 && y == 0.0 && z == 0.0
  {
    hide Sq;
    Square(x);
    Square(y);
    Square(z);
    Square(len);
  }

  lemma Nothing(x: real, y: real)
    requires x == 0.0
    ensures x * y == 0.0
  {}

  lemma Back(x: real, a: real, len: real, inv: real)
    requires inv * len == 1.0 && a == x * inv
    ensures len * a == x
  {
    assert len * (x * inv) == x * (inv * len);
  }

  lemma Both(x: real, a: real, inv: real)
    requires a == x * inv
    ensures a * a == x * x * (inv * inv)
  {}

  // ---------- The phases ----------

  /** What the normals stand for at each stage of the computation. */
  ghost predicate Meaning(g: Mesh, f: F -> real, k: K)
    requires MeshOk(g) && KOk(g, k)
  {
    if k.phase == ZERO then forall v: nat, i: nat :: v < k.cursor && i < 3 ==> SumAt(g, f, k.nor, 0, v, i)
    else if k.phase == ACCUM then Sums(g, f, k.nor, k.cursor, 0)
    else
      var done := if k.phase == NORM then k.cursor else g.nverts;
      (forall v: nat :: v < done ==> Normal(g, f, k.nor, v)) && Sums(g, f, k.nor, g.ntris, done)
  }

  lemma {:induction false} SettleMeans(g: Mesh, f: F -> real, k: K)
    requires MeshOk(g) && KOk(g, k) && Meaning(g, f, k)
    ensures Meaning(g, f, Settle(g, k))
    decreases DONE - k.phase
  {
    hide Normal, SumAt;
    if k.phase < DONE && k.cursor == Extent(g, k.phase) { SettleMeans(g, f, k.(phase := k.phase + 1, cursor := 0)); }
  }

  lemma UnitMeans(o: Ops, f: F -> real, d: D -> real, g: Mesh, k: K)
    requires Exact(o, f, d) && MeshOk(g) && KOk(g, k) && k.phase < DONE && k.cursor < Extent(g, k.phase) && Meaning(g, f, k)
    ensures Meaning(g, f, Unit(o, g, k))
  {
    hide Exact, Meaning, Unit;
    if k.phase == ZERO {
      ZeroMeans(o, f, d, g, k);
    } else if k.phase == ACCUM {
      AccumMeans(o, f, d, g, k);
    } else {
      NormMeans(o, f, d, g, k);
    }
  }

  lemma AccumMeans(o: Ops, f: F -> real, d: D -> real, g: Mesh, k: K)
    requires Exact(o, f, d) && MeshOk(g) && KOk(g, k) && k.phase == ACCUM && k.cursor < g.ntris && Meaning(g, f, k)
    ensures Meaning(g, f, Unit(o, g, k))
  {
    hide Exact, Accumulate, Sums;
    TriangleAdds(o, f, d, g, k.nor, k.cursor);
  }

  lemma ZeroMeans(o: Ops, f: F -> real, d: D -> real, g: Mesh, k: K)
    requires Exact(o, f, d) && MeshOk(g) && KOk(g, k) && k.phase == ZERO && k.cursor < g.nverts && Meaning(g, f, k)
    ensures Meaning(g, f, Unit(o, g, k))
  {
    hide Carried, Added, Multiplied, Divided, Rooted, SetTriple;
    var (c, k1) := (k.cursor, Unit(o, g, k));
    forall v: nat, i: nat | v < c + 1 && i < 3 ensures SumAt(g, f, k1.nor, 0, v, i) {
      if v < c { assert SumAt(g, f, k.nor, 0, v, i); }
      SetTripleIs(k.nor, c, o.zero, o.zero, o.zero, v, i);
    }
  }

  lemma NormMeans(o: Ops, f: F -> real, d: D -> real, g: Mesh, k: K)
    requires Exact(o, f, d) && MeshOk(g) && KOk(g, k) && k.phase == NORM && k.cursor < g.nverts && Meaning(g, f, k)
    ensures Meaning(g, f, Unit(o, g, k))
  {
    hide Exact, SetTriple, Scaled, Normal, SumAt;
    var (c, k1) := (k.cursor, Unit(o, g, k));
    forall v: nat | v < c ensures Normal(g, f, k1.nor, v) {
      assert Normal(g, f, k.nor, v);
      SameNormal(o, g, f, k.nor, c, v);
    }
    assert SumAt(g, f, k.nor, g.ntris, c, 0) && SumAt(g, f, k.nor, g.ntris, c, 1) && SumAt(g, f, k.nor, g.ntris, c, 2);
    ScaledNormal(o, f, d, g, k.nor, c);
    forall v: nat, i: nat | c + 1 <= v < g.nverts && i < 3 ensures SumAt(g, f, k1.nor, g.ntris, v, i) {
      assert SumAt(g, f, k.nor, g.ntris, v, i);
      SameSum(o, g, f, k.nor, c, v, i);
    }
  }

  lemma SameNormal(o: Ops, g: Mesh, f: F -> real, nor: seq<F>, c: nat, v: nat)
    requires MeshOk(g) && |nor| == |g.pos| && c < g.nverts && v < g.nverts && v != c
    ensures Normal(g, f, StoreScaled(o, nor, c), v) <==> Normal(g, f, nor, v)
  {
    hide Scaled, SetTriple, UnitOf;
    var s := Scaled(o, nor, c);
    SetTripleIs(nor, c, o.narrow(s[0]), o.narrow(s[1]), o.narrow(s[2]), v, 0);
    SetTripleIs(nor, c, o.narrow(s[0]), o.narrow(s[1]), o.narrow(s[2]), v, 1);
    SetTripleIs(nor, c, o.narrow(s[0]), o.narrow(s[1]), o.narrow(s[2]), v, 2);
  }

  lemma SameSum(o: Ops, g: Mesh, f: F -> real, nor: seq<F>, c: nat, v: nat, i: nat)
    requires MeshOk(g) && |nor| == |g.pos| && c < g.nverts && v < g.nverts && v != c && i < 3
    ensures SumAt(g, f, StoreScaled(o, nor, c), g.ntris, v, i) <==> SumAt(g, f, nor, g.ntris, v, i)
  {
    hide Scaled, SetTriple;
    var s := Scaled(o, nor, c);
    SetTripleIs(nor, c, o.narrow(s[0]), o.narrow(s[1]), o.narrow(s[2]), v, i);
  }

  lemma ScaledNormal(o: Ops, f: F -> real, d: D -> real, g: Mesh, nor: seq<F>, c: nat)
    requires Exact(o, f, d) && MeshOk(g) && |nor| == |g.pos| && c < g.nverts
    requires SumAt(g, f, nor, g.ntris, c, 0) && SumAt(g, f, nor, g.ntris, c, 1) && SumAt(g, f, nor, g.ntris, c, 2)
    ensures Normal(g, f, StoreScaled(o, nor, c), c)
  {
    hide Exact, Scaled, SetTriple, UnitOf;
    var s := Scaled(o, nor, c);
    SetTripleIs(nor, c, o.narrow(s[0]), o.narrow(s[1]), o.narrow(s[2]), c, 0);
    SetTripleIs(nor, c, o.narrow(s[0]), o.narrow(s[1]), o.narrow(s[2]), c, 1);
    SetTripleIs(nor, c, o.narrow(s[0]), o.narrow(s[1]), o.narrow(s[2]), c, 2);
    ScaledUnit(o, f, d, nor, c);
  }

  lemma ScaledUnit(o: Ops, f: F -> real, d: D -> real, nor: seq<F>, v: nat)
    requires Exact(o, f, d) && 3 * v + 2 < |nor|
    ensures var s := Scaled(o, nor, v);
      UnitOf(f(nor[3 * v]), f(nor[3 * v + 1]), f(nor[3 * v + 2]), f(o.narrow(s[0])), f(o.narrow(s[1])), f(o.narrow(s[2])))
  {
    hide Exact, ScaledBy, Scaled, UnitOf;
    var (x, y, z) := (o.widen(nor[3 * v]), o.widen(nor[3 * v + 1]), o.widen(nor[3 * v + 2]));
    var sum := o.add(o.add(o.mul(x, x), o.mul(y, y)), o.mul(z, z));
    var (xr, yr, zr) := (f(nor[3 * v]), f(nor[3 * v + 1]), f(nor[3 * v + 2]));
    WidenIs(o, f, d, nor[3 * v]);
    WidenIs(o, f, d, nor[3 * v + 1]);
    WidenIs(o, f, d, nor[3 * v + 2]);
    SumIs(o, f, d, x, y, z, xr, yr, zr);
    assert Sq(xr) + Sq(yr) + Sq(zr) >= 0.0 by {
      Square(xr);
      Square(yr);
      Square(zr);
    }
    LengthIs(o, f, d, sum);
    var len := o.sqrt(sum);
    var inv := if o.isZero(len) then o.one else o.div(o.one, len);
    TimesIs(o, f, d, x, inv, xr);
    TimesIs(o, f, d, y, inv, yr);
    TimesIs(o, f, d, z, inv, zr);
    UnitOfIs(xr, yr, zr, f(o.narrow(o.mul(x, inv))), f(o.narrow(o.mul(y, inv))), f(o.narrow(o.mul(z, inv))), d(len), d(inv));
    ScaledParts(o, nor, v);
  }

  lemma ScaledParts(o: Ops, nor: seq<F>, v: nat)
    requires 3 * v + 2 < |nor|
    ensures var (x, y, z) := (o.widen(nor[3 * v]), o.widen(nor[3 * v + 1]), o.widen(nor[3 * v + 2]));
      var len := o.sqrt(o.add(o.add(o.mul(x, x), o.mul(y, y)), o.mul(z, z)));
      var inv := if o.isZero(len) then o.one else o.div(o.one, len);
      Scaled(o, nor, v) == [o.mul(x, inv), o.mul(y, inv), o.mul(z, inv)]
  {}

  lemma WidenIs(o: Ops, f: F -> real, d: D -> real, x: F)
    requires Exact(o, f, d)
    ensures d(o.widen(x)) == f(x)
  {
    hide Added, Multiplied, Divided, Rooted;
  }

  lemma SumIs(o: Ops, f: F -> real, d: D -> real, x: D, y: D, z: D, xr: real, yr: real, zr: real)
    requires Exact(o, f, d) && d(x) == xr && d(y) == yr && d(z) == zr
    ensures d(o.add(o.add(o.mul(x, x), o.mul(y, y)), o.mul(z, z))) == xr * xr + yr * yr + zr * zr
  {
    hide Multiplied, Divided, Rooted, Carried;
    MulIs(o, f, d, x, x);
    MulIs(o, f, d, y, y);
    MulIs(o, f, d, z, z);
  }

  lemma TimesIs(o: Ops, f: F -> real, d: D -> real, x: D, y: D, xr: real)
    requires Exact(o, f, d) && d(x) == xr
    ensures f(o.narrow(o.mul(x, y))) == xr * d(y)
  {
    hide Multiplied, Added, Divided, Rooted;
    MulIs(o, f, d, x, y);
  }

  /** The length, and its inverse. */
  lemma LengthIs(o: Ops, f: F -> real, d: D -> real, sum: D)
    requires Exact(o, f, d) && d(sum) >= 0.0
    ensures var len := o.sqrt(sum);
      && d(len) >= 0.0 && d(len) * d(len) == d(sum)
      && d(if o.isZero(len) then o.one else o.div(o.one, len)) * (if d(len) == 0.0 then 1.0 else d(len)) == 1.0
  {
    hide Added, Multiplied, Divided, Rooted;
    LengthOnly(o, f, d, sum);
    DivIs(o, f, d, o.sqrt(sum));
  }

  lemma LengthOnly(o: Ops, f: F -> real, d: D -> real, sum: D)
    requires Exact(o, f, d) && d(sum) >= 0.0
    ensures d(o.sqrt(sum)) >= 0.0 && d(o.sqrt(sum)) * d(o.sqrt(sum)) == d(sum)
  {
    hide Added, Multiplied, Divided, Carried;
  }

  lemma DivIs(o: Ops, f: F -> real, d: D -> real, len: D)
    requires Exact(o, f, d)
    ensures d(len) != 0.0 ==> d(o.div(o.one, len)) * d(len) == 1.0
  {
    hide Added, Multiplied, Rooted, Carried;
  }

  // ---------- Whole computations ----------

  lemma {:induction false} WorkMeans(o: Ops, f: F -> real, d: D -> real, g: Mesh, k: K, b: nat)
    requires Exact(o, f, d) && MeshOk(g) && KOk(g, k) && Meaning(g, f, k)
    ensures Meaning(g, f, Work(o, g, k, b))
    decreases b
  {
    hide Exact, Meaning, Unit, Settle;
    if b > 0 && k.phase < DONE && k.cursor < Extent(g, k.phase) {
      UnitMeans(o, f, d, g, k);
      SettleMeans(g, f, Unit(o, g, k));
      WorkMeans(o, f, d, g, Settle(g, Unit(o, g, k)), b - 1);
    }
  }

  /** Whatever the schedule, what a finished computation leaves at every vertex is the sum of the right-handed normals
      of the triangles around it, weighted by their areas and scaled to unit length. */
  lemma NormalsAre(o: Ops, f: F -> real, d: D -> real, g: Mesh, k: K, bs: seq<nat>, v: nat)
    requires Exact(o, f, d) && MeshOk(g) && KOk(g, k) && k.phase == ZERO && k.cursor == 0 && v < g.nverts
    requires Sum(bs) >= 2 * g.nverts + g.ntris
    ensures Normal(g, f, Steps(o, g, k, bs).nor, v)
  {
    hide Exact, Normal, Sums, Steps, Step, Work, Settle;
    AnyScheduleFinishes(o, g, k, bs);
    var all := 2 * g.nverts + g.ntris;
    StepMeans(o, f, d, g, k, all);
  }

  lemma StepMeans(o: Ops, f: F -> real, d: D -> real, g: Mesh, k: K, b: nat)
    requires Exact(o, f, d) && MeshOk(g) && KOk(g, k) && Meaning(g, f, k)
    ensures Meaning(g, f, Step(o, g, k, b))
  {
    hide Exact, Meaning, Settle, Work;
    SettleMeans(g, f, k);
    WorkMeans(o, f, d, g, Settle(g, k), b);
  }
}
