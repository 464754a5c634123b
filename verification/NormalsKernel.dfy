/** The kernel on its buffers: normals, the eight state words and the last vector, written in place. */
module NormalsKernel {
  import opened NormalsSpec

  const ACCEPTED: nat := 1
  const NORM_ONLY: nat := 2

  class Kernel {
    const o: Ops
    const g: Mesh
    const nor: array<F>
    const last: array<D>
    var phase: nat
    var cursor: nat
    var flags: nat
    var used: nat      // units done by the last call
    var lastOk: bool

    ghost predicate Shaped()
      reads this, nor, last
    {
      MeshOk(g) && last.Length == 3 && nor.Length == |g.pos|
    }

    ghost predicate Valid()
      reads this, nor, last
    {
      Shaped() && KOk(g, State())
    }

    ghost function State(): K
      reads this, nor, last
    {
      K(phase, cursor, nor[..], last[..], lastOk)
    }

    /** Begins on buffers of matching sizes: with the whole computation, or with normalisation only. */
    constructor Begin(o: Ops, g: Mesh, nor: array<F>, last: array<D>, normOnly: bool)
      requires MeshOk(g) && nor.Length == |g.pos| && last.Length == 3
      ensures Valid() && this.o == o && this.g == g && this.nor == nor && this.last == last
      ensures State() == K(if normOnly then NORM else ZERO, 0, nor[..], last[..], false) && flags % 2 == 1
    {
      this.o, this.g, this.nor, this.last, this.lastOk := o, g, nor, last, false;
      phase, cursor, used := if normOnly then NORM else ZERO, 0, 0;
      flags := if normOnly then NORM_ONLY + ACCEPTED else ACCEPTED;
    }

    method AccumulateOne(t: nat)
      requires MeshOk(g) && nor.Length == |g.pos| && t < g.ntris
      modifies nor
      ensures nor[..] == Accumulate(o, g, old(nor[..]), t)
    {
      hide Cross, SetTriple, Plus;
      var a, b, c := g.idx[3 * t], g.idx[3 * t + 1], g.idx[3 * t + 2];
      var x, y, z := Cross(o, g.pos, a, b, c, 0), Cross(o, g.pos, a, b, c, 1), Cross(o, g.pos, a, b, c, 2);
      var a0, a1, a2 := PlusAt(3 * a, x), PlusAt(3 * a + 1, y), PlusAt(3 * a + 2, z);
      var b0, b1, b2 := PlusAt(3 * b, x), PlusAt(3 * b + 1, y), PlusAt(3 * b + 2, z);
      var c0, c1, c2 := PlusAt(3 * c, x), PlusAt(3 * c + 1, y), PlusAt(3 * c + 2, z);
      Store(a, a0, a1, a2);
      Store(b, b0, b1, b2);
      Store(c, c0, c1, c2);
    }

    function PlusAt(at: nat, d: D): (r: F)
      requires at < nor.Length
      reads nor
      ensures r == Plus(o, nor[..], at, d)
    {
      o.narrow(o.add(o.widen(nor[at]), d))
    }

    method Store(v: nat, x: F, y: F, z: F)
      requires 3 * v + 2 < nor.Length
      modifies nor
      ensures nor[..] == SetTriple(old(nor[..]), v, x, y, z)
    {
      nor[3 * v] := x;
      nor[3 * v + 1] := y;
      nor[3 * v + 2] := z;
    }

    /** Four triangles in a row. */
    method AccumulateBlock(t: nat)
      requires MeshOk(g) && nor.Length == |g.pos| && t + 4 <= g.ntris
      modifies nor
      ensures nor[..] == Accumulate(o, g, Accumulate(o, g, Accumulate(o, g, Accumulate(o, g, old(nor[..]), t), t + 1), t + 2), t + 3)
    {
      hide Accumulate;
      AccumulateOne(t);
      AccumulateOne(t + 1);
      AccumulateOne(t + 2);
      AccumulateOne(t + 3);
    }

    /** What is left to compute with a budget of b. */
    ghost function Target(b: nat): K
      requires Valid()
      reads this, nor, last
    {
      Work(o, g, Settle(g, State()), b)
    }

    /** Zeroes normals until the budget or the vertices run out. */
    method ZeroPhase(budget: nat) returns (done: nat)
      requires Valid() && phase == ZERO
      modifies this`phase, this`cursor, nor
      ensures Valid() && done <= budget && Target(budget - done) == old(Target(budget))
      ensures Remaining(g, State()) == old(Remaining(g, State())) - done
      ensures if phase == ZERO then done == budget && cursor < g.nverts else phase == ACCUM
    {
      hide Work, Settle, SetTriple;
      done := 0;
      while done < budget && cursor < g.nverts
        invariant Valid() && phase == ZERO && done <= budget && Target(budget - done) == old(Target(budget))
        invariant Remaining(g, State()) == old(Remaining(g, State())) - done
        decreases g.nverts - cursor
      {
        OneUnit(o, g, State(), budget - done);
        Store(cursor, o.zero, o.zero, o.zero);
        cursor := cursor + 1;
        done := done + 1;
      }
      if cursor == g.nverts {
        NextPhase(g, State());
        phase, cursor := ACCUM, 0;
      }
    }

    /** Accumulates triangles, four at a time where that many are left and paid for. */
    method AccumulatePhase(budget: nat) returns (done: nat)
      requires Valid() && phase == ACCUM
      modifies this`phase, this`cursor, nor
      ensures Valid() && done <= budget && Target(budget - done) == old(Target(budget))
      ensures Remaining(g, State()) == old(Remaining(g, State())) - done
      ensures if phase == ACCUM then done == budget && cursor < g.ntris else phase == NORM
    {
      hide Work, Settle, Accumulate;
      done := 0;
      while done < budget && cursor < g.ntris
        invariant Valid() && phase == ACCUM && done <= budget && Target(budget - done) == old(Target(budget))
        invariant Remaining(g, State()) == old(Remaining(g, State())) - done
        decreases g.ntris - cursor
      {
        if g.ntris - cursor >= 4 && budget - done >= 4 {
          FourUnits(o, g, State(), budget - done);
          AccumulateBlock(cursor);
          cursor := cursor + 4;
          done := done + 4;
        } else {
          OneUnit(o, g, State(), budget - done);
          AccumulateOne(cursor);
          cursor := cursor + 1;
          done := done + 1;
        }
      }
      if cursor == g.ntris {
        NextPhase(g, State());
        phase, cursor := NORM, 0;
      }
    }

    /** Normalises n vertices from the cursor on, keeping the last vector in double precision. */
    method NormalizeRange(n: nat, ghost budget: nat)
      requires Valid() && phase == NORM && cursor + n <= g.nverts && n <= budget
      modifies this`phase, this`cursor, this`lastOk, nor, last
      ensures Valid() && phase == NORM && cursor == old(cursor) + n
      ensures Target(budget - n) == old(Target(budget))
    {
      hide Work, Settle, StoreScaled, Scaled, SetTriple;
      for i := 0 to n
        invariant Valid() && phase == NORM && cursor == old(cursor) + i && Target(budget - i) == old(Target(budget))
      {
        OneUnit(o, g, State(), budget - i);
        NormalizeAt(cursor);
        cursor := cursor + 1;
      }
    }

    method NormalizeAt(v: nat)
      requires 3 * v + 2 < nor.Length && last.Length == 3
      modifies this`lastOk, nor, last
      ensures lastOk && nor[..] == StoreScaled(o, old(nor[..]), v) && last[..] == Scaled(o, old(nor[..]), v)
    {
      var x, y, z := o.widen(nor[3 * v]), o.widen(nor[3 * v + 1]), o.widen(nor[3 * v + 2]);
      var len := o.sqrt(o.add(o.add(o.mul(x, x), o.mul(y, y)), o.mul(z, z)));
      var inv := if o.isZero(len) then o.one else o.div(o.one, len);
      last[0] := o.mul(x, inv);
      last[1] := o.mul(y, inv);
      last[2] := o.mul(z, inv);
      Store(v, o.narrow(last[0]), o.narrow(last[1]), o.narrow(last[2]));
      lastOk := true;
    }

    method NormalizePhase(budget: nat) returns (done: nat)
      requires Valid() && phase == NORM
      modifies this`phase, this`cursor, this`lastOk, nor, last
      ensures Valid() && done <= budget && Target(budget - done) == old(Target(budget))
      ensures Remaining(g, State()) == old(Remaining(g, State())) - done
      ensures if phase == NORM then done == budget && cursor < g.nverts else phase == DONE
    {
      hide Work, Settle;
      done := 0;
      while done < budget && cursor < g.nverts
        invariant Valid() && phase == NORM && done <= budget && Target(budget - done) == old(Target(budget))
        invariant Remaining(g, State()) == old(Remaining(g, State())) - done
        decreases g.nverts - cursor
      {
        var n := budget - done;
        if n > g.nverts - cursor { n := g.nverts - cursor; }
        NormalizeRange(n, budget - done);
        done := done + n;
      }
      if cursor == g.nverts {
        NextPhase(g, State());
        phase, cursor := DONE, 0;
      }
    }

    /** One call: up to `budget` units of work, across the phases.  A state that Begin did not accept, or
        whose cursor is past its phase, is refused and left alone. */
    method Step(budget: nat) returns (ok: bool)
      requires Shaped()
      modifies this, nor, last
      ensures ok <==> old(flags) % 2 == 1 && old(phase) <= DONE && (budget > 0 ==> KOk(g, old(State())))
      ensures flags == old(flags) && Shaped()
      ensures !ok || budget == 0 ==> State() == old(State())
      ensures ok && budget > 0 ==> Valid() && State() == NormalsSpec.Step(o, g, old(State()), budget)
      ensures ok ==> used == if budget == 0 then 0
                             else if budget < old(Remaining(g, State())) then budget else old(Remaining(g, State()))
    {
      hide Work, Settle;
      if flags % 2 == 0 || phase > DONE { return false; }
      if budget == 0 {
        used := 0;
        return true;
      }
      if (phase == ZERO || phase == NORM) && cursor > g.nverts { return false; }
      if phase == ACCUM && cursor > g.ntris { return false; }
      Advance(budget);
      ok := true;
    }

    method Advance(budget: nat)
      requires Valid() && budget > 0
      modifies this`phase, this`cursor, this`used, this`lastOk, nor, last
      ensures Valid() && State() == NormalsSpec.Step(o, g, old(State()), budget)
      ensures used == if budget < old(Remaining(g, State())) then budget else old(Remaining(g, State()))
    {
      hide Work, Settle, Remaining, MeshOk;
      var done := 0;
      if phase == ZERO { done := ZeroPhase(budget); }
      if phase == ACCUM {
        var n := AccumulatePhase(budget - done);
        done := done + n;
      }
      if phase == NORM {
        var n := NormalizePhase(budget - done);
        done := done + n;
      }
      Landed(o, g, State(), budget - done);
      used := done;
    }
  }

  /** One unit of a phase in progress. */
  lemma OneUnit(o: Ops, g: Mesh, k: K, b: nat)
    requires MeshOk(g) && KOk(g, k) && k.phase < DONE && k.cursor < Extent(g, k.phase) && b > 0
    ensures Work(o, g, Settle(g, Unit(o, g, k)), b - 1) == Work(o, g, Settle(g, k), b)
  {
    hide Unit;
    SettleSettled(g, k);
  }

  lemma FourUnits(o: Ops, g: Mesh, k: K, b: nat)
    requires MeshOk(g) && KOk(g, k) && k.phase == ACCUM && k.cursor + 4 <= g.ntris && b >= 4
    ensures
      var n := Accumulate(o, g, Accumulate(o, g, Accumulate(o, g, Accumulate(o, g, k.nor, k.cursor), k.cursor + 1), k.cursor + 2), k.cursor + 3);
      var k4 := k.(nor := n, cursor := k.cursor + 4);
      KOk(g, k4) && Work(o, g, Settle(g, k4), b - 4) == Work(o, g, Settle(g, k), b)
  {
    hide Work, Settle, Accumulate;
    var k1 := Unit(o, g, k);
    var k2 := Unit(o, g, k1);
    var k3 := Unit(o, g, k2);
    OneUnit(o, g, k, b);
    OneUnit(o, g, k1, b - 1);
    OneUnit(o, g, k2, b - 2);
    OneUnit(o, g, k3, b - 3);
  }

  /** The end of a phase is the beginning of the next. */
  lemma NextPhase(g: Mesh, k: K)
    requires KOk(g, k) && k.phase < DONE && k.cursor == Extent(g, k.phase)
    ensures KOk(g, k.(phase := k.phase + 1, cursor := 0))
    ensures Settle(g, k.(phase := k.phase + 1, cursor := 0)) == Settle(g, k)
    ensures Remaining(g, k.(phase := k.phase + 1, cursor := 0)) == Remaining(g, k)
  {}

  /** Nothing is left of the budget or of the work. */
  lemma Landed(o: Ops, g: Mesh, k: K, b: nat)
    requires MeshOk(g) && KOk(g, k) && Settled(g, k) && (b == 0 || k.phase == DONE)
    ensures Work(o, g, Settle(g, k), b) == k && (b == 0 || Remaining(g, k) == 0)
  {
    SettleSettled(g, k);
  }
}
