/** What a call costs: the closed form and the loop charge exactly the kernel's work. */
module NormalsQuota {
  import opened Options
  import opened NormalsSpec

  const WORD: nat := 0x1_0000_0000_0000_0000

  const ADMISSION: nat := 24
  const BINDING_GUARD: nat := 12
  const TRANSITION: nat := 4
  const ZERO_UNIT: nat := 3
  const ACCUM_ONE: nat := 211
  const ACCUM_FOUR: nat := 844
  const NORM_ONE: nat := 48
  const NORM_FOUR: nat := 192
  const LAST_STORE: nat := 4

  // ---------- What the kernel does ----------

  /** Units done in each phase, and changes of phase. */
  datatype Tally = Tally(zeroed: nat, accumulated: nat, normalised: nat, transitions: nat)

  function Changes(g: Mesh, k: K): nat
    requires KOk(g, k)
  {
    Settle(g, k).phase - k.phase
  }

  /** The work of `Work`, unit by unit. */
  function WorkTally(o: Ops, g: Mesh, k: K, b: nat): Tally
    requires MeshOk(g) && KOk(g, k)
    decreases b
  {
    if b == 0 || k.phase >= DONE || k.cursor >= Extent(g, k.phase) then Tally(0, 0, 0, 0)
    else
      var k1 := Unit(o, g, k);
      var t := WorkTally(o, g, Settle(g, k1), b - 1).(transitions := WorkTally(o, g, Settle(g, k1), b - 1).transitions + Changes(g, k1));
      if k.phase == ZERO then t.(zeroed := t.zeroed + 1)
      else if k.phase == ACCUM then t.(accumulated := t.accumulated + 1)
      else t.(normalised := t.normalised + 1)
  }

  /** The work of one call. */
  function StepTally(o: Ops, g: Mesh, k: K, b: nat): Tally
    requires MeshOk(g) && KOk(g, k)
  {
    if b == 0 then Tally(0, 0, 0, 0)
    else
      var t := WorkTally(o, g, Settle(g, k), b);
      t.(transitions := t.transitions + Changes(g, k))
  }

  /** The price of a call that does this much. */
  function Price(t: Tally): nat {
    ADMISSION + BINDING_GUARD + ZERO_UNIT * t.zeroed
    + ACCUM_FOUR * (t.accumulated / 4) + ACCUM_ONE * (t.accumulated % 4)
    + NORM_FOUR * (t.normalised / 4) + NORM_ONE * (t.normalised % 4)
    + (if t.normalised > 0 then LAST_STORE else 0) + TRANSITION * t.transitions
  }

  // ---------- The closed form ----------

  function Min(a: nat, b: nat): nat { if a < b then a else b }

  /** Units of the three phases that a budget of b covers. */
  function Zeroed(g: Mesh, k: K, b: nat): nat
    requires KOk(g, k)
  {
    if k.phase == ZERO then Min(g.nverts - k.cursor, b) else 0
  }

  function Accumulated(g: Mesh, k: K, b: nat): nat
    requires KOk(g, k)
  {
    if k.phase == ACCUM then Min(g.ntris - k.cursor, b)
    else if k.phase == ZERO && b >= g.nverts - k.cursor then Min(g.ntris, b - (g.nverts - k.cursor))
    else 0
  }

  function Normalised(g: Mesh, k: K, b: nat): nat
    requires KOk(g, k)
  {
    if k.phase == NORM then Min(g.nverts - k.cursor, b)
    else if k.phase == ACCUM && b >= g.ntris - k.cursor then Min(g.nverts, b - (g.ntris - k.cursor))
    else if k.phase == ZERO && b >= g.nverts - k.cursor + g.ntris then Min(g.nverts, b - (g.nverts - k.cursor) - g.ntris)
    else 0
  }

  /** Phases that end within b units: each whose units, and all before, are covered. */
  function Ended(g: Mesh, k: K, b: nat): nat
    requires KOk(g, k)
  {
    if k.phase == NORM then (if b >= g.nverts - k.cursor then 1 else 0)
    else if k.phase == ACCUM then
      (if b < g.ntris - k.cursor then 0 else if b < g.ntris - k.cursor + g.nverts then 1 else 2)
    else if k.phase == ZERO then
      (if b < g.nverts - k.cursor then 0
       else if b < g.nverts - k.cursor + g.ntris then 1
       else if b < g.nverts - k.cursor + g.ntris + g.nverts then 2 else 3)
    else 0
  }

  function Closed(g: Mesh, k: K, b: nat): Tally
    requires KOk(g, k)
  {
    Tally(Zeroed(g, k, b), Accumulated(g, k, b), Normalised(g, k, b), Ended(g, k, b))
  }

  lemma {:induction false} SettleClosed(g: Mesh, k: K, b: nat)
    requires KOk(g, k)
    ensures var t := Closed(g, Settle(g, k), b);
            Closed(g, k, b) == t.(transitions := t.transitions + Changes(g, k))
    decreases DONE - k.phase
  {
    if k.phase < DONE && k.cursor == Extent(g, k.phase) { SettleClosed(g, k.(phase := k.phase + 1, cursor := 0), b); }
  }

  lemma UnitClosed(o: Ops, g: Mesh, k: K, b: nat)
    requires MeshOk(g) && KOk(g, k) && k.phase < DONE && k.cursor < Extent(g, k.phase) && b > 0
    ensures var t := Closed(g, Unit(o, g, k), b - 1);
      Closed(g, k, b) == if k.phase == ZERO then t.(zeroed := t.zeroed + 1)
                         else if k.phase == ACCUM then t.(accumulated := t.accumulated + 1)
                         else t.(normalised := t.normalised + 1)
  {}

  lemma {:induction false} WorkClosed(o: Ops, g: Mesh, k: K, b: nat)
    requires MeshOk(g) && KOk(g, k) && Settled(g, k)
    ensures WorkTally(o, g, k, b) == Closed(g, k, b)
    decreases b
  {
    hide Unit, Settle, Closed, Changes;
    if b > 0 && k.phase < DONE {
      var k1 := Unit(o, g, k);
      WorkClosed(o, g, Settle(g, k1), b - 1);
      SettleClosed(g, k1, b - 1);
      UnitClosed(o, g, k, b);
    } else {
      NothingClosed(g, k, b);
    }
  }

  lemma NothingClosed(g: Mesh, k: K, b: nat)
    requires KOk(g, k) && Settled(g, k) && (b == 0 || k.phase == DONE)
    ensures Closed(g, k, b) == Tally(0, 0, 0, 0)
  {}

  /** The closed form counts exactly the units and transitions a call performs. */
  lemma StepClosed(o: Ops, g: Mesh, k: K, b: nat)
    requires MeshOk(g) && KOk(g, k) && b > 0
    ensures StepTally(o, g, k, b) == Closed(g, k, b)
  {
    hide Settle, Closed;
    WorkClosed(o, g, Settle(g, k), b);
    SettleClosed(g, k, b);
  }

  /** Four at a time costs what one at a time does. */
  lemma Grouping(n: nat)
    ensures ACCUM_FOUR * (n / 4) + ACCUM_ONE * (n % 4) == ACCUM_ONE * n
    ensures NORM_FOUR * (n / 4) + NORM_ONE * (n % 4) == NORM_ONE * n
  {
    assert n == 4 * (n / 4) + n % 4;
  }

  // ---------- Checked arithmetic ----------

  function Checked(n: nat): Option<nat> { if n < WORD then Some(n) else None }

  method AddU(a: nat, b: nat) returns (r: Option<nat>)
    requires a < WORD && b < WORD
    ensures r == Checked(a + b)
  {
    if a > WORD - 1 - b { return None; }
    return Some(a + b);
  }

  function Times(a: nat, b: nat): nat { a * b }

  method MulU(a: nat, b: nat) returns (r: Option<nat>)
    requires a < WORD && b < WORD
    ensures r == Checked(Times(a, b))
  {
    if a != 0 {
      Quotient(a, b);
      if b > (WORD - 1) / a { return None; }
    }
    return Some(a * b);
  }

  lemma Quotient(a: nat, b: nat)
    requires a > 0
    ensures b > (WORD - 1) / a <==> Times(a, b) >= WORD
  {
    hide Times;
    var q, r := (WORD - 1) / a, (WORD - 1) % a;
    Division(a, q, r);
    if b > q { Grows(a, q + 1, b); } else { Grows(a, b, q); }
  }

  lemma Division(a: nat, q: nat, r: nat)
    requires a > 0 && q == (WORD - 1) / a && r == (WORD - 1) % a
    ensures r < a && Times(a, q) + r == WORD - 1 && Times(a, q + 1) == Times(a, q) + a
  {}

  lemma Grows(a: nat, x: nat, y: nat)
    requires x <= y
    ensures Times(a, x) <= Times(a, y)
  {
    assert a * y == a * x + a * (y - x);
  }

  method SubU(a: nat, b: nat) returns (r: Option<nat>)
    ensures r == if b > a then None else Some(a - b)
  {
    if b > a { return None; }
    return Some(a - b);
  }

  /** Adds a charge for n units, in blocks of four and single ones. */
  method ChargeGrouped(cost: nat, n: nat, four: nat, one: nat) returns (r: Option<nat>)
    requires cost < WORD && n < WORD && one < WORD && four == 4 * one < WORD
    ensures r == Checked(cost + Times(one, n))
  {
    hide Times;
    var n4, tail := n / 4, n % 4;
    r := Some(cost);
    InFours(one, n);
    if n4 > 0 {
      var add := MulU(n4, four);
      if add.None? { return None; }
      r := AddU(cost, add.value);
      if r.None? { return None; }
    }
    if tail > 0 {
      var add := MulU(tail, one);
      if add.None? { return None; }
      r := AddU(r.value, add.value);
    }
  }

  lemma InFours(one: nat, n: nat)
    ensures Times(one, n) == Times(n / 4, 4 * one) + Times(n % 4, one)
    ensures n / 4 == 0 ==> Times(n / 4, 4 * one) == 0
    ensures n % 4 == 0 ==> Times(n % 4, one) == 0
  {
    assert n == 4 * (n / 4) + n % 4;
    Distributes(one, n / 4, n % 4);
  }

  lemma Distributes(one: nat, a: nat, b: nat)
    ensures one * (4 * a + b) == a * (4 * one) + b * one
  {}

  // ---------- The closed form as it is computed ----------

  /** The price of the work of a call, if its cursor is inside its phase and the price fits a word. */
  ghost function Quota(g: Mesh, k: K, b: nat): Option<nat> {
    if b == 0 then Some(ADMISSION + BINDING_GUARD)
    else if !KOk(g, k) then None
    else Checked(Price(Closed(g, k, b)))
  }

  lemma PriceShort(t: Tally)
    ensures Price(t) == ADMISSION + BINDING_GUARD + ZERO_UNIT * t.zeroed + ACCUM_ONE * t.accumulated
                        + NORM_ONE * t.normalised + (if t.normalised > 0 then LAST_STORE else 0) + TRANSITION * t.transitions
  {
    Grouping(t.accumulated);
    Grouping(t.normalised);
  }

  /** Cost and units used so far, and where the phases have got to. */
  datatype Progress = Progress(cost: nat, used: nat, phase: nat, cursor: nat)

  /** What is still to be charged with `left` units of budget. */
  function NormDue(g: Mesh, cursor: nat, left: nat): nat
    requires cursor <= g.nverts
  {
    var n := Min(g.nverts - cursor, left);
    NORM_ONE * n + (if n > 0 then LAST_STORE else 0) + if cursor + n == g.nverts then TRANSITION else 0
  }

  function AccumDue(g: Mesh, cursor: nat, left: nat): nat
    requires cursor <= g.ntris
  {
    var n := Min(g.ntris - cursor, left);
    ACCUM_ONE * n + if cursor + n == g.ntris then TRANSITION + NormDue(g, 0, left - n) else 0
  }

  function ZeroDue(g: Mesh, cursor: nat, left: nat): nat
    requires cursor <= g.nverts
  {
    var n := Min(g.nverts - cursor, left);
    ZERO_UNIT * n + if cursor + n == g.nverts then TRANSITION + AccumDue(g, 0, left - n) else 0
  }

  predicate Inside(g: Mesh, phase: nat, cursor: nat) { phase < DONE ==> cursor <= Extent(g, phase) }

  function Due(g: Mesh, phase: nat, cursor: nat, left: nat): nat
    requires Inside(g, phase, cursor)
  {
    if phase == ZERO then ZeroDue(g, cursor, left)
    else if phase == ACCUM then AccumDue(g, cursor, left)
    else if phase == NORM then NormDue(g, cursor, left)
    else 0
  }

  lemma PriceIsDue(g: Mesh, k: K, b: nat)
    requires KOk(g, k)
    ensures Price(Closed(g, k, b)) == ADMISSION + BINDING_GUARD + Due(g, k.phase, k.cursor, b)
  {
    hide Price;
    PriceShort(Closed(g, k, b));
  }

  /** A phase's charges leave the total what it was, or show that it does not fit a word. */
  ghost predicate Charged(g: Mesh, p: Progress, r: Option<Progress>, budget: nat)
    requires p.used <= budget && Inside(g, p.phase, p.cursor)
  {
    match r
    case None => p.cost + Due(g, p.phase, p.cursor, budget - p.used) >= WORD
    case Some(q) =>
      && q.used <= budget && Inside(g, q.phase, q.cursor) && q.cost < WORD && p.phase <= q.phase
      && q.cost + Due(g, q.phase, q.cursor, budget - q.used) == p.cost + Due(g, p.phase, p.cursor, budget - p.used)
  }

  method QuotaFrom(g: Mesh, k: K, budget: nat) returns (r: Option<nat>)
    requires g.nverts < WORD && g.ntris < WORD && budget < WORD && k.cursor < WORD
    requires |k.nor| == |g.pos| && |k.last| == 3 && k.phase <= DONE
    ensures r == Quota(g, k, budget)
  {
    hide Price, Closed, Due;
    var cost := ADMISSION + BINDING_GUARD;
    if budget == 0 { return Some(cost); }
    if KOk(g, k) { PriceIsDue(g, k, budget); }
    var p := ZeroCharge(g, Progress(cost, 0, k.phase, k.cursor), budget);
    if p.None? { return None; }
    p := AccumCharge(g, p.value, budget);
    if p.None? { return None; }
    r := NormCharge(g, p.value, budget);
  }

  method ZeroCharge(g: Mesh, p: Progress, budget: nat) returns (r: Option<Progress>)
    requires g.nverts < WORD && budget < WORD && p.used <= budget && p.cost < WORD && p.phase <= DONE
    ensures p.phase != ZERO ==> r == Some(p)
    ensures !Inside(g, p.phase, p.cursor) && p.phase == ZERO ==> r.None?
    ensures Inside(g, p.phase, p.cursor) ==> Charged(g, p, r, budget)
    ensures r.Some? ==> r.value.phase <= DONE && r.value.used <= budget && r.value.cost < WORD
    ensures r.Some? && r.value.phase == ZERO ==> r.value.used == budget && r.value.cursor < g.nverts
  {
    hide AccumDue;
    if p.phase != ZERO { return Some(p); }
    var remV := SubU(g.nverts, p.cursor);
    if remV.None? { return None; }
    var remB := SubU(budget, p.used);
    var n := Min(remV.value, remB.value);
    var add := MulU(n, ZERO_UNIT);
    if add.None? { return None; }
    var c := AddU(p.cost, add.value);
    if c.None? { return None; }
    if p.cursor + n == g.nverts {
      c := AddU(c.value, TRANSITION);
      if c.None? { return None; }
      return Some(Progress(c.value, p.used + n, ACCUM, 0));
    }
    return Some(Progress(c.value, p.used + n, ZERO, p.cursor + n));
  }

  method AccumCharge(g: Mesh, p: Progress, budget: nat) returns (r: Option<Progress>)
    requires g.ntris < WORD && budget < WORD && p.used <= budget && p.cost < WORD && p.phase <= DONE
    ensures p.phase != ACCUM ==> r == Some(p)
    ensures !Inside(g, p.phase, p.cursor) && p.phase == ACCUM ==> r.None?
    ensures Inside(g, p.phase, p.cursor) ==> Charged(g, p, r, budget)
    ensures r.Some? ==> r.value.phase <= DONE && r.value.used <= budget && r.value.cost < WORD
    ensures r.Some? && r.value.phase == ACCUM ==> r.value.used == budget && r.value.cursor < g.ntris
  {
    hide NormDue, ZeroDue;
    if p.phase != ACCUM { return Some(p); }
    var remT := SubU(g.ntris, p.cursor);
    if remT.None? { return None; }
    var remB := SubU(budget, p.used);
    var n := Min(remT.value, remB.value);
    var c := ChargeGrouped(p.cost, n, ACCUM_FOUR, ACCUM_ONE);
    if c.None? { return None; }
    if p.cursor + n == g.ntris {
      c := AddU(c.value, TRANSITION);
      if c.None? { return None; }
      return Some(Progress(c.value, p.used + n, NORM, 0));
    }
    return Some(Progress(c.value, p.used + n, ACCUM, p.cursor + n));
  }

  method NormCharge(g: Mesh, p: Progress, budget: nat) returns (r: Option<nat>)
    requires g.nverts < WORD && g.ntris < WORD && budget < WORD && p.used <= budget && p.cost < WORD && p.phase <= DONE
    requires p.phase == ZERO ==> p.used == budget && p.cursor < g.nverts
    requires p.phase == ACCUM ==> p.used == budget && p.cursor < g.ntris
    ensures !Inside(g, p.phase, p.cursor) ==> r.None?
    ensures Inside(g, p.phase, p.cursor) ==> r == Checked(p.cost + Due(g, p.phase, p.cursor, budget - p.used))
  {
    if p.phase != NORM { return Some(p.cost); }
    var remV := SubU(g.nverts, p.cursor);
    if remV.None? { return None; }
    var remB := SubU(budget, p.used);
    var n := Min(remV.value, remB.value);
    r := Some(p.cost);
    if n > 0 {
      r := AddU(p.cost, LAST_STORE);
      if r.None? { return None; }
    }
    r := ChargeGrouped(r.value, n, NORM_FOUR, NORM_ONE);
    if r.None? { return None; }
    if p.cursor + n == g.nverts { r := AddU(r.value, TRANSITION); }
  }

  // ---------- The plan of a normalisation ----------

  /** Whether vertex v has its three components in the buffer, all finite. */
  predicate VertexOk(nor: seq<F>, finite: F -> bool, v: nat) {
    3 * v + 2 < |nor| && finite(nor[3 * v]) && finite(nor[3 * v + 1]) && finite(nor[3 * v + 2])
  }

  datatype Plan = Plan(cost: nat, phase: nat, cursor: nat)

  /** Walks over the vertices a call would normalise, checks them, and charges as it goes. */
  method PlanNormalize(g: Mesh, k: K, finite: F -> bool, budget: nat) returns (r: Option<Plan>)
    requires g.nverts < WORD && budget < WORD && KOk(g, k)
    ensures k.phase < NORM ==> r.None?
    ensures k.phase == DONE || (k.phase == NORM && budget == 0) ==> r == Some(Plan(ADMISSION + BINDING_GUARD, k.phase, k.cursor))
    ensures k.phase == NORM && budget > 0 ==>
      var n := Normalised(g, k, budget);
      if (forall v :: k.cursor <= v < k.cursor + n ==> VertexOk(k.nor, finite, v)) && Price(Closed(g, k, budget)) < WORD then
        r == Some(Plan(Price(Closed(g, k, budget)), if k.cursor + n == g.nverts then DONE else NORM,
                       if k.cursor + n == g.nverts then 0 else k.cursor + n))
      else r.None?
  {
    hide Price, VertexOk;
    var cost := ADMISSION + BINDING_GUARD;
    if k.phase != NORM && k.phase != DONE { return None; }
    if budget == 0 || k.phase == DONE { return Some(Plan(cost, k.phase, k.cursor)); }
    ghost var n := Normalised(g, k, budget);
    PriceShort(Closed(g, k, budget));
    var cursor, used, normed := k.cursor, 0, false;
    while used < budget && cursor < g.nverts
      invariant used <= n && cursor == k.cursor + used
      invariant cost == ADMISSION + BINDING_GUARD + NORM_ONE * used < WORD
      invariant forall v :: k.cursor <= v < cursor ==> VertexOk(k.nor, finite, v)
      invariant normed <==> used > 0
      decreases budget - used
    {
      var width := if g.nverts - cursor >= 4 && budget - used >= 4 then 4 else 1;
      var fine := CheckVertices(k.nor, finite, cursor, width);
      if !fine { return None; }
      var c := AddU(cost, if width == 4 then NORM_FOUR else NORM_ONE);
      if c.None? { return None; }
      cost, cursor, used, normed := c.value, cursor + width, used + width, true;
    }
    if normed {
      var c := AddU(cost, LAST_STORE);
      if c.None? { return None; }
      cost := c.value;
    }
    if cursor == g.nverts {
      var c := AddU(cost, TRANSITION);
      if c.None? { return None; }
      return Some(Plan(c.value, DONE, 0));
    }
    return Some(Plan(cost, NORM, cursor));
  }

  method CheckVertices(nor: seq<F>, finite: F -> bool, from: nat, width: nat) returns (ok: bool)
    ensures ok <==> forall v :: from <= v < from + width ==> VertexOk(nor, finite, v)
  {
    for i := 0 to width
      invariant forall v :: from <= v < from + i ==> VertexOk(nor, finite, v)
    {
      var at := 3 * (from + i);
      if !(at + 2 < |nor| && finite(nor[at]) && finite(nor[at + 1]) && finite(nor[at + 2])) {
        assert !VertexOk(nor, finite, from + i);
        return false;
      }
    }
    return true;
  }

  /** In the normalising phase the loop and the closed form agree: the same cost, and the same refusals
      when every vertex is fine; and the plan foresees where the kernel stops. */
  method PlansAgree(o: Ops, g: Mesh, k: K, finite: F -> bool, budget: nat) returns (p: Option<Plan>, q: Option<nat>)
    requires MeshOk(g) && g.nverts < WORD && g.ntris < WORD && budget < WORD && KOk(g, k) && k.phase == NORM
    requires forall v :: k.cursor <= v < g.nverts ==> VertexOk(k.nor, finite, v)
    ensures p.Some? <==> q.Some?
    ensures p.Some? ==> p.value.cost == q.value
    ensures p.Some? && budget > 0 ==> p.value.phase == Step(o, g, k, budget).phase && p.value.cursor == Step(o, g, k, budget).cursor
    ensures p.Some? && budget > 0 ==> p.value.cost == Price(StepTally(o, g, k, budget))
  {
    hide Price, VertexOk, Work, Settle;
    p := PlanNormalize(g, k, finite, budget);
    q := QuotaFrom(g, k, budget);
    if budget > 0 {
      StepClosed(o, g, k, budget);
      NormStops(o, g, k, budget);
    }
  }

  lemma NormStops(o: Ops, g: Mesh, k: K, b: nat)
    requires MeshOk(g) && KOk(g, k) && k.phase == NORM && b > 0
    ensures var n, s := Min(g.nverts - k.cursor, b), Step(o, g, k, b);
      if k.cursor + n == g.nverts then s.phase == DONE && s.cursor == 0 else s.phase == NORM && s.cursor == k.cursor + n
  {
    SettleNorm(g, k);
    NormWork(o, g, Settle(g, k), b);
  }

  lemma SettleNorm(g: Mesh, k: K)
    requires KOk(g, k) && k.phase == NORM
    ensures Settle(g, k) == if k.cursor == g.nverts then k.(phase := DONE, cursor := 0) else k
  {
    if k.cursor == g.nverts { SettleSettled(g, k.(phase := DONE, cursor := 0)); }
  }

  lemma {:induction false} NormWork(o: Ops, g: Mesh, k: K, b: nat)
    requires MeshOk(g) && KOk(g, k) && Settled(g, k) && k.phase >= NORM && (k.phase == DONE ==> k.cursor == 0)
    ensures var n, s := if k.phase == DONE then 0 else Min(g.nverts - k.cursor, b), Work(o, g, k, b);
      if k.phase == DONE || k.cursor + n == g.nverts then s.phase == DONE && s.cursor == 0
      else s.phase == NORM && s.cursor == k.cursor + n
    decreases b
  {
    hide Unit, Settle;
    if b > 0 && k.phase < DONE {
      SettleNorm(g, Unit(o, g, k));
      NormWork(o, g, Settle(g, Unit(o, g, k)), b - 1);
    }
  }
}
