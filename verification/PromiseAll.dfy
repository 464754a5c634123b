/** Promise.all, inside every run of the protocol. */
module PromiseAll {
  import opened Sets
  import opened PromiseMachine
  import opened PromiseRuns

  // ---------- Invariant ----------

  /** Results of Promise.all are settled by their aggregate only. */
  ghost predicate OwnersOk(s: State) {
    && (forall k :: 0 <= k < |s.registered| ==>
          s.registered[k].child < |s.promises| && !s.promises[s.registered[k].child].owner.ByAll?)
    && (forall a :: 0 <= a < |s.aggs| ==> s.aggs[a].out < |s.promises| && s.promises[s.aggs[a].out].owner.ByAll?)
    && (forall a, b :: 0 <= a < b < |s.aggs| ==> s.aggs[a].out != s.aggs[b].out)
  }

  /** A built-in callback belongs to the input it was made for. */
  predicate CallbackOk(s: State, k: nat)
    requires k < |s.registered|
  {
    var r := s.registered[k];
    || (UserCallback(r.onFulfilled) && UserCallback(r.onRejected))
    || (r.onFulfilled.AllFulfil? && r.onRejected == AllReject(r.onFulfilled.agg, r.onFulfilled.idx)
        && r.onFulfilled.agg < |s.aggs| && r.onFulfilled.idx < |s.aggs[r.onFulfilled.agg].ids|
        && s.aggs[r.onFulfilled.agg].ids[r.onFulfilled.idx] == k)
  }

  ghost predicate CallbacksOk(s: State) { forall k :: 0 <= k < |s.registered| ==> CallbackOk(s, k) }

  /** The i-th reaction of aggregate a is registered on its i-th input. */
  predicate Hooked(s: State, a: nat, i: nat)
    requires a < |s.aggs| && i < |s.aggs[a].ids| && i < |s.aggs[a].inputs|
  {
    var id, p := s.aggs[a].ids[i], s.aggs[a].inputs[i];
    && p < |s.promises| && id < |s.registered| && s.registered[id].source == p
    && s.registered[id].onFulfilled == AllFulfil(a, i) && s.registered[id].onRejected == AllReject(a, i)
  }

  predicate Wired(s: State, a: nat)
    requires a < |s.aggs|
  {
    var g := s.aggs[a];
    && |g.inputs| == |g.ids| <= |g.results| && g.results != []
    && forall i :: 0 <= i < |g.ids| ==> Hooked(s, a, i)
  }

  predicate Rejecting(s: State, p: nat) { p < |s.promises| && s.promises[p].state.Rejected? }

  predicate Fulfilling(s: State, p: nat) { p < |s.promises| && s.promises[p].settled && s.promises[p].state.Fulfilled? }

  function ResultOf(s: State, p: nat): Value { if p < |s.promises| then s.promises[p].result else Prim(0) }

  predicate Distinct(h: seq<nat>) { forall k, l :: 0 <= k < l < |h| ==> h[k] != h[l] }

  /** The history lists exactly the inputs whose reaction has started. */
  predicate HistoryOk(s: State, a: nat)
    requires a < |s.aggs|
  {
    var g := s.aggs[a];
    && Distinct(g.history)
    && (forall k :: 0 <= k < |g.history| ==> g.history[k] < |g.ids| && g.ids[g.history[k]] in Ids(s.started))
    && (forall i :: 0 <= i < |g.ids| && g.ids[i] in Ids(s.started) ==> i in g.history)
    && (forall k :: 0 <= k < |g.history| && g.history[k] < |g.inputs| ==>
          g.inputs[g.history[k]] < |s.promises| && s.promises[g.inputs[g.history[k]]].settled)
  }

  /** Before it has finished: all inputs so far were fulfilled, and their results are in place. */
  predicate Collecting(s: State, g: Agg) {
    && g.out < |s.promises| && !s.promises[g.out].settled
    && |g.history| + g.remaining == |g.results| && g.remaining > 0
    && forall k :: 0 <= k < |g.history| && g.history[k] < |g.inputs| && g.history[k] < |g.results| ==>
         !Rejecting(s, g.inputs[g.history[k]]) && g.results[g.history[k]] == ResultOf(s, g.inputs[g.history[k]])
  }

  /** All inputs fulfilled: the results in the order of the inputs. */
  predicate AllFulfilled(s: State, g: Agg) {
    && |g.history| == |g.results| == |g.inputs| && g.out < |s.promises|
    && (forall i :: 0 <= i < |g.inputs| ==> Fulfilling(s, g.inputs[i]))
    && s.promises[g.out].state.Fulfilled? && s.promises[g.out].settled
    && s.promises[g.out].result == Arr(Results(s, g.inputs))
  }

  function Results(s: State, inputs: seq<nat>): (r: seq<Value>)
    ensures |r| == |inputs|
  {
    seq(|inputs|, i requires 0 <= i < |inputs| => ResultOf(s, inputs[i]))
  }

  /** The k-th reaction to run was the first rejection. */
  predicate FirstRejection(s: State, g: Agg, k: nat) {
    && k < |g.history| && (forall l :: 0 <= l <= k ==> g.history[l] < |g.inputs|)
    && Rejecting(s, g.inputs[g.history[k]])
    && (forall l :: 0 <= l < k ==> !Rejecting(s, g.inputs[g.history[l]]))
    && g.out < |s.promises| && s.promises[g.out].settled && s.promises[g.out].state.Rejected?
    && s.promises[g.out].result == ResultOf(s, g.inputs[g.history[k]])
  }

  predicate OutcomeOk(s: State, g: Agg) {
    if g.finished then AllFulfilled(s, g) || (exists k :: 0 <= k < |g.history| && FirstRejection(s, g, k))
    else Collecting(s, g)
  }

  predicate AggOk(s: State, a: nat)
    requires a < |s.aggs|
  {
    Wired(s, a) && HistoryOk(s, a) && OutcomeOk(s, s.aggs[a])
  }

  ghost predicate AInv(s: State) {
    OwnersOk(s) && CallbacksOk(s) && forall a :: 0 <= a < |s.aggs| ==> AggOk(s, a)
  }

  /** Every input of every aggregate is hooked. */
  ghost predicate Complete(s: State) {
    forall a :: 0 <= a < |s.aggs| ==> |s.aggs[a].ids| == |s.aggs[a].results|
  }

  // ---------- Steps that do not concern an aggregate ----------

  /** Promises may be added and settled. */
  predicate Mostly(s: State, s1: State) {
    && Grows(s, s1) && |s1.aggs| == |s.aggs| && s1.registered == s.registered
    && (forall p :: 0 <= p < |s.promises| ==> (s1.promises[p].owner.ByAll? <==> s.promises[p].owner.ByAll?))
  }

  /** Nothing about aggregates changes, nor their results. */
  predicate Elsewhere(s: State, s1: State) {
    && Mostly(s, s1) && s1.aggs == s.aggs && s1.started == s.started
    && (forall p :: 0 <= p < |s.promises| && s.promises[p].owner.ByAll? ==> s1.promises[p] == s.promises[p])
  }

  lemma FrameA(s: State, s1: State)
    requires AInv(s) && Elsewhere(s, s1) && Base(s)
    ensures AInv(s1)
  {
    forall k | 0 <= k < |s1.registered| ensures CallbackOk(s1, k) { assert CallbackOk(s, k); }
    forall a | 0 <= a < |s1.aggs| ensures AggOk(s1, a) {
      assert AggOk(s, a);
      FrameAgg(s, s1, a);
    }
  }

  /** An aggregate whose own result does not change. */
  lemma FrameAgg(s: State, s1: State, a: nat)
    requires Base(s) && Mostly(s, s1) && a < |s.aggs| && AggOk(s, a) && s1.aggs[a] == s.aggs[a]
    requires s.aggs[a].out < |s.promises| && s1.promises[s.aggs[a].out] == s.promises[s.aggs[a].out]
    requires forall i :: 0 <= i < |s.aggs[a].ids| ==> (s.aggs[a].ids[i] in Ids(s1.started) <==> s.aggs[a].ids[i] in Ids(s.started))
    ensures AggOk(s1, a)
  {
    var g := s.aggs[a];
    forall i | 0 <= i < |g.ids| ensures Hooked(s1, a, i) { assert Hooked(s, a, i); }
    assert HistoryOk(s1, a);
    FrameOutcome(s, s1, a);
  }

  lemma FrameOutcome(s: State, s1: State, a: nat)
    requires Base(s) && Mostly(s, s1) && a < |s.aggs| && AggOk(s, a) && s1.aggs[a] == s.aggs[a]
    requires s.aggs[a].out < |s.promises| && s1.promises[s.aggs[a].out] == s.promises[s.aggs[a].out]
    ensures OutcomeOk(s1, s1.aggs[a])
  {
    var g := s.aggs[a];
    HistorySettled(s, s1, a);
    if g.finished {
      if AllFulfilled(s, g) {
        forall i | 0 <= i < |g.inputs| ensures Fulfilling(s1, g.inputs[i]) && ResultOf(s1, g.inputs[i]) == ResultOf(s, g.inputs[i]) {
          assert Fulfilling(s, g.inputs[i]);
        }
        assert Results(s1, g.inputs) == Results(s, g.inputs);
      } else {
        var k :| 0 <= k < |g.history| && FirstRejection(s, g, k);
        assert FirstRejection(s1, g, k);
      }
    }
  }

  /** Inputs whose reaction has run do not change. */
  lemma HistorySettled(s: State, s1: State, a: nat)
    requires Base(s) && Mostly(s, s1) && a < |s.aggs| && AggOk(s, a)
    ensures forall k :: 0 <= k < |s.aggs[a].history| ==>
      var p := s.aggs[a].inputs[s.aggs[a].history[k]];
      p < |s.promises| && Rejecting(s1, p) == Rejecting(s, p) && ResultOf(s1, p) == ResultOf(s, p)
  {
    var g := s.aggs[a];
    forall k | 0 <= k < |g.history|
      ensures var p := g.inputs[g.history[k]];
        p < |s.promises| && Rejecting(s1, p) == Rejecting(s, p) && ResultOf(s1, p) == ResultOf(s, p)
    {
      assert s.promises[g.inputs[g.history[k]]].settled;
    }
  }

  lemma SettleA(s: State, p: nat, state: PState, v: Value)
    requires AInv(s) && Inv(s) && !state.Pending? && (p < |s.promises| ==> !s.promises[p].owner.ByAll?)
    ensures AInv(Settle(s, p, state, v))
  {
    SettleElsewhere(s, p, state, v);
    FrameA(s, Settle(s, p, state, v));
  }

  lemma SettleElsewhere(s: State, p: nat, state: PState, v: Value)
    requires Base(s) && !state.Pending? && (p < |s.promises| ==> !s.promises[p].owner.ByAll?)
    ensures Elsewhere(s, Settle(s, p, state, v))
  {
    if p < |s.promises| { assert PromiseOk(s, p); }
  }

  lemma NewA(s: State, owner: Owner)
    requires AInv(s) && Inv(s)
    ensures AInv(s.(promises := s.promises + [Fresh(owner)]))
  {
    FrameA(s, s.(promises := s.promises + [Fresh(owner)]));
  }

  // ---------- Registering ----------

  /** Another registration, on any promise. */
  predicate Registers(s: State, s1: State, r: Reg) {
    && Grows(s, s1) && s1.aggs == s.aggs && s1.registered == s.registered + [r] && s1.started == s.started
    && r.child == |s.promises| < |s1.promises| && s1.promises[r.child] == Fresh(ByReaction) && r.source < |s.promises|
    && (forall p :: 0 <= p < |s.promises| ==> s1.promises[p].(reactions := []) == s.promises[p].(reactions := []))
  }

  lemma ThenRegisters(s: State, p: nat, onF: Callback, onR: Callback)
    requires Base(s) && p < |s.promises|
    ensures Registers(s, DoThen(s, p, onF, onR), Reg(p, onF, onR, |s.promises|))
  {
    ThenGrows(s, p, onF, onR);
  }

  lemma RegistersAgg(s: State, s1: State, r: Reg, a: nat)
    requires Base(s) && Registers(s, s1, r) && a < |s.aggs| && AggOk(s, a)
    ensures AggOk(s1, a)
  {
    var g := s.aggs[a];
    forall i | 0 <= i < |g.ids| ensures Hooked(s1, a, i) { assert Hooked(s, a, i); }
    RegistersOutcome(s, s1, r, a);
  }

  lemma RegistersOutcome(s: State, s1: State, r: Reg, a: nat)
    requires Base(s) && Registers(s, s1, r) && a < |s.aggs| && AggOk(s, a)
    ensures OutcomeOk(s1, s1.aggs[a])
  {
    var g := s.aggs[a];
    forall i | 0 <= i < |g.inputs|
      ensures g.inputs[i] < |s.promises| && Rejecting(s1, g.inputs[i]) == Rejecting(s, g.inputs[i])
        && Fulfilling(s1, g.inputs[i]) == Fulfilling(s, g.inputs[i]) && ResultOf(s1, g.inputs[i]) == ResultOf(s, g.inputs[i])
    {
      assert Hooked(s, a, i);
    }
    if g.finished {
      if AllFulfilled(s, g) {
        assert Results(s1, g.inputs) == Results(s, g.inputs);
      } else {
        var k :| 0 <= k < |g.history| && FirstRejection(s, g, k);
        assert FirstRejection(s1, g, k);
      }
    }
  }

  lemma ThenA(s: State, p: nat, onF: Callback, onR: Callback)
    requires AInv(s) && Inv(s) && p < |s.promises| && UserCallback(onF) && UserCallback(onR)
    ensures AInv(DoThen(s, p, onF, onR))
  {
    var s1, r := DoThen(s, p, onF, onR), Reg(p, onF, onR, |s.promises|);
    ThenRegisters(s, p, onF, onR);
    forall k | 0 <= k < |s1.registered| ensures CallbackOk(s1, k) {
      if k < |s.registered| { assert CallbackOk(s, k); }
    }
    forall a | 0 <= a < |s1.aggs| ensures AggOk(s1, a) {
      assert AggOk(s, a);
      RegistersAgg(s, s1, r, a);
    }
  }

  lemma StartedInside(s: State, id: nat)
    requires Base(s) && id >= |s.registered|
    ensures id !in Ids(s.started)
  {
    hide PromiseOk;
  }

  /** One more input of an aggregate none of whose reactions has run. */
  lemma HookStep(s: State, a: nat, p: nat)
    requires AInv(s) && Inv(s) && p < |s.promises| && a < |s.aggs|
    requires |s.aggs[a].ids| < |s.aggs[a].results| && s.aggs[a].history == []
    ensures var i := |s.aggs[a].ids|;
      var s2 := DoThen(s, p, AllFulfil(a, i), AllReject(a, i));
      && s2.aggs == s.aggs
      && AInv(s2.(aggs := s2.aggs[a := s.aggs[a].(inputs := s.aggs[a].inputs + [p], ids := s.aggs[a].ids + [|s.registered|])]))
  {
    var i, g := |s.aggs[a].ids|, s.aggs[a];
    var r := Reg(p, AllFulfil(a, i), AllReject(a, i), |s.promises|);
    var s2 := DoThen(s, p, AllFulfil(a, i), AllReject(a, i));
    ThenRegisters(s, p, AllFulfil(a, i), AllReject(a, i));
    var g1 := g.(inputs := g.inputs + [p], ids := g.ids + [|s.registered|]);
    var s3 := s2.(aggs := s2.aggs[a := g1]);
    HookCallbacks(s, a, s3, g1, r);
    HookAggs(s, a, s2, s3, g1, r);
  }

  lemma HookCallbacks(s: State, a: nat, s3: State, g1: Agg, r: Reg)
    requires AInv(s) && a < |s.aggs| && s3.registered == s.registered + [r] && s3.aggs == s.aggs[a := g1]
    requires g1.ids == s.aggs[a].ids + [|s.registered|]
    requires r.onFulfilled == AllFulfil(a, |s.aggs[a].ids|) && r.onRejected == AllReject(a, |s.aggs[a].ids|)
    ensures CallbacksOk(s3)
  {
    forall k | 0 <= k < |s3.registered| ensures CallbackOk(s3, k) {
      if k < |s.registered| { assert CallbackOk(s, k); }
    }
  }

  lemma HookAggs(s: State, a: nat, s2: State, s3: State, g1: Agg, r: Reg)
    requires AInv(s) && Inv(s) && a < |s.aggs| && Registers(s, s2, r) && s3 == s2.(aggs := s2.aggs[a := g1])
    requires |s.aggs[a].ids| < |s.aggs[a].results| && s.aggs[a].history == []
    requires g1 == s.aggs[a].(inputs := s.aggs[a].inputs + [r.source], ids := s.aggs[a].ids + [|s.registered|])
    requires r.onFulfilled == AllFulfil(a, |s.aggs[a].ids|) && r.onRejected == AllReject(a, |s.aggs[a].ids|)
    ensures OwnersOk(s3) && forall b :: 0 <= b < |s3.aggs| ==> AggOk(s3, b)
  {
    StartedInside(s, |s.registered|);
    forall b | 0 <= b < |s3.aggs| ensures AggOk(s3, b) {
      assert AggOk(s, b);
      RegistersAgg(s, s2, r, b);
      SameAgg(s2, s3, b, a);
      if b == a {
        forall i | 0 <= i < |g1.ids| ensures Hooked(s3, a, i) {
          if i < |s.aggs[a].ids| { assert Hooked(s2, a, i); }
        }
      }
    }
  }

  /** Changing one aggregate leaves the others as they are. */
  lemma SameAgg(s: State, s1: State, b: nat, a: nat)
    requires s1 == s.(aggs := s1.aggs) && |s1.aggs| == |s.aggs| && b < |s.aggs| && AggOk(s, b)
    requires b != a ==> s1.aggs[b] == s.aggs[b]
    ensures b != a ==> AggOk(s1, b)
  {
    if b != a {
      var g := s.aggs[b];
      forall i | 0 <= i < |g.ids| ensures Hooked(s1, b, i) { assert Hooked(s, b, i); }
      assert HistoryOk(s1, b);
      if g.finished {
        if AllFulfilled(s, g) {
          assert Results(s1, g.inputs) == Results(s, g.inputs);
          forall i | 0 <= i < |g.inputs| ensures Fulfilling(s1, g.inputs[i]) { assert Fulfilling(s, g.inputs[i]); }
        } else {
          var k :| 0 <= k < |g.history| && FirstRejection(s, g, k);
          assert FirstRejection(s1, g, k);
        }
      }
    }
  }

  lemma {:induction false} HookA(s: State, a: nat, inputs: seq<Value>, i: nat)
    requires AInv(s) && Inv(s) && a < |s.aggs| && i <= |inputs| == |s.aggs[a].results|
    requires |s.aggs[a].ids| == i && s.aggs[a].history == []
    requires forall b :: 0 <= b < |s.aggs| && b != a ==> |s.aggs[b].ids| == |s.aggs[b].results|
    ensures AInv(Hook(s, a, inputs, i)) && Complete(Hook(s, a, inputs, i))
    decreases |inputs| - i
  {
    hide AInv, Inv, DoThen, Settle;
    if i < |inputs| {
      var (s1, p) := Input(s, inputs[i]);
      InputInv(s, inputs[i]);
      InputA(s, inputs[i]);
      HookStep(s1, a, p);
      ThenInv(s1, p, AllFulfil(a, i), AllReject(a, i));
      var s2 := DoThen(s1, p, AllFulfil(a, i), AllReject(a, i));
      var g := s2.aggs[a];
      var s3 := s2.(aggs := s2.aggs[a := g.(inputs := g.inputs + [p], ids := g.ids + [|s1.registered|])]);
      AggInv(s2, s3.aggs);
      HookA(s3, a, inputs, i + 1);
    }
  }

  lemma InputA(s: State, v: Value)
    requires AInv(s) && Inv(s)
    ensures AInv(Input(s, v).0)
  {
    hide AInv, Inv;
    if !(v.Ref? && v.p < |s.promises|) {
      NewA(s, ByResolvers);
      NewInv(s, ByResolvers);
      SettleA(s.(promises := s.promises + [Fresh(ByResolvers)]), |s.promises|, Fulfilled, v);
    }
  }

  lemma NewAgg(s: State, n: nat)
    requires AInv(s) && Inv(s) && n > 0
    ensures var g := Agg(|s.promises|, [], [], seq(n, _ => Prim(0)), n, false, []);
      AInv(s.(promises := s.promises + [Fresh(ByAll)], aggs := s.aggs + [g]))
  {
    var g := Agg(|s.promises|, [], [], seq(n, _ => Prim(0)), n, false, []);
    var s1 := s.(promises := s.promises + [Fresh(ByAll)]);
    var s2 := s1.(aggs := s.aggs + [g]);
    NewA(s, ByAll);
    forall k | 0 <= k < |s2.registered| ensures CallbackOk(s2, k) { assert CallbackOk(s, k); }
    forall b | 0 <= b < |s2.aggs| ensures AggOk(s2, b) {
      if b < |s.aggs| {
        assert AggOk(s1, b);
        MoreAggs(s1, s2, b);
      }
    }
  }

  lemma MoreAggs(s: State, s1: State, b: nat)
    requires b < |s.aggs| && AggOk(s, b) && s1 == s.(aggs := s1.aggs) && b < |s1.aggs| && s1.aggs[b] == s.aggs[b]
    ensures AggOk(s1, b)
  {
    var g := s.aggs[b];
    forall i | 0 <= i < |g.ids| ensures Hooked(s1, b, i) { assert Hooked(s, b, i); }
    assert HistoryOk(s1, b);
    if g.finished {
      if AllFulfilled(s, g) {
        assert Results(s1, g.inputs) == Results(s, g.inputs);
        forall i | 0 <= i < |g.inputs| ensures Fulfilling(s1, g.inputs[i]) { assert Fulfilling(s, g.inputs[i]); }
      } else {
        var k :| 0 <= k < |g.history| && FirstRejection(s, g, k);
        assert FirstRejection(s1, g, k);
      }
    }
  }

  lemma AllA(s: State, inputs: seq<Value>)
    requires AInv(s) && Inv(s) && Complete(s)
    ensures AInv(DoAll(s, inputs)) && Complete(DoAll(s, inputs))
  {
    hide AInv, Inv, Hook, Settle;
    if inputs == [] {
      NewA(s, ByReaction);
      NewInv(s, ByReaction);
      SettleA(s.(promises := s.promises + [Fresh(ByReaction)]), |s.promises|, Fulfilled, Arr([]));
      SettleGrows(s.(promises := s.promises + [Fresh(ByReaction)]), |s.promises|, Fulfilled, Arr([]));
    } else {
      NewAgg(s, |inputs|);
      NewInv(s, ByAll);
      var s1 := s.(promises := s.promises + [Fresh(ByAll)]);
      var g := Agg(|s.promises|, [], [], seq(|inputs|, _ => Prim(0)), |inputs|, false, []);
      AggInv(s1, s.aggs + [g]);
      HookA(s1.(aggs := s.aggs + [g]), |s.aggs|, inputs, 0);
    }
  }

  // ---------- Running a reaction ----------

  function Elements(h: seq<nat>): set<nat> { set x | x in h }

  lemma {:induction false} ElementsCard(h: seq<nat>)
    requires Distinct(h)
    ensures |Elements(h)| == |h|
  {
    if h != [] {
      ElementsCard(h[1..]);
      assert Elements(h) == Elements(h[1..]) + {h[0]};
      assert h[0] !in Elements(h[1..]) by { assert forall k :: 0 <= k < |h[1..]| ==> h[1..][k] != h[0]; }
    }
  }

  lemma Pigeonhole(h: seq<nat>, n: nat)
    requires Distinct(h) && |h| >= n && forall k :: 0 <= k < |h| ==> h[k] < n
    ensures forall i :: 0 <= i < n ==> i in h
    ensures |h| == n
  {
    ElementsCard(h);
    assert Elements(h) <= Below(n);
    BelowCard(n);
    SubsetCard(Elements(h), Below(n));
    forall i: nat | i < n ensures i in h {
      if i !in h {
        assert Elements(h) <= Below(n) - {i};
        SubsetCard(Elements(h), Below(n) - {i});
      }
    }
  }

  /** No job is started twice. */
  lemma NotYetStarted(s: State, j: Job)
    requires Inv(s) && s.batch != [] && j == s.batch[0] && j.id < |s.registered|
    ensures j.id !in Ids(s.started)
  {
    var p := s.registered[j.id].source;
    assert p < |s.promises| && Kept(s, p);
    QueueSplit(s, j, p);
    OfUpTo(s.registered, |s.registered|, p);
    hide Of, Log, Kept, Base;
    var a := Ids(s.started);
    var x, all := Of(s.registered, a, p), Of(s.registered, UpTo(|s.registered|), p);
    forall l | 0 <= l < |x| ensures x[l] != j.id { assert x[l] == (x + [j.id])[l] == all[l] && all[|x|] == (x + [j.id])[|x|]; }
    forall k | 0 <= k < |a| ensures a[k] != j.id {
      if a[k] == j.id { InOf(s.registered, a, k, p); }
    }
  }

  lemma QueueSplit(s: State, j: Job, p: nat)
    requires Inv(s) && s.batch != [] && j == s.batch[0] && j.id < |s.registered|
    requires p == s.registered[j.id].source && p < |s.promises| && Kept(s, p)
    ensures var x := Of(s.registered, Ids(s.started), p);
      x + [j.id] <= Of(s.registered, UpTo(|s.registered|), p)
  {
    hide Base, Conserved, Of;
    var a, b := Ids(s.started), Ids(s.batch) + Ids(s.jobs);
    assert Log(s) == a + b;
    OfCat(s.registered, a, b, p);
    assert b == [j.id] + b[1..];
    OfCat(s.registered, [j.id], b[1..], p);
    OfSingle(s.registered, j.id, p);
    PrefixOf(Of(s.registered, a, p), j.id, Of(s.registered, b[1..], p), ReactionIds(s.promises[p].reactions));
  }

  lemma PrefixOf(x: seq<nat>, id: nat, y: seq<nat>, z: seq<nat>)
    ensures x + [id] <= x + ([id] + y) + z
  {
    assert x + ([id] + y) + z == x + [id] + (y + z);
  }

  lemma {:induction false} InOf(reg: seq<Reg>, ids: seq<nat>, k: nat, p: nat)
    requires k < |ids| && ids[k] < |reg| && reg[ids[k]].source == p
    ensures exists l :: 0 <= l < |Of(reg, ids, p)| && Of(reg, ids, p)[l] == ids[k]
  {
    var n := |ids| - 1;
    if k < n {
      InOf(reg, ids[..n], k, p);
      var l :| 0 <= l < |Of(reg, ids[..n], p)| && Of(reg, ids[..n], p)[l] == ids[k];
      assert Of(reg, ids, p)[l] == ids[k];
    } else {
      assert Of(reg, ids, p)[|Of(reg, ids[..n], p)|] == ids[k];
    }
  }

  /** Only the job that starts is new among the started ones. */
  predicate Starts(s: State, s1: State, j: Job) {
    s1 == s.(batch := s1.batch, jobs := s1.jobs, started := s.started + [j])
  }

  lemma StartsIds(s: State, s1: State, j: Job)
    requires Starts(s, s1, j)
    ensures forall id :: id in Ids(s1.started) <==> id in Ids(s.started) || id == j.id
  {
    IdsCat(s.started, [j]);
    assert Ids([j]) == [j.id];
  }

  /** A job whose callback is not an aggregate's. */
  lemma StartOther(s: State, s1: State, j: Job)
    requires AInv(s) && Inv(s) && Starts(s, s1, j) && JobOk(s, j) && UserCallback(j.cb)
    ensures AInv(s1)
  {
    StartsIds(s, s1, j);
    forall k | 0 <= k < |s1.registered| ensures CallbackOk(s1, k) { assert CallbackOk(s, k); }
    forall a | 0 <= a < |s1.aggs| ensures AggOk(s1, a) {
      assert AggOk(s, a);
      var g := s.aggs[a];
      forall i | 0 <= i < |g.ids| ensures g.ids[i] != j.id {
        assert Hooked(s, a, i);
        assert CallbackOk(s, j.id);
      }
      FrameAgg(s, s1, a);
    }
  }

  /** The aggregate and the input of a built-in callback. */
  lemma WhichInput(s: State, j: Job)
    requires AInv(s) && Inv(s) && JobOk(s, j) && !UserCallback(j.cb)
    ensures var a, i := j.cb.agg, j.cb.idx;
      && a < |s.aggs| && i < |s.aggs[a].ids| && i < |s.aggs[a].results| && s.aggs[a].ids[i] == j.id && i < |s.aggs[a].inputs|
      && s.aggs[a].inputs[i] == s.registered[j.id].source && (j.cb.AllReject? <==> j.isReject)
      && (forall b, k :: 0 <= b < |s.aggs| && 0 <= k < |s.aggs[b].ids| && s.aggs[b].ids[k] == j.id ==> b == a && k == i)
  {
    assert CallbackOk(s, j.id);
    var a, i := j.cb.agg, j.cb.idx;
    assert AggOk(s, a) && Hooked(s, a, i);
    forall b, k | 0 <= b < |s.aggs| && 0 <= k < |s.aggs[b].ids| && s.aggs[b].ids[k] == j.id ensures b == a && k == i {
      assert AggOk(s, b) && Hooked(s, b, k);
    }
  }

  /** What the aggregate's callback leaves of its own aggregate. */
  lemma RunAllOwn(s: State, s1: State, j: Job)
    requires AInv(s) && Inv(s) && Starts(s, s1, j) && JobOk(s, j) && !UserCallback(j.cb) && j.id !in Ids(s.started)
    ensures j.cb.agg < |RunAll(s1, j.cb.agg, j.cb.idx, j.isReject, j.value).aggs|
    ensures AggOk(RunAll(s1, j.cb.agg, j.cb.idx, j.isReject, j.value), j.cb.agg)
  {
    var a, i := j.cb.agg, j.cb.idx;
    WhichInput(s, j);
    StartsIds(s, s1, j);
    var g, s2 := s.aggs[a], RunAll(s1, a, i, j.isReject, j.value);
    assert AggOk(s, a);
    assert i !in g.history;
    RunAllShape(s1, a, i, j.isReject, j.value);
    forall k | 0 <= k < |g.ids| ensures Hooked(s2, a, k) { assert Hooked(s, a, k); }
    RunAllHistory(s, s1, j, s2);
    RunAllOutcome(s, s1, j, s2);
  }

  lemma RunAllShape(s: State, a: nat, idx: nat, isReject: bool, v: Value)
    requires a < |s.aggs| && idx < |s.aggs[a].results|
    ensures var s2, g := RunAll(s, a, idx, isReject, v), s.aggs[a];
      && Mostly(s.(aggs := s2.aggs), s2) && s2.started == s.started && |s2.aggs| == |s.aggs|
      && s2.aggs[a].(results := [], remaining := 0, finished := false) == g.(history := g.history + [idx], results := [], remaining := 0, finished := false)
      && |s2.aggs[a].results| == |g.results|
      && (forall b :: 0 <= b < |s.aggs| && b != a ==> s2.aggs[b] == s.aggs[b])
      && (forall p :: 0 <= p < |s.promises| && p != g.out ==> s2.promises[p] == s.promises[p])
  {}

  lemma RunAllHistory(s: State, s1: State, j: Job, s2: State)
    requires AInv(s) && Inv(s) && Starts(s, s1, j) && JobOk(s, j) && !UserCallback(j.cb) && j.id !in Ids(s.started)
    requires s2 == RunAll(s1, j.cb.agg, j.cb.idx, j.isReject, j.value) && j.cb.agg < |s2.aggs|
    ensures HistoryOk(s2, j.cb.agg)
  {
    var a, i := j.cb.agg, j.cb.idx;
    WhichInput(s, j);
    StartsIds(s, s1, j);
    assert AggOk(s, a);
    RunAllShape(s1, a, i, j.isReject, j.value);
    var g := s.aggs[a];
    assert g.ids[i] == j.id;
    MoreHistory(g.history, g.ids, Ids(s.started), Ids(s1.started), i);
    hide AInv, Inv, JobOk, OutcomeOk, RunAll, Wired;
  }

  /** The history of the inputs that have run, when one more has. */
  lemma MoreHistory(h: seq<nat>, ids: seq<nat>, was: seq<nat>, now: seq<nat>, i: nat)
    requires Distinct(h) && i < |ids| && ids[i] !in was
    requires forall id :: id in now <==> id in was || id == ids[i]
    requires forall k :: 0 <= k < |h| ==> h[k] < |ids| && ids[h[k]] in was
    requires forall k :: 0 <= k < |ids| && ids[k] in was ==> k in h
    requires forall k :: 0 <= k < |ids| && ids[k] == ids[i] ==> k == i
    ensures Distinct(h + [i])
    ensures forall k :: 0 <= k < |h + [i]| ==> (h + [i])[k] < |ids| && ids[(h + [i])[k]] in now
    ensures forall k :: 0 <= k < |ids| && ids[k] in now ==> k in h + [i]
  {}

  lemma RunAllOutcome(s: State, s1: State, j: Job, s2: State)
    requires AInv(s) && Inv(s) && Starts(s, s1, j) && JobOk(s, j) && !UserCallback(j.cb) && j.id !in Ids(s.started)
    requires s2 == RunAll(s1, j.cb.agg, j.cb.idx, j.isReject, j.value) && j.cb.agg < |s2.aggs|
    ensures OutcomeOk(s2, s2.aggs[j.cb.agg])
  {
    var a, i := j.cb.agg, j.cb.idx;
    WhichInput(s, j);
    StartsIds(s, s1, j);
    assert AggOk(s, a);
    var g := s.aggs[a];
    var p := g.inputs[i];
    assert i !in g.history;
    if g.finished {
      if AllFulfilled(s, g) {
        Pigeonhole(g.history, |g.results|);
        assert false;
      }
      var k :| 0 <= k < |g.history| && FirstRejection(s, g, k);
      assert FirstRejection(s2, s2.aggs[a], k);
    } else if j.isReject {
      RejectOutcome(s, s1, j, s2);
    } else {
      FulfilOutcome(s, s1, j, s2);
    }
  }

  lemma RejectOutcome(s: State, s1: State, j: Job, s2: State)
    requires AInv(s) && Inv(s) && Starts(s, s1, j) && JobOk(s, j) && !UserCallback(j.cb) && j.isReject
    requires s2 == RunAll(s1, j.cb.agg, j.cb.idx, j.isReject, j.value) && j.cb.agg < |s2.aggs|
    requires j.cb.agg < |s.aggs| && j.cb.idx < |s.aggs[j.cb.agg].inputs| && j.cb.idx < |s.aggs[j.cb.agg].results|
    requires s.aggs[j.cb.agg].inputs[j.cb.idx] == s.registered[j.id].source && AggOk(s, j.cb.agg) && !s.aggs[j.cb.agg].finished
    ensures OutcomeOk(s2, s2.aggs[j.cb.agg])
  {
    var a, i := j.cb.agg, j.cb.idx;
    var g := s.aggs[a];
    forall l | 0 <= l < |g.history| ensures g.inputs[g.history[l]] != g.out { assert s.promises[g.inputs[g.history[l]]].settled; }
    var g2 := s2.aggs[a];
    assert g2.history == g.history + [i];
    assert Collecting(s, g);
    PromiseOf(s, g.inputs[i]);
    assert g.inputs[i] != g.out;
    assert FirstRejection(s2, g2, |g.history|);
  }

  lemma FulfilOutcome(s: State, s1: State, j: Job, s2: State)
    requires AInv(s) && Inv(s) && Starts(s, s1, j) && JobOk(s, j) && !UserCallback(j.cb) && !j.isReject
    requires s2 == RunAll(s1, j.cb.agg, j.cb.idx, j.isReject, j.value) && j.cb.agg < |s2.aggs|
    requires j.cb.agg < |s.aggs| && j.cb.idx < |s.aggs[j.cb.agg].inputs| && j.cb.idx < |s.aggs[j.cb.agg].results|
    requires s.aggs[j.cb.agg].inputs[j.cb.idx] == s.registered[j.id].source && AggOk(s, j.cb.agg) && !s.aggs[j.cb.agg].finished
    requires j.cb.idx !in s.aggs[j.cb.agg].history
    ensures OutcomeOk(s2, s2.aggs[j.cb.agg])
  {
    var a, i := j.cb.agg, j.cb.idx;
    var g, g2 := s.aggs[a], s2.aggs[a];
    var p := g.inputs[i];
    assert g2.history == g.history + [i] && g2.results == g.results[i := j.value];
    forall l | 0 <= l < |g.history| ensures g.inputs[g.history[l]] != g.out && g.history[l] != i {
      assert s.promises[g.inputs[g.history[l]]].settled;
    }
    assert s.promises[p].settled && p != g.out;
    if g2.finished {
      Pigeonhole(g2.history, |g.results|) by { forall k | 0 <= k < |g2.history| ensures g2.history[k] < |g.results| {} }
      InputsAll(s, a, g2.history);
      forall k | 0 <= k < |g2.inputs| ensures Fulfilling(s2, g2.inputs[k]) && g2.results[k] == ResultOf(s2, g2.inputs[k]) {
        assert k in g2.history;
        var l :| 0 <= l < |g2.history| && g2.history[l] == k;
        InputFulfilled(s, s1, j, s2, l);
      }
      assert Results(s2, g2.inputs) == g2.results;
      hide AInv, Inv, JobOk, RunAll, AggOk, Fulfilling;
    }
  }

  /** The inputs that have run when the last of them has. */
  lemma InputFulfilled(s: State, s1: State, j: Job, s2: State, l: nat)
    requires AInv(s) && Inv(s) && Starts(s, s1, j) && JobOk(s, j) && !UserCallback(j.cb) && !j.isReject
    requires s2 == RunAll(s1, j.cb.agg, j.cb.idx, j.isReject, j.value) && j.cb.agg < |s2.aggs|
    requires j.cb.agg < |s.aggs| && j.cb.idx < |s.aggs[j.cb.agg].inputs| && j.cb.idx < |s.aggs[j.cb.agg].results|
    requires s.aggs[j.cb.agg].inputs[j.cb.idx] == s.registered[j.id].source && AggOk(s, j.cb.agg) && !s.aggs[j.cb.agg].finished
    requires j.cb.idx !in s.aggs[j.cb.agg].history
    requires l < |s2.aggs[j.cb.agg].history|
    ensures var g2 := s2.aggs[j.cb.agg];
      var k := g2.history[l];
      k < |g2.inputs| && k < |g2.results| && Fulfilling(s2, g2.inputs[k]) && g2.results[k] == ResultOf(s2, g2.inputs[k])
  {
    var a, i := j.cb.agg, j.cb.idx;
    var g := s.aggs[a];
    assert s2.aggs[a].history == g.history + [i];
    assert s.promises[g.inputs[i]].settled && g.inputs[i] != g.out;
    if l < |g.history| {
      assert s.promises[g.inputs[g.history[l]]].settled;
      PromiseOf(s, g.inputs[g.history[l]]);
    } else {
      PromiseOf(s, g.inputs[i]);
    }
  }

  lemma PromiseOf(s: State, p: nat)
    requires Base(s) && p < |s.promises|
    ensures PromiseOk(s, p)
  {}

  /** As many inputs as results, once every one has run. */
  lemma InputsAll(s: State, a: nat, h: seq<nat>)
    requires a < |s.aggs| && AggOk(s, a) && |h| == |s.aggs[a].results| && Distinct(h)
    requires forall k :: 0 <= k < |h| ==> h[k] < |s.aggs[a].inputs|
    ensures |s.aggs[a].inputs| == |s.aggs[a].results|
  {
    ElementsCard(h);
    assert Elements(h) <= Below(|s.aggs[a].inputs|);
    BelowCard(|s.aggs[a].inputs|);
    SubsetCard(Elements(h), Below(|s.aggs[a].inputs|));
  }

  /** The job of an aggregate's reaction. */
  lemma RunAllA(s: State, s1: State, j: Job)
    requires AInv(s) && Inv(s) && Starts(s, s1, j) && JobOk(s, j) && !UserCallback(j.cb) && j.id !in Ids(s.started)
    ensures AInv(RunAll(s1, j.cb.agg, j.cb.idx, j.isReject, j.value))
  {
    var a, i := j.cb.agg, j.cb.idx;
    var s2 := RunAll(s1, a, i, j.isReject, j.value);
    WhichInput(s, j);
    StartsIds(s, s1, j);
    RunAllShape(s1, a, i, j.isReject, j.value);
    RunAllOwn(s, s1, j);
    RunAllOwners(s, s1, j, s2);
    forall b | 0 <= b < |s2.aggs| ensures AggOk(s2, b) {
      if b != a {
        assert AggOk(s, b);
        FrameAgg(s, s2, b);
      }
    }
  }

  lemma RunAllOwners(s: State, s1: State, j: Job, s2: State)
    requires AInv(s) && Starts(s, s1, j) && !UserCallback(j.cb) && j.cb.agg < |s.aggs| && j.cb.idx < |s.aggs[j.cb.agg].results|
    requires s2 == RunAll(s1, j.cb.agg, j.cb.idx, j.isReject, j.value)
    ensures OwnersOk(s2) && CallbacksOk(s2)
  {
    RunAllShape(s1, j.cb.agg, j.cb.idx, j.isReject, j.value);
    forall k | 0 <= k < |s2.registered| ensures CallbackOk(s2, k) { assert CallbackOk(s, k); }
  }

  lemma ChildOwner(s: State, j: Job)
    requires OwnersOk(s) && JobOk(s, j)
    ensures j.child < |s.promises| && !s.promises[j.child].owner.ByAll?
  {}

  lemma BeginA(s: State, s1: State, j: Job)
    requires AInv(s) && Inv(s) && Starts(s, s1, j) && Inv(s1) && JobOk(s, j) && JobOk(s1, j) && j.id !in Ids(s.started)
    ensures AInv(Begin(s1, j))
  {
    hide AInv, Inv, Settle, RunAll, JobOk;
    if UserCallback(j.cb) {
      StartOther(s, s1, j);
      ChildOwnerOf(s1, j);
      if j.cb.NotFunction? { SettleA(s1, j.child, if j.isReject then Rejected else Fulfilled, j.value); }
      else { RunningA(s1, s1.running + [j]); }
    } else {
      RunAllA(s, s1, j);
      var s2 := RunAll(s1, j.cb.agg, j.cb.idx, j.isReject, j.value);
      ReasonOf(s, j);
      RunAllInv(s1, j.cb.agg, j.cb.idx, j.isReject, j.value);
      RunAllKeeps(s, s1, j);
      SettleA(s2, j.child, Fulfilled, Prim(0));
    }
  }

  lemma ChildOwnerOf(s: State, j: Job)
    requires AInv(s) && JobOk(s, j)
    ensures j.child < |s.promises| && !s.promises[j.child].owner.ByAll?
  {
    ChildOwner(s, j);
  }

  lemma ReasonOf(s: State, j: Job)
    requires AInv(s) && Inv(s) && JobOk(s, j) && !UserCallback(j.cb)
    ensures j.cb.AllReject? <==> j.isReject
  {
    WhichInput(s, j);
  }

  lemma RunAllKeeps(s: State, s1: State, j: Job)
    requires AInv(s) && Inv(s) && Starts(s, s1, j) && JobOk(s, j) && !UserCallback(j.cb)
    ensures var s2 := RunAll(s1, j.cb.agg, j.cb.idx, j.isReject, j.value);
      j.child < |s2.promises| && !s2.promises[j.child].owner.ByAll?
  {
    WhichInput(s, j);
    ChildOwner(s, j);
    RunAllShape(s1, j.cb.agg, j.cb.idx, j.isReject, j.value);
  }

  lemma RunningA(s: State, running: seq<Job>)
    requires AInv(s) && Inv(s)
    ensures AInv(s.(running := running))
  {
    FrameA(s, s.(running := running));
  }

  lemma NextA(s: State)
    requires AInv(s) && Inv(s)
    ensures AInv(DoNext(s))
  {
    hide AInv, Inv, Begin, JobOk;
    var s1 := Refill(s);
    if s.batch == [] {
      assert s.started + s.jobs + [] == s.started + s.batch + s.jobs;
      QueueInv(s, s.started, s.jobs, []);
      RefillA(s, s.jobs, []);
    }
    if s1.batch != [] {
      var j := s1.batch[0];
      var s2 := s1.(batch := s1.batch[1..], started := s1.started + [j]);
      assert s1.batch == [j] + s1.batch[1..];
      assert s1.started + [j] + s1.batch[1..] + s1.jobs == s1.started + s1.batch + s1.jobs;
      QueueInv(s1, s2.started, s2.batch, s2.jobs);
      HeadOk(s2);
      FirstOk(s1);
      NotYetStarted(s1, j);
      BeginA(s1, s2, j);
    }
  }

  lemma FirstOk(s: State)
    requires Inv(s) && s.batch != []
    ensures JobOk(s, s.batch[0]) && s.batch[0].id < |s.registered|
  {}

  lemma RefillA(s: State, batch: seq<Job>, jobs: seq<Job>)
    requires AInv(s) && Inv(s)
    ensures AInv(s.(batch := batch, jobs := jobs))
  {
    FrameA(s, s.(batch := batch, jobs := jobs));
  }

  lemma FinishA(s: State, state: PState, v: Value)
    requires AInv(s) && Inv(s) && !state.Pending?
    ensures AInv(Finish(s, state, v))
  {
    if s.running != [] {
      var j, rest := s.running[|s.running| - 1], s.running[..|s.running| - 1];
      assert JobOk(s, j);
      ChildOwner(s, j);
      RunningInv(s, rest, j);
      RunningA(s, rest);
      hide AInv, Inv;
      SettleA(s.(running := rest), j.child, state, v);
    }
  }

  /** The constructor is applied to the promise a Promise.all is to settle. */
  predicate Takes(s: State, op: Op) { op.Construct? && op.p < |s.promises| && s.promises[op.p].owner.ByAll? }

  /** No step of the run constructs on a promise that is settled or has reactions, or that is a Promise.all's. */
  predicate NeverDisturbs(s: State, ops: seq<Op>)
    decreases |ops|
  {
    ops == [] || (!Resets(s, ops[0]) && !Takes(s, ops[0]) && NeverDisturbs(Step(s, ops[0]), ops[1..]))
  }

  lemma {:induction false} DisturbsNever(s: State, ops: seq<Op>)
    requires NeverDisturbs(s, ops)
    ensures NeverResets(s, ops)
    decreases |ops|
  {
    hide Step, Resets, Takes;
    if ops != [] { DisturbsNever(Step(s, ops[0]), ops[1..]); }
  }

  /** Constructing on a pending promise nothing waits on only hands it over. */
  lemma ConstructA(s: State, p: nat)
    requires AInv(s) && Inv(s) && p < |s.promises| && !Resets(s, Construct(p)) && !Takes(s, Construct(p))
    ensures AInv(Step(s, Construct(p)))
  {
    BaseOf(s);
    assert PromiseOk(s, p);
    FrameA(s, Step(s, Construct(p)));
  }

  lemma StepA(s: State, op: Op)
    requires AInv(s) && Inv(s) && Complete(s) && !Resets(s, op) && !Takes(s, op)
    ensures AInv(Step(s, op)) && Complete(Step(s, op))
  {
    hide AInv, Inv, Settle, DoThen, DoAll, DoNext, Finish;
    match op
    case NewPromise => NewA(s, ByResolvers);
    case Construct(p) => if p < |s.promises| { ConstructA(s, p); }
    case Resolve(p, v) => if p < |s.promises| && s.promises[p].owner.ByResolvers? { SettleA(s, p, Fulfilled, v); SettleGrows(s, p, Fulfilled, v); }
    case Reject(p, v) => if p < |s.promises| && s.promises[p].owner.ByResolvers? { SettleA(s, p, Rejected, v); SettleGrows(s, p, Rejected, v); }
    case Then(p, f, r) => if p < |s.promises| && UserCallback(f) && UserCallback(r) { ThenA(s, p, f, r); ThenShape(s, p, f, r); }
    case All(inputs) => AllA(s, inputs);
    case Next => NextA(s); NextComplete(s);
    case Return(v) => FinishA(s, Fulfilled, v); FinishComplete(s, Fulfilled, v);
    case Fail(v) => FinishA(s, Rejected, v); FinishComplete(s, Rejected, v);
  }

  lemma FinishComplete(s: State, state: PState, v: Value)
    requires Complete(s)
    ensures Complete(Finish(s, state, v))
  {}

  lemma NextComplete(s: State)
    requires Complete(s)
    ensures Complete(DoNext(s))
  {
    hide Settle;
    var s1 := Refill(s);
    if s1.batch != [] {
      var j := s1.batch[0];
      var s2 := s1.(batch := s1.batch[1..], started := s1.started + [j]);
      SettleGrows(s2, j.child, if j.isReject then Rejected else Fulfilled, j.value);
      if j.cb.AllFulfil? || j.cb.AllReject? { RunAllComplete(s2, j.cb.agg, j.cb.idx, j.cb.AllReject?, j.value, j.child); }
    }
  }

  lemma RunAllComplete(s: State, a: nat, idx: nat, isReject: bool, v: Value, child: nat)
    requires Complete(s)
    ensures Complete(Settle(RunAll(s, a, idx, isReject, v), child, Fulfilled, Prim(0)))
  {
    SettleGrows(RunAll(s, a, idx, isReject, v), child, Fulfilled, Prim(0));
    if a < |s.aggs| && idx < |s.aggs[a].results| { RunAllShape(s, a, idx, isReject, v); }
  }

  lemma {:induction false} RunA(s: State, ops: seq<Op>)
    requires AInv(s) && Inv(s) && Complete(s) && NeverDisturbs(s, ops)
    ensures AInv(Run(s, ops)) && Inv(Run(s, ops)) && Complete(Run(s, ops))
    decreases |ops|
  {
    hide AInv, Inv, Step, Complete;
    if ops != [] {
      StepA(s, ops[0]);
      StepInv(s, ops[0]);
      RunA(Step(s, ops[0]), ops[1..]);
    }
  }

  // ---------- The theorem ----------

  predicate InputsSettled(s: State, g: Agg) {
    forall i :: 0 <= i < |g.inputs| ==> g.inputs[i] < |s.promises| && s.promises[g.inputs[i]].settled
  }

  /** Every input's reaction has run, and all of them were fulfilled. */
  predicate AllRanFulfilled(s: State, g: Agg) {
    && (forall i :: 0 <= i < |g.results| ==> i in g.history)
    && forall i :: 0 <= i < |g.inputs| ==> Fulfilling(s, g.inputs[i])
  }

  /** The reaction on some rejected input has run. */
  predicate SomeRanRejected(s: State, g: Agg) {
    exists k :: 0 <= k < |g.history| && g.history[k] < |g.inputs| && Rejecting(s, g.inputs[g.history[k]])
  }

  /** In every run, at every moment, whatever inputs are still pending: Promise.all is settled exactly when
      the reactions of all inputs have run, all fulfilled, or the reaction on a rejected one has; then it is
      fulfilled, with the inputs' results in the order of the inputs, in the first case and rejected, with
      the result of the first rejected input whose reaction ran, in the second. */
  lemma AllOutcome(ops: seq<Op>, a: nat)
    requires a < |Run(EMPTY, ops).aggs| && NeverDisturbs(EMPTY, ops)
    ensures var s := Run(EMPTY, ops); var g := s.aggs[a];
      && g.out < |s.promises| && |g.inputs| == |g.results|
      && (s.promises[g.out].settled <==> AllRanFulfilled(s, g) || SomeRanRejected(s, g))
      && (s.promises[g.out].state.Fulfilled? <==> AllRanFulfilled(s, g))
      && (s.promises[g.out].state.Rejected? <==> SomeRanRejected(s, g))
      && (AllRanFulfilled(s, g) ==> s.promises[g.out].result == Arr(Results(s, g.inputs)))
      && (SomeRanRejected(s, g) ==> exists k :: 0 <= k < |g.history| && FirstRejection(s, g, k))
  {
    StartInv();
    assert AInv(EMPTY);
    RunA(EMPTY, ops);
    var s := Run(EMPTY, ops);
    hide Run;
    assert AggOk(s, a);
    OutcomeExact(s, a);
  }

  lemma OutcomeExact(s: State, a: nat)
    requires a < |s.aggs| && AggOk(s, a) && Base(s) && Complete(s)
    ensures var g := s.aggs[a];
      && g.out < |s.promises| && |g.inputs| == |g.results|
      && (s.promises[g.out].settled <==> AllRanFulfilled(s, g) || SomeRanRejected(s, g))
      && (s.promises[g.out].state.Fulfilled? <==> AllRanFulfilled(s, g))
      && (s.promises[g.out].state.Rejected? <==> SomeRanRejected(s, g))
      && (AllRanFulfilled(s, g) ==> s.promises[g.out].result == Arr(Results(s, g.inputs)))
      && (SomeRanRejected(s, g) ==> exists k :: 0 <= k < |g.history| && FirstRejection(s, g, k))
  {
    var g := s.aggs[a];
    PromiseOf(s, g.out);
    if g.finished {
      FinishedExact(s, a);
    } else {
      PendingExact(s, a);
    }
  }

  lemma FinishedExact(s: State, a: nat)
    requires a < |s.aggs| && AggOk(s, a) && s.aggs[a].finished && |s.aggs[a].inputs| == |s.aggs[a].results|
    ensures var g := s.aggs[a];
      && g.out < |s.promises| && s.promises[g.out].settled && (AllRanFulfilled(s, g) <==> !SomeRanRejected(s, g))
      && (AllRanFulfilled(s, g) ==> s.promises[g.out].state.Fulfilled? && s.promises[g.out].result == Arr(Results(s, g.inputs)))
      && (SomeRanRejected(s, g) ==> s.promises[g.out].state.Rejected? && exists k :: 0 <= k < |g.history| && FirstRejection(s, g, k))
  {
    var g := s.aggs[a];
    if AllFulfilled(s, g) {
      RanAll(s, a);
      hide HistoryOk, Wired, Hooked;
    } else {
      var k :| 0 <= k < |g.history| && FirstRejection(s, g, k);
      assert Rejecting(s, g.inputs[g.history[k]]) && !Fulfilling(s, g.inputs[g.history[k]]);
      hide HistoryOk, Wired, Hooked, Fulfilling, AllFulfilled;
    }
  }

  /** As many runs as inputs, none twice: all of them. */
  lemma RanAll(s: State, a: nat)
    requires a < |s.aggs| && HistoryOk(s, a) && Wired(s, a) && |s.aggs[a].history| == |s.aggs[a].results|
    ensures forall i :: 0 <= i < |s.aggs[a].results| ==> i in s.aggs[a].history
  {
    hide Hooked, Rejecting;
    Pigeonhole(s.aggs[a].history, |s.aggs[a].results|);
  }

  lemma PendingExact(s: State, a: nat)
    requires a < |s.aggs| && AggOk(s, a) && !s.aggs[a].finished && |s.aggs[a].inputs| == |s.aggs[a].results|
    ensures var g := s.aggs[a]; g.out < |s.promises| && !s.promises[g.out].settled && !AllRanFulfilled(s, g) && !SomeRanRejected(s, g)
  {
    var g := s.aggs[a];
    if AllRanFulfilled(s, g) {
      ElementsCard(g.history);
      assert Below(|g.results|) <= Elements(g.history);
      BelowCard(|g.results|);
      SubsetCard(Below(|g.results|), Elements(g.history));
    }
  }

  /** Constructing on the promise of a Promise.all that is under way and nothing waits on takes this away: its
      next resolution settles it, whatever the inputs. */
  lemma TakenFails(ops: seq<Op>, a: nat, v: Value)
    requires a < |Run(EMPTY, ops).aggs| && NeverDisturbs(EMPTY, ops)
    requires var s := Run(EMPTY, ops); var out := s.aggs[a].out;
      out < |s.promises| && !s.promises[out].settled && s.promises[out].reactions == []
    ensures var s := Run(EMPTY, ops); var out := s.aggs[a].out;
      var s2 := Step(Step(s, Construct(out)), Resolve(out, v));
      && Takes(s, Construct(out)) && !Resets(s, Construct(out)) && a < |s2.aggs| && out < |s2.promises|
      && s2.promises[out].settled && !AllRanFulfilled(s2, s2.aggs[a]) && !SomeRanRejected(s2, s2.aggs[a])
  {
    StartInv();
    assert AInv(EMPTY);
    RunA(EMPTY, ops);
    var s := Run(EMPTY, ops);
    hide Run;
    var g := s.aggs[a];
    assert AggOk(s, a);
    OutcomeExact(s, a);
    var s2 := Step(Step(s, Construct(g.out)), Resolve(g.out, v));
    assert s2.aggs == s.aggs && forall p :: 0 <= p < |s.promises| && p != g.out ==> s2.promises[p] == s.promises[p];
    StillPending(s, s2, a);
  }

  /** What an aggregate's own promise is does not decide which inputs have run. */
  lemma StillPending(s: State, s2: State, a: nat)
    requires a < |s.aggs| && AggOk(s, a) && s2.aggs == s.aggs && |s2.promises| == |s.promises| && Complete(s)
    requires s.aggs[a].out < |s.promises| && !s.promises[s.aggs[a].out].settled
    requires forall p :: 0 <= p < |s.promises| && p != s.aggs[a].out ==> s2.promises[p] == s.promises[p]
    ensures AllRanFulfilled(s2, s2.aggs[a]) ==> AllRanFulfilled(s, s.aggs[a])
    ensures SomeRanRejected(s2, s2.aggs[a]) ==> SomeRanRejected(s, s.aggs[a])
  {
    var g := s.aggs[a];
    if forall i :: 0 <= i < |g.results| ==> i in g.history {
      forall i | 0 <= i < |g.inputs| ensures Fulfilling(s, g.inputs[i]) == Fulfilling(s2, g.inputs[i]) {
        assert i in g.history;
        var k :| 0 <= k < |g.history| && g.history[k] == i;
        assert s.promises[g.inputs[g.history[k]]].settled;
      }
    }
  }

  /** Once its inputs are settled and the queue is empty, Promise.all is settled, and fulfilled exactly when
      all of them are. */
  lemma AllSettles(ops: seq<Op>, a: nat)
    requires a < |Run(EMPTY, ops).aggs| && NeverDisturbs(EMPTY, ops)
    requires Run(EMPTY, ops).batch == [] && Run(EMPTY, ops).jobs == []
    requires InputsSettled(Run(EMPTY, ops), Run(EMPTY, ops).aggs[a])
    ensures var s := Run(EMPTY, ops); var g := s.aggs[a];
      && g.out < |s.promises| && s.promises[g.out].settled
      && (s.promises[g.out].state.Fulfilled? <==> forall i :: 0 <= i < |g.inputs| ==> Fulfilling(s, g.inputs[i]))
  {
    StartInv();
    assert AInv(EMPTY);
    RunA(EMPTY, ops);
    var s := Run(EMPTY, ops);
    var g := s.aggs[a];
    hide Run;
    AllRan(s, a);
    OutcomeExact(s, a);
    if !(forall i :: 0 <= i < |g.inputs| ==> Fulfilling(s, g.inputs[i])) {
      var i :| 0 <= i < |g.inputs| && !Fulfilling(s, g.inputs[i]);
      PromiseOf(s, g.inputs[i]);
      assert i in g.history;
      var k :| 0 <= k < |g.history| && g.history[k] == i;
      assert Rejecting(s, g.inputs[g.history[k]]);
    }
  }

  /** With an empty queue every reaction on a settled input has started. */
  lemma AllRan(s: State, a: nat)
    requires AInv(s) && Inv(s) && a < |s.aggs| && s.batch == [] && s.jobs == []
    requires InputsSettled(s, s.aggs[a])
    ensures forall i :: 0 <= i < |s.aggs[a].ids| ==> i in s.aggs[a].history
  {
    var g := s.aggs[a];
    assert AggOk(s, a);
    forall i | 0 <= i < |g.ids| ensures g.ids[i] in Ids(s.started) {
      assert Hooked(s, a, i);
      RanOn(s, g.inputs[i], g.ids[i]);
    }
  }

  lemma RanOn(s: State, p: nat, id: nat)
    requires Inv(s) && s.batch == [] && s.jobs == [] && p < |s.promises| && s.promises[p].settled
    requires id < |s.registered| && s.registered[id].source == p
    ensures id in Ids(s.started)
  {
    assert Kept(s, p) && PromiseOk(s, p);
    assert Log(s) == Ids(s.started);
    assert UpTo(|s.registered|)[id] == id;
    InOf(s.registered, UpTo(|s.registered|), id, p);
    var l :| 0 <= l < |Of(s.registered, UpTo(|s.registered|), p)| && Of(s.registered, UpTo(|s.registered|), p)[l] == id;
    OfFrom(s.registered, Ids(s.started), p, id);
  }

  lemma {:induction false} OfFrom(reg: seq<Reg>, ids: seq<nat>, p: nat, id: nat)
    ensures id in Of(reg, ids, p) ==> id in ids
  {
    if ids != [] { OfFrom(reg, ids[..|ids| - 1], p, id); }
  }
}
