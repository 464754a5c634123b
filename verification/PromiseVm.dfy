/** The promise operations as the engine performs them, on records updated in place. */
module PromiseVm {
  import opened PromiseMachine

  class Vm {
    var promises: seq<Promise>
    var batch: seq<Job>
    var jobs: seq<Job>
    var running: seq<Job>
    var aggs: seq<Agg>
    ghost var registered: seq<Reg>
    ghost var started: seq<Job>
    var thens: nat

    ghost predicate Valid()
      reads this
    {
      thens == |registered|
    }

    ghost function Now(): State
      reads this
    {
      State.State(promises, batch, jobs, running, aggs, registered, started)
    }

    constructor ()
      ensures Valid() && Now() == EMPTY
    {
      promises, batch, jobs, running, aggs, registered, started, thens := [], [], [], [], [], [], [], 0;
    }

    method NewPromise(owner: Owner) returns (h: nat)
      modifies this`promises
      ensures h == |old(promises)| && Now() == old(Now()).(promises := old(promises) + [Fresh(owner)])
    {
      h := |promises|;
      promises := promises + [Fresh(owner)];
    }

    /** The constructor with a promise as its receiver: the record is replaced, whatever it held. */
    method Construct(p: nat)
      requires p < |promises|
      modifies this`promises
      ensures Now() == Step(old(Now()), Op.Construct(p))
    {
      promises := promises[p := Fresh(ByResolvers)];
    }

    method EnqueueReaction(cb: Callback, value: Value, child: nat, isReject: bool, id: nat)
      modifies this`jobs
      ensures jobs == old(jobs) + [Job(cb, value, child, isReject, id)]
    {
      jobs := jobs + [Job(cb, value, child, isReject, id)];
    }

    method SettlePromise(p: nat, state: PState, result: Value)
      modifies this`promises, this`jobs
      ensures Now() == Settle(old(Now()), p, state, result)
    {
      if p >= |promises| || promises[p].settled { return; }
      var reactions := promises[p].reactions;
      promises := promises[p := promises[p].(settled := true, state := state, result := result, reactions := [])];
      ghost var queue := EnqueueAll(reactions, state, result);
      for i := 0 to |reactions|
        invariant promises == old(promises)[p := old(promises[p]).(settled := true, state := state, result := result, reactions := [])]
        invariant jobs == old(jobs) + queue[..i]
      {
        var r := reactions[i];
        if state == Fulfilled {
          EnqueueReaction(r.onFulfilled, result, r.child, false, r.id);
        } else {
          EnqueueReaction(r.onRejected, result, r.child, true, r.id);
        }
        assert queue[..i + 1] == queue[..i] + [queue[i]];
      }
      assert queue[..|reactions|] == queue;
    }

    method Then(p: nat, onFulfilled: Callback, onRejected: Callback) returns (child: nat)
      requires Valid() && p < |promises|
      modifies this`promises, this`jobs, this`registered, this`thens
      ensures Valid() && Now() == DoThen(old(Now()), p, onFulfilled, onRejected)
      ensures child == |old(promises)| && thens == old(thens) + 1
    {
      var id := thens;
      child := NewPromise(ByReaction);
      registered := registered + [Reg(p, onFulfilled, onRejected, child)];
      thens := thens + 1;
      match promises[p].state
      case Fulfilled => EnqueueReaction(onFulfilled, promises[p].result, child, false, id);
      case Rejected => EnqueueReaction(onRejected, promises[p].result, child, true, id);
      case Pending =>
        promises := promises[p := promises[p].(reactions := promises[p].reactions + [Reaction(onFulfilled, onRejected, child, id)])];
    }

    // ---------- Promise.all ----------

    method AllFulfilled(a: nat, idx: nat, v: Value)
      modifies this`promises, this`jobs, this`aggs
      ensures Now() == RunAll(old(Now()), a, idx, false, v)
    {
      if a >= |aggs| || idx >= |aggs[a].results| { return; }
      Note(a, idx);
      if aggs[a].finished { return; }
      aggs := aggs[a := aggs[a].(results := aggs[a].results[idx := v])];
      aggs := aggs[a := aggs[a].(remaining := if aggs[a].remaining > 0 then aggs[a].remaining - 1 else 0)];
      if aggs[a].remaining == 0 {
        aggs := aggs[a := aggs[a].(finished := true)];
        SettlePromise(aggs[a].out, Fulfilled, Arr(aggs[a].results));
      }
    }

    method AllRejected(a: nat, idx: nat, v: Value)
      modifies this`promises, this`jobs, this`aggs
      ensures Now() == RunAll(old(Now()), a, idx, true, v)
    {
      if a >= |aggs| || idx >= |aggs[a].results| { return; }
      Note(a, idx);
      if aggs[a].finished { return; }
      aggs := aggs[a := aggs[a].(finished := true)];
      SettlePromise(aggs[a].out, Rejected, v);
    }

    method Note(a: nat, idx: nat)
      requires a < |aggs|
      modifies this`aggs
      ensures aggs == old(aggs)[a := old(aggs[a]).(history := old(aggs[a].history) + [idx])]
    {
      aggs := aggs[a := aggs[a].(history := aggs[a].history + [idx])];
    }

    method All(inputs: seq<Value>) returns (out: nat)
      requires Valid()
      modifies this`promises, this`jobs, this`aggs, this`registered, this`thens
      ensures Valid() && out == |old(promises)| && Now() == DoAll(old(Now()), inputs)
    {
      hide Settle, Input, DoThen;
      if inputs == [] {
        out := NewPromise(ByReaction);
        SettlePromise(out, Fulfilled, Arr([]));
        return;
      }
      out := NewPromise(ByAll);
      var a := |aggs|;
      aggs := aggs + [Agg(out, [], [], seq(|inputs|, _ => Prim(0)), |inputs|, false, [])];
      for i := 0 to |inputs|
        invariant Valid() && |aggs| == a + 1
        invariant Hook(Now(), a, inputs, i) == DoAll(old(Now()), inputs)
      {
        var p := InputPromise(inputs[i]);
        HookOn(a, i, p);
      }
    }

    static ghost function HookNext(s: State, p: nat, a: nat, i: nat): State
      requires p < |s.promises| && a < |s.aggs|
    {
      var s2 := DoThen(s, p, AllFulfil(a, i), AllReject(a, i));
      var g := s2.aggs[a];
      s2.(aggs := s2.aggs[a := g.(inputs := g.inputs + [p], ids := g.ids + [|s.registered|])])
    }

    method InputPromise(v: Value) returns (p: nat)
      requires Valid()
      modifies this`promises, this`jobs
      ensures Valid() && (Now(), p) == Input(old(Now()), v) && p < |promises|
    {
      if v.Ref? && v.p < |promises| { return v.p; }
      p := NewPromise(ByResolvers);
      SettlePromise(p, Fulfilled, v);
    }

    method HookOn(a: nat, i: nat, p: nat)
      requires Valid() && p < |promises| && a < |aggs|
      modifies this`promises, this`jobs, this`aggs, this`registered, this`thens
      ensures Valid() && Now() == HookNext(old(Now()), p, a, i) && |aggs| == old(|aggs|)
    {
      var id := thens;
      var _ := Then(p, AllFulfil(a, i), AllReject(a, i));
      aggs := aggs[a := aggs[a].(inputs := aggs[a].inputs + [p], ids := aggs[a].ids + [id])];
    }

    // ---------- Microtasks ----------

    /** One turn of the loop that runs the queue; a user callback starts and is left running. */
    method NextJob()
      modifies this`promises, this`jobs, this`batch, this`running, this`aggs, this`started
      ensures Now() == DoNext(old(Now()))
    {
      if batch == [] { batch, jobs := jobs, []; }
      if batch == [] { return; }
      var j := batch[0];
      batch, started := batch[1..], started + [j];
      match j.cb
      case NotFunction => SettlePromise(j.child, if j.isReject then Rejected else Fulfilled, j.value);
      case User(_) => running := running + [j];
      case AllFulfil(a, i) => AllFulfilled(a, i, j.value); SettlePromise(j.child, Fulfilled, Prim(0));
      case AllReject(a, i) => AllRejected(a, i, j.value); SettlePromise(j.child, Fulfilled, Prim(0));
    }

    /** The end of the running user callback. */
    method EndJob(thrown: bool, v: Value)
      modifies this`promises, this`jobs, this`running
      ensures Now() == Finish(old(Now()), if thrown then Rejected else Fulfilled, v)
    {
      if running == [] { return; }
      var j := running[|running| - 1];
      running := running[..|running| - 1];
      SettlePromise(j.child, if thrown then Rejected else Fulfilled, v);
    }

    method Perform(op: Op)
      requires Valid()
      modifies this
      ensures Valid() && Now() == Step(old(Now()), op)
    {
      match op
      case NewPromise => var _ := NewPromise(ByResolvers);
      case Construct(p) => if p < |promises| { Construct(p); }
      case Resolve(p, v) => if p < |promises| && promises[p].owner.ByResolvers? { SettlePromise(p, Fulfilled, v); }
      case Reject(p, v) => if p < |promises| && promises[p].owner.ByResolvers? { SettlePromise(p, Rejected, v); }
      case Then(p, f, r) => if p < |promises| && UserCallback(f) && UserCallback(r) { var _ := Then(p, f, r); }
      case All(inputs) => var _ := All(inputs);
      case Next => NextJob();
      case Return(v) => EndJob(false, v);
      case Fail(v) => EndJob(true, v);
    }
  }
}
