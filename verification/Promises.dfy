/**
 Promise settlement and the microtask queue, as a protocol: every operation a program can
 perform is a step, user callbacks being whatever happens between the start and the end of
 their job.
 */
module PromiseMachine {

  datatype Value = Prim(n: int) | Ref(p: nat) | Arr(items: seq<Value>)

  datatype PState = Pending | Fulfilled | Rejected

  datatype Callback = NotFunction | User(id: nat) | AllFulfil(agg: nat, idx: nat) | AllReject(agg: nat, idx: nat)

  /** A reaction carries the number of the `then` call that registered it. */
  datatype Reaction = Reaction(onFulfilled: Callback, onRejected: Callback, child: nat, id: nat)

  /** Who may settle a promise: its resolver functions, the job of a reaction, or an aggregate. */
  datatype Owner = ByResolvers | ByReaction | ByAll

  datatype Promise = Promise(state: PState, result: Value, reactions: seq<Reaction>, settled: bool, owner: Owner)

  datatype Job = Job(cb: Callback, value: Value, child: nat, isReject: bool, id: nat)

  /** A Promise.all in progress; `history` lists the inputs whose reactions have run. */
  datatype Agg = Agg(out: nat, inputs: seq<nat>, ids: seq<nat>, results: seq<Value>, remaining: nat, finished: bool,
                     history: seq<nat>)

  /** What a `then` call registered, and on which promise. */
  datatype Reg = Reg(source: nat, onFulfilled: Callback, onRejected: Callback, child: nat)

  datatype State = State(promises: seq<Promise>, batch: seq<Job>, jobs: seq<Job>, running: seq<Job>, aggs: seq<Agg>,
                         registered: seq<Reg>, started: seq<Job>)

  datatype Op =
    | NewPromise
    | Construct(p: nat)              // the constructor called as a function on a promise there is
    | Resolve(p: nat, v: Value)
    | Reject(p: nat, v: Value)
    | Then(p: nat, onFulfilled: Callback, onRejected: Callback)
    | All(inputs: seq<Value>)
    | Next                           // the queue's next job starts
    | Return(v: Value)               // the running user callback returns
    | Fail(v: Value)                 // or throws

  const EMPTY: State := State([], [], [], [], [], [], [])

  function Fresh(owner: Owner): Promise { Promise(Pending, Prim(0), [], false, owner) }

  // ---------- Settling ----------

  function Enqueue(r: Reaction, state: PState, v: Value): Job {
    if state.Fulfilled? then Job(r.onFulfilled, v, r.child, false, r.id) else Job(r.onRejected, v, r.child, true, r.id)
  }

  function EnqueueAll(rs: seq<Reaction>, state: PState, v: Value): (js: seq<Job>)
    ensures |js| == |rs| && forall i :: 0 <= i < |rs| ==> js[i] == Enqueue(rs[i], state, v)
  {
    seq(|rs|, i requires 0 <= i < |rs| => Enqueue(rs[i], state, v))
  }

  /** The first settlement wins; it queues the reactions in order. */
  function Settle(s: State, p: nat, state: PState, v: Value): State {
    if p >= |s.promises| || s.promises[p].settled then s
    else
      var q := s.promises[p];
      s.(promises := s.promises[p := q.(state := state, result := v, reactions := [], settled := true)],
         jobs := s.jobs + EnqueueAll(q.reactions, state, v))
  }

  /** Registers a reaction with a child promise of its own. */
  function DoThen(s: State, p: nat, onF: Callback, onR: Callback): State
    requires p < |s.promises|
  {
    var child, id := |s.promises|, |s.registered|;
    var r := Reaction(onF, onR, child, id);
    var q := s.promises[p];
    var s1 := s.(promises := s.promises + [Fresh(ByReaction)], registered := s.registered + [Reg(p, onF, onR, child)]);
    if q.state.Pending? then s1.(promises := s1.promises[p := q.(reactions := q.reactions + [r])])
    else s1.(jobs := s.jobs + [Enqueue(r, q.state, q.result)])
  }

  // ---------- Promise.all ----------

  /** The promise an input stands for; any other value is wrapped in a fulfilled one. */
  function Input(s: State, v: Value): (State, nat) {
    if v.Ref? && v.p < |s.promises| then (s, v.p)
    else
      var p := |s.promises|;
      (Settle(s.(promises := s.promises + [Fresh(ByResolvers)]), p, Fulfilled, v), p)
  }

  /** Hooks the aggregate a onto its inputs from the i-th on. */
  function Hook(s: State, a: nat, inputs: seq<Value>, i: nat): State
    requires a < |s.aggs|
    decreases |inputs| - i
  {
    if i >= |inputs| then s
    else
      var (s1, p) := Input(s, inputs[i]);
      if p >= |s1.promises| || a >= |s1.aggs| then s
      else
        var id := |s1.registered|;
        var s2 := DoThen(s1, p, AllFulfil(a, i), AllReject(a, i));
        var g := s2.aggs[a];
        Hook(s2.(aggs := s2.aggs[a := g.(inputs := g.inputs + [p], ids := g.ids + [id])]), a, inputs, i + 1)
  }

  function DoAll(s: State, inputs: seq<Value>): State {
    var out := |s.promises|;
    if inputs == [] then Settle(s.(promises := s.promises + [Fresh(ByReaction)]), out, Fulfilled, Arr([]))
    else
      var s1 := s.(promises := s.promises + [Fresh(ByAll)]);
      var a := |s.aggs|;
      var g := Agg(out, [], [], seq(|inputs|, _ => Prim(0)), |inputs|, false, []);
      Hook(s1.(aggs := s.aggs + [g]), a, inputs, 0)
  }

  /** The aggregate's callback for input idx. */
  function RunAll(s: State, a: nat, idx: nat, isReject: bool, v: Value): State {
    if a >= |s.aggs| || idx >= |s.aggs[a].results| then s
    else
      var g := s.aggs[a].(history := s.aggs[a].history + [idx]);
      if g.finished then s.(aggs := s.aggs[a := g])
      else if isReject then Settle(s.(aggs := s.aggs[a := g.(finished := true)]), g.out, Rejected, v)
      else
        var results := g.results[idx := v];
        var left := if g.remaining > 0 then g.remaining - 1 else 0;
        var g1 := g.(results := results, remaining := left, finished := left == 0);
        var s1 := s.(aggs := s.aggs[a := g1]);
        if left == 0 then Settle(s1, g.out, Fulfilled, Arr(results)) else s1
  }

  // ---------- The queue ----------

  /** Starts a job: built-in callbacks are over at once, a user's goes on. */
  function Begin(s: State, j: Job): State {
    match j.cb
    case NotFunction => Settle(s, j.child, if j.isReject then Rejected else Fulfilled, j.value)
    case User(_) => s.(running := s.running + [j])
    case AllFulfil(a, i) => Settle(RunAll(s, a, i, false, j.value), j.child, Fulfilled, Prim(0))
    case AllReject(a, i) => Settle(RunAll(s, a, i, true, j.value), j.child, Fulfilled, Prim(0))
  }

  /** Takes the next job of the batch, or makes the jobs queued meanwhile the next batch. */
  function Refill(s: State): State { if s.batch == [] then s.(batch := s.jobs, jobs := []) else s }

  function DoNext(s: State): State {
    var s1 := Refill(s);
    if s1.batch == [] then s1
    else Begin(s1.(batch := s1.batch[1..], started := s1.started + [s1.batch[0]]), s1.batch[0])
  }

  function Finish(s: State, state: PState, v: Value): State {
    if s.running == [] then s
    else Settle(s.(running := s.running[..|s.running| - 1]), s.running[|s.running| - 1].child, state, v)
  }

  predicate UserCallback(c: Callback) { c.NotFunction? || c.User? }

  function Step(s: State, op: Op): State {
    match op
    case NewPromise => s.(promises := s.promises + [Fresh(ByResolvers)])
    case Construct(p) => if p < |s.promises| then s.(promises := s.promises[p := Fresh(ByResolvers)]) else s
    case Resolve(p, v) => if p < |s.promises| && s.promises[p].owner.ByResolvers? then Settle(s, p, Fulfilled, v) else s
    case Reject(p, v) => if p < |s.promises| && s.promises[p].owner.ByResolvers? then Settle(s, p, Rejected, v) else s
    case Then(p, f, r) => if p < |s.promises| && UserCallback(f) && UserCallback(r) then DoThen(s, p, f, r) else s
    case All(inputs) => DoAll(s, inputs)
    case Next => DoNext(s)
    case Return(v) => Finish(s, Fulfilled, v)
    case Fail(v) => Finish(s, Rejected, v)
  }

  function Run(s: State, ops: seq<Op>): State
    decreases |ops|
  {
    if ops == [] then s else Run(Step(s, ops[0]), ops[1..])
  }
}

/** What every run keeps: one settlement per promise, each reaction once and in order. */
module PromiseRuns {
  import opened PromiseMachine

  // ---------- Invariant ----------

  predicate PromiseOk(s: State, p: nat)
    requires p < |s.promises|
  {
    var q := s.promises[p];
    && (q.settled <==> !q.state.Pending?) && (q.settled ==> q.reactions == [])
    && forall k :: 0 <= k < |q.reactions| ==> ReactionOk(s, p, q.reactions[k])
  }

  predicate ReactionOk(s: State, p: nat, r: Reaction) {
    r.id < |s.registered| && s.registered[r.id] == Reg(p, r.onFulfilled, r.onRejected, r.child)
  }

  /** A job belongs to a settled promise and carries its result. */
  predicate JobOk(s: State, j: Job) {
    && j.id < |s.registered|
    && var g := s.registered[j.id];
       && g.source < |s.promises| && s.promises[g.source].settled
       && j == Enqueue(Reaction(g.onFulfilled, g.onRejected, g.child, j.id), s.promises[g.source].state, s.promises[g.source].result)
  }

  predicate JobsOk(s: State, js: seq<Job>) { forall k :: 0 <= k < |js| ==> JobOk(s, js[k]) }

  ghost predicate Base(s: State) {
    && (forall p :: 0 <= p < |s.promises| ==> PromiseOk(s, p))
    && JobsOk(s, s.started) && JobsOk(s, s.batch) && JobsOk(s, s.jobs) && JobsOk(s, s.running)
    && (forall k :: 0 <= k < |s.registered| ==> s.registered[k].source < |s.promises| && s.registered[k].child < |s.promises|)
  }

  /** The ids among `ids` that were registered on promise p. */
  function Of(reg: seq<Reg>, ids: seq<nat>, p: nat): seq<nat> {
    if ids == [] then []
    else
      var n := |ids| - 1;
      Of(reg, ids[..n], p) + if ids[n] < |reg| && reg[ids[n]].source == p then [ids[n]] else []
  }

  function Ids(js: seq<Job>): (r: seq<nat>)
    ensures |r| == |js|
  {
    seq(|js|, i requires 0 <= i < |js| => js[i].id)
  }

  function ReactionIds(rs: seq<Reaction>): (r: seq<nat>)
    ensures |r| == |rs|
  {
    seq(|rs|, i requires 0 <= i < |rs| => rs[i].id)
  }

  function UpTo(n: nat): (r: seq<nat>)
    ensures |r| == n
  {
    seq(n, i => i)
  }

  /** Every job queued so far, started ones first. */
  function Log(s: State): seq<nat> { Ids(s.started) + Ids(s.batch) + Ids(s.jobs) }

  /** The promise's reactions queued so far and those still waiting are the registered ones, in order. */
  predicate Kept(s: State, p: nat)
    requires p < |s.promises|
  {
    Of(s.registered, Log(s), p) + ReactionIds(s.promises[p].reactions) == Of(s.registered, UpTo(|s.registered|), p)
  }

  ghost predicate Conserved(s: State) { forall p :: 0 <= p < |s.promises| ==> Kept(s, p) }

  ghost predicate Inv(s: State) { Base(s) && Conserved(s) }

  // ---------- Lists ----------

  lemma {:induction false} OfCat(reg: seq<Reg>, a: seq<nat>, b: seq<nat>, p: nat)
    ensures Of(reg, a + b, p) == Of(reg, a, p) + Of(reg, b, p)
  {
    if b == [] {
      assert a + b == a;
    } else {
      var n := |b| - 1;
      assert (a + b)[..|a + b| - 1] == a + b[..n];
      OfCat(reg, a, b[..n], p);
    }
  }

  lemma {:induction false} OfMore(reg: seq<Reg>, x: Reg, ids: seq<nat>, p: nat)
    requires forall k :: 0 <= k < |ids| ==> ids[k] < |reg|
    ensures Of(reg + [x], ids, p) == Of(reg, ids, p)
  {
    if ids != [] { OfMore(reg, x, ids[..|ids| - 1], p); }
  }

  /** All of one promise, or none. */
  lemma {:induction false} OfAll(reg: seq<Reg>, ids: seq<nat>, p: nat, q: nat)
    requires forall k :: 0 <= k < |ids| ==> ids[k] < |reg| && reg[ids[k]].source == q
    ensures Of(reg, ids, p) == if p == q then ids else []
  {
    if ids != [] {
      var n := |ids| - 1;
      var front, last := ids[..n], ids[n];
      OfAll(reg, front, p, q);
      assert reg[last].source == q;
      assert Of(reg, ids, p) == Of(reg, front, p) + if p == q then [last] else [];
      hide Of;
      assert ids == front + [last];
    }
  }

  lemma OfNext(reg: seq<Reg>, x: Reg, p: nat)
    ensures Of(reg + [x], UpTo(|reg| + 1), p) == Of(reg, UpTo(|reg|), p) + if x.source == p then [|reg|] else []
  {
    assert UpTo(|reg| + 1)[..|reg|] == UpTo(|reg|);
    OfMore(reg, x, UpTo(|reg|), p);
  }

  lemma IdsCat(a: seq<Job>, b: seq<Job>)
    ensures Ids(a + b) == Ids(a) + Ids(b)
  {}

  lemma LogInside(s: State)
    requires Base(s)
    ensures forall k :: 0 <= k < |Log(s)| ==> Log(s)[k] < |s.registered|
  {
    hide PromiseOk;
  }

  // ---------- Settling ----------

  lemma SettleInv(s: State, p: nat, state: PState, v: Value)
    requires Inv(s) && !state.Pending?
    ensures Inv(Settle(s, p, state, v))
  {
    if p < |s.promises| && !s.promises[p].settled {
      SettleBase(s, p, state, v);
      SettleConserved(s, p, state, v);
    }
  }

  lemma SettleBase(s: State, p: nat, state: PState, v: Value)
    requires Base(s) && !state.Pending? && p < |s.promises| && !s.promises[p].settled
    ensures Base(Settle(s, p, state, v))
  {
    var s1, q := Settle(s, p, state, v), s.promises[p];
    assert PromiseOk(s, p);
    var more := EnqueueAll(q.reactions, state, v);
    assert s1.jobs == s.jobs + more;
    forall j | JobOk(s, j) ensures JobOk(s1, j) {}
    forall k | 0 <= k < |more| ensures JobOk(s1, more[k]) { assert ReactionOk(s, p, q.reactions[k]); }
    forall r | 0 <= r < |s1.promises| ensures PromiseOk(s1, r) {
      assert PromiseOk(s, r);
      forall k | 0 <= k < |s1.promises[r].reactions| ensures ReactionOk(s1, r, s1.promises[r].reactions[k]) {
        assert ReactionOk(s, r, s.promises[r].reactions[k]);
      }
    }
  }

  lemma SettleConserved(s: State, p: nat, state: PState, v: Value)
    requires Inv(s) && !state.Pending? && p < |s.promises| && !s.promises[p].settled
    ensures Conserved(Settle(s, p, state, v))
  {
    hide Kept;
    var s1 := Settle(s, p, state, v);
    forall r | 0 <= r < |s1.promises| ensures Kept(s1, r) { SettleKept(s, p, state, v, r); }
  }

  lemma SettleKept(s: State, p: nat, state: PState, v: Value, r: nat)
    requires Inv(s) && !state.Pending? && p < |s.promises| && !s.promises[p].settled && r < |s.promises|
    ensures Kept(Settle(s, p, state, v), r)
  {
    var s1, q := Settle(s, p, state, v), s.promises[p];
    SettleLog(s, p, state, v);
    ReactionsOf(s, p);
    NoReactions();
    assert Kept(s, r);
    assert s1.registered == s.registered && s1.promises[r].reactions == if r == p then [] else s.promises[r].reactions;
    var ids := ReactionIds(q.reactions);
    OfCat(s.registered, Log(s), ids, r);
    OfAll(s.registered, ids, r, p);
    hide Inv, Log, Of, Settle, ReactionIds;
    var before := Of(s.registered, Log(s), r);
    assert before + ids + [] == before + ids;
    assert before + [] == before;
  }

  lemma ReactionsOf(s: State, p: nat)
    requires Base(s) && p < |s.promises|
    ensures forall k :: 0 <= k < |s.promises[p].reactions| ==>
      var id := ReactionIds(s.promises[p].reactions)[k]; id < |s.registered| && s.registered[id].source == p
  {
    assert PromiseOk(s, p);
    forall k | 0 <= k < |s.promises[p].reactions|
      ensures var id := ReactionIds(s.promises[p].reactions)[k]; id < |s.registered| && s.registered[id].source == p
    {
      assert ReactionOk(s, p, s.promises[p].reactions[k]);
    }
  }

  lemma NoReactions()
    ensures ReactionIds([]) == []
  {}

  lemma SettleLog(s: State, p: nat, state: PState, v: Value)
    requires !state.Pending? && p < |s.promises| && !s.promises[p].settled
    ensures Log(Settle(s, p, state, v)) == Log(s) + ReactionIds(s.promises[p].reactions)
  {
    var q := s.promises[p];
    var more := EnqueueAll(q.reactions, state, v);
    IdsCat(s.jobs, more);
    assert Ids(more) == ReactionIds(q.reactions);
  }

  // ---------- Registering ----------

  lemma NewInv(s: State, owner: Owner)
    requires Inv(s)
    ensures Inv(s.(promises := s.promises + [Fresh(owner)]))
  {
    var s1 := s.(promises := s.promises + [Fresh(owner)]);
    forall j | JobOk(s, j) ensures JobOk(s1, j) {}
    forall r | 0 <= r < |s1.promises| ensures PromiseOk(s1, r) {
      if r < |s.promises| {
        assert PromiseOk(s, r);
        forall k | 0 <= k < |s.promises[r].reactions| ensures ReactionOk(s1, r, s1.promises[r].reactions[k]) {
          assert ReactionOk(s, r, s.promises[r].reactions[k]);
        }
      }
    }
    forall r | 0 <= r < |s1.promises| ensures Kept(s1, r) {
      if r < |s.promises| { assert Kept(s, r); } else { NewUnused(s, s1, r); }
    }
  }

  lemma NewUnused(s: State, s1: State, r: nat)
    requires Base(s) && r == |s.promises| < |s1.promises| && s1.registered == s.registered && Log(s1) == Log(s)
    requires s1.promises[r].reactions == []
    ensures Kept(s1, r)
  {
    OfNone(s.registered, Log(s), r);
    OfNone(s.registered, UpTo(|s.registered|), r);
  }

  lemma {:induction false} OfNone(reg: seq<Reg>, ids: seq<nat>, p: nat)
    requires forall k :: 0 <= k < |reg| ==> reg[k].source != p
    ensures Of(reg, ids, p) == []
  {
    if ids != [] { OfNone(reg, ids[..|ids| - 1], p); }
  }

  lemma ThenInv(s: State, p: nat, onF: Callback, onR: Callback)
    requires Inv(s) && p < |s.promises|
    ensures Inv(DoThen(s, p, onF, onR))
  {
    ThenBase(s, p, onF, onR);
    ThenConserved(s, p, onF, onR);
  }

  lemma ThenBase(s: State, p: nat, onF: Callback, onR: Callback)
    requires Base(s) && p < |s.promises|
    ensures Base(DoThen(s, p, onF, onR))
  {
    var s1 := DoThen(s, p, onF, onR);
    assert PromiseOk(s, p);
    forall j | JobOk(s, j) ensures JobOk(s1, j) {}
    forall r | 0 <= r < |s1.promises| ensures PromiseOk(s1, r) {
      if r < |s.promises| {
        assert PromiseOk(s, r);
        forall k | 0 <= k < |s1.promises[r].reactions| ensures ReactionOk(s1, r, s1.promises[r].reactions[k]) {
          if k < |s.promises[r].reactions| { assert ReactionOk(s, r, s.promises[r].reactions[k]); }
        }
      }
    }
  }

  lemma ThenConserved(s: State, p: nat, onF: Callback, onR: Callback)
    requires Inv(s) && p < |s.promises|
    ensures Conserved(DoThen(s, p, onF, onR))
  {
    hide Kept;
    var s1 := DoThen(s, p, onF, onR);
    forall r | 0 <= r < |s1.promises| ensures Kept(s1, r) {
      if r < |s.promises| { ThenKept(s, p, onF, onR, r); } else { ThenChild(s, s1, r); }
    }
  }

  lemma ThenKept(s: State, p: nat, onF: Callback, onR: Callback, r: nat)
    requires Inv(s) && p < |s.promises| && r < |s.promises|
    ensures r < |DoThen(s, p, onF, onR).promises| && Kept(DoThen(s, p, onF, onR), r)
  {
    var x := Reg(p, onF, onR, |s.promises|);
    assert Kept(s, r);
    var waiting := s.promises[p].state.Pending?;
    var mine: seq<nat> := if r == p then [|s.registered|] else [];
    ThenQueued(s, p, onF, onR, r);
    ThenReactions(s, p, onF, onR, r);
    OfNext(s.registered, x, r);
    Lists(Of(s.registered, Log(s), r), ReactionIds(s.promises[r].reactions), mine);
    assert DoThen(s, p, onF, onR).registered == s.registered + [x];
    hide Of, Log, PromiseOk, Base, Conserved, ReactionIds, DoThen;
  }

  /** What a then call adds to the queued reactions of r. */
  lemma ThenQueued(s: State, p: nat, onF: Callback, onR: Callback, r: nat)
    requires Base(s) && p < |s.promises| && r < |s.promises|
    ensures var s1, mine: seq<nat> := DoThen(s, p, onF, onR), if r == p then [|s.registered|] else [];
      Of(s1.registered, Log(s1), r) == Of(s.registered, Log(s), r) + if s.promises[p].state.Pending? then [] else mine
  {
    var s1, id := DoThen(s, p, onF, onR), |s.registered|;
    var x := Reg(p, onF, onR, |s.promises|);
    LogInside(s);
    ThenLog(s, p, onF, onR);
    OfMore(s.registered, x, Log(s), r);
    OfCat(s1.registered, Log(s), [id], r);
    OfSingle(s1.registered, id, r);
    assert s1.registered == s.registered + [x];
    hide Of, Log, PromiseOk, Base;
  }

  lemma ThenReactions(s: State, p: nat, onF: Callback, onR: Callback, r: nat)
    requires Base(s) && p < |s.promises| && r < |s.promises|
    ensures var s1 := DoThen(s, p, onF, onR); r < |s1.promises|
    ensures var waiting := s.promises[p].state.Pending?;
      var s1 := DoThen(s, p, onF, onR);
      && ReactionIds(s1.promises[r].reactions)
         == ReactionIds(s.promises[r].reactions) + (if waiting && r == p then [|s.registered|] else [])
      && (!waiting && r == p ==> ReactionIds(s.promises[r].reactions) == [])
  {
    assert PromiseOk(s, p);
  }

  lemma Lists(a: seq<nat>, b: seq<nat>, c: seq<nat>)
    ensures a + (b + c) == a + b + c && a + [] + (b + c) == a + b + c
    ensures b == [] ==> a + c + (b + []) == a + b + c
    ensures c == [] ==> a + c + (b + []) == a + b + c
  {}

  lemma OfSingle(reg: seq<Reg>, id: nat, p: nat)
    ensures Of(reg, [id], p) == if id < |reg| && reg[id].source == p then [id] else []
  {
    assert [id][..0] == [];
  }

  lemma ThenChild(s: State, s1: State, r: nat)
    requires Base(s) && r == |s.promises| && r < |s1.promises| && s1.promises[r].reactions == []
    requires |s1.registered| == |s.registered| + 1 && s1.registered[..|s.registered|] == s.registered
    requires s1.registered[|s.registered|].source < r
    ensures Kept(s1, r)
  {
    OfNone(s1.registered, Log(s1), r);
    OfNone(s1.registered, UpTo(|s1.registered|), r);
  }

  lemma ThenLog(s: State, p: nat, onF: Callback, onR: Callback)
    requires p < |s.promises|
    ensures Log(DoThen(s, p, onF, onR)) == if s.promises[p].state.Pending? then Log(s) else Log(s) + [|s.registered|]
  {
    if !s.promises[p].state.Pending? {
      var q := s.promises[p];
      var j := Enqueue(Reaction(onF, onR, |s.promises|, |s.registered|), q.state, q.result);
      IdsCat(s.jobs, [j]);
      assert Ids([j]) == [|s.registered|];
    }
  }

  // ---------- Steps ----------

  /** Aggregates and the running callbacks' bookkeeping do not touch promises, jobs and registrations. */
  lemma AggInv(s: State, aggs: seq<Agg>)
    requires Inv(s)
    ensures Inv(s.(aggs := aggs))
  {
    var s1 := s.(aggs := aggs);
    assert Log(s1) == Log(s);
    forall p | 0 <= p < |s1.promises| ensures PromiseOk(s1, p) && Kept(s1, p) {
      assert PromiseOk(s, p) && Kept(s, p);
      forall k | 0 <= k < |s1.promises[p].reactions| ensures ReactionOk(s1, p, s1.promises[p].reactions[k]) {
        assert ReactionOk(s, p, s.promises[p].reactions[k]);
      }
    }
    forall j | JobOk(s, j) ensures JobOk(s1, j) {}
  }

  lemma {:induction false} HookInv(s: State, a: nat, inputs: seq<Value>, i: nat)
    requires Inv(s) && a < |s.aggs|
    ensures Inv(Hook(s, a, inputs, i))
    decreases |inputs| - i
  {
    hide Inv, DoThen, Settle;
    if i < |inputs| {
      var (s1, p) := Input(s, inputs[i]);
      InputInv(s, inputs[i]);
      if p < |s1.promises| && a < |s1.aggs| {
        ThenInv(s1, p, AllFulfil(a, i), AllReject(a, i));
        var s2 := DoThen(s1, p, AllFulfil(a, i), AllReject(a, i));
        ThenShape(s1, p, AllFulfil(a, i), AllReject(a, i));
        var g := s2.aggs[a];
        var s3 := s2.(aggs := s2.aggs[a := g.(inputs := g.inputs + [p], ids := g.ids + [|s1.registered|])]);
        AggInv(s2, s3.aggs);
        HookInv(s3, a, inputs, i + 1);
      }
    }
  }

  lemma ThenShape(s: State, p: nat, onF: Callback, onR: Callback)
    requires p < |s.promises|
    ensures DoThen(s, p, onF, onR).aggs == s.aggs
  {}

  lemma InputInv(s: State, v: Value)
    requires Inv(s)
    ensures Inv(Input(s, v).0) && Input(s, v).1 < |Input(s, v).0.promises| && Input(s, v).0.aggs == s.aggs
  {
    hide Inv;
    if !(v.Ref? && v.p < |s.promises|) {
      NewInv(s, ByResolvers);
      SettleInv(s.(promises := s.promises + [Fresh(ByResolvers)]), |s.promises|, Fulfilled, v);
    }
  }

  lemma AllInv(s: State, inputs: seq<Value>)
    requires Inv(s)
    ensures Inv(DoAll(s, inputs))
  {
    hide Inv, Hook, Settle;
    NewInv(s, ByAll);
    var s1 := s.(promises := s.promises + [Fresh(ByAll)]);
    if inputs == [] {
      NewInv(s, ByReaction);
      SettleInv(s.(promises := s.promises + [Fresh(ByReaction)]), |s.promises|, Fulfilled, Arr([]));
    } else {
      var g := Agg(|s.promises|, [], [], seq(|inputs|, _ => Prim(0)), |inputs|, false, []);
      AggInv(s1, s.aggs + [g]);
      HookInv(s1.(aggs := s.aggs + [g]), |s.aggs|, inputs, 0);
    }
  }

  lemma RunAllInv(s: State, a: nat, idx: nat, isReject: bool, v: Value)
    requires Inv(s)
    ensures Inv(RunAll(s, a, idx, isReject, v))
  {
    hide Inv, Settle;
    if a < |s.aggs| && idx < |s.aggs[a].results| {
      var s1 := RunAll(s, a, idx, isReject, v);
      var g := s.aggs[a].(history := s.aggs[a].history + [idx]);
      AggInv(s, s.aggs[a := g]);
      if !g.finished {
        if isReject {
          AggInv(s, s.aggs[a := g.(finished := true)]);
          SettleInv(s.(aggs := s.aggs[a := g.(finished := true)]), g.out, Rejected, v);
        } else {
          var left := if g.remaining > 0 then g.remaining - 1 else 0;
          var g1 := g.(results := g.results[idx := v], remaining := left, finished := left == 0);
          AggInv(s, s.aggs[a := g1]);
          SettleInv(s.(aggs := s.aggs[a := g1]), g.out, Fulfilled, Arr(g1.results));
        }
      }
    }
  }

  lemma BeginInv(s: State, j: Job)
    requires Inv(s) && JobOk(s, j)
    ensures Inv(Begin(s, j))
  {
    hide Inv, Settle, RunAll;
    match j.cb
    case NotFunction => SettleInv(s, j.child, if j.isReject then Rejected else Fulfilled, j.value);
    case User(_) => RunningInv(s, s.running + [j], j);
    case AllFulfil(a, i) =>
      RunAllInv(s, a, i, false, j.value);
      SettleInv(RunAll(s, a, i, false, j.value), j.child, Fulfilled, Prim(0));
    case AllReject(a, i) =>
      RunAllInv(s, a, i, true, j.value);
      SettleInv(RunAll(s, a, i, true, j.value), j.child, Fulfilled, Prim(0));
  }

  lemma RunningInv(s: State, running: seq<Job>, j: Job)
    requires Inv(s) && JobOk(s, j) && forall k :: 0 <= k < |running| ==> running[k] in s.running || running[k] == j
    ensures Inv(s.(running := running))
  {
    var s1 := s.(running := running);
    assert Log(s1) == Log(s);
    forall p | 0 <= p < |s1.promises| ensures PromiseOk(s1, p) && Kept(s1, p) {
      assert PromiseOk(s, p) && Kept(s, p);
      forall k | 0 <= k < |s1.promises[p].reactions| ensures ReactionOk(s1, p, s1.promises[p].reactions[k]) {
        assert ReactionOk(s, p, s.promises[p].reactions[k]);
      }
    }
    forall j | JobOk(s, j) ensures JobOk(s1, j) {}
  }

  /** Moving jobs along the queue, without losing or reordering any. */
  lemma QueueInv(s: State, started: seq<Job>, batch: seq<Job>, jobs: seq<Job>)
    requires Inv(s) && started + batch + jobs == s.started + s.batch + s.jobs
    ensures Inv(s.(started := started, batch := batch, jobs := jobs))
  {
    var s1 := s.(started := started, batch := batch, jobs := jobs);
    QueueLog(s);
    QueueLog(s1);
    QueueJobs(s, started, batch, jobs);
    forall p | 0 <= p < |s1.promises| ensures PromiseOk(s1, p) && Kept(s1, p) {
      assert PromiseOk(s, p) && Kept(s, p);
      forall k | 0 <= k < |s1.promises[p].reactions| ensures ReactionOk(s1, p, s1.promises[p].reactions[k]) {
        assert ReactionOk(s, p, s.promises[p].reactions[k]);
      }
    }
    forall j | JobOk(s, j) ensures JobOk(s1, j) {}
  }

  lemma QueueLog(s: State)
    ensures Log(s) == Ids(s.started + s.batch + s.jobs)
  {
    IdsCat(s.started, s.batch);
    IdsCat(s.started + s.batch, s.jobs);
  }

  lemma QueueJobs(s: State, started: seq<Job>, batch: seq<Job>, jobs: seq<Job>)
    requires JobsOk(s, s.started) && JobsOk(s, s.batch) && JobsOk(s, s.jobs)
    requires started + batch + jobs == s.started + s.batch + s.jobs
    ensures JobsOk(s, started) && JobsOk(s, batch) && JobsOk(s, jobs)
  {
    hide JobOk;
    var all := started + batch + jobs;
    assert forall k :: 0 <= k < |all| ==> JobOk(s, all[k]) by {
      forall k | 0 <= k < |all| ensures JobOk(s, all[k]) { assert all[k] == (s.started + s.batch + s.jobs)[k]; }
    }
    forall k | 0 <= k < |started| ensures JobOk(s, started[k]) { assert started[k] == all[k]; }
    forall k | 0 <= k < |batch| ensures JobOk(s, batch[k]) { assert batch[k] == all[|started| + k]; }
    forall k | 0 <= k < |jobs| ensures JobOk(s, jobs[k]) { assert jobs[k] == all[|started| + |batch| + k]; }
  }

  lemma NextInv(s: State)
    requires Inv(s)
    ensures Inv(DoNext(s))
  {
    hide Inv, Begin;
    var s1 := Refill(s);
    if s.batch == [] {
      assert s.started + s.jobs + [] == s.started + s.batch + s.jobs;
      QueueInv(s, s.started, s.jobs, []);
    }
    if s1.batch != [] {
      var j := s1.batch[0];
      var s2 := s1.(batch := s1.batch[1..], started := s1.started + [j]);
      assert s1.batch == [j] + s1.batch[1..];
      assert s1.started + [j] + s1.batch[1..] + s1.jobs == s1.started + s1.batch + s1.jobs;
      QueueInv(s1, s2.started, s2.batch, s2.jobs);
      HeadOk(s2);
      BeginInv(s2, j);
    }
  }

  lemma HeadOk(s: State)
    requires Inv(s) && s.started != []
    ensures JobOk(s, s.started[|s.started| - 1])
  {}

  lemma FinishInv(s: State, state: PState, v: Value)
    requires Inv(s) && !state.Pending?
    ensures Inv(Finish(s, state, v))
  {
    if s.running != [] {
      var j, rest := s.running[|s.running| - 1], s.running[..|s.running| - 1];
      RunningInv(s, rest, j);
      hide Inv;
      SettleInv(s.(running := rest), j.child, state, v);
    }
  }

  /** The constructor starts a promise over that is settled, or that reactions wait on. */
  predicate Resets(s: State, op: Op) {
    op.Construct? && op.p < |s.promises| && (s.promises[op.p].settled || s.promises[op.p].reactions != [])
  }

  lemma ConstructInv(s: State, p: nat)
    requires Inv(s) && p < |s.promises| && !Resets(s, Construct(p))
    ensures Inv(Step(s, Construct(p)))
  {
    var s1 := Step(s, Construct(p));
    assert PromiseOk(s, p) && Log(s1) == Log(s);
    hide Log, Of;
    forall j | JobOk(s, j) ensures JobOk(s1, j) {}
    forall r | 0 <= r < |s1.promises| ensures PromiseOk(s1, r) && Kept(s1, r) {
      assert PromiseOk(s, r) && Kept(s, r);
      forall k | 0 <= k < |s1.promises[r].reactions| ensures ReactionOk(s1, r, s1.promises[r].reactions[k]) {
        assert ReactionOk(s, r, s.promises[r].reactions[k]);
      }
    }
  }

  lemma StepInv(s: State, op: Op)
    requires Inv(s) && !Resets(s, op)
    ensures Inv(Step(s, op))
  {
    hide Inv, Settle, DoThen, DoAll, DoNext, Finish;
    match op
    case NewPromise => NewInv(s, ByResolvers);
    case Construct(p) => if p < |s.promises| { ConstructInv(s, p); }
    case Resolve(p, v) => SettleInv(s, p, Fulfilled, v);
    case Reject(p, v) => SettleInv(s, p, Rejected, v);
    case Then(p, f, r) => if p < |s.promises| { ThenInv(s, p, f, r); }
    case All(inputs) => AllInv(s, inputs);
    case Next => NextInv(s);
    case Return(v) => FinishInv(s, Fulfilled, v);
    case Fail(v) => FinishInv(s, Rejected, v);
  }

  /** No step of the run constructs on a promise that is settled or has reactions. */
  predicate NeverResets(s: State, ops: seq<Op>)
    decreases |ops|
  {
    ops == [] || (!Resets(s, ops[0]) && NeverResets(Step(s, ops[0]), ops[1..]))
  }

  lemma {:induction false} RunInv(s: State, ops: seq<Op>)
    requires Inv(s) && NeverResets(s, ops)
    ensures Inv(Run(s, ops))
    decreases |ops|
  {
    hide Inv, Step, Resets;
    if ops != [] {
      StepInv(s, ops[0]);
      RunInv(Step(s, ops[0]), ops[1..]);
    }
  }

  lemma StartInv()
    ensures Inv(EMPTY)
  {
    assert Log(EMPTY) == [];
  }

  // ---------- The protocol's properties ----------

  /** Increasing, and below n. */
  predicate Rising(r: seq<nat>, n: nat) {
    (forall k :: 0 <= k < |r| ==> r[k] < n) && (forall k, l :: 0 <= k < l < |r| ==> r[k] < r[l])
  }

  lemma {:induction false} OfUpTo(reg: seq<Reg>, n: nat, p: nat)
    ensures Rising(Of(reg, UpTo(n), p), n)
  {
    if n > 0 {
      assert UpTo(n)[..n - 1] == UpTo(n - 1) && UpTo(n)[n - 1] == n - 1;
      OfUpTo(reg, n - 1, p);
      var was := Of(reg, UpTo(n - 1), p);
      assert Rising(was, n - 1);
      var r := was + if n - 1 < |reg| && reg[n - 1].source == p then [n - 1] else [];
      assert Of(reg, UpTo(n), p) == r;
    }
  }

  /** In every run without a reset, the reactions of a promise that have started are the first of those registered on it, in
      registration order, each once and only after the promise was settled, with its result.  When the
      promise is settled and the queue is empty they are all of them. */
  lemma ReactionsRunOnce(ops: seq<Op>, p: nat)
    requires p < |Run(EMPTY, ops).promises| && NeverResets(EMPTY, ops)
    ensures var s := Run(EMPTY, ops);
      var ran, all := Of(s.registered, Ids(s.started), p), Of(s.registered, UpTo(|s.registered|), p);
      && |ran| <= |all| && ran == all[..|ran|]
      && (forall k, l :: 0 <= k < l < |ran| ==> ran[k] < ran[l])
      && (ran != [] ==> s.promises[p].settled)
      && (s.promises[p].settled && s.batch == [] && s.jobs == [] ==> ran == all)
      && forall k :: 0 <= k < |s.started| ==> JobOk(s, s.started[k])
  {
    StartInv();
    RunInv(EMPTY, ops);
    var s := Run(EMPTY, ops);
    assert Kept(s, p) && PromiseOk(s, p);
    OfUpTo(s.registered, |s.registered|, p);
    OfCat(s.registered, Ids(s.started) + Ids(s.batch), Ids(s.jobs), p);
    OfCat(s.registered, Ids(s.started), Ids(s.batch), p);
    StartedSettled(s, p);
  }

  lemma StartedSettled(s: State, p: nat)
    requires Base(s) && p < |s.promises|
    ensures Of(s.registered, Ids(s.started), p) != [] ==> s.promises[p].settled
  {
    hide PromiseOk;
    if !s.promises[p].settled {
      forall k | 0 <= k < |s.started| ensures s.registered[Ids(s.started)[k]].source != p { assert JobOk(s, s.started[k]); }
      OfNoneOf(s.registered, Ids(s.started), p);
    }
  }

  lemma {:induction false} OfNoneOf(reg: seq<Reg>, ids: seq<nat>, p: nat)
    requires forall k :: 0 <= k < |ids| ==> ids[k] < |reg| && reg[ids[k]].source != p
    ensures Of(reg, ids, p) == []
  {
    if ids != [] { OfNoneOf(reg, ids[..|ids| - 1], p); }
  }

  // ---------- A settled promise stays as it is ----------

  /** No promise disappears, and a settled one keeps its state and result. */
  predicate Grows(s: State, s1: State) {
    && |s.promises| <= |s1.promises|
    && forall p :: 0 <= p < |s.promises| && s.promises[p].settled ==>
         s1.promises[p].settled && s1.promises[p].state == s.promises[p].state && s1.promises[p].result == s.promises[p].result
  }

  lemma SettleGrows(s: State, p: nat, state: PState, v: Value)
    ensures Grows(s, Settle(s, p, state, v)) && Settle(s, p, state, v).aggs == s.aggs
  {}

  lemma ThenGrows(s: State, p: nat, onF: Callback, onR: Callback)
    requires Base(s) && p < |s.promises|
    ensures Grows(s, DoThen(s, p, onF, onR)) && DoThen(s, p, onF, onR).aggs == s.aggs
  {
    assert PromiseOk(s, p);
  }

  lemma {:induction false} HookGrows(s: State, a: nat, inputs: seq<Value>, i: nat)
    requires Inv(s) && a < |s.aggs|
    ensures Grows(s, Hook(s, a, inputs, i))
    decreases |inputs| - i
  {
    hide Base, Conserved, DoThen, Settle;
    if i < |inputs| {
      var (s1, p) := Input(s, inputs[i]);
      InputInv(s, inputs[i]);
      if !(inputs[i].Ref? && inputs[i].p < |s.promises|) {
        SettleGrows(s.(promises := s.promises + [Fresh(ByResolvers)]), |s.promises|, Fulfilled, inputs[i]);
      }
      ThenGrows(s1, p, AllFulfil(a, i), AllReject(a, i));
      ThenInv(s1, p, AllFulfil(a, i), AllReject(a, i));
      var s2 := DoThen(s1, p, AllFulfil(a, i), AllReject(a, i));
      var g := s2.aggs[a];
      var s3 := s2.(aggs := s2.aggs[a := g.(inputs := g.inputs + [p], ids := g.ids + [|s1.registered|])]);
      AggInv(s2, s3.aggs);
      HookGrows(s3, a, inputs, i + 1);
    }
  }

  lemma BeginGrows(s: State, j: Job)
    ensures Grows(s, Begin(s, j))
  {
    hide Settle;
    match j.cb
    case NotFunction => SettleGrows(s, j.child, if j.isReject then Rejected else Fulfilled, j.value);
    case User(_) =>
    case AllFulfil(a, i) => RunAllGrows(s, a, i, false, j.value, j.child);
    case AllReject(a, i) => RunAllGrows(s, a, i, true, j.value, j.child);
  }

  lemma RunAllGrows(s: State, a: nat, idx: nat, isReject: bool, v: Value, child: nat)
    ensures Grows(s, Settle(RunAll(s, a, idx, isReject, v), child, Fulfilled, Prim(0)))
  {
    hide Settle;
    var s1 := RunAll(s, a, idx, isReject, v);
    if a < |s.aggs| && idx < |s.aggs[a].results| {
      var g := s.aggs[a].(history := s.aggs[a].history + [idx]);
      SettleGrows(s.(aggs := s.aggs[a := g.(finished := true)]), g.out, Rejected, v);
      var left := if g.remaining > 0 then g.remaining - 1 else 0;
      var g1 := g.(results := g.results[idx := v], remaining := left, finished := left == 0);
      SettleGrows(s.(aggs := s.aggs[a := g1]), g.out, Fulfilled, Arr(g1.results));
    }
    SettleGrows(s1, child, Fulfilled, Prim(0));
  }

  lemma StepGrows(s: State, op: Op)
    requires Inv(s) && !Resets(s, op)
    ensures Grows(s, Step(s, op))
  {
    hide Inv, Settle, DoThen, Begin, Hook, Grows;
    GrowsSame();
    match op
    case NewPromise =>
    case Construct(p) => ConstructGrows(s, p);
    case Resolve(p, v) => SettleGrows(s, p, Fulfilled, v);
    case Reject(p, v) => SettleGrows(s, p, Rejected, v);
    case Then(p, f, r) => if p < |s.promises| { BaseOf(s); ThenGrows(s, p, f, r); }
    case All(inputs) => AllGrows(s, inputs);
    case Next =>
      var s1 := Refill(s);
      if s1.batch != [] { BeginGrows(s1.(batch := s1.batch[1..], started := s1.started + [s1.batch[0]]), s1.batch[0]); }
    case Return(v) => if s.running != [] { SettleGrows(s.(running := s.running[..|s.running| - 1]), s.running[|s.running| - 1].child, Fulfilled, v); }
    case Fail(v) => if s.running != [] { SettleGrows(s.(running := s.running[..|s.running| - 1]), s.running[|s.running| - 1].child, Rejected, v); }
  }

  lemma ConstructGrows(s: State, p: nat)
    requires !Resets(s, Construct(p))
    ensures Grows(s, Step(s, Construct(p)))
  {}

  lemma BaseOf(s: State)
    requires Inv(s)
    ensures Base(s)
  {}

  /** Growth looks at the promises only. */
  lemma GrowsSame()
    ensures forall s: State, a: State, b: State {:trigger Grows(a, b), Grows(s, b)} :: s.promises == a.promises && Grows(a, b) ==> Grows(s, b)
    ensures forall s: State, b: State {:trigger Grows(s, b)} :: s.promises == b.promises ==> Grows(s, b)
    ensures forall s: State, b: State, q: Promise {:trigger Grows(s, b), s.promises + [q]} :: b.promises == s.promises + [q] ==> Grows(s, b)
  {}

  lemma AllGrows(s: State, inputs: seq<Value>)
    requires Inv(s)
    ensures Grows(s, DoAll(s, inputs))
  {
    hide Inv, Hook, Settle;
    NewInv(s, ByAll);
    var s1 := s.(promises := s.promises + [Fresh(ByAll)]);
    if inputs == [] {
      SettleGrows(s.(promises := s.promises + [Fresh(ByReaction)]), |s.promises|, Fulfilled, Arr([]));
    } else {
      var g := Agg(|s.promises|, [], [], seq(|inputs|, _ => Prim(0)), |inputs|, false, []);
      AggInv(s1, s.aggs + [g]);
      HookGrows(s1.(aggs := s.aggs + [g]), |s.aggs|, inputs, 0);
    }
  }

  /** After the first settlement the state and the result never change, in any run without a reset. */
  lemma {:induction false} SettledForever(s: State, ops: seq<Op>)
    requires Inv(s) && NeverResets(s, ops)
    ensures Grows(s, Run(s, ops))
    decreases |ops|
  {
    hide Inv, Step, Resets;
    if ops != [] {
      StepInv(s, ops[0]);
      StepGrows(s, ops[0]);
      SettledForever(Step(s, ops[0]), ops[1..]);
    }
  }

  // ---------- What a reset breaks ----------

  /** A step keeps what is settled, and loses no reaction and no job. */
  ghost predicate KeptBy(s: State, op: Op) { Grows(s, Step(s, op)) && Inv(Step(s, op)) }

  lemma StepKeepsExactly(s: State, op: Op)
    requires Inv(s)
    ensures KeptBy(s, op) <==> !Resets(s, op)
  {
    if Resets(s, op) {
      ResetBreaks(s, op.p);
    } else {
      StepInv(s, op);
      StepGrows(s, op);
    }
    hide Inv, Step, Resets, Grows;
  }

  /** A settled promise is pending again; the reactions of a pending one are gone and will never run. */
  lemma ResetBreaks(s: State, p: nat)
    requires Inv(s) && Resets(s, Construct(p))
    ensures !KeptBy(s, Construct(p))
  {
    var s1 := Step(s, Construct(p));
    assert PromiseOk(s, p) && Kept(s, p);
    assert Log(s1) == Log(s) && s1.promises[p] == Fresh(ByResolvers);
    if !s.promises[p].settled {
      NoReactions();
      hide Log, Of;
      assert !Kept(s1, p);
    }
  }

  ghost predicate EveryStepKeeps(s: State, ops: seq<Op>)
    decreases |ops|
  {
    ops == [] || (KeptBy(s, ops[0]) && EveryStepKeeps(Step(s, ops[0]), ops[1..]))
  }

  /** States, results and reactions are kept along a run exactly when no step of it resets a promise. */
  lemma {:induction false} KeptExactly(s: State, ops: seq<Op>)
    requires Inv(s)
    ensures EveryStepKeeps(s, ops) <==> NeverResets(s, ops)
    decreases |ops|
  {
    hide Inv, Step, Resets, Grows;
    if ops != [] {
      StepKeepsExactly(s, ops[0]);
      if KeptBy(s, ops[0]) { KeptExactly(Step(s, ops[0]), ops[1..]); }
    }
  }

  /** A promise fulfilled with 1, constructed on, and fulfilled with 2. */
  lemma SettledTwice()
    ensures var first, ops := [NewPromise, Resolve(0, Prim(1))], [NewPromise, Resolve(0, Prim(1)), Construct(0), Resolve(0, Prim(2))];
      && Run(EMPTY, first).promises[0].state == Run(EMPTY, ops).promises[0].state == Fulfilled
      && Run(EMPTY, first).promises[0].result == Prim(1) && Run(EMPTY, ops).promises[0].result == Prim(2)
  {
    var ops := [NewPromise, Resolve(0, Prim(1)), Construct(0), Resolve(0, Prim(2))];
    var s1 := Step(EMPTY, ops[0]);
    var s2 := Step(s1, ops[1]);
    var s3 := Step(s2, ops[2]);
    var s4 := Step(s3, ops[3]);
    assert [ops[0], ops[1]][1..] == [ops[1]] && [ops[1]][1..] == [];
    assert Run(EMPTY, [ops[0], ops[1]]) == Run(s1, [ops[1]]) == Run(s2, []) == s2;
    Unrolled(EMPTY, ops);
    Unrolled(s1, ops[1..]);
    Unrolled(s2, ops[2..]);
    Unrolled(s3, ops[3..]);
    assert ops[1..][1..] == ops[2..] && ops[2..][1..] == ops[3..] && ops[3..][1..] == [];
    assert Run(s4, []) == s4;
  }

  /** A reaction waits, its promise is constructed on and fulfilled, and the reaction never runs. */
  lemma ReactionLost()
    ensures var s := Run(EMPTY, [NewPromise, Then(0, User(0), User(1)), Construct(0), Resolve(0, Prim(1)), Next]);
      |s.registered| == 1 && s.registered[0].source == 0 && s.promises[0].settled && s.batch == s.jobs == s.started == []
  {
    var ops := [NewPromise, Then(0, User(0), User(1)), Construct(0), Resolve(0, Prim(1)), Next];
    var s1 := Step(EMPTY, ops[0]);
    var s2 := Step(s1, ops[1]);
    var s3 := Step(s2, ops[2]);
    var s4 := Step(s3, ops[3]);
    var s5 := Step(s4, ops[4]);
    Unrolled(EMPTY, ops);
    Unrolled(s1, ops[1..]);
    Unrolled(s2, ops[2..]);
    Unrolled(s3, ops[3..]);
    Unrolled(s4, ops[4..]);
    assert ops[1..][1..] == ops[2..] && ops[2..][1..] == ops[3..] && ops[3..][1..] == ops[4..] && ops[4..][1..] == [];
    assert Run(s5, []) == s5;
  }

  lemma Unrolled(s: State, ops: seq<Op>)
    requires ops != []
    ensures Run(s, ops) == Run(Step(s, ops[0]), ops[1..])
  {}

  // ---------- The batches are one queue ----------

  /** The state with its two queues joined. */
  function Joined(s: State): State { s.(batch := [], jobs := s.batch + s.jobs) }

  /** Taking the next job from a single first-in-first-out queue. */
  function FifoNext(s: State): State {
    if s.jobs == [] then s else Begin(s.(jobs := s.jobs[1..], started := s.started + [s.jobs[0]]), s.jobs[0])
  }

  function FifoStep(s: State, op: Op): State { if op.Next? then FifoNext(s) else Step(s, op) }

  function FifoRun(s: State, ops: seq<Op>): State
    decreases |ops|
  {
    if ops == [] then s else FifoRun(FifoStep(s, ops[0]), ops[1..])
  }

  lemma JoinSettle(s: State, p: nat, state: PState, v: Value)
    ensures Joined(Settle(s, p, state, v)) == Settle(Joined(s), p, state, v)
  {
    if p < |s.promises| && !s.promises[p].settled {
      var more := EnqueueAll(s.promises[p].reactions, state, v);
      assert s.batch + (s.jobs + more) == s.batch + s.jobs + more;
    }
  }

  lemma JoinThen(s: State, p: nat, onF: Callback, onR: Callback)
    requires p < |s.promises|
    ensures Joined(DoThen(s, p, onF, onR)) == DoThen(Joined(s), p, onF, onR)
  {
    var j := Enqueue(Reaction(onF, onR, |s.promises|, |s.registered|), s.promises[p].state, s.promises[p].result);
    assert s.batch + (s.jobs + [j]) == s.batch + s.jobs + [j];
  }

  lemma {:induction false} JoinHook(s: State, a: nat, inputs: seq<Value>, i: nat)
    requires a < |s.aggs|
    ensures Joined(Hook(s, a, inputs, i)) == Hook(Joined(s), a, inputs, i)
    decreases |inputs| - i
  {
    hide Settle, DoThen;
    if i < |inputs| {
      var (s1, p) := Input(s, inputs[i]);
      JoinSettle(s.(promises := s.promises + [Fresh(ByResolvers)]), |s.promises|, Fulfilled, inputs[i]);
      assert Input(Joined(s), inputs[i]) == (Joined(s1), p);
      if p < |s1.promises| && a < |s1.aggs| {
        JoinThen(s1, p, AllFulfil(a, i), AllReject(a, i));
        ThenShape(s1, p, AllFulfil(a, i), AllReject(a, i));
        var s2 := DoThen(s1, p, AllFulfil(a, i), AllReject(a, i));
        var g := s2.aggs[a];
        JoinHook(s2.(aggs := s2.aggs[a := g.(inputs := g.inputs + [p], ids := g.ids + [|s1.registered|])]), a, inputs, i + 1);
      }
    }
  }

  lemma JoinRunAll(s: State, a: nat, idx: nat, isReject: bool, v: Value)
    ensures Joined(RunAll(s, a, idx, isReject, v)) == RunAll(Joined(s), a, idx, isReject, v)
  {
    hide Settle;
    if a < |s.aggs| && idx < |s.aggs[a].results| {
      var g := s.aggs[a].(history := s.aggs[a].history + [idx]);
      JoinSettle(s.(aggs := s.aggs[a := g.(finished := true)]), g.out, Rejected, v);
      var left := if g.remaining > 0 then g.remaining - 1 else 0;
      var g1 := g.(results := g.results[idx := v], remaining := left, finished := left == 0);
      JoinSettle(s.(aggs := s.aggs[a := g1]), g.out, Fulfilled, Arr(g1.results));
    }
  }

  lemma JoinBegin(s: State, j: Job)
    ensures Joined(Begin(s, j)) == Begin(Joined(s), j)
  {
    hide Settle, RunAll;
    match j.cb
    case NotFunction => JoinSettle(s, j.child, if j.isReject then Rejected else Fulfilled, j.value);
    case User(_) =>
    case AllFulfil(a, i) =>
      JoinRunAll(s, a, i, false, j.value);
      JoinSettle(RunAll(s, a, i, false, j.value), j.child, Fulfilled, Prim(0));
    case AllReject(a, i) =>
      JoinRunAll(s, a, i, true, j.value);
      JoinSettle(RunAll(s, a, i, true, j.value), j.child, Fulfilled, Prim(0));
  }

  lemma JoinNext(s: State)
    ensures Joined(DoNext(s)) == FifoNext(Joined(s))
  {
    hide Begin;
    var s1 := Refill(s);
    assert [] + s.jobs == s.jobs && s.jobs + [] == s.jobs;
    if s1.batch != [] {
      var s2 := s1.(batch := s1.batch[1..], started := s1.started + [s1.batch[0]]);
      assert (s1.batch + s1.jobs)[1..] == s1.batch[1..] + s1.jobs;
      JoinBegin(s2, s1.batch[0]);
    }
  }

  lemma JoinStep(s: State, op: Op)
    ensures Joined(Step(s, op)) == FifoStep(Joined(s), op)
  {
    hide Settle, DoThen, Hook, DoNext, FifoNext;
    match op
    case NewPromise =>
    case Construct(_) =>
    case Resolve(p, v) => JoinSettle(s, p, Fulfilled, v);
    case Reject(p, v) => JoinSettle(s, p, Rejected, v);
    case Then(p, f, r) => if p < |s.promises| { JoinThen(s, p, f, r); }
    case All(inputs) =>
      var s1 := s.(promises := s.promises + [Fresh(ByAll)]);
      JoinSettle(s.(promises := s.promises + [Fresh(ByReaction)]), |s.promises|, Fulfilled, Arr([]));
      var g := Agg(|s.promises|, [], [], seq(|inputs|, _ => Prim(0)), |inputs|, false, []);
      JoinHook(s1.(aggs := s.aggs + [g]), |s.aggs|, inputs, 0);
    case Next => JoinNext(s);
    case Return(v) => if s.running != [] { JoinSettle(s.(running := s.running[..|s.running| - 1]), s.running[|s.running| - 1].child, Fulfilled, v); }
    case Fail(v) => if s.running != [] { JoinSettle(s.(running := s.running[..|s.running| - 1]), s.running[|s.running| - 1].child, Rejected, v); }
  }

  /** Draining in batches runs the same jobs in the same order, to the same effect, as one queue. */
  lemma {:induction false} BatchesAreOneQueue(s: State, ops: seq<Op>)
    ensures Joined(Run(s, ops)) == FifoRun(Joined(s), ops)
    decreases |ops|
  {
    hide Step, FifoStep;
    if ops != [] {
      JoinStep(s, ops[0]);
      BatchesAreOneQueue(Step(s, ops[0]), ops[1..]);
    }
  }
}
