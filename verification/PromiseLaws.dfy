/**
 What settling, `then`, and the jobs of the queue come to, in terms of states and results: the queue in
 place and the protocol share the choice of callbacks.
 */
module PromiseLaws {
  import opened PromiseMachine
  import opened PromiseRuns

  /** The job the queue starts next. */
  function Head(s: State): Job
    requires s.batch != [] || s.jobs != []
  {
    if s.batch != [] then s.batch[0] else s.jobs[0]
  }

  /** A job carries the handler that was registered for how its promise was settled, and the promise's result. */
  lemma HandlerChosen(s: State)
    requires Inv(s) && (s.batch != [] || s.jobs != [])
    ensures var j := Head(s);
      && j.id < |s.registered|
      && var g := s.registered[j.id];
      && g.source < |s.promises| && s.promises[g.source].settled && !s.promises[g.source].state.Pending?
      && j.child == g.child && j.value == s.promises[g.source].result
      && (s.promises[g.source].state == Fulfilled ==> j.cb == g.onFulfilled && !j.isReject)
      && (s.promises[g.source].state == Rejected ==> j.cb == g.onRejected && j.isReject)
  {
    hide Conserved;
    var j := Head(s);
    assert JobOk(s, j);
    assert PromiseOk(s, s.registered[j.id].source);
  }

  /** Without a handler the settlement goes on to the child as it is: a rejection stays a rejection, with its reason. */
  lemma PassedOn(s: State)
    requires Inv(s) && (s.batch != [] || s.jobs != []) && Head(s).cb == NotFunction
    ensures var j := Head(s);
      && j.id < |s.registered|
      && var (g, s1) := (s.registered[j.id], Step(s, Next));
      && g.source < |s.promises| && g.child < |s.promises|
      && (s.promises[g.child].settled ==> s1.promises == s.promises)
      && (!s.promises[g.child].settled ==>
            && s1.promises[g.child].settled && s1.promises[g.child].state == s.promises[g.source].state
            && s1.promises[g.child].result == s.promises[g.source].result)
      && forall p :: 0 <= p < |s.promises| && p != g.child ==> s1.promises[p] == s.promises[p]
  {
    hide Conserved, PromiseOk;
    HandlerChosen(s);
  }

  /** A user's handler is running once its job has started; nothing is settled by that. */
  lemma HandlerStarts(s: State)
    requires Inv(s) && (s.batch != [] || s.jobs != []) && Head(s).cb.User?
    ensures var s1 := Step(s, Next);
      && s1.running == s.running + [Head(s)] && s1.promises == s.promises && s1.started == s.started + [Head(s)]
      && s1.batch + s1.jobs == (s.batch + s.jobs)[1..]
  {
    hide Inv;
    if s.batch == [] { assert s.batch + s.jobs == s.jobs; } else { assert (s.batch + s.jobs)[1..] == s.batch[1..] + s.jobs; }
  }

  /** What a handler returns fulfils the child of its `then`, what it throws rejects it. */
  lemma HandlerEnds(s: State, v: Value)
    requires s.running != [] && s.running[|s.running| - 1].child < |s.promises| && !s.promises[s.running[|s.running| - 1].child].settled
    ensures var (c, s1, s2) := (s.running[|s.running| - 1].child, Step(s, Return(v)), Step(s, Fail(v)));
      && s1.promises[c].settled && s1.promises[c].state == Fulfilled && s1.promises[c].result == v
      && s2.promises[c].settled && s2.promises[c].state == Rejected && s2.promises[c].result == v
      && s1.running == s2.running == s.running[..|s.running| - 1]
      && forall p :: 0 <= p < |s.promises| && p != c ==> s1.promises[p] == s2.promises[p] == s.promises[p]
  {}

  /** The resolver functions settle a pending promise, once: its state and result, and each of its reactions queued behind
      the jobs there are, in the order they were registered. */
  lemma ResolverSettles(s: State, p: nat, v: Value)
    requires p < |s.promises| && s.promises[p].owner == ByResolvers
    ensures var (s1, s2, q) := (Step(s, Resolve(p, v)), Step(s, Reject(p, v)), s.promises[p]);
      if q.settled then s1 == s && s2 == s
      else
        && s1.promises[p].settled && s1.promises[p].state == Fulfilled && s1.promises[p].result == v && s1.promises[p].reactions == []
        && s2.promises[p].settled && s2.promises[p].state == Rejected && s2.promises[p].result == v && s2.promises[p].reactions == []
        && |s1.jobs| == |s2.jobs| == |s.jobs| + |q.reactions| && s1.jobs[..|s.jobs|] == s2.jobs[..|s.jobs|] == s.jobs
        && (forall i :: 0 <= i < |q.reactions| ==>
              && s1.jobs[|s.jobs| + i] == Job(q.reactions[i].onFulfilled, v, q.reactions[i].child, false, q.reactions[i].id)
              && s2.jobs[|s.jobs| + i] == Job(q.reactions[i].onRejected, v, q.reactions[i].child, true, q.reactions[i].id))
        && forall r :: 0 <= r < |s.promises| && r != p ==> s1.promises[r] == s2.promises[r] == s.promises[r]
  {}

  /** `then` makes a pending child; on a pending promise its handlers wait behind the others, on a settled one the
      right one is queued at once. */
  lemma ThenWaits(s: State, p: nat, f: Callback, r: Callback)
    requires p < |s.promises| && UserCallback(f) && UserCallback(r) && PromiseOk(s, p)
    ensures var (s1, q, child) := (Step(s, Then(p, f, r)), s.promises[p], |s.promises|);
      && |s1.promises| == |s.promises| + 1 && s1.promises[child].state == Pending && !s1.promises[child].settled
      && (q.state == Pending ==>
            s1.jobs == s.jobs && s1.promises[p] == q.(reactions := q.reactions + [Reaction(f, r, child, |s.registered|)]))
      && (q.state == Fulfilled ==>
            s1.promises[p] == q && s1.jobs == s.jobs + [Job(f, q.result, child, false, |s.registered|)])
      && (q.state == Rejected ==>
            s1.promises[p] == q && s1.jobs == s.jobs + [Job(r, q.result, child, true, |s.registered|)])
      && forall x :: 0 <= x < |s.promises| && x != p ==> s1.promises[x] == s.promises[x]
  {}
}
