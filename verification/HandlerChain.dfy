/** One reconciliation: handlers in order, then the update, then the finalizers. */
module HandlerChain {
  import opened Common

  /** reconcile.Result, with durations in nanoseconds. */
  datatype Result = Result(requeue: bool, after: int)

  const ZERO := Result(false, 0)

  /** conflictRequeueAfter: 100 microseconds. */
  const CONFLICT_DELAY := Result(false, 100_000)

  // ---------- merging results ----------

  predicate Immediate(r: Result) {
    r.requeue && r.after == 0
  }

  /** One turn of the merge loop. */
  function Step(result: Result, r: Result): Result {
    if r == ZERO then result
    else if Immediate(r) then r
    else if result == ZERO && r.after > 0 then r
    else if r.after > 0 && r.after < result.after then result.(after := r.after)
    else result
  }

  function MergeFrom(result: Result, results: seq<Result>): Result {
    if results == [] then result else Step(MergeFrom(result, results[..|results| - 1]), results[|results| - 1])
  }

  function Merge(a: Result, b: Result): Result {
    Step(Step(ZERO, a), b)
  }

  method MergeResults(results: seq<Result>) returns (result: Result)
    ensures result == MergeFrom(ZERO, results)
  {
    result := ZERO;
    for i := 0 to |results|
      invariant result == MergeFrom(ZERO, results[..i]) && !Immediate(result)
    {
      var r := results[i];
      assert results[..i + 1][..i] == results[..i];
      if r == ZERO {
        continue;
      }
      if r.requeue && r.after == 0 {
        ImmediateStays(results, i + 1, r);
        return r;
      }
      if result == ZERO && r.after > 0 {
        result := r;
        continue;
      }
      if r.after > 0 && r.after < result.after {
        result := result.(after := r.after);
      }
    }
    assert results[..|results|] == results;
  }

  lemma {:induction false} ImmediateStays(results: seq<Result>, i: nat, r: Result)
    requires i <= |results| && Immediate(r) && MergeFrom(ZERO, results[..i]) == r
    ensures MergeFrom(ZERO, results) == r
    decreases |results|
  {
    if i == |results| {
      assert results[..i] == results;
    } else {
      var init := results[..|results| - 1];
      assert init[..i] == results[..i];
      ImmediateStays(init, i, r);
    }
  }

  /** How soon a result asks to be run again: at once, after a delay, or not at all. */
  function Demand(r: Result): Option<nat> {
    if Immediate(r) then Some(0) else if r.after > 0 then Some(r.after) else None
  }

  /** The sooner of two demands. */
  function Sooner(a: Option<nat>, b: Option<nat>): Option<nat> {
    if a.None? then b else if b.None? then a else if a.value <= b.value then a else b
  }

  /** What a merge can return. */
  predicate Settled(r: Result) {
    r == ZERO || Immediate(r) || r.after > 0
  }

  lemma StepDemand(result: Result, r: Result)
    requires Settled(result)
    ensures Settled(Step(result, r)) && Demand(Step(result, r)) == Sooner(Demand(result), Demand(r))
  {
  }

  lemma {:induction false} MergeFromConcat(result: Result, a: seq<Result>, b: seq<Result>)
    ensures MergeFrom(result, a + b) == MergeFrom(MergeFrom(result, a), b)
    decreases |b|
  {
    if b == [] {
      assert a + b == a;
    } else {
      MergeFromConcat(result, a, b[..|b| - 1]);
      assert (a + b)[..|a + b| - 1] == a + b[..|b| - 1];
    }
  }

  /** Merging two results is what the loop does to a list of two. */
  lemma MergePair(a: Result, b: Result)
    ensures MergeFrom(ZERO, [a, b]) == Merge(a, b)
  {
    assert [a, b][..1] == [a] && [a][..0] == [];
    assert MergeFrom(ZERO, [a]) == Step(ZERO, a);
  }

  lemma MergeAssociative(a: Result, b: Result, c: Result)
    ensures Merge(Merge(a, b), c) == Merge(a, Merge(b, c))
  {
  }

  // ---------- the chain ----------

  datatype Failure = NoError | Stop | Conflict | Fatal

  /** What running one handler gives. */
  datatype Outcome = Outcome(result: Result, failure: Failure)

  /** What the chain calls, in order. */
  datatype Event = Execute(handler: nat) | Update | Finalize(handler: nat)

  /** A handler: the outcome of running it, and whether finalizing it would fail, if it is a finalizer. */
  datatype Handler = Handler(outcome: Outcome, finalizeFails: Option<bool>)

  predicate Halts(h: Handler) {
    h.outcome.failure == Stop || h.outcome.failure == Fatal
  }

  /** How many handlers run: up to and including the first that stops the chain or fails for good. */
  function Executed(handlers: seq<Handler>): (n: nat)
    ensures n <= |handlers|
  {
    if handlers == [] then 0
    else
      var n := Executed(handlers[..|handlers| - 1]);
      if n == |handlers| - 1 && (n == 0 || !Halts(handlers[n - 1])) then n + 1 else n
  }

  function Executions(n: nat): seq<Event> {
    seq(n, (i: nat) => Execute(i))
  }

  function Finalizations(handlers: seq<Handler>): seq<Event> {
    if handlers == [] then []
    else
      Finalizations(handlers[..|handlers| - 1])
      + if handlers[|handlers| - 1].finalizeFails.Some? then [Finalize(|handlers| - 1)] else []
  }

  /** A handler's result as merged: a conflict adds the short delay. */
  function Contribution(h: Handler): Result {
    if h.outcome.failure == Conflict then Merge(h.outcome.result, CONFLICT_DELAY) else h.outcome.result
  }

  function Contributions(handlers: seq<Handler>): Result {
    if handlers == [] then ZERO
    else Merge(Contributions(handlers[..|handlers| - 1]), Contribution(handlers[|handlers| - 1]))
  }

  function WithUpdate(result: Result, update: Failure): Result {
    if update == Conflict then Merge(result, CONFLICT_DELAY) else result
  }

  predicate AnyFinalizerFails(handlers: seq<Handler>) {
    exists i :: 0 <= i < |handlers| && handlers[i].finalizeFails == Some(true)
  }

  /** An error is reported: by a handler that ran, by the update (other than a conflict), or by a finalizer. */
  predicate Fails(handlers: seq<Handler>, update: Failure) {
    || (exists i :: 0 <= i < Executed(handlers) && handlers[i].outcome.failure == Fatal)
    || update == Fatal || update == Stop
    || AnyFinalizerFails(handlers)
  }

  method RunHandlers(handlers: seq<Handler>) returns (result: Result, failed: bool, trace: seq<Event>)
    ensures trace == Executions(Executed(handlers))
    ensures result == Contributions(handlers[..Executed(handlers)])
    ensures failed <==> exists i :: 0 <= i < Executed(handlers) && handlers[i].outcome.failure == Fatal
  {
    result, failed, trace := ZERO, false, [];
    for i := 0 to |handlers|
      invariant Executed(handlers[..i]) == i && trace == Executions(i) && result == Contributions(handlers[..i])
      invariant !failed && forall j :: 0 <= j < i ==> !Halts(handlers[j])
    {
      var h := handlers[i];
      assert handlers[..i + 1][..i] == handlers[..i];
      trace := trace + [Execute(i)];
      var res := h.outcome.result;
      if h.outcome.failure == Stop {
        result := Merge(result, res);
        HaltsHere(handlers, i);
        return;
      } else if h.outcome.failure == Conflict {
        res := Merge(res, CONFLICT_DELAY);
      } else if h.outcome.failure == Fatal {
        failed := true;
      }
      result := Merge(result, res);
      if failed {
        HaltsHere(handlers, i);
        return;
      }
    }
    assert handlers[..|handlers|] == handlers;
  }

  lemma {:induction false} HaltsHere(handlers: seq<Handler>, i: nat)
    requires i < |handlers| && Halts(handlers[i]) && Executed(handlers[..i + 1]) == i + 1
    ensures Executed(handlers) == i + 1
    decreases |handlers|
  {
    if i + 1 == |handlers| {
      assert handlers[..i + 1] == handlers;
    } else {
      var init := handlers[..|handlers| - 1];
      assert init[..i + 1] == handlers[..i + 1];
      HaltsHere(init, i);
    }
  }

  method RunFinalizers(handlers: seq<Handler>) returns (failed: bool, trace: seq<Event>)
    ensures trace == Finalizations(handlers)
    ensures failed <==> AnyFinalizerFails(handlers)
  {
    failed, trace := false, [];
    for i := 0 to |handlers|
      invariant trace == Finalizations(handlers[..i])
      invariant failed <==> exists j :: 0 <= j < i && handlers[j].finalizeFails == Some(true)
    {
      assert handlers[..i + 1][..i] == handlers[..i];
      var finalizer := handlers[i].finalizeFails;
      if finalizer.None? {
        continue;
      }
      trace := trace + [Finalize(i)];
      if finalizer.value {
        failed := true;
      }
    }
    assert handlers[..|handlers|] == handlers;
  }

  /** Handlers, then the update once, then every finalizer once in order, whatever went wrong before. */
  method Reconcile(handlers: seq<Handler>, update: Failure) returns (result: Result, failed: bool, trace: seq<Event>)
    ensures trace == Executions(Executed(handlers)) + [Update] + Finalizations(handlers)
    ensures failed <==> Fails(handlers, update)
    ensures failed ==> result == ZERO
    ensures !failed ==> result == WithUpdate(Contributions(handlers[..Executed(handlers)]), update)
  {
    result, failed, trace := RunHandlers(handlers);
    trace := trace + [Update];
    if update == Conflict {
      result := Merge(result, CONFLICT_DELAY);
    } else if update != NoError {
      failed := true;
    }
    var finalizerFailed, finalizations := RunFinalizers(handlers);
    trace := trace + finalizations;
    failed := failed || finalizerFailed;
    if failed {
      result := ZERO;
    }
  }

  // ---------- what it means ----------

  /** The handlers that run are exactly those before the first halting one, and that one. */
  lemma {:induction false} ExecutedIsPrefix(handlers: seq<Handler>)
    ensures forall i :: 0 <= i < Executed(handlers) - 1 ==>
              handlers[i].outcome.failure == NoError || handlers[i].outcome.failure == Conflict
    ensures Executed(handlers) < |handlers| ==>
              && Executed(handlers) > 0
              && var last := handlers[Executed(handlers) - 1].outcome.failure; last == Stop || last == Fatal
  {
    if handlers != [] {
      ExecutedIsPrefix(handlers[..|handlers| - 1]);
    }
  }

  /** Each of the three makes the reconciliation fail on its own, and nothing else does. */
  lemma FailureSources(handlers: seq<Handler>, update: Failure)
    ensures forall i :: 0 <= i < Executed(handlers) && handlers[i].outcome.failure == Fatal ==> Fails(handlers, update)
    ensures update != NoError && update != Conflict ==> Fails(handlers, update)
    ensures forall i :: 0 <= i < |handlers| && handlers[i].finalizeFails == Some(true) ==> Fails(handlers, update)
    ensures Fails(handlers, update) && (update == NoError || update == Conflict) ==>
              || (exists i :: 0 <= i < Executed(handlers) && handlers[i].outcome.failure == Fatal)
              || (exists i :: 0 <= i < |handlers| && handlers[i].finalizeFails == Some(true))
  {
  }

  /** The finalizers are exactly the finalizing handlers. */
  lemma {:induction false} FinalizationsOf(handlers: seq<Handler>, e: Event)
    ensures e in Finalizations(handlers) <==>
            e.Finalize? && e.handler < |handlers| && handlers[e.handler].finalizeFails.Some?
  {
    if handlers != [] {
      FinalizationsOf(handlers[..|handlers| - 1], e);
    }
  }

  /** Each is finalized once, in order. */
  lemma {:induction false} FinalizationsAreOrdered(handlers: seq<Handler>, a: nat, b: nat)
    requires a < b < |Finalizations(handlers)|
    ensures var x, y := Finalizations(handlers)[a], Finalizations(handlers)[b];
            x.Finalize? && y.Finalize? && x.handler < y.handler
  {
    var n := |handlers| - 1;
    var init := Finalizations(handlers[..n]);
    if b < |init| {
      FinalizationsAreOrdered(handlers[..n], a, b);
    } else {
      assert init[a] in init;
      FinalizationsOf(handlers[..n], init[a]);
    }
  }

  function HandlerDemand(h: Handler): Option<nat> {
    if h.outcome.failure == Conflict then Sooner(Demand(h.outcome.result), Some(100_000)) else Demand(h.outcome.result)
  }

  lemma MergeDemand(a: Result, b: Result)
    ensures Settled(Merge(a, b)) && Demand(Merge(a, b)) == Sooner(Demand(a), Demand(b))
  {
    StepDemand(ZERO, a);
    StepDemand(Step(ZERO, a), b);
  }

  /** The merged demand is the soonest: one of the handlers makes it, and none asks for less. */
  lemma {:induction false} ContributionsAreSoonest(handlers: seq<Handler>)
    ensures Demand(Contributions(handlers)).None? <==>
            forall i :: 0 <= i < |handlers| ==> HandlerDemand(handlers[i]).None?
    ensures Demand(Contributions(handlers)).Some? ==>
              && (exists i :: 0 <= i < |handlers| && HandlerDemand(handlers[i]) == Demand(Contributions(handlers)))
              && (forall i :: 0 <= i < |handlers| && HandlerDemand(handlers[i]).Some? ==>
                                Demand(Contributions(handlers)).value <= HandlerDemand(handlers[i]).value)
  {
    if handlers != [] {
      var n := |handlers| - 1;
      var init, h := handlers[..n], handlers[n];
      ContributionsAreSoonest(init);
      MergeDemand(h.outcome.result, CONFLICT_DELAY);
      MergeDemand(Contributions(init), Contribution(h));
      assert Demand(Contribution(h)) == HandlerDemand(h);
      var d := Demand(Contributions(handlers));
      if d.Some? && d == Demand(Contributions(init)) {
        var i :| 0 <= i < |init| && HandlerDemand(init[i]) == d;
        assert HandlerDemand(handlers[i]) == d;
      }
    }
  }

  /** The chain asks to run again at the soonest demand of the handlers that ran and of a conflicting update. */
  lemma ReconcileDemand(handlers: seq<Handler>, update: Failure)
    ensures Demand(WithUpdate(Contributions(handlers[..Executed(handlers)]), update))
         == Sooner(Demand(Contributions(handlers[..Executed(handlers)])),
                   if update == Conflict then Some(100_000) else None)
  {
    MergeDemand(Contributions(handlers[..Executed(handlers)]), CONFLICT_DELAY);
  }
}
