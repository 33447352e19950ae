/** What holds over every client run of the priority work queue. */
module QueueRuns {
  import opened QueueSpec

  datatype Op<T> =
    | EnsurePriorityOp(item: T, priority: int)
    | ForgetOp(item: T)
    | AddOp(item: T)
    | GetOp(item: T)
    | GetShutdownOp
    | DoneOp(item: T)
    | ShutDownOp
    | DrainBeginOp
    | DrainEndOp

  /** When a call can run to its end. Get and drain wait otherwise; Done must not name a queued item. */
  ghost predicate Enabled<T>(s: State<T>, op: Op<T>) {
    match op
    case GetOp(item) => IsBest(s.queued, item)
    case GetShutdownOp => s.queued == map[] && s.shuttingDown
    case DoneOp(item) => item !in s.queued
    case DrainEndOp => s.draining && s.shuttingDown && s.queued == map[] && s.processing == {}
    case _ => true
  }

  function Next<T>(s: State<T>, op: Op<T>): State<T> {
    match op
    case EnsurePriorityOp(item, priority) => EnsurePriority(s, item, priority)
    case ForgetOp(item) => ClearPriority(s, item)
    case AddOp(item) => Add(s, item)
    case GetOp(item) => HandOut(s, item)
    case GetShutdownOp => s
    case DoneOp(item) => Done(s, item)
    case ShutDownOp => s.(shuttingDown := true)
    case DrainBeginOp => s.(shuttingDown := true, draining := true)
    case DrainEndOp => s
  }

  /** A run: the states passed through and the calls between them, from the empty queue. */
  datatype Run<T> = Run(states: seq<State<T>>, ops: seq<Op<T>>) {
    ghost predicate Valid() {
      && |states| == |ops| + 1
      && states[0] == Init()
      && forall i :: 0 <= i < |ops| ==> Enabled(states[i], ops[i]) && states[i + 1] == Next(states[i], ops[i])
    }
  }

  // ---------- the joint invariant ----------

  /** A queued entry is never below the item's recorded priority, and no priority is negative. */
  ghost predicate Bounded<T>(s: State<T>) {
    && (forall x :: x in s.priorities ==> s.priorities[x] >= 0)
    && (forall x :: x in s.queued ==> s.queued[x].priority >= PriorityOf(s, x))
  }

  ghost predicate Invariant<T>(s: State<T>) {
    Consistent(s) && Bounded(s)
  }

  lemma StepKeepsConsistent<T>(s: State<T>, op: Op<T>)
    requires Consistent(s) && Enabled(s, op)
    ensures Consistent(Next(s, op))
  {
    match op
    case EnsurePriorityOp(item, priority) => EnsurePriorityKeeps(s, item, priority);
    case AddOp(item) => AddKeeps(s, item);
    case GetOp(item) => HandOutKeeps(s, item);
    case DoneOp(item) => DoneKeeps(s, item);
    case _ =>
  }

  lemma StepKeepsBounded<T>(s: State<T>, op: Op<T>)
    requires Bounded(s)
    ensures Bounded(Next(s, op))
  {
  }

  lemma {:induction false} InvariantHolds<T>(run: Run<T>, i: nat)
    requires run.Valid() && i < |run.states|
    ensures Invariant(run.states[i])
  {
    if i > 0 {
      InvariantHolds(run, i - 1);
      StepKeepsConsistent(run.states[i - 1], run.ops[i - 1]);
      StepKeepsBounded(run.states[i - 1], run.ops[i - 1]);
    }
  }

  /** So the second Add of a queued item never finds a priority to lift: ensurePriority already did. */
  lemma RepeatedAddChangesNothing<T>(run: Run<T>, i: nat)
    requires run.Valid() && i < |run.ops| && run.ops[i].AddOp? && run.ops[i].item in run.states[i].dirty
    ensures run.states[i + 1] == run.states[i]
  {
    InvariantHolds(run, i);
  }

  /** One sequence number per step at most: the 64-bit counter cannot wrap in a run shorter than 2^64 steps. */
  lemma {:induction false} CounterWithinSteps<T>(run: Run<T>, i: nat)
    requires run.Valid() && i < |run.states|
    ensures run.states[i].seqno <= i
  {
    if i > 0 {
      CounterWithinSteps(run, i - 1);
    }
  }

  // ---------- hand-out order ----------

  /** The item handed out has a greater priority than every other waiting item, or the same and was queued earlier. */
  lemma GreatestLeavesFirst<T>(run: Run<T>, i: nat, x: T, y: T)
    requires run.Valid() && i < |run.ops| && run.ops[i] == GetOp(x) && y in run.states[i].queued && y != x
    ensures x in run.states[i].queued
    ensures var a, b := run.states[i].queued[x], run.states[i].queued[y];
            a.priority > b.priority || (a.priority == b.priority && a.seqno < b.seqno)
  {
    assert Enabled(run.states[i], run.ops[i]);
  }

  /** x is queued in both, at the same place in line and not at a lower priority. */
  ghost predicate StillWaits<T>(s: State<T>, s': State<T>, x: T) {
    && x in s.queued && x in s'.queued
    && s'.queued[x].seqno == s.queued[x].seqno && s'.queued[x].priority >= s.queued[x].priority
  }

  lemma StepLetsWait<T>(s: State<T>, op: Op<T>, x: T)
    requires Consistent(s) && Enabled(s, op) && x in s.queued && op != GetOp(x)
    ensures StillWaits(s, Next(s, op), x)
  {
  }

  /** A queued entry stays queued, with its place in line and at least its priority, until it is handed out. */
  lemma {:induction false} StaysQueued<T>(run: Run<T>, x: T, from: nat, end: nat)
    requires run.Valid() && from <= end < |run.states| && x in run.states[from].queued
    requires forall t :: from <= t < end ==> run.ops[t] != GetOp(x)
    ensures StillWaits(run.states[from], run.states[end], x)
    decreases end
  {
    if from < end {
      StaysQueued(run, x, from, end - 1);
      InvariantHolds(run, end - 1);
      StepLetsWait(run.states[end - 1], run.ops[end - 1], x);
    }
  }

  /**
   No overtaking: if y is queued behind x at some moment and its priority is not lifted
   while it waits, x is handed out before y is. With equal priorities this is FIFO order.
   */
  lemma NoOvertaking<T>(run: Run<T>, x: T, y: T, from: nat, end: nat)
    requires run.Valid() && from <= end < |run.ops| && run.ops[end] == GetOp(y) && x != y
    requires x in run.states[from].queued && y in run.states[from].queued
    requires Less(run.states[from].queued[x], run.states[from].queued[y])
    requires forall t :: from <= t < end ==> run.ops[t] != GetOp(y)
    requires run.states[end].queued[y].priority == run.states[from].queued[y].priority
    ensures exists t :: from <= t < end && run.ops[t] == GetOp(x)
  {
    assert Enabled(run.states[end], run.ops[end]);
    StaysQueued(run, y, from, end);
    if forall t :: from <= t < end ==> run.ops[t] != GetOp(x) {
      StaysQueued(run, x, from, end);
    }
  }

  /** Entries queued later get later sequence numbers, so order of queueing is the order of `seqno`. */
  lemma LaterQueuedRanksBehind<T>(run: Run<T>, x: T, y: T, i: nat)
    requires run.Valid() && i < |run.ops|
    requires x in run.states[i].queued && y !in run.states[i].queued && y in run.states[i + 1].queued
    ensures x in run.states[i + 1].queued && run.states[i + 1].queued[x].seqno < run.states[i + 1].queued[y].seqno
  {
    InvariantHolds(run, i);
    assert run.states[i + 1] == Next(run.states[i], run.ops[i]) && Enabled(run.states[i], run.ops[i]);
  }

  /** FIFO within a priority: x was waiting when y was queued at its priority, so x leaves first. */
  lemma FirstInFirstOut<T>(run: Run<T>, x: T, y: T, queued: nat, end: nat)
    requires run.Valid() && queued < end < |run.ops| && run.ops[end] == GetOp(y)
    requires x in run.states[queued].queued && y !in run.states[queued].queued && y in run.states[queued + 1].queued
    requires forall t :: queued < t < end ==> run.ops[t] != GetOp(y)
    requires run.states[queued + 1].queued[y].priority == run.states[end].queued[y].priority
    requires x in run.states[queued + 1].queued ==>
               run.states[queued + 1].queued[x].priority == run.states[end].queued[y].priority
    ensures exists t :: queued < t < end && run.ops[t] == GetOp(x)
  {
    LaterQueuedRanksBehind(run, x, y, queued);
    NoOvertaking(run, x, y, queued + 1, end);
  }

  // ---------- recorded priorities ----------

  /** Step t asks for a priority for `item`. */
  ghost predicate Requests<T>(run: Run<T>, item: T, t: int) {
    0 <= t < |run.ops| && run.ops[t].EnsurePriorityOp? && run.ops[t].item == item
  }

  /** `p` is the greatest clamped priority requested for `item` in steps from..end-1. */
  ghost predicate IsGreatestRequest<T>(run: Run<T>, item: T, from: nat, end: nat, p: int) {
    && (exists t :: from <= t < end && Requests(run, item, t) && p == Clamp(run.ops[t].priority))
    && (forall t :: from <= t < end && Requests(run, item, t) ==> p >= Clamp(run.ops[t].priority))
  }

  lemma StepRecords<T>(s: State<T>, op: Op<T>, item: T)
    requires op != ForgetOp(item)
    ensures var s' := Next(s, op);
            if op.EnsurePriorityOp? && op.item == item then
              && item in s'.priorities
              && s'.priorities[item] ==
                 if item in s.priorities && s.priorities[item] >= Clamp(op.priority) then s.priorities[item]
                 else Clamp(op.priority)
            else
              && (item in s'.priorities <==> item in s.priorities)
              && (item in s.priorities ==> s'.priorities[item] == s.priorities[item])
  {
  }

  /**
   The recorded priority is the greatest clamped priority requested since the last
   Forget: `from` is the step after it, or 0 when there was none.
   */
  lemma {:induction false} RecordedIsGreatestRequested<T>(run: Run<T>, item: T, from: nat, end: nat)
    requires run.Valid() && from <= end < |run.states|
    requires from == 0 || run.ops[from - 1] == ForgetOp(item)
    requires forall t :: from <= t < end ==> run.ops[t] != ForgetOp(item)
    ensures item in run.states[end].priorities <==> exists t :: from <= t < end && Requests(run, item, t)
    ensures item in run.states[end].priorities ==>
              IsGreatestRequest(run, item, from, end, run.states[end].priorities[item])
    decreases end
  {
    if from == end {
      assert from > 0 ==> run.states[end] == Next(run.states[end - 1], run.ops[end - 1]);
    } else {
      RecordedIsGreatestRequested(run, item, from, end - 1);
      StepRecords(run.states[end - 1], run.ops[end - 1], item);
      assert run.states[end] == Next(run.states[end - 1], run.ops[end - 1]);
      assert Requests(run, item, end - 1) <==> run.ops[end - 1].EnsurePriorityOp? && run.ops[end - 1].item == item;
    }
  }

  /** `p` is 0 or was requested for the item before `end`. */
  ghost predicate IsZeroOrRequested<T>(run: Run<T>, item: T, end: nat, p: int) {
    p == 0 || exists t :: 0 <= t < end && Requests(run, item, t) && p == run.ops[t].priority
  }

  lemma StaysRequested<T>(run: Run<T>, item: T, end: nat, p: int)
    requires IsZeroOrRequested(run, item, end, p)
    ensures IsZeroOrRequested(run, item, end + 1, p)
  {
  }

  /** No priority is made up: what is recorded for an item, and what it waits at, is 0 or was requested for it. */
  lemma {:induction false} PrioritiesAreRequested<T>(run: Run<T>, item: T, end: nat)
    requires run.Valid() && end < |run.states|
    ensures item in run.states[end].priorities ==>
              var p := run.states[end].priorities[item]; IsZeroOrRequested(run, item, end, p) && p >= 0
    ensures item in run.states[end].queued ==>
              IsZeroOrRequested(run, item, end, run.states[end].queued[item].priority)
    ensures item in run.states[end].queued ==> run.states[end].queued[item].priority >= 0
  {
    if end > 0 {
      var s, op := run.states[end - 1], run.ops[end - 1];
      PrioritiesAreRequested(run, item, end - 1);
      assert run.states[end] == Next(s, op);
      if item in s.priorities {
        StaysRequested(run, item, end - 1, s.priorities[item]);
      }
      if item in s.queued {
        StaysRequested(run, item, end - 1, s.queued[item].priority);
      }
      assert Requests(run, item, end - 1) <==> op.EnsurePriorityOp? && op.item == item;
    }
  }

  /** What AddWithPriority promises: until the next Forget, the item never waits below the requested priority. */
  lemma RequestIsHonoured<T>(run: Run<T>, item: T, at: nat, end: nat)
    requires run.Valid() && at < end < |run.states| && Requests(run, item, at)
    requires forall t :: at <= t < end ==> run.ops[t] != ForgetOp(item)
    requires item in run.states[end].queued
    ensures run.states[end].queued[item].priority >= run.ops[at].priority
  {
    InvariantHolds(run, end);
    RecordedKeeps(run, item, at, end);
  }

  lemma {:induction false} RecordedKeeps<T>(run: Run<T>, item: T, at: nat, end: nat)
    requires run.Valid() && at < end < |run.states| && Requests(run, item, at)
    requires forall t :: at <= t < end ==> run.ops[t] != ForgetOp(item)
    ensures item in run.states[end].priorities && run.states[end].priorities[item] >= Clamp(run.ops[at].priority)
    decreases end
  {
    StepRecords(run.states[end - 1], run.ops[end - 1], item);
    if at < end - 1 {
      RecordedKeeps(run, item, at, end - 1);
    }
  }

  /**
   `p` is the greatest of the priority recorded for the item when step `queued` queued it
   and the clamped priorities requested since.
   */
  ghost predicate IsWaitingPriority<T>(run: Run<T>, item: T, queued: nat, end: nat, p: int)
    requires queued < |run.states|
  {
    var first := PriorityOf(run.states[queued], item);
    && (p == first || exists t :: queued < t < end && Requests(run, item, t) && p == Clamp(run.ops[t].priority))
    && p >= first && (forall t :: queued < t < end && Requests(run, item, t) ==> p >= Clamp(run.ops[t].priority))
  }

  /** An item is queued at its recorded priority. */
  lemma QueuedAtRecorded<T>(s: State<T>, op: Op<T>, item: T)
    requires item !in s.queued && item in Next(s, op).queued
    ensures Next(s, op).queued[item].priority == PriorityOf(s, item)
  {
  }

  /** So it is queued at the greatest priority requested since the last Forget, or at 0 when none was. */
  lemma QueuedAtGreatestRequested<T>(run: Run<T>, item: T, from: nat, queued: nat)
    requires run.Valid() && from <= queued < |run.ops| && (from == 0 || run.ops[from - 1] == ForgetOp(item))
    requires forall t :: from <= t < queued ==> run.ops[t] != ForgetOp(item)
    requires item !in run.states[queued].queued && item in run.states[queued + 1].queued
    ensures var p := run.states[queued + 1].queued[item].priority;
            if exists t :: from <= t < queued && Requests(run, item, t)
            then IsGreatestRequest(run, item, from, queued, p) else p == 0
  {
    RecordedIsGreatestRequested(run, item, from, queued);
    QueuedAtRecorded(run.states[queued], run.ops[queued], item);
  }

  /** One more step of waiting. */
  lemma WaitingPriorityGrows<T>(run: Run<T>, item: T, queued: nat, end: nat, p: int, p': int)
    requires queued < end < |run.ops| && queued < |run.states| && IsWaitingPriority(run, item, queued, end, p)
    requires var lifted := Requests(run, item, end) && Clamp(run.ops[end].priority) > p;
             p' == if lifted then Clamp(run.ops[end].priority) else p
    ensures IsWaitingPriority(run, item, queued, end + 1, p')
  {
    if p' == p && p != PriorityOf(run.states[queued], item) {
      var t :| queued < t < end && Requests(run, item, t) && p == Clamp(run.ops[t].priority);
      assert queued < t < end + 1 && Requests(run, item, t);
    } else if p' != p {
      assert queued < end < end + 1 && Requests(run, item, end);
    }
  }

  /** The priority of a waiting item, exactly; a Forget while it waits changes nothing. */
  lemma {:induction false} WaitsAtGreatest<T>(run: Run<T>, item: T, queued: nat, end: nat)
    requires run.Valid() && queued < end < |run.states|
    requires item !in run.states[queued].queued && item in run.states[queued + 1].queued
    requires forall t :: queued < t < end ==> run.ops[t] != GetOp(item)
    ensures item in run.states[end].queued
    ensures IsWaitingPriority(run, item, queued, end, run.states[end].queued[item].priority)
    decreases end
  {
    var last := end - 1;
    if queued == last {
      QueuedAtRecorded(run.states[queued], run.ops[queued], item);
    } else {
      WaitsAtGreatest(run, item, queued, last);
      InvariantHolds(run, last);
      WaitingStep(run.states[last], run.ops[last], item);
      WaitingPriorityGrows(run, item, queued, last, run.states[last].queued[item].priority,
                           run.states[end].queued[item].priority);
    }
  }

  /** A step lifts a waiting item exactly to a greater request. */
  lemma WaitingStep<T>(s: State<T>, op: Op<T>, item: T)
    requires Invariant(s) && Enabled(s, op) && item in s.queued && op != GetOp(item)
    ensures item in Next(s, op).queued
    ensures var p := s.queued[item].priority;
            Next(s, op).queued[item].priority ==
            if op.EnsurePriorityOp? && op.item == item && Clamp(op.priority) > p then Clamp(op.priority) else p
  {
  }

  /** A priority requested while the item is processed is lost when Forget comes before Done. */
  lemma ForgetBeforeDone()
    ensures exists run: Run<int> ::
              && run.Valid()
              && run.ops == [AddOp(1), GetOp(1), EnsurePriorityOp(1, 10), AddOp(1), ForgetOp(1), DoneOp(1)]
              && run.states[6].queued == map[1 := Rank(0, 2)]
  {
    var s0 := Init<int>();
    var s1 := s0.(queued := map[1 := Rank(0, 1)], dirty := {1}, seqno := 1);
    var s2 := s0.(processing := {1}, seqno := 1);
    var s3 := s2.(priorities := map[1 := 10]);
    var s4 := s3.(dirty := {1});
    var s5 := s4.(priorities := map[]);
    var s6 := s1.(queued := map[1 := Rank(0, 2)], seqno := 2);
    assert Next(s0, AddOp(1)) == s1 && IsBest(s1.queued, 1);
    assert Next(s1, GetOp(1)) == s2;
    assert Next(s2, EnsurePriorityOp(1, 10)) == s3 && Next(s3, AddOp(1)) == s4;
    assert Next(s4, ForgetOp(1)) == s5 && Next(s5, DoneOp(1)) == s6;
    var run := Run([s0, s1, s2, s3, s4, s5, s6],
                   [AddOp(1), GetOp(1), EnsurePriorityOp(1, 10), AddOp(1), ForgetOp(1), DoneOp(1)]);
    assert run.Valid();
  }

  // ---------- de-duplication and delivery ----------

  /** No item is in two workers' hands: between two hand-outs of an item it was returned. */
  lemma {:induction false} OneWorkerAtATime<T>(run: Run<T>, x: T, i: nat, j: nat)
    requires run.Valid() && i < j < |run.ops| && run.ops[i] == GetOp(x) && run.ops[j] == GetOp(x)
    ensures exists t :: i < t < j && run.ops[t] == DoneOp(x)
  {
    assert run.states[i + 1] == Next(run.states[i], run.ops[i]);
    assert Enabled(run.states[j], run.ops[j]);
    InvariantHolds(run, j);
    if forall t :: i < t < j ==> run.ops[t] != DoneOp(x) {
      StaysProcessing(run, x, i + 1, j);
    }
  }

  lemma {:induction false} StaysProcessing<T>(run: Run<T>, x: T, from: nat, end: nat)
    requires run.Valid() && from <= end < |run.states| && x in run.states[from].processing
    requires forall t :: from <= t < end ==> run.ops[t] != DoneOp(x)
    ensures x in run.states[end].processing
    decreases end
  {
    if from < end {
      StaysProcessing(run, x, from, end - 1);
      assert run.states[end] == Next(run.states[end - 1], run.ops[end - 1]);
    }
  }

  /** Every accepted Add is answered: the item has been handed out since, or is still owed a hand-out. */
  lemma {:induction false} AddIsAnswered<T>(run: Run<T>, x: T, i: nat, end: nat)
    requires run.Valid() && i < end < |run.states| && run.ops[i] == AddOp(x) && !run.states[i].shuttingDown
    ensures x in run.states[end].dirty || exists t :: i < t < end && run.ops[t] == GetOp(x)
    decreases end
  {
    assert run.states[end] == Next(run.states[end - 1], run.ops[end - 1]);
    if i < end - 1 {
      AddIsAnswered(run, x, i, end - 1);
    }
  }

  function AcceptedAdds<T(==)>(run: Run<T>, x: T, n: nat): nat
    requires n <= |run.ops| <= |run.states|
  {
    if n == 0 then 0
    else AcceptedAdds(run, x, n - 1) + if run.ops[n - 1] == AddOp(x) && !run.states[n - 1].shuttingDown then 1 else 0
  }

  function HandOuts<T(==)>(run: Run<T>, x: T, n: nat): nat
    requires n <= |run.ops|
  {
    if n == 0 then 0 else HandOuts(run, x, n - 1) + if run.ops[n - 1] == GetOp(x) then 1 else 0
  }

  /** Hand-outs, with the one still owed, never exceed accepted Adds. */
  lemma {:induction false} HandOutsWithinAdds<T>(run: Run<T>, x: T, n: nat)
    requires run.Valid() && n <= |run.ops|
    ensures HandOuts(run, x, n) + (if x in run.states[n].dirty then 1 else 0) <= AcceptedAdds(run, x, n)
  {
    if n > 0 {
      HandOutsWithinAdds(run, x, n - 1);
      InvariantHolds(run, n - 1);
      assert Enabled(run.states[n - 1], run.ops[n - 1]) && run.states[n] == Next(run.states[n - 1], run.ops[n - 1]);
    }
  }

  // ---------- refinement of a plain de-duplicating queue ----------

  /** A work queue without priorities: any dirty item that no worker holds may be handed out. */
  datatype Plain<T> = Plain(dirty: set<T>, processing: set<T>, shuttingDown: bool)

  ghost predicate PlainStep<T>(s: Plain<T>, op: Op<T>, s': Plain<T>) {
    match op
    case AddOp(item) => s' == if s.shuttingDown then s else s.(dirty := s.dirty + {item})
    case GetOp(item) =>
      item in s.dirty - s.processing
      && s' == s.(dirty := s.dirty - {item}, processing := s.processing + {item})
    case GetShutdownOp => s.shuttingDown && s.dirty <= s.processing && s' == s
    case DoneOp(item) => s' == s.(processing := s.processing - {item})
    case ShutDownOp => s' == s.(shuttingDown := true)
    case DrainBeginOp => s' == s.(shuttingDown := true)
    case DrainEndOp => s == s' == Plain({}, {}, true)
    case _ => s' == s
  }

  function Forgetting<T>(s: State<T>): Plain<T> {
    Plain(s.dirty, s.processing, s.shuttingDown)
  }

  /** Every step of every run is a step of the plain queue. */
  lemma RefinesPlainQueue<T>(run: Run<T>, i: nat)
    requires run.Valid() && i < |run.ops|
    ensures PlainStep(Forgetting(run.states[i]), run.ops[i], Forgetting(run.states[i + 1]))
  {
    InvariantHolds(run, i);
    assert Enabled(run.states[i], run.ops[i]) && run.states[i + 1] == Next(run.states[i], run.ops[i]);
  }

  // ---------- shutdown ----------

  lemma ShutdownStays<T>(s: State<T>, op: Op<T>)
    requires Consistent(s) && Enabled(s, op) && s.shuttingDown
    ensures var s' := Next(s, op); s'.shuttingDown && s'.dirty <= s.dirty && (op.GetOp? ==> s'.dirty < s.dirty)
  {
    if op.GetOp? {
      assert op.item in s.dirty && op.item !in Next(s, op).dirty;
    }
  }

  function AllHandOuts<T>(run: Run<T>, from: nat, end: nat): nat
    requires from <= end <= |run.ops|
  {
    if from == end then 0 else AllHandOuts(run, from, end - 1) + if run.ops[end - 1].GetOp? then 1 else 0
  }

  /** Once shutting down, at most |dirty| more items are handed out. */
  lemma {:induction false} HandOutsAfterShutdown<T>(run: Run<T>, from: nat, end: nat)
    requires run.Valid() && from <= end <= |run.ops| && run.states[from].shuttingDown
    ensures run.states[end].shuttingDown
    ensures AllHandOuts(run, from, end) + |run.states[end].dirty| <= |run.states[from].dirty|
    decreases end
  {
    if from < end {
      HandOutsAfterShutdown(run, from, end - 1);
      InvariantHolds(run, end - 1);
      ShutdownStays(run.states[end - 1], run.ops[end - 1]);
      SubsetSize(run.states[end].dirty, run.states[end - 1].dirty);
    }
  }

  lemma SubsetSize<T>(a: set<T>, b: set<T>)
    requires a <= b
    ensures |a| <= |b| && (a < b ==> |a| < |b|)
  {
    assert b == a + (b - a);
  }

  /** After a drain has returned, the queue is empty for good: no later hand-out, every Get reports shutdown. */
  lemma {:induction false} DrainedStaysEmpty<T>(run: Run<T>, drained: nat, end: nat)
    requires run.Valid() && drained < |run.ops| && run.ops[drained] == DrainEndOp && drained < end < |run.states|
    ensures run.states[end].shuttingDown && run.states[end].dirty == run.states[end].processing == {}
    ensures run.states[end].queued == map[]
    ensures end < |run.ops| ==> !run.ops[end].GetOp? && Enabled(run.states[end], GetShutdownOp)
    decreases end
  {
    InvariantHolds(run, end - 1);
    assert Enabled(run.states[end - 1], run.ops[end - 1]);
    assert run.states[end] == Next(run.states[end - 1], run.ops[end - 1]);
    if drained < end - 1 {
      DrainedStaysEmpty(run, drained, end - 1);
    }
    assert end < |run.ops| ==> Enabled(run.states[end], run.ops[end]);
  }

  /** The condition a drain waits for. */
  predicate DrainDone<T>(s: State<T>) {
    s.queued.Keys == {} && s.processing == {}
  }

  /** When Done broadcasts. */
  predicate Broadcasts<T>(s: State<T>, op: Op<T>) {
    op.DoneOp? && s.shuttingDown && s.processing - {op.item} == {}
  }

  /** No lost wake-up for a drain: the step that makes its condition true is a Done that broadcasts. */
  lemma DrainIsWoken<T>(run: Run<T>, i: nat)
    requires run.Valid() && i < |run.ops| && run.states[i].shuttingDown
    requires !DrainDone(run.states[i]) && DrainDone(run.states[i + 1])
    ensures Broadcasts(run.states[i], run.ops[i])
  {
    assert Enabled(run.states[i], run.ops[i]) && run.states[i + 1] == Next(run.states[i], run.ops[i]);
  }
}
