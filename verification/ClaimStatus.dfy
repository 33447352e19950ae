/**
 Device statuses on a shared resource claim. Every driver keeps its own entries: it
 reads the claim, replaces its entries and writes the claim back under a version check.
 */
module ClaimStatus {
  import opened Common
  import opened Sequences

  datatype Condition = Condition(kind: string, time: int)

  datatype AllocationResult = AllocationResult(
    driver: string, pool: string, device: string, shareID: Option<string>, bindingConditions: seq<string>)

  datatype Status = Status(
    driver: string, pool: string, device: string, shareID: Option<string>, conditions: seq<Condition>)

  const READY := "Ready"

  // ---------- building a driver's statuses ----------

  /** Ready, then the result's binding conditions, without blanks. */
  function WantedKinds(binding: seq<string>): seq<string> {
    Filter([READY] + binding, NonBlank)
  }

  function Kinds(conditions: seq<Condition>): seq<string> {
    seq(|conditions|, i requires 0 <= i < |conditions| => conditions[i].kind)
  }

  method BuildDeviceConditions(binding: seq<string>, now: int) returns (out: seq<Condition>)
    ensures Kinds(out) == Dedup(WantedKinds(binding))
    ensures forall c :: c in out ==> c.time == now
  {
    out := [];
    var seen: set<string> := {};
    var all := [READY] + binding;
    ghost var wanted: seq<string> := [];
    for i := 0 to |all|
      invariant wanted == Filter(all[..i], NonBlank) && Kinds(out) == Dedup(wanted)
      invariant forall kind :: kind in seen <==> kind in wanted
      invariant forall c :: c in out ==> c.time == now
    {
      var kind := all[i];
      assert all[..i + 1][..i] == all[..i];
      if kind != "" {
        assert (wanted + [kind])[..|wanted|] == wanted;
        if kind !in seen {
          assert Kinds(out + [Condition(kind, now)]) == Kinds(out) + [kind];
          out := out + [Condition(kind, now)];
          seen := seen + {kind};
        }
        wanted := wanted + [kind];
      }
    }
    assert all[..|all|] == all;
  }

  /** The kinds of the conditions a result asks for, each once, all set at one time. */
  ghost predicate AreConditionsFor(conditions: seq<Condition>, binding: seq<string>, now: int) {
    Kinds(conditions) == Dedup(WantedKinds(binding)) && forall c :: c in conditions ==> c.time == now
  }

  /** One status per result of this driver, in the order of the results, about the same device. */
  method BuildDeviceStatuses(results: seq<AllocationResult>, driver: string, now: int) returns (out: seq<Status>)
    ensures var own := Filter(results, (r: AllocationResult) => r.driver == driver);
            |out| == |own| && forall i :: 0 <= i < |own| ==>
              && out[i].driver == own[i].driver && out[i].pool == own[i].pool && out[i].device == own[i].device
              && out[i].shareID == own[i].shareID
              && AreConditionsFor(out[i].conditions, own[i].bindingConditions, now)
    ensures forall s :: s in out ==> s.driver == driver
  {
    out := [];
    ghost var keep := (r: AllocationResult) => r.driver == driver;
    ghost var own: seq<AllocationResult> := [];
    for n := 0 to |results|
      invariant own == Filter(results[..n], keep) && |out| == |own|
      invariant forall i :: 0 <= i < |own| ==>
                  && out[i].driver == own[i].driver && out[i].pool == own[i].pool && out[i].device == own[i].device
                  && out[i].shareID == own[i].shareID
                  && AreConditionsFor(out[i].conditions, own[i].bindingConditions, now)
      invariant forall s :: s in out ==> s.driver == driver
    {
      assert results[..n + 1][..n] == results[..n];
      var result := results[n];
      if result.driver != driver {
        continue;
      }
      var conditions := BuildDeviceConditions(result.bindingConditions, now);
      out := out + [Status(result.driver, result.pool, result.device, result.shareID, conditions)];
      own := own + [result];
    }
    assert results[..|results|] == results;
    assert Filter(results, keep) == Filter(results, (r: AllocationResult) => r.driver == driver);
  }

  /** Ready comes first; the kinds are Ready and the binding conditions that are not blank, each once. */
  lemma ConditionsListed(binding: seq<string>)
    ensures var kinds := Dedup(WantedKinds(binding));
            && kinds != [] && kinds[0] == "Ready"
            && (forall k :: k in kinds <==> k == "Ready" || (k in binding && k != ""))
            && (forall i, j :: 0 <= i < j < |kinds| ==> kinds[i] != kinds[j])
  {
    FilterMembers([READY] + binding, NonBlank);
    DedupMembers(WantedKinds(binding));
    FilterConcat([READY], binding, NonBlank);
    assert [READY][..0] == [] && Filter([READY], NonBlank) == [READY];
    DedupFirst(WantedKinds(binding));
  }

  /** After Ready, the kinds are in the order in which the result first names them. */
  lemma ConditionOrder(binding: seq<string>, i: nat, j: nat, b: nat) returns (a: nat)
    requires 0 < i < j < |Dedup(WantedKinds(binding))| && b < |binding|
    requires binding[b] == Dedup(WantedKinds(binding))[j]
    ensures a < b && binding[a] == Dedup(WantedKinds(binding))[i]
  {
    var all := [READY] + binding;
    ConditionsListed(binding);
    assert all[b + 1] == binding[b];
    var at := FirstOccurrenceOrder(all, NonBlank, i, j, b + 1);
    assert all[at] != READY;
    a := at - 1;
  }

  // ---------- merging ----------

  function Own(statuses: seq<Status>, driver: string): seq<Status> {
    Filter(statuses, (s: Status) => s.driver == driver)
  }

  function Foreign(statuses: seq<Status>, driver: string): seq<Status> {
    Filter(statuses, (s: Status) => s.driver != driver)
  }

  function Merge(existing: seq<Status>, desired: seq<Status>, driver: string): seq<Status> {
    Foreign(existing, driver) + desired
  }

  method MergeDeviceStatuses(existing: seq<Status>, desired: seq<Status>, driver: string) returns (out: seq<Status>)
    ensures out == Merge(existing, desired, driver)
    ensures |desired| <= |out| && out[|out| - |desired|..] == desired
    ensures forall s :: s in out[..|out| - |desired|] <==> s in existing && s.driver != driver
  {
    FilterMembers(existing, (s: Status) => s.driver != driver);
    if |existing| == 0 && |desired| == 0 {
      return [];
    }
    out := [];
    for i := 0 to |existing|
      invariant out == Foreign(existing[..i], driver)
    {
      assert existing[..i + 1][..i] == existing[..i];
      if existing[i].driver == driver {
        continue;
      }
      out := out + [existing[i]];
    }
    assert existing[..|existing|] == existing;
    out := out + desired;
  }

  ghost predicate AllBy(statuses: seq<Status>, driver: string) {
    forall s :: s in statuses ==> s.driver == driver
  }

  lemma MergeOwnOfWriter(existing: seq<Status>, desired: seq<Status>, driver: string)
    requires AllBy(desired, driver)
    ensures Own(Merge(existing, desired, driver), driver) == desired
  {
    var own := (s: Status) => s.driver == driver;
    FilterConcat(Foreign(existing, driver), desired, own);
    FilterMembers(existing, (s: Status) => s.driver != driver);
    FilterAll(desired, own);
    FilterNone(Foreign(existing, driver), own);
  }

  lemma MergeOwnOfOther(existing: seq<Status>, desired: seq<Status>, driver: string, d: string)
    requires AllBy(desired, driver) && d != driver
    ensures Own(Merge(existing, desired, driver), d) == Own(existing, d)
  {
    var isD := (s: Status) => s.driver == d;
    FilterConcat(Foreign(existing, driver), desired, isD);
    FilterNone(desired, isD);
    FilterTwice(existing, (s: Status) => s.driver != driver, isD, isD);
  }

  /** A merge sets the entries of its driver and keeps those of every other, in order. */
  lemma MergeOwn(existing: seq<Status>, desired: seq<Status>, driver: string, d: string)
    requires AllBy(desired, driver)
    ensures Own(Merge(existing, desired, driver), d) == if d == driver then desired else Own(existing, d)
  {
    if d == driver {
      MergeOwnOfWriter(existing, desired, driver);
    } else {
      MergeOwnOfOther(existing, desired, driver, d);
    }
  }

  // ---------- the protocol ----------

  /** One successful write: whose, and what its entries became. */
  datatype Write = Write(driver: string, statuses: seq<Status>)

  datatype Claim = Claim(version: nat, statuses: seq<Status>)

  /** A call of patchClaimDeviceStatuses: not running, about to read, or holding what it read. */
  datatype Phase =
    | Idle
    | Reading(desired: seq<Status>, attempts: nat)
    | Holding(desired: seq<Status>, attempts: nat, read: Claim)

  datatype Worker = Worker(driver: string, phase: Phase)

  /** The claim on the API server (None once deleted), the workers, and the writes that succeeded so far. */
  datatype World = World(claim: Option<Claim>, workers: seq<Worker>, log: seq<Write>)

  datatype Step =
    | Begin(w: nat, desired: seq<Status>)  // update, or clear when desired is empty
    | Read(w: nat)
    | TryWrite(w: nat)
    | Abandon(w: nat)                      // an error other than a conflict ends the call
    | OtherChange                          // somebody changes another part of the claim
    | Delete

  /** retry.DefaultRetry makes at most five attempts. */
  const MAX_ATTEMPTS := 5

  function SetPhase(s: World, w: nat, phase: Phase): World
    requires w < |s.workers|
  {
    s.(workers := s.workers[w := s.workers[w].(phase := phase)])
  }

  ghost predicate Enabled(s: World, step: Step) {
    match step
    case Begin(w, desired) => w < |s.workers| && s.workers[w].phase.Idle? && AllBy(desired, s.workers[w].driver)
    case Read(w) => w < |s.workers| && s.workers[w].phase.Reading?
    case TryWrite(w) => w < |s.workers| && s.workers[w].phase.Holding?
    case Abandon(w) => w < |s.workers| && !s.workers[w].phase.Idle?
    case OtherChange => s.claim.Some?
    case Delete => s.claim.Some?
  }

  function Next(s: World, step: Step): World
    requires Enabled(s, step)
  {
    match step
    case Begin(w, desired) => SetPhase(s, w, Reading(desired, 0))
    case Read(w) =>
      var p := s.workers[w].phase;
      if s.claim.None? then SetPhase(s, w, Idle)
      else SetPhase(s, w, Holding(p.desired, p.attempts, s.claim.value))
    case TryWrite(w) => NextWrite(s, w)
    case Abandon(w) => SetPhase(s, w, Idle)
    case OtherChange => s.(claim := Some(s.claim.value.(version := s.claim.value.version + 1)))
    case Delete => s.(claim := None)
  }

  /** Whether the claim is still the one the worker read. */
  predicate WriteSucceeds(s: World, w: nat)
    requires w < |s.workers| && s.workers[w].phase.Holding?
  {
    s.claim.Some? && s.claim.value.version == s.workers[w].phase.read.version
  }

  function NextWrite(s: World, w: nat): World
    requires w < |s.workers| && s.workers[w].phase.Holding?
  {
    var p, driver := s.workers[w].phase, s.workers[w].driver;
    if s.claim.None? then SetPhase(s, w, Idle)
    else if WriteSucceeds(s, w) then
      SetPhase(s, w, Idle).(
        claim := Some(Claim(s.claim.value.version + 1, Merge(p.read.statuses, p.desired, driver))),
        log := s.log + [Write(driver, p.desired)])
    else if p.attempts + 1 < MAX_ATTEMPTS then SetPhase(s, w, Reading(p.desired, p.attempts + 1))
    else SetPhase(s, w, Idle)
  }

  /** A run from some claim with all workers idle. */
  datatype Run = Run(states: seq<World>, steps: seq<Step>) {
    ghost predicate Valid() {
      && |states| == |steps| + 1
      && states[0].claim.Some? && states[0].log == []
      && (forall i :: 0 <= i < |states[0].workers| ==> states[0].workers[i].phase.Idle?)
      && forall i :: 0 <= i < |steps| ==> Enabled(states[i], steps[i]) && states[i + 1] == Next(states[i], steps[i])
    }
  }

  // ---------- writes are linearised ----------

  /** The entries after applying a list of writes one after the other. */
  function Replay(initial: seq<Status>, log: seq<Write>): seq<Status> {
    if log == [] then initial
    else
      var last := log[|log| - 1];
      Merge(Replay(initial, log[..|log| - 1]), last.statuses, last.driver)
  }

  ghost predicate WorkerOk(s: World, w: Worker) {
    match w.phase
    case Idle => true
    case Reading(desired, attempts) => AllBy(desired, w.driver) && attempts < MAX_ATTEMPTS
    case Holding(desired, attempts, read) =>
      && AllBy(desired, w.driver) && attempts < MAX_ATTEMPTS
      && (s.claim.Some? ==>
            && read.version <= s.claim.value.version
            && (read.version == s.claim.value.version ==> read == s.claim.value))
  }

  /** What was read under the current version is current, and the entries are the log replayed. */
  ghost predicate Invariant(s: World, initial: seq<Status>) {
    && (forall i :: 0 <= i < |s.workers| ==> WorkerOk(s, s.workers[i]))
    && (forall x :: x in s.log ==> AllBy(x.statuses, x.driver))
    && (s.claim.Some? ==> s.claim.value.statuses == Replay(initial, s.log))
  }

  lemma StepKeepsInvariant(s: World, step: Step, initial: seq<Status>)
    requires Invariant(s, initial) && Enabled(s, step)
    ensures Invariant(Next(s, step), initial)
  {
    var s' := Next(s, step);
    forall i | 0 <= i < |s'.workers| ensures WorkerOk(s', s'.workers[i]) {
      assert WorkerOk(s, s.workers[i]);
    }
    if step.TryWrite? && WriteSucceeds(s, step.w) {
      assert WorkerOk(s, s.workers[step.w]);
      assert s'.log[..|s'.log| - 1] == s.log;
    }
  }

  lemma {:induction false} InvariantHolds(run: Run, i: nat)
    requires run.Valid() && i < |run.states|
    ensures Invariant(run.states[i], run.states[0].claim.value.statuses)
  {
    if i > 0 {
      InvariantHolds(run, i - 1);
      StepKeepsInvariant(run.states[i - 1], run.steps[i - 1], run.states[0].claim.value.statuses);
    }
  }

  /** The entries of a driver that a list of writes leaves: those of its last write. */
  function LastWritten(initial: seq<Status>, log: seq<Write>, driver: string): seq<Status> {
    if log == [] then Own(initial, driver)
    else if log[|log| - 1].driver == driver then log[|log| - 1].statuses
    else LastWritten(initial, log[..|log| - 1], driver)
  }

  lemma {:induction false} ReplayOwn(initial: seq<Status>, log: seq<Write>, driver: string)
    requires forall x :: x in log ==> AllBy(x.statuses, x.driver)
    ensures Own(Replay(initial, log), driver) == LastWritten(initial, log, driver)
  {
    if log != [] {
      var last := log[|log| - 1];
      assert last in log;
      ReplayOwn(initial, log[..|log| - 1], driver);
      MergeOwn(Replay(initial, log[..|log| - 1]), last.statuses, last.driver, driver);
    }
  }

  /**
   In every reachable state the entries of each driver are exactly those of its last
   successful write, in order (before its first, those the claim started with).
   */
  lemma EachDriverKeepsItsLastWrite(run: Run, i: nat, driver: string)
    requires run.Valid() && i < |run.states| && run.states[i].claim.Some?
    ensures Own(run.states[i].claim.value.statuses, driver)
         == LastWritten(run.states[0].claim.value.statuses, run.states[i].log, driver)
  {
    InvariantHolds(run, i);
    ReplayOwn(run.states[0].claim.value.statuses, run.states[i].log, driver);
  }

  /** A successful write replaces the writer's entries and moves nobody else's; a clear leaves only foreign ones. */
  lemma WriteTouchesOnlyItsDriver(run: Run, i: nat, driver: string)
    requires run.Valid() && i < |run.steps| && run.steps[i].TryWrite? && WriteSucceeds(run.states[i], run.steps[i].w)
    ensures var w := run.states[i].workers[run.steps[i].w];
            var before, after := run.states[i].claim.value.statuses, run.states[i + 1].claim.value.statuses;
            && Foreign(after, w.driver) == Foreign(before, w.driver)
            && Own(after, w.driver) == w.phase.desired
            && (w.phase.desired == [] ==> after == Foreign(before, w.driver))
  {
    InvariantHolds(run, i);
    var s := run.states[i];
    var w := s.workers[run.steps[i].w];
    assert WorkerOk(s, w);
    assert run.states[i + 1] == Next(s, run.steps[i]);
    var before, desired := s.claim.value.statuses, w.phase.desired;
    MergeOwn(before, desired, w.driver, w.driver);
    var foreign := (x: Status) => x.driver != w.driver;
    FilterConcat(Foreign(before, w.driver), desired, foreign);
    FilterNone(desired, foreign);
    FilterMembers(before, foreign);
    FilterAll(Foreign(before, w.driver), foreign);
  }

  // ---------- attempts ----------

  /** How often worker w tried to write in steps from..end-1. */
  function TryWrites(run: Run, w: nat, from: nat, end: nat): nat
    requires from <= end <= |run.steps|
  {
    if from == end then 0 else TryWrites(run, w, from, end - 1) + if run.steps[end - 1] == TryWrite(w) then 1 else 0
  }

  /**
   A call tries at most five times. While it runs it has made as many attempts as it
   counts, for the statuses it was called with; a refused write is tried again unless the
   claim is gone or it was the fifth.
   */
  lemma {:induction false} AtMostFiveAttempts(run: Run, w: nat, from: nat, end: nat)
    requires run.Valid() && from < end < |run.states| && run.steps[from].Begin? && run.steps[from].w == w
    requires forall t :: from < t < end ==> !(run.steps[t].Begin? && run.steps[t].w == w)
    ensures w < |run.states[end].workers| && TryWrites(run, w, from, end) <= 5
    ensures var p := run.states[end].workers[w].phase;
            p.Idle? || (p.desired == run.steps[from].desired && p.attempts == TryWrites(run, w, from, end) < 5)
    ensures run.steps[end - 1] == TryWrite(w) && !WriteSucceeds(run.states[end - 1], w) ==>
              (run.states[end].workers[w].phase.Reading? <==>
               run.states[end - 1].claim.Some? && TryWrites(run, w, from, end) < 5)
    decreases end
  {
    assert Enabled(run.states[end - 1], run.steps[end - 1]);
    assert run.states[end] == Next(run.states[end - 1], run.steps[end - 1]);
    if from < end - 1 {
      AtMostFiveAttempts(run, w, from, end - 1);
    }
  }

  // ---------- conflicts ----------

  /** The claim changed in step t. */
  ghost predicate ChangedIn(run: Run, t: nat)
    requires run.Valid() && t < |run.steps|
  {
    run.states[t].claim != run.states[t + 1].claim
  }

  lemma {:induction false} UnchangedBetween(run: Run, from: nat, end: nat)
    requires run.Valid() && from <= end < |run.states|
    requires forall t :: from <= t < end ==> !ChangedIn(run, t)
    ensures run.states[from].claim == run.states[end].claim
    decreases end
  {
    if from < end {
      UnchangedBetween(run, from, end - 1);
      assert !ChangedIn(run, end - 1);
    }
  }

  /** What a worker holds was the claim when it read it. */
  lemma {:induction false} HeldSinceRead(run: Run, w: nat, i: nat) returns (at: nat)
    requires run.Valid() && i < |run.states| && w < |run.states[i].workers| && run.states[i].workers[w].phase.Holding?
    ensures at < i && run.steps[at] == Read(w) && run.states[at].claim == Some(run.states[i].workers[w].phase.read)
  {
    assert i > 0;
    var s, step := run.states[i - 1], run.steps[i - 1];
    assert Enabled(s, step) && run.states[i] == Next(s, step);
    if step == Read(w) {
      at := i - 1;
    } else {
      at := HeldSinceRead(run, w, i - 1);
    }
  }

  /** A write is refused only because the claim changed since it was read: somebody else made progress. */
  lemma ConflictMeansProgress(run: Run, i: nat) returns (at: nat)
    requires run.Valid() && i < |run.steps| && run.steps[i].TryWrite? && Enabled(run.states[i], run.steps[i])
    requires !WriteSucceeds(run.states[i], run.steps[i].w)
    ensures at < i && run.steps[at] == Read(run.steps[i].w)
    ensures exists t :: at <= t < i && ChangedIn(run, t)
  {
    at := HeldSinceRead(run, run.steps[i].w, i);
    if forall t :: at <= t < i ==> !ChangedIn(run, t) {
      UnchangedBetween(run, at, i);
    }
  }
}
