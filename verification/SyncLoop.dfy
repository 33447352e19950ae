/**
 The debounced sync loop: notifications leave at most one token in a channel, taking
 the token re-arms a quiet-period timer, and the timer's tick starts a sync.
 */
module SyncLoop {

  /** A Go timer: running, expired with its tick still in the channel, or spent. */
  datatype Timer = Armed | Fired | Spent

  /**
   `syncing` is true while syncFn runs; notifications arrive then too. The last two
   fields record history: a notification since the last sync began, and how the last
   finished sync ended.
   */
  datatype State = State(token: bool, timer: Timer, syncing: bool, notified: bool, lastFailed: bool)

  /** NewTimer arms the timer before the loop starts, so a first sync is always due. */
  function Init(): State {
    State(false, Armed, false, false, false)
  }

  datatype Step =
    | Notify        // a watch source, at any time
    | Heartbeat     // the ticker branch of the select (the handler's loop only)
    | TakeToken     // the notify branch of the select
    | Tick          // time passes: the armed timer expires
    | BeginSync     // the timer branch of the select
    | EndSync(ok: bool)

  predicate Enabled(s: State, step: Step) {
    match step
    case Notify => true
    case Heartbeat => !s.syncing
    case TakeToken => !s.syncing && s.token
    case Tick => s.timer == Armed
    case BeginSync => !s.syncing && s.timer == Fired
    case EndSync(_) => s.syncing
  }

  /** A non-blocking send into the one-slot channel. */
  function Notified(s: State): State {
    s.(token := true, notified := true)
  }

  function Next(s: State, step: Step): State {
    match step
    case Notify => Notified(s)
    case Heartbeat => Notified(s)
    case TakeToken => s.(token := false, timer := Armed)
    case Tick => s.(timer := Fired)
    case BeginSync => s.(timer := Spent, syncing := true, notified := false)
    case EndSync(ok) => var t := s.(syncing := false, lastFailed := !ok); if ok then t else t.(token := true)
  }

  // ---------- the loop's branches on real fields ----------

  class Loop {
    var token: bool
    var active: bool   // the timer is running
    var tick: bool     // the timer's channel holds its tick
    ghost var syncing: bool
    ghost var notified: bool
    ghost var lastFailed: bool

    ghost predicate Valid()
      reads this
    {
      !(active && tick)
    }

    ghost function Abs(): State
      reads this
    {
      State(token, if active then Armed else if tick then Fired else Spent, syncing, notified, lastFailed)
    }

    constructor ()
      ensures Valid() && Abs() == Init()
    {
      token, active, tick, syncing, notified, lastFailed := false, true, false, false, false, false;
    }

    method Send()
      requires Valid()
      modifies this
      ensures Valid() && Abs() == Notified(old(Abs()))
    {
      if !token {
        token := true;
      }
      notified := true;
    }

    /** timer.Stop reports whether it stopped a running timer. */
    method StopTimer() returns (stopped: bool)
      requires Valid()
      modifies this`active
      ensures stopped == old(active) && !active && Valid()
    {
      stopped := active;
      active := false;
    }

    /** The notify branch: stop the timer, drain a stale tick, start the quiet period again. */
    method OnToken()
      requires Valid() && !syncing && token
      modifies this
      ensures Valid() && Abs() == Next(old(Abs()), TakeToken)
    {
      token := false;
      var stopped := StopTimer();
      if !stopped {
        if tick {
          tick := false;
        }
      }
      active := true;
    }

    /** Time passes. */
    method Expire()
      requires Valid() && active
      modifies this
      ensures Valid() && Abs() == Next(old(Abs()), Tick)
    {
      active, tick := false, true;
    }

    /** The timer branch up to the call of syncFn. */
    method OnTick()
      requires Valid() && !syncing && tick
      modifies this
      ensures Valid() && Abs() == Next(old(Abs()), BeginSync)
    {
      tick := false;
      syncing, notified := true, false;
    }

    /** The timer branch after syncFn returned. */
    method AfterSync(failed: bool)
      requires Valid() && syncing
      modifies this
      ensures Valid() && Abs() == Next(old(Abs()), EndSync(!failed))
    {
      syncing, lastFailed := false, failed;
      if failed && !token {
        token := true;
      }
    }
  }

  // ---------- no lost notification ----------

  datatype Run = Run(states: seq<State>, steps: seq<Step>) {
    ghost predicate From(start: State) {
      && |states| == |steps| + 1 && states[0] == start
      && forall i :: 0 <= i < |steps| ==> Enabled(states[i], steps[i]) && states[i + 1] == Next(states[i], steps[i])
    }
  }

  /** A sync is on its way: a token to take, or a timer that runs or has fired. */
  predicate SyncDue(s: State) {
    s.token || s.timer != Spent
  }

  predicate SyncOwed(s: State) {
    s.notified || (s.lastFailed && !s.syncing)
  }

  lemma {:induction false} NothingIsLost(run: Run, i: nat)
    requires run.From(Init()) && i < |run.states|
    ensures SyncOwed(run.states[i]) ==> SyncDue(run.states[i])
  {
    if i > 0 {
      NothingIsLost(run, i - 1);
      assert Enabled(run.states[i - 1], run.steps[i - 1]);
    }
  }

  /** The history fields say what they mean: `notified` is a notification with no sync begun since. */
  lemma {:induction false} NotifiedSinceLastSync(run: Run, i: nat)
    requires run.From(Init()) && i < |run.states|
    ensures run.states[i].notified <==>
            exists t :: 0 <= t < i && (run.steps[t].Notify? || run.steps[t].Heartbeat?)
                        && forall u :: t < u < i ==> !run.steps[u].BeginSync?
  {
    if i > 0 {
      NotifiedSinceLastSync(run, i - 1);
      assert run.states[i] == Next(run.states[i - 1], run.steps[i - 1]);
      if run.states[i - 1].notified && !run.steps[i - 1].BeginSync? {
        var t :| 0 <= t < i - 1 && (run.steps[t].Notify? || run.steps[t].Heartbeat?)
                 && forall u :: t < u < i - 1 ==> !run.steps[u].BeginSync?;
        assert forall u :: t < u < i ==> !run.steps[u].BeginSync?;
      }
    }
  }

  /** `lastFailed` is a sync that failed, with none ended since. */
  lemma {:induction false} FailedLastTime(run: Run, i: nat)
    requires run.From(Init()) && i < |run.states|
    ensures run.states[i].lastFailed <==>
            exists t :: 0 <= t < i && run.steps[t] == EndSync(false) && forall u :: t < u < i ==> !run.steps[u].EndSync?
  {
    if i > 0 {
      FailedLastTime(run, i - 1);
      assert run.states[i] == Next(run.states[i - 1], run.steps[i - 1]);
      if run.states[i - 1].lastFailed && !run.steps[i - 1].EndSync? {
        var t :| 0 <= t < i - 1 && run.steps[t] == EndSync(false)
                 && forall u :: t < u < i - 1 ==> !run.steps[u].EndSync?;
        assert forall u :: t < u < i ==> !run.steps[u].EndSync?;
      }
    }
  }

  /** A sync that began and is not running any more has ended; the last end since is given. */
  lemma {:induction false} EndedSince(run: Run, begun: nat, i: nat) returns (ended: nat)
    requires run.From(Init()) && begun < i < |run.states| && run.steps[begun].BeginSync? && !run.states[i].syncing
    ensures begun < ended < i && run.steps[ended].EndSync? && forall u :: ended < u < i ==> !run.steps[u].EndSync?
  {
    assert run.states[i] == Next(run.states[i - 1], run.steps[i - 1]);
    if run.steps[i - 1].EndSync? {
      ended := i - 1;
    } else {
      ended := EndedSince(run, begun, i - 1);
    }
  }

  // ---------- the quiet period ----------

  lemma {:induction false} StaysArmed(run: Run, t: nat, u: nat)
    requires run.From(Init()) && t < u < |run.states| && run.steps[t].TakeToken?
    requires forall k :: t < k < u ==> !run.steps[k].Tick?
    ensures run.states[u].timer == Armed
    decreases u
  {
    assert run.states[u] == Next(run.states[u - 1], run.steps[u - 1]);
    if t < u - 1 {
      StaysArmed(run, t, u - 1);
      assert Enabled(run.states[u - 1], run.steps[u - 1]);
    }
  }

  /** After a token is taken, a whole quiet period passes before a sync begins: the timer runs out once more. */
  lemma QuietPeriodFirst(run: Run, t: nat, u: nat)
    requires run.From(Init()) && t < u < |run.steps| && run.steps[t].TakeToken? && run.steps[u].BeginSync?
    ensures exists k :: t < k < u && run.steps[k].Tick?
  {
    assert Enabled(run.states[u], run.steps[u]);
    if forall k :: t < k < u ==> !run.steps[k].Tick? {
      StaysArmed(run, t, u);
    }
  }

  /** The first sync needs no notification: until it begins, the timer runs or has fired. */
  lemma {:induction false} FirstSyncIsDue(run: Run, i: nat)
    requires run.From(Init()) && i < |run.states| && forall t :: 0 <= t < i ==> !run.steps[t].BeginSync?
    ensures run.states[i].timer != Spent
  {
    if i > 0 {
      FirstSyncIsDue(run, i - 1);
      assert run.states[i] == Next(run.states[i - 1], run.steps[i - 1]);
    }
  }

  // ---------- the loop calms down ----------

  /** Nothing outside the loop: no notification, no heartbeat, and syncs succeed. */
  predicate Calm(step: Step) {
    step.TakeToken? || step.Tick? || step.BeginSync? || step == EndSync(true)
  }

  predicate Idle(s: State) {
    !s.token && s.timer == Spent && !s.syncing
  }

  /** How many syncs calm steps can still begin. */
  function SyncsLeft(s: State): nat {
    (if s.token then 1 else 0) + (if s.timer != Spent then 1 else 0)
  }

  /** How many calm steps are left at most. */
  function StepsLeft(s: State): nat {
    (if s.token then 4 else 0)
    + (match s.timer case Armed => 3 case Fired => 2 case Spent => 0)
    + (if s.syncing then 1 else 0)
  }

  lemma CalmStep(s: State, step: Step)
    requires Enabled(s, step) && Calm(step)
    ensures StepsLeft(Next(s, step)) < StepsLeft(s)
    ensures SyncsLeft(Next(s, step)) + (if step.BeginSync? then 1 else 0) <= SyncsLeft(s)
  {
  }

  function SyncsBegun(steps: seq<Step>): nat {
    if steps == [] then 0 else SyncsBegun(steps[..|steps| - 1]) + if steps[|steps| - 1].BeginSync? then 1 else 0
  }

  /** A calm run takes at most eight steps and begins at most two syncs; where it can go no further it is idle. */
  lemma {:induction false} CalmsDown(run: Run, start: State, n: nat)
    requires run.From(start) && n <= |run.steps| && forall i :: 0 <= i < |run.steps| ==> Calm(run.steps[i])
    ensures n + StepsLeft(run.states[n]) <= StepsLeft(start) <= 8
    ensures SyncsBegun(run.steps[..n]) + SyncsLeft(run.states[n]) <= SyncsLeft(start) <= 2
    ensures (forall step :: Calm(step) ==> !Enabled(run.states[n], step)) <==> Idle(run.states[n])
  {
    if n > 0 {
      CalmsDown(run, start, n - 1);
      CalmStep(run.states[n - 1], run.steps[n - 1]);
      assert run.steps[..n][..n - 1] == run.steps[..n - 1];
    }
    var s := run.states[n];
    if !Idle(s) {
      var step := if s.syncing then EndSync(true) else if s.token then TakeToken
                  else if s.timer == Armed then Tick else BeginSync;
      assert Calm(step) && Enabled(s, step);
    }
  }

  /** When the loop is idle, a sync began after every notification, and the last sync to end since succeeded. */
  lemma IdleOwesNothing(run: Run, i: nat, t: nat) returns (begun: nat, ended: nat)
    requires run.From(Init()) && t < i < |run.states| && Idle(run.states[i])
    requires run.steps[t].Notify? || run.steps[t].Heartbeat?
    ensures t < begun < ended < i && run.steps[begun].BeginSync? && run.steps[ended] == EndSync(true)
    ensures forall u :: ended < u < i ==> !run.steps[u].EndSync?
  {
    NothingIsLost(run, i);
    NotifiedSinceLastSync(run, i);
    FailedLastTime(run, i);
    begun :| t < begun < i && run.steps[begun].BeginSync?;
    ended := EndedSince(run, begun, i);
  }
}
