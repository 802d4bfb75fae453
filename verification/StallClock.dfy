/** Inactivity accounting over whole runs, against an independent stopwatch. */
module StallClock {
  import opened Core
  import opened State
  import opened Reducer
  import opened ReducerRuns

  /** Payloads that are progress. */
  ghost predicate ActivityPayload(payload: Payload) {
    || payload.Progress?
    || payload.IntentionalWait?
    || (payload.NativeState?
        && (payload.state.Starting? || payload.state.Running?
            || payload.state.WaitingForAgent? || payload.state.WaitingForTool?))
  }

  ghost predicate Activity(s: Snapshot, input: Input) {
    Accepted(s, input) && ActivityPayload(input.observation.payload)
  }

  /**
   * A stopwatch beside the reducer. `active` is the time the timers have been running since the last activity or
   * restart. `debt` is how long a pause had already lasted when the last activity left it open.
   */
  datatype Watch = Watch(snapshot: Snapshot, last: nat, active: nat, debt: nat)

  ghost function OpenPause(s: Snapshot, now: nat): nat {
    if s.pauseStarted.Some? then SatSub(now, s.pauseStarted.value) else 0
  }

  ghost function Elapse(w: Watch, now: nat): Watch
    requires w.last <= now
  {
    w.(last := now, active := w.active + if w.snapshot.pauseStarted.Some? then 0 else now - w.last)
  }

  /** Time never runs backwards within one boot; a restart begins a new clock. */
  ghost predicate InOrder(w: Watch, step: Step) {
    step.input.Restarted? || w.last <= step.input.Time()
  }

  ghost function Advance(w: Watch, step: Step): Watch
    requires InOrder(w, step)
  {
    var s, now := After(w.snapshot, step).snapshot, step.input.Time();
    if step.input.Restarted? then Watch(s, now, 0, 0)
    else if Activity(w.snapshot, step.input) then Watch(s, now, 0, OpenPause(s, now))
    else Elapse(w, now).(snapshot := s)
  }

  ghost predicate WellTimed(s: Snapshot, start: nat, steps: seq<Step>)
    decreases |steps|, 0
  {
    steps == []
    || (WellTimed(s, start, steps[..|steps| - 1])
        && InOrder(Watching(s, start, steps[..|steps| - 1]), steps[|steps| - 1]))
  }

  ghost function Watching(s: Snapshot, start: nat, steps: seq<Step>): Watch
    requires WellTimed(s, start, steps)
    decreases |steps|, 1
  {
    if steps == [] then Watch(s, start, 0, 0)
    else Advance(Watching(s, start, steps[..|steps| - 1]), steps[|steps| - 1])
  }

  /** The snapshot's accounting agrees with the stopwatch. */
  ghost predicate Agrees(w: Watch) {
    var s := w.snapshot;
    && s.lastActivity.mono <= w.last
    && match s.pauseStarted
       case None =>
         && s.pausedElapsed <= w.last
         && w.last + w.debt == s.lastActivity.mono + s.pausedElapsed + w.active
       case Some(since) =>
         && s.pausedElapsed <= since <= w.last
         && since + w.debt == s.lastActivity.mono + s.pausedElapsed + w.active
  }

  lemma PauseAgrees(w: Watch, now: TimePoint)
    requires Agrees(w) && now.mono == w.last
    ensures Agrees(w.(snapshot := WithPause(w.snapshot, now)))
    ensures Agrees(w.(snapshot := WithResume(w.snapshot, now)))
  {
  }

  lemma UserWaitAgrees(w: Watch, state: DetailedState, now: TimePoint)
    requires Agrees(w) && now.mono == w.last
    ensures Agrees(w.(snapshot := WithUserWait(w.snapshot, state, now)))
  {
    PauseAgrees(w, now);
  }

  /** The accounting part of a snapshot, which transitions leave alone. */
  ghost predicate SameAccounting(s: Snapshot, t: Snapshot) {
    s.lastActivity == t.lastActivity && s.pauseStarted == t.pauseStarted && s.pausedElapsed == t.pausedElapsed
  }

  /** Evidence that is not activity leaves the stopwatch in agreement. */
  lemma PassiveAgrees(w: Watch, payload: Payload, now: TimePoint)
    requires Agrees(w) && now.mono == w.last && !ActivityPayload(payload)
    ensures Agrees(w.(snapshot := WithPayload(w.snapshot, payload, now).snapshot))
  {
    if payload.NativeState? {
      UserWaitAgrees(w, payload.state, now);
      assert SameAccounting(WithNativeState(w.snapshot, payload.state, now).snapshot,
                            WithUserWait(w.snapshot, payload.state, now));
    } else if payload.Deadline? {
      PauseAgrees(w, now);
    } else {
      assert SameAccounting(WithPayload(w.snapshot, payload, now).snapshot, w.snapshot);
    }
  }

  /** Activity restarts the accounting at the current instant; a pause it leaves open becomes debt. */
  lemma ActivityRestarts(w: Watch, payload: Payload, now: TimePoint)
    requires Agrees(w) && now.mono == w.last && ActivityPayload(payload)
    ensures var s := WithPayload(w.snapshot, payload, now).snapshot;
            Agrees(Watch(s, w.last, 0, OpenPause(s, w.last)))
  {
    match payload
    case NativeState(state) => UserWaitAgrees(w, state, now);
    case Progress(_) => PauseAgrees(w, now);
    case IntentionalWait =>
  }

  lemma ObservationAgrees(w: Watch, o: Observation)
    requires Agrees(w) && o.at.mono == w.last && !Rejects(w.snapshot, o) && !o.trust.Uncertain?
    ensures var s := WithObservation(w.snapshot, o).snapshot;
            Agrees(if ActivityPayload(o.payload) then Watch(s, w.last, 0, OpenPause(s, w.last))
                   else w.(snapshot := s))
  {
    var stamped := Stamped(w.snapshot, o);
    var ready := if ClearsReconciliation(o.payload) then stamped.(reconciliationRequired := false) else stamped;
    var w' := w.(snapshot := ready);
    assert Agrees(w');
    if ActivityPayload(o.payload) {
      ActivityRestarts(w', o.payload, o.at);
    } else {
      PassiveAgrees(w', o.payload, o.at);
    }
  }

  lemma AdvanceAgrees(w: Watch, step: Step)
    requires Agrees(w) && InOrder(w, step)
    ensures Agrees(Advance(w, step))
  {
    var effect := Effect(w.snapshot, step.input, step.policy).snapshot;
    assert SameAccounting(After(w.snapshot, step).snapshot, effect);
    if !step.input.Restarted? {
      var there := Elapse(w, step.input.Time());
      assert Agrees(there);
      if Accepted(w.snapshot, step.input) {
        ObservationAgrees(there, step.input.observation);
      } else {
        assert SameAccounting(effect, w.snapshot);
      }
    }
  }

  lemma {:induction false} StopwatchAgrees(session: SessionIdentity, root: nat, now: TimePoint, steps: seq<Step>)
    requires WellTimed(NewSession(session, root, now), now.mono, steps)
    ensures var s := NewSession(session, root, now);
            && Agrees(Watching(s, now.mono, steps))
            && Watching(s, now.mono, steps).snapshot == Run(s, steps).snapshot
  {
    if steps != [] {
      StopwatchAgrees(session, root, now, steps[..|steps| - 1]);
      AdvanceAgrees(Watching(NewSession(session, root, now), now.mono, steps[..|steps| - 1]), steps[|steps| - 1]);
    }
  }

  /**
   * Never-early stall. On every run of one or more boots, the elapsed time a tick uses is the stopwatch's
   * unpaused time less the debt, so it is never more than the true unpaused time, and it is exact without debt.
   */
  lemma TickUsesUnpausedTime(session: SessionIdentity, root: nat, start: TimePoint, steps: seq<Step>, now: TimePoint)
    requires WellTimed(NewSession(session, root, start), start.mono, steps)
    requires var w := Watching(NewSession(session, root, start), start.mono, steps);
             w.last <= now.mono && w.snapshot.pauseStarted.None?
    ensures var w := Watching(NewSession(session, root, start), start.mono, steps);
            var unpaused := Elapse(w, now.mono).active;
            && ActiveElapsed(w.snapshot, now) == SatSub(unpaused, w.debt)
            && ActiveElapsed(w.snapshot, now) <= unpaused
            && (w.debt == 0 ==> ActiveElapsed(w.snapshot, now) == unpaused)
  {
    StopwatchAgrees(session, root, start, steps);
  }

  /** A tick stalls a session without a deadline exactly when the unpaused time less the debt reaches the threshold. */
  lemma StallsExactlyWhenDue(
    session: SessionIdentity, root: nat, start: TimePoint, steps: seq<Step>, now: TimePoint, policy: Policy)
    requires WellTimed(NewSession(session, root, start), start.mono, steps)
    requires var w := Watching(NewSession(session, root, start), start.mono, steps);
             && w.last <= now.mono && !w.snapshot.state.Stalled? && w.snapshot.explicitDeadline.None?
             && !TimersSuspended(w.snapshot)
    ensures var w := Watching(NewSession(session, root, start), start.mono, steps);
            After(w.snapshot, Step(Tick(now), policy)).snapshot.state.Stalled?
            <==> SatSub(Elapse(w, now.mono).active, w.debt) >= policy.stallAfter
  {
    TickUsesUnpausedTime(session, root, start, steps, now);
  }

  const SAMPLE: RawPolicy := Policy(0, 200, 1)

  ghost function At(id: nat, now: u64, payload: Payload): Step {
    Step(Observed(Observation(id, TimePoint(now, now), Authoritative, payload)), SAMPLE)
  }

  lemma WatchSnoc(s: Snapshot, start: nat, steps: seq<Step>, step: Step)
    requires WellTimed(s, start, steps) && InOrder(Watching(s, start, steps), step)
    ensures WellTimed(s, start, steps + [step])
    ensures Watching(s, start, steps + [step]) == Advance(Watching(s, start, steps), step)
  {
    assert (steps + [step])[..|steps|] == steps;
  }

  /** An untroubled early session that has seen observation `id` at instant `last`. */
  ghost predicate Sampled(w: Watch, id: nat, last: nat) {
    && w.snapshot.state.Starting? && !w.snapshot.reconciliationRequired
    && w.last == last && w.snapshot.lastObservationId == Some(id) && w.snapshot.lastObservationMono == Some(last)
  }

  lemma ProgressSample(w: Watch, now: u64)
    requires Sampled(w, 1, 0)
    ensures var next := Advance(w, At(2, now, Progress("x")));
            && Sampled(next, 2, now) && next.active == 0 && next.debt == OpenPause(next.snapshot, now)
            && next.snapshot.pauseStarted == w.snapshot.pauseStarted
  {
  }

  lemma ResumeSample(w: Watch, now: u64)
    requires Sampled(w, 2, now) && w.snapshot.pauseStarted.Some?
    ensures var next := Advance(w, At(3, now, Deadline(Resume)));
            && Sampled(next, 3, now) && next.active == w.active && next.debt == w.debt
            && next.snapshot.pauseStarted.None?
  {
  }

  /** The one-sidedness is real: progress during a pause makes a later tick count less than the unpaused time. */
  lemma PauseMayBeSubtractedTwice() returns (steps: seq<Step>, now: TimePoint)
    ensures var s := NewSession(Child(1), 0, TimePoint(0, 0));
            && WellTimed(s, 0, steps)
            && var w := Watching(s, 0, steps);
               && w.last <= now.mono && !TimersSuspended(w.snapshot)
               && ActiveElapsed(w.snapshot, now) < Elapse(w, now.mono).active
  {
    var a, b, c := At(1, 0, Deadline(Pause)), At(2, 100, Progress("x")), At(3, 100, Deadline(Resume));
    now := TimePoint(300, 300);
    var s := NewSession(Child(1), 0, TimePoint(0, 0));
    WatchSnoc(s, 0, [], a);
    var w1 := Watching(s, 0, [] + [a]);
    assert Sampled(w1, 1, 0) && w1.snapshot.pauseStarted == Some(0);
    WatchSnoc(s, 0, [] + [a], b);
    ProgressSample(w1, 100);
    WatchSnoc(s, 0, [] + [a] + [b], c);
    ResumeSample(Watching(s, 0, [] + [a] + [b]), 100);
    steps := [] + [a] + [b] + [c];
    TickUsesUnpausedTime(Child(1), 0, TimePoint(0, 0), steps, now);
  }
}
