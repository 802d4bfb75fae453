/** What the events of a step report: every change it makes, once, and nothing else. */
module Reporting {
  import opened Core
  import opened State
  import opened Reducer
  import opened ReducerRuns
  import opened Evidence

  ghost predicate Alerting(state: DetailedState) {
    state.Stalled? || state.Failed? || state.Disappeared?
  }

  /** A tick finds a stalled session whose last alert or reminder lies a whole cadence back. */
  ghost predicate RemindsAt(s: Snapshot, now: TimePoint, policy: Policy) {
    && s.state.Stalled? && TimersRun(s.state, s.reconciliationRequired, s.pauseStarted)
    && s.lastReminder.Some? && s.lastReminder.value + policy.reminderEvery <= now.mono
  }

  /** The part of a snapshot whose changes are reported. */
  datatype Standing = Standing(
    state: DetailedState, conflict: bool, warning: Option<CompatibilityWarning>, suspect: bool)

  ghost function StandingOf(s: Snapshot): Standing {
    Standing(s.state, s.sourceConflict, s.compatibilityWarning, s.suspectEmitted)
  }

  /** What a step is, besides the change it makes: its input, the evidence in it, and whether a reminder falls due. */
  datatype Cause = Cause(input: Input, told: Option<Payload>, reminds: bool)

  ghost function CauseOf(s: Snapshot, step: Step): Cause {
    Cause(step.input, EvidenceOf(s, step.input), step.input.Tick? && RemindsAt(s, step.input.now, step.policy))
  }

  /** Whether an event of this kind is due for the change from `s` to `t`. */
  ghost predicate Reportable(s: Standing, t: Standing, cause: Cause, e: EventKind) {
    match e
    case StateChanged(from, to) => s.state == from && t.state == to && from != to
    case ConflictChanged(active) => s.conflict != t.conflict && t.conflict == active
    case CompatibilityChanged => s.warning != t.warning
    case DeadlineChanged => cause.told.Some? && (cause.told.value.Deadline? || cause.told.value.IntentionalWait?)
    case ReconciliationRequired => cause.input.Restarted?
    case Suspect => cause.input.Tick? && t.suspect && !s.suspect
    case AlertDue => s.state != t.state && Alerting(t.state)
                     && (cause.input.Tick? || (cause.told.Some? && cause.told.value.NativeState?))
    case ReminderDue => cause.reminds
  }

  /** The events are exactly those due, once each. */
  ghost predicate Due(s: Standing, t: Standing, events: seq<EventKind>, cause: Cause) {
    forall e :: multiset(events)[e] == if Reportable(s, t, cause, e) then 1 else 0
  }

  ghost predicate Reported(s: Standing, out: Output, cause: Cause) {
    Due(s, StandingOf(out.snapshot), out.events, cause)
  }

  /** Evidence from an observation, which restarts nothing and reminds of nothing. */
  ghost predicate Observes(cause: Cause, payload: Payload) {
    !cause.input.Tick? && !cause.input.Restarted? && !cause.reminds && cause.told == Some(payload)
  }

  ghost function Moved(from: DetailedState, to: DetailedState): seq<EventKind> {
    if from == to then [] else [StateChanged(from, to)]
  }

  lemma MovesStand(s: Snapshot, to: DetailedState, now: TimePoint)
    ensures StandingOf(WithTransition(s, to, now).snapshot) == StandingOf(s).(state := to)
    ensures WithTransition(s, to, now).events == Moved(s.state, to)
    ensures StandingOf(WithResume(s, now)) == StandingOf(s) && StandingOf(WithPause(s, now)) == StandingOf(s)
    ensures StandingOf(Refreshed(s, now)) == StandingOf(s).(suspect := false)
  {
  }

  lemma NativeStateDue(s: Standing, state: DetailedState, suspect: bool, events: seq<EventKind>, cause: Cause)
    requires Observes(cause, NativeState(state))
    requires events == Moved(s.state, state) + if s.state != state && Alerting(state) then [AlertDue] else []
    ensures Due(s, s.(state := state, suspect := s.suspect && suspect), events, cause)
  {
  }

  lemma NativeStateReports(s: Snapshot, state: DetailedState, now: TimePoint, cause: Cause)
    requires Observes(cause, NativeState(state))
    ensures Reported(StandingOf(s), WithNativeState(s, state, now), cause)
  {
    hide WithTransition, WithResume, WithPause, Refreshed, Due, Moved;
    var clocked := WithUserWait(s, state, now);
    MovesStand(s, state, now);
    MovesStand(clocked, state, now);
    MovesStand(WithTransition(clocked, state, now).snapshot, state, now);
    var out := WithNativeState(s, state, now);
    assert out.events == Moved(s.state, state) + if s.state != state && Alerting(state) then [AlertDue] else [];
    NativeStateDue(StandingOf(s), state, out.snapshot.suspectEmitted, out.events, cause);
  }

  lemma ProgressReports(s: Snapshot, summary: string, now: TimePoint, cause: Cause)
    requires Observes(cause, Progress(summary))
    ensures Reported(StandingOf(s), WithProgress(s, summary, now), cause)
  {
    hide WithTransition, WithResume, WithPause, Refreshed;
    var noted := s.(lastProgressSummary := Some(summary));
    MovesStand(noted, Running, now);
    MovesStand(WithResume(noted, now), Running, now);
    MovesStand(WithTransition(WithResume(noted, now), Running, now).snapshot, Running, now);
  }

  lemma ConflictDue(s: Standing, payload: Payload, to: DetailedState, events: seq<EventKind>, cause: Cause)
    requires Observes(cause, payload) && (payload.SourceConflict? || payload.SourceConflictResolved?)
    requires events == (if s.conflict == payload.SourceConflict? then []
                        else [ConflictChanged(payload.SourceConflict?)]) + Moved(s.state, to)
    ensures Due(s, s.(state := to, conflict := payload.SourceConflict?), events, cause)
  {
  }

  lemma ConflictReports(s: Snapshot, payload: Payload, now: TimePoint, cause: Cause)
    requires Observes(cause, payload) && (payload.SourceConflict? || payload.SourceConflictResolved?)
    ensures Reported(StandingOf(s), WithPayload(s, payload, now), cause)
  {
    hide WithTransition, Due;
    var restored := if s.stateBeforeConflict.Some? then s.stateBeforeConflict.value else Unknown;
    MovesStand(s, Unknown, now);
    MovesStand(s.(sourceConflict := true, stateBeforeConflict := Some(s.state)), Unknown, now);
    MovesStand(s.(sourceConflict := false, stateBeforeConflict := None), restored, now);
    var out := WithPayload(s, payload, now);
    ConflictDue(StandingOf(s), payload, out.snapshot.state, out.events, cause);
  }

  lemma WaitReports(s: Snapshot, now: TimePoint, cause: Cause)
    requires Observes(cause, IntentionalWait)
    ensures Reported(StandingOf(s), WithIntentionalWait(s, now), cause)
  {
    hide WithTransition, Refreshed;
    MovesStand(s, WaitingForAgent, now);
    MovesStand(WithTransition(s, WaitingForAgent, now).snapshot, WaitingForAgent, now);
  }

  lemma OtherDue(
    s: Standing, payload: Payload, warning: Option<CompatibilityWarning>, events: seq<EventKind>, cause: Cause)
    requires Observes(cause, payload) && !payload.IntentionalWait?
    requires events == if s.warning != warning then [CompatibilityChanged]
                       else if payload.Deadline? then [DeadlineChanged] else []
    requires s.warning != warning ==> !payload.Deadline?
    ensures Due(s, s.(warning := warning), events, cause)
  {
  }

  lemma OtherReports(s: Snapshot, payload: Payload, now: TimePoint, cause: Cause)
    requires Observes(cause, payload)
    requires payload.Process? || payload.Deadline? || payload.Compatibility? || payload.CompatibilityResolved?
             || payload.SchedulerTick?
    ensures Reported(StandingOf(s), WithPayload(s, payload, now), cause)
  {
    hide WithResume, WithPause, Due;
    MovesStand(s, Running, now);
    var out := WithPayload(s, payload, now);
    OtherDue(StandingOf(s), payload, out.snapshot.compatibilityWarning, out.events, cause);
  }

  lemma PayloadReports(s: Snapshot, payload: Payload, now: TimePoint, cause: Cause)
    requires Observes(cause, payload)
    ensures Reported(StandingOf(s), WithPayload(s, payload, now), cause)
  {
    hide WithNativeState, WithProgress, WithIntentionalWait, Reported;
    match payload
    case NativeState(state) => NativeStateReports(s, state, now, cause);
    case Progress(summary) => ProgressReports(s, summary, now, cause);
    case IntentionalWait => WaitReports(s, now, cause);
    case SourceConflict(_) => ConflictReports(s, payload, now, cause);
    case SourceConflictResolved => ConflictReports(s, payload, now, cause);
    case _ => OtherReports(s, payload, now, cause);
  }

  lemma EscalationReports(s: Snapshot, now: TimePoint, policy: Policy, cause: Cause)
    requires Coherent(s) && TimersRun(s.state, s.reconciliationRequired, s.pauseStarted)
    requires cause == Cause(Tick(now), None, RemindsAt(s, now, policy))
    ensures Reported(StandingOf(s), WithEscalation(s, now, policy), cause)
  {
    hide WithTransition;
    MovesStand(s, Stalled, now);
  }

  /** A suspicion raised before is one more event. */
  lemma SuspicionReports(s: Standing, out: Output, cause: Cause)
    requires !s.suspect && cause.input.Tick? && cause.told.None?
    requires Reported(s.(suspect := true), out, cause) && out.snapshot.suspectEmitted
    ensures Reported(s, Output(out.snapshot, [Suspect] + out.events), cause)
  {
    assert multiset([Suspect] + out.events) == multiset{Suspect} + multiset(out.events);
  }

  lemma TickReports(s: Snapshot, now: TimePoint, policy: Policy, cause: Cause)
    requires Coherent(s) && cause == Cause(Tick(now), None, RemindsAt(s, now, policy))
    ensures Reported(StandingOf(s), WithTick(s, now, policy), cause)
  {
    hide WithEscalation, Reported;
    if TimersSuspended(s) {
      NothingReported(s, s, cause);
    } else if SuspectDue(s, now, policy) {
      var flagged := s.(suspectEmitted := true);
      EscalationReports(flagged, now, policy, cause);
      EscalationKeepsSuspicion(flagged, now, policy);
      SuspicionReports(StandingOf(s), WithEscalation(flagged, now, policy), cause);
    } else {
      EscalationReports(s, now, policy, cause);
      assert [] + WithEscalation(s, now, policy).events == WithEscalation(s, now, policy).events;
    }
  }

  lemma EscalationKeepsSuspicion(s: Snapshot, now: TimePoint, policy: Policy)
    ensures WithEscalation(s, now, policy).snapshot.suspectEmitted == s.suspectEmitted
  {
  }

  /** A step that changes nothing reportable says nothing, except that a restart asks for reconciliation. */
  lemma NothingReported(s: Snapshot, t: Snapshot, cause: Cause)
    requires cause.told.None? && !cause.reminds && StandingOf(s) == StandingOf(t)
    ensures Reported(StandingOf(s), Output(t, if cause.input.Restarted? then [ReconciliationRequired] else []), cause)
  {
  }

  lemma ObservationReports(s: Snapshot, o: Observation, cause: Cause)
    requires cause == Cause(Observed(o), EvidenceOf(s, Observed(o)), false)
    ensures Reported(StandingOf(s), WithObservation(s, o), cause)
  {
    hide WithPayload, Reported;
    var stamped := Stamped(s, o);
    var ready := if ClearsReconciliation(o.payload) then stamped.(reconciliationRequired := false) else stamped;
    assert StandingOf(stamped) == StandingOf(s) && StandingOf(ready) == StandingOf(s);
    if Accepted(s, Observed(o)) {
      PayloadReports(ready, o.payload, o.at, cause);
    } else {
      NothingReported(s, s, cause);
      NothingReported(s, stamped, cause);
    }
  }

  /**
   * Every step of every run reports what it changed, once, and nothing else: state, conflict, warning and deadline
   * changes, restarts, new suspicion, new trouble, and reminders exactly at their cadence.
   */
  lemma EventsReportChanges(s: Snapshot, step: Step)
    requires Coherent(s)
    ensures Reported(StandingOf(s), After(s, step), CauseOf(s, step))
  {
    hide WithObservation, WithTick, Reported, Rejects, RemindsAt;
    var out, cause := Effect(s, step.input, step.policy), CauseOf(s, step);
    assert Reported(StandingOf(s), out, cause) by {
      match step.input
      case Observed(o) => ObservationReports(s, o, cause);
      case Tick(now) => TickReports(s, now, step.policy, cause);
      case _ => NothingReported(s, out.snapshot, cause);
    }
    SameStanding(s, out, After(s, step), cause);
  }

  lemma SameStanding(s: Snapshot, out: Output, counted: Output, cause: Cause)
    requires Reported(StandingOf(s), out, cause) && counted.events == out.events
    requires StandingOf(counted.snapshot) == StandingOf(out.snapshot)
    ensures Reported(StandingOf(s), counted, cause)
  {
  }

  // ----- the times a step leaves behind -----

  ghost function TimeOf(input: Input): TimePoint {
    if input.Observed? then input.observation.at else input.now
  }

  /**
   * The last alert or reminder of a stall, and the last change of state, carry the time of the step that made them;
   * the snapshot as a whole that of the last step that recorded an observation, restarted, reconciled or changed it.
   */
  ghost predicate Stamps(s: Snapshot, t: Snapshot, step: Step) {
    var now := TimeOf(step.input);
    && (t.state.Stalled? ==>
          t.lastReminder == if !s.state.Stalled? || (step.input.Tick? && RemindsAt(s, now, step.policy))
                            then Some(now.mono) else s.lastReminder)
    && t.lastTrustedTransition == (if s.state != t.state then Some(now) else s.lastTrustedTransition)
    && t.updatedAt == match step.input
                      case Observed(o) => if Rejects(s, o) then s.updatedAt else now
                      case Tick(_) => if s.state != t.state || RemindsAt(s, now, step.policy) then now else s.updatedAt
                      case _ => now
  }

  lemma MoveStamps(s: Snapshot, to: DetailedState, now: TimePoint)
    ensures var t := WithTransition(s, to, now).snapshot;
            && t.state == to
            && t.lastTrustedTransition == (if s.state != to then Some(now) else s.lastTrustedTransition)
            && t.updatedAt == (if s.state != to then now else s.updatedAt)
            && (to.Stalled? ==> t.lastReminder == if s.state.Stalled? then s.lastReminder else Some(now.mono))
  {
  }

  /** A change made at `now` to a snapshot that was touched at `now`. */
  ghost predicate TimedAt(s: Snapshot, t: Snapshot, now: TimePoint) {
    && t.lastTrustedTransition == (if s.state != t.state then Some(now) else s.lastTrustedTransition)
    && t.updatedAt == now
    && (t.state.Stalled? ==> t.lastReminder == if s.state.Stalled? then s.lastReminder else Some(now.mono))
  }

  lemma ConflictStamps(s: Snapshot, now: TimePoint)
    requires s.updatedAt == now
    ensures TimedAt(s, WithConflict(s, now).snapshot, now) && TimedAt(s, WithConflictResolved(s, now).snapshot, now)
  {
    hide WithTransition;
    MoveStamps(s, Unknown, now);
    MoveStamps(s.(sourceConflict := true, stateBeforeConflict := Some(s.state)), Unknown, now);
    var restored := if s.stateBeforeConflict.Some? then s.stateBeforeConflict.value else Unknown;
    MoveStamps(s.(sourceConflict := false, stateBeforeConflict := None), restored, now);
  }

  lemma PayloadStamps(s: Snapshot, payload: Payload, now: TimePoint)
    requires s.updatedAt == now
    ensures TimedAt(s, WithPayload(s, payload, now).snapshot, now)
  {
    hide WithTransition, WithConflict, WithConflictResolved;
    match payload
    case NativeState(state) => MoveStamps(WithUserWait(s, state, now), state, now);
    case Progress(summary) => MoveStamps(WithResume(s.(lastProgressSummary := Some(summary)), now), Running, now);
    case IntentionalWait => MoveStamps(s, WaitingForAgent, now);
    case SourceConflict(_) => ConflictStamps(s, now);
    case SourceConflictResolved => ConflictStamps(s, now);
    case _ =>
  }

  lemma TickStamps(s: Snapshot, now: TimePoint, policy: Policy)
    requires Coherent(s)
    ensures Stamps(s, WithTick(s, now, policy).snapshot, Step(Tick(now), policy))
  {
  }

  lemma StepStamps(s: Snapshot, step: Step)
    requires Coherent(s)
    ensures Stamps(s, After(s, step).snapshot, step)
  {
    hide WithPayload, WithTick;
    match step.input
    case Observed(o) =>
      PayloadStamps(Stamped(s, o), o.payload, o.at);
      PayloadStamps(Stamped(s, o).(reconciliationRequired := false), o.payload, o.at);
    case Tick(now) => TickStamps(s, now, step.policy);
    case _ =>
  }
}
