/** The deterministic session reducer. */
module Reducer {
  import opened Core
  import opened State

  datatype TimePoint = TimePoint(wall: int, mono: u64)

  datatype SessionIdentity = Main(id: nat) | Child(id: nat)

  datatype ProcessIdentity = ProcessIdentity(pid: nat, startTicks: nat, fileName: Option<string>)

  datatype CompatibilityWarning = CompatibilityWarning(message: string, detectedVersion: Option<string>)

  datatype Trust = Authoritative | Corroborating | Heuristic | Uncertain

  datatype DeadlineCommand = Set(wall: int) | Pause | Resume | Clear

  datatype Payload =
    | NativeState(state: DetailedState)
    | Process(identity: ProcessIdentity)
    | Progress(summary: string)
    | Deadline(command: DeadlineCommand)
    | IntentionalWait
    | Compatibility(warning: CompatibilityWarning)
    | CompatibilityResolved
    | SourceConflict(detail: string)
    | SourceConflictResolved
    | SchedulerTick

  datatype Observation = Observation(id: nat, at: TimePoint, trust: Trust, payload: Payload)

  datatype Input =
    | Observed(observation: Observation)
    | Tick(now: TimePoint)
    | Restarted(now: TimePoint)
    | Reconciled(now: TimePoint)
  {
    function Time(): u64 {
      if Observed? then observation.at.mono else now.mono
    }
  }

  datatype EventKind =
    | StateChanged(from: DetailedState, to: DetailedState)
    | CompatibilityChanged
    | Suspect
    | AlertDue
    | ReminderDue
    | DeadlineChanged
    | ConflictChanged(active: bool)
    | ReconciliationRequired

  datatype RawPolicy = Policy(suspectAfter: u64, stallAfter: u64, reminderEvery: u64)

  type Policy = p: RawPolicy | p.suspectAfter <= p.stallAfter && p.reminderEvery > 0 witness Policy(0, 0, 1)

  datatype Snapshot = Snapshot(
    session: SessionIdentity,
    root: nat,
    revision: u64,
    state: DetailedState,
    updatedAt: TimePoint,
    lastActivity: TimePoint,
    lastTrustedTransition: Option<TimePoint>,
    explicitDeadline: Option<int>,
    pauseStarted: Option<u64>,
    pausedElapsed: u64,
    suspectEmitted: bool,
    stalledSince: Option<u64>,
    lastReminder: Option<u64>,
    lastObservationId: Option<nat>,
    lastObservationMono: Option<u64>,
    processIdentity: Option<ProcessIdentity>,
    lastProgressSummary: Option<string>,
    compatibilityWarning: Option<CompatibilityWarning>,
    sourceConflict: bool,
    stateBeforeConflict: Option<DetailedState>,
    reconciliationRequired: bool)

  function NewSession(session: SessionIdentity, root: nat, now: TimePoint): Snapshot {
    Snapshot(session, root, 0, Starting, now, now, None, None, None, 0, false, None, None, None, None,
             None, None, None, false, None, false)
  }

  /** A snapshot and the events its last step emitted. */
  datatype Output = Output(snapshot: Snapshot, events: seq<EventKind>)

  // ----- the effect of each internal operation -----

  function WithPause(s: Snapshot, now: TimePoint): Snapshot {
    if s.pauseStarted.None? then s.(pauseStarted := Some(now.mono)) else s
  }

  function WithResume(s: Snapshot, now: TimePoint): Snapshot {
    match s.pauseStarted
    case None => s
    case Some(started) =>
      s.(pauseStarted := None, pausedElapsed := SatAdd(s.pausedElapsed, SatSub(now.mono, started)))
  }

  /** The stall timers a transition between distinct states leaves behind. */
  function StallTimer(from: DetailedState, to: DetailedState, now: TimePoint, timer: Option<u64>): Option<u64> {
    if to.Stalled? then Some(now.mono) else if from.Stalled? then None else timer
  }

  function WithTransition(s: Snapshot, to: DetailedState, now: TimePoint): Output {
    if s.state == to then Output(s, [])
    else
      Output(
        s.(state := to,
        stalledSince := StallTimer(s.state, to, now, s.stalledSince),
        lastReminder := StallTimer(s.state, to, now, s.lastReminder),
        updatedAt := now,
        lastTrustedTransition := Some(now)),
        [StateChanged(s.state, to)])
  }

  /** Progress of any kind restarts inactivity accounting. */
  function Refreshed(s: Snapshot, now: TimePoint): Snapshot {
    s.(lastActivity := now, pausedElapsed := 0, suspectEmitted := false)
  }

  predicate ActiveState(state: DetailedState) {
    state.Starting? || state.Running? || state.WaitingForAgent? || state.WaitingForTool?
  }

  predicate AlertingState(state: DetailedState) {
    state.Stalled? || state.Failed? || state.Disappeared?
  }

  predicate ResumesOnProgress(state: DetailedState) {
    state.WaitingForAgent? || state.WaitingForTool? || state.WaitingForUser? || state.Idle? || state.Stalled?
  }

  /** Entering WaitingForUser pauses the clock and leaving it resumes the clock. */
  function WithUserWait(s: Snapshot, state: DetailedState, now: TimePoint): Snapshot {
    if s.state.WaitingForUser? && !state.WaitingForUser? then WithResume(s, now)
    else if !s.state.WaitingForUser? && state.WaitingForUser? then WithPause(s, now)
    else s
  }

  function WithNativeState(s: Snapshot, state: DetailedState, now: TimePoint): Output {
    var moved := WithTransition(WithUserWait(s, state, now), state, now);
    Output(
      if ActiveState(state) then Refreshed(moved.snapshot, now) else moved.snapshot,
      moved.events + if s.state != state && AlertingState(state) then [AlertDue] else [])
  }

  function WithProgress(s: Snapshot, summary: string, now: TimePoint): Output {
    var noted := s.(lastProgressSummary := Some(summary));
    var moved := if ResumesOnProgress(s.state) then WithTransition(WithResume(noted, now), Running, now)
                 else Output(noted, []);
    Output(Refreshed(moved.snapshot, now).(stalledSince := None, lastReminder := None), moved.events)
  }

  function WithDeadline(s: Snapshot, command: DeadlineCommand, now: TimePoint): Snapshot {
    match command
    case Set(deadline) => s.(explicitDeadline := Some(deadline))
    case Pause => WithPause(s, now)
    case Resume => WithResume(s, now)
    case Clear => s.(explicitDeadline := None)
  }

  function WithIntentionalWait(s: Snapshot, now: TimePoint): Output {
    var moved := WithTransition(s, WaitingForAgent, now);
    Output(Refreshed(moved.snapshot, now).(pauseStarted := Some(now.mono)), moved.events + [DeadlineChanged])
  }

  predicate KeepsWarning(existing: Option<CompatibilityWarning>, incoming: CompatibilityWarning) {
    existing.Some? && (existing.value == incoming
                       || (existing.value.detectedVersion.Some? && incoming.detectedVersion.None?))
  }

  function WithConflict(s: Snapshot, now: TimePoint): Output {
    if s.sourceConflict then WithTransition(s, Unknown, now)
    else
      var moved := WithTransition(s.(sourceConflict := true, stateBeforeConflict := Some(s.state)), Unknown, now);
      Output(moved.snapshot, [ConflictChanged(true)] + moved.events)
  }

  function WithConflictResolved(s: Snapshot, now: TimePoint): Output {
    if !s.sourceConflict then Output(s, [])
    else
      var restored := if s.stateBeforeConflict.Some? then s.stateBeforeConflict.value else Unknown;
      var cleared := s.(sourceConflict := false, stateBeforeConflict := None);
      var moved := if s.state.Unknown? then WithTransition(cleared, restored, now) else Output(cleared, []);
      Output(moved.snapshot, [ConflictChanged(false)] + moved.events)
  }

  function WithPayload(s: Snapshot, payload: Payload, now: TimePoint): Output {
    match payload
    case NativeState(state) => WithNativeState(s, state, now)
    case Progress(summary) => WithProgress(s, summary, now)
    case Process(identity) => Output(s.(processIdentity := Some(identity)), [])
    case Deadline(command) => Output(WithDeadline(s, command, now), [DeadlineChanged])
    case IntentionalWait => WithIntentionalWait(s, now)
    case Compatibility(warning) =>
      if KeepsWarning(s.compatibilityWarning, warning) then Output(s, [])
      else Output(s.(compatibilityWarning := Some(warning)), [CompatibilityChanged])
    case CompatibilityResolved =>
      Output(s.(compatibilityWarning := None), if s.compatibilityWarning.Some? then [CompatibilityChanged] else [])
    case SourceConflict(_) => WithConflict(s, now)
    case SourceConflictResolved => WithConflictResolved(s, now)
    case SchedulerTick => Output(s, [])
  }

  /** A repeated observation, or one older than the last, changes nothing. */
  predicate Rejects(s: Snapshot, o: Observation) {
    || s.lastObservationId == Some(o.id)
    || (s.lastObservationMono.Some? && o.at.mono < s.lastObservationMono.value)
  }

  predicate ClearsReconciliation(payload: Payload) {
    !(payload.Compatibility? || payload.CompatibilityResolved? || payload.SchedulerTick?)
  }

  function Stamped(s: Snapshot, o: Observation): Snapshot {
    s.(lastObservationId := Some(o.id), lastObservationMono := Some(o.at.mono), updatedAt := o.at)
  }

  function WithObservation(s: Snapshot, o: Observation): Output {
    if Rejects(s, o) then Output(s, [])
    else if o.trust.Uncertain? then Output(Stamped(s, o), [])
    else
      var stamped := Stamped(s, o);
      WithPayload(
        if ClearsReconciliation(o.payload) then stamped.(reconciliationRequired := false) else stamped,
        o.payload, o.at)
  }

  function ActiveElapsed(s: Snapshot, now: TimePoint): nat {
    SatSub(SatSub(now.mono, s.lastActivity.mono), s.pausedElapsed)
  }

  predicate TimersSuspended(s: Snapshot) {
    s.reconciliationRequired || s.pauseStarted.Some? || !s.state.StallTimerRuns()
  }

  predicate StallDue(s: Snapshot, now: TimePoint, policy: Policy) {
    match s.explicitDeadline
    case Some(deadline) => now.wall >= deadline
    case None => ActiveElapsed(s, now) >= policy.stallAfter
  }

  predicate SuspectDue(s: Snapshot, now: TimePoint, policy: Policy) {
    s.explicitDeadline.None? && ActiveElapsed(s, now) >= policy.suspectAfter && !s.suspectEmitted
  }

  predicate ReminderDueAt(s: Snapshot, now: TimePoint, policy: Policy) {
    s.lastReminder.Some? && SatSub(now.mono, s.lastReminder.value) >= policy.reminderEvery
  }

  function WithSuspicion(s: Snapshot, now: TimePoint, policy: Policy): Output {
    if SuspectDue(s, now, policy) then Output(s.(suspectEmitted := true), [Suspect]) else Output(s, [])
  }

  function WithEscalation(s: Snapshot, now: TimePoint, policy: Policy): Output {
    if StallDue(s, now, policy) && !s.state.Stalled? then
      var moved := WithTransition(s, Stalled, now);
      Output(moved.snapshot, moved.events + [AlertDue])
    else if s.state.Stalled? && ReminderDueAt(s, now, policy) then
      Output(s.(lastReminder := Some(now.mono), updatedAt := now), [ReminderDue])
    else Output(s, [])
  }

  function WithTick(s: Snapshot, now: TimePoint, policy: Policy): Output {
    if TimersSuspended(s) then Output(s, [])
    else
      var suspected := WithSuspicion(s, now, policy);
      var escalated := WithEscalation(suspected.snapshot, now, policy);
      Output(escalated.snapshot, suspected.events + escalated.events)
  }

  function WithRestart(s: Snapshot, now: TimePoint): Output {
    Output(
      s.(reconciliationRequired := true, lastObservationId := None, lastObservationMono := None,
      lastActivity := now, pausedElapsed := 0, pauseStarted := None, updatedAt := now),
      [ReconciliationRequired])
  }

  /** The effect of one input, before the revision is counted. */
  function Effect(s: Snapshot, input: Input, policy: Policy): Output {
    match input
    case Observed(o) => WithObservation(s, o)
    case Tick(now) => WithTick(s, now, policy)
    case Restarted(now) => WithRestart(s, now)
    case Reconciled(now) => Output(s.(reconciliationRequired := false, updatedAt := now), [])
  }

  function Reduce(s: Snapshot, input: Input, policy: Policy): Output {
    var out := Effect(s, input, policy);
    if out.snapshot == s then out
    else Output(out.snapshot.(revision := SatAdd(s.revision, 1)), out.events)
  }

  // ----- the reducer's own in-place form -----

  class Reduction {
    var snapshot: Snapshot
    var events: seq<EventKind>

    constructor (snapshot: Snapshot)
      ensures this.snapshot == snapshot && events == []
    {
      this.snapshot, events := snapshot, [];
    }

    twostate predicate Did(out: Output)
      reads this
    {
      snapshot == out.snapshot && events == old(events) + out.events
    }

    method PauseClock(now: TimePoint)
      modifies this`snapshot
      ensures snapshot == WithPause(old(snapshot), now)
    {
      if snapshot.pauseStarted.None? {
        snapshot := snapshot.(pauseStarted := Some(now.mono));
      }
    }

    method ResumeClock(now: TimePoint)
      modifies this`snapshot
      ensures snapshot == WithResume(old(snapshot), now)
    {
      var started := snapshot.pauseStarted;
      snapshot := snapshot.(pauseStarted := None);
      if started.Some? {
        snapshot := snapshot.(pausedElapsed := SatAdd(snapshot.pausedElapsed, SatSub(now.mono, started.value)));
      }
    }

    method Transition(to: DetailedState, now: TimePoint) returns (changed: bool)
      modifies this
      ensures Did(WithTransition(old(snapshot), to, now))
      ensures changed <==> old(snapshot).state != to
    {
      if snapshot.state == to {
        return false;
      }
      var from := snapshot.state;
      snapshot := snapshot.(state := to);
      if to.Stalled? {
        snapshot := snapshot.(stalledSince := Some(now.mono));
        snapshot := snapshot.(lastReminder := Some(now.mono));
      } else if from.Stalled? {
        snapshot := snapshot.(stalledSince := None);
        snapshot := snapshot.(lastReminder := None);
      }
      snapshot := snapshot.(updatedAt := now);
      snapshot := snapshot.(lastTrustedTransition := Some(now));
      events := events + [StateChanged(from, to)];
      return true;
    }

    method RecordActivity(now: TimePoint)
      modifies this
      ensures old(snapshot).state.Stalled? ==>
                Did(WithTransition(
                      Refreshed(old(snapshot), now).(stalledSince := None, lastReminder := None), Running, now))
      ensures !old(snapshot).state.Stalled? ==>
                Did(Output(Refreshed(old(snapshot), now).(stalledSince := None, lastReminder := None), []))
    {
      snapshot := snapshot.(lastActivity := now);
      snapshot := snapshot.(pausedElapsed := 0);
      snapshot := snapshot.(suspectEmitted := false);
      snapshot := snapshot.(stalledSince := None);
      snapshot := snapshot.(lastReminder := None);
      if snapshot.state.Stalled? {
        var _ := Transition(Running, now);
      }
    }

    method FollowUserWait(state: DetailedState, now: TimePoint)
      modifies this`snapshot
      ensures snapshot == WithUserWait(old(snapshot), state, now)
    {
      var prior := snapshot.state;
      if prior.WaitingForUser? && !state.WaitingForUser? {
        ResumeClock(now);
      } else if !prior.WaitingForUser? && state.WaitingForUser? {
        PauseClock(now);
      }
    }

    method ApplyNativeState(state: DetailedState, now: TimePoint)
      modifies this
      ensures Did(WithNativeState(old(snapshot), state, now))
    {
      FollowUserWait(state, now);
      var stateChanged := Transition(state, now);
      if ActiveState(state) {
        snapshot := snapshot.(lastActivity := now);
        snapshot := snapshot.(pausedElapsed := 0);
        snapshot := snapshot.(suspectEmitted := false);
      }
      if stateChanged && AlertingState(state) {
        events := events + [AlertDue];
      }
    }

    method ApplyProgress(summary: string, now: TimePoint)
      modifies this
      ensures Did(WithProgress(old(snapshot), summary, now))
    {
      snapshot := snapshot.(lastProgressSummary := Some(summary));
      if ResumesOnProgress(snapshot.state) {
        ResumeClock(now);
        var _ := Transition(Running, now);
      }
      RecordActivity(now);
    }

    method ApplyIntentionalWait(now: TimePoint)
      modifies this
      ensures Did(WithIntentionalWait(old(snapshot), now))
    {
      var _ := Transition(WaitingForAgent, now);
      snapshot := snapshot.(lastActivity := now);
      snapshot := snapshot.(pausedElapsed := 0);
      snapshot := snapshot.(suspectEmitted := false);
      snapshot := snapshot.(pauseStarted := Some(now.mono));
      events := events + [DeadlineChanged];
    }

    method ApplyConflict(now: TimePoint)
      modifies this
      ensures Did(WithConflict(old(snapshot), now))
    {
      if !snapshot.sourceConflict {
        snapshot := snapshot.(sourceConflict := true);
        snapshot := snapshot.(stateBeforeConflict := Some(snapshot.state));
        events := events + [ConflictChanged(true)];
      }
      var _ := Transition(Unknown, now);
    }

    method ApplyConflictResolved(now: TimePoint)
      modifies this
      ensures Did(WithConflictResolved(old(snapshot), now))
    {
      if snapshot.sourceConflict {
        snapshot := snapshot.(sourceConflict := false);
        events := events + [ConflictChanged(false)];
        var memo := snapshot.stateBeforeConflict;
        snapshot := snapshot.(stateBeforeConflict := None);
        var restored := if memo.Some? then memo.value else Unknown;
        if snapshot.state.Unknown? {
          var _ := Transition(restored, now);
        }
      }
    }

    method ApplyPayload(payload: Payload, now: TimePoint)
      modifies this
      ensures Did(WithPayload(old(snapshot), payload, now))
    {
      match payload
      case NativeState(state) => ApplyNativeState(state, now);
      case Progress(summary) => ApplyProgress(summary, now);
      case Process(identity) => snapshot := snapshot.(processIdentity := Some(identity));
      case Deadline(command) =>
        match command {
          case Set(deadline) => snapshot := snapshot.(explicitDeadline := Some(deadline));
          case Pause => PauseClock(now);
          case Resume => ResumeClock(now);
          case Clear => snapshot := snapshot.(explicitDeadline := None);
        }
        events := events + [DeadlineChanged];
      case IntentionalWait => ApplyIntentionalWait(now);
      case Compatibility(warning) =>
        var existing := snapshot.compatibilityWarning;
        if existing != Some(warning)
           && !(existing.Some? && existing.value.detectedVersion.Some? && warning.detectedVersion.None?) {
          snapshot := snapshot.(compatibilityWarning := Some(warning));
          events := events + [CompatibilityChanged];
        }
      case CompatibilityResolved =>
        if snapshot.compatibilityWarning.Some? {
          snapshot := snapshot.(compatibilityWarning := None);
          events := events + [CompatibilityChanged];
        }
      case SourceConflict(_) => ApplyConflict(now);
      case SourceConflictResolved => ApplyConflictResolved(now);
      case SchedulerTick =>
    }

    method ApplyObservation(o: Observation)
      modifies this
      ensures Did(WithObservation(old(snapshot), o))
    {
      if snapshot.lastObservationId == Some(o.id)
         || (snapshot.lastObservationMono.Some? && o.at.mono < snapshot.lastObservationMono.value) {
        return;
      }
      snapshot := snapshot.(lastObservationId := Some(o.id));
      snapshot := snapshot.(lastObservationMono := Some(o.at.mono));
      snapshot := snapshot.(updatedAt := o.at);
      if o.trust.Uncertain? {
        return;
      }
      if ClearsReconciliation(o.payload) {
        snapshot := snapshot.(reconciliationRequired := false);
      }
      ApplyPayload(o.payload, o.at);
    }

    method RaiseSuspicion(now: TimePoint, policy: Policy)
      modifies this
      ensures Did(WithSuspicion(old(snapshot), now, policy))
    {
      var elapsed := ActiveElapsed(snapshot, now);
      var usesFallback := snapshot.explicitDeadline.None?;
      if usesFallback && elapsed >= policy.suspectAfter && !snapshot.suspectEmitted {
        snapshot := snapshot.(suspectEmitted := true);
        events := events + [Suspect];
      }
    }

    method Escalate(now: TimePoint, policy: Policy)
      modifies this
      ensures Did(WithEscalation(old(snapshot), now, policy))
    {
      var deadlineExpired := snapshot.explicitDeadline.Some? && now.wall >= snapshot.explicitDeadline.value;
      var elapsed := ActiveElapsed(snapshot, now);
      var usesFallback := snapshot.explicitDeadline.None?;
      if (deadlineExpired || (usesFallback && elapsed >= policy.stallAfter)) && !snapshot.state.Stalled? {
        var _ := Transition(Stalled, now);
        snapshot := snapshot.(stalledSince := Some(now.mono));
        snapshot := snapshot.(lastReminder := Some(now.mono));
        events := events + [AlertDue];
      } else if snapshot.state.Stalled? && snapshot.lastReminder.Some?
                && SatSub(now.mono, snapshot.lastReminder.value) >= policy.reminderEvery {
        snapshot := snapshot.(lastReminder := Some(now.mono));
        snapshot := snapshot.(updatedAt := now);
        events := events + [ReminderDue];
      }
    }

    method ApplyTick(now: TimePoint, policy: Policy)
      modifies this
      ensures Did(WithTick(old(snapshot), now, policy))
    {
      if snapshot.reconciliationRequired || snapshot.pauseStarted.Some? || !snapshot.state.StallTimerRuns() {
        return;
      }
      RaiseSuspicion(now, policy);
      Escalate(now, policy);
    }
  }

  /** The reducer entry point: apply one input in place and count a revision if anything changed. */
  method ReduceInPlace(prior: Snapshot, input: Input, policy: Policy) returns (out: Output)
    ensures out == Reduce(prior, input, policy)
  {
    var r := new Reduction(prior);
    match input {
      case Observed(o) => r.ApplyObservation(o);
      case Tick(now) => r.ApplyTick(now, policy);
      case Restarted(now) =>
        r.snapshot := r.snapshot.(reconciliationRequired := true);
        r.snapshot := r.snapshot.(lastObservationId := None);
        r.snapshot := r.snapshot.(lastObservationMono := None);
        r.snapshot := r.snapshot.(lastActivity := now);
        r.snapshot := r.snapshot.(pausedElapsed := 0);
        r.snapshot := r.snapshot.(pauseStarted := None);
        r.snapshot := r.snapshot.(updatedAt := now);
        r.events := r.events + [ReconciliationRequired];
      case Reconciled(now) =>
        r.snapshot := r.snapshot.(reconciliationRequired := false);
        r.snapshot := r.snapshot.(updatedAt := now);
    }
    if r.snapshot != prior {
      r.snapshot := r.snapshot.(revision := SatAdd(prior.revision, 1));
    }
    out := Output(r.snapshot, r.events);
  }
}
