/** What holds over every run of the session reducer. */
module ReducerRuns {
  import opened Core
  import opened State
  import opened Reducer

  /** One reduction; the policy may be replaced between inputs. */
  datatype Step = Step(input: Input, policy: Policy)

  ghost function After(s: Snapshot, step: Step): Output {
    Reduce(s, step.input, step.policy)
  }

  /** The final snapshot and the whole event log of a run. */
  ghost function Run(s: Snapshot, steps: seq<Step>): Output {
    if steps == [] then Output(s, [])
    else
      var before := Run(s, steps[..|steps| - 1]);
      var out := After(before.snapshot, steps[|steps| - 1]);
      Output(out.snapshot, before.events + out.events)
  }

  // ----- the event log is faithful -----

  /** What a reader of the log knows: the session's state and whether its sources conflict. */
  datatype Known = Known(state: DetailedState, conflict: bool)

  /** Reading one event; an event that does not continue the chain is an error. */
  ghost function ReadEvent(known: Option<Known>, e: EventKind): Option<Known> {
    if known.None? then None
    else match e
      case StateChanged(from, to) =>
        if from == known.value.state && from != to then Some(known.value.(state := to)) else None
      case ConflictChanged(active) =>
        if active != known.value.conflict then Some(known.value.(conflict := active)) else None
      case _ => known
  }

  ghost function Replay(known: Option<Known>, events: seq<EventKind>): Option<Known> {
    if events == [] then known else ReadEvent(Replay(known, events[..|events| - 1]), events[|events| - 1])
  }

  ghost function KnownOf(s: Snapshot): Option<Known> {
    Some(Known(s.state, s.sourceConflict))
  }

  lemma {:induction false} ReplayConcat(known: Option<Known>, a: seq<EventKind>, b: seq<EventKind>)
    ensures Replay(known, a + b) == Replay(Replay(known, a), b)
  {
    if b == [] {
      assert a + b == a;
    } else {
      ReplayConcat(known, a, b[..|b| - 1]);
      assert (a + b)[..|a + b| - 1] == a + b[..|b| - 1];
    }
  }

  /** A step is logged when reading its events takes a reader from the old snapshot to the new one. */
  ghost predicate Logged(s: Snapshot, out: Output) {
    Replay(KnownOf(s), out.events) == KnownOf(out.snapshot)
  }

  /** Events that say nothing about state or conflict. */
  ghost predicate Silent(e: EventKind) {
    !e.StateChanged? && !e.ConflictChanged?
  }

  lemma ReplayOne(known: Option<Known>, e: EventKind)
    ensures Replay(known, [e]) == ReadEvent(known, e)
    ensures Silent(e) ==> Replay(known, [e]) == known
  {
    assert Replay(known, [e][..0]) == known;
  }

  lemma ThenSilent(s: Snapshot, out: Output, e: EventKind)
    requires Logged(s, out) && Silent(e)
    ensures Logged(s, Output(out.snapshot, out.events + [e]))
  {
    ReplayConcat(KnownOf(s), out.events, [e]);
    ReplayOne(Replay(KnownOf(s), out.events), e);
  }

  lemma FirstEvent(s: Snapshot, via: Snapshot, e: EventKind, out: Output)
    requires ReadEvent(KnownOf(s), e) == KnownOf(via) && Logged(via, out)
    ensures Logged(s, Output(out.snapshot, [e] + out.events))
  {
    ReplayConcat(KnownOf(s), [e], out.events);
    ReplayOne(KnownOf(s), e);
  }

  lemma TransitionIsLogged(s: Snapshot, to: DetailedState, now: TimePoint)
    ensures Logged(s, WithTransition(s, to, now))
  {
    if s.state != to {
      ReplayOne(KnownOf(s), StateChanged(s.state, to));
    }
  }

  lemma NativeStateIsLogged(s: Snapshot, state: DetailedState, now: TimePoint)
    ensures Logged(s, WithNativeState(s, state, now))
  {
    var clocked := WithUserWait(s, state, now);
    assert KnownOf(clocked) == KnownOf(s);
    TransitionIsLogged(clocked, state, now);
    var moved := WithTransition(clocked, state, now);
    ThenSilent(clocked, moved, AlertDue);
    assert moved.events + [] == moved.events;
  }

  lemma ConflictIsLogged(s: Snapshot, now: TimePoint)
    ensures Logged(s, WithConflict(s, now)) && Logged(s, WithConflictResolved(s, now))
  {
    if s.sourceConflict {
      TransitionIsLogged(s, Unknown, now);
      var cleared := s.(sourceConflict := false, stateBeforeConflict := None);
      var restored := if s.stateBeforeConflict.Some? then s.stateBeforeConflict.value else Unknown;
      TransitionIsLogged(cleared, restored, now);
      FirstEvent(s, cleared, ConflictChanged(false),
                 if s.state.Unknown? then WithTransition(cleared, restored, now) else Output(cleared, []));
    } else {
      var flagged := s.(sourceConflict := true, stateBeforeConflict := Some(s.state));
      TransitionIsLogged(flagged, Unknown, now);
      FirstEvent(s, flagged, ConflictChanged(true), WithTransition(flagged, Unknown, now));
    }
  }

  lemma PayloadIsLogged(s: Snapshot, payload: Payload, now: TimePoint)
    ensures Logged(s, WithPayload(s, payload, now))
  {
    match payload
    case NativeState(state) => NativeStateIsLogged(s, state, now);
    case Progress(summary) =>
      TransitionIsLogged(WithResume(s.(lastProgressSummary := Some(summary)), now), Running, now);
    case IntentionalWait =>
      TransitionIsLogged(s, WaitingForAgent, now);
      ThenSilent(s, WithTransition(s, WaitingForAgent, now), DeadlineChanged);
    case SourceConflict(_) => ConflictIsLogged(s, now);
    case SourceConflictResolved => ConflictIsLogged(s, now);
    case _ =>
      ReplayOne(KnownOf(s), DeadlineChanged);
      ReplayOne(KnownOf(s), CompatibilityChanged);
  }

  lemma TickIsLogged(s: Snapshot, now: TimePoint, policy: Policy)
    ensures Logged(s, WithTick(s, now, policy))
  {
    var suspected := WithSuspicion(s, now, policy);
    assert Logged(s, suspected) by {
      ReplayOne(KnownOf(s), Suspect);
    }
    EscalationIsLogged(suspected.snapshot, now, policy);
    ReplayConcat(KnownOf(s), suspected.events, WithEscalation(suspected.snapshot, now, policy).events);
  }

  lemma EscalationIsLogged(s: Snapshot, now: TimePoint, policy: Policy)
    ensures Logged(s, WithEscalation(s, now, policy))
  {
    TransitionIsLogged(s, Stalled, now);
    ThenSilent(s, WithTransition(s, Stalled, now), AlertDue);
    ReplayOne(KnownOf(s), ReminderDue);
  }

  lemma EffectIsLogged(s: Snapshot, input: Input, policy: Policy)
    ensures Logged(s, Effect(s, input, policy))
  {
    match input
    case Observed(o) =>
      PayloadIsLogged(Stamped(s, o), o.payload, o.at);
      PayloadIsLogged(Stamped(s, o).(reconciliationRequired := false), o.payload, o.at);
    case Tick(now) => TickIsLogged(s, now, policy);
    case _ => ReplayOne(KnownOf(s), ReconciliationRequired);
  }

  lemma ReduceIsLogged(s: Snapshot, input: Input, policy: Policy)
    ensures Logged(s, Reduce(s, input, policy))
  {
    EffectIsLogged(s, input, policy);
  }

  /**
   * The log of any run replays: every `StateChanged` starts from the state the log had reached and changes it,
   * `ConflictChanged` strictly alternates, and reading the whole log gives the snapshot's state and conflict flag.
   */
  lemma {:induction false} LogReplays(s: Snapshot, steps: seq<Step>)
    ensures Replay(KnownOf(s), Run(s, steps).events) == KnownOf(Run(s, steps).snapshot)
  {
    if steps != [] {
      var before, last := steps[..|steps| - 1], steps[|steps| - 1];
      LogReplays(s, before);
      var mid := Run(s, before);
      ReduceIsLogged(mid.snapshot, last.input, last.policy);
      ReplayConcat(KnownOf(s), mid.events, After(mid.snapshot, last).events);
    }
  }

  /** Stalled exactly when the stall timers are set; conflicted exactly when a memo is kept. */
  ghost predicate Coherent(s: Snapshot) {
    && (s.state.Stalled? <==> s.stalledSince.Some?)
    && (s.state.Stalled? <==> s.lastReminder.Some?)
    && (s.sourceConflict <==> s.stateBeforeConflict.Some?)
  }

  lemma TransitionKeepsCoherent(s: Snapshot, to: DetailedState, now: TimePoint)
    requires Coherent(s)
    ensures Coherent(WithTransition(s, to, now).snapshot)
  {
  }

  lemma NativeStateKeepsCoherent(s: Snapshot, state: DetailedState, now: TimePoint)
    requires Coherent(s)
    ensures Coherent(WithNativeState(s, state, now).snapshot)
  {
    var clocked := WithUserWait(s, state, now);
    assert Coherent(clocked);
    TransitionKeepsCoherent(clocked, state, now);
  }

  lemma ProgressKeepsCoherent(s: Snapshot, summary: string, now: TimePoint)
    requires Coherent(s)
    ensures Coherent(WithProgress(s, summary, now).snapshot)
  {
  }

  lemma ConflictKeepsCoherent(s: Snapshot, now: TimePoint)
    requires Coherent(s)
    ensures Coherent(WithConflict(s, now).snapshot)
    ensures Coherent(WithConflictResolved(s, now).snapshot)
  {
  }

  lemma PayloadKeepsCoherent(s: Snapshot, payload: Payload, now: TimePoint)
    requires Coherent(s)
    ensures Coherent(WithPayload(s, payload, now).snapshot)
  {
    match payload
    case NativeState(state) => NativeStateKeepsCoherent(s, state, now);
    case IntentionalWait => TransitionKeepsCoherent(s, WaitingForAgent, now);
    case Progress(summary) => ProgressKeepsCoherent(s, summary, now);
    case SourceConflict(_) => ConflictKeepsCoherent(s, now);
    case SourceConflictResolved => ConflictKeepsCoherent(s, now);
    case _ =>
  }

  lemma TickKeepsCoherent(s: Snapshot, now: TimePoint, policy: Policy)
    requires Coherent(s)
    ensures Coherent(WithTick(s, now, policy).snapshot)
  {
  }

  lemma StepKeepsCoherent(s: Snapshot, step: Step)
    requires Coherent(s)
    ensures Coherent(After(s, step).snapshot)
  {
    match step.input
    case Observed(o) =>
      PayloadKeepsCoherent(Stamped(s, o), o.payload, o.at);
      PayloadKeepsCoherent(Stamped(s, o).(reconciliationRequired := false), o.payload, o.at);
    case Tick(now) => TickKeepsCoherent(s, now, step.policy);
    case _ =>
  }

  lemma {:induction false} RunsAreCoherent(s: Snapshot, steps: seq<Step>)
    requires Coherent(s)
    ensures Coherent(Run(s, steps).snapshot)
  {
    if steps != [] {
      RunsAreCoherent(s, steps[..|steps| - 1]);
      StepKeepsCoherent(Run(s, steps[..|steps| - 1]).snapshot, steps[|steps| - 1]);
    }
  }

  lemma ReachableIsCoherent(session: SessionIdentity, root: nat, now: TimePoint, steps: seq<Step>)
    ensures Coherent(Run(NewSession(session, root, now), steps).snapshot)
  {
    RunsAreCoherent(NewSession(session, root, now), steps);
  }

  lemma TickEventsMeanChange(s: Snapshot, now: TimePoint, policy: Policy)
    requires Coherent(s)
    ensures WithTick(s, now, policy).events != [] ==> WithTick(s, now, policy).snapshot != s
  {
  }

  /** Whose session it is and which observation was recorded last: nothing that a payload touches. */
  ghost predicate SameRecord(s: Snapshot, t: Snapshot) {
    && s.session == t.session && s.root == t.root
    && s.lastObservationId == t.lastObservationId && s.lastObservationMono == t.lastObservationMono
  }

  lemma TransitionKeepsStamp(s: Snapshot, to: DetailedState, now: TimePoint)
    ensures SameRecord(s, WithTransition(s, to, now).snapshot)
  {
  }

  lemma ConflictKeepsStamp(s: Snapshot, now: TimePoint)
    ensures SameRecord(s, WithConflict(s, now).snapshot) && SameRecord(s, WithConflictResolved(s, now).snapshot)
  {
    hide WithTransition;
    TransitionKeepsStamp(s, Unknown, now);
    TransitionKeepsStamp(s.(sourceConflict := true, stateBeforeConflict := Some(s.state)), Unknown, now);
    var restored := if s.stateBeforeConflict.Some? then s.stateBeforeConflict.value else Unknown;
    TransitionKeepsStamp(s.(sourceConflict := false, stateBeforeConflict := None), restored, now);
  }

  lemma PayloadKeepsStamp(s: Snapshot, payload: Payload, now: TimePoint)
    ensures SameRecord(s, WithPayload(s, payload, now).snapshot)
  {
    hide WithTransition, WithConflict, WithConflictResolved;
    match payload
    case NativeState(state) => TransitionKeepsStamp(WithUserWait(s, state, now), state, now);
    case Progress(summary) =>
      TransitionKeepsStamp(WithResume(s.(lastProgressSummary := Some(summary)), now), Running, now);
    case IntentionalWait => TransitionKeepsStamp(s, WaitingForAgent, now);
    case SourceConflict(_) => ConflictKeepsStamp(s, now);
    case SourceConflictResolved => ConflictKeepsStamp(s, now);
    case _ =>
  }

  /** A tick or observation that emits anything counts a revision; without a change there is none. */
  lemma EventsCountRevisions(s: Snapshot, step: Step)
    requires Coherent(s) && (step.input.Tick? || step.input.Observed?)
    ensures After(s, step).events != [] ==> After(s, step).snapshot.revision == SatAdd(s.revision, 1)
    ensures After(s, step).snapshot.revision == s.revision < U64_MAX ==> After(s, step) == Output(s, [])
  {
    match step.input
    case Tick(now) => TickEventsMeanChange(s, now, step.policy);
    case Observed(o) =>
      PayloadKeepsStamp(Stamped(s, o), o.payload, o.at);
      PayloadKeepsStamp(Stamped(s, o).(reconciliationRequired := false), o.payload, o.at);
  }

  // ----- bounds on runs of ticks -----

  ghost predicate OnlyTicks(steps: seq<Step>, reminderEvery: nat) {
    forall i :: 0 <= i < |steps| ==> steps[i].input.Tick? && steps[i].policy.reminderEvery >= reminderEvery
  }

  /** What one tick may do. */
  ghost predicate TickFacts(s: Snapshot, reminderEvery: nat, out: Output) {
    var count, end := multiset(out.events), out.snapshot;
    && Coherent(end)
    && (s.suspectEmitted ==> end.suspectEmitted)
    && (s.state.Stalled? ==> end.state.Stalled? && end.stalledSince == s.stalledSince)
    && count[Suspect] == (if end.suspectEmitted && !s.suspectEmitted then 1 else 0)
    && count[AlertDue] == (if end.state.Stalled? && !s.state.Stalled? then 1 else 0)
    && count[ReminderDue] <= 1
    && (count[ReminderDue] == 1 ==> s.state.Stalled? && s.lastReminder.Some?
                                    && s.lastReminder.value + reminderEvery <= end.lastReminder.value)
    && (count[ReminderDue] == 0 && s.state.Stalled? ==> end.lastReminder == s.lastReminder)
    && (!s.state.Stalled? && end.state.Stalled? ==> end.lastReminder == end.stalledSince)
  }

  lemma EscalationEffect(s: Snapshot, now: TimePoint, policy: Policy)
    requires Coherent(s)
    ensures TickFacts(s, policy.reminderEvery, WithEscalation(s, now, policy))
  {
    TransitionKeepsCoherent(s, Stalled, now);
    if StallDue(s, now, policy) && !s.state.Stalled? {
      assert WithEscalation(s, now, policy).events == [StateChanged(s.state, Stalled), AlertDue];
    }
  }

  /** A suspicion before an escalation only adds the `Suspect` event and its flag. */
  lemma SuspicionThenEscalation(s: Snapshot, every: nat, flagged: Snapshot, out: Output)
    requires Coherent(s) && !s.suspectEmitted && flagged == s.(suspectEmitted := true)
    requires TickFacts(flagged, every, out)
    ensures TickFacts(s, every, Output(out.snapshot, [Suspect] + out.events))
  {
    assert multiset([Suspect] + out.events) == multiset{Suspect} + multiset(out.events);
  }

  lemma TickEffect(s: Snapshot, now: TimePoint, policy: Policy)
    requires Coherent(s)
    ensures TickFacts(s, policy.reminderEvery, WithTick(s, now, policy))
  {
    if TimersSuspended(s) {
    } else if SuspectDue(s, now, policy) {
      var flagged := s.(suspectEmitted := true);
      EscalationEffect(flagged, now, policy);
      SuspicionThenEscalation(s, policy.reminderEvery, flagged, WithEscalation(flagged, now, policy));
    } else {
      EscalationEffect(s, now, policy);
      var escalated := WithEscalation(s, now, policy);
      assert [] + escalated.events == escalated.events;
    }
  }

  /** When the reminder cadence of a run of ticks began: at its start if already stalled, else at the stall. */
  ghost function CadenceStart(s: Snapshot, end: Snapshot): nat
    requires Coherent(s) && Coherent(end) && end.state.Stalled?
  {
    if s.state.Stalled? then s.lastReminder.value else end.stalledSince.value
  }

  /** What any number of ticks may do. */
  ghost predicate TickBounds(s: Snapshot, reminderEvery: nat, out: Output)
    requires Coherent(s)
  {
    var count, end := multiset(out.events), out.snapshot;
    && Coherent(end)
    && (s.suspectEmitted ==> end.suspectEmitted)
    && (s.state.Stalled? ==> end.state.Stalled?)
    && count[Suspect] == (if end.suspectEmitted && !s.suspectEmitted then 1 else 0)
    && count[AlertDue] == (if end.state.Stalled? && !s.state.Stalled? then 1 else 0)
    && (count[ReminderDue] > 0 ==> end.state.Stalled?)
    && (end.state.Stalled? ==>
          CadenceStart(s, end) + count[ReminderDue] * reminderEvery <= end.lastReminder.value)
  }

  lemma OneMoreTick(s: Snapshot, reminderEvery: nat, mid: Output, out: Output)
    requires Coherent(s) && TickBounds(s, reminderEvery, mid) && TickFacts(mid.snapshot, reminderEvery, out)
    ensures TickBounds(s, reminderEvery, Output(out.snapshot, mid.events + out.events))
  {
    assert multiset(mid.events + out.events) == multiset(mid.events) + multiset(out.events);
    OneMoreReminder(multiset(mid.events)[ReminderDue], reminderEvery);
  }

  lemma OneMoreReminder(n: nat, reminderEvery: nat)
    ensures (n + 1) * reminderEvery == n * reminderEvery + reminderEvery
  {
  }

  /**
   * Any run of ticks emits at most one `Suspect` and one `AlertDue`, and the reminders, each at least
   * `reminderEvery` after the last, are bounded by how far the last-reminder time advanced.
   */
  lemma {:induction false} TickRunBounds(s: Snapshot, steps: seq<Step>, reminderEvery: nat)
    requires Coherent(s) && OnlyTicks(steps, reminderEvery)
    ensures TickBounds(s, reminderEvery, Run(s, steps))
  {
    if steps != [] {
      var before, last := steps[..|steps| - 1], steps[|steps| - 1];
      TickRunBounds(s, before, reminderEvery);
      var mid := Run(s, before);
      TickEffect(mid.snapshot, last.input.now, last.policy);
      OneMoreTick(s, reminderEvery, mid, After(mid.snapshot, last));
    }
  }

  // ----- the conflict round trip -----

  ghost predicate Accepted(s: Snapshot, input: Input) {
    input.Observed? && !Rejects(s, input.observation) && !input.observation.trust.Uncertain?
  }

  /** Evidence that may legitimately replace a conflict-forced Unknown. */
  ghost predicate StateEvidence(s: Snapshot, input: Input) {
    && Accepted(s, input)
    && var payload := input.observation.payload;
       payload.NativeState? || payload.IntentionalWait? || payload.SourceConflictResolved?
  }

  ghost predicate NoStateEvidence(s: Snapshot, steps: seq<Step>) {
    forall i :: 0 <= i < |steps| ==> !StateEvidence(Run(s, steps[..i]).snapshot, steps[i].input)
  }

  ghost predicate Conflicted(s: Snapshot, memo: Option<DetailedState>) {
    s.state.Unknown? && s.sourceConflict && s.stateBeforeConflict == memo
  }

  lemma ConflictHoldsForPayload(s: Snapshot, payload: Payload, now: TimePoint)
    requires Conflicted(s, s.stateBeforeConflict)
    requires !payload.NativeState? && !payload.IntentionalWait? && !payload.SourceConflictResolved?
    ensures Conflicted(WithPayload(s, payload, now).snapshot, s.stateBeforeConflict)
  {
  }

  lemma ConflictHolds(s: Snapshot, step: Step)
    requires s.state.Unknown? && s.sourceConflict && !StateEvidence(s, step.input)
    ensures Conflicted(After(s, step).snapshot, s.stateBeforeConflict)
  {
    if Accepted(s, step.input) {
      var o := step.input.observation;
      ConflictHoldsForPayload(Stamped(s, o), o.payload, o.at);
      ConflictHoldsForPayload(Stamped(s, o).(reconciliationRequired := false), o.payload, o.at);
    }
  }

  lemma {:induction false} ConflictHoldsOverRuns(s: Snapshot, steps: seq<Step>)
    requires s.state.Unknown? && s.sourceConflict && NoStateEvidence(s, steps)
    ensures Conflicted(Run(s, steps).snapshot, s.stateBeforeConflict)
  {
    if steps != [] {
      var before := steps[..|steps| - 1];
      forall i | 0 <= i < |before|
        ensures !StateEvidence(Run(s, before[..i]).snapshot, before[i].input)
      {
        assert before[..i] == steps[..i];
      }
      ConflictHoldsOverRuns(s, before);
      assert !StateEvidence(Run(s, steps[..|steps| - 1]).snapshot, steps[|steps| - 1].input);
      ConflictHolds(Run(s, before).snapshot, steps[|steps| - 1]);
    }
  }

  lemma ConflictForcesUnknown(s: Snapshot, step: Step)
    requires !s.sourceConflict && Accepted(s, step.input) && step.input.observation.payload.SourceConflict?
    ensures Conflicted(After(s, step).snapshot, Some(s.state))
  {
  }

  lemma ResolutionRestores(s: Snapshot, step: Step)
    requires s.state.Unknown? && s.sourceConflict && s.stateBeforeConflict.Some?
    requires Accepted(s, step.input) && step.input.observation.payload.SourceConflictResolved?
    ensures After(s, step).snapshot.state == s.stateBeforeConflict.value
    ensures !After(s, step).snapshot.sourceConflict
  {
  }

  /**
   * Conflict round trip: a conflict forces Unknown, nothing but state evidence leaves it, and an accepted
   * resolution restores exactly the state the session had before.
   */
  lemma ConflictRoundTrip(s: Snapshot, conflict: Step, steps: seq<Step>, resolution: Step)
    requires !s.sourceConflict
    requires Accepted(s, conflict.input) && conflict.input.observation.payload.SourceConflict?
    requires NoStateEvidence(After(s, conflict).snapshot, steps)
    requires var end := Run(After(s, conflict).snapshot, steps).snapshot;
             Accepted(end, resolution.input) && resolution.input.observation.payload.SourceConflictResolved?
    ensures var end := Run(After(s, conflict).snapshot, steps).snapshot;
            && end.state.Unknown? && end.sourceConflict
            && After(end, resolution).snapshot.state == s.state
            && !After(end, resolution).snapshot.sourceConflict
  {
    ConflictForcesUnknown(s, conflict);
    ConflictHoldsOverRuns(After(s, conflict).snapshot, steps);
    ResolutionRestores(Run(After(s, conflict).snapshot, steps).snapshot, resolution);
  }

  // ----- what may move a session, and what may not -----

  /** Waiting for a person, finished, gone or in conflict: inactivity proves nothing. */
  ghost predicate Settled(state: DetailedState) {
    || state.WaitingForUser? || state.Completed? || state.Failed? || state.Cancelled?
    || state.Disappeared? || state.Unknown?
  }

  /** However long they run, ticks alone never touch a settled, paused or unreconciled session. */
  lemma {:induction false} TicksLeaveSettledAlone(s: Snapshot, steps: seq<Step>)
    requires OnlyTicks(steps, 0)
    requires Settled(s.state) || s.pauseStarted.Some? || s.reconciliationRequired
    ensures Run(s, steps) == Output(s, [])
  {
    if steps != [] {
      TicksLeaveSettledAlone(s, steps[..|steps| - 1]);
    }
  }

  /** Progress wakes a waiting, idle or stalled session and never revives a finished or conflicted one. */
  lemma ProgressWakes(s: Snapshot, summary: string, now: TimePoint)
    ensures var after := WithPayload(s, Progress(summary), now).snapshot.state;
            && !after.WaitingForAgent? && !after.WaitingForTool? && !after.WaitingForUser?
            && !after.Idle? && !after.Stalled?
            && (after != s.state ==> after.Running? && (s.state.WaitingForUser? || !Settled(s.state)))
  {
  }

  /** Observed trouble raises exactly one alert, when it is new; other native states raise none. */
  lemma NewTroubleAlertsOnce(s: Snapshot, state: DetailedState, now: TimePoint)
    ensures var events := WithPayload(s, NativeState(state), now).events;
            var isNew := s.state != state && (state.Stalled? || state.Failed? || state.Disappeared?);
            multiset(events)[AlertDue] == if isNew then 1 else 0
  {
    var moved := WithTransition(WithUserWait(s, state, now), state, now).events;
    assert multiset(moved)[AlertDue] == 0;
    assert multiset(moved + [AlertDue]) == multiset(moved) + multiset{AlertDue};
    assert moved + [] == moved;
  }

  /** Evidence that ends the wait for reconciliation after a restart. */
  ghost predicate Reconciles(s: Snapshot, input: Input) {
    || input.Reconciled?
    || (Accepted(s, input)
        && !input.observation.payload.Compatibility?
        && !input.observation.payload.CompatibilityResolved?
        && !input.observation.payload.SchedulerTick?)
  }

  ghost predicate Unreconciled(s: Snapshot, steps: seq<Step>) {
    forall i :: 0 <= i < |steps| ==> !Reconciles(Run(s, steps[..i]).snapshot, steps[i].input)
  }

  lemma StepStaysUnreconciled(s: Snapshot, step: Step)
    requires s.reconciliationRequired && !Reconciles(s, step.input)
    ensures After(s, step).snapshot.reconciliationRequired && After(s, step).snapshot.state == s.state
  {
  }

  /** After a restart the state is frozen until fresh evidence arrives: no tick or weak evidence can move it. */
  lemma {:induction false} RestartFreezesState(s: Snapshot, steps: seq<Step>)
    requires s.reconciliationRequired && Unreconciled(s, steps)
    ensures Run(s, steps).snapshot.reconciliationRequired && Run(s, steps).snapshot.state == s.state
  {
    if steps != [] {
      var before := steps[..|steps| - 1];
      forall i | 0 <= i < |before|
        ensures !Reconciles(Run(s, before[..i]).snapshot, before[i].input)
      {
        assert before[..i] == steps[..i];
      }
      RestartFreezesState(s, before);
      assert !Reconciles(Run(s, steps[..|steps| - 1]).snapshot, steps[|steps| - 1].input);
      StepStaysUnreconciled(Run(s, before).snapshot, steps[|steps| - 1]);
    }
  }
}
