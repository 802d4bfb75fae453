/**
 * What a snapshot owes to the observations of its run: every field is what the last accepted evidence about it said.
 * Nothing here is stated through the reducer's own operations; the state a run had reached before a step is used to
 * say what the step means, and is itself given by the same theorem.
 */
module Evidence {
  import opened Core
  import opened State
  import opened Reducer
  import opened ReducerRuns
  import opened StallClock

  // ----- the last word -----

  /** What the last of the first `n` steps that said anything said, or the initial value. */
  ghost function Last<V(!new)>(said: nat -> Option<V>, n: nat, initial: V): V {
    if n == 0 then initial else Or(said(n - 1), Last(said, n - 1, initial))
  }

  ghost function Or<V>(word: Option<V>, otherwise: V): V {
    if word.Some? then word.value else otherwise
  }

  /** That is: some step said it and no later step said anything, or nobody ever said anything. */
  lemma {:induction false} LastIsLast<V(!new)>(said: nat -> Option<V>, n: nat, initial: V)
    ensures var v := Last(said, n, initial);
            || (v == initial && forall j :: 0 <= j < n ==> said(j).None?)
            || exists i :: 0 <= i < n && said(i) == Some(v) && forall j :: i < j < n ==> said(j).None?
  {
    if n > 0 && said(n - 1).None? {
      LastIsLast(said, n - 1, initial);
    }
  }

  lemma {:induction false} LastSaid<V(!new)>(said: nat -> Option<V>, n: nat, initial: V, i: nat)
    requires i < n && said(i).Some? && forall j :: i < j < n ==> said(j).None?
    ensures Last(said, n, initial) == said(i).value
  {
    if i < n - 1 {
      LastSaid(said, n - 1, initial, i);
    }
  }

  // ----- which observations count -----

  /** The last observation that was recorded among the first `n` steps, unless a restart came after it. */
  ghost function LastRecorded(steps: seq<Step>, n: nat): Option<Observation>
    requires n <= |steps|
    decreases n, 0
  {
    if n == 0 || steps[n - 1].input.Restarted? then None
    else if Recorded(steps, n - 1) then Some(steps[n - 1].input.observation)
    else LastRecorded(steps, n - 1)
  }

  /** An observation is recorded unless it repeats the last one or is older. */
  ghost predicate Recorded(steps: seq<Step>, i: nat)
    requires i < |steps|
    decreases i, 1
  {
    && steps[i].input.Observed?
    && match LastRecorded(steps, i)
       case None => true
       case Some(last) =>
         var o := steps[i].input.observation;
         o.id != last.id && last.at.mono <= o.at.mono
  }

  /** The payload of a recorded observation of any trust above uncertain. */
  ghost function Told(steps: seq<Step>, i: nat): Option<Payload> {
    if i < |steps| && Recorded(steps, i) && !steps[i].input.observation.trust.Uncertain?
    then Some(steps[i].input.observation.payload)
    else None
  }

  /** The snapshot the run had reached before step `n`. */
  ghost function Upto(s: Snapshot, steps: seq<Step>, n: nat): Snapshot {
    Run(s, if n <= |steps| then steps[..n] else steps).snapshot
  }

  lemma OneStep(s: Snapshot, steps: seq<Step>, n: nat)
    requires 0 < n <= |steps|
    ensures Upto(s, steps, n) == After(Upto(s, steps, n - 1), steps[n - 1]).snapshot
  {
    assert steps[..n][..n - 1] == steps[..n - 1];
  }

  ghost function EvidenceOf(s: Snapshot, input: Input): Option<Payload> {
    if Accepted(s, input) then Some(input.observation.payload) else None
  }

  lemma ObservationKeepsRecord(s: Snapshot, o: Observation)
    requires !Rejects(s, o)
    ensures SameRecord(WithObservation(s, o).snapshot, Stamped(s, o))
  {
    hide WithPayload;
    PayloadKeepsStamp(Stamped(s, o), o.payload, o.at);
    PayloadKeepsStamp(Stamped(s, o).(reconciliationRequired := false), o.payload, o.at);
  }

  lemma StepRecords(s: Snapshot, step: Step)
    ensures var t := After(s, step).snapshot;
            && t.session == s.session && t.root == s.root
            && if step.input.Restarted? then t.lastObservationId.None? && t.lastObservationMono.None?
               else if step.input.Observed? && !Rejects(s, step.input.observation) then
                 SameRecord(t, Stamped(s, step.input.observation))
               else SameRecord(t, s)
  {
    hide WithPayload;
    if step.input.Observed? && !Rejects(s, step.input.observation) {
      hide WithObservation;
      ObservationKeepsRecord(s, step.input.observation);
    }
  }

  // ----- what a step says about each field -----

  ghost function DeadlineSaid(told: Option<Payload>): Option<Option<int>> {
    match told
    case Some(Deadline(Set(deadline))) => Some(Some(deadline))
    case Some(Deadline(Clear)) => Some(None)
    case _ => None
  }

  ghost function ConflictSaid(told: Option<Payload>): Option<bool> {
    match told
    case Some(SourceConflict(_)) => Some(true)
    case Some(SourceConflictResolved) => Some(false)
    case _ => None
  }

  /** A restart asks for fresh evidence; a reconciliation, or evidence about the session itself, is that. */
  ghost function RestartSaid(input: Input, told: Option<Payload>): Option<bool> {
    if input.Restarted? then Some(true)
    else if input.Reconciled? then Some(false)
    else match told
      case None => None
      case Some(Compatibility(_)) => None
      case Some(CompatibilityResolved) => None
      case Some(SchedulerTick) => None
      case Some(_) => Some(false)
  }

  ghost function ProcessSaid(told: Option<Payload>): Option<Option<ProcessIdentity>> {
    match told
    case Some(Process(identity)) => Some(Some(identity))
    case _ => None
  }

  ghost function SummarySaid(told: Option<Payload>): Option<Option<string>> {
    match told
    case Some(Progress(summary)) => Some(Some(summary))
    case _ => None
  }

  /** A warning replaces the current one, unless only the current one knows the version. */
  ghost function WarningSaid(current: Option<CompatibilityWarning>, told: Option<Payload>)
    : Option<Option<CompatibilityWarning>>
  {
    match told
    case Some(Compatibility(warning)) =>
      if current.Some? && current.value.detectedVersion.Some? && warning.detectedVersion.None? then None
      else Some(Some(warning))
    case Some(CompatibilityResolved) => Some(None)
    case _ => None
  }

  /** A session that is waiting, idle or stalled runs again when it reports progress. */
  ghost predicate AwaitsProgress(state: DetailedState) {
    || state.WaitingForAgent? || state.WaitingForTool? || state.WaitingForUser? || state.Idle? || state.Stalled?
  }

  /** When the clock stands still: from a pause, an intended wait or a wait for the user until that ends. */
  ghost function PauseSaid(at: DetailedState, paused: bool, input: Input, told: Option<Payload>): Option<Option<u64>> {
    if input.Restarted? then Some(None)
    else match told
      case Some(Deadline(Pause)) => if paused then None else Some(Some(input.Time()))
      case Some(Deadline(Resume)) => Some(None)
      case Some(IntentionalWait) => Some(Some(input.Time()))
      case Some(Progress(_)) => if AwaitsProgress(at) then Some(None) else None
      case Some(NativeState(state)) =>
        if at.WaitingForUser? && !state.WaitingForUser? then Some(None)
        else if !at.WaitingForUser? && state.WaitingForUser? && !paused then Some(Some(input.Time()))
        else None
      case _ => None
  }

  ghost function ActivitySaid(input: Input, told: Option<Payload>): Option<TimePoint> {
    if input.Restarted? then Some(input.now)
    else if input.Observed? && told.Some? && ActivityPayload(told.value) then Some(input.observation.at)
    else None
  }

  /** The fields that no change of state and no clock touches. */
  datatype Findings = Findings(
    deadline: Option<int>, conflict: bool, process: Option<ProcessIdentity>, summary: Option<string>,
    warning: Option<CompatibilityWarning>, restart: bool)

  ghost function FindingsOf(s: Snapshot): Findings {
    Findings(s.explicitDeadline, s.sourceConflict, s.processIdentity, s.lastProgressSummary, s.compatibilityWarning,
          s.reconciliationRequired)
  }

  lemma MovesKeepFacts(s: Snapshot, to: DetailedState, now: TimePoint)
    ensures FindingsOf(WithTransition(s, to, now).snapshot) == FindingsOf(s)
    ensures FindingsOf(WithResume(s, now)) == FindingsOf(s) && FindingsOf(WithPause(s, now)) == FindingsOf(s)
    ensures FindingsOf(Refreshed(s, now)) == FindingsOf(s)
  {
  }

  ghost function FactsTold(facts: Findings, told: Option<Payload>): Findings {
    Findings(Or(DeadlineSaid(told), facts.deadline), Or(ConflictSaid(told), facts.conflict),
          Or(ProcessSaid(told), facts.process), Or(SummarySaid(told), facts.summary),
          Or(WarningSaid(facts.warning, told), facts.warning), facts.restart)
  }

  lemma FactsFollowPayload(s: Snapshot, payload: Payload, now: TimePoint)
    ensures FindingsOf(WithPayload(s, payload, now).snapshot) == FactsTold(FindingsOf(s), Some(payload))
  {
    hide WithTransition, WithResume, WithPause, Refreshed;
    match payload
    case NativeState(state) =>
      MovesKeepFacts(s, state, now);
      var clocked := WithUserWait(s, state, now);
      MovesKeepFacts(clocked, state, now);
      MovesKeepFacts(WithTransition(clocked, state, now).snapshot, state, now);
    case Progress(summary) =>
      var noted := s.(lastProgressSummary := Some(summary));
      MovesKeepFacts(noted, Running, now);
      MovesKeepFacts(WithResume(noted, now), Running, now);
      MovesKeepFacts(WithTransition(WithResume(noted, now), Running, now).snapshot, Running, now);
    case IntentionalWait =>
      MovesKeepFacts(s, WaitingForAgent, now);
      MovesKeepFacts(WithTransition(s, WaitingForAgent, now).snapshot, WaitingForAgent, now);
    case Deadline(_) => MovesKeepFacts(s, Running, now);
    case SourceConflict(_) =>
      MovesKeepFacts(s, Unknown, now);
      MovesKeepFacts(s.(sourceConflict := true, stateBeforeConflict := Some(s.state)), Unknown, now);
    case SourceConflictResolved =>
      var restored := if s.stateBeforeConflict.Some? then s.stateBeforeConflict.value else Unknown;
      MovesKeepFacts(s.(sourceConflict := false, stateBeforeConflict := None), restored, now);
    case _ =>
  }

  lemma TickKeepsFacts(s: Snapshot, now: TimePoint, policy: Policy)
    ensures FindingsOf(WithTick(s, now, policy).snapshot) == FindingsOf(s)
  {
    hide WithTransition;
    var suspected := WithSuspicion(s, now, policy).snapshot;
    MovesKeepFacts(suspected, Stalled, now);
  }

  lemma FactsFollowStep(s: Snapshot, step: Step)
    ensures var told := EvidenceOf(s, step.input);
            FindingsOf(After(s, step).snapshot)
            == FactsTold(FindingsOf(s), told).(restart := Or(RestartSaid(step.input, told), s.reconciliationRequired))
  {
    hide WithPayload, WithTick;
    match step.input
    case Observed(o) =>
      var stamped := Stamped(s, o);
      FactsFollowPayload(stamped, o.payload, o.at);
      FactsFollowPayload(stamped.(reconciliationRequired := false), o.payload, o.at);
    case Tick(now) => TickKeepsFacts(s, now, step.policy);
    case _ =>
  }

  // ----- the state -----

  /** What evidence says about the state, given the state so far and the one before a standing conflict. */
  ghost function StateSaid(at: DetailedState, before: Option<DetailedState>, told: Option<Payload>)
    : Option<DetailedState>
  {
    match told
    case Some(NativeState(state)) => Some(state)
    case Some(IntentionalWait) => Some(WaitingForAgent)
    case Some(Progress(_)) => if AwaitsProgress(at) then Some(Running) else None
    case Some(SourceConflict(_)) => Some(Unknown)
    case Some(SourceConflictResolved) => if at.Unknown? then before else None
    case _ => None
  }

  /** The state to restore: the one at the start of the standing conflict. */
  ghost function MemoSaid(at: DetailedState, conflict: bool, told: Option<Payload>): Option<Option<DetailedState>> {
    match told
    case Some(SourceConflict(_)) => if conflict then None else Some(Some(at))
    case Some(SourceConflictResolved) => Some(None)
    case _ => None
  }

  lemma StateFollowsPayload(s: Snapshot, payload: Payload, now: TimePoint)
    requires Coherent(s)
    ensures var t := WithPayload(s, payload, now).snapshot;
            && t.state == Or(StateSaid(s.state, s.stateBeforeConflict, Some(payload)), s.state)
            && t.stateBeforeConflict == Or(MemoSaid(s.state, s.sourceConflict, Some(payload)), s.stateBeforeConflict)
  {
    hide WithResume, WithPause;
    match payload
    case NativeState(state) => ClockKeepsState(s, now);
    case Progress(summary) => ClockKeepsState(s.(lastProgressSummary := Some(summary)), now);
    case Deadline(_) => ClockKeepsState(s, now);
    case _ =>
  }

  lemma ClockKeepsState(s: Snapshot, now: TimePoint)
    ensures WithResume(s, now).state == s.state && WithResume(s, now).stateBeforeConflict == s.stateBeforeConflict
    ensures WithPause(s, now).state == s.state && WithPause(s, now).stateBeforeConflict == s.stateBeforeConflict
  {
  }

  // ----- the clock -----

  datatype Clock = Clock(pause: Option<u64>, activity: TimePoint, suspect: bool)

  ghost function ClockOf(s: Snapshot): Clock {
    Clock(s.pauseStarted, s.lastActivity, s.suspectEmitted)
  }

  ghost function ClockTold(clock: Clock, at: DetailedState, input: Input, told: Option<Payload>): Clock {
    Clock(Or(PauseSaid(at, clock.pause.Some?, input, told), clock.pause),
          Or(ActivitySaid(input, told), clock.activity),
          clock.suspect && !(told.Some? && ActivityPayload(told.value)))
  }

  lemma TransitionKeepsClock(s: Snapshot, to: DetailedState, now: TimePoint)
    ensures ClockOf(WithTransition(s, to, now).snapshot) == ClockOf(s)
  {
  }

  lemma ConflictKeepsClock(s: Snapshot, now: TimePoint)
    ensures ClockOf(WithConflict(s, now).snapshot) == ClockOf(s)
    ensures ClockOf(WithConflictResolved(s, now).snapshot) == ClockOf(s)
  {
    hide WithTransition;
    TransitionKeepsClock(s, Unknown, now);
    TransitionKeepsClock(s.(sourceConflict := true, stateBeforeConflict := Some(s.state)), Unknown, now);
    var restored := if s.stateBeforeConflict.Some? then s.stateBeforeConflict.value else Unknown;
    TransitionKeepsClock(s.(sourceConflict := false, stateBeforeConflict := None), restored, now);
  }

  lemma ClockFollowsNativeState(s: Snapshot, o: Observation)
    requires o.payload.NativeState?
    ensures ClockOf(WithNativeState(s, o.payload.state, o.at).snapshot)
         == ClockTold(ClockOf(s), s.state, Observed(o), Some(o.payload))
  {
    hide WithTransition;
    TransitionKeepsClock(WithUserWait(s, o.payload.state, o.at), o.payload.state, o.at);
  }

  lemma ClockFollowsPayload(s: Snapshot, o: Observation)
    ensures ClockOf(WithPayload(s, o.payload, o.at).snapshot)
         == ClockTold(ClockOf(s), s.state, Observed(o), Some(o.payload))
  {
    hide WithTransition, WithNativeState, WithConflict, WithConflictResolved;
    match o.payload
    case NativeState(_) => ClockFollowsNativeState(s, o);
    case Progress(summary) =>
      TransitionKeepsClock(WithResume(s.(lastProgressSummary := Some(summary)), o.at), Running, o.at);
    case IntentionalWait => TransitionKeepsClock(s, WaitingForAgent, o.at);
    case SourceConflict(_) => ConflictKeepsClock(s, o.at);
    case SourceConflictResolved => ConflictKeepsClock(s, o.at);
    case _ =>
  }

  // ----- the scheduler -----

  /** Timers run in a live session, outside pauses and once a restart has been reconciled. */
  ghost predicate TimersRun(at: DetailedState, restart: bool, pause: Option<u64>) {
    !Settled(at) && !restart && pause.None?
  }

  /** A live session stalls at its deadline, or without one after too much unpaused inactivity. */
  ghost predicate FallsDue(deadline: Option<int>, elapsed: nat, now: TimePoint, policy: Policy) {
    match deadline
    case Some(at) => at <= now.wall
    case None => elapsed >= policy.stallAfter
  }

  lemma TickFollows(s: Snapshot, now: TimePoint, policy: Policy)
    ensures var t, runs := WithTick(s, now, policy).snapshot,
                           TimersRun(s.state, s.reconciliationRequired, s.pauseStarted);
            && t.state == (if runs && FallsDue(s.explicitDeadline, ActiveElapsed(s, now), now, policy) then Stalled
                           else s.state)
            && t.stateBeforeConflict == s.stateBeforeConflict
            && t.pauseStarted == s.pauseStarted && t.lastActivity == s.lastActivity
            && t.suspectEmitted == (s.suspectEmitted
                                    || (runs && s.explicitDeadline.None?
                                        && ActiveElapsed(s, now) >= policy.suspectAfter))
  {
  }

  // ----- the readings of a whole run -----

  ghost function DeadlineRead(steps: seq<Step>, n: nat): Option<int> {
    Last((i: nat) => DeadlineSaid(Told(steps, i)), n, None)
  }

  ghost function ConflictRead(steps: seq<Step>, n: nat): bool {
    Last((i: nat) => ConflictSaid(Told(steps, i)), n, false)
  }

  ghost function RestartRead(steps: seq<Step>, n: nat): bool {
    Last((i: nat) => if i < |steps| then RestartSaid(steps[i].input, Told(steps, i)) else None, n, false)
  }

  ghost function ProcessRead(steps: seq<Step>, n: nat): Option<ProcessIdentity> {
    Last((i: nat) => ProcessSaid(Told(steps, i)), n, None)
  }

  ghost function SummaryRead(steps: seq<Step>, n: nat): Option<string> {
    Last((i: nat) => SummarySaid(Told(steps, i)), n, None)
  }

  ghost function WarningRead(s: Snapshot, steps: seq<Step>, n: nat): Option<CompatibilityWarning> {
    Last((i: nat) => WarningSaid(Upto(s, steps, i).compatibilityWarning, Told(steps, i)), n, None)
  }

  /** When the pause that is still open began. */
  ghost function PauseRead(s: Snapshot, steps: seq<Step>, n: nat): Option<u64> {
    Last((i: nat) => if i < |steps| then
           PauseSaid(Upto(s, steps, i).state, Upto(s, steps, i).pauseStarted.Some?, steps[i].input, Told(steps, i))
         else None, n, None)
  }

  /** When there was activity last. */
  ghost function ActivityRead(start: TimePoint, steps: seq<Step>, n: nat): TimePoint {
    Last((i: nat) => if i < |steps| then ActivitySaid(steps[i].input, Told(steps, i)) else None, n, start)
  }

  /** The state at the start of the conflict that stands. */
  ghost function MemoRead(s: Snapshot, steps: seq<Step>, n: nat): Option<DetailedState> {
    Last((i: nat) => MemoSaid(Upto(s, steps, i).state, ConflictRead(steps, i), Told(steps, i)), n, None)
  }

  /** What step `i` says about the state: a tick that finds the session due, or evidence. */
  ghost function StateSaidAt(s: Snapshot, steps: seq<Step>, i: nat): Option<DetailedState>
    requires i < |steps|
  {
    var at := Upto(s, steps, i);
    match steps[i].input
    case Tick(now) =>
      if TimersRun(at.state, RestartRead(steps, i), PauseRead(s, steps, i))
         && FallsDue(DeadlineRead(steps, i), ActiveElapsed(at, now), now, steps[i].policy)
      then Some(Stalled) else None
    case _ => StateSaid(at.state, MemoRead(s, steps, i), Told(steps, i))
  }

  ghost function StateRead(s: Snapshot, steps: seq<Step>, n: nat): DetailedState {
    Last((i: nat) => if i < |steps| then StateSaidAt(s, steps, i) else None, n, Starting)
  }

  /** The snapshot holds what the first `n` steps said. */
  ghost predicate FactsRead(s: Snapshot, steps: seq<Step>, n: nat) {
    FindingsOf(Upto(s, steps, n))
    == Findings(DeadlineRead(steps, n), ConflictRead(steps, n), ProcessRead(steps, n), SummaryRead(steps, n),
             WarningRead(s, steps, n), RestartRead(steps, n))
  }

  /** The snapshot remembers this observation as the last one recorded. */
  ghost predicate Remembers(t: Snapshot, last: Option<Observation>) {
    && t.lastObservationId == (if last.Some? then Some(last.value.id) else None)
    && t.lastObservationMono == (if last.Some? then Some(last.value.at.mono) else None)
  }

  lemma RecordedIff(t: Snapshot, steps: seq<Step>, i: nat)
    requires i < |steps| && Remembers(t, LastRecorded(steps, i))
    ensures Recorded(steps, i) <==> steps[i].input.Observed? && !Rejects(t, steps[i].input.observation)
  {
  }

  lemma NextRecord(s: Snapshot, steps: seq<Step>, n: nat)
    requires 0 < n <= |steps| && Remembers(Upto(s, steps, n - 1), LastRecorded(steps, n - 1))
    ensures Remembers(Upto(s, steps, n), LastRecorded(steps, n))
    ensures Upto(s, steps, n).session == Upto(s, steps, n - 1).session
    ensures Upto(s, steps, n).root == Upto(s, steps, n - 1).root
  {
    hide Upto, Run, After, Recorded, Rejects;
    OneStep(s, steps, n);
    StepRecords(Upto(s, steps, n - 1), steps[n - 1]);
    RecordedIff(Upto(s, steps, n - 1), steps, n - 1);
  }

  lemma {:induction false} RecordFollows(s: Snapshot, steps: seq<Step>, n: nat)
    requires n <= |steps| && Remembers(s, None)
    ensures Remembers(Upto(s, steps, n), LastRecorded(steps, n))
    ensures Upto(s, steps, n).session == s.session && Upto(s, steps, n).root == s.root
  {
    hide After, Recorded, Rejects;
    if n > 0 {
      RecordFollows(s, steps, n - 1);
      NextRecord(s, steps, n);
    }
  }

  lemma ToldIsAccepted(s: Snapshot, steps: seq<Step>, i: nat)
    requires i < |steps| && Remembers(s, None)
    ensures Told(steps, i) == EvidenceOf(Upto(s, steps, i), steps[i].input)
  {
    RecordFollows(s, steps, i);
    RecordedIff(Upto(s, steps, i), steps, i);
  }

  lemma NextFacts(s: Snapshot, steps: seq<Step>, n: nat)
    requires 0 < n <= |steps| && Remembers(s, None) && FactsRead(s, steps, n - 1)
    ensures FactsRead(s, steps, n)
  {
    hide Upto, Run, After, EvidenceOf, Told;
    OneStep(s, steps, n);
    ToldIsAccepted(s, steps, n - 1);
    FactsFollowStep(Upto(s, steps, n - 1), steps[n - 1]);
  }

  lemma {:induction false} FactsFollow(s: Snapshot, steps: seq<Step>, n: nat)
    requires n <= |steps| && Remembers(s, None)
    requires FindingsOf(s) == Findings(None, false, None, None, None, false)
    ensures FactsRead(s, steps, n)
  {
    if n > 0 {
      FactsFollow(s, steps, n - 1);
      NextFacts(s, steps, n);
    }
  }

  ghost predicate ClockRead(s: Snapshot, start: TimePoint, steps: seq<Step>, n: nat) {
    var t := Upto(s, steps, n);
    t.pauseStarted == PauseRead(s, steps, n) && t.lastActivity == ActivityRead(start, steps, n)
  }

  lemma ClockFollowsStep(s: Snapshot, step: Step)
    ensures var t, told := After(s, step).snapshot, EvidenceOf(s, step.input);
            && t.pauseStarted == Or(PauseSaid(s.state, s.pauseStarted.Some?, step.input, told), s.pauseStarted)
            && t.lastActivity == Or(ActivitySaid(step.input, told), s.lastActivity)
  {
    hide WithPayload, WithTick;
    match step.input
    case Observed(o) =>
      var stamped := Stamped(s, o);
      ClockFollowsPayload(stamped, o);
      ClockFollowsPayload(stamped.(reconciliationRequired := false), o);
    case Tick(now) => TickFollows(s, now, step.policy);
    case _ =>
  }

  lemma NextClock(s: Snapshot, start: TimePoint, steps: seq<Step>, n: nat)
    requires 0 < n <= |steps| && Remembers(s, None) && ClockRead(s, start, steps, n - 1)
    ensures ClockRead(s, start, steps, n)
  {
    hide Upto, Run, After, EvidenceOf, Told, PauseSaid, ActivitySaid;
    OneStep(s, steps, n);
    ToldIsAccepted(s, steps, n - 1);
    ClockFollowsStep(Upto(s, steps, n - 1), steps[n - 1]);
  }

  lemma {:induction false} ClockFollows(s: Snapshot, steps: seq<Step>, n: nat)
    requires n <= |steps| && Remembers(s, None) && s.pauseStarted.None?
    ensures ClockRead(s, s.lastActivity, steps, n)
  {
    if n > 0 {
      ClockFollows(s, steps, n - 1);
      NextClock(s, s.lastActivity, steps, n);
    }
  }

  lemma StateFollowsStep(s: Snapshot, step: Step)
    requires Coherent(s)
    ensures var t, told := After(s, step).snapshot, EvidenceOf(s, step.input);
            && t.stateBeforeConflict == Or(MemoSaid(s.state, s.sourceConflict, told), s.stateBeforeConflict)
            && (!step.input.Tick? ==> t.state == Or(StateSaid(s.state, s.stateBeforeConflict, told), s.state))
            && (step.input.Tick? ==>
                  t.state == if TimersRun(s.state, s.reconciliationRequired, s.pauseStarted)
                                && FallsDue(s.explicitDeadline, ActiveElapsed(s, step.input.now), step.input.now,
                                            step.policy)
                             then Stalled else s.state)
  {
    hide WithPayload, WithTick;
    match step.input
    case Observed(o) =>
      var stamped := Stamped(s, o);
      StateFollowsPayload(stamped, o.payload, o.at);
      StateFollowsPayload(stamped.(reconciliationRequired := false), o.payload, o.at);
    case Tick(now) => TickFollows(s, now, step.policy);
    case _ =>
  }

  ghost predicate StatesRead(s: Snapshot, steps: seq<Step>, n: nat) {
    Upto(s, steps, n).state == StateRead(s, steps, n) && Upto(s, steps, n).stateBeforeConflict == MemoRead(s, steps, n)
  }

  lemma NextMemo(s: Snapshot, steps: seq<Step>, n: nat)
    requires 0 < n <= |steps| && Remembers(s, None) && Coherent(Upto(s, steps, n - 1))
    requires FactsRead(s, steps, n - 1) && StatesRead(s, steps, n - 1)
    ensures Upto(s, steps, n).stateBeforeConflict == MemoRead(s, steps, n)
  {
    hide Upto, Run, After, EvidenceOf, Told, StateSaid, MemoSaid, TimersRun, FallsDue, ActiveElapsed, Coherent;
    hide StateRead;
    OneStep(s, steps, n);
    ToldIsAccepted(s, steps, n - 1);
    StateFollowsStep(Upto(s, steps, n - 1), steps[n - 1]);
  }

  lemma NextState(s: Snapshot, start: TimePoint, steps: seq<Step>, n: nat)
    requires 0 < n <= |steps| && Remembers(s, None) && Coherent(Upto(s, steps, n - 1))
    requires FactsRead(s, steps, n - 1) && ClockRead(s, start, steps, n - 1) && StatesRead(s, steps, n - 1)
    ensures Upto(s, steps, n).state == StateRead(s, steps, n)
  {
    hide Upto, Run, After, EvidenceOf, Told, StateSaid, MemoSaid, TimersRun, FallsDue, ActiveElapsed, Coherent;
    hide MemoRead, DeadlineRead, RestartRead, PauseRead, ConflictRead, ActivityRead, WarningRead, SummaryRead;
    hide ProcessRead;
    OneStep(s, steps, n);
    ToldIsAccepted(s, steps, n - 1);
    StateFollowsStep(Upto(s, steps, n - 1), steps[n - 1]);
  }

  lemma {:induction false} StateFollows(session: SessionIdentity, root: nat, start: TimePoint, steps: seq<Step>, n: nat)
    requires n <= |steps|
    ensures StatesRead(NewSession(session, root, start), steps, n)
  {
    if n > 0 {
      var s := NewSession(session, root, start);
      StateFollows(session, root, start, steps, n - 1);
      FactsFollow(s, steps, n - 1);
      ClockFollows(s, steps, n - 1);
      ReachableIsCoherent(session, root, start, steps[..n - 1]);
      NextMemo(s, steps, n);
      NextState(s, start, steps, n);
    }
  }

  /** Suspicion is raised once the inactivity is long enough, and activity lifts it. */
  ghost function SuspicionSaid(s: Snapshot, steps: seq<Step>, i: nat): Option<bool>
    requires i < |steps|
  {
    var at := Upto(s, steps, i);
    match steps[i].input
    case Tick(now) =>
      if TimersRun(at.state, RestartRead(steps, i), PauseRead(s, steps, i)) && DeadlineRead(steps, i).None?
         && ActiveElapsed(at, now) >= steps[i].policy.suspectAfter
      then Some(true) else None
    case _ => if Told(steps, i).Some? && ActivityPayload(Told(steps, i).value) then Some(false) else None
  }

  ghost function SuspicionRead(s: Snapshot, steps: seq<Step>, n: nat): bool {
    Last((i: nat) => if i < |steps| then SuspicionSaid(s, steps, i) else None, n, false)
  }

  lemma SuspicionFollowsStep(s: Snapshot, step: Step)
    ensures var t, told := After(s, step).snapshot, EvidenceOf(s, step.input);
            && (!step.input.Tick? ==>
                  t.suspectEmitted == (s.suspectEmitted && !(told.Some? && ActivityPayload(told.value))))
            && (step.input.Tick? ==>
                  t.suspectEmitted == (s.suspectEmitted
                                       || (TimersRun(s.state, s.reconciliationRequired, s.pauseStarted)
                                           && s.explicitDeadline.None?
                                           && ActiveElapsed(s, step.input.now) >= step.policy.suspectAfter)))
  {
    hide WithPayload, WithTick;
    match step.input
    case Observed(o) =>
      var stamped := Stamped(s, o);
      ClockFollowsPayload(stamped, o);
      ClockFollowsPayload(stamped.(reconciliationRequired := false), o);
    case Tick(now) => TickFollows(s, now, step.policy);
    case _ =>
  }

  lemma NextSuspicion(s: Snapshot, start: TimePoint, steps: seq<Step>, n: nat)
    requires 0 < n <= |steps| && Remembers(s, None)
    requires FactsRead(s, steps, n - 1) && ClockRead(s, start, steps, n - 1)
    requires Upto(s, steps, n - 1).suspectEmitted == SuspicionRead(s, steps, n - 1)
    ensures Upto(s, steps, n).suspectEmitted == SuspicionRead(s, steps, n)
  {
    hide Upto, Run, After, EvidenceOf, Told, TimersRun, ActiveElapsed;
    hide DeadlineRead, RestartRead, PauseRead, ConflictRead, ActivityRead, WarningRead, SummaryRead, ProcessRead;
    OneStep(s, steps, n);
    ToldIsAccepted(s, steps, n - 1);
    SuspicionFollowsStep(Upto(s, steps, n - 1), steps[n - 1]);
  }

  lemma {:induction false} SuspicionFollows(s: Snapshot, steps: seq<Step>, n: nat)
    requires n <= |steps| && Remembers(s, None) && s.pauseStarted.None? && !s.suspectEmitted
    requires FindingsOf(s) == Findings(None, false, None, None, None, false)
    ensures Upto(s, steps, n).suspectEmitted == SuspicionRead(s, steps, n)
  {
    if n > 0 {
      SuspicionFollows(s, steps, n - 1);
      FactsFollow(s, steps, n - 1);
      ClockFollows(s, steps, n - 1);
      NextSuspicion(s, s.lastActivity, steps, n);
    }
  }

  /**
   * The reducer does what the evidence says. In every run of a new session, each field is what the last step that
   * said anything about it said: the state is that of the last accepted native state, intended wait, progress that
   * was awaited, conflict, resolution or due stall; the deadline that of the last `Set` or `Clear`; and so on.
   */
  lemma EvidenceDecides(session: SessionIdentity, root: nat, start: TimePoint, steps: seq<Step>)
    ensures var s, n := NewSession(session, root, start), |steps|;
            var t := Run(s, steps).snapshot;
            && t.session == session && t.root == root
            && t.state == StateRead(s, steps, n)
            && t.stateBeforeConflict == MemoRead(s, steps, n)
            && t.explicitDeadline == DeadlineRead(steps, n)
            && t.sourceConflict == ConflictRead(steps, n)
            && t.reconciliationRequired == RestartRead(steps, n)
            && t.pauseStarted == PauseRead(s, steps, n)
            && t.lastActivity == ActivityRead(start, steps, n)
            && t.suspectEmitted == SuspicionRead(s, steps, n)
            && t.processIdentity == ProcessRead(steps, n)
            && t.lastProgressSummary == SummaryRead(steps, n)
            && t.compatibilityWarning == WarningRead(s, steps, n)
  {
    hide Last;
    var s, n := NewSession(session, root, start), |steps|;
    assert steps[..n] == steps;
    RecordFollows(s, steps, n);
    StateFollows(session, root, start, steps, n);
    FactsFollow(s, steps, n);
    ClockFollows(s, steps, n);
    SuspicionFollows(s, steps, n);
  }

  /** The deadline in force is the last one set and not cleared since. */
  lemma DeadlineIsLastSet(steps: seq<Step>, n: nat, deadline: int)
    ensures DeadlineRead(steps, n) == Some(deadline) <==>
            exists i :: 0 <= i < n && Told(steps, i) == Some(Deadline(Set(deadline)))
                        && forall j :: i < j < n ==> DeadlineSaid(Told(steps, j)).None?
  {
    var said := (i: nat) => DeadlineSaid(Told(steps, i));
    assert DeadlineRead(steps, n) == Last(said, n, None);
    if DeadlineRead(steps, n) == Some(deadline) {
      LastIsLast(said, n, None);
      var i :| 0 <= i < n && said(i) == Some(Some(deadline)) && forall j :: i < j < n ==> said(j).None?;
      assert Told(steps, i) == Some(Deadline(Set(deadline)));
      assert forall j :: i < j < n ==> DeadlineSaid(Told(steps, j)) == said(j);
    }
    forall i | 0 <= i < n && Told(steps, i) == Some(Deadline(Set(deadline)))
               && forall j :: i < j < n ==> DeadlineSaid(Told(steps, j)).None?
      ensures DeadlineRead(steps, n) == Some(deadline)
    {
      assert forall j :: i < j < n ==> said(j) == DeadlineSaid(Told(steps, j));
      LastSaid(said, n, None, i);
    }
  }

  /** With a deadline in force, a tick stalls a session whose timers run exactly when the deadline has come. */
  lemma StallsAtDeadline(
    session: SessionIdentity, root: nat, start: TimePoint, steps: seq<Step>, deadline: int, now: TimePoint,
    policy: Policy)
    requires var s, n := NewSession(session, root, start), |steps|;
             && DeadlineRead(steps, n) == Some(deadline) && !StateRead(s, steps, n).Stalled?
             && TimersRun(StateRead(s, steps, n), RestartRead(steps, n), PauseRead(s, steps, n))
    ensures var t := Run(NewSession(session, root, start), steps).snapshot;
            After(t, Step(Tick(now), policy)).snapshot.state.Stalled? <==> deadline <= now.wall
  {
    hide StateRead, DeadlineRead, RestartRead, PauseRead;
    EvidenceDecides(session, root, start, steps);
    TickFollows(Run(NewSession(session, root, start), steps).snapshot, now, policy);
  }
}
