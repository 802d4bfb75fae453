/** The pure termination gate, and what an eligible assessment proves about the session's whole run. */
module Safety {
  import opened Core
  import opened State
  import opened Reducer
  import opened ReducerRuns
  import opened StallClock
  import opened Evidence

  datatype Gate =
    | TrustworthyChild | ContinuousStall | NoSourceConflict | NoActiveOperation | NotWaitingForUser
    | DeadlineAllows | TimersRunning | EvidenceReconciled | ComponentsHealthy | ProcessVerified | RuntimeMatches

  datatype Blocker =
    | UntrustedChild | InsufficientStall | Conflicted | ActiveOperation | NeedsUser
    | DeadlineExtension | TimersPaused | NotReconciled | ComponentUnhealthy | MissingProcess | RuntimeMismatch

  datatype RuntimeKind = ClaudeCode | CodexCli | CodexCompanion | OpenCode

  datatype Component = Store | Queue | Adapter | ProcessControl

  // ----- component health as a bit set -----

  function Bit(c: Component): bv8 {
    match c
    case Store => 1
    case Queue => 2
    case Adapter => 4
    case ProcessControl => 8
  }

  function WithUnhealthy(health: bv8, c: Component): bv8 {
    health | Bit(c)
  }

  function MarkAll(components: seq<Component>): bv8 {
    if components == [] then 0
    else WithUnhealthy(MarkAll(components[..|components| - 1]), components[|components| - 1])
  }

  /** Health is all-healthy exactly when no component was ever marked, whatever the order and repetition. */
  lemma {:induction false} HealthyIffUnmarked(components: seq<Component>)
    ensures MarkAll(components) == 0 <==> components == []
  {
    if components != [] {
      assert WithUnhealthy(MarkAll(components[..|components| - 1]), components[|components| - 1]) != 0;
    }
  }

  // ----- the gate -----

  datatype Facts = Facts(
    snapshot: Snapshot,
    runtime: RuntimeKind,
    trustworthyRelation: bool,
    activeOperation: bool,
    freshProcess: Option<ProcessIdentity>,
    health: bv8,
    now: TimePoint,
    terminateAfterStalled: u64)

  datatype Assessment = Assessment(passed: set<Gate>, blockers: set<Blocker>) {
    predicate Eligible() {
      blockers == {}
    }
  }

  predicate ExecutableMatchesRuntime(runtime: RuntimeKind, fileName: Option<string>) {
    fileName.Some? &&
    match runtime
    case ClaudeCode => fileName.value == "claude" || fileName.value == "claude-code"
    case CodexCli => fileName.value == "codex"
    case CodexCompanion => fileName.value == "codex" || fileName.value == "codex-companion"
    case OpenCode => fileName.value == "opencode"
  }

  /** What each gate demands of the evidence. */
  predicate Holds(g: Gate, child: nat, f: Facts) {
    match g
    case TrustworthyChild => f.snapshot.session == Child(child) && f.trustworthyRelation
    case ContinuousStall =>
      f.snapshot.state.Stalled? && f.snapshot.stalledSince.Some?
      && SatSub(f.now.mono, f.snapshot.stalledSince.value) >= f.terminateAfterStalled
    case NoSourceConflict => !f.snapshot.sourceConflict
    case NoActiveOperation => !f.activeOperation
    case NotWaitingForUser => !f.snapshot.state.WaitingForUser?
    case DeadlineAllows => f.snapshot.explicitDeadline.None? || f.snapshot.explicitDeadline.value <= f.now.wall
    case TimersRunning => f.snapshot.pauseStarted.None?
    case EvidenceReconciled => !f.snapshot.reconciliationRequired
    case ComponentsHealthy => f.health == 0
    case ProcessVerified => f.freshProcess.Some?
    case RuntimeMatches =>
      f.freshProcess.Some? && ExecutableMatchesRuntime(f.runtime, f.freshProcess.value.fileName)
  }

  function GateOf(b: Blocker): Gate {
    match b
    case UntrustedChild => TrustworthyChild
    case InsufficientStall => ContinuousStall
    case Conflicted => NoSourceConflict
    case ActiveOperation => NoActiveOperation
    case NeedsUser => NotWaitingForUser
    case DeadlineExtension => DeadlineAllows
    case TimersPaused => TimersRunning
    case NotReconciled => EvidenceReconciled
    case ComponentUnhealthy => ComponentsHealthy
    case MissingProcess => ProcessVerified
    case RuntimeMismatch => RuntimeMatches
  }

  /** A blocker is reported when its gate fails; without a process the runtime is not judged at all. */
  predicate Blocks(b: Blocker, child: nat, f: Facts) {
    !Holds(GateOf(b), child, f) && (b.RuntimeMismatch? ==> f.freshProcess.Some?)
  }

  ghost predicate Assesses(a: Assessment, child: nat, f: Facts) {
    && (forall g :: g in a.passed <==> Holds(g, child, f))
    && (forall b :: b in a.blockers <==> Blocks(b, child, f))
  }

  /** The order in which the gates are evaluated. */
  ghost function Order(g: Gate): nat {
    match g
    case TrustworthyChild => 0
    case ContinuousStall => 1
    case NoSourceConflict => 2
    case NoActiveOperation => 3
    case NotWaitingForUser => 4
    case DeadlineAllows => 5
    case TimersRunning => 6
    case EvidenceReconciled => 7
    case ComponentsHealthy => 8
    case ProcessVerified => 9
    case RuntimeMatches => 10
  }

  /** The assessment so far, after the first `n` gates have been evaluated. */
  ghost predicate AssessesFirst(a: Assessment, n: nat, child: nat, f: Facts) {
    && (forall g :: g in a.passed <==> Order(g) < n && Holds(g, child, f))
    && (forall b :: b in a.blockers <==> Order(GateOf(b)) < n && !Holds(GateOf(b), child, f))
  }

  method PassGate(condition: bool, success: Gate, failure: Blocker, a: Assessment,
                  ghost child: nat, ghost f: Facts) returns (r: Assessment)
    requires AssessesFirst(a, Order(success), child, f) && condition == Holds(success, child, f)
    requires GateOf(failure) == success
    ensures AssessesFirst(r, Order(success) + 1, child, f)
  {
    assert forall b :: Order(GateOf(b)) == Order(success) ==> b == failure;
    assert forall g :: Order(g) == Order(success) ==> g == success;
    r := a;
    if condition {
      r := r.(passed := r.passed + {success});
    } else {
      r := r.(blockers := r.blockers + {failure});
    }
  }

  /** The gates on what the session's own snapshot says about its stall. */
  method AssessStall(child: nat, f: Facts) returns (a: Assessment)
    ensures AssessesFirst(a, 4, child, f)
  {
    a := Assessment({}, {});
    var s := f.snapshot;
    a := PassGate(s.session.Child? && s.session.id == child && f.trustworthyRelation,
                  TrustworthyChild, UntrustedChild, a, child, f);
    var stalledLongEnough := s.state.Stalled? && s.stalledSince.Some?
                             && SatSub(f.now.mono, s.stalledSince.value) >= f.terminateAfterStalled;
    a := PassGate(stalledLongEnough, ContinuousStall, InsufficientStall, a, child, f);
    a := PassGate(!s.sourceConflict, NoSourceConflict, Conflicted, a, child, f);
    a := PassGate(!f.activeOperation, NoActiveOperation, ActiveOperation, a, child, f);
  }

  /** The gates on waiting, deadlines, pauses and restarts. */
  method AssessTimers(child: nat, f: Facts, before: Assessment) returns (a: Assessment)
    requires AssessesFirst(before, 4, child, f)
    ensures AssessesFirst(a, 8, child, f)
  {
    var s := f.snapshot;
    a := PassGate(!s.state.WaitingForUser?, NotWaitingForUser, NeedsUser, before, child, f);
    a := PassGate(s.explicitDeadline.None? || s.explicitDeadline.value <= f.now.wall,
                  DeadlineAllows, DeadlineExtension, a, child, f);
    a := PassGate(s.pauseStarted.None?, TimersRunning, TimersPaused, a, child, f);
    a := PassGate(!s.reconciliationRequired, EvidenceReconciled, NotReconciled, a, child, f);
  }

  /** The step-by-step gate fills its two sets with exactly the gates that hold and the blockers that apply. */
  method AssessTermination(child: nat, f: Facts) returns (a: Assessment)
    ensures Assesses(a, child, f)
    ensures a.Eligible() <==> forall g :: g in a.passed
  {
    a := AssessStall(child, f);
    a := AssessTimers(child, f, a);
    a := PassGate(f.health == 0, ComponentsHealthy, ComponentUnhealthy, a, child, f);
    a := PassGate(f.freshProcess.Some?, ProcessVerified, MissingProcess, a, child, f);
    if f.freshProcess.Some? {
      a := PassGate(ExecutableMatchesRuntime(f.runtime, f.freshProcess.value.fileName),
                    RuntimeMatches, RuntimeMismatch, a, child, f);
    }
    AllGatesAssessed(a, child, f);
    EligibleMeansAllGates(a, child, f);
  }

  lemma AllGatesAssessed(a: Assessment, child: nat, f: Facts)
    requires AssessesFirst(a, if f.freshProcess.Some? then 11 else 10, child, f)
    ensures Assesses(a, child, f)
  {
    forall g
      ensures g in a.passed <==> Holds(g, child, f)
    {
    }
    forall b
      ensures b in a.blockers <==> Blocks(b, child, f)
    {
      assert GateOf(b).RuntimeMatches? <==> b.RuntimeMismatch?;
    }
  }

  /** Eligibility is all eleven gates at once: no gate can be silently skipped. */
  lemma EligibleMeansAllGates(a: Assessment, child: nat, f: Facts)
    requires Assesses(a, child, f)
    ensures a.Eligible() <==> forall g :: g in a.passed
  {
    if a.Eligible() {
      assert MissingProcess !in a.blockers;
      forall g
        ensures g in a.passed
      {
        GateHasBlocker(g);
        var b :| GateOf(b) == g;
        assert b !in a.blockers;
      }
    } else {
      var b :| b in a.blockers;
      assert GateOf(b) !in a.passed;
    }
  }

  lemma GateHasBlocker(g: Gate)
    ensures exists b :: GateOf(b) == g
  {
    var b := match g
      case TrustworthyChild => UntrustedChild
      case ContinuousStall => InsufficientStall
      case NoSourceConflict => Conflicted
      case NoActiveOperation => ActiveOperation
      case NotWaitingForUser => NeedsUser
      case DeadlineAllows => DeadlineExtension
      case TimersRunning => TimersPaused
      case EvidenceReconciled => NotReconciled
      case ComponentsHealthy => ComponentUnhealthy
      case ProcessVerified => MissingProcess
      case RuntimeMatches => RuntimeMismatch;
    assert GateOf(b) == g;
  }

  // ----- the run behind an eligible assessment -----

  /** Real time a step accounts for: after a restart, the new process clock counts from zero. */
  ghost function Passed(w: Watch, step: Step): nat
    requires InOrder(w, step)
  {
    if step.input.Restarted? then step.input.Time() else step.input.Time() - w.last
  }

  /** How long the session has been stalled without interruption when the run ends. */
  ghost function StalledFor(s: Snapshot, start: nat, steps: seq<Step>): nat
    requires WellTimed(s, start, steps)
  {
    if steps == [] then 0
    else
      var before, last := steps[..|steps| - 1], steps[|steps| - 1];
      var w := Watching(s, start, before);
      if w.snapshot.state.Stalled? && After(w.snapshot, last).snapshot.state.Stalled?
      then StalledFor(s, start, before) + Passed(w, last)
      else 0
  }

  lemma ActivityEndsStall(s: Snapshot, step: Step)
    requires Activity(s, step.input)
    ensures !After(s, step).snapshot.state.Stalled?
  {
    var o := step.input.observation;
    ActivityPayloadEndsStall(Stamped(s, o).(reconciliationRequired := false), o.payload, o.at);
  }

  lemma ActivityPayloadEndsStall(s: Snapshot, payload: Payload, now: TimePoint)
    requires ActivityPayload(payload)
    ensures !WithPayload(s, payload, now).snapshot.state.Stalled?
  {
  }

  /** A stalled result carries the old stall start, or this instant when the stall is new. */
  ghost predicate StallFollows(s: Snapshot, end: Snapshot, now: nat) {
    end.state.Stalled? ==>
      if s.state.Stalled? then end.stalledSince == s.stalledSince else end.stalledSince == Some(now)
  }

  lemma TransitionStall(s: Snapshot, to: DetailedState, now: TimePoint)
    ensures StallFollows(s, WithTransition(s, to, now).snapshot, now.mono)
  {
  }

  lemma PayloadStall(s: Snapshot, payload: Payload, now: TimePoint)
    requires Coherent(s)
    ensures StallFollows(s, WithPayload(s, payload, now).snapshot, now.mono)
  {
    match payload
    case NativeState(state) => TransitionStall(WithUserWait(s, state, now), state, now);
    case SourceConflictResolved =>
      var cleared := s.(sourceConflict := false, stateBeforeConflict := None);
      TransitionStall(cleared, if s.stateBeforeConflict.Some? then s.stateBeforeConflict.value else Unknown, now);
    case _ =>
  }

  lemma StepStall(s: Snapshot, step: Step)
    requires Coherent(s)
    ensures StallFollows(s, After(s, step).snapshot, step.input.Time())
    ensures step.input.Restarted? ==> After(s, step).snapshot.state == s.state
  {
    match step.input
    case Observed(o) =>
      PayloadStall(Stamped(s, o), o.payload, o.at);
      PayloadStall(Stamped(s, o).(reconciliationRequired := false), o.payload, o.at);
    case Tick(now) => TransitionStall(WithSuspicion(s, now, step.policy).snapshot, Stalled, now);
    case _ =>
  }

  /** The recorded stall start never claims more than the measured continuous stall. */
  lemma {:induction false} StallIsMeasured(s: Snapshot, start: nat, steps: seq<Step>)
    requires Coherent(s) && !s.state.Stalled? && WellTimed(s, start, steps)
    ensures var w := Watching(s, start, steps);
            && Coherent(w.snapshot)
            && (w.snapshot.state.Stalled? ==>
                  w.last <= w.snapshot.stalledSince.value + StalledFor(s, start, steps))
  {
    if steps != [] {
      var before, last := steps[..|steps| - 1], steps[|steps| - 1];
      StallIsMeasured(s, start, before);
      var w := Watching(s, start, before);
      StepKeepsCoherent(w.snapshot, last);
      StepStall(w.snapshot, last);
    }
  }

  /** From step `k` on the session is stalled at every point and accepts no activity. */
  ghost predicate QuietSince(s: Snapshot, steps: seq<Step>, k: nat)
    requires k <= |steps|
  {
    StalledSince(s, steps, k) && UntouchedSince(s, steps, k)
  }

  ghost predicate StalledSince(s: Snapshot, steps: seq<Step>, k: nat)
    requires k <= |steps|
  {
    forall j :: k <= j <= |steps| ==> Run(s, steps[..j]).snapshot.state.Stalled?
  }

  ghost predicate UntouchedSince(s: Snapshot, steps: seq<Step>, k: nat)
    requires k <= |steps|
  {
    forall j :: k <= j < |steps| ==> !Activity(Run(s, steps[..j]).snapshot, steps[j].input)
  }

  /** Step `k - 1` stalled the session, and it has been stalled and quiet ever since. */
  ghost predicate StallBegins(s: Snapshot, steps: seq<Step>, k: nat) {
    0 < k <= |steps| && QuietSince(s, steps, k) && !Run(s, steps[..k - 1]).snapshot.state.Stalled?
  }

  /** Where the current stall began. */
  lemma {:induction false} StallBegan(s: Snapshot, steps: seq<Step>) returns (k: nat)
    requires Coherent(s) && !s.state.Stalled?
    requires Run(s, steps).snapshot.state.Stalled?
    ensures StallBegins(s, steps, k) && Run(s, steps).snapshot.stalledSince == Some(steps[k - 1].input.Time())
  {
    var before, last := steps[..|steps| - 1], steps[|steps| - 1];
    var mid := Run(s, before).snapshot;
    RunsAreCoherent(s, before);
    StepStall(mid, last);
    if mid.state.Stalled? {
      k := StallBegan(s, before);
      StillBegins(s, steps, k);
    } else {
      k := |steps|;
      BeginsNow(s, steps);
    }
  }

  lemma BeginsNow(s: Snapshot, steps: seq<Step>)
    requires steps != [] && Run(s, steps).snapshot.state.Stalled?
    requires !Run(s, steps[..|steps| - 1]).snapshot.state.Stalled?
    ensures StallBegins(s, steps, |steps|)
  {
    assert steps[..|steps|] == steps;
  }

  lemma StillBegins(s: Snapshot, steps: seq<Step>, k: nat)
    requires steps != [] && StallBegins(s, steps[..|steps| - 1], k)
    requires Run(s, steps).snapshot.state.Stalled?
    ensures StallBegins(s, steps, k)
  {
    hide Run, Activity;
    var before := steps[..|steps| - 1];
    assert before[..k - 1] == steps[..k - 1];
    assert steps[..|steps|] == steps;
    assert forall j :: 0 <= j <= |before| ==> before[..j] == steps[..j];
    LastStepIsQuiet(s, steps);
  }

  lemma LastStepIsQuiet(s: Snapshot, steps: seq<Step>)
    requires steps != [] && Run(s, steps).snapshot.state.Stalled?
    ensures !Activity(Run(s, steps[..|steps| - 1]).snapshot, steps[|steps| - 1].input)
  {
    var mid := Run(s, steps[..|steps| - 1]).snapshot;
    if Activity(mid, steps[|steps| - 1].input) {
      ActivityEndsStall(mid, steps[|steps| - 1]);
    }
  }

  lemma {:induction false} WatchFollowsRun(s: Snapshot, start: nat, steps: seq<Step>)
    requires WellTimed(s, start, steps)
    ensures Watching(s, start, steps).snapshot == Run(s, steps).snapshot
  {
    if steps != [] {
      WatchFollowsRun(s, start, steps[..|steps| - 1]);
    }
  }

  // ----- every blocker from the evidence of the run -----

  /** The runtimes an executable of this name may belong to. */
  ghost function RuntimesOf(name: string): set<RuntimeKind> {
    if name == "claude" || name == "claude-code" then {ClaudeCode}
    else if name == "codex" then {CodexCli, CodexCompanion}
    else if name == "codex-companion" then {CodexCompanion}
    else if name == "opencode" then {OpenCode}
    else {}
  }

  /** Which executables each runtime accepts. */
  lemma AcceptedExecutables(runtime: RuntimeKind, fileName: Option<string>)
    ensures ExecutableMatchesRuntime(runtime, fileName) <==> fileName.Some? && runtime in RuntimesOf(fileName.value)
  {
    assert |"claude"| == 6 && |"claude-code"| == 11 && |"codex"| == 5 && |"codex-companion"| == 15 && |"opencode"| == 8;
  }

  /** The stall that lasts when the run ends has lasted for `required` at `now`. */
  ghost predicate StalledLongEnough(s: Snapshot, steps: seq<Step>, now: nat, required: nat) {
    exists k :: StallBegins(s, steps, k) && SatSub(now, steps[k - 1].input.Time()) >= required
  }

  lemma OneBeginning(s: Snapshot, steps: seq<Step>, k: nat, j: nat)
    requires StallBegins(s, steps, k) && StallBegins(s, steps, j)
    ensures j == k
  {
    hide Run, Activity;
  }

  lemma StallMeasuredFromItsBeginning(
    session: SessionIdentity, root: nat, start: TimePoint, steps: seq<Step>, now: nat, required: nat)
    ensures var s, t := NewSession(session, root, start), Run(NewSession(session, root, start), steps).snapshot;
            StalledLongEnough(s, steps, now, required)
            <==> t.state.Stalled? && t.stalledSince.Some? && SatSub(now, t.stalledSince.value) >= required
  {
    var s, t := NewSession(session, root, start), Run(NewSession(session, root, start), steps).snapshot;
    assert steps[..|steps|] == steps;
    if t.state.Stalled? {
      var k := StallBegan(s, steps);
      forall j | StallBegins(s, steps, j)
        ensures j == k
      {
        OneBeginning(s, steps, k, j);
      }
    }
  }

  /** What each blocker means, told from the run's inputs and the facts beside it. */
  ghost predicate Refuses(
    b: Blocker, session: SessionIdentity, s: Snapshot, steps: seq<Step>, marked: seq<Component>, child: nat, f: Facts)
  {
    var n := |steps|;
    match b
    case UntrustedChild => session != Child(child) || !f.trustworthyRelation
    case InsufficientStall => !StalledLongEnough(s, steps, f.now.mono, f.terminateAfterStalled)
    case Conflicted => ConflictRead(steps, n)
    case ActiveOperation => f.activeOperation
    case NeedsUser => StateRead(s, steps, n).WaitingForUser?
    case DeadlineExtension => DeadlineRead(steps, n).Some? && DeadlineRead(steps, n).value > f.now.wall
    case TimersPaused => PauseRead(s, steps, n).Some?
    case NotReconciled => RestartRead(steps, n)
    case ComponentUnhealthy => marked != []
    case MissingProcess => f.freshProcess.None?
    case RuntimeMismatch =>
      f.freshProcess.Some?
      && (f.freshProcess.value.fileName.Some? ==> f.runtime !in RuntimesOf(f.freshProcess.value.fileName.value))
  }

  /** The snapshot holds what the blockers ask about. */
  ghost predicate Grounded(session: SessionIdentity, s: Snapshot, steps: seq<Step>, f: Facts) {
    var t, n := f.snapshot, |steps|;
    && t.session == session && t.state == StateRead(s, steps, n) && t.sourceConflict == ConflictRead(steps, n)
    && t.explicitDeadline == DeadlineRead(steps, n) && t.pauseStarted == PauseRead(s, steps, n)
    && t.reconciliationRequired == RestartRead(steps, n)
    && (StalledLongEnough(s, steps, f.now.mono, f.terminateAfterStalled) <==>
          t.state.Stalled? && t.stalledSince.Some?
          && SatSub(f.now.mono, t.stalledSince.value) >= f.terminateAfterStalled)
  }

  lemma BlockMeans(
    b: Blocker, session: SessionIdentity, s: Snapshot, steps: seq<Step>, marked: seq<Component>, child: nat, f: Facts)
    requires Grounded(session, s, steps, f) && f.health == MarkAll(marked)
    ensures Blocks(b, child, f) <==> Refuses(b, session, s, steps, marked, child, f)
  {
    hide StateRead, DeadlineRead, RestartRead, PauseRead, ConflictRead, StalledLongEnough, MarkAll, RuntimesOf;
    hide ExecutableMatchesRuntime;
    HealthyIffUnmarked(marked);
    if f.freshProcess.Some? {
      AcceptedExecutables(f.runtime, f.freshProcess.value.fileName);
    }
  }

  lemma RunGrounds(session: SessionIdentity, root: nat, start: TimePoint, steps: seq<Step>, f: Facts)
    requires f.snapshot == Run(NewSession(session, root, start), steps).snapshot
    ensures Grounded(session, NewSession(session, root, start), steps, f)
  {
    hide Run, StateRead, DeadlineRead, RestartRead, PauseRead, ConflictRead, StalledLongEnough;
    EvidenceDecides(session, root, start, steps);
    StallMeasuredFromItsBeginning(session, root, start, steps, f.now.mono, f.terminateAfterStalled);
  }

  /** After any run, the assessment names exactly the reasons that the run's evidence gives. */
  lemma BlockersFromEvidence(
    session: SessionIdentity, root: nat, start: TimePoint, steps: seq<Step>, marked: seq<Component>, child: nat,
    f: Facts, a: Assessment)
    requires f.snapshot == Run(NewSession(session, root, start), steps).snapshot && f.health == MarkAll(marked)
    requires Assesses(a, child, f)
    ensures forall b :: b in a.blockers <==>
                        Refuses(b, session, NewSession(session, root, start), steps, marked, child, f)
  {
    hide Run, Grounded, Refuses, Blocks;
    RunGrounds(session, root, start, steps, f);
    forall b
      ensures b in a.blockers <==> Refuses(b, session, NewSession(session, root, start), steps, marked, child, f)
    {
      BlockMeans(b, session, NewSession(session, root, start), steps, marked, child, f);
    }
  }

  /** A gate is passed exactly when its blocker is not reported; the runtime is judged only for a known process. */
  lemma GatesMirrorBlockers(child: nat, f: Facts, a: Assessment)
    requires Assesses(a, child, f)
    ensures TrustworthyChild in a.passed <==> UntrustedChild !in a.blockers
    ensures ContinuousStall in a.passed <==> InsufficientStall !in a.blockers
    ensures NoSourceConflict in a.passed <==> Conflicted !in a.blockers
    ensures NoActiveOperation in a.passed <==> ActiveOperation !in a.blockers
    ensures NotWaitingForUser in a.passed <==> NeedsUser !in a.blockers
    ensures DeadlineAllows in a.passed <==> DeadlineExtension !in a.blockers
    ensures TimersRunning in a.passed <==> TimersPaused !in a.blockers
    ensures EvidenceReconciled in a.passed <==> NotReconciled !in a.blockers
    ensures ComponentsHealthy in a.passed <==> ComponentUnhealthy !in a.blockers
    ensures ProcessVerified in a.passed <==> MissingProcess !in a.blockers
    ensures RuntimeMatches in a.passed <==> RuntimeMismatch !in a.blockers && MissingProcess !in a.blockers
  {
  }

  /** An eligible session has been stalled, without interruption, for the required time. */
  lemma EligibleStall(
    session: SessionIdentity, root: nat, start: TimePoint, steps: seq<Step>, child: nat, f: Facts, a: Assessment)
    requires WellTimed(NewSession(session, root, start), start.mono, steps)
    requires f.snapshot == Run(NewSession(session, root, start), steps).snapshot
    requires Watching(NewSession(session, root, start), start.mono, steps).last <= f.now.mono
    requires Assesses(a, child, f) && a.Eligible()
    ensures exists k :: StallBegins(NewSession(session, root, start), steps, k)
    ensures var s := NewSession(session, root, start);
            StalledFor(s, start.mono, steps) + (f.now.mono - Watching(s, start.mono, steps).last)
            >= f.terminateAfterStalled
  {
    var s := NewSession(session, root, start);
    EligibleMeansAllGates(a, child, f);
    assert Holds(ContinuousStall, child, f);
    WatchFollowsRun(s, start.mono, steps);
    StallIsMeasured(s, start.mono, steps);
    var k := StallBegan(s, steps);
    assert StallBegins(s, steps, k);
  }

  /**
   * Termination soundness over runs, restarts included. An eligible assessment of the session a run leads to means
   * that the run gives no reason against it, that all eleven gates passed, and that the run ends in an unbroken stall
   * with no accepted activity, measured by the clock at no less than the required duration.
   */
  lemma TerminationSound(
    session: SessionIdentity, root: nat, start: TimePoint, steps: seq<Step>, child: nat, f: Facts, a: Assessment)
    requires WellTimed(NewSession(session, root, start), start.mono, steps)
    requires f.snapshot == Run(NewSession(session, root, start), steps).snapshot
    requires Watching(NewSession(session, root, start), start.mono, steps).last <= f.now.mono
    requires Assesses(a, child, f) && a.Eligible()
    ensures forall g :: g in a.passed
    ensures forall b :: !Refuses(b, session, NewSession(session, root, start), steps, [], child, f)
    ensures session == Child(child)
    ensures exists k :: StallBegins(NewSession(session, root, start), steps, k)
    ensures var s := NewSession(session, root, start);
            StalledFor(s, start.mono, steps) + (f.now.mono - Watching(s, start.mono, steps).last)
            >= f.terminateAfterStalled
  {
    hide Run, Watching, StalledFor, StallBegins, StateRead, DeadlineRead, RestartRead, PauseRead, ConflictRead;
    hide StalledLongEnough;
    EligibleMeansAllGates(a, child, f);
    assert Holds(ComponentsHealthy, child, f);
    BlockersFromEvidence(session, root, start, steps, [], child, f, a);
    assert !Refuses(UntrustedChild, session, NewSession(session, root, start), steps, [], child, f);
    EligibleStall(session, root, start, steps, child, f, a);
  }

  /** The theorem is not about nothing: a child observed stalled, and left alone for long enough, is eligible. */
  lemma SomeRunIsEligible() returns (steps: seq<Step>, f: Facts, a: Assessment)
    ensures WellTimed(NewSession(Child(1), 0, TimePoint(0, 0)), 0, steps)
    ensures f.snapshot == Run(NewSession(Child(1), 0, TimePoint(0, 0)), steps).snapshot
    ensures Watching(NewSession(Child(1), 0, TimePoint(0, 0)), 0, steps).last <= f.now.mono
    ensures f.terminateAfterStalled > 0 && Assesses(a, 1, f) && a.Eligible()
  {
    hide Run, Holds, Blocks, Assesses;
    var s, step := NewSession(Child(1), 0, TimePoint(0, 0)), At(1, 0, NativeState(Stalled));
    WatchSnoc(s, 0, [], step);
    steps := [] + [step];
    WatchFollowsRun(s, 0, steps);
    var stalled := After(s, step).snapshot;
    assert Stalling(stalled);
    f := Facts(stalled, CodexCli, true, false, Some(ProcessIdentity(1, 1, Some("codex"))), 0, TimePoint(10, 10), 5);
    a := StallingIsEligible(f);
  }

  ghost predicate Stalling(s: Snapshot) {
    && s.session == Child(1) && s.state.Stalled? && s.stalledSince == Some(0) && !s.sourceConflict
    && s.explicitDeadline.None? && s.pauseStarted.None? && !s.reconciliationRequired
  }

  lemma StallingIsEligible(f: Facts) returns (a: Assessment)
    requires Stalling(f.snapshot) && f.trustworthyRelation && !f.activeOperation && f.health == 0
    requires f.freshProcess == Some(ProcessIdentity(1, 1, Some("codex"))) && f.runtime.CodexCli?
    requires f.now.mono >= f.terminateAfterStalled
    ensures Assesses(a, 1, f) && a.Eligible()
  {
    a := Assessment(set g: Gate | Holds(g, 1, f), {});
    assert forall g: Gate :: Holds(g, 1, f);
  }
}
