/** One serial reducer lane: reduce, allocate event identities, and advance only with the store. */
module Coordinator {
  import opened Core
  import opened Reducer
  import opened ReducerRuns

  /** What the store's transaction answered. */
  datatype StoreAnswer = Applied | Duplicate | StoreFailed

  datatype ApplyResult = Changed | Repeated | NoChange | StoreError | SequenceExhausted

  datatype LoggedEvent = LoggedEvent(id: nat, kind: EventKind)

  /** A lane's committed snapshot, the next unallocated event id, and the events its transactions stored. */
  datatype Lane = Lane(snapshot: Snapshot, next: u64, log: seq<LoggedEvent>)

  /** How many identities other lanes take from the shared sequence before the allocation of event `i` of a step. */
  function TakenBefore(others: seq<nat>, i: nat): nat {
    if i < |others| then others[i] else 0
  }

  /** One identity for each event of a step, unless they run out; and what is then the next one. */
  function Allocated(next: u64, kinds: seq<EventKind>, others: seq<nat>): (u64, Option<seq<LoggedEvent>>) {
    if kinds == [] then (next, Some([]))
    else
      var (mid, events) := Allocated(next, kinds[..|kinds| - 1], others);
      if events.None? then (mid, None)
      else
        var id := SatAdd(mid, TakenBefore(others, |kinds| - 1));
        if id == U64_MAX then (id, None)
        else (id + 1, Some(events.value + [LoggedEvent(id, kinds[|kinds| - 1])]))
  }

  predicate Transient(input: Input) {
    input.Tick? || input.Reconciled?
  }

  /** What becomes of a reduction once identities are allocated and the store has answered. */
  function Persist(lane: Lane, transient: bool, out: Output, answer: StoreAnswer, others: seq<nat>)
    : (Lane, ApplyResult)
  {
    if transient && out == Output(lane.snapshot, []) then (lane, NoChange)
    else
      var (next, events) := Allocated(lane.next, out.events, others);
      if events.None? then (lane.(next := next), SequenceExhausted)
      else
        match answer
        case Applied => (Lane(out.snapshot, next, lane.log + events.value), Changed)
        case Duplicate => (lane.(next := next), Repeated)
        case StoreFailed => (lane.(next := next), StoreError)
  }

  function Apply(lane: Lane, input: Input, policy: Policy, answer: StoreAnswer, others: seq<nat>): (Lane, ApplyResult) {
    Persist(lane, Transient(input), Reduce(lane.snapshot, input, policy), answer, others)
  }

  class EventSequence {
    var next: u64

    constructor (first: u64)
      ensures next == first
    {
      next := first;
    }

    method Allocate() returns (id: Option<u64>)
      modifies this
      ensures old(next) == U64_MAX ==> id == None && next == old(next)
      ensures old(next) < U64_MAX ==> id == Some(old(next)) && next == old(next) + 1
    {
      if next == U64_MAX {
        return None;
      }
      id := Some(next);
      next := next + 1;
    }

    /** Other lanes allocate `count` identities, as far as there are any. */
    method TakenElsewhere(count: nat)
      modifies this
      ensures next == SatAdd(old(next), count)
    {
      next := SatAdd(next, count);
    }
  }

  class SessionCoordinator {
    var snapshot: Snapshot
    var policy: Policy
    var log: seq<LoggedEvent>
    const sequence: EventSequence

    constructor (snapshot: Snapshot, policy: Policy, sequence: EventSequence)
      ensures this.snapshot == snapshot && this.policy == policy && this.sequence == sequence && log == []
    {
      this.snapshot, this.policy, this.sequence, log := snapshot, policy, sequence, [];
    }

    function View(): Lane
      reads this, sequence
    {
      Lane(snapshot, sequence.next, log)
    }

    method PersistOutput(transient: bool, out: Output, answer: StoreAnswer, others: seq<nat>)
      returns (r: ApplyResult)
      modifies this, sequence
      ensures (View(), r) == Persist(old(View()), transient, out, answer, others)
      ensures policy == old(policy)
    {
      if transient && out.snapshot == snapshot && out.events == [] {
        return NoChange;
      }
      ghost var first := sequence.next;
      var events: seq<LoggedEvent> := [];
      var i := 0;
      while i < |out.events|
        invariant 0 <= i <= |out.events|
        invariant (sequence.next, Some(events)) == Allocated(first, out.events[..i], others)
        invariant snapshot == old(snapshot) && log == old(log) && policy == old(policy)
      {
        assert out.events[..i + 1][..i] == out.events[..i];
        sequence.TakenElsewhere(TakenBefore(others, i));
        var id := sequence.Allocate();
        if id.None? {
          StaysExhausted(first, out.events, others, i + 1);
          return SequenceExhausted;
        }
        events := events + [LoggedEvent(id.value, out.events[i])];
        i := i + 1;
      }
      assert out.events[..i] == out.events;
      match answer
      case Applied =>
        snapshot, log := out.snapshot, log + events;
        r := Changed;
      case Duplicate =>
        r := Repeated;
      case StoreFailed =>
        r := StoreError;
    }

    /** Reduce, allocate and persist; the in-memory snapshot advances only after the store committed. */
    method ApplyInput(input: Input, answer: StoreAnswer, others: seq<nat>) returns (r: ApplyResult)
      modifies this, sequence
      ensures (View(), r) == Apply(old(View()), input, old(policy), answer, others)
      ensures policy == old(policy)
    {
      var out := ReduceInPlace(snapshot, input, policy);
      r := PersistOutput(Transient(input), out, answer, others);
    }
  }

  // ----- runs of one lane beside others -----

  /**
   * An input with the store's answer and the identities other lanes take between its own, or identities that they
   * take between two steps.
   */
  datatype LaneStep = Own(input: Input, policy: Policy, answer: StoreAnswer, others: seq<nat>) | Elsewhere(taken: nat)

  ghost function LaneRun(lane: Lane, steps: seq<LaneStep>): Lane {
    if steps == [] then lane
    else
      var before := LaneRun(lane, steps[..|steps| - 1]);
      match steps[|steps| - 1]
      case Own(input, policy, answer, others) => Apply(before, input, policy, answer, others).0
      case Elsewhere(taken) => before.(next := SatAdd(before.next, taken))
  }

  /** Once identities have run out, nothing more is allocated. */
  lemma {:induction false} StaysExhausted(next: u64, kinds: seq<EventKind>, others: seq<nat>, n: nat)
    requires n <= |kinds| && Allocated(next, kinds[..n], others).1.None?
    ensures Allocated(next, kinds, others) == Allocated(next, kinds[..n], others)
    decreases |kinds|
  {
    if n == |kinds| {
      assert kinds[..n] == kinds;
    } else {
      var before := kinds[..|kinds| - 1];
      assert before[..n] == kinds[..n];
      StaysExhausted(next, before, others, n);
    }
  }

  ghost function Kinds(log: seq<LoggedEvent>): seq<EventKind> {
    seq(|log|, i requires 0 <= i < |log| => log[i].kind)
  }

  /** Stored identities are unique and increasing, and below the next one to be allocated. */
  ghost predicate Identified(lane: Lane) {
    && (forall i, j :: 0 <= i < j < |lane.log| ==> lane.log[i].id < lane.log[j].id)
    && (forall i :: 0 <= i < |lane.log| ==> lane.log[i].id < lane.next)
  }

  ghost predicate Faithful(s: Snapshot, lane: Lane) {
    Identified(lane) && Replay(KnownOf(s), Kinds(lane.log)) == KnownOf(lane.snapshot)
  }

  /** The identities of a step increase from the next free one on, and its events keep their kinds. */
  lemma {:induction false} AllocationIncreases(next: u64, kinds: seq<EventKind>, others: seq<nat>)
    ensures var (after, events) := Allocated(next, kinds, others);
            && next <= after
            && (events.Some? ==>
                  && Kinds(events.value) == kinds
                  && (forall i, j :: 0 <= i < j < |events.value| ==> events.value[i].id < events.value[j].id)
                  && (forall i :: 0 <= i < |events.value| ==> next <= events.value[i].id < after))
  {
    if kinds != [] {
      var front := kinds[..|kinds| - 1];
      AllocationIncreases(next, front, others);
      assert kinds == front + [kinds[|kinds| - 1]];
    }
  }

  lemma PersistKeepsFaithful(
    s: Snapshot, lane: Lane, transient: bool, out: Output, answer: StoreAnswer, others: seq<nat>)
    requires Faithful(s, lane) && Logged(lane.snapshot, out)
    ensures Faithful(s, Persist(lane, transient, out, answer, others).0)
  {
    var end := Persist(lane, transient, out, answer, others).0;
    AllocationIncreases(lane.next, out.events, others);
    if end.log != lane.log || end.snapshot != lane.snapshot {
      ReplayConcat(KnownOf(s), Kinds(lane.log), out.events);
      assert Kinds(end.log) == Kinds(lane.log) + out.events;
    }
  }

  lemma ApplyKeepsFaithful(
    s: Snapshot, lane: Lane, input: Input, policy: Policy, answer: StoreAnswer, others: seq<nat>)
    requires Faithful(s, lane)
    ensures Faithful(s, Apply(lane, input, policy, answer, others).0)
  {
    ReduceIsLogged(lane.snapshot, input, policy);
    PersistKeepsFaithful(s, lane, Transient(input), Reduce(lane.snapshot, input, policy), answer, others);
  }

  /**
   * Durable log faithfulness: whatever transactions fail, repeat or run out of identities, and whatever identities
   * other lanes take, even between two events of one step, the stored events replay to the lane's committed snapshot,
   * under strictly increasing identities.
   */
  lemma {:induction false} DurableLogReplays(s: Snapshot, next: u64, steps: seq<LaneStep>)
    ensures Faithful(s, LaneRun(Lane(s, next, []), steps))
  {
    if steps != [] {
      DurableLogReplays(s, next, steps[..|steps| - 1]);
      var before := LaneRun(Lane(s, next, []), steps[..|steps| - 1]);
      match steps[|steps| - 1]
      case Own(input, policy, answer, others) => ApplyKeepsFaithful(s, before, input, policy, answer, others);
      case Elsewhere(_) =>
    }
  }

  // ----- which inputs are committed -----

  /** How many identities other lanes take before the last allocation of a step with `n` events. */
  function TakenIn(others: seq<nat>, n: nat): nat {
    if n == 0 then 0 else TakenIn(others, n - 1) + TakenBefore(others, n - 1)
  }

  /** Identities suffice for a step exactly when its own and those taken meanwhile leave the last one unused. */
  lemma {:induction false} AllocationSucceedsIff(next: u64, kinds: seq<EventKind>, others: seq<nat>)
    ensures var (after, events) := Allocated(next, kinds, others);
            && (events.Some? <==> next + TakenIn(others, |kinds|) + |kinds| <= U64_MAX)
            && after == Min(next + TakenIn(others, |kinds|) + |kinds|, U64_MAX)
  {
    if kinds != [] {
      AllocationSucceedsIff(next, kinds[..|kinds| - 1], others);
    }
  }

  /**
   * The answer of a lane: nothing to do, no identities left, or what the store answered. Identities are used up by
   * every step that has something to do, whatever becomes of it.
   */
  lemma ResultMeans(lane: Lane, input: Input, policy: Policy, answer: StoreAnswer, others: seq<nat>)
    ensures var out, (after, r) := Reduce(lane.snapshot, input, policy), Apply(lane, input, policy, answer, others);
            var idle := (input.Tick? || input.Reconciled?) && out == Output(lane.snapshot, []);
            var used := lane.next + TakenIn(others, |out.events|) + |out.events|;
            && (r.NoChange? <==> idle)
            && (r.SequenceExhausted? <==> !idle && used > U64_MAX)
            && (r.Changed? <==> !idle && used <= U64_MAX && answer.Applied?)
            && (r.Repeated? <==> !idle && used <= U64_MAX && answer.Duplicate?)
            && (r.StoreError? <==> !idle && used <= U64_MAX && answer.StoreFailed?)
            && after.next == if idle then lane.next else Min(used, U64_MAX)
  {
    hide Reduce;
    AllocationSucceedsIff(lane.next, Reduce(lane.snapshot, input, policy).events, others);
  }

  /** The inputs for which identities sufficed and which the store applied. */
  ghost function AppliedInputs(lane: Lane, steps: seq<LaneStep>): seq<Step> {
    if steps == [] then []
    else
      var before, last := AppliedInputs(lane, steps[..|steps| - 1]), steps[|steps| - 1];
      var at := LaneRun(lane, steps[..|steps| - 1]);
      if last.Own? && last.answer.Applied?
         && var kinds := Reduce(at.snapshot, last.input, last.policy).events;
            at.next + TakenIn(last.others, |kinds|) + |kinds| <= U64_MAX
      then before + [Step(last.input, last.policy)] else before
  }

  /** The lane holds the run of these inputs, and has stored its events. */
  ghost predicate Holds(s: Snapshot, lane: Lane, applied: seq<Step>) {
    Run(s, applied) == Output(lane.snapshot, Kinds(lane.log))
  }

  lemma ApplyHolds(
    s: Snapshot, lane: Lane, applied: seq<Step>, input: Input, policy: Policy, answer: StoreAnswer, others: seq<nat>)
    requires Holds(s, lane, applied)
    ensures var kinds := Reduce(lane.snapshot, input, policy).events;
            Holds(s, Apply(lane, input, policy, answer, others).0,
                  if answer.Applied? && lane.next + TakenIn(others, |kinds|) + |kinds| <= U64_MAX
                  then applied + [Step(input, policy)] else applied)
  {
    hide Reduce;
    var out, next := Reduce(lane.snapshot, input, policy), Apply(lane, input, policy, answer, others).0;
    AllocationSucceedsIff(lane.next, out.events, others);
    AllocationIncreases(lane.next, out.events, others);
    var longer := applied + [Step(input, policy)];
    assert longer[..|longer| - 1] == applied;
    if next.log != lane.log {
      assert Kinds(next.log) == Kinds(lane.log) + out.events;
    }
    assert Kinds(lane.log) + [] == Kinds(lane.log);
  }

  /**
   * The lane commits exactly what the store applied: its snapshot is the reducer's run over the applied inputs, in
   * order, and its stored events are that run's events.
   */
  lemma {:induction false} CommitsWhatWasApplied(s: Snapshot, next: u64, steps: seq<LaneStep>)
    ensures Holds(s, LaneRun(Lane(s, next, []), steps), AppliedInputs(Lane(s, next, []), steps))
  {
    hide Holds, Apply;
    if steps == [] {
      NothingApplied(s, next);
    } else {
      var start, before := Lane(s, next, []), steps[..|steps| - 1];
      CommitsWhatWasApplied(s, next, before);
      match steps[|steps| - 1]
      case Own(input, policy, answer, others) =>
        ApplyHolds(s, LaneRun(start, before), AppliedInputs(start, before), input, policy, answer, others);
      case Elsewhere(taken) =>
        var lane := LaneRun(start, before);
        OthersHold(s, lane, AppliedInputs(start, before), SatAdd(lane.next, taken));
    }
  }

  lemma NothingApplied(s: Snapshot, next: u64)
    ensures Holds(s, Lane(s, next, []), [])
  {
  }

  lemma OthersHold(s: Snapshot, lane: Lane, applied: seq<Step>, next: u64)
    requires Holds(s, lane, applied)
    ensures Holds(s, lane.(next := next), applied)
  {
  }
}
