/** The bounded per-session queue: coalescing activity, backpressure for durable evidence. */
module Queue {
  import opened Core

  datatype Class = Activity | Durable

  datatype Entry<T> = Entry(kind: Class, value: T)

  datatype Admission<T> = Admitted | Displaced(replaced: T) | Backpressure(value: T) | ActivitySaturated(value: T)

  /** The position of the newest activity entry. */
  function LastActivity<T>(entries: seq<Entry<T>>): (r: Option<nat>)
    ensures r.Some? ==> r.value < |entries| && entries[r.value].kind.Activity?
                        && forall i :: r.value < i < |entries| ==> entries[i].kind.Durable?
    ensures r.None? ==> forall i :: 0 <= i < |entries| ==> entries[i].kind.Durable?
  {
    if entries == [] then None
    else if entries[|entries| - 1].kind.Activity? then Some(|entries| - 1)
    else LastActivity(entries[..|entries| - 1])
  }

  function Without<T>(s: seq<T>, i: nat): seq<T>
    requires i < |s|
  {
    s[..i] + s[i + 1..]
  }

  datatype QueueState<T> = QueueState(capacity: nat, entries: seq<Entry<T>>, degraded: bool)

  function Push<T>(q: QueueState<T>, kind: Class, value: T): (QueueState<T>, Admission<T>) {
    var at := LastActivity(q.entries);
    if kind.Activity? && at.Some? then
      (q.(entries := Without(q.entries, at.value) + [Entry(kind, value)]), Displaced(q.entries[at.value].value))
    else if |q.entries| == q.capacity then
      (q.(degraded := true), if kind.Activity? then ActivitySaturated(value) else Backpressure(value))
    else (q.(entries := q.entries + [Entry(kind, value)]), Admitted)
  }

  function Pop<T>(q: QueueState<T>): (QueueState<T>, Option<T>) {
    if q.entries == [] then (q, None) else (q.(entries := q.entries[1..]), Some(q.entries[0].value))
  }

  class SessionQueue<T> {
    const capacity: nat
    var entries: seq<Entry<T>>
    var degraded: bool

    constructor (capacity: nat)
      requires capacity > 0
      ensures View() == QueueState(capacity, [], false)
    {
      this.capacity, entries, degraded := capacity, [], false;
    }

    function View(): QueueState<T>
      reads this
    {
      QueueState(capacity, entries, degraded)
    }

    /** A queue cannot enforce a finite bound with zero capacity. */
    static method New(capacity: nat) returns (r: Option<SessionQueue<T>>)
      ensures r.None? <==> capacity == 0
      ensures r.Some? ==> fresh(r.value) && r.value.View() == QueueState(capacity, [], false)
    {
      if capacity == 0 {
        return None;
      }
      var q := new SessionQueue(capacity);
      r := Some(q);
    }

    method TryPushReplacing(kind: Class, value: T) returns (r: Admission<T>)
      modifies this
      ensures (View(), r) == Push(old(View()), kind, value)
    {
      var index := LastActivity(entries);
      if kind.Activity? && index.Some? {
        var displaced := entries[index.value];
        entries := entries[..index.value] + entries[index.value + 1..];
        entries := entries + [Entry(kind, value)];
        return Displaced(displaced.value);
      }
      if |entries| == capacity {
        degraded := true;
        return if kind.Activity? then ActivitySaturated(value) else Backpressure(value);
      }
      entries := entries + [Entry(kind, value)];
      r := Admitted;
    }

    method PopFront() returns (r: Option<T>)
      modifies this`entries
      ensures (View(), r) == Pop(old(View()))
    {
      if entries == [] {
        return None;
      }
      r := Some(entries[0].value);
      entries := entries[1..];
    }

    method MarkReconciled()
      modifies this`degraded
      ensures View() == old(View()).(degraded := false)
    {
      degraded := false;
    }
  }

  // ----- runs -----

  datatype Op<T> = PushOp(kind: Class, value: T) | PopOp | ReconcileOp

  /** An item with its place in the order of acceptance. */
  datatype Tagged<T> = Tagged(order: nat, value: T)

  /** The queue beside its history: what was accepted, what was popped and what coalescing displaced. */
  datatype World<T> = World(
    queue: QueueState<Tagged<T>>,
    accepted: seq<Entry<Tagged<T>>>,
    popped: seq<Entry<Tagged<T>>>,
    displaced: seq<Entry<Tagged<T>>>)

  ghost function AfterPush<T>(w: World<T>, kind: Class, value: T): World<T> {
    var item := Tagged(|w.accepted|, value);
    var (queue, reply) := Push(w.queue, kind, item);
    match reply
    case Admitted => w.(queue := queue, accepted := w.accepted + [Entry(kind, item)])
    case Displaced(replaced) =>
      w.(queue := queue, accepted := w.accepted + [Entry(kind, item)],
      displaced := w.displaced + [Entry(Activity, replaced)])
    case _ => w.(queue := queue)
  }

  ghost function After<T>(w: World<T>, op: Op<T>): World<T> {
    match op
    case PushOp(kind, value) => AfterPush(w, kind, value)
    case PopOp =>
      var (queue, answer) := Pop(w.queue);
      if answer.None? then w.(queue := queue)
      else w.(queue := queue, popped := w.popped + [Entry(w.queue.entries[0].kind, answer.value)])
    case ReconcileOp => w.(queue := w.queue.(degraded := false))
  }

  ghost function Run<T>(capacity: nat, ops: seq<Op<T>>): World<T> {
    if ops == [] then World(QueueState(capacity, [], false), [], [], [])
    else After(Run(capacity, ops[..|ops| - 1]), ops[|ops| - 1])
  }

  ghost function DurableOnly<T>(s: seq<Entry<Tagged<T>>>): seq<Entry<Tagged<T>>> {
    if s == [] then []
    else DurableOnly(s[..|s| - 1]) + if s[|s| - 1].kind.Durable? then [s[|s| - 1]] else []
  }

  ghost predicate InOrder<T>(s: seq<Entry<Tagged<T>>>, below: nat) {
    && (forall i, j :: 0 <= i < j < |s| ==> s[i].value.order < s[j].value.order)
    && (forall i :: 0 <= i < |s| ==> s[i].value.order < below)
  }

  ghost predicate OneActivity<T>(s: seq<Entry<Tagged<T>>>) {
    forall i, j :: 0 <= i < j < |s| ==> s[i].kind.Durable? || s[j].kind.Durable?
  }

  /** Everything the queue owes its producers. */
  ghost predicate Conserves<T>(w: World<T>, capacity: nat) {
    && w.queue.capacity == capacity
    && |w.queue.entries| <= capacity
    && OneActivity(w.queue.entries)
    && InOrder(w.popped + w.queue.entries, |w.accepted|)
    && multiset(w.accepted) == multiset(w.popped) + multiset(w.displaced) + multiset(w.queue.entries)
    && DurableOnly(w.popped) + DurableOnly(w.queue.entries) == DurableOnly(w.accepted)
    && (forall i :: 0 <= i < |w.displaced| ==> w.displaced[i].kind.Activity?)
  }

  lemma {:induction false} DurableConcat<T>(a: seq<Entry<Tagged<T>>>, b: seq<Entry<Tagged<T>>>)
    ensures DurableOnly(a + b) == DurableOnly(a) + DurableOnly(b)
  {
    if b == [] {
      assert a + b == a;
    } else {
      DurableConcat(a, b[..|b| - 1]);
      assert (a + b)[..|a + b| - 1] == a + b[..|b| - 1];
    }
  }

  lemma DurableOne<T>(e: Entry<Tagged<T>>)
    ensures DurableOnly([e]) == if e.kind.Durable? then [e] else []
  {
    assert DurableOnly([e][..0]) == [];
  }

  /** Taking out an activity entry removes it and nothing else. */
  lemma WithoutActivity<T>(s: seq<Entry<Tagged<T>>>, i: nat)
    requires i < |s| && s[i].kind.Activity?
    ensures DurableOnly(Without(s, i)) == DurableOnly(s)
    ensures multiset(Without(s, i)) + multiset{s[i]} == multiset(s)
  {
    var a, b := s[..i], s[i + 1..];
    assert s == a + [s[i]] + b;
    assert DurableOnly(a + [s[i]]) == DurableOnly(a) by {
      DurableConcat(a, [s[i]]);
      DurableOne(s[i]);
    }
    DurableConcat(a + [s[i]], b);
    DurableConcat(a, b);
  }

  lemma AppendAccepted<T>(w: World<T>, e: Entry<Tagged<T>>, entries: seq<Entry<Tagged<T>>>)
    requires e.value.order == |w.accepted|
    requires InOrder(w.popped + entries, |w.accepted|)
    ensures InOrder(w.popped + (entries + [e]), |w.accepted| + 1)
    ensures DurableOnly(entries + [e]) == DurableOnly(entries) + DurableOnly([e])
    ensures DurableOnly(w.accepted + [e]) == DurableOnly(w.accepted) + DurableOnly([e])
  {
    assert w.popped + (entries + [e]) == (w.popped + entries) + [e];
    DurableConcat(entries, [e]);
    DurableConcat(w.accepted, [e]);
  }

  lemma WithoutKeepsOrder<T>(popped: seq<Entry<Tagged<T>>>, s: seq<Entry<Tagged<T>>>, i: nat, below: nat)
    requires i < |s| && InOrder(popped + s, below)
    ensures InOrder(popped + Without(s, i), below)
  {
    var r := popped + Without(s, i);
    var source := k => if k < |popped| + i then k else k + 1;
    assert forall k :: 0 <= k < |r| ==> r[k] == (popped + s)[source(k)];
  }

  lemma RestIsDurable<T>(s: seq<Entry<Tagged<T>>>, at: nat)
    requires OneActivity(s) && LastActivity(s) == Some(at)
    ensures forall i :: 0 <= i < |Without(s, at)| ==> Without(s, at)[i].kind.Durable?
  {
    var rest := Without(s, at);
    assert forall i :: 0 <= i < at ==> rest[i] == s[i];
    assert forall i :: at <= i < |rest| ==> rest[i] == s[i + 1];
  }

  /** Replacing an activity entry by a newer one keeps the account balanced. */
  lemma SwapBalances<T>(w: World<T>, rest: seq<Entry<Tagged<T>>>, gone: Entry<Tagged<T>>, e: Entry<Tagged<T>>)
    requires multiset(w.accepted) == multiset(w.popped) + multiset(w.displaced) + multiset(w.queue.entries)
    requires multiset(rest) + multiset{gone} == multiset(w.queue.entries)
    ensures multiset(w.accepted + [e]) == multiset(w.popped) + multiset(w.displaced + [gone]) + multiset(rest + [e])
  {
  }

  lemma CoalesceConserves<T>(w: World<T>, capacity: nat, value: T)
    requires Conserves(w, capacity) && LastActivity(w.queue.entries).Some?
    ensures Conserves(AfterPush(w, Activity, value), capacity)
  {
    var s, at := w.queue.entries, LastActivity(w.queue.entries).value;
    var e, rest := Entry(Activity, Tagged(|w.accepted|, value)), Without(s, at);
    var next := AfterPush(w, Activity, value);
    assert s[at] == Entry(Activity, s[at].value);
    assert next == World(w.queue.(entries := rest + [e]), w.accepted + [e], w.popped, w.displaced + [s[at]]);
    RestIsDurable(s, at);
    assert OneActivity(rest + [e]);
    WithoutActivity(s, at);
    SwapBalances(w, rest, s[at], e);
    WithoutKeepsOrder(w.popped, s, at, |w.accepted|);
    AppendAccepted(w, e, rest);
  }

  lemma AdmitConserves<T>(w: World<T>, capacity: nat, kind: Class, value: T)
    requires Conserves(w, capacity) && Push(w.queue, kind, Tagged(|w.accepted|, value)).1.Admitted?
    ensures Conserves(AfterPush(w, kind, value), capacity)
  {
    var e := Entry(kind, Tagged(|w.accepted|, value));
    AppendAccepted(w, e, w.queue.entries);
    var next := AfterPush(w, kind, value);
    assert next == World(w.queue.(entries := w.queue.entries + [e]), w.accepted + [e], w.popped, w.displaced);
    assert DurableOnly(w.popped) + (DurableOnly(w.queue.entries) + DurableOnly([e]))
        == (DurableOnly(w.popped) + DurableOnly(w.queue.entries)) + DurableOnly([e]);
  }

  lemma PopConserves<T>(w: World<T>, capacity: nat)
    requires Conserves(w, capacity) && w.queue.entries != []
    ensures Conserves(After(w, PopOp), capacity)
  {
    var e, rest := w.queue.entries[0], w.queue.entries[1..];
    assert After(w, PopOp) == w.(queue := w.queue.(entries := rest), popped := w.popped + [e]);
    MoveFirst(w.popped, w.queue.entries);
    var others := multiset(w.displaced);
    assert multiset(w.popped + [e]) + others + multiset(rest) == multiset(w.popped + [e]) + multiset(rest) + others;
    assert forall i :: 0 <= i < |rest| ==> rest[i] == w.queue.entries[i + 1];
  }

  /** Moving the first queued entry to the popped ones changes neither their joint order nor what they hold. */
  lemma MoveFirst<T>(popped: seq<Entry<Tagged<T>>>, s: seq<Entry<Tagged<T>>>)
    requires s != []
    ensures popped + [s[0]] + s[1..] == popped + s
    ensures multiset(popped + [s[0]]) + multiset(s[1..]) == multiset(popped) + multiset(s)
    ensures DurableOnly(popped + [s[0]]) + DurableOnly(s[1..]) == DurableOnly(popped) + DurableOnly(s)
  {
    assert popped + [s[0]] + s[1..] == popped + s;
    assert multiset(s) == multiset{s[0]} + multiset(s[1..]) by {
      assert s == [s[0]] + s[1..];
    }
    DurableConcat(popped + [s[0]], s[1..]);
    DurableConcat(popped, s);
  }

  /**
   * Queue conservation and order, over every run: at most one activity entry and `capacity` entries; accepted items
   * are exactly those popped, displaced or queued; pops come out in acceptance order; and the durable items popped
   * and then queued are the accepted durable items, in order, none lost.
   */
  lemma {:induction false} QueueConserves<T>(capacity: nat, ops: seq<Op<T>>)
    ensures Conserves(Run(capacity, ops), capacity)
  {
    if ops != [] {
      QueueConserves(capacity, ops[..|ops| - 1]);
      var w := Run(capacity, ops[..|ops| - 1]);
      match ops[|ops| - 1]
      case PushOp(kind, value) =>
        if kind.Activity? && LastActivity(w.queue.entries).Some? {
          CoalesceConserves(w, capacity, value);
        } else if |w.queue.entries| < capacity {
          AdmitConserves(w, capacity, kind, value);
        }
      case PopOp =>
        if w.queue.entries != [] {
          PopConserves(w, capacity);
        }
      case ReconcileOp =>
    }
  }

  /** Activity coalesces to its newest value: whatever was displaced, newer activity was accepted after it. */
  lemma {:induction false} DisplacedIsSuperseded<T>(capacity: nat, ops: seq<Op<T>>, i: nat) returns (k: nat)
    requires i < |Run(capacity, ops).displaced|
    ensures var w := Run(capacity, ops);
            w.displaced[i].value.order < k < |w.accepted| && w.accepted[k].kind.Activity?
    decreases |ops|
  {
    var before := Run(capacity, ops[..|ops| - 1]);
    if i < |before.displaced| {
      k := DisplacedIsSuperseded(capacity, ops[..|ops| - 1], i);
    } else {
      k := |before.accepted|;
      QueueConserves(capacity, ops[..|ops| - 1]);
      var at := LastActivity(before.queue.entries).value;
      assert before.queue.entries[at] == (before.popped + before.queue.entries)[|before.popped| + at];
    }
  }

  /** An item is refused exactly when the queue is full and it cannot replace older activity. */
  ghost predicate Refuses<T>(q: QueueState<T>, kind: Class) {
    |q.entries| == q.capacity && (kind.Durable? || LastActivity(q.entries).None?)
  }

  /** Saturation is never silent: a refused item comes back, by its kind, and marks the queue degraded. */
  lemma RefusalDegrades<T>(q: QueueState<T>, kind: Class, value: T)
    ensures var (next, reply) := Push(q, kind, value);
            && (reply.Backpressure? <==> Refuses(q, kind) && kind.Durable?)
            && (reply.ActivitySaturated? <==> Refuses(q, kind) && kind.Activity?)
            && (reply.Displaced? <==> kind.Activity? && LastActivity(q.entries).Some?)
            && (Refuses(q, kind) ==> reply.value == value && next == q.(degraded := true))
            && (!Refuses(q, kind) ==> next.degraded == q.degraded)
  {
  }

  /** Some push was refused and there was no reconciliation after it. */
  ghost predicate RefusedSince<T>(capacity: nat, ops: seq<Op<T>>) {
    exists i :: 0 <= i < |ops| && ops[i].PushOp? && Refuses(Run(capacity, ops[..i]).queue, ops[i].kind)
                && forall j :: i < j < |ops| ==> !ops[j].ReconcileOp?
  }

  lemma StepDegrades<T>(w: World<T>, op: Op<T>)
    ensures After(w, op).queue.degraded <==>
            (op.PushOp? && Refuses(w.queue, op.kind)) || (!op.ReconcileOp? && w.queue.degraded)
  {
    hide Push, Refuses;
    if op.PushOp? {
      RefusalDegrades(w.queue, op.kind, Tagged(|w.accepted|, op.value));
    }
  }

  /** Over every run, the queue is degraded exactly when something was refused since the last reconciliation. */
  lemma {:induction false} DegradedIffRefused<T>(capacity: nat, ops: seq<Op<T>>)
    ensures Run(capacity, ops).queue.degraded <==> RefusedSince(capacity, ops)
  {
    hide After, Refuses;
    if ops != [] {
      var before, op := ops[..|ops| - 1], ops[|ops| - 1];
      DegradedIffRefused(capacity, before);
      assert ops == before + [op];
      RefusalGoesOn(capacity, before, op);
      StepDegrades(Run(capacity, before), op);
    }
  }

  lemma RefusalGoesOn<T>(capacity: nat, before: seq<Op<T>>, op: Op<T>)
    ensures RefusedSince(capacity, before + [op])
            <==> (op.PushOp? && Refuses(Run(capacity, before).queue, op.kind))
                 || (!op.ReconcileOp? && RefusedSince(capacity, before))
  {
    hide Run, Refuses;
    var ops := before + [op];
    assert forall i :: 0 <= i <= |before| ==> ops[..i] == before[..i];
    assert before[..|before|] == before;
    if op.PushOp? && Refuses(Run(capacity, before).queue, op.kind) {
      assert ops[|before|].PushOp? && Refuses(Run(capacity, ops[..|before|]).queue, ops[|before|].kind);
    }
    if !op.ReconcileOp? && RefusedSince(capacity, before) {
      var i :| 0 <= i < |before| && before[i].PushOp? && Refuses(Run(capacity, before[..i]).queue, before[i].kind)
               && forall j :: i < j < |before| ==> !before[j].ReconcileOp?;
      assert ops[i].PushOp? && Refuses(Run(capacity, ops[..i]).queue, ops[i].kind);
    }
  }
}
