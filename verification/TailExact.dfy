/** Exactly which files, under which budgets, are delivered in whole records, each under its own key. */
module TailExact {
  import opened Core
  import opened Lines
  import opened Incremental
  import opened Tail
  import opened TailProgress

  // ----- when does a pass skip? -----

  /** The batches of one pass cannot outgrow the partial cap. */
  predicate NeverSkips(b: ReadBudget) {
    MAX_BATCHES * b.maxBytes <= b.maxPartialBytes
  }

  /** The partial carried by a pass is bounded by the batches it has used up. */
  ghost predicate Carried(t: Trace, b: ReadBudget) {
    && t.world.left <= MAX_BATCHES
    && (t.world.left > 0 ==>
          Shaped(t.world.cursor) && |t.world.cursor.partial| + t.world.left * b.maxBytes <= MAX_BATCHES * b.maxBytes)
  }

  lemma NextPartial(t: Trace, b: ReadBudget, env: BatchEnv)
    requires Carried(t, b) && t.world.left > 0
    ensures var next := BatchOf(env.file, t.world.cursor, b);
            && Shaped(next.cursor) && |next.cursor.partial| <= |t.world.cursor.partial| + b.maxBytes
            && (next.records != [] ==> |next.cursor.partial| < b.maxBytes)
  {
    var c := t.world.cursor;
    var window := Window(env.file, c, b);
    assert window[..|c.partial|] == c.partial;
    ReadKeepsShape(env.file, c, b);
    LeftoverIsNew(window, |c.partial|, b);
  }

  lemma OneOfMany(n: nat, size: nat)
    requires n > 0
    ensures n * size == (n - 1) * size + size && (n - 1) * size >= 0
  {
  }

  lemma StepKeepsCarried(t: Trace, b: ReadBudget, step: TailStep)
    requires Carried(t, b)
    ensures Carried(Stepped(t, b, step), b)
  {
    if step.Iterate? && t.world.left > 0 {
      NextPartial(t, b, step.env);
      OneOfMany(t.world.left, b.maxBytes);
    }
  }

  lemma ShortPartial(t: Trace, b: ReadBudget, env: BatchEnv)
    requires Carried(t, b) && t.world.left > 0 && NeverSkips(b)
    ensures |BatchOf(env.file, t.world.cursor, b).cursor.partial| <= b.maxPartialBytes
  {
    NextPartial(t, b, env);
    OneOfMany(t.world.left, b.maxBytes);
  }

  lemma ShortPassesNeverSkip(final: FileBytes, start: Place, t: Trace, b: ReadBudget, env: BatchEnv)
    requires Sound(final, start, t) && Staged(final, start.identity, t, b, Iterate(env))
    requires Carried(t, b) && NeverSkips(b)
    ensures !Skips(t.world, b, env)
  {
    if Opens(t.world, env) {
      NextBatch(final, start, t, b, env);
      ShortPartial(t, b, env);
    }
  }

  /** The records from `base` are those up to a boundary and those after it. */
  lemma BoundaryCuts(final: Bytes, base: nat, at: nat)
    requires base <= at <= |final| && Unterminated(final[base..at]) == []
    ensures Records(final[base..]) == Records(final[base..at]) + Records(final[at..])
    ensures Records(final[at..]) != [] ==> Records(final[base..])[|Records(final[base..at])|] == Records(final[at..])[0]
    ensures Unterminated(final[base..]) == Unterminated(final[at..])
  {
    RecordsConcat(final[base..at], final[at..]);
    assert final[base..at] + final[at..] == final[base..];
  }

  lemma NoRecordsMeansFree(s: Bytes)
    requires Records(s) == []
    ensures NewlineFree(s) && Unterminated(s) == s
  {
    SplitRoundTrip(s);
    assert Terminated(Records(s)) == [];
  }

  /** The first record after `at` is at least as long as a newline-free run from there. */
  lemma FirstCoversRun(final: Bytes, at: nat, end: nat)
    requires at <= end <= |final| && NewlineFree(final[at..end])
    ensures Records(final[at..]) != [] ==> |Records(final[at..])[0]| >= end - at
  {
    assert final[at..][..end - at] == final[at..end];
    FreeRunInFirst(final[at..], end - at);
  }

  /** If complete records fit, a newline-free run beyond the cap at a record boundary is the unterminated tail. */
  lemma LongRunIsTail(final: Bytes, base: nat, at: nat, end: nat, cap: nat)
    requires base <= at <= end <= |final| && Unterminated(final[base..at]) == [] && RecordsFit(final, base, cap)
    requires NewlineFree(final[at..end]) && end - at > cap
    ensures CaughtUp(final, at) && Unterminated(final[base..]) == final[at..]
  {
    BoundaryCuts(final, base, at);
    FirstCoversRun(final, at, end);
    NoRecordsMeansFree(final[at..]);
  }

  /** A skip, in a stretch whose complete records fit, happens in the tail of the file. */
  lemma SkipMeetsTail(final: FileBytes, start: Place, t: Trace, b: ReadBudget, env: BatchEnv)
    requires Sound(final, start, t) && Skips(t.world, b, env) && Staged(final, start.identity, t, b, Iterate(env))
    requires RecordsFit(final, t.base, b.maxPartialBytes)
    ensures var batch := BatchOf(env.file, t.world.cursor, b);
            var at := batch.cursor.completeOffset;
            && at <= |env.file.content| && CaughtUp(final, at) && Unterminated(final[t.base..]) == final[at..]
            && |final| - at > b.maxPartialBytes && |batch.cursor.partial| > b.maxPartialBytes
            && (batch.records == [] ==> at == t.world.saved.offset)
  {
    NextBatch(final, start, t, b, env);
    var batch := BatchOf(env.file, t.world.cursor, b);
    var at, end := batch.cursor.completeOffset, batch.cursor.readOffset;
    assert final[at..end] == env.file.content[at..end];
    TailAfterBatch(final, t.base, t.world.saved.offset, at, end, batch.records, b.maxPartialBytes);
  }

  lemma TailAfterBatch(
    final: Bytes, base: nat, saved: nat, at: nat, end: nat, records: seq<Bytes>, cap: nat)
    requires base <= saved <= at <= end <= |final| && Unterminated(final[base..saved]) == []
    requires final[saved..at] == Terminated(records) && AllNewlineFree(records)
    requires NewlineFree(final[at..end]) && end - at > cap && RecordsFit(final, base, cap)
    ensures CaughtUp(final, at) && Unterminated(final[base..]) == final[at..]
    ensures records == [] ==> at == saved
  {
    BatchIsExpected(final, base, saved, at, records);
    LongRunIsTail(final, base, at, end, cap);
    assert Terminated([]) == [];
  }

  lemma StaysCaughtUp(final: Bytes, at: nat, later: nat)
    requires CaughtUp(final, at) && at <= later <= |final|
    ensures CaughtUp(final, later)
  {
    assert final[later..] == final[at..][later - at..];
  }

  // ----- every delivery is a whole record of the file -----

  /** Complete records fit the cap, or the batches of a pass never outgrow it. */
  ghost predicate Untruncated(final: Bytes, start: nat, b: ReadBudget)
    requires start <= |final|
  {
    NeverSkips(b) || RecordsFit(final, start, b.maxPartialBytes)
  }

  ghost predicate Genuine(final: Bytes, start: nat, t: Trace)
    requires start <= |final|
  {
    Within(t.world.delivered, Expected(final, start)) && (t.base == start || CaughtUp(final, t.base))
  }

  /** What a step adds are expected deliveries of the current stretch. */
  lemma StepDelivers(final: FileBytes, start: Place, t: Trace, b: ReadBudget, step: TailStep, d: Delivery)
    requires Sound(final, start, t) && Staged(final, start.identity, t, b, step)
    requires d in Stepped(t, b, step).world.delivered && d !in t.world.delivered
    ensures d in Expected(final, t.base) && Stepped(t, b, step).base == t.base
  {
    StepKeepsSound(final, start, t, b, step);
    NextBatch(final, start, t, b, step.env);
    var records := BatchOf(step.env.file, t.world.cursor, b).records;
    KeysBounded(t.world.saved.offset, records);
    assert d in Keyed(t.world.saved.offset, records);
  }

  lemma StepKeepsGenuine(final: FileBytes, start: Place, t: Trace, b: ReadBudget, step: TailStep)
    requires Sound(final, start, t) && Staged(final, start.identity, t, b, step) && Carried(t, b)
    requires Genuine(final, start.offset, t) && Untruncated(final, start.offset, b)
    ensures Genuine(final, start.offset, Stepped(t, b, step))
  {
    var next := Stepped(t, b, step);
    forall d | d in next.world.delivered
      ensures d in Expected(final, start.offset)
    {
      if d !in t.world.delivered {
        StepDelivers(final, start, t, b, step, d);
        if t.base != start.offset {
          FreeSlice(final[t.base..]);
          assert false;
        }
      }
    }
    if step.Iterate? && Skips(t.world, b, step.env) {
      SkipStaysGenuine(final, start, t, b, step.env);
    }
  }

  lemma SkipStaysGenuine(final: FileBytes, start: Place, t: Trace, b: ReadBudget, env: BatchEnv)
    requires Sound(final, start, t) && Staged(final, start.identity, t, b, Iterate(env)) && Carried(t, b)
    requires Genuine(final, start.offset, t) && Untruncated(final, start.offset, b) && Skips(t.world, b, env)
    ensures CaughtUp(final, env.recovery.value.offset)
  {
    if NeverSkips(b) {
      ShortPassesNeverSkip(final, start, t, b, env);
    } else if t.base == start.offset {
      SkipMeetsTail(final, start, t, b, env);
      StaysCaughtUp(final, BatchOf(env.file, t.world.cursor, b).cursor.completeOffset, env.recovery.value.offset);
    } else {
      StaysCaughtUp(final, t.base, env.recovery.value.offset);
    }
  }

  lemma {:induction false} HistoryIsGenuine(final: FileBytes, start: Place, b: ReadBudget, steps: seq<TailStep>)
    requires start.offset <= |final| && AppendOnly(final, start.identity, Begin(start), b, steps)
    requires Untruncated(final, start.offset, b)
    ensures var t := Follow(Begin(start), b, steps);
            Sound(final, start, t) && Carried(t, b) && Genuine(final, start.offset, t)
  {
    BeginIsSound(final, start);
    HistoryIsSound(final, start, Begin(start), b, steps);
    if steps != [] {
      HistoryIsGenuine(final, start, b, steps[..|steps| - 1]);
      var t := Follow(Begin(start), b, steps[..|steps| - 1]);
      StepKeepsCarried(t, b, steps[|steps| - 1]);
      StepKeepsGenuine(final, start, t, b, steps[|steps| - 1]);
    }
  }

  // ----- and otherwise some history truncates one -----

  /** A complete record of the file from `start`, with its delimiter, and what it should be delivered as. */
  ghost predicate StandsAt(final: Bytes, start: nat, at: nat, record: Bytes) {
    && start <= at && at + |record| < |final| && NewlineFree(record)
    && final[at..at + |record| + 1] == record + [NEWLINE]
    && Unterminated(final[start..at]) == []
    && Delivery(at + |record| + 1, record) in Expected(final, start)
  }

  lemma LineOf(final: Bytes, start: nat, at: nat, record: Bytes)
    requires StandsAt(final, start, at, record)
    ensures NewlineFree(final[at..at + |record|]) && final[at + |record|] == NEWLINE
  {
    assert final[at..at + |record|] == final[at..at + |record| + 1][..|record|];
    assert final[at + |record|] == final[at..at + |record| + 1][|record|];
  }

  lemma BoundaryAt(final: Bytes, start: nat, i: nat)
    requires start <= |final| && i < |Records(final[start..])|
    ensures var records := Records(final[start..]);
            var at := start + |Terminated(records[..i])|;
            at <= |final| && SplitOf(final[start..at]) == Split(records[..i], [])
  {
    var s := final[start..];
    LineBoundary(s, i);
    SplitRoundTrip(s);
    BatchSplits(Records(s)[..i]);
    var done := Terminated(Records(s)[..i]);
    assert final[start..start + |done|] == s[..|done|] == done;
  }

  lemma RecordAt(final: Bytes, start: nat, i: nat)
    requires start <= |final| && i < |Records(final[start..])|
    ensures StandsAt(final, start, start + |Terminated(Records(final[start..])[..i])|, Records(final[start..])[i])
  {
    hide SplitOf;
    var s := final[start..];
    var records := Records(s);
    RecordStands(s, i);
    BoundaryAt(final, start, i);
    KeyAt(start, records, i);
    LineInFile(final, start, |Terminated(records[..i])|, records[i]);
  }

  lemma LineInFile(final: Bytes, start: nat, at: nat, record: Bytes)
    requires start + at + |record| < |final|
    requires final[start..][at..at + |record|] == record && final[start..][at + |record|] == NEWLINE
    ensures final[start + at..start + at + |record| + 1] == record + [NEWLINE]
  {
  }

  lemma KeyAt(start: nat, records: seq<Bytes>, i: nat)
    requires i < |records|
    ensures Delivery(start + |Terminated(records[..i])| + |records[i]| + 1, records[i]) in Keyed(start, records)
  {
    NextKey(records, i);
    assert Keyed(start, records)[i] in Keyed(start, records);
  }

  /** The lines before a record fit, if the records before it do. */
  lemma PrefixFits(final: Bytes, start: nat, i: nat, cap: nat)
    requires start <= |final| && i < |Records(final[start..])|
    requires forall j :: 0 <= j < i ==> |Records(final[start..])[j]| <= cap
    ensures var at := start + |Terminated(Records(final[start..])[..i])|;
            at <= |final| && Fits(final[..at], start, cap)
  {
    BoundaryAt(final, start, i);
    var at := start + |Terminated(Records(final[start..])[..i])|;
    assert final[..at][start..] == final[start..at];
  }

  /** Passes that take a history to a record boundary, if the lines before it fit. */
  lemma ReachBoundary(final: FileBytes, start: Place, b: ReadBudget, at: nat) returns (steps: seq<TailStep>)
    requires start.offset <= at <= |final| && Unterminated(final[start.offset..at]) == []
    requires Fits(final[..at], start.offset, b.maxPartialBytes) && !NeverSkips(b)
    ensures AppendOnly(final, start.identity, Begin(start), b, steps)
    ensures var t := Follow(Begin(start), b, steps);
            Sound(final, start, t) && t.base == start.offset && t.world.saved.offset == at && t.seen == at
  {
    BeginIsSound(final, start);
    steps := PassesCatchUp(final, start, Begin(start), b, at);
    var t := Follow(Begin(start), b, steps);
    var saved := t.world.saved.offset;
    assert final[..at][saved..] == final[saved..at];
    FreeSlice(final[saved..at]);
    BoundaryCuts(final[..at], start.offset, saved) by {
      assert final[..at][start.offset..saved] == final[start.offset..saved];
    }
    assert final[..at][start.offset..] == final[start.offset..at];
  }

  /** A pass that meets a line longer than the cap, when the file ends in the middle of it, skips. */
  lemma LongLineIsSkipped(final: FileBytes, start: Place, t: Trace, b: ReadBudget, end: nat, at: u64)
    returns (steps: seq<TailStep>)
    requires Sound(final, start, t) && t.seen <= end <= at <= |final| && !NeverSkips(b)
    requires NewlineFree(final[t.world.saved.offset..end]) && end - t.world.saved.offset > b.maxPartialBytes
    ensures AppendOnly(final, start.identity, t, b, steps)
    ensures var next := Follow(t, b, steps);
            Sound(final, start, next) && next.base == at && next.world.saved.offset == at && next.seen == at
  {
    steps := PassSteps(Smooth(start.identity, final[..end], at));
    PassOutcome(final, start, t, b, end, at, steps);
    var next := Follow(t, b, steps);
    if Moved(t, next, b, end, MAX_BATCHES) {
      NoBoundaryInRun(final, t.base, t.world.saved.offset, end, next.world.saved.offset);
    }
  }

  lemma NoBoundaryInRun(final: Bytes, base: nat, at: nat, end: nat, next: nat)
    requires base <= at <= next <= end <= |final| && NewlineFree(final[at..end])
    requires Unterminated(final[base..at]) == [] && Unterminated(final[base..next]) == []
    ensures next == at
  {
    assert final[at..next] == final[at..end][..next - at];
    RecordsPrefix(final[base..at], final[at..next]);
    assert final[base..at] + final[at..next] == final[base..next];
  }

  /** A newline at the saved offset is delivered as an empty record. */
  lemma EmptyRecordIsDelivered(final: FileBytes, start: Place, t: Trace, b: ReadBudget) returns (steps: seq<TailStep>)
    requires Sound(final, start, t) && t.seen == t.base == t.world.saved.offset && !NeverSkips(b)
    requires t.base < |final| && final[t.base] == NEWLINE
    ensures Delivers(final, start, t, b, steps, Delivery(t.base + 1, []))
  {
    var at := t.base;
    steps := PassSteps(Smooth(start.identity, final[..at + 1], at + 1));
    NewlineAlone(final, at, b.maxPartialBytes);
    PassOutcome(final, start, t, b, at + 1, at + 1, steps);
    assert Follow(t, b, steps).world.saved.offset == at + 1;
  }

  lemma NewlineAlone(final: Bytes, at: nat, cap: nat)
    requires at < |final| && final[at] == NEWLINE
    ensures Fits(final[..at + 1], at, cap) && !CaughtUp(final[..at + 1], at)
    ensures Delivery(at + 1, []) in Keyed(at, Records(final[at..at + 1]))
  {
    assert final[..at + 1][at..] == final[at..at + 1] == [NEWLINE];
    EmptyRecord();
    EmptyKey(at);
  }

  lemma EmptyRecord()
    ensures Terminated([[]]) == [NEWLINE] && SplitOf([NEWLINE]) == Split([[]], [])
  {
    var empty: seq<Bytes> := [[]];
    TerminatedSnoc([], []);
    assert [] + empty == empty && Terminated([]) == [];
    BatchSplits(empty);
  }

  lemma EmptyKey(at: nat)
    ensures Keyed(at, [[]])[0] == Delivery(at + 1, [])
  {
    var empty: seq<Bytes> := [[]];
    EmptyRecord();
    assert empty[..1] == empty;
  }

  /** The first complete record beyond the cap. */
  lemma {:induction false} FirstLong(records: seq<Bytes>, cap: nat, n: nat) returns (i: nat)
    requires n <= |records| && exists k :: n <= k < |records| && |records[k]| > cap
    requires forall j :: 0 <= j < n ==> |records[j]| <= cap
    ensures i < |records| && |records[i]| > cap && forall j :: 0 <= j < i ==> |records[j]| <= cap
    decreases |records| - n
  {
    if |records[n]| > cap {
      i := n;
    } else {
      i := FirstLong(records, cap, n + 1);
    }
  }

  ghost predicate Delivers(final: FileBytes, start: Place, t: Trace, b: ReadBudget, steps: seq<TailStep>, d: Delivery) {
    AppendOnly(final, start.identity, t, b, steps) && d in Follow(t, b, steps).world.delivered
  }

  lemma ThenDelivers(
    final: FileBytes, start: Place, t: Trace, b: ReadBudget, x: seq<TailStep>, y: seq<TailStep>, d: Delivery)
    requires AppendOnly(final, start.identity, t, b, x) && Delivers(final, start, Follow(t, b, x), b, y, d)
    ensures Delivers(final, start, t, b, x + y, d)
  {
    FollowConcat(t, b, x, y);
    AppendOnlyConcat(final, start.identity, t, b, x, y);
  }

  /** A complete line at the saved offset, too long for the cap. */
  ghost predicate LongLineAt(final: Bytes, t: Trace, cap: nat, length: nat) {
    var at := t.world.saved.offset;
    && at + length < |final| && cap < length && t.seen == at
    && NewlineFree(final[at..at + length]) && final[at + length] == NEWLINE
  }

  /** Such a line is skipped while it is being written, and its newline delivered as an empty record. */
  lemma SkipThenDeliver(final: FileBytes, start: Place, t: Trace, b: ReadBudget, length: nat)
    returns (steps: seq<TailStep>)
    requires Sound(final, start, t) && LongLineAt(final, t, b.maxPartialBytes, length) && !NeverSkips(b)
    ensures Delivers(final, start, t, b, steps, Delivery(t.world.saved.offset + length + 1, []))
  {
    hide Follow;
    var at, cap := t.world.saved.offset, b.maxPartialBytes;
    assert final[at..at + cap + 1] == final[at..at + length][..cap + 1];
    var skip := LongLineIsSkipped(final, start, t, b, at + cap + 1, at + length);
    var rest := EmptyRecordIsDelivered(final, start, Follow(t, b, skip), b);
    ThenDelivers(final, start, t, b, skip, rest, Delivery(at + length + 1, []));
    steps := skip + rest;
  }

  /** A record with the lines before it. */
  lemma RecordAndPrefix(final: Bytes, start: nat, i: nat, cap: nat) returns (at: nat, record: Bytes)
    requires start <= |final| && i < |Records(final[start..])|
    requires forall j :: 0 <= j < i ==> |Records(final[start..])[j]| <= cap
    ensures record == Records(final[start..])[i]
    ensures StandsAt(final, start, at, record) && Fits(final[..at], start, cap)
  {
    var records := Records(final[start..]);
    at, record := start + |Terminated(records[..i])|, records[i];
    RecordAt(final, start, i);
    PrefixFits(final, start, i, cap);
  }

  /** The first record that does not fit, and where it begins. */
  lemma LongRecord(final: FileBytes, start: nat, cap: nat) returns (at: nat, record: Bytes)
    requires start <= |final| && !RecordsFit(final, start, cap)
    ensures StandsAt(final, start, at, record) && cap < |record| && Fits(final[..at], start, cap)
  {
    var i := FirstLong(Records(final[start..]), cap, 0);
    at, record := RecordAndPrefix(final, start, i, cap);
  }

  /**
   * If a complete record does not fit, it is skipped while it is being written: a history of the file reads up to it,
   * finds it too long unfinished, resumes just before its newline and delivers an empty record under its key.
   */
  lemma LongRecordIsTruncated(final: FileBytes, start: Place, b: ReadBudget)
    returns (steps: seq<TailStep>, whole: Delivery)
    requires start.offset <= |final| && !Untruncated(final, start.offset, b)
    ensures whole in Expected(final, start.offset) && whole.record != []
    ensures Delivers(final, start, Begin(start), b, steps, Delivery(whole.key, []))
  {
    hide Follow;
    var at, record := LongRecord(final, start.offset, b.maxPartialBytes);
    LineOf(final, start.offset, at, record);
    whole := Delivery(at + |record| + 1, record);
    var reach := ReachBoundary(final, start, b, at);
    var rest := SkipThenDeliver(final, start, Follow(Begin(start), b, reach), b, |record|);
    ThenDelivers(final, start, Begin(start), b, reach, rest, Delivery(whole.key, []));
    steps := reach + rest;
  }

  ghost predicate DeliversWhole(final: FileBytes, start: Place, b: ReadBudget, steps: seq<TailStep>)
    requires start.offset <= |final|
  {
    AppendOnly(final, start.identity, Begin(start), b, steps) ==>
      Within(Follow(Begin(start), b, steps).world.delivered, Expected(final, start.offset))
  }

  lemma TruncatedIsNotWhole(final: FileBytes, start: Place, b: ReadBudget) returns (steps: seq<TailStep>)
    requires start.offset <= |final| && !Untruncated(final, start.offset, b)
    ensures !DeliversWhole(final, start, b, steps)
  {
    var whole;
    steps, whole := LongRecordIsTruncated(final, start, b);
    if Delivery(whole.key, []) in Expected(final, start.offset) {
      KeyNamesRecord(final, start.offset, whole, Delivery(whole.key, []));
    }
  }

  /**
   * Every history of the file delivers only whole records of the file, each under its own key, if and only if every
   * complete record fits the partial cap or the batches of a pass never outgrow it.
   */
  lemma WholeRecordsIff(final: FileBytes, start: Place, b: ReadBudget)
    requires start.offset <= |final|
    ensures Untruncated(final, start.offset, b) <==> forall steps :: DeliversWhole(final, start, b, steps)
  {
    if Untruncated(final, start.offset, b) {
      forall steps
        ensures DeliversWhole(final, start, b, steps)
      {
        if AppendOnly(final, start.identity, Begin(start), b, steps) {
          HistoryIsGenuine(final, start, b, steps);
        }
      }
    } else {
      var steps := TruncatedIsNotWhole(final, start, b);
    }
  }

  lemma WindowIs(final: FileBytes, file: OpenedFile, c: FileCursor, b: ReadBudget, end: nat)
    requires c.readOffset <= end <= |final| && file.content == final[..end] && c.partial == []
    requires end <= c.readOffset + b.maxBytes
    ensures Window(file, c, b) == final[c.readOffset..end]
  {
    assert Available(file, c) == final[c.readOffset..end];
  }

  lemma OneRecordSplit(record: Bytes, tail: Bytes)
    requires NewlineFree(record) && NewlineFree(tail)
    ensures SplitOf((record + [NEWLINE]) + tail) == Split([record], tail)
  {
    SplitUnique([record], tail);
    TerminatedSnoc([], record);
    assert [] + [record] == [record] && Terminated([]) == [];
    assert [] + record == record;
  }

  lemma {:induction false} SnocHistory(
    final: FileBytes, identity: FileIdentity, t: Trace, b: ReadBudget, steps: seq<TailStep>, step: TailStep)
    requires AppendOnly(final, identity, t, b, steps) && Staged(final, identity, Follow(t, b, steps), b, step)
    ensures AppendOnly(final, identity, t, b, steps + [step])
    ensures Follow(t, b, steps + [step]) == Stepped(Follow(t, b, steps), b, step)
  {
    assert (steps + [step])[..|steps|] == steps;
  }

  lemma LineWindow(saved: Place, delivered: seq<Delivery>, record: Bytes, b: ReadBudget)
    requires |record| < b.maxBytes && saved.offset == 0
    ensures var file := OpenedFile(saved.identity, |record| + 1, record + [NEWLINE]);
            Window(file, Resumed(saved, delivered).cursor, b) == record + [NEWLINE]
  {
    var content: FileBytes := record + [NEWLINE];
    assert content[..|content|] == content && content[0..|content|] == content;
    WindowIs(content, OpenedFile(saved.identity, |content|, content), Resumed(saved, delivered).cursor, b, |content|);
  }

  /** A file of one line, read whole at the start of a pass. */
  lemma LineBatch(saved: Place, delivered: seq<Delivery>, record: Bytes, b: ReadBudget)
    requires NewlineFree(record) && |record| < b.maxBytes && saved.offset == 0
    ensures var file := OpenedFile(saved.identity, |record| + 1, record + [NEWLINE]);
            var batch := BatchOf(file, Resumed(saved, delivered).cursor, b);
            && ReadOf(file, Resumed(saved, delivered).cursor, b) == Batch(batch)
            && batch.records == [record] && batch.cursor.identity == saved.identity
            && batch.cursor.completeOffset == |record| + 1
  {
    LineWindow(saved, delivered, record, b);
    OneRecordSplit(record, []);
    assert record + [NEWLINE] + [] == record + [NEWLINE];
  }

  lemma LineRead(saved: Place, delivered: seq<Delivery>, record: Bytes, b: ReadBudget)
    requires NewlineFree(record) && |record| < b.maxBytes && saved.offset == 0
    ensures var env := Smooth(saved.identity, record + [NEWLINE], |record| + 1);
            var next := BatchStep(Resumed(saved, delivered), b, env);
            && ReadOf(env.file, Resumed(saved, delivered).cursor, b).Batch?
            && next.delivered == delivered + [Delivery(|record| + 1, record)]
            && next.saved == Place(saved.identity, |record| + 1)
  {
    LineBatch(saved, delivered, record, b);
    OneKeyed(record);
    var next := Keyed(0, [record]);
    assert next[..1] == next;
  }

  /** A file of one line, read whole. */
  lemma ReadWhole(record: Bytes, start: Place, b: ReadBudget) returns (steps: seq<TailStep>)
    requires NewlineFree(record) && |record| < b.maxBytes && start.offset == 0
    ensures var final := record + [NEWLINE];
            && AppendOnly(final, start.identity, Begin(start), b, steps)
            && Delivery(|record| + 1, record) in Follow(Begin(start), b, steps).world.delivered
            && Expected(final, 0) == [Delivery(|record| + 1, record)]
  {
    var final: FileBytes := record + [NEWLINE];
    assert final[0..] == final && final + [] == final;
    OneRecordSplit(record, []);
    OneKeyed(record);
    LineRead(start, [], record, b);
    var step := Iterate(Smooth(start.identity, final, |record| + 1));
    SnocHistory(final, start.identity, Begin(start), b, [], step);
    steps := [] + [step];
  }

  lemma OneKeyed(record: Bytes)
    ensures Keyed(0, [record]) == [Delivery(|record| + 1, record)]
  {
    TerminatedSnoc([], record);
    assert [record][..1] == [record] && [] + [record] == [record] && Terminated([]) == [];
  }

  /**
   * One key, two records: the file "abc\n" under a cap of one byte. Read whole it delivers "abc" under key 4; read
   * while it is being written it skips, and later delivers an empty record under the same key. Neither history crashes.
   */
  lemma OneKeyTwoRecords(start: Place) returns (final: FileBytes, whole: seq<TailStep>, skipped: seq<TailStep>)
    requires start.offset == 0
    ensures var b := ReadBudget(10, 1, 1);
            && final == [97, 98, 99, NEWLINE]
            && AppendOnly(final, start.identity, Begin(start), b, whole)
            && AppendOnly(final, start.identity, Begin(start), b, skipped)
            && Delivery(4, [97, 98, 99]) in Follow(Begin(start), b, whole).world.delivered
            && Delivery(4, []) in Follow(Begin(start), b, skipped).world.delivered
  {
    var b, record: Bytes := ReadBudget(10, 1, 1), [97, 98, 99];
    final := record + [NEWLINE];
    whole := ReadWhole(record, start, b);
    assert !Untruncated(final, 0, b) by {
      assert final[0..] == final && final + [] == final;
      OneRecordSplit(record, []);
      assert Records(final[0..])[0] == record;
    }
    var expected;
    skipped, expected := LongRecordIsTruncated(final, start, b);
  }
}
