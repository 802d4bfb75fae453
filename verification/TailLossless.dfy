/** Exactly which files, under which budgets, are tailed without a loss: every record once, whole, under its key. */
module TailLossless {
  import opened Core
  import opened Lines
  import opened Incremental
  import opened Tail
  import opened TailProgress
  import opened TailExact

  // ----- the read that loses records -----

  function Whole(final: FileBytes, identity: FileIdentity): OpenedFile {
    OpenedFile(identity, |final|, final)
  }

  /** A read moves a cursor on through the file. */
  lemma OneRead(final: FileBytes, identity: FileIdentity, c: FileCursor, b: ReadBudget)
    requires Tracks(final, c)
    ensures var next := BatchOf(Whole(final, identity), c, b).cursor;
            Tracks(final, next) && c.readOffset <= next.readOffset && c.completeOffset <= next.completeOffset
  {
    ReadAdvances(Whole(final, identity), c, b);
  }

  lemma ResumeTracks(final: FileBytes, place: Place)
    requires place.offset <= |final|
    ensures Tracks(final, ResumeFromComplete(place.identity, place.offset, PARSER_VERSION))
  {
    assert final[place.offset..place.offset] == [];
  }

  /** The cursor of a pass from `place` after `k` reads of the whole file. */
  function PassCursor(final: FileBytes, place: Place, b: ReadBudget, k: nat): (c: FileCursor)
    requires place.offset <= |final|
    ensures Tracks(final, c) && place.offset <= c.completeOffset
    ensures k > 0 ==> PassCursor(final, place, b, k - 1).readOffset <= c.readOffset
  {
    if k == 0 then
      ResumeTracks(final, place);
      ResumeFromComplete(place.identity, place.offset, PARSER_VERSION)
    else
      var before := PassCursor(final, place, b, k - 1);
      OneRead(final, place.identity, before, b);
      BatchOf(Whole(final, place.identity), before, b).cursor
  }

  /** Where the unterminated tail begins. */
  function TailStart(final: Bytes, start: nat): nat
    requires start <= |final|
  {
    start + |Terminated(Records(final[start..]))|
  }

  predicate IsBoundary(final: Bytes, start: nat, at: nat) {
    start <= at <= |final| && Unterminated(final[start..at]) == []
  }

  /** The next read takes all complete records that are left, and can see more of the tail than the cap. */
  predicate ReadsTooFar(final: Bytes, tail: nat, c: FileCursor, b: ReadBudget) {
    && c.completeOffset < tail <= |final|
    && tail + b.maxPartialBytes < c.readOffset + b.maxBytes
    && |Records(final[c.completeOffset..tail])| <= b.maxRecords
  }

  /** Some pass over the file, from a record boundary, has such a read among its batches. */
  ghost predicate LosingPass(final: FileBytes, start: Place, b: ReadBudget)
    requires start.offset <= |final|
  {
    exists p: u64, k: nat ::
      && IsBoundary(final, start.offset, p) && k < MAX_BATCHES
      && ReadsTooFar(final, TailStart(final, start.offset), PassCursor(final, Place(start.identity, p), b, k), b)
  }

  /**
   * The batches of a pass never outgrow the cap; or complete records fit, and so does the tail unless no pass reads
   * records together with too much of it.
   */
  ghost predicate Lossless(final: FileBytes, start: Place, b: ReadBudget)
    requires start.offset <= |final|
  {
    || NeverSkips(b)
    || (&& RecordsFit(final, start.offset, b.maxPartialBytes)
        && (|Unterminated(final[start.offset..])| <= b.maxPartialBytes || !LosingPass(final, start, b)))
  }

  lemma TailStartIs(final: Bytes, start: nat)
    requires start <= |final|
    ensures start <= TailStart(final, start) <= |final|
    ensures final[TailStart(final, start)..] == Unterminated(final[start..])
    ensures NewlineFree(final[TailStart(final, start)..])
    ensures IsBoundary(final, start, TailStart(final, start))
    ensures Records(final[start..TailStart(final, start)]) == Records(final[start..])
    ensures start < TailStart(final, start) ==> final[TailStart(final, start) - 1] == NEWLINE
  {
    var s := final[start..];
    var tail := TailStart(final, start);
    SplitRoundTrip(s);
    BatchSplits(Records(s));
    assert final[tail..] == s[tail - start..];
    assert final[start..tail] == s[..tail - start] == Terminated(Records(s));
    if start < tail {
      assert final[tail - 1] == Terminated(Records(s))[tail - 1 - start];
    }
  }

  lemma TailStartAt(final: Bytes, start: nat, at: nat)
    requires start <= at <= |final| && Unterminated(final[start..]) == final[at..]
    ensures TailStart(final, start) == at
  {
    TailStartIs(final, start);
    assert |final[TailStart(final, start)..]| == |final[at..]|;
  }

  // ----- reads of a stage of the file and reads of the whole file -----

  lemma LongerWindow(small: Bytes, more: Bytes, b: ReadBudget)
    requires Exhausted(small, b)
    ensures Exhausted(small + more, b) && Taken(small + more, b) == Taken(small, b)
  {
    RecordsPrefix(small, more);
  }

  /** A read that is to be continued does not depend on what was appended later. */
  lemma StageBatch(final: FileBytes, file: OpenedFile, c: FileCursor, b: ReadBudget)
    requires Tracks(file.content, c) && file.content <= final && file.statLen <= |file.content|
    requires BatchOf(file, c, b).continuationRequired
    ensures BatchOf(file, c, b).cursor == BatchOf(Whole(final, file.identity), c, b).cursor
  {
    var small, large := Window(file, c, b), Window(Whole(final, file.identity), c, b);
    ReadKeepsShape(file, c, b);
    if |Available(file, c)| > b.maxBytes {
      assert Available(file, c)[..b.maxBytes] == Available(Whole(final, file.identity), c)[..b.maxBytes];
      assert small == large;
    } else {
      assert small <= large;
      LongerWindow(small, large[|small|..], b);
      assert small + large[|small|..] == large;
    }
  }

  /** Bytes of the tail at the end of a window change neither the records taken nor whether the budget runs out. */
  lemma TailInWindow(small: Bytes, more: Bytes, b: ReadBudget)
    requires NewlineFree(more)
    ensures Exhausted(small + more, b) <==> Exhausted(small, b)
    ensures Taken(small + more, b) == Taken(small, b)
  {
    RecordsPrefix(small, more);
  }

  lemma StageWindow(final: FileBytes, tail: nat, end: nat, identity: FileIdentity, c: FileCursor, b: ReadBudget)
    requires Tracks(final, c) && c.readOffset <= tail <= end <= |final| && NewlineFree(final[tail..])
    ensures var small := Window(OpenedFile(identity, end, final[..end]), c, b);
            var large := Window(Whole(final, identity), c, b);
            && (Exhausted(large, b) <==> Exhausted(small, b)) && Taken(large, b) == Taken(small, b)
            && (c.readOffset + b.maxBytes <= end ==> large == small)
  {
    TracksInFinal(final, final[..end], c);
    WindowSlice(OpenedFile(identity, end, final[..end]), c, b);
    WindowSlice(Whole(final, identity), c, b);
    var at, last, stop := c.completeOffset, WindowEnd(final[..end], c, b), WindowEnd(final, c, b);
    assert final[..end][at..last] == final[at..last];
    TailSlice(final, tail, at, last, stop, b);
  }

  lemma TailSlice(final: Bytes, tail: nat, at: nat, last: nat, stop: nat, b: ReadBudget)
    requires at <= last <= stop <= |final| && tail <= |final|
    requires NewlineFree(final[tail..]) && (last == stop || tail <= last)
    ensures Exhausted(final[at..stop], b) <==> Exhausted(final[at..last], b)
    ensures Taken(final[at..stop], b) == Taken(final[at..last], b)
  {
    if last < stop {
      assert final[last..stop] == final[tail..][last - tail..stop - tail];
      assert final[at..last] + final[last..stop] == final[at..stop];
      TailInWindow(final[at..last], final[last..stop], b);
    }
  }

  /** A read of the whole file that stays before `end` is the same when the file ends there, in its tail. */
  lemma WholeBatch(final: FileBytes, tail: nat, end: nat, identity: FileIdentity, c: FileCursor, b: ReadBudget)
    requires Tracks(final, c) && c.readOffset <= tail <= end <= |final| && NewlineFree(final[tail..])
    requires BatchOf(Whole(final, identity), c, b).cursor.readOffset < end
    ensures BatchOf(OpenedFile(identity, end, final[..end]), c, b).cursor
      == BatchOf(Whole(final, identity), c, b).cursor
  {
    StageWindow(final, tail, end, identity, c, b);
    assert Shaped(c);
    ReadKeepsShape(Whole(final, identity), c, b);
  }

  // ----- without such a read, none is lost -----

  /** The records before the saved offset have all been delivered. */
  ghost predicate Complete(final: Bytes, start: nat, t: Trace)
    requires start <= t.world.saved.offset <= |final|
  {
    Within(Keyed(start, Records(final[start..t.world.saved.offset])), t.world.delivered)
  }

  /** Only the first stretch delivers, or everything there is was delivered. */
  ghost predicate Exact(final: Bytes, start: nat, t: Trace)
    requires start <= |final|
  {
    Genuine(final, start, t) && (t.base == start || Within(Expected(final, start), t.world.delivered))
  }

  /** In the first stretch, the cursor is that of a pass over the whole file from a record boundary. */
  ghost predicate Rooted(final: FileBytes, start: Place, t: Trace, b: ReadBudget) {
    t.base == start.offset && t.world.left > 0 ==> t.world.left <= MAX_BATCHES && FromBoundary(final, start, t, b)
  }

  ghost predicate FromBoundary(final: FileBytes, start: Place, t: Trace, b: ReadBudget)
    requires t.world.left <= MAX_BATCHES
  {
    exists p: u64 :: IsBoundary(final, start.offset, p)
                     && t.world.cursor == PassCursor(final, Place(start.identity, p), b, MAX_BATCHES - t.world.left)
  }

  lemma ResumeIsRooted(final: FileBytes, start: Place, t: Trace, b: ReadBudget)
    requires Sound(final, start, t)
    ensures Rooted(final, start, Stepped(t, b, Resume), b)
  {
    if t.base == start.offset {
      var p := t.world.saved.offset;
      assert Place(start.identity, p) == t.world.saved;
      assert Stepped(t, b, Resume).world.cursor == PassCursor(final, Place(start.identity, p), b, 0);
    }
  }

  /** A pass that goes on does so with the cursor of a read of the whole file. */
  lemma GoesOnWhole(final: FileBytes, start: Place, t: Trace, b: ReadBudget, env: BatchEnv)
    requires Sound(final, start, t) && Staged(final, start.identity, t, b, Iterate(env))
    requires Stepped(t, b, Iterate(env)).world.left > 0
    ensures var next := Stepped(t, b, Iterate(env));
            && t.world.left > 0 && next.world.left == t.world.left - 1 && next.base == t.base
            && next.world.cursor == BatchOf(Whole(final, start.identity), t.world.cursor, b).cursor
  {
    NextBatch(final, start, t, b, env);
    TracksInFinal(final[..t.seen], env.file.content, t.world.cursor);
    StageBatch(final, env.file, t.world.cursor, b);
  }

  lemma StepKeepsRooted(final: FileBytes, start: Place, t: Trace, b: ReadBudget, step: TailStep)
    requires Sound(final, start, t) && Staged(final, start.identity, t, b, step) && Rooted(final, start, t, b)
    ensures Rooted(final, start, Stepped(t, b, step), b)
  {
    var next := Stepped(t, b, step);
    if step.Resume? {
      ResumeIsRooted(final, start, t, b);
    } else if next.world.left > 0 && next.base == start.offset {
      GoesOnWhole(final, start, t, b, step.env);
      var p: u64 :| IsBoundary(final, start.offset, p)
                    && t.world.cursor == PassCursor(final, Place(start.identity, p), b, MAX_BATCHES - t.world.left);
      assert next.world.cursor == PassCursor(final, Place(start.identity, p), b, MAX_BATCHES - next.world.left);
    }
  }

  lemma NothingBeyond(final: Bytes, start: nat, saved: nat)
    requires start <= saved && CaughtUp(final, saved)
    ensures Records(final[start..]) == Records(final[start..saved])
  {
    RecordsPrefix(final[start..saved], final[saved..]);
    assert final[start..] == final[start..saved] + final[saved..];
  }

  /** A skip that drops records comes from a read that sees too far. */
  lemma DroppingReadsTooFar(final: FileBytes, start: Place, t: Trace, b: ReadBudget, env: BatchEnv)
    requires Sound(final, start, t) && Staged(final, start.identity, t, b, Iterate(env)) && Skips(t.world, b, env)
    requires t.base == start.offset && RecordsFit(final, start.offset, b.maxPartialBytes)
    requires BatchOf(env.file, t.world.cursor, b).records != []
    ensures ReadsTooFar(final, TailStart(final, start.offset), t.world.cursor, b)
    ensures |Unterminated(final[start.offset..])| > b.maxPartialBytes
  {
    SkipMeetsTail(final, start, t, b, env);
    NextBatch(final, start, t, b, env);
    var content, c := env.file.content, t.world.cursor;
    TracksInFinal(final[..t.seen], content, c);
    ReadAdvances(env.file, c, b);
    var batch := BatchOf(env.file, c, b);
    var at := batch.cursor.completeOffset;
    TailStartAt(final, start.offset, at);
    RecordsAreShorter(batch.records);
    BatchSplits(batch.records);
    assert !Exhausted(Window(env.file, c, b), b);
  }

  /** A lossless skip drops no record: everything before the tail had been delivered. */
  lemma SkipLosesNothing(final: FileBytes, start: Place, t: Trace, b: ReadBudget, env: BatchEnv)
    requires Sound(final, start, t) && Staged(final, start.identity, t, b, Iterate(env)) && Carried(t, b)
    requires t.base == start.offset && Lossless(final, start, b) && Skips(t.world, b, env) && Rooted(final, start, t, b)
    ensures Within(Expected(final, start.offset), t.world.delivered)
  {
    if NeverSkips(b) {
      ShortPassesNeverSkip(final, start, t, b, env);
    } else if BatchOf(env.file, t.world.cursor, b).records == [] {
      SkipMeetsTail(final, start, t, b, env);
      NothingBeyond(final, start.offset, t.world.saved.offset);
    } else {
      DroppingReadsTooFar(final, start, t, b, env);
      assert LosingPass(final, start, b);
    }
  }

  lemma StepKeepsExact(final: FileBytes, start: Place, t: Trace, b: ReadBudget, step: TailStep)
    requires Sound(final, start, t) && Staged(final, start.identity, t, b, step) && Carried(t, b)
    requires Exact(final, start.offset, t) && Lossless(final, start, b) && Rooted(final, start, t, b)
    ensures Exact(final, start.offset, Stepped(t, b, step))
  {
    StepKeepsGenuine(final, start, t, b, step);
    if step.Iterate? && Skips(t.world, b, step.env) && t.base == start.offset {
      SkipLosesNothing(final, start, t, b, step.env);
    }
  }

  lemma {:induction false} HistoryIsExact(final: FileBytes, start: Place, b: ReadBudget, steps: seq<TailStep>)
    requires start.offset <= |final| && AppendOnly(final, start.identity, Begin(start), b, steps)
    requires Lossless(final, start, b)
    ensures var t := Follow(Begin(start), b, steps);
            Exact(final, start.offset, t) && Rooted(final, start, t, b)
  {
    if steps == [] {
      BeginIsSound(final, start);
      ResumeIsRooted(final, start, Begin(start), b);
    } else {
      var before := steps[..|steps| - 1];
      HistoryIsExact(final, start, b, before);
      HistoryIsGenuine(final, start, b, before);
      StepKeepsExact(final, start, Follow(Begin(start), b, before), b, steps[|steps| - 1]);
      StepKeepsRooted(final, start, Follow(Begin(start), b, before), b, steps[|steps| - 1]);
    }
  }

  /**
   * Exact tailing: of a lossless file every history delivers only whole records under their own keys, and all of them
   * before the saved offset.
   */
  lemma ExactTailing(final: FileBytes, start: Place, b: ReadBudget, steps: seq<TailStep>)
    requires start.offset <= |final| && AppendOnly(final, start.identity, Begin(start), b, steps)
    requires Lossless(final, start, b)
    ensures Within(Follow(Begin(start), b, steps).world.delivered, Expected(final, start.offset))
    ensures KeptAll(final, start, b, steps)
  {
    HistoryIsExact(final, start, b, steps);
    HistoryIsGenuine(final, start, b, steps);
    var t := Follow(Begin(start), b, steps);
    ExpectedGrows(final, start.offset, t.world.saved.offset);
  }

  ghost predicate KeptAll(final: FileBytes, start: Place, b: ReadBudget, steps: seq<TailStep>) {
    var t := Follow(Begin(start), b, steps);
    start.offset <= t.world.saved.offset <= |final| && Complete(final, start.offset, t)
  }

  /** Once no complete record lies beyond the saved offset, the delivered set is the file's. */
  lemma CaughtUpDelivers(final: FileBytes, start: Place, b: ReadBudget, steps: seq<TailStep>)
    requires start.offset <= |final| && AppendOnly(final, start.identity, Begin(start), b, steps)
    requires Lossless(final, start, b)
    requires CaughtUp(final, Follow(Begin(start), b, steps).world.saved.offset)
    ensures Within(Expected(final, start.offset), Follow(Begin(start), b, steps).world.delivered)
    ensures Within(Follow(Begin(start), b, steps).world.delivered, Expected(final, start.offset))
  {
    ExactTailing(final, start, b, steps);
    NothingBeyond(final, start.offset, Follow(Begin(start), b, steps).world.saved.offset);
  }

  /** Any two histories that caught up with the same file have delivered the same set, crashes or none. */
  lemma CrashesLeaveNoTrace(
    final: FileBytes, start: Place, b: ReadBudget, steps: seq<TailStep>, other: seq<TailStep>)
    requires start.offset <= |final| && Lossless(final, start, b)
    requires AppendOnly(final, start.identity, Begin(start), b, steps)
    requires AppendOnly(final, start.identity, Begin(start), b, other)
    requires CaughtUp(final, Follow(Begin(start), b, steps).world.saved.offset)
    requires CaughtUp(final, Follow(Begin(start), b, other).world.saved.offset)
    ensures (set d | d in Follow(Begin(start), b, steps).world.delivered)
         == (set d | d in Follow(Begin(start), b, other).world.delivered)
  {
    CaughtUpDelivers(final, start, b, steps);
    CaughtUpDelivers(final, start, b, other);
  }

  // ----- and with such a read, a history loses them -----

  /** A history that runs as a pass over the whole file has delivered nothing beyond its saved offset. */
  ghost predicate Midway(final: FileBytes, start: Place, b: ReadBudget, p: u64, end: nat, j: nat, t: Trace) {
    && Sound(final, start, t) && t.base == start.offset && t.seen <= end && j <= MAX_BATCHES
    && t.world.left == MAX_BATCHES - j && p <= |final|
    && t.world.cursor == PassCursor(final, Place(start.identity, p), b, j)
    && forall d :: d in t.world.delivered ==> d.key <= t.world.saved.offset
  }

  lemma NewlineBehind(final: Bytes, at: nat, tail: nat)
    requires at < tail <= |final| && final[tail - 1] == NEWLINE
    ensures !CaughtUp(final, at)
  {
    assert final[at..][tail - 1 - at] == NEWLINE;
  }

  /** Within the complete records nothing is skipped. */
  lemma NoSkipInside(final: FileBytes, start: Place, t: Trace, b: ReadBudget, env: BatchEnv, tail: nat)
    requires Sound(final, start, t) && Staged(final, start.identity, t, b, Iterate(env)) && Opens(t.world, env)
    requires RecordsFit(final, t.base, b.maxPartialBytes) && env.recovery.Some?
    requires BatchOf(env.file, t.world.cursor, b).cursor.completeOffset < tail <= |final| && final[tail - 1] == NEWLINE
    ensures |BatchOf(env.file, t.world.cursor, b).cursor.partial| <= b.maxPartialBytes
  {
    NextBatch(final, start, t, b, env);
    NewlineBehind(final, BatchOf(env.file, t.world.cursor, b).cursor.completeOffset, tail);
    if Skips(t.world, b, env) {
      SkipMeetsTail(final, start, t, b, env);
    }
  }

  /** A read of the stage that stays before the tail. */
  lemma InsideRead(final: FileBytes, start: Place, b: ReadBudget, t: Trace, end: nat)
    requires start.offset <= |final| && RecordsFit(final, start.offset, b.maxPartialBytes)
    requires Sound(final, start, t) && t.base == start.offset && t.world.left > 0 && t.seen <= end
    requires t.world.cursor.readOffset <= TailStart(final, start.offset) < end <= |final|
    requires start.offset < TailStart(final, start.offset)
    requires BatchOf(Whole(final, start.identity), t.world.cursor, b).cursor.readOffset < TailStart(final, start.offset)
    ensures var batch := BatchOf(OpenedFile(start.identity, end, final[..end]), t.world.cursor, b);
            && batch.cursor == BatchOf(Whole(final, start.identity), t.world.cursor, b).cursor
            && |batch.cursor.partial| <= b.maxPartialBytes && batch.cursor.readOffset < end
  {
    hide Stepped;
    hide BatchOf;
    hide ReadOf;
    hide SplitOf;
    var tail, env := TailStart(final, start.offset), Smooth(start.identity, final[..end], end);
    TailStartIs(final, start.offset);
    TracksInFinal(final[..t.seen], final, t.world.cursor);
    WholeBatch(final, tail, end, start.identity, t.world.cursor, b);
    OneRead(final, start.identity, t.world.cursor, b);
    SmoothStep(final, start, t, b, end, end);
    NoSkipInside(final, start, t, b, env, tail);
  }

  /** A stage that ends in the tail, and a read of the whole file before it. */
  ghost predicate StageBehind(final: FileBytes, start: Place, b: ReadBudget, p: u64, end: nat, k: nat) {
    && start.offset <= |final| && p <= |final| && k < MAX_BATCHES
    && RecordsFit(final, start.offset, b.maxPartialBytes)
    && start.offset < TailStart(final, start.offset) < end <= |final|
    && PassCursor(final, Place(start.identity, p), b, k).readOffset < TailStart(final, start.offset)
  }

  /** The next read of the stage is that of the whole file, and asks for more. */
  lemma MidwayBatch(final: FileBytes, start: Place, b: ReadBudget, p: u64, end: nat, j: nat, t: Trace)
    requires StageBehind(final, start, b, p, end, j + 1) && Midway(final, start, b, p, end, j, t)
    ensures var batch := BatchOf(OpenedFile(start.identity, end, final[..end]), t.world.cursor, b);
            && batch.cursor == PassCursor(final, Place(start.identity, p), b, j + 1)
            && |batch.cursor.partial| <= b.maxPartialBytes && batch.cursor.readOffset < end
  {
    InsideRead(final, start, b, t, end);
  }

  lemma MidwayGoesOn(final: FileBytes, start: Place, b: ReadBudget, p: u64, end: nat, j: nat, t: Trace)
    requires StageBehind(final, start, b, p, end, j + 1) && Midway(final, start, b, p, end, j, t)
    ensures var step := Iterate(Smooth(start.identity, final[..end], end));
            && Staged(final, start.identity, t, b, step)
            && Midway(final, start, b, p, end, j + 1, Stepped(t, b, step))
  {
    hide Stepped;
    hide BatchOf;
    hide PassCursor;
    var env := Smooth(start.identity, final[..end], end);
    MidwayBatch(final, start, b, p, end, j, t);
    SmoothStep(final, start, t, b, end, end);
    StepKeepsSound(final, start, t, b, Iterate(env));
    NextBatch(final, start, t, b, env);
    KeysBounded(t.world.saved.offset, BatchOf(env.file, t.world.cursor, b).records);
  }

  lemma MidwayExtends(
    final: FileBytes, start: Place, b: ReadBudget, p: u64, end: nat, j: nat, before: seq<TailStep>)
    returns (steps: seq<TailStep>)
    requires StageBehind(final, start, b, p, end, j + 1)
    requires AppendOnly(final, start.identity, Begin(start), b, before)
    requires Midway(final, start, b, p, end, j, Follow(Begin(start), b, before))
    ensures AppendOnly(final, start.identity, Begin(start), b, steps)
    ensures Midway(final, start, b, p, end, j + 1, Follow(Begin(start), b, steps))
  {
    hide Follow;
    MidwayGoesOn(final, start, b, p, end, j, Follow(Begin(start), b, before));
    var step := Iterate(Smooth(start.identity, final[..end], end));
    SnocHistory(final, start.identity, Begin(start), b, before, step);
    steps := before + [step];
  }

  lemma EarlierIsBehind(final: FileBytes, start: Place, b: ReadBudget, p: u64, end: nat, k: nat)
    requires k > 0 && StageBehind(final, start, b, p, end, k)
    ensures StageBehind(final, start, b, p, end, k - 1)
  {
  }

  /** A pass over the file as it stood with `end` bytes, up to `k` reads. */
  lemma {:induction false} MidwayReached(
    final: FileBytes, start: Place, b: ReadBudget, p: u64, end: nat, k: nat, before: seq<TailStep>)
    returns (steps: seq<TailStep>)
    requires StageBehind(final, start, b, p, end, k)
    requires AppendOnly(final, start.identity, Begin(start), b, before)
    requires Midway(final, start, b, p, end, 0, Follow(Begin(start), b, before))
    ensures AppendOnly(final, start.identity, Begin(start), b, steps)
    ensures Midway(final, start, b, p, end, k, Follow(Begin(start), b, steps))
    decreases k
  {
    hide *;
    if k == 0 {
      steps := before;
    } else {
      EarlierIsBehind(final, start, b, p, end, k);
      steps := MidwayReached(final, start, b, p, end, k - 1, before);
      steps := MidwayExtends(final, start, b, p, end, k - 1, steps);
    }
  }

  /** A history that has saved exactly the boundary `p` of the file, and begins a pass there. */
  lemma BeginPassAt(final: FileBytes, start: Place, b: ReadBudget, p: u64, end: nat) returns (steps: seq<TailStep>)
    requires start.offset <= |final| && RecordsFit(final, start.offset, b.maxPartialBytes) && !NeverSkips(b)
    requires IsBoundary(final, start.offset, p) && p <= end
    ensures AppendOnly(final, start.identity, Begin(start), b, steps)
    ensures Midway(final, start, b, p, end, 0, Follow(Begin(start), b, steps))
  {
    BoundaryFits(final, start.offset, p, b.maxPartialBytes);
    steps := ReachBoundary(final, start, b, p);
    var t := Follow(Begin(start), b, steps);
    SnocHistory(final, start.identity, Begin(start), b, steps, Resume);
    StepKeepsSound(final, start, t, b, Resume);
    steps := steps + [Resume];
    assert t.world.saved == Place(start.identity, p);
  }

  lemma BoundaryFits(final: Bytes, start: nat, p: nat, cap: nat)
    requires start <= |final| && RecordsFit(final, start, cap) && IsBoundary(final, start, p)
    ensures Fits(final[..p], start, cap)
  {
    BoundaryCuts(final, start, p);
    assert final[..p][start..] == final[start..p];
    forall i | 0 <= i < |Records(final[start..p])|
      ensures |Records(final[start..p])[i]| <= cap
    {
      assert Records(final[start..p])[i] == Records(final[start..])[i];
    }
  }

  /** Between two boundaries lie complete records only. */
  lemma BetweenBoundaries(final: Bytes, start: nat, p: nat, q: nat)
    requires IsBoundary(final, start, p) && IsBoundary(final, start, q) && p <= q
    ensures Unterminated(final[p..q]) == []
  {
    assert final[..q][start..p] == final[start..p] && final[..q][start..] == final[start..q];
    assert final[..q][p..] == final[p..q];
    BoundaryCuts(final[..q], start, p);
  }

  /** What is left over of a window that ends in the tail, behind complete records within the budget. */
  lemma LeftoverIsTail(final: Bytes, at: nat, tail: nat, end: nat, b: ReadBudget)
    requires at <= tail <= end <= |final| && Unterminated(final[at..tail]) == [] && NewlineFree(final[tail..end])
    requires |Records(final[at..tail])| <= b.maxRecords
    ensures Leftover(final[at..end], b) == final[tail..end]
  {
    RecordsPrefix(final[at..tail], final[tail..end]);
    assert final[at..tail] + final[tail..end] == final[at..end];
  }

  lemma FarWindow(final: FileBytes, c: FileCursor, end: nat, identity: FileIdentity, b: ReadBudget)
    requires Tracks(final, c) && c.readOffset <= end <= |final| && end <= c.readOffset + b.maxBytes
    ensures Window(OpenedFile(identity, end, final[..end]), c, b) == final[c.completeOffset..end]
  {
    TracksInFinal(final, final[..end], c);
    WindowSlice(OpenedFile(identity, end, final[..end]), c, b);
    assert final[..end][c.completeOffset..end] == final[c.completeOffset..end];
  }

  lemma FarLeftover(final: Bytes, start: nat, at: nat, end: nat, b: ReadBudget)
    requires start <= |final| && IsBoundary(final, start, at)
    requires at <= TailStart(final, start) <= end <= |final|
    requires |Records(final[at..TailStart(final, start)])| <= b.maxRecords
    ensures Leftover(final[at..end], b) == final[TailStart(final, start)..end]
  {
    var tail := TailStart(final, start);
    TailStartIs(final, start);
    BetweenBoundaries(final, start, at, tail);
    assert final[tail..end] == final[tail..][..end - tail];
    LeftoverIsTail(final, at, tail, end, b);
  }

  lemma FarRead(final: FileBytes, start: Place, b: ReadBudget, t: Trace, end: nat)
    requires Sound(final, start, t) && t.base == start.offset && t.world.left > 0
    requires var tail := TailStart(final, start.offset);
             && ReadsTooFar(final, tail, t.world.cursor, b)
             && t.world.cursor.readOffset <= end == tail + b.maxPartialBytes + 1 <= |final|
    ensures var file := OpenedFile(start.identity, end, final[..end]);
            |BatchOf(file, t.world.cursor, b).cursor.partial| > b.maxPartialBytes
  {
    var c := t.world.cursor;
    TracksInFinal(final[..t.seen], final, c);
    FarWindow(final, c, end, start.identity, b);
    FarLeftover(final, start.offset, c.completeOffset, end, b);
  }

  /** The read that sees too far skips, and what it saw is never delivered. */
  lemma FarReadSkips(final: FileBytes, start: Place, b: ReadBudget, t: Trace, end: nat)
    requires Sound(final, start, t) && t.base == start.offset && t.world.left > 0 && t.seen <= end
    requires var tail := TailStart(final, start.offset);
             && ReadsTooFar(final, tail, t.world.cursor, b)
             && t.world.cursor.readOffset <= end == tail + b.maxPartialBytes + 1 <= |final|
    requires forall d :: d in t.world.delivered ==> d.key <= t.world.saved.offset
    ensures var step := Iterate(Smooth(start.identity, final[..end], end));
            && Staged(final, start.identity, t, b, step)
            && Stepped(t, b, step).world.saved.offset == end
            && forall d :: d in Stepped(t, b, step).world.delivered ==> d.key < TailStart(final, start.offset)
  {
    FarRead(final, start, b, t, end);
    SmoothStep(final, start, t, b, end, end);
  }

  /** The last complete record has the beginning of the tail as its key. */
  lemma LastIsExpected(final: Bytes, start: nat, end: nat) returns (last: Delivery)
    requires start <= |final| && start < TailStart(final, start) <= end <= |final|
    ensures last.key == TailStart(final, start) && last in Keyed(start, Records(final[start..end]))
  {
    var tail, records := TailStart(final, start), Records(final[start..]);
    TailStartIs(final, start);
    assert final[end..] == final[tail..][end - tail..];
    NothingBeyond(final, start, end);
    assert Terminated([]) == [];
    assert records[..|records|] == records;
    last := Keyed(start, records)[|records| - 1];
  }

  lemma LosingHistory(final: FileBytes, start: Place, b: ReadBudget, p: u64, k: nat) returns (steps: seq<TailStep>)
    requires start.offset <= |final| && RecordsFit(final, start.offset, b.maxPartialBytes) && !NeverSkips(b)
    requires |Unterminated(final[start.offset..])| > b.maxPartialBytes
    requires IsBoundary(final, start.offset, p) && k < MAX_BATCHES
    requires ReadsTooFar(final, TailStart(final, start.offset), PassCursor(final, Place(start.identity, p), b, k), b)
    ensures AppendOnly(final, start.identity, Begin(start), b, steps) && !KeptAll(final, start, b, steps)
  {
    var tail, place := TailStart(final, start.offset), Place(start.identity, p);
    var end := tail + b.maxPartialBytes + 1;
    TailStartIs(final, start.offset);
    ReadStopsBeforeTail(final, start, b, p, k);
    var before := BeginPassAt(final, start, b, p, end);
    before := MidwayReached(final, start, b, p, end, k, before);
    FarReadSkips(final, start, b, Follow(Begin(start), b, before), end);
    var step := Iterate(Smooth(start.identity, final[..end], end));
    SnocHistory(final, start.identity, Begin(start), b, before, step);
    steps := before + [step];
    var last := LastIsExpected(final, start.offset, end);
  }

  /** Complete records are left behind the cursor, so the newline before the tail has not been read yet. */
  lemma NewlineIsUnread(final: Bytes, c: FileCursor, tail: nat)
    requires Tracks(final, c) && c.completeOffset < tail <= |final| && final[tail - 1] == NEWLINE
    ensures c.readOffset < tail
  {
    forall i | c.completeOffset <= i < c.readOffset
      ensures final[i] != NEWLINE
    {
      assert c.partial[i - c.completeOffset] == final[i];
    }
  }

  lemma ReadStopsBeforeTail(final: FileBytes, start: Place, b: ReadBudget, p: u64, k: nat)
    requires start.offset <= p <= |final|
    requires PassCursor(final, Place(start.identity, p), b, k).completeOffset < TailStart(final, start.offset)
    ensures p <= PassCursor(final, Place(start.identity, p), b, k).readOffset < TailStart(final, start.offset)
    ensures start.offset < TailStart(final, start.offset)
  {
    TailStartIs(final, start.offset);
    NewlineIsUnread(final, PassCursor(final, Place(start.identity, p), b, k), TailStart(final, start.offset));
  }

  /** A file whose complete records fit loses one in some history if a pass can read records with too much tail. */
  lemma RecordIsLost(final: FileBytes, start: Place, b: ReadBudget) returns (steps: seq<TailStep>)
    requires start.offset <= |final| && RecordsFit(final, start.offset, b.maxPartialBytes)
    requires !Lossless(final, start, b)
    ensures AppendOnly(final, start.identity, Begin(start), b, steps) && !KeptAll(final, start, b, steps)
  {
    var p: u64, k: nat :|
      && IsBoundary(final, start.offset, p) && k < MAX_BATCHES
      && ReadsTooFar(final, TailStart(final, start.offset), PassCursor(final, Place(start.identity, p), b, k), b);
    steps := LosingHistory(final, start, b, p, k);
  }

  ghost predicate Exactly(final: FileBytes, start: Place, b: ReadBudget, steps: seq<TailStep>)
    requires start.offset <= |final|
  {
    && Within(Follow(Begin(start), b, steps).world.delivered, Expected(final, start.offset))
    && KeptAll(final, start, b, steps)
  }

  /**
   * Exact tailing, exactly: in every history of a file each delivery is one of its records, and none before the saved
   * offset is missing, if and only if the file is lossless under the budget.
   */
  lemma ExactTailingIff(final: FileBytes, start: Place, b: ReadBudget)
    requires start.offset <= |final|
    ensures Lossless(final, start, b) <==>
            forall steps :: AppendOnly(final, start.identity, Begin(start), b, steps)
              ==> Exactly(final, start, b, steps)
  {
    if Lossless(final, start, b) {
      forall steps | AppendOnly(final, start.identity, Begin(start), b, steps)
        ensures Exactly(final, start, b, steps)
      {
        ExactTailing(final, start, b, steps);
      }
    } else if RecordsFit(final, start.offset, b.maxPartialBytes) {
      var steps := RecordIsLost(final, start, b);
      assert !Exactly(final, start, b, steps);
    } else {
      var steps := TruncatedIsNotWhole(final, start, b);
      assert !Exactly(final, start, b, steps);
    }
  }

  // ----- which budgets lose nothing, whatever the file -----

  /** A read that brings in at most one byte more than the cap does not see records together with too much tail. */
  lemma NarrowReadsLoseNothing(final: FileBytes, start: Place, b: ReadBudget)
    requires start.offset <= |final| && b.maxBytes <= b.maxPartialBytes + 1
    ensures !LosingPass(final, start, b)
  {
    forall p: u64, k: nat | IsBoundary(final, start.offset, p)
      ensures !ReadsTooFar(final, TailStart(final, start.offset), PassCursor(final, Place(start.identity, p), b, k), b)
    {
      if PassCursor(final, Place(start.identity, p), b, k).completeOffset < TailStart(final, start.offset) {
        ReadStopsBeforeTail(final, start, b, p, k);
      }
    }
  }

  /** An empty line, and more of a second one than the cap: a read that takes in all of it loses the first. */
  lemma WideReadLoses(b: ReadBudget) returns (final: FileBytes, start: Place)
    requires b.maxBytes > b.maxPartialBytes + 1 && b.maxPartialBytes + 2 <= U64_MAX
    ensures start.offset <= |final| && RecordsFit(final, start.offset, b.maxPartialBytes)
    ensures !Lossless(final, start, b)
  {
    var cap := b.maxPartialBytes;
    final, start := [NEWLINE] + Filler(cap + 1), Place(FileIdentity(0, 0), 0);
    OneRecordSplit([], Filler(cap + 1));
    assert [] + [NEWLINE] == [NEWLINE] && final[0..] == final;
    FirstReadLoses(final, start, b);
    assert LosingPass(final, start, b);
  }

  lemma FirstReadLoses(final: FileBytes, start: Place, b: ReadBudget)
    requires SplitOf(final[0..]) == Split([[]], Filler(b.maxPartialBytes + 1)) && |final| == b.maxPartialBytes + 2
    requires final[0] == NEWLINE && start.offset == 0 && b.maxBytes > b.maxPartialBytes + 1
    ensures IsBoundary(final, 0, 0)
    ensures ReadsTooFar(final, TailStart(final, 0), PassCursor(final, Place(start.identity, 0), b, 0), b)
  {
    EmptyRecord();
    assert final[0..0] == [] && final[0..1] == [NEWLINE];
  }

  /**
   * A budget never loses a record of any file whose complete records fit the cap if and only if one read brings in at
   * most one byte more than the cap.
   */
  lemma LosslessBudgetIff(b: ReadBudget)
    ensures b.maxBytes <= b.maxPartialBytes + 1 <==>
            forall final: FileBytes, start: Place, steps ::
              start.offset <= |final| && RecordsFit(final, start.offset, b.maxPartialBytes)
              && AppendOnly(final, start.identity, Begin(start), b, steps) ==>
                KeptAll(final, start, b, steps)
  {
    if b.maxBytes <= b.maxPartialBytes + 1 {
      forall final: FileBytes, start: Place, steps |
        start.offset <= |final| && RecordsFit(final, start.offset, b.maxPartialBytes)
        && AppendOnly(final, start.identity, Begin(start), b, steps)
        ensures KeptAll(final, start, b, steps)
      {
        NarrowReadsLoseNothing(final, start, b);
        ExactTailing(final, start, b, steps);
      }
    } else {
      var final, start := WideReadLoses(b);
      var steps := RecordIsLost(final, start, b);
      assert !KeptAll(final, start, b, steps);
    }
  }

  /** The budget of both tail loops: two mebibytes a batch, one mebibyte of partial record, 128 records. */
  const TAIL_BUDGET: ReadBudget := ReadBudget(2 * 1024 * 1024, 1024 * 1024, 128)

  /** Under the program's own budget undisturbed passes always make progress, and some fitting record can be lost. */
  lemma ProgramBudget()
    ensures forall final: FileBytes, start, t :: Sound(final, start, t) ==> Progresses(final, start, t, TAIL_BUDGET)
    ensures exists final: FileBytes, start: Place, steps ::
              && start.offset <= |final| && RecordsFit(final, start.offset, TAIL_BUDGET.maxPartialBytes)
              && AppendOnly(final, start.identity, Begin(start), TAIL_BUDGET, steps)
              && !KeptAll(final, start, TAIL_BUDGET, steps)
  {
    ProgressIff(TAIL_BUDGET);
    LosslessBudgetIff(TAIL_BUDGET);
  }
}
