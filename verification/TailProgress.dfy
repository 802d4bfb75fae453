/** Undisturbed passes of the tail loop: each moves the saved offset or has caught up, so that repeating them ends. */
module TailProgress {
  import opened Core
  import opened Lines
  import opened Incremental
  import opened Tail

  /** No complete record lies beyond the saved offset. */
  ghost predicate CaughtUp(content: Bytes, saved: nat) {
    saved <= |content| && NewlineFree(content[saved..])
  }

  /** An iteration in which nothing fails, over a file that holds `content`; a skip would land at `at`. */
  function Smooth(identity: FileIdentity, content: FileBytes, at: u64): BatchEnv {
    BatchEnv(OpenedFile(identity, |content|, content), true, |content|, true, Some(Place(identity, at)))
  }

  /** A pass of `k` such iterations. */
  ghost predicate IsPass(steps: seq<TailStep>, env: BatchEnv, k: nat) {
    |steps| == k + 1 && steps[0] == Resume && forall i :: 1 <= i <= k ==> steps[i] == Iterate(env)
  }

  lemma {:induction false} FollowConcat(t: Trace, b: ReadBudget, x: seq<TailStep>, y: seq<TailStep>)
    ensures Follow(t, b, x + y) == Follow(Follow(t, b, x), b, y)
    decreases |y|
  {
    if y == [] {
      assert x + y == x;
    } else {
      FollowConcat(t, b, x, y[..|y| - 1]);
      assert (x + y)[..|x + y| - 1] == x + y[..|y| - 1];
    }
  }

  lemma {:induction false} AppendOnlyConcat(
    final: FileBytes, identity: FileIdentity, t: Trace, b: ReadBudget, x: seq<TailStep>, y: seq<TailStep>)
    requires AppendOnly(final, identity, t, b, x) && AppendOnly(final, identity, Follow(t, b, x), b, y)
    ensures AppendOnly(final, identity, t, b, x + y)
    decreases |y|
  {
    if y == [] {
      assert x + y == x;
    } else {
      var y' := y[..|y| - 1];
      AppendOnlyConcat(final, identity, t, b, x, y');
      FollowConcat(t, b, x, y');
      assert (x + y)[..|x + y| - 1] == x + y';
    }
  }

  // ----- what one pass can come to -----

  /** After `k` iterations the pass has read `k` full windows without finding the end of a record. */
  ghost predicate Silent(was: Trace, t: Trace, b: ReadBudget, end: nat, k: nat) {
    var w := t.world;
    && w.saved == was.world.saved && w.delivered == was.world.delivered && t.base == was.base && t.seen <= end
    && k <= MAX_BATCHES && w.left == MAX_BATCHES - k
    && |w.cursor.partial| == k * b.maxBytes && w.cursor.readOffset == w.saved.offset + k * b.maxBytes
    && (k > 0 ==> |w.cursor.partial| <= b.maxPartialBytes && w.cursor.readOffset < end)
  }

  /** The pass has read everything and found no further record. */
  ghost predicate Ended(final: Bytes, was: Trace, t: Trace, b: ReadBudget, end: nat)
    requires end <= |final|
  {
    var saved := was.world.saved.offset;
    && t.world.saved == was.world.saved && t.base == was.base && t.world.left == 0 && t.seen <= end
    && CaughtUp(final[..end], saved) && end - saved <= b.maxPartialBytes
  }

  ghost predicate Moved(was: Trace, t: Trace, b: ReadBudget, end: nat, k: nat) {
    && was.world.saved.offset < t.world.saved.offset <= end && t.base == was.base && t.seen <= end
    && t.world.saved.offset <= t.world.cursor.readOffset <= was.world.saved.offset + k * b.maxBytes
  }

  /** The pass met a line it could not carry and skipped to the end of the file as it then was. */
  ghost predicate Jumped(final: Bytes, was: Trace, t: Trace, b: ReadBudget, end: nat, at: nat)
    requires was.base <= end <= |final|
  {
    && t.world.saved.offset == at && t.base == at && t.seen == at && t.world.left == 0
    && !Fits(final[..end], was.base, b.maxPartialBytes)
  }

  ghost predicate Reached(final: Bytes, was: Trace, t: Trace, b: ReadBudget, end: nat, at: nat, k: nat)
    requires was.base <= end <= |final|
  {
    || Silent(was, t, b, end, k) || Ended(final, was, t, b, end) || Moved(was, t, b, end, k)
    || Jumped(final, was, t, b, end, at)
  }

  lemma FitsAtBoundary(content: Bytes, start: nat, mid: nat, cap: nat)
    requires start <= mid <= |content| && Unterminated(content[start..mid]) == [] && Fits(content, start, cap)
    ensures Fits(content, mid, cap)
  {
    SplitRoundTrip(content[start..mid]);
    BoundarySpells(content[start..mid]);
    FitsLater(content, start, mid, Records(content[start..mid]), cap);
  }

  /** While the lines of the current stretch fit the cap, no read needs reconciliation. */
  lemma FittingReadsGoOn(final: FileBytes, start: Place, t: Trace, b: ReadBudget, env: BatchEnv)
    requires Sound(final, start, t) && Opens(t.world, env) && Staged(final, start.identity, t, b, Iterate(env))
    requires Fits(env.file.content, t.base, b.maxPartialBytes)
    ensures ReadOf(env.file, t.world.cursor, b).Batch?
  {
    var content, saved := env.file.content, t.world.saved.offset;
    TracksInFinal(final[..t.seen], content, t.world.cursor);
    assert content[t.base..saved] == final[t.base..saved];
    FitsAtBoundary(content, t.base, saved, b.maxPartialBytes);
    NeverTooLarge(env.file, t.world.cursor, b);
  }

  lemma {:induction false} RecordsAreShorter(records: seq<Bytes>)
    ensures |records| <= |Terminated(records)|
  {
    if records != [] {
      RecordsAreShorter(records[..|records| - 1]);
    }
  }

  /** What the undisturbed iteration makes of a batch. */
  lemma SmoothStep(final: FileBytes, start: Place, t: Trace, b: ReadBudget, end: nat, at: u64)
    requires Sound(final, start, t) && t.world.left > 0 && t.seen <= end <= at <= |final|
    ensures var env := Smooth(start.identity, final[..end], at);
            var next, batch := Stepped(t, b, Iterate(env)), BatchOf(env.file, t.world.cursor, b);
            && Staged(final, start.identity, t, b, Iterate(env))
            && if |batch.cursor.partial| > b.maxPartialBytes
               then
                 && next == Trace(t.world.(saved := Place(start.identity, at), left := 0), at, at)
                 && !Fits(final[..end], t.base, b.maxPartialBytes)
               else
                 && next.world.saved == Place(start.identity, batch.cursor.completeOffset)
                 && next.world.cursor == batch.cursor && next.base == t.base && next.seen == end
                 && next.world.delivered == t.world.delivered + Keyed(t.world.saved.offset, batch.records)
                 && next.world.left == if batch.cursor.readOffset < end then t.world.left - 1 else 0
  {
    var env := Smooth(start.identity, final[..end], at);
    NextBatch(final, start, t, b, env);
    var batch := BatchOf(env.file, t.world.cursor, b);
    if Fits(final[..end], t.base, b.maxPartialBytes) {
      FittingReadsGoOn(final, start, t, b, env);
    }
    TracksInFinal(final[..t.seen], final[..end], t.world.cursor);
    ReadProgress(env.file, t.world.cursor, b);
    RecordsAreShorter(batch.records);
    var next := Keyed(t.world.saved.offset, batch.records);
    assert next[..|batch.records|] == next;
  }

  lemma SilentReads(final: FileBytes, start: Place, was: Trace, t: Trace, b: ReadBudget, end: nat, at: u64, k: nat)
    requires Sound(final, start, t) && t.seen <= end <= at <= |final| && was.base <= end
    requires Silent(was, t, b, end, k) && k < MAX_BATCHES
    ensures var file := OpenedFile(start.identity, end, final[..end]);
            var batch := BatchOf(file, t.world.cursor, b);
            && (batch.records != [] ==> t.world.saved.offset < batch.cursor.completeOffset)
            && (batch.records == [] ==>
                  && batch.cursor.readOffset == Min(t.world.cursor.readOffset + b.maxBytes, end)
                  && batch.cursor.completeOffset == t.world.saved.offset)
            && batch.cursor.readOffset <= t.world.cursor.readOffset + b.maxBytes
            && Tracks(final[..end], batch.cursor)
  {
    var file, c := OpenedFile(start.identity, end, final[..end]), t.world.cursor;
    TracksInFinal(final[..t.seen], final[..end], c);
    ReadAdvances(file, c, b);
    var batch := BatchOf(file, c, b);
    RecordsAreShorter(batch.records);
    ReadKeepsShape(file, c, b);
  }

  lemma SilentGoesOn(final: FileBytes, start: Place, was: Trace, t: Trace, b: ReadBudget, end: nat, at: u64, k: nat)
    requires Sound(final, start, t) && t.seen <= end <= at <= |final| && was.base <= end
    requires Silent(was, t, b, end, k) && k < MAX_BATCHES
    ensures Reached(final, was, Stepped(t, b, Iterate(Smooth(start.identity, final[..end], at))), b, end, at, k + 1)
  {
    hide Stepped;
    hide BatchOf;
    SmoothStep(final, start, t, b, end, at);
    SilentReads(final, start, was, t, b, end, at, k);
    assert (k + 1) * b.maxBytes == k * b.maxBytes + b.maxBytes;
    var next := BatchOf(OpenedFile(start.identity, end, final[..end]), t.world.cursor, b).cursor;
    if next.readOffset == end {
      assert final[..end][next.completeOffset..] == next.partial;
    }
  }

  lemma MovedGoesOn(final: FileBytes, start: Place, was: Trace, t: Trace, b: ReadBudget, end: nat, at: u64, k: nat)
    requires Sound(final, start, t) && t.seen <= end <= at <= |final| && was.base <= end && Moved(was, t, b, end, k)
    ensures var next := Stepped(t, b, Iterate(Smooth(start.identity, final[..end], at)));
            Moved(was, next, b, end, k + 1) || Jumped(final, was, next, b, end, at)
  {
    assert (k + 1) * b.maxBytes == k * b.maxBytes + b.maxBytes;
    if t.world.left > 0 {
      var env := Smooth(start.identity, final[..end], at);
      SmoothStep(final, start, t, b, end, at);
      NextBatch(final, start, t, b, env);
      TracksInFinal(final[..t.seen], final[..end], t.world.cursor);
      ReadAdvances(env.file, t.world.cursor, b);
    }
  }

  /** A sound trace, and what its pass has come to after `k` iterations. */
  ghost predicate Passing(
    final: FileBytes, start: Place, was: Trace, t: Trace, b: ReadBudget, end: nat, at: u64, k: nat)
    requires was.base <= end <= |final|
  {
    Sound(final, start, t) && Reached(final, was, t, b, end, at, k)
  }

  lemma PassingStaged(final: FileBytes, start: Place, was: Trace, t: Trace, b: ReadBudget, end: nat, at: u64, k: nat)
    requires was.base <= end <= at <= |final| && Passing(final, start, was, t, b, end, at, k)
    ensures Staged(final, start.identity, t, b, Iterate(Smooth(start.identity, final[..end], at)))
  {
    if t.world.left > 0 {
      SmoothStep(final, start, t, b, end, at);
    }
  }

  lemma PassingGoesOn(final: FileBytes, start: Place, was: Trace, t: Trace, b: ReadBudget, end: nat, at: u64, k: nat)
    requires was.base <= end <= at <= |final| && k < MAX_BATCHES && Passing(final, start, was, t, b, end, at, k)
    ensures var step := Iterate(Smooth(start.identity, final[..end], at));
            Passing(final, start, was, Stepped(t, b, step), b, end, at, k + 1)
  {
    PassingStaged(final, start, was, t, b, end, at, k);
    StepKeepsSound(final, start, t, b, Iterate(Smooth(start.identity, final[..end], at)));
    if Silent(was, t, b, end, k) {
      SilentGoesOn(final, start, was, t, b, end, at, k);
    } else if Moved(was, t, b, end, k) {
      MovedGoesOn(final, start, was, t, b, end, at, k);
    }
  }

  lemma PassBegins(final: FileBytes, start: Place, t: Trace, b: ReadBudget, end: nat, at: u64, steps: seq<TailStep>)
    requires Sound(final, start, t) && t.seen <= end <= at <= |final| && steps == [Resume]
    ensures AppendOnly(final, start.identity, t, b, steps)
    ensures Passing(final, start, t, Follow(t, b, steps), b, end, at, 0)
  {
    StepKeepsSound(final, start, t, b, Resume);
    assert steps[..0] == [];
    assert Silent(t, Stepped(t, b, Resume), b, end, 0);
  }

  lemma PassContinues(
    final: FileBytes, start: Place, t: Trace, b: ReadBudget, end: nat, at: u64, steps: seq<TailStep>, k: nat)
    requires t.base <= end <= at <= |final| && 0 < k <= MAX_BATCHES && |steps| == k + 1
    requires steps[k] == Iterate(Smooth(start.identity, final[..end], at))
    requires AppendOnly(final, start.identity, t, b, steps[..k])
    requires Passing(final, start, t, Follow(t, b, steps[..k]), b, end, at, k - 1)
    ensures AppendOnly(final, start.identity, t, b, steps)
    ensures Passing(final, start, t, Follow(t, b, steps), b, end, at, k)
  {
    var mid := Follow(t, b, steps[..k]);
    PassingStaged(final, start, t, mid, b, end, at, k - 1);
    PassingGoesOn(final, start, t, mid, b, end, at, k - 1);
  }

  /** An undisturbed pass of `k` iterations is a piece of history, and this is what it has come to. */
  lemma {:induction false} PassReaches(
    final: FileBytes, start: Place, t: Trace, b: ReadBudget, end: nat, at: u64, steps: seq<TailStep>, k: nat)
    requires Sound(final, start, t) && t.seen <= end <= at <= |final| && k <= MAX_BATCHES
    requires IsPass(steps, Smooth(start.identity, final[..end], at), k)
    ensures AppendOnly(final, start.identity, t, b, steps)
    ensures Passing(final, start, t, Follow(t, b, steps), b, end, at, k)
  {
    if k == 0 {
      PassBegins(final, start, t, b, end, at, steps);
    } else {
      PassReaches(final, start, t, b, end, at, steps[..k], k - 1);
      PassContinues(final, start, t, b, end, at, steps, k);
    }
  }

  /** A whole undisturbed pass, when the batches of one pass can outgrow the cap. */
  lemma PassOutcome(
    final: FileBytes, start: Place, t: Trace, b: ReadBudget, end: nat, at: u64, steps: seq<TailStep>)
    requires Sound(final, start, t) && t.seen <= end <= at <= |final|
    requires b.maxPartialBytes < MAX_BATCHES * b.maxBytes
    requires IsPass(steps, Smooth(start.identity, final[..end], at), MAX_BATCHES)
    ensures AppendOnly(final, start.identity, t, b, steps)
    ensures var next := Follow(t, b, steps);
            && Sound(final, start, next)
            && (Ended(final, t, next, b, end) || Moved(t, next, b, end, MAX_BATCHES)
                || Jumped(final, t, next, b, end, at))
  {
    PassReaches(final, start, t, b, end, at, steps, MAX_BATCHES);
  }

  function PassSteps(env: BatchEnv): (steps: seq<TailStep>)
    ensures IsPass(steps, env, MAX_BATCHES)
  {
    [Resume, Iterate(env), Iterate(env), Iterate(env), Iterate(env)]
  }

  /** An undisturbed pass saves a larger offset or has caught up with the file. */
  ghost predicate Progresses(final: FileBytes, start: Place, t: Trace, b: ReadBudget) {
    var next := Follow(t, b, PassSteps(Smooth(start.identity, final, |final|)));
    next.world.saved.offset > t.world.saved.offset || CaughtUp(final, next.world.saved.offset)
  }

  lemma PassMakesProgress(final: FileBytes, start: Place, t: Trace, b: ReadBudget)
    requires Sound(final, start, t) && b.maxPartialBytes < MAX_BATCHES * b.maxBytes
    ensures Progresses(final, start, t, b)
  {
    assert final[..|final|] == final;
    PassOutcome(final, start, t, b, |final|, |final|, PassSteps(Smooth(start.identity, final, |final|)));
  }

  /** Repeated undisturbed passes over the first `end` bytes catch up with them, without a skip if their lines fit. */
  lemma {:induction false} PassesCatchUp(final: FileBytes, start: Place, t: Trace, b: ReadBudget, end: nat)
    returns (steps: seq<TailStep>)
    requires Sound(final, start, t) && t.seen <= end <= |final|
    requires b.maxPartialBytes < MAX_BATCHES * b.maxBytes
    ensures AppendOnly(final, start.identity, t, b, steps)
    ensures var next := Follow(t, b, steps);
            && Sound(final, start, next) && next.seen <= end && CaughtUp(final[..end], next.world.saved.offset)
            && (Fits(final[..end], t.base, b.maxPartialBytes) ==> next.base == t.base)
    decreases end - t.world.saved.offset
  {
    steps := PassSteps(Smooth(start.identity, final[..end], end));
    PassOutcome(final, start, t, b, end, end, steps);
    var next := Follow(t, b, steps);
    if Moved(t, next, b, end, MAX_BATCHES) {
      var more := PassesCatchUp(final, start, next, b, end);
      FollowConcat(t, b, steps, more);
      AppendOnlyConcat(final, start.identity, t, b, steps, more);
      steps := steps + more;
    }
  }

  // ----- and otherwise a pass can be stuck -----

  function Filler(n: nat): (s: Bytes)
    ensures |s| == n && NewlineFree(s)
  {
    if n == 0 then [] else Filler(n - 1) + [97]
  }

  lemma SplitFiller(n: nat)
    ensures SplitOf(Filler(n) + [NEWLINE]) == Split([Filler(n)], [])
  {
    BatchSplits([Filler(n)]);
    TerminatedSnoc([], Filler(n));
    assert [] + [Filler(n)] == [Filler(n)] && [] + Filler(n) == Filler(n);
    assert Terminated([]) == [];
  }

  lemma NoBoundaryInside(s: Bytes, n: nat, k: nat)
    requires k <= n <= |s| && NewlineFree(s[..n]) && Unterminated(s[0..k]) == []
    ensures k == 0
  {
    assert s[0..k] == s[..n][..k];
    RecordsPrefix([], s[0..k]);
    assert [] + s[0..k] == s[0..k];
  }

  /** One line as long as all batches of a pass: the pass reads that much of it, saves nothing, and so does the next. */
  lemma PassIsStuck(b: ReadBudget, start: Place) returns (final: FileBytes)
    requires MAX_BATCHES * b.maxBytes <= b.maxPartialBytes && start.offset == 0
    ensures Sound(final, start, Begin(start)) && !Progresses(final, start, Begin(start), b)
  {
    hide Follow;
    hide SplitOf;
    var n := MAX_BATCHES * b.maxBytes;
    final := Filler(n) + [NEWLINE];
    var t, all := Begin(start), |final|;
    BeginIsSound(final, start);
    assert final[..all] == final && final[0..] == final;
    var steps := PassSteps(Smooth(start.identity, final, all));
    PassReaches(final, start, t, b, all, all, steps, MAX_BATCHES);
    var next := Follow(t, b, steps);
    assert final[n] == NEWLINE && final[..n] == Filler(n);
    SplitFiller(n);
    assert Fits(final, 0, b.maxPartialBytes);
    var saved := next.world.saved.offset;
    if saved <= n {
      NoBoundaryInside(final, n, saved);
    }
  }

  /**
   * Undisturbed passes make progress from every reachable state of every file if and only if the batches of one pass
   * can outgrow the partial-record cap.
   */
  lemma ProgressIff(b: ReadBudget)
    ensures (forall final: FileBytes, start, t :: Sound(final, start, t) ==> Progresses(final, start, t, b))
            <==> b.maxPartialBytes < MAX_BATCHES * b.maxBytes
  {
    if b.maxPartialBytes < MAX_BATCHES * b.maxBytes {
      forall final: FileBytes, start, t | Sound(final, start, t)
        ensures Progresses(final, start, t, b)
      {
        PassMakesProgress(final, start, t, b);
      }
    } else {
      var start := Place(FileIdentity(0, 0), 0);
      var final := PassIsStuck(b, start);
    }
  }
}
