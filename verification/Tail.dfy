/** The durable tail loop over one transcript, with crashes between ingestion and cursor save. */
module Tail {
  import opened Core
  import opened Lines
  import opened Incremental

  /** An ingested record under its idempotency key, the absolute offset of its end. */
  datatype Delivery = Delivery(key: nat, record: Bytes)

  /** The keys a run of records beginning at offset `start` receives. */
  function Keyed(start: nat, records: seq<Bytes>): (d: seq<Delivery>)
    ensures |d| == |records|
  {
    seq(|records|, i requires 0 <= i < |records| => Delivery(start + |Terminated(records[..i + 1])|, records[i]))
  }

  /** What a whole file from `start` should deliver: each complete record once. */
  function Expected(content: Bytes, start: nat): seq<Delivery>
    requires start <= |content|
  {
    Keyed(start, Records(content[start..]))
  }

  // ----- the loop -----

  const MAX_BATCHES: nat := 4

  const PARSER_VERSION: nat := 1

  /** The durable cursor record: a file and the offset of its last saved complete record. */
  datatype Place = Place(identity: FileIdentity, offset: u64)

  /**
   * How the world treats one loop iteration: the file the read opens, whether the read worked, how many records were
   * ingested before a failure or crash, whether the cursor save landed, and, for a read that needs reconciliation,
   * the end-of-file cursor that was saved instead, if one was.
   */
  datatype BatchEnv = BatchEnv(
    file: OpenedFile, readOk: bool, ingested: nat, persisted: bool, recovery: Option<Place>)

  /** The durable part (`saved`, `delivered`), and the part a crash loses: the cursor and the batches left. */
  datatype World = World(saved: Place, delivered: seq<Delivery>, cursor: FileCursor, left: nat)

  function Resumed(saved: Place, delivered: seq<Delivery>): World {
    World(saved, delivered, ResumeFromComplete(saved.identity, saved.offset, PARSER_VERSION), MAX_BATCHES)
  }

  function BatchStep(w: World, b: ReadBudget, env: BatchEnv): World {
    if w.left == 0 then w
    else if !env.readOk then w.(left := 0)
    else
      match ReadOf(env.file, w.cursor, b)
      case ReconcileRequired(_) =>
        w.(left := 0, saved := if env.recovery.Some? then env.recovery.value else w.saved)
      case Batch(batch) =>
        var delivered := w.delivered
                         + Keyed(w.cursor.completeOffset, batch.records)[..Min(env.ingested, |batch.records|)];
        if env.ingested < |batch.records| || !env.persisted then w.(left := 0, delivered := delivered)
        else
          World(Place(batch.cursor.identity, batch.cursor.completeOffset), delivered, batch.cursor,
                if batch.continuationRequired then w.left - 1 else 0)
  }

  function Pass(w: World, b: ReadBudget, envs: seq<BatchEnv>): World {
    if envs == [] then w else BatchStep(Pass(w, b, envs[..|envs| - 1]), b, envs[|envs| - 1])
  }

  // ----- the running sum of record lengths -----

  lemma KeyedPrefix(start: nat, a: seq<Bytes>, b: seq<Bytes>)
    requires a <= b
    ensures Keyed(start, a) <= Keyed(start, b)
  {
    forall i | 0 <= i < |a|
      ensures Keyed(start, a)[i] == Keyed(start, b)[i]
    {
      assert a[..i + 1] == b[..i + 1];
    }
  }

  lemma KeyedConcat(start: nat, a: seq<Bytes>, b: seq<Bytes>)
    ensures Keyed(start, a + b) == Keyed(start, a) + Keyed(start + |Terminated(a)|, b)
  {
    KeyedPrefix(start, a, a + b);
    forall j | |a| <= j < |a| + |b|
      ensures Keyed(start, a + b)[j] == Keyed(start + |Terminated(a)|, b)[j - |a|]
    {
      TerminatedConcat(a, b[..j - |a| + 1]);
      assert (a + b)[..j + 1] == a + b[..j - |a| + 1];
    }
  }

  lemma NextKey(records: seq<Bytes>, i: nat)
    requires i < |records|
    ensures |Terminated(records[..i + 1])| == |Terminated(records[..i])| + |records[i]| + 1
    ensures |Terminated(records[..i + 1])| <= |Terminated(records)|
  {
    TerminatedAt(records, i);
  }

  /** Keys grow strictly with position, so no key is shared by two records. */
  lemma KeysIncrease(start: nat, records: seq<Bytes>, i: nat, j: nat)
    requires i < j < |records|
    ensures start < Keyed(start, records)[i].key < Keyed(start, records)[j].key
  {
    NextKey(records, i);
    var gap := records[i + 1..j + 1];
    TerminatedConcat(records[..i + 1], gap);
    assert records[..j + 1] == records[..i + 1] + gap;
    NextKey(gap, 0);
  }

  // ----- the imperative pass -----

  class TranscriptTail {
    var saved: Place
    var delivered: seq<Delivery>

    constructor (start: Place)
      ensures saved == start && delivered == []
    {
      saved, delivered := start, [];
    }

    /** Ingest records in order under keys from the running offset, stopping after `limit` of them. */
    method Ingest(records: seq<Bytes>, start: nat, limit: nat) returns (completeOffset: nat, ok: bool)
      requires start + |Terminated(records)| <= U64_MAX
      modifies this`delivered
      ensures ok <==> limit >= |records|
      ensures delivered == old(delivered) + Keyed(start, records)[..Min(limit, |records|)]
      ensures ok ==> completeOffset == start + |Terminated(records)|
    {
      completeOffset := start;
      var i := 0;
      while i < |records|
        invariant 0 <= i <= |records| && i <= limit
        invariant completeOffset == start + |Terminated(records[..i])|
        invariant delivered == old(delivered) + Keyed(start, records)[..i]
      {
        if i == limit {
          return completeOffset, false;
        }
        NextKey(records, i);
        completeOffset := SatAdd(SatAdd(completeOffset, |records[i]|), 1);
        delivered := delivered + [Delivery(completeOffset, records[i])];
        i := i + 1;
      }
      assert records[..i] == records;
      ok := true;
    }

    /**
     * One pass: resume from the saved place and run batches until one stops the loop or the bound is reached. The
     * locally summed offset is, at every batch end, the batch cursor's own complete offset, whatever the files hold.
     */
    method Tail(budget: ReadBudget, envs: seq<BatchEnv>) returns (cursor: FileCursor)
      requires |envs| == MAX_BATCHES
      modifies this
      ensures World(saved, delivered, cursor, 0) == Pass(Resumed(old(saved), old(delivered)), budget, envs)
    {
      ghost var w0 := Resumed(saved, delivered);
      cursor := ResumeFromComplete(saved.identity, saved.offset, PARSER_VERSION);
      var completeOffset := cursor.completeOffset;
      var running, n := true, 0;
      while n < MAX_BATCHES && running
        invariant 0 <= n <= MAX_BATCHES
        invariant World(saved, delivered, cursor, if running then MAX_BATCHES - n else 0) == Pass(w0, budget, envs[..n])
        invariant running ==> cursor.completeOffset == completeOffset && Shaped(cursor)
      {
        var env := envs[n];
        assert envs[..n + 1][..n] == envs[..n];
        n := n + 1;
        if !env.readOk {
          running := false;
          continue;
        }
        var outcome := Read(env.file, cursor, budget);
        if outcome.ReconcileRequired? {
          running := false;
          if env.recovery.Some? {
            saved := env.recovery.value;
          }
          continue;
        }
        ReadKeepsShape(env.file, cursor, budget);
        var ok;
        completeOffset, ok := Ingest(outcome.batch.records, completeOffset, env.ingested);
        if !ok || !env.persisted {
          running := false;
          continue;
        }
        cursor := outcome.batch.cursor;
        saved, running := Place(cursor.identity, cursor.completeOffset), outcome.batch.continuationRequired;
      }
      StoppedStays(w0, budget, envs, n);
    }
  }

  lemma {:induction false} StoppedStays(w: World, b: ReadBudget, envs: seq<BatchEnv>, n: nat)
    requires n <= |envs| && (n == |envs| || Pass(w, b, envs[..n]).left == 0)
    ensures Pass(w, b, envs) == Pass(w, b, envs[..n])
    decreases |envs|
  {
    if n == |envs| {
      assert envs[..n] == envs;
    } else {
      var before := envs[..|envs| - 1];
      assert before[..n] == envs[..n];
      StoppedStays(w, b, before, n);
    }
  }

  /** The deliveries of a pass, after those it began with: in the order of their keys, none beyond `end`. */
  ghost predicate InKeyOrder(earlier: seq<Delivery>, delivered: seq<Delivery>, end: nat) {
    && earlier <= delivered
    && (forall i :: |earlier| <= i < |delivered| ==> delivered[i].key <= end)
    && forall i, j :: |earlier| <= i < j < |delivered| ==> delivered[i].key < delivered[j].key
  }

  lemma AppendInKeyOrder(earlier: seq<Delivery>, delivered: seq<Delivery>, end: nat, records: seq<Bytes>, n: nat)
    requires InKeyOrder(earlier, delivered, end) && n <= |records|
    ensures InKeyOrder(earlier, delivered + Keyed(end, records)[..n], end + |Terminated(records)|)
  {
    var next := Keyed(end, records);
    KeysBounded(end, records);
    forall i, j | 0 <= i < j < |records|
      ensures next[i].key < next[j].key
    {
      KeysIncrease(end, records, i, j);
    }
    assert forall i :: 0 <= i < |records| ==> next[i] in next;
  }

  lemma BatchInKeyOrder(w: World, earlier: seq<Delivery>, end: nat, b: ReadBudget, env: BatchEnv) returns (next: nat)
    requires InKeyOrder(earlier, w.delivered, end)
    requires w.left > 0 ==> Shaped(w.cursor) && w.cursor.completeOffset == end
    ensures InKeyOrder(earlier, BatchStep(w, b, env).delivered, next)
    ensures BatchStep(w, b, env).left > 0 ==>
              Shaped(BatchStep(w, b, env).cursor) && BatchStep(w, b, env).cursor.completeOffset == next
  {
    hide InKeyOrder, ReadOf, BatchOf, Keyed, Terminated;
    next := end;
    if w.left > 0 && env.readOk && ReadOf(env.file, w.cursor, b).Batch? {
      var batch := ReadOf(env.file, w.cursor, b).batch;
      BatchIsBatchOf(env.file, w.cursor, b);
      ReadKeepsShape(env.file, w.cursor, b);
      AppendInKeyOrder(earlier, w.delivered, end, batch.records, Min(env.ingested, |batch.records|));
      next := end + |Terminated(batch.records)|;
    }
  }

  lemma BatchIsBatchOf(file: OpenedFile, c: FileCursor, b: ReadBudget)
    ensures ReadOf(file, c, b).Batch? ==> ReadOf(file, c, b).batch == BatchOf(file, c, b)
  {
  }

  /** Whatever files it finds, a pass only adds deliveries, in the order of their keys. */
  lemma {:induction false} PassDeliversInOrder(saved: Place, earlier: seq<Delivery>, b: ReadBudget, envs: seq<BatchEnv>)
    returns (end: nat)
    ensures InKeyOrder(earlier, Pass(Resumed(saved, earlier), b, envs).delivered, end)
    ensures var w := Pass(Resumed(saved, earlier), b, envs);
            w.left > 0 ==> Shaped(w.cursor) && w.cursor.completeOffset == end
  {
    hide BatchStep;
    if envs == [] {
      end := saved.offset;
    } else {
      end := PassDeliversInOrder(saved, earlier, b, envs[..|envs| - 1]);
      var w := Pass(Resumed(saved, earlier), b, envs[..|envs| - 1]);
      end := BatchInKeyOrder(w, earlier, end, b, envs[|envs| - 1]);
    }
  }

  // ----- whole histories: passes, crashes and appends in any order -----

  /** `Resume` starts a pass, and is also what a crash at any point leads to. */
  datatype TailStep = Resume | Iterate(env: BatchEnv)

  /** The world, where its current uninterrupted stretch of the file began, and how much of the file was seen. */
  datatype Trace = Trace(world: World, base: nat, seen: nat)

  ghost function Begin(start: Place): Trace {
    Trace(Resumed(start, []), start.offset, start.offset)
  }

  predicate Opens(w: World, env: BatchEnv) {
    w.left > 0 && env.readOk
  }

  /** The saved place jumps: the read needs reconciliation and an end-of-file cursor is saved. */
  predicate Skips(w: World, b: ReadBudget, env: BatchEnv) {
    Opens(w, env) && ReadOf(env.file, w.cursor, b).ReconcileRequired? && env.recovery.Some?
  }

  ghost function Stepped(t: Trace, b: ReadBudget, step: TailStep): Trace {
    match step
    case Resume => t.(world := Resumed(t.world.saved, t.world.delivered))
    case Iterate(env) =>
      var next := BatchStep(t.world, b, env);
      if !Opens(t.world, env) then t.(world := next)
      else if Skips(t.world, b, env) then Trace(next, env.recovery.value.offset, env.recovery.value.offset)
      else Trace(next, t.base, |env.file.content|)
  }

  ghost function Follow(t: Trace, b: ReadBudget, steps: seq<TailStep>): Trace {
    if steps == [] then t else Stepped(Follow(t, b, steps[..|steps| - 1]), b, steps[|steps| - 1])
  }

  /** The step opens a stage of the file that ends as `final`, not before anything seen of it. */
  ghost predicate Staged(final: FileBytes, identity: FileIdentity, t: Trace, b: ReadBudget, step: TailStep) {
    step.Iterate? && Opens(t.world, step.env) ==>
      var file := step.env.file;
      && file.identity == identity
      && t.seen <= file.statLen <= |file.content|
      && file.content <= final
      && (Skips(t.world, b, step.env) ==>
            && step.env.recovery.value.identity == identity
            && |file.content| <= step.env.recovery.value.offset <= |final|)
  }

  /** Every step reads a stage of the one append-only file that ends as `final`. */
  ghost predicate AppendOnly(
    final: FileBytes, identity: FileIdentity, t: Trace, b: ReadBudget, steps: seq<TailStep>)
  {
    steps == [] ||
    var before := steps[..|steps| - 1];
    AppendOnly(final, identity, t, b, before) && Staged(final, identity, Follow(t, b, before), b, steps[|steps| - 1])
  }

  ghost predicate Within(a: seq<Delivery>, b: seq<Delivery>) {
    forall d :: d in a ==> d in b
  }

  ghost predicate UniqueKeys(delivered: seq<Delivery>) {
    forall d, e :: d in delivered && e in delivered && d.key == e.key ==> d == e
  }

  /** The delivered bytes are newline-free and stand in the file just before the newline that ends at the key. */
  ghost predicate Fragment(final: Bytes, start: nat, d: Delivery) {
    && start + |d.record| < d.key <= |final|
    && final[d.key - 1] == NEWLINE && NewlineFree(d.record)
    && d.record == final[d.key - 1 - |d.record|..d.key - 1]
  }

  /** The history invariant, stated against the final file alone. */
  ghost predicate Sound(final: Bytes, start: Place, t: Trace) {
    var w := t.world;
    && start.offset <= t.base <= w.saved.offset <= t.seen <= |final|
    && w.saved.identity == start.identity
    && Unterminated(final[t.base..w.saved.offset]) == []
    && Within(Keyed(t.base, Records(final[t.base..w.saved.offset])), w.delivered)
    && (forall d :: d in w.delivered ==> d.key <= t.seen && Fragment(final, start.offset, d))
    && (forall d :: d in w.delivered && d.key > t.base ==> d in Expected(final, t.base))
    && UniqueKeys(w.delivered)
    && (w.left > 0 ==> Tracks(final[..t.seen], w.cursor) && w.cursor.completeOffset == w.saved.offset
                       && w.cursor.identity == start.identity)
  }

  /** What a file is expected to deliver grows with the file. */
  lemma ExpectedGrows(final: Bytes, start: nat, end: nat)
    requires start <= end <= |final|
    ensures Keyed(start, Records(final[start..end])) <= Expected(final, start)
  {
    RecordsPrefix(final[start..end], final[end..]);
    assert final[start..end] + final[end..] == final[start..];
    KeyedPrefix(start, Records(final[start..end]), Records(final[start..]));
  }

  lemma BoundarySpells(s: Bytes)
    requires Unterminated(s) == []
    ensures s == Terminated(Records(s))
  {
    SplitRoundTrip(s);
  }

  lemma KeyedStretch(start: nat, s: Bytes, records: seq<Bytes>)
    requires Unterminated(s) == []
    ensures Keyed(start, Records(s) + records) == Keyed(start, Records(s)) + Keyed(start + |s|, records)
  {
    BoundarySpells(s);
    KeyedConcat(start, Records(s), records);
  }

  /** A batch read at a boundary delivers the next stretch of what the whole file should deliver. */
  lemma BatchIsExpected(final: Bytes, start: nat, saved: nat, end: nat, records: seq<Bytes>)
    requires start <= saved <= end <= |final|
    requires Unterminated(final[start..saved]) == []
    requires final[saved..end] == Terminated(records) && AllNewlineFree(records)
    ensures Unterminated(final[start..end]) == []
    ensures Keyed(start, Records(final[start..end]))
         == Keyed(start, Records(final[start..saved])) + Keyed(saved, records)
    ensures Keyed(start, Records(final[start..end])) <= Expected(final, start)
  {
    ExpectedGrows(final, start, end);
    var done := Records(final[start..saved]);
    EmittedGrows(final, start, saved, end, done, records);
    KeyedStretch(start, final[start..saved], records);
  }

  lemma TracksInFinal(content: Bytes, final: Bytes, c: FileCursor)
    requires Tracks(content, c)
    requires content <= final || (final <= content && c.readOffset <= |final|)
    ensures Tracks(final, c)
  {
    assert final[c.completeOffset..c.readOffset] == content[c.completeOffset..c.readOffset];
  }

  /** At a sound state, the records the next read finds are the file's next complete records. */
  lemma NextBatch(final: FileBytes, start: Place, t: Trace, b: ReadBudget, env: BatchEnv)
    requires Sound(final, start, t) && Opens(t.world, env) && Staged(final, start.identity, t, b, Iterate(env))
    ensures var batch, saved := BatchOf(env.file, t.world.cursor, b), t.world.saved.offset;
            && ReadOf(env.file, t.world.cursor, b)
            == (if |batch.cursor.partial| > b.maxPartialBytes then ReconcileRequired(PartialRecordTooLarge)
                else Batch(batch))
            && saved <= batch.cursor.completeOffset <= batch.cursor.readOffset <= |env.file.content|
            && final[saved..batch.cursor.completeOffset] == Terminated(batch.records)
            && AllNewlineFree(batch.records)
            && Tracks(env.file.content, batch.cursor)
  {
    var content, c := env.file.content, t.world.cursor;
    TracksInFinal(final[..t.seen], content, c);
    ReadAdvances(env.file, c, b);
    var end := BatchOf(env.file, c, b).cursor.completeOffset;
    assert content[t.world.saved.offset..end] == final[t.world.saved.offset..end];
  }

  /** Where a complete record stands. */
  lemma RecordStands(s: Bytes, i: nat)
    requires i < |Records(s)|
    ensures var at, record := |Terminated(Records(s)[..i])|, Records(s)[i];
            && at + |record| < |s| && s[at..at + |record|] == record && s[at + |record|] == NEWLINE
            && NewlineFree(record) && |Terminated(Records(s)[..i + 1])| == at + |record| + 1
  {
    hide SplitOf;
    hide Terminated;
    var records := Records(s);
    SplitRoundTrip(s);
    TerminatedAt(records, i);
    assert Terminated(records) <= s;
    LineStands(s, Terminated(records[..i]), records[i]);
  }

  lemma LineStands(s: Bytes, before: Bytes, line: Bytes)
    requires before + line + [NEWLINE] <= s
    ensures s[|before|..|before| + |line|] == line && s[|before| + |line|] == NEWLINE
  {
    var all := before + line + [NEWLINE];
    assert s[|before|..|before| + |line|] == all[|before|..|before| + |line|];
  }

  lemma StandsInFile(final: Bytes, base: nat, at: nat, d: Delivery)
    requires d.key == base + at + |d.record| + 1 <= |final| && NewlineFree(d.record)
    requires final[base..][at..at + |d.record|] == d.record && final[base..][at + |d.record|] == NEWLINE
    ensures Fragment(final, base, d)
  {
    assert final[base + at..base + at + |d.record|] == final[base..][at..at + |d.record|];
  }

  lemma ExpectedIsFragment(final: Bytes, base: nat, d: Delivery)
    requires base <= |final| && d in Expected(final, base)
    ensures base < d.key && Fragment(final, base, d)
  {
    var s := final[base..];
    var i :| 0 <= i < |Records(s)| && Keyed(base, Records(s))[i] == d;
    RecordStands(s, i);
    var at := |Terminated(Records(s)[..i])|;
    assert d.key == base + at + |d.record| + 1;
    StandsInFile(final, base, at, d);
  }

  lemma KeyNamesRecord(final: Bytes, start: nat, d: Delivery, e: Delivery)
    requires start <= |final| && d in Expected(final, start) && e in Expected(final, start) && d.key == e.key
    ensures d == e
  {
    var all, records := Expected(final, start), Records(final[start..]);
    var i: nat :| i < |all| && all[i] == d;
    var j: nat :| j < |all| && all[j] == e;
    if i < j {
      KeysIncrease(start, records, i, j);
    } else if j < i {
      KeysIncrease(start, records, j, i);
    }
  }

  /** New deliveries from the current stretch keep keys unique: older stretches have keys at or below its base. */
  lemma DeliverUnique(final: Bytes, start: Place, t: Trace, next: seq<Delivery>)
    requires Sound(final, start, t)
    requires forall d :: d in next ==> d in Expected(final, t.base)
    ensures UniqueKeys(t.world.delivered + next)
    ensures forall d :: d in t.world.delivered + next ==> Fragment(final, start.offset, d)
  {
    var delivered := t.world.delivered + next;
    forall d | d in next
      ensures d.key > t.base && Fragment(final, start.offset, d)
    {
      ExpectedIsFragment(final, t.base, d);
    }
    forall d, e | d in delivered && e in delivered && d.key == e.key
      ensures d == e
    {
      if d in next || e in next {
        KeyNamesRecord(final, t.base, d, e);
      }
    }
  }

  /** Delivering some of a stretch stays within what is expected; delivering all of it covers the stretch. */
  lemma DeliverSome(delivered: seq<Delivery>, done: seq<Delivery>, next: seq<Delivery>, n: nat)
    requires n <= |next| && Within(done, delivered)
    ensures Within(next[..n], next)
    ensures Within(done, delivered + next[..n])
    ensures n == |next| ==> Within(done + next, delivered + next[..n])
  {
    if n == |next| {
      assert next[..n] == next;
    }
  }

  lemma StretchIsExpected(done: seq<Delivery>, next: seq<Delivery>, expected: seq<Delivery>)
    requires done + next <= expected
    ensures Within(next, expected)
  {
    forall d | d in next
      ensures d in expected
    {
      var i :| 0 <= i < |next| && next[i] == d;
      assert expected[|done| + i] == (done + next)[|done| + i];
    }
  }

  lemma BatchKeepsSound(final: FileBytes, start: Place, t: Trace, b: ReadBudget, env: BatchEnv)
    requires Sound(final, start, t) && Opens(t.world, env) && Staged(final, start.identity, t, b, Iterate(env))
    requires ReadOf(env.file, t.world.cursor, b).Batch?
    ensures Sound(final, start, Stepped(t, b, Iterate(env)))
  {
    NextBatch(final, start, t, b, env);
    var batch, saved := BatchOf(env.file, t.world.cursor, b), t.world.saved.offset;
    var end, n := batch.cursor.completeOffset, Min(env.ingested, |batch.records|);
    var next := Keyed(saved, batch.records);
    BatchIsExpected(final, t.base, saved, end, batch.records);
    var done := Keyed(t.base, Records(final[t.base..saved]));
    StretchIsExpected(done, next, Expected(final, t.base));
    DeliverSome(t.world.delivered, done, next, n);
    DeliverUnique(final, start, t, next[..n]);
    KeysBounded(saved, batch.records);
    assert final[..|env.file.content|] == env.file.content;
  }

  lemma KeysBounded(start: nat, records: seq<Bytes>)
    ensures forall d :: d in Keyed(start, records) ==> start < d.key <= start + |Terminated(records)|
  {
    forall i | 0 <= i < |records|
      ensures start < Keyed(start, records)[i].key <= start + |Terminated(records)|
    {
      NextKey(records, i);
    }
  }

  lemma SkipKeepsSound(final: FileBytes, start: Place, t: Trace, b: ReadBudget, env: BatchEnv)
    requires Sound(final, start, t) && Skips(t.world, b, env) && Staged(final, start.identity, t, b, Iterate(env))
    ensures Sound(final, start, Stepped(t, b, Iterate(env)))
  {
    var at := env.recovery.value.offset;
    assert final[at..at] == [];
  }

  lemma StepKeepsSound(final: FileBytes, start: Place, t: Trace, b: ReadBudget, step: TailStep)
    requires Sound(final, start, t) && Staged(final, start.identity, t, b, step)
    ensures Sound(final, start, Stepped(t, b, step))
  {
    match step
    case Resume =>
      assert final[..t.seen][t.world.saved.offset..t.world.saved.offset] == [];
    case Iterate(env) =>
      if Opens(t.world, env) {
        if ReadOf(env.file, t.world.cursor, b).Batch? {
          BatchKeepsSound(final, start, t, b, env);
        } else if env.recovery.Some? {
          SkipKeepsSound(final, start, t, b, env);
        }
      }
  }

  lemma {:induction false} HistoryIsSound(
    final: FileBytes, start: Place, t: Trace, b: ReadBudget, steps: seq<TailStep>)
    requires Sound(final, start, t) && AppendOnly(final, start.identity, t, b, steps)
    ensures Sound(final, start, Follow(t, b, steps))
  {
    if steps != [] {
      HistoryIsSound(final, start, t, b, steps[..|steps| - 1]);
      StepKeepsSound(final, start, Follow(t, b, steps[..|steps| - 1]), b, steps[|steps| - 1]);
    }
  }

  lemma BeginIsSound(final: FileBytes, start: Place)
    requires start.offset <= |final|
    ensures Sound(final, start, Begin(start))
  {
    assert final[start.offset..start.offset] == [];
    assert final[..start.offset][start.offset..start.offset] == [];
  }

  /**
   * Crash-safe tailing of one append-only file, with lines of any length. Whatever the crashes, failures, batch
   * boundaries and skips, no key is shared by two different records, what is delivered under a key are bytes that
   * end where the key says, and since the last skip nothing before the saved offset is missing and nothing else was
   * delivered.
   */
  lemma ExactlyOnceTailing(final: FileBytes, start: Place, b: ReadBudget, steps: seq<TailStep>)
    requires start.offset <= |final| && AppendOnly(final, start.identity, Begin(start), b, steps)
    ensures var t := Follow(Begin(start), b, steps);
            && start.offset <= t.base <= t.world.saved.offset <= |final|
            && UniqueKeys(t.world.delivered)
            && (forall d :: d in t.world.delivered ==> Fragment(final, start.offset, d))
            && (forall d :: d in t.world.delivered && d.key > t.base ==> d in Expected(final, t.base))
            && Within(Keyed(t.base, Records(final[t.base..t.world.saved.offset])), t.world.delivered)
  {
    BeginIsSound(final, start);
    HistoryIsSound(final, start, Begin(start), b, steps);
  }
}
