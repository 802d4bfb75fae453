/** The bounded incremental reader of append-only logs. */
module Incremental {
  import opened Core
  import opened Lines

  datatype FileIdentity = FileIdentity(device: u64, inode: u64)

  datatype FileCursor = FileCursor(
    identity: FileIdentity,
    readOffset: u64,
    completeOffset: u64,
    partial: Bytes,
    parserVersion: nat)

  datatype RawBudget = ReadBudget(maxBytes: u64, maxPartialBytes: u64, maxRecords: u64)

  type ReadBudget = b: RawBudget | b.maxBytes > 0 && b.maxPartialBytes > 0 && b.maxRecords > 0
    witness ReadBudget(1, 1, 1)

  /** One open file: the length `metadata` reported, and the bytes a later read of the handle can see. */
  datatype OpenedFile = OpenedFile(identity: FileIdentity, statLen: nat, content: FileBytes)

  type FileBytes = s: Bytes | |s| <= U64_MAX

  datatype ReconcileReason = Replaced | Truncated | PartialRecordTooLarge

  datatype AppendedRecords = AppendedRecords(
    records: seq<Bytes>, cursor: FileCursor, bytesRead: nat, continuationRequired: bool)

  datatype ReadOutcome = Batch(batch: AppendedRecords) | ReconcileRequired(reason: ReconcileReason)

  function ResumeFromComplete(identity: FileIdentity, offset: u64, parserVersion: nat): FileCursor {
    FileCursor(identity, offset, offset, [], parserVersion)
  }

  function Available(file: OpenedFile, c: FileCursor): Bytes {
    if c.readOffset <= |file.content| then file.content[c.readOffset..] else []
  }

  /** The carried partial record followed by the bytes one read may inspect. */
  function Window(file: OpenedFile, c: FileCursor, b: ReadBudget): Bytes {
    c.partial + Available(file, c)[..Min(b.maxBytes, |Available(file, c)|)]
  }

  /** The records one read takes from its window: all complete ones, up to the record budget. */
  function Taken(window: Bytes, b: ReadBudget): seq<Bytes> {
    if Exhausted(window, b) then Records(window)[..b.maxRecords] else Records(window)
  }

  predicate Exhausted(window: Bytes, b: ReadBudget) {
    |Records(window)| > b.maxRecords
  }

  function Leftover(window: Bytes, b: ReadBudget): Bytes {
    if Exhausted(window, b) then [] else Unterminated(window)
  }

  /** What one read answers, in terms of the newline split of its window. */
  function ReadOf(file: OpenedFile, c: FileCursor, b: ReadBudget): ReadOutcome {
    if file.identity != c.identity then ReconcileRequired(Replaced)
    else if file.statLen < c.readOffset then ReconcileRequired(Truncated)
    else
      var window := Window(file, c, b);
      if |Leftover(window, b)| > b.maxPartialBytes then ReconcileRequired(PartialRecordTooLarge)
      else Batch(BatchOf(file, c, b))
  }

  function BatchOf(file: OpenedFile, c: FileCursor, b: ReadBudget): AppendedRecords {
    var window := Window(file, c, b);
    var bytesRead := |window| - |c.partial|;
    var exhausted := Exhausted(window, b);
    var taken, partial := Taken(window, b), Leftover(window, b);
    var fileBytes := if exhausted then SatSub(|Terminated(taken)|, |c.partial|) else bytesRead;
    var readOffset := SatAdd(c.readOffset, fileBytes);
    AppendedRecords(
      taken,
      FileCursor(file.identity, readOffset, SatSub(readOffset, |partial|), partial, c.parserVersion),
      bytesRead,
      |Available(file, c)| > b.maxBytes || exhausted || readOffset < file.statLen)
  }

  /** The reader's loop over its buffer finds the records of the newline split. */
  method TakeRecords(buffer: Bytes, budget: ReadBudget) returns (records: seq<Bytes>, consumed: nat)
    ensures records == Taken(buffer, budget) && consumed == |Terminated(records)| <= |buffer|
    ensures Exhausted(buffer, budget) <==> |records| == budget.maxRecords && NEWLINE in buffer[consumed..]
    ensures !Exhausted(buffer, budget) ==> buffer[consumed..] == Unterminated(buffer)
  {
    records := [];
    var recordStart, index := 0, 0;
    consumed := 0;
    while index < |buffer|
      invariant 0 <= recordStart == consumed <= index <= |buffer|
      invariant |records| < budget.maxRecords
      invariant Scanned(buffer, index, consumed, records)
    {
      ScanByte(buffer, index, consumed, records);
      index := index + 1;
      if buffer[index - 1] != NEWLINE {
        continue;
      }
      records := records + [buffer[recordStart..index - 1]];
      consumed := index;
      recordStart := consumed;
      if |records| == budget.maxRecords {
        break;
      }
    }
    ScanEnds(buffer, budget, index, consumed, records);
  }

  /** The scan has seen everything, or has just filled the record budget. */
  lemma ScanEnds(buffer: Bytes, b: ReadBudget, index: nat, consumed: nat, records: seq<Bytes>)
    requires Scanned(buffer, index, consumed, records) && |records| <= b.maxRecords
    requires (index == |buffer| && |records| < b.maxRecords) || (consumed == index && |records| == b.maxRecords)
    ensures records == Taken(buffer, b) && consumed == |Terminated(records)|
    ensures Exhausted(buffer, b) <==> |records| == b.maxRecords && NEWLINE in buffer[consumed..]
    ensures !Exhausted(buffer, b) ==> buffer[consumed..] == Unterminated(buffer)
  {
    WindowSplit(buffer, index, consumed, records);
  }

  /** The first `index` bytes are `records` followed by the unfinished bytes from `consumed`. */
  ghost predicate Scanned(buffer: Bytes, index: nat, consumed: nat, records: seq<Bytes>) {
    consumed <= index <= |buffer| && SplitOf(buffer[..index]) == Split(records, buffer[consumed..index])
  }

  lemma ScanByte(buffer: Bytes, index: nat, consumed: nat, records: seq<Bytes>)
    requires Scanned(buffer, index, consumed, records) && index < |buffer|
    ensures buffer[index] == NEWLINE ==>
              Scanned(buffer, index + 1, index + 1, records + [buffer[consumed..index]])
    ensures buffer[index] != NEWLINE ==> Scanned(buffer, index + 1, consumed, records)
  {
    SplitSnoc(buffer[..index], buffer[index]);
    assert buffer[..index + 1] == buffer[..index] + [buffer[index]];
    assert buffer[consumed..index + 1] == buffer[consumed..index] + [buffer[index]];
  }

  /** What a scan that stopped after `index` bytes has learnt about the whole buffer. */
  lemma WindowSplit(buffer: Bytes, index: nat, consumed: nat, records: seq<Bytes>)
    requires consumed <= index <= |buffer|
    requires SplitOf(buffer[..index]) == Split(records, buffer[consumed..index])
    ensures |Terminated(records)| == consumed
    ensures records <= Records(buffer)
    ensures index == |buffer| || consumed == index ==>
              if NewlineFree(buffer[consumed..])
              then SplitOf(buffer) == Split(records, buffer[consumed..])
              else |Records(buffer)| > |records|
    ensures index == |buffer| ==> NewlineFree(buffer[consumed..])
  {
    SplitRoundTrip(buffer[..index]);
    RecordsPrefix(buffer[..index], buffer[index..]);
    assert buffer == buffer[..index] + buffer[index..];
    if index == |buffer| {
      assert buffer[..index] == buffer;
    } else if consumed == index {
      assert [] + buffer[index..] == buffer[index..];
    }
  }

  /** One bounded read refines `ReadOf`. */
  method Read(file: OpenedFile, cursor: FileCursor, budget: ReadBudget) returns (outcome: ReadOutcome)
    ensures outcome == ReadOf(file, cursor, budget)
  {
    if file.identity != cursor.identity {
      return ReconcileRequired(Replaced);
    }
    if file.statLen < cursor.readOffset {
      return ReconcileRequired(Truncated);
    }
    var appended := Available(file, cursor);
    var readLimit := SatAdd(budget.maxBytes, 1);
    appended := appended[..Min(readLimit, |appended|)];
    var exceededByteBudget := |appended| > budget.maxBytes;
    if exceededByteBudget {
      appended := appended[..budget.maxBytes];
    }
    var bytesRead := |appended|;
    var buffer := cursor.partial + appended;
    assert buffer == Window(file, cursor, budget);
    var records, consumed := TakeRecords(buffer, budget);
    var recordBudgetExhausted := |records| == budget.maxRecords && NEWLINE in buffer[consumed..];
    var fileBytesConsumed, partial;
    if recordBudgetExhausted {
      fileBytesConsumed, partial := SatSub(consumed, |cursor.partial|), [];
    } else {
      partial := buffer[consumed..];
      if |partial| > budget.maxPartialBytes {
        return ReconcileRequired(PartialRecordTooLarge);
      }
      fileBytesConsumed := bytesRead;
    }
    var readOffset := SatAdd(cursor.readOffset, fileBytesConsumed);
    var completeOffset := SatSub(readOffset, |partial|);
    var continuationRequired := exceededByteBudget || recordBudgetExhausted || readOffset < file.statLen;
    outcome := Batch(AppendedRecords(
                       records,
                       FileCursor(file.identity, readOffset, completeOffset, partial, cursor.parserVersion),
                       bytesRead,
                       continuationRequired));
  }

  /**
   * Why a read gives up: another file, a shorter one, or more unfinished bytes than the cap behind records that fit the
   * record budget. In every other case it answers a batch.
   */
  lemma ReconcileReasons(file: OpenedFile, c: FileCursor, b: ReadBudget)
    ensures var r, window := ReadOf(file, c, b), Window(file, c, b);
            && (file.identity != c.identity <==> r == ReconcileRequired(Replaced))
            && (file.identity == c.identity && file.statLen < c.readOffset <==> r == ReconcileRequired(Truncated))
            && (file.identity == c.identity && file.statLen >= c.readOffset
                && |Records(window)| <= b.maxRecords && |Unterminated(window)| > b.maxPartialBytes
                <==> r == ReconcileRequired(PartialRecordTooLarge))
  {
  }

  // ----- what every cursor means -----

  /** `c` carries exactly the newline-free slice between its two offsets. */
  ghost predicate Tracks(content: Bytes, c: FileCursor) {
    && c.completeOffset <= c.readOffset <= |content|
    && c.partial == content[c.completeOffset..c.readOffset]
    && NewlineFree(c.partial)
  }

  ghost function WindowEnd(content: Bytes, c: FileCursor, b: ReadBudget): nat
    requires c.readOffset <= |content|
  {
    c.readOffset + Min(b.maxBytes, |content| - c.readOffset)
  }

  lemma WindowSlice(file: OpenedFile, c: FileCursor, b: ReadBudget)
    requires Tracks(file.content, c)
    ensures Window(file, c, b) == file.content[c.completeOffset..WindowEnd(file.content, c, b)]
    ensures |Window(file, c, b)| == WindowEnd(file.content, c, b) - c.completeOffset
  {
  }

  /** The records taken from a window spell its beginning, and the leftover is the rest unless the budget ran out. */
  lemma {:induction false} TakenSpells(window: Bytes, free: nat, b: ReadBudget)
    requires free <= |window| && NewlineFree(window[..free])
    ensures var complete := |Terminated(Taken(window, b))|;
            && AllNewlineFree(Taken(window, b))
            && NewlineFree(Leftover(window, b))
            && complete <= |window| && window[..complete] == Terminated(Taken(window, b))
            && if Exhausted(window, b) then free < complete < |window| else Leftover(window, b) == window[complete..]
  {
    var lines := Records(window);
    SplitRoundTrip(window);
    if Exhausted(window, b) {
      var k := b.maxRecords;
      TerminatedConcat(lines[..k], lines[k..]);
      assert lines == lines[..k] + lines[k..];
      var last: nat := |Terminated(lines[..k])| - 1;
      assert window[last] == Terminated(lines[..k])[last] == NEWLINE;
      if last < free {
        FreeByte(window, free, last);
        assert false;
      }
    }
  }

  /** What is left over behind a taken record lies within the bytes that followed the carried partial. */
  lemma LeftoverIsNew(window: Bytes, free: nat, b: ReadBudget)
    requires free <= |window| && NewlineFree(window[..free])
    ensures Taken(window, b) != [] ==> |Leftover(window, b)| < |window| - free
    ensures |Leftover(window, b)| <= |window|
  {
    TakenSpells(window, free, b);
    var taken := Taken(window, b);
    if taken != [] {
      var last: nat := |Terminated(taken)| - 1;
      assert window[last] == Terminated(taken)[last] == NEWLINE;
      if last < free {
        FreeByte(window, free, last);
        assert false;
      }
    }
  }

  /** The carried partial is what lies between the two offsets, whatever the file now holds there. */
  ghost predicate Shaped(c: FileCursor) {
    c.readOffset == c.completeOffset + |c.partial| && NewlineFree(c.partial)
  }

  /** A batch moves the complete offset by the bytes of its records, even if the file was rewritten in place. */
  lemma {:induction false} ReadKeepsShape(file: OpenedFile, c: FileCursor, b: ReadBudget)
    requires Shaped(c)
    ensures var batch := BatchOf(file, c, b);
            Shaped(batch.cursor) && batch.cursor.completeOffset == c.completeOffset + |Terminated(batch.records)|
    ensures c.readOffset <= |file.content| ==>
              BatchOf(file, c, b).cursor.readOffset ==
              if Exhausted(Window(file, c, b), b) then BatchOf(file, c, b).cursor.completeOffset
              else WindowEnd(file.content, c, b)
    ensures c.readOffset <= |file.content| && Exhausted(Window(file, c, b), b) ==>
              c.readOffset < BatchOf(file, c, b).cursor.readOffset < WindowEnd(file.content, c, b)
  {
    var window := Window(file, c, b);
    assert window[..|c.partial|] == c.partial;
    TakenSpells(window, |c.partial|, b);
  }

  /** The records taken from a window of the file, and what is left over, stand there one after the other. */
  lemma TakenStands(content: Bytes, start: nat, free: nat, end: nat, b: ReadBudget)
    requires start <= free <= end <= |content| && NewlineFree(content[start..free])
    ensures var window := content[start..end];
            var next := start + |Terminated(Taken(window, b))|;
            && next <= end && content[start..next] == Terminated(Taken(window, b))
            && AllNewlineFree(Taken(window, b)) && NewlineFree(Leftover(window, b))
            && Leftover(window, b) == if Exhausted(window, b) then content[next..next] else content[next..end]
  {
    var window := content[start..end];
    SliceOfSlice(content, start, end, free - start);
    TakenSpells(window, free - start, b);
    SliceOfSlice(content, start, end, |Terminated(Taken(window, b))|);
  }

  lemma SliceOfSlice(s: Bytes, start: nat, end: nat, k: nat)
    requires start <= end <= |s| && k <= end - start
    ensures s[start..end][..k] == s[start..start + k] && s[start..end][k..] == s[start + k..end]
  {
  }

  /** One successful read moves the cursor over exactly the records it returns. */
  lemma {:induction false} ReadAdvances(file: OpenedFile, c: FileCursor, b: ReadBudget)
    requires Tracks(file.content, c)
    ensures var batch := BatchOf(file, c, b);
            && Tracks(file.content, batch.cursor)
            && c.completeOffset <= batch.cursor.completeOffset
            && c.readOffset <= batch.cursor.readOffset
            && file.content[c.completeOffset..batch.cursor.completeOffset] == Terminated(batch.records)
            && AllNewlineFree(batch.records)
    ensures BatchOf(file, c, b).cursor.readOffset ==
            if Exhausted(Window(file, c, b), b) then BatchOf(file, c, b).cursor.completeOffset
            else WindowEnd(file.content, c, b)
    ensures Exhausted(Window(file, c, b), b) ==>
              c.readOffset < BatchOf(file, c, b).cursor.readOffset < WindowEnd(file.content, c, b)
  {
    ReadKeepsShape(file, c, b);
    WindowSlice(file, c, b);
    TakenStands(file.content, c.completeOffset, c.readOffset, WindowEnd(file.content, c, b), b);
  }

  // ----- runs: reads under any budgets, interleaved with any appends -----

  /** `late` is appended after the read took the file's length and before it read the bytes. */
  datatype Step = Append(bytes: Bytes) | ReadStep(budget: ReadBudget, late: Bytes)

  datatype Reading = Reading(content: Bytes, cursor: FileCursor, emitted: seq<Bytes>)

  ghost function Appended(step: Step): Bytes {
    if step.Append? then step.bytes else step.late
  }

  ghost function After(r: Reading, step: Step): Reading
    requires |r.content + Appended(step)| <= U64_MAX
  {
    var content := r.content + Appended(step);
    if step.Append? then r.(content := content)
    else
      match ReadOf(OpenedFile(r.cursor.identity, |r.content|, content), r.cursor, step.budget)
      case Batch(batch) => Reading(content, batch.cursor, r.emitted + batch.records)
      case ReconcileRequired(_) => r.(content := content)
  }

  ghost function FinalContent(content: Bytes, steps: seq<Step>): Bytes {
    if steps == [] then content
    else FinalContent(content, steps[..|steps| - 1]) + Appended(steps[|steps| - 1])
  }

  ghost function Run(content: Bytes, start: FileCursor, steps: seq<Step>): (r: Reading)
    requires |FinalContent(content, steps)| <= U64_MAX
    ensures r.content == FinalContent(content, steps)
  {
    if steps == [] then Reading(content, start, [])
    else After(Run(content, start, steps[..|steps| - 1]), steps[|steps| - 1])
  }

  /** What a reader that began at offset `start` knows: its cursor, and what it has emitted. */
  ghost predicate Faithful(r: Reading, start: nat) {
    && Tracks(r.content, r.cursor)
    && start <= r.cursor.completeOffset
    && SplitOf(r.content[start..r.cursor.completeOffset]) == Split(r.emitted, [])
  }

  lemma AppendKeepsFaithful(r: Reading, start: nat, more: Bytes)
    requires Faithful(r, start)
    ensures Faithful(r.(content := r.content + more), start)
  {
    var content, c := r.content + more, r.cursor;
    assert content[start..c.completeOffset] == r.content[start..c.completeOffset];
    assert content[c.completeOffset..c.readOffset] == r.content[c.completeOffset..c.readOffset];
  }

  lemma ReadKeepsFaithful(r: Reading, start: nat, file: OpenedFile, b: ReadBudget)
    requires Faithful(r, start) && file.content == r.content
    ensures var batch := BatchOf(file, r.cursor, b);
            Faithful(Reading(r.content, batch.cursor, r.emitted + batch.records), start)
  {
    ReadAdvances(file, r.cursor, b);
    var batch := BatchOf(file, r.cursor, b);
    EmittedGrows(r.content, start, r.cursor.completeOffset, batch.cursor.completeOffset, r.emitted, batch.records);
  }

  /**
   * Chunking independence. However the file grows and however it is read, what has been emitted is the
   * newline split of the bytes from the start offset to the complete offset, and the carried partial is
   * the newline-free slice from there to the read offset.
   */
  lemma {:induction false} ChunkingIndependence(
    content: Bytes, identity: FileIdentity, start: u64, version: nat, steps: seq<Step>)
    requires start <= |content|
    requires |FinalContent(content, steps)| <= U64_MAX
    ensures Faithful(Run(content, ResumeFromComplete(identity, start, version), steps), start)
  {
    var c0 := ResumeFromComplete(identity, start, version);
    if steps == [] {
      assert content[start..start] == [];
    } else {
      var before, step := steps[..|steps| - 1], steps[|steps| - 1];
      ChunkingIndependence(content, identity, start, version, before);
      var r := Run(content, c0, before);
      AppendKeepsFaithful(r, start, Appended(step));
      if step.ReadStep? {
        var grown := r.(content := r.content + step.late);
        ReadKeepsFaithful(grown, start, OpenedFile(r.cursor.identity, |r.content|, grown.content), step.budget);
      }
    }
  }

  lemma BatchSplits(records: seq<Bytes>)
    requires AllNewlineFree(records)
    ensures SplitOf(Terminated(records)) == Split(records, [])
  {
    SplitUnique(records, []);
    assert Terminated(records) + [] == Terminated(records);
  }

  lemma SplitGrows(s: Bytes, emitted: seq<Bytes>, records: seq<Bytes>)
    requires SplitOf(s) == Split(emitted, []) && AllNewlineFree(records)
    ensures SplitOf(s + Terminated(records)) == Split(emitted + records, [])
  {
    BatchSplits(records);
    RecordsConcat(s, Terminated(records));
  }

  /** Gluing: records emitted up to `mid`, then a terminated batch from `mid` to `end`. */
  lemma EmittedGrows(content: Bytes, start: nat, mid: nat, end: nat, emitted: seq<Bytes>, records: seq<Bytes>)
    requires start <= mid <= end <= |content|
    requires SplitOf(content[start..mid]) == Split(emitted, [])
    requires content[mid..end] == Terminated(records) && AllNewlineFree(records)
    ensures SplitOf(content[start..end]) == Split(emitted + records, [])
  {
    SplitGrows(content[start..mid], emitted, records);
    assert content[start..mid] + content[mid..end] == content[start..end];
  }

  /** Cutting: a terminated batch from `start` to `mid` leaves the split of what follows. */
  lemma BatchThenRest(content: Bytes, start: nat, mid: nat, records: seq<Bytes>)
    requires start <= mid <= |content|
    requires content[start..mid] == Terminated(records) && AllNewlineFree(records)
    ensures SplitOf(content[start..]) == Split(records + Records(content[mid..]), Unterminated(content[mid..]))
  {
    BatchSplits(records);
    RecordsConcat(content[start..mid], content[mid..]);
    assert content[start..mid] + content[mid..] == content[start..];
  }

  // ----- progress -----

  /** A batch with unread bytes strictly advances, and asks for more exactly while bytes remain. */
  lemma {:induction false} ReadProgress(file: OpenedFile, c: FileCursor, b: ReadBudget)
    requires Tracks(file.content, c) && file.statLen == |file.content|
    ensures var next := BatchOf(file, c, b);
            && (c.readOffset < |file.content| ==> c.readOffset < next.cursor.readOffset)
            && (next.continuationRequired <==> next.cursor.readOffset < |file.content|)
  {
    ReadAdvances(file, c, b);
  }

  /** Every complete record from `start` fits the partial-record cap. */
  ghost predicate RecordsFit(content: Bytes, start: nat, cap: nat)
    requires start <= |content|
  {
    forall i :: 0 <= i < |Records(content[start..])| ==> |Records(content[start..])[i]| <= cap
  }

  /** Every record from `start`, and the unterminated tail, fits the cap. */
  ghost predicate Fits(content: Bytes, start: nat, cap: nat)
    requires start <= |content|
  {
    RecordsFit(content, start, cap) && |Unterminated(content[start..])| <= cap
  }

  lemma FitsLater(content: Bytes, start: nat, mid: nat, records: seq<Bytes>, cap: nat)
    requires start <= mid <= |content| && Fits(content, start, cap)
    requires content[start..mid] == Terminated(records) && AllNewlineFree(records)
    ensures Fits(content, mid, cap)
  {
    BatchThenRest(content, start, mid, records);
    var all, rest := Records(content[start..]), Records(content[mid..]);
    forall i | 0 <= i < |rest|
      ensures |rest[i]| <= cap
    {
      assert rest[i] == all[|records| + i];
    }
  }

  lemma FreeSliceFits(content: Bytes, start: nat, end: nat, cap: nat)
    requires start <= end <= |content| && NewlineFree(content[start..end]) && Fits(content, start, cap)
    ensures end - start <= cap
  {
    assert content[start..][..end - start] == content[start..end];
    FreeRunInFirst(content[start..], end - start);
    assert |Records(content[start..])| > 0 ==> |Records(content[start..])[0]| <= cap;
  }

  /** When every line fits the cap, no read of an append-only file ever asks for reconciliation. */
  lemma {:induction false} NeverTooLarge(file: OpenedFile, c: FileCursor, b: ReadBudget)
    requires Tracks(file.content, c) && file.identity == c.identity && c.readOffset <= file.statLen
    requires Fits(file.content, c.completeOffset, b.maxPartialBytes)
    ensures ReadOf(file, c, b) == Batch(BatchOf(file, c, b))
  {
    ReadAdvances(file, c, b);
    var next := BatchOf(file, c, b);
    FitsLater(file.content, c.completeOffset, next.cursor.completeOffset, next.records, b.maxPartialBytes);
    FreeSliceFits(file.content, next.cursor.completeOffset, next.cursor.readOffset, b.maxPartialBytes);
  }

  /** A line of `s`, complete or not, and the boundary where it begins. */
  lemma LineBoundary(s: Bytes, i: nat)
    requires i <= |Records(s)|
    ensures var done := Terminated(Records(s)[..i]);
            var line := if i < |Records(s)| then Records(s)[i] else Unterminated(s);
            done + line <= s && Unterminated(done) == [] && NewlineFree(line)
  {
    SplitRoundTrip(s);
    var lines := Records(s);
    BatchSplits(lines[..i]);
    if i < |lines| {
      TerminatedAt(lines, i);
    } else {
      assert lines[..i] == lines;
    }
  }

  /** A line that does not fit, and what comes before it. */
  lemma LongLineOf(s: Bytes, cap: nat) returns (done: Bytes, line: Bytes)
    requires !Fits(s, 0, cap)
    ensures done + line <= s && Unterminated(done) == [] && NewlineFree(line) && |line| > cap
  {
    assert s[0..] == s;
    var i: nat := |Records(s)|;
    if |Unterminated(s)| <= cap {
      i :| 0 <= i < |Records(s)| && |Records(s)[i]| > cap;
    }
    LineBoundary(s, i);
    done, line := Terminated(Records(s)[..i]), if i < |Records(s)| then Records(s)[i] else Unterminated(s);
  }

  /** Where a line that does not fit begins. */
  lemma LongLine(content: Bytes, start: nat, cap: nat) returns (mid: nat)
    requires start <= |content| && !Fits(content, start, cap)
    ensures start <= mid && mid + cap + 1 <= |content|
    ensures Unterminated(content[start..mid]) == []
    ensures NewlineFree(content[mid..mid + cap + 1])
  {
    assert content[start..][0..] == content[start..];
    var done, line := LongLineOf(content[start..], cap);
    SlicesOfRest(content, start, done, line);
    mid := start + |done|;
    assert content[mid..mid + cap + 1] == line[..cap + 1];
  }

  lemma SlicesOfRest(content: Bytes, start: nat, x: Bytes, y: Bytes)
    requires start <= |content| && x + y <= content[start..]
    ensures start + |x| + |y| <= |content| && content[start..start + |x|] == x
    ensures content[start + |x|..start + |x| + |y|] == y
  {
    assert content[start..start + |x|] == (x + y)[..|x|];
    assert content[start + |x|..start + |x| + |y|] == (x + y)[|x|..];
  }

  /** The cap condition is tight: if some line does not fit, some byte budget makes a read there give up. */
  lemma CapIsTight(content: FileBytes, start: nat, cap: u64, identity: FileIdentity, version: nat)
    returns (mid: nat, b: ReadBudget)
    requires 0 < cap && start <= |content| && !Fits(content, start, cap)
    ensures start <= mid <= |content| && Unterminated(content[start..mid]) == [] && b.maxPartialBytes == cap
    ensures ReadOf(OpenedFile(identity, |content|, content), ResumeFromComplete(identity, mid, version), b)
         == ReconcileRequired(PartialRecordTooLarge)
  {
    mid := LongLine(content, start, cap);
    b := ReadBudget(cap + 1, cap, 1);
    var file, c := OpenedFile(identity, |content|, content), ResumeFromComplete(identity, mid, version);
    assert content[mid..mid] == [];
    WindowSlice(file, c, b);
    var window := Window(file, c, b);
    assert window == content[mid..mid + cap + 1];
    RecordsPrefix([], window);
    assert [] + window == window;
  }

  ghost predicate Drainable(file: OpenedFile, c: FileCursor, b: ReadBudget) {
    && Tracks(file.content, c) && file.identity == c.identity && file.statLen == |file.content|
    && Fits(file.content, c.completeOffset, b.maxPartialBytes)
  }

  lemma DrainStep(file: OpenedFile, c: FileCursor, b: ReadBudget)
    requires Drainable(file, c, b)
    ensures ReadOf(file, c, b) == Batch(BatchOf(file, c, b))
    ensures Drainable(file, BatchOf(file, c, b).cursor, b)
    ensures BatchOf(file, c, b).continuationRequired ==>
              c.readOffset < BatchOf(file, c, b).cursor.readOffset < |file.content|
    ensures !BatchOf(file, c, b).continuationRequired ==> BatchOf(file, c, b).cursor.readOffset == |file.content|
  {
    NeverTooLarge(file, c, b);
    ReadAdvances(file, c, b);
    ReadProgress(file, c, b);
    var next := BatchOf(file, c, b);
    FitsLater(file.content, c.completeOffset, next.cursor.completeOffset, next.records, b.maxPartialBytes);
  }

  /** Reading a fixed file until no continuation is required. */
  ghost function Drain(file: OpenedFile, c: FileCursor, b: ReadBudget): (r: (seq<Bytes>, FileCursor))
    requires Drainable(file, c, b)
    decreases |file.content| - c.readOffset
  {
    DrainStep(file, c, b);
    var batch := BatchOf(file, c, b);
    if !batch.continuationRequired then (batch.records, batch.cursor)
    else
      var rest := Drain(file, batch.cursor, b);
      (batch.records + rest.0, rest.1)
  }

  /** Draining terminates at the end of the file with every remaining complete record, whatever the budgets. */
  lemma {:induction false} DrainIsComplete(file: OpenedFile, c: FileCursor, b: ReadBudget)
    requires Drainable(file, c, b)
    ensures Drain(file, c, b).1.readOffset == |file.content|
    ensures SplitOf(file.content[c.completeOffset..]) == Split(Drain(file, c, b).0, Drain(file, c, b).1.partial)
    decreases |file.content| - c.readOffset
  {
    DrainStep(file, c, b);
    ReadAdvances(file, c, b);
    var content, batch := file.content, BatchOf(file, c, b);
    var mid := batch.cursor.completeOffset;
    BatchThenRest(content, c.completeOffset, mid, batch.records);
    if batch.continuationRequired {
      DrainIsComplete(file, batch.cursor, b);
    } else {
      assert content[mid..] == batch.cursor.partial;
      RecordsPrefix([], content[mid..]);
      assert [] + content[mid..] == content[mid..];
    }
  }
}
