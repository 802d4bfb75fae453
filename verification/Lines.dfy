/** The plain meaning of a newline-delimited log: its complete records and its unterminated tail. */
module Lines {

  newtype byte = x: int | 0 <= x < 256

  type Bytes = seq<byte>

  const NEWLINE: byte := 10

  predicate NewlineFree(s: Bytes) {
    NEWLINE !in s
  }

  predicate AllNewlineFree(records: seq<Bytes>) {
    forall i :: 0 <= i < |records| ==> NewlineFree(records[i])
  }

  datatype Split = Split(records: seq<Bytes>, tail: Bytes)

  /** One more byte ends a record or extends the unterminated tail. */
  function Extend(split: Split, b: byte): Split {
    if b == NEWLINE then Split(split.records + [split.tail], []) else split.(tail := split.tail + [b])
  }

  /** The newline split of `s`: its complete records without delimiters, and what follows the last newline. */
  function SplitOf(s: Bytes): Split {
    if s == [] then Split([], []) else Extend(SplitOf(s[..|s| - 1]), s[|s| - 1])
  }

  function Records(s: Bytes): seq<Bytes> {
    SplitOf(s).records
  }

  function Unterminated(s: Bytes): Bytes {
    SplitOf(s).tail
  }

  /** The bytes that a sequence of complete records occupies in a file. */
  function Terminated(records: seq<Bytes>): Bytes {
    if records == [] then [] else Terminated(records[..|records| - 1]) + records[|records| - 1] + [NEWLINE]
  }

  lemma SplitSnoc(s: Bytes, b: byte)
    ensures SplitOf(s + [b]) == Extend(SplitOf(s), b)
  {
    assert (s + [b])[..|s|] == s;
  }

  lemma TerminatedSnoc(records: seq<Bytes>, r: Bytes)
    ensures Terminated(records + [r]) == Terminated(records) + r + [NEWLINE]
  {
    assert (records + [r])[..|records|] == records;
  }

  lemma {:induction false} TerminatedConcat(a: seq<Bytes>, b: seq<Bytes>)
    ensures Terminated(a + b) == Terminated(a) + Terminated(b)
  {
    if b == [] {
      assert a + b == a;
    } else {
      var b', r := b[..|b| - 1], b[|b| - 1];
      TerminatedConcat(a, b');
      TerminatedSnoc(a + b', r);
      assert a + b == a + b' + [r];
      assert Terminated(a) + Terminated(b') + r + [NEWLINE] == Terminated(a) + (Terminated(b') + r + [NEWLINE]);
    }
  }

  lemma TerminatedCut(records: seq<Bytes>, k: nat)
    requires k <= |records|
    ensures Terminated(records) == Terminated(records[..k]) + Terminated(records[k..])
  {
    TerminatedConcat(records[..k], records[k..]);
    assert records == records[..k] + records[k..];
  }

  lemma TerminatedNext(records: seq<Bytes>, i: nat)
    requires i < |records|
    ensures Terminated(records[..i + 1]) == Terminated(records[..i]) + records[i] + [NEWLINE]
  {
    TerminatedSnoc(records[..i], records[i]);
    assert records[..i + 1] == records[..i] + [records[i]];
  }

  /** The bytes up to a record, the record with its delimiter, and the bytes after it. */
  lemma TerminatedAt(records: seq<Bytes>, i: nat)
    requires i < |records|
    ensures Terminated(records[..i + 1]) == Terminated(records[..i]) + records[i] + [NEWLINE]
    ensures Terminated(records) == Terminated(records[..i + 1]) + Terminated(records[i + 1..])
  {
    TerminatedNext(records, i);
    TerminatedCut(records, i + 1);
  }

  /** Every byte string is its complete records followed by its unterminated tail, none holding a newline. */
  lemma {:induction false} SplitRoundTrip(s: Bytes)
    ensures Terminated(Records(s)) + Unterminated(s) == s
    ensures AllNewlineFree(Records(s)) && NewlineFree(Unterminated(s))
  {
    if s != [] {
      var s', b := s[..|s| - 1], s[|s| - 1];
      SplitRoundTrip(s');
      assert s == s' + [b];
      if b == NEWLINE {
        TerminatedSnoc(Records(s'), Unterminated(s'));
      }
    }
  }

  /** Splitting is compositional across any record boundary. */
  lemma {:induction false} RecordsConcat(a: Bytes, b: Bytes)
    requires Unterminated(a) == []
    ensures Records(a + b) == Records(a) + Records(b)
    ensures Unterminated(a + b) == Unterminated(b)
  {
    if b == [] {
      assert a + b == a;
    } else {
      var b', x := b[..|b| - 1], b[|b| - 1];
      RecordsConcat(a, b');
      SplitSnoc(a + b', x);
      assert a + b == a + b' + [x];
    }
  }

  /** Appending only ever appends records; bytes without a newline add none. */
  lemma {:induction false} RecordsPrefix(a: Bytes, b: Bytes)
    ensures Records(a) <= Records(a + b)
    ensures NewlineFree(b) ==> Records(a + b) == Records(a) && Unterminated(a + b) == Unterminated(a) + b
    ensures !NewlineFree(b) ==> |Records(a)| < |Records(a + b)|
  {
    if b == [] {
      assert a + b == a;
    } else {
      var b', x := b[..|b| - 1], b[|b| - 1];
      RecordsPrefix(a, b');
      SplitSnoc(a + b', x);
      assert a + b == a + b' + [x];
      assert b == b' + [x];
    }
  }

  lemma FreeSlice(s: Bytes)
    requires NewlineFree(s)
    ensures SplitOf(s) == Split([], s)
  {
    RecordsPrefix([], s);
    assert [] + s == s;
  }

  /** The `n`th record, or the tail if there are only `n`. */
  function Line(split: Split, n: nat): Bytes
    requires n <= |split.records|
  {
    if n < |split.records| then split.records[n] else split.tail
  }

  lemma LineOnlyGrows(split: Split, b: byte, n: nat)
    requires n <= |split.records|
    ensures n <= |Extend(split, b).records| && Line(split, n) <= Line(Extend(split, b), n)
  {
  }

  /** The unterminated tail is where the next record, or the final tail, begins. */
  lemma {:induction false} TailIsCarried(a: Bytes, b: Bytes)
    ensures |Records(a)| <= |Records(a + b)| && Unterminated(a) <= Line(SplitOf(a + b), |Records(a)|)
  {
    if b == [] {
      assert a + b == a;
    } else {
      var b', x := b[..|b| - 1], b[|b| - 1];
      TailIsCarried(a, b');
      SplitSnoc(a + b', x);
      LineOnlyGrows(SplitOf(a + b'), x, |Records(a)|);
      assert a + b == a + b' + [x];
    }
  }

  /** The first line is at least as long as any newline-free beginning. */
  lemma FreeRunInFirst(s: Bytes, k: nat)
    requires k <= |s| && NewlineFree(s[..k])
    ensures k <= |Line(SplitOf(s), 0)|
  {
    FreeSlice(s[..k]);
    TailIsCarried(s[..k], s[k..]);
    assert s[..k] + s[k..] == s;
  }

  lemma FreeByte(s: Bytes, free: nat, i: nat)
    requires i < free <= |s| && NewlineFree(s[..free])
    ensures s[i] != NEWLINE
  {
    assert s[..free][i] == s[i];
  }

  /** The split is the only one: newline-free records and tail that spell `s` are its records and tail. */
  lemma {:induction false} SplitUnique(records: seq<Bytes>, tail: Bytes)
    requires AllNewlineFree(records) && NewlineFree(tail)
    ensures SplitOf(Terminated(records) + tail) == Split(records, tail)
    decreases |records|
  {
    if records != [] {
      var records', r := records[..|records| - 1], records[|records| - 1];
      SplitUnique(records', r);
      SplitSnoc(Terminated(records') + r, NEWLINE);
      assert records == records' + [r];
    }
    assert SplitOf(Terminated(records)) == Split(records, []);
    RecordsPrefix(Terminated(records), tail);
    assert [] + tail == tail;
  }
}
