/** When the loop goes on at a recovered place: which keys delivered before can never be used again. */
module TailRecovery {
  import opened Core
  import opened Lines
  import opened Incremental
  import opened Tail
  import opened TailProgress
  import opened TailExact
  import opened TailLossless

  // ----- the loop after a recovery -----

  /** The loop goes on at a recovered place, with everything it had delivered before. */
  ghost function Recovered(place: Place, earlier: seq<Delivery>): Trace {
    Trace(Resumed(place, earlier), place.offset, place.offset)
  }

  /** Whatever made a read need reconciliation, the pass after it starts there. */
  lemma SkipRecovers(t: Trace, b: ReadBudget, env: BatchEnv)
    requires Skips(t.world, b, env)
    ensures Stepped(Stepped(t, b, Iterate(env)), b, Resume) == Recovered(env.recovery.value, t.world.delivered)
  {
  }

  ghost function WithEarlier(t: Trace, earlier: seq<Delivery>): Trace {
    t.(world := t.world.(delivered := earlier + t.world.delivered))
  }

  lemma BatchIgnoresEarlier(w: World, b: ReadBudget, env: BatchEnv, earlier: seq<Delivery>)
    ensures BatchStep(w.(delivered := earlier + w.delivered), b, env)
         == BatchStep(w, b, env).(delivered := earlier + BatchStep(w, b, env).delivered)
  {
    hide ReadOf;
    if Opens(w, env) && ReadOf(env.file, w.cursor, b).Batch? {
      var batch := ReadOf(env.file, w.cursor, b).batch;
      var more := Keyed(w.cursor.completeOffset, batch.records)[..Min(env.ingested, |batch.records|)];
      assert (earlier + w.delivered) + more == earlier + (w.delivered + more);
    }
  }

  /** What was delivered before a recovery has no influence on what follows it. */
  lemma StepIgnoresEarlier(
    final: FileBytes, identity: FileIdentity, t: Trace, b: ReadBudget, step: TailStep, earlier: seq<Delivery>)
    ensures Stepped(WithEarlier(t, earlier), b, step) == WithEarlier(Stepped(t, b, step), earlier)
    ensures Staged(final, identity, WithEarlier(t, earlier), b, step) <==> Staged(final, identity, t, b, step)
  {
    hide BatchStep;
    hide ReadOf;
    if step.Iterate? {
      BatchIgnoresEarlier(t.world, b, step.env, earlier);
    }
  }

  lemma {:induction false} HistoryIgnoresEarlier(
    final: FileBytes, place: Place, b: ReadBudget, steps: seq<TailStep>, earlier: seq<Delivery>)
    ensures Follow(Recovered(place, earlier), b, steps) == WithEarlier(Follow(Begin(place), b, steps), earlier)
    ensures AppendOnly(final, place.identity, Recovered(place, earlier), b, steps)
            <==> AppendOnly(final, place.identity, Begin(place), b, steps)
  {
    if steps == [] {
      assert earlier + [] == earlier;
    } else {
      HistoryIgnoresEarlier(final, place, b, steps[..|steps| - 1], earlier);
      StepIgnoresEarlier(
        final, place.identity, Follow(Begin(place), b, steps[..|steps| - 1]), b, steps[|steps| - 1], earlier);
    }
  }

  // ----- recovering behind every key used before is safe -----

  /** No earlier key lies beyond the place, except that of an empty record just behind it. */
  predicate KeysBehind(earlier: seq<Delivery>, offset: nat) {
    forall d :: d in earlier ==> d.key <= offset || d == Delivery(offset + 1, [])
  }

  /** In this history of the file, going on at the place, no key is shared by two records, old or new. */
  ghost predicate KeepsKeys(
    final: FileBytes, place: Place, earlier: seq<Delivery>, b: ReadBudget, steps: seq<TailStep>)
  {
    place.offset <= |final| && AppendOnly(final, place.identity, Recovered(place, earlier), b, steps) ==>
      UniqueKeys(Follow(Recovered(place, earlier), b, steps).world.delivered)
  }

  lemma BehindKeepsKeys(
    final: FileBytes, place: Place, earlier: seq<Delivery>, b: ReadBudget, steps: seq<TailStep>)
    requires UniqueKeys(earlier) && KeysBehind(earlier, place.offset)
    ensures KeepsKeys(final, place, earlier, b, steps)
  {
    HistoryIgnoresEarlier(final, place, b, steps, earlier);
    if place.offset <= |final| && AppendOnly(final, place.identity, Begin(place), b, steps) {
      ExactlyOnceTailing(final, place, b, steps);
      NewKeysAreApart(final, earlier, place.offset, Follow(Begin(place), b, steps).world.delivered);
    }
  }

  lemma NewKeysAreApart(final: Bytes, earlier: seq<Delivery>, offset: nat, later: seq<Delivery>)
    requires UniqueKeys(earlier) && UniqueKeys(later) && KeysBehind(earlier, offset)
    requires forall d :: d in later ==> Fragment(final, offset, d)
    ensures UniqueKeys(earlier + later)
  {
    forall d, e | d in earlier && e in later && d.key == e.key
      ensures d == e
    {
      assert Fragment(final, offset, e);
    }
  }

  // ----- and recovering before one is not -----

  function EmptyLines(n: nat): seq<Bytes> {
    if n == 0 then [] else EmptyLines(n - 1) + [[]]
  }

  lemma {:induction false} EmptyLinesAre(n: nat)
    ensures |EmptyLines(n)| == n && |Terminated(EmptyLines(n))| == n
    ensures forall i :: 0 <= i < n ==> EmptyLines(n)[i] == []
  {
    if n > 0 {
      EmptyLinesAre(n - 1);
      TerminatedSnoc(EmptyLines(n - 1), []);
    }
  }

  /** A file whose lines from `offset` on are these. */
  lemma FileOf(offset: nat, lines: seq<Bytes>, last: Bytes) returns (final: Bytes)
    requires NewlineFree(last) && |last| <= 1 && forall i :: 0 <= i < |lines| ==> lines[i] == []
    ensures |final| == offset + |Terminated(lines)| + |last| + 1 && Fits(final, offset, 1)
    ensures Delivery(|final|, last) in Expected(final, offset)
  {
    var all := lines + [last];
    final := Filler(offset) + Terminated(all);
    assert final[offset..] == Terminated(all);
    BatchSplits(all);
    TerminatedSnoc(lines, last);
    assert all[..|all|] == all;
    assert Keyed(offset, all)[|lines|] == Delivery(|final|, last);
  }

  /** A file that delivers another record under a key beyond the place. */
  lemma ClashingFile(offset: u64, d: Delivery) returns (final: FileBytes, e: Delivery)
    requires offset < d.key <= U64_MAX && d != Delivery(offset + 1, [])
    ensures offset <= |final| && Fits(final, offset, 1)
    ensures e.key == d.key && e != d && e in Expected(final, offset)
  {
    hide Fits;
    hide Expected;
    if d.record == [] {
      EmptyLinesAre(d.key - offset - 2);
      final := FileOf(offset, EmptyLines(d.key - offset - 2), [97]);
      e := Delivery(d.key, [97]);
    } else {
      EmptyLinesAre(d.key - offset - 1);
      final := FileOf(offset, EmptyLines(d.key - offset - 1), []);
      e := Delivery(d.key, []);
    }
  }

  /** Two reads of lines of at most one byte are never silent: they move on, or there is nothing left. */
  lemma ShortLinesMoveOn(final: FileBytes, start: Place, t: Trace, next: Trace, b: ReadBudget)
    requires Sound(final, start, t) && Sound(final, start, next) && Fits(final, t.base, 1)
    requires Reached(final, t, next, b, |final|, |final|, 2)
    ensures Moved(t, next, b, |final|, 2) || Ended(final, t, next, b, |final|)
  {
    assert final[..|final|] == final;
    if Silent(t, next, b, |final|, 2) {
      var saved, end := t.world.saved.offset, next.world.cursor.readOffset;
      assert final[..next.seen][saved..end] == final[saved..end];
      FitsAtBoundary(final, t.base, saved, 1);
      FreeSliceFits(final, saved, end, 1);
    }
  }

  lemma {:induction false} ShortLinesCatchUp(final: FileBytes, start: Place, t: Trace, b: ReadBudget)
    returns (steps: seq<TailStep>)
    requires Sound(final, start, t) && Fits(final, t.base, 1)
    ensures AppendOnly(final, start.identity, t, b, steps)
    ensures var next := Follow(t, b, steps);
            Sound(final, start, next) && next.base == t.base && CaughtUp(final, next.world.saved.offset)
    decreases |final| - t.world.saved.offset
  {
    assert final[..|final|] == final;
    var read := Iterate(Smooth(start.identity, final, |final|));
    steps := [Resume, read, read];
    PassReaches(final, start, t, b, |final|, |final|, steps, 2);
    var next := Follow(t, b, steps);
    ShortLinesMoveOn(final, start, t, next, b);
    if Moved(t, next, b, |final|, 2) {
      var more := ShortLinesCatchUp(final, start, next, b);
      FollowConcat(t, b, steps, more);
      AppendOnlyConcat(final, start.identity, t, b, steps, more);
      steps := steps + more;
    }
  }

  lemma ShortLinesDelivered(final: FileBytes, start: Place, b: ReadBudget) returns (steps: seq<TailStep>)
    requires start.offset <= |final| && Fits(final, start.offset, 1)
    ensures AppendOnly(final, start.identity, Begin(start), b, steps)
    ensures Within(Expected(final, start.offset), Follow(Begin(start), b, steps).world.delivered)
  {
    BeginIsSound(final, start);
    steps := ShortLinesCatchUp(final, start, Begin(start), b);
    NothingBeyond(final, start.offset, Follow(Begin(start), b, steps).world.saved.offset);
  }

  /** An earlier key beyond the place is delivered again with another record. */
  lemma KeyBeyondClashes(place: Place, earlier: seq<Delivery>, b: ReadBudget, d: Delivery)
    returns (final: FileBytes, steps: seq<TailStep>)
    requires d in earlier && place.offset < d.key <= U64_MAX && d != Delivery(place.offset + 1, [])
    ensures !KeepsKeys(final, place, earlier, b, steps)
  {
    var e;
    final, e := ClashingFile(place.offset, d);
    steps := ShortLinesDelivered(final, place, b);
    HistoryIgnoresEarlier(final, place, b, steps, earlier);
    assert e in Follow(Recovered(place, earlier), b, steps).world.delivered;
    assert d in Follow(Recovered(place, earlier), b, steps).world.delivered;
  }

  /**
   * Keys hold no file identity. Whatever file, replaced, truncated or the same, the loop goes on with at a recovered
   * place, and under every budget: no history shares a key between two records, those delivered before included, if
   * and only if every key used before lies at or before the recovery offset (or names the empty record behind it).
   */
  lemma RecoveryKeepsKeysIff(place: Place, earlier: seq<Delivery>, b: ReadBudget)
    requires UniqueKeys(earlier) && forall d :: d in earlier ==> d.key <= U64_MAX
    ensures KeysBehind(earlier, place.offset) <==> forall final, steps :: KeepsKeys(final, place, earlier, b, steps)
  {
    if KeysBehind(earlier, place.offset) {
      forall final: FileBytes, steps
        ensures KeepsKeys(final, place, earlier, b, steps)
      {
        BehindKeepsKeys(final, place, earlier, b, steps);
      }
    } else {
      var d :| d in earlier && d.key > place.offset && d != Delivery(place.offset + 1, []);
      var final, steps := KeyBeyondClashes(place, earlier, b, d);
    }
  }

  // ----- an input -----

  lemma EmptiedFile(saved: Place, delivered: seq<Delivery>, other: FileIdentity, b: ReadBudget)
    requires saved.identity != other || saved.offset > 0
    ensures BatchStep(Resumed(saved, delivered), b, Smooth(other, [], 0)).saved == Place(other, 0)
    ensures BatchStep(Resumed(saved, delivered), b, Smooth(other, [], 0)).delivered == delivered
  {
  }

  /**
   * When a file is replaced by an empty one, or is truncated in place, the loop goes on at its end, offset zero, and
   * the next line of the same length repeats the key.
   */
  lemma RecoveryReusesKeys(before: FileIdentity, after: FileIdentity)
    returns (first: World, recovered: World, second: World)
    ensures var b := ReadBudget(10, 10, 10);
            && first == BatchStep(Resumed(Place(before, 0), []), b, Smooth(before, [97, NEWLINE], 2))
            && recovered == BatchStep(Resumed(first.saved, first.delivered), b, Smooth(after, [], 0))
            && second == BatchStep(Resumed(recovered.saved, recovered.delivered), b, Smooth(after, [98, NEWLINE], 2))
            && Delivery(2, [97]) in second.delivered && Delivery(2, [98]) in second.delivered
  {
    var b := ReadBudget(10, 10, 10);
    var x: Bytes, y: Bytes := [97], [98];
    assert x + [NEWLINE] == [97, NEWLINE] && y + [NEWLINE] == [98, NEWLINE];
    LineRead(Place(before, 0), [], x, b);
    first := BatchStep(Resumed(Place(before, 0), []), b, Smooth(before, [97, NEWLINE], 2));
    EmptiedFile(first.saved, first.delivered, after, b);
    recovered := BatchStep(Resumed(first.saved, first.delivered), b, Smooth(after, [], 0));
    LineRead(Place(after, 0), first.delivered, y, b);
    second := BatchStep(Resumed(recovered.saved, recovered.delivered), b, Smooth(after, [98, NEWLINE], 2));
  }
}
