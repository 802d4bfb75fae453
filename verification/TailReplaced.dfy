/** Histories whose file may be replaced or truncated at any step: which file a delivered record came from. */
module TailReplaced {
  import opened Core
  import opened Lines
  import opened Incremental
  import opened Tail

  /** Between passes nothing of a read is carried; within a pass, the carried partial ends where the read stopped. */
  ghost predicate Names(w: World) {
    w.left > 0 ==>
      && w.cursor.identity == w.saved.identity
      && w.cursor.completeOffset == w.saved.offset
      && Shaped(w.cursor)
  }

  /** The read opens another file than the saved place names, or one that ends before what was read of it. */
  ghost predicate Foreign(w: World, file: OpenedFile) {
    file.identity != w.saved.identity || file.statLen < w.cursor.readOffset
  }

  lemma StepKeepsNames(t: Trace, b: ReadBudget, step: TailStep)
    requires Names(t.world)
    ensures Names(Stepped(t, b, step).world)
  {
    if step.Iterate? && Opens(t.world, step.env) {
      ReadKeepsShape(step.env.file, t.world.cursor, b);
    }
  }

  lemma {:induction false} HistoryNames(start: Place, b: ReadBudget, steps: seq<TailStep>)
    ensures Names(Follow(Begin(start), b, steps).world)
  {
    if steps != [] {
      HistoryNames(start, b, steps[..|steps| - 1]);
      StepKeepsNames(Follow(Begin(start), b, steps[..|steps| - 1]), b, steps[|steps| - 1]);
    }
  }

  /**
   * In every history, with any files in any order: an iteration that opens a file other than the one the saved place
   * names, or one shorter than what was read of it, delivers nothing, saves nothing but the recovered place, and ends
   * the pass.
   */
  lemma ForeignFileIsLeftAlone(start: Place, b: ReadBudget, steps: seq<TailStep>, env: BatchEnv)
    requires Opens(Follow(Begin(start), b, steps).world, env) && Foreign(Follow(Begin(start), b, steps).world, env.file)
    ensures var w := Follow(Begin(start), b, steps).world;
            BatchStep(w, b, env)
            == w.(left := 0, saved := if env.recovery.Some? then env.recovery.value else w.saved)
  {
    hide Follow;
    HistoryNames(start, b, steps);
  }

  /** The saved place names another file only after a recovery put it there. */
  lemma OnlyRecoveryRenames(start: Place, b: ReadBudget, steps: seq<TailStep>, step: TailStep)
    ensures var t := Follow(Begin(start), b, steps);
            var next := Stepped(t, b, step);
            next.world.saved.identity != t.world.saved.identity ==>
              step.Iterate? && Skips(t.world, b, step.env) && next.world.saved == step.env.recovery.value
  {
    hide Follow;
    HistoryNames(start, b, steps);
  }

  // ----- every delivered record stands in the file that was named -----

  /** While a pass reads one file, the bytes it carries from the last read still stand there. */
  ghost predicate Undisturbed(w: World, step: TailStep) {
    step.Iterate? && Opens(w, step.env) && !Foreign(w, step.env.file) ==> Tracks(step.env.file.content, w.cursor)
  }

  ghost predicate UndisturbedHistory(start: Place, b: ReadBudget, steps: seq<TailStep>) {
    forall i :: 0 <= i < |steps| ==> Undisturbed(Follow(Begin(start), b, steps[..i]).world, steps[i])
  }

  /** Step `i` read the file its saved place named, and the record stands there, behind that place. */
  ghost predicate DeliveredAt(start: Place, b: ReadBudget, steps: seq<TailStep>, i: nat, d: Delivery)
    requires i < |steps|
  {
    var w := Follow(Begin(start), b, steps[..i]).world;
    && steps[i].Iterate? && Opens(w, steps[i].env)
    && steps[i].env.file.identity == w.saved.identity
    && Fragment(steps[i].env.file.content, w.saved.offset, d)
  }

  lemma BatchStands(w: World, b: ReadBudget, env: BatchEnv, d: Delivery)
    requires Names(w) && Opens(w, env) && Undisturbed(w, Iterate(env))
    requires d in BatchStep(w, b, env).delivered && d !in w.delivered
    ensures env.file.identity == w.saved.identity && Fragment(env.file.content, w.saved.offset, d)
  {
    var content, c, saved := env.file.content, w.cursor, w.saved.offset;
    ReadAdvances(env.file, c, b);
    var batch := BatchOf(env.file, c, b);
    var next := Keyed(saved, batch.records);
    assert content[saved..saved] == [];
    BatchIsExpected(content, saved, saved, batch.cursor.completeOffset, batch.records);
    StretchIsExpected([], next, Expected(content, saved));
    ExpectedIsFragment(content, saved, d);
  }

  /**
   * Whatever files are found, and however often they are replaced or truncated: every delivered record is a line of
   * the file that the saved place named when it was delivered, ending at its key.
   */
  lemma {:induction false} DeliveredFromNamedFile(start: Place, b: ReadBudget, steps: seq<TailStep>, d: Delivery)
    requires UndisturbedHistory(start, b, steps) && d in Follow(Begin(start), b, steps).world.delivered
    ensures exists i :: 0 <= i < |steps| && DeliveredAt(start, b, steps, i, d)
  {
    var before, last := steps[..|steps| - 1], steps[|steps| - 1];
    var w := Follow(Begin(start), b, before).world;
    if d in w.delivered {
      forall i | 0 <= i < |before|
        ensures Undisturbed(Follow(Begin(start), b, before[..i]).world, before[i])
      {
        assert before[..i] == steps[..i];
      }
      DeliveredFromNamedFile(start, b, before, d);
      var i :| 0 <= i < |before| && DeliveredAt(start, b, before, i, d);
      assert before[..i] == steps[..i];
      assert DeliveredAt(start, b, steps, i, d);
    } else {
      HistoryNames(start, b, before);
      assert Undisturbed(w, last);
      BatchStands(w, b, last.env, d);
      assert DeliveredAt(start, b, steps, |steps| - 1, d);
    }
  }
}
