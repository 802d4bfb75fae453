/** Which listed processes descend from a root process. */
module Descendants {
  import opened Core

  type Pid = nat

  /** The parent each listed process reports, if any. */
  type ProcTable = map<Pid, Option<Pid>>

  /** The parent chain of `pid` reaches `root` in `n` steps through listed processes. */
  ghost predicate ReachesIn(stats: ProcTable, pid: Pid, root: Pid, n: nat)
    decreases n
  {
    if n == 0 then pid == root
    else pid in stats && stats[pid].Some? && ReachesIn(stats, stats[pid].value, root, n - 1)
  }

  /** The root itself, and every listed process whose parent chain reaches it, however the table loops. */
  ghost predicate Descends(stats: ProcTable, pid: Pid, root: Pid) {
    exists n: nat :: ReachesIn(stats, pid, root, n)
  }

  predicate ChildOf(stats: ProcTable, pid: Pid, parent: Pid) {
    pid in stats && stats[pid] == Some(parent)
  }

  lemma ChildDescends(stats: ProcTable, pid: Pid, parent: Pid, root: Pid)
    requires ChildOf(stats, pid, parent) && Descends(stats, parent, root)
    ensures Descends(stats, pid, root)
  {
    var n: nat :| ReachesIn(stats, parent, root, n);
    assert ReachesIn(stats, pid, root, n + 1);
  }

  /** A set that holds the root and the children of each of its members holds every descendant. */
  lemma {:induction false} ClosedHoldsDescendants(stats: ProcTable, root: Pid, closed: set<Pid>, pid: Pid, n: nat)
    requires root in closed
    requires forall p, c :: p in closed && ChildOf(stats, c, p) ==> c in closed
    requires ReachesIn(stats, pid, root, n)
    ensures pid in closed
    decreases n
  {
    if n > 0 {
      ClosedHoldsDescendants(stats, root, closed, stats[pid].value, n - 1);
      assert ChildOf(stats, pid, stats[pid].value);
    }
  }

  /** `grown` is `selected` with the children of `parent` among `pids`. */
  ghost predicate GrownBy(stats: ProcTable, parent: Pid, selected: set<Pid>, pids: seq<Pid>, grown: set<Pid>) {
    forall c :: c in grown <==> c in selected || (c in pids && ChildOf(stats, c, parent))
  }

  /** The queue has gained exactly what the selection gained. */
  ghost predicate QueuedWith(selected: set<Pid>, grown: set<Pid>, queue: seq<Pid>, rest: seq<Pid>) {
    && (forall p :: p in rest <==> p in queue || (p in grown && p !in selected))
    && (grown == selected ==> rest == queue)
  }

  lemma GrowBy(stats: ProcTable, parent: Pid, selected: set<Pid>, pids: seq<Pid>, grown: set<Pid>, pid: Pid)
    requires GrownBy(stats, parent, selected, pids, grown)
    ensures ChildOf(stats, pid, parent) ==> GrownBy(stats, parent, selected, pids + [pid], grown + {pid})
    ensures !ChildOf(stats, pid, parent) || pid in grown ==> GrownBy(stats, parent, selected, pids + [pid], grown)
  {
  }

  lemma QueueOne(selected: set<Pid>, grown: set<Pid>, queue: seq<Pid>, rest: seq<Pid>, pid: Pid)
    requires QueuedWith(selected, grown, queue, rest) && selected <= grown && pid !in grown
    ensures QueuedWith(selected, grown + {pid}, queue, rest + [pid])
  {
    assert pid in grown + {pid};
  }

  /** Add the unselected children of one process, in table order. */
  method SelectChildren(stats: ProcTable, parent: Pid, selected: set<Pid>, queue: seq<Pid>)
    returns (grown: set<Pid>, rest: seq<Pid>)
    ensures forall c :: c in grown <==> c in selected || ChildOf(stats, c, parent)
    ensures forall p :: p in rest <==> p in queue || (p in grown && p !in selected)
    ensures grown == selected ==> rest == queue
  {
    grown, rest := selected, queue;
    var pids := Sorted(stats.Keys);
    var i := 0;
    while i < |pids|
      invariant 0 <= i <= |pids|
      invariant GrownBy(stats, parent, selected, pids[..i], grown)
      invariant QueuedWith(selected, grown, queue, rest)
    {
      var pid := pids[i];
      assert pids[..i + 1] == pids[..i] + [pid];
      GrowBy(stats, parent, selected, pids[..i], grown, pid);
      if stats[pid] == Some(parent) && pid !in grown {
        QueueOne(selected, grown, queue, rest, pid);
        grown := grown + {pid};
        rest := rest + [pid];
      }
      i := i + 1;
    }
    assert pids[..i] == pids;
  }

  /**
   * The worklist loop terminates on any table, cycles included, and returns exactly the root and its descendants,
   * in increasing order without duplicates.
   */
  method DescendantIds(root: Pid, stats: ProcTable) returns (ids: seq<Pid>)
    ensures Increasing(ids)
    ensures forall pid :: pid in ids <==> Descends(stats, pid, root)
  {
    var selected, queue := {root}, [root];
    assert ReachesIn(stats, root, root, 0);
    ghost var done: set<Pid> := {};
    while queue != []
      invariant root in selected && selected <= stats.Keys + {root}
      invariant forall p :: p in selected ==> Descends(stats, p, root)
      invariant forall p :: p in queue ==> p in selected
      invariant forall p :: p in selected ==> p in done || p in queue
      invariant forall p, c :: p in done && ChildOf(stats, c, p) ==> c in selected
      decreases (stats.Keys + {root}) - selected, |queue|
    {
      var parent := queue[0];
      var before := selected;
      var rest := queue[1..];
      assert queue == [parent] + rest;
      selected, queue := SelectChildren(stats, parent, selected, rest);
      forall p | p in selected
        ensures Descends(stats, p, root)
      {
        if p !in before {
          ChildDescends(stats, p, parent, root);
        }
      }
      done := done + {parent};
      if selected != before {
        var p :| p in selected && p !in before;
        assert p in (stats.Keys + {root}) - before;
      }
    }
    ids := Sorted(selected);
    forall pid | Descends(stats, pid, root)
      ensures pid in selected
    {
      var n: nat :| ReachesIn(stats, pid, root, n);
      ClosedHoldsDescendants(stats, root, selected, pid, n);
    }
  }
}
