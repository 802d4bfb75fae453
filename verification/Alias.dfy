/** Aliases from wrapper-native sessions to canonical ones; an alias seen for two sessions becomes ambiguous. */
module Alias {
  import opened Core
  import opened Lru

  /** `Some(id)` is a unique canonical session, `None` an ambiguous alias. */
  type Aliases = LruState<string, Option<nat>>

  function MayEvict(value: Option<nat>): bool {
    value.Some?
  }

  function Anything(value: Option<nat>): bool {
    true
  }

  function Bind(s: Aliases, alias: string, canonical: nat): Aliases {
    var (touched, known) := Get(s, alias);
    match known
    case None => Insert(touched, alias, Some(canonical), MayEvict).0
    case Some(existing) =>
      if existing.Some? && existing.value != canonical then Insert(touched, alias, None, Anything).0 else touched
  }

  function MarkAmbiguous(s: Aliases, alias: string): Aliases {
    Insert(s, alias, None, Anything).0
  }

  function Resolve(s: Aliases, alias: string): (Aliases, Option<nat>) {
    var (touched, known) := Get(s, alias);
    (touched, if known.Some? then known.value else None)
  }

  class DiscoveryAliasRegistry {
    const aliases: BoundedLru<string, Option<nat>>

    constructor (capacity: nat)
      ensures aliases.View() == LruState(map[], [], capacity) && fresh(aliases)
    {
      aliases := new BoundedLru(capacity);
    }

    method BindAlias(alias: string, canonical: nat)
      modifies aliases
      ensures aliases.View() == Bind(old(aliases.View()), alias, canonical)
    {
      var known := aliases.GetCloned(alias);
      match known
      case None =>
        var _ := aliases.InsertEvictingWhere(alias, Some(canonical), MayEvict);
      case Some(existing) =>
        if existing.Some? && existing.value != canonical {
          var _ := aliases.InsertEvictingWhere(alias, None, Anything);
        }
    }

    method Mark(alias: string)
      modifies aliases
      ensures aliases.View() == MarkAmbiguous(old(aliases.View()), alias)
    {
      var _ := aliases.InsertEvictingWhere(alias, None, Anything);
    }

    method ResolveAlias(alias: string) returns (r: Option<nat>)
      modifies aliases
      ensures (aliases.View(), r) == Resolve(old(aliases.View()), alias)
    {
      var known := aliases.GetCloned(alias);
      r := if known.Some? then known.value else None;
    }
  }

  datatype AliasOp = BindOp(alias: string, canonical: nat) | ResolveOp(alias: string) | MarkOp(alias: string)

  function AfterOp(s: Aliases, op: AliasOp): Aliases {
    match op
    case BindOp(alias, canonical) => Bind(s, alias, canonical)
    case ResolveOp(alias) => Resolve(s, alias).0
    case MarkOp(alias) => MarkAmbiguous(s, alias)
  }

  function RunFrom(s: Aliases, ops: seq<AliasOp>): Aliases {
    if ops == [] then s else AfterOp(RunFrom(s, ops[..|ops| - 1]), ops[|ops| - 1])
  }

  lemma OpKeepsValid(s: Aliases, op: AliasOp)
    requires Valid(s)
    ensures Valid(AfterOp(s, op)) && AfterOp(s, op).capacity == s.capacity
  {
    GetKeepsValid(s, op.alias);
    var touched := Get(s, op.alias).0;
    match op
    case BindOp(alias, canonical) =>
      InsertKeepsValid(touched, alias, Some(canonical), MayEvict);
      InsertKeepsValid(touched, alias, None, Anything);
    case ResolveOp(_) =>
    case MarkOp(alias) =>
      InsertKeepsValid(s, alias, None, Anything);
  }

  ghost predicate IsAmbiguous(s: Aliases, alias: string) {
    alias in s.entries && s.entries[alias].None?
  }

  /** The one way to forget an ambiguous alias: marking an unknown one when it is the oldest in a full registry. */
  predicate Forgets(s: Aliases, alias: string, op: AliasOp) {
    op.MarkOp? && op.alias !in s.entries && |s.entries| == s.capacity && s.recency != [] && s.recency[0] == alias
  }

  lemma AmbiguousUnlessForgotten(s: Aliases, alias: string, op: AliasOp)
    requires Valid(s) && IsAmbiguous(s, alias)
    ensures IsAmbiguous(AfterOp(s, op), alias) <==> !Forgets(s, alias, op)
  {
    if op.MarkOp? && op.alias !in s.entries && |s.entries| == s.capacity {
      assert alias in s.recency && s.recency[0] in s.entries;
      assert Victim(s.recency, s.entries, Anything) == Some(s.recency[0]);
    }
  }

  lemma {:induction false} RunKeepsValid(s: Aliases, ops: seq<AliasOp>)
    requires Valid(s)
    ensures Valid(RunFrom(s, ops)) && RunFrom(s, ops).capacity == s.capacity
  {
    if ops != [] {
      RunKeepsValid(s, ops[..|ops| - 1]);
      OpKeepsValid(RunFrom(s, ops[..|ops| - 1]), ops[|ops| - 1]);
    }
  }

  ghost predicate AmbiguousThroughout(s: Aliases, alias: string, ops: seq<AliasOp>) {
    forall k :: 0 <= k <= |ops| ==> IsAmbiguous(RunFrom(s, ops[..k]), alias)
  }

  ghost predicate NeverForgets(s: Aliases, alias: string, ops: seq<AliasOp>) {
    forall k :: 0 <= k < |ops| ==> !Forgets(RunFrom(s, ops[..k]), alias, ops[k])
  }

  lemma StepOfRun(s: Aliases, alias: string, ops: seq<AliasOp>, k: nat)
    requires Valid(s) && k < |ops| && IsAmbiguous(RunFrom(s, ops[..k]), alias)
    ensures IsAmbiguous(RunFrom(s, ops[..k + 1]), alias) <==> !Forgets(RunFrom(s, ops[..k]), alias, ops[k])
  {
    RunKeepsValid(s, ops[..k]);
    assert ops[..k + 1][..k] == ops[..k];
    AmbiguousUnlessForgotten(RunFrom(s, ops[..k]), alias, ops[k]);
  }

  lemma {:induction false} StillAmbiguous(s: Aliases, alias: string, ops: seq<AliasOp>, k: nat)
    requires Valid(s) && IsAmbiguous(s, alias) && NeverForgets(s, alias, ops) && k <= |ops|
    ensures IsAmbiguous(RunFrom(s, ops[..k]), alias)
  {
    if k > 0 {
      StillAmbiguous(s, alias, ops, k - 1);
      StepOfRun(s, alias, ops, k - 1);
    }
  }

  /**
   * Stickiness, exactly: through any run of binds, resolves and marks, an ambiguous alias stays ambiguous if and only
   * if no mark of an unknown alias ever finds the registry full with this alias the oldest in it.
   */
  lemma AmbiguityIsSticky(s: Aliases, alias: string, ops: seq<AliasOp>)
    requires Valid(s) && IsAmbiguous(s, alias)
    ensures AmbiguousThroughout(s, alias, ops) <==> NeverForgets(s, alias, ops)
    ensures NeverForgets(s, alias, ops) ==> Resolve(RunFrom(s, ops), alias).1 == None
  {
    if NeverForgets(s, alias, ops) {
      forall k | 0 <= k <= |ops|
        ensures IsAmbiguous(RunFrom(s, ops[..k]), alias)
      {
        StillAmbiguous(s, alias, ops, k);
      }
      StillAmbiguous(s, alias, ops, |ops|);
      assert ops[..|ops|] == ops;
    }
    if AmbiguousThroughout(s, alias, ops) {
      forall k | 0 <= k < |ops|
        ensures !Forgets(RunFrom(s, ops[..k]), alias, ops[k])
      {
        StepOfRun(s, alias, ops, k);
      }
    }
  }

  /** In particular binds and resolves alone never forget, however full the registry. */
  lemma OnlyMarksForget(s: Aliases, alias: string, ops: seq<AliasOp>)
    requires forall i :: 0 <= i < |ops| ==> !ops[i].MarkOp?
    ensures NeverForgets(s, alias, ops)
  {
  }

  const TWO: Aliases := LruState(map[], [], 2)

  lemma OneByOne(a: AliasOp, b: AliasOp, c: AliasOp, d: AliasOp)
    ensures RunFrom(TWO, [a, b]) == AfterOp(AfterOp(TWO, a), b)
    ensures RunFrom(TWO, [a, b, c, d]) == AfterOp(AfterOp(RunFrom(TWO, [a, b]), c), d)
  {
    assert [a][..0] == [] && [a, b][..1] == [a];
    assert RunFrom(TWO, [a]) == AfterOp(RunFrom(TWO, []), a);
    assert [a, b, c, d][..3] == [a, b, c] && [a, b, c][..2] == [a, b];
    assert RunFrom(TWO, [a, b, c]) == AfterOp(RunFrom(TWO, [a, b]), c);
  }

  lemma MarkThenBind(a: string, b: string)
    requires a != b
    ensures AfterOp(AfterOp(TWO, MarkOp(a)), BindOp(b, 8)) == LruState(map[a := None, b := Some(8)], [a, b], 2)
  {
    assert AfterOp(TWO, MarkOp(a)) == LruState(map[a := None], [a], 2);
    assert Remove([a], b) == [a];
  }

  /** With two entries, marking a third alias evicts the oldest even if it was ambiguous. */
  lemma MarkEvictsOldest(a: string, b: string, c: string)
    requires a != b && a != c && b != c
    ensures var s: Aliases := LruState(map[a := None, b := Some(8)], [a, b], 2);
            MarkAmbiguous(s, c) == LruState(map[b := Some(8), c := None], [b, c], 2)
  {
    var s: Aliases := LruState(map[a := None, b := Some(8)], [a, b], 2);
    assert s.entries.Keys == {a, b};
    assert Victim(s.recency, s.entries, Anything) == Some(a);
    assert s.entries - {a} == map[b := Some(8)];
    assert Remove([a, b], a) == [b] && Remove([b], c) == [b];
  }

  lemma BindAfterwards(a: string, b: string, c: string)
    requires a != b && a != c && b != c
    ensures var s: Aliases := LruState(map[b := Some(8), c := None], [b, c], 2);
            Bind(s, a, 7).entries == map[c := None, a := Some(7)]
  {
    var s: Aliases := LruState(map[b := Some(8), c := None], [b, c], 2);
    assert s.entries.Keys == {b, c};
    assert Victim(s.recency, s.entries, MayEvict) == Some(b);
    assert s.entries - {b} == map[c := None];
  }

  /** From an empty registry, marking a second alias makes an earlier ambiguity forgotten. */
  lemma MarkingMayForget() returns (ops: seq<AliasOp>)
    ensures |ops| == 4 && IsAmbiguous(RunFrom(TWO, ops[..2]), "a") && Resolve(RunFrom(TWO, ops), "a").1 == Some(7)
  {
    var mark, bind, other, rebind := MarkOp("a"), BindOp("b", 8), MarkOp("c"), BindOp("a", 7);
    ops := [mark, bind, other, rebind];
    assert ops[..2] == [mark, bind];
    OneByOne(mark, bind, other, rebind);
    MarkThenBind("a", "b");
    MarkEvictsOldest("a", "b", "c");
    BindAfterwards("a", "b", "c");
  }

  // ----- while the aliases fit, an alias resolves exactly when its bindings are unanimous -----

  ghost predicate Unanimous(ops: seq<AliasOp>, alias: string, canonical: nat) {
    && BindOp(alias, canonical) in ops
    && MarkOp(alias) !in ops
    && forall d :: BindOp(alias, d) in ops ==> d == canonical
  }

  ghost predicate Mentioned(ops: seq<AliasOp>, alias: string) {
    MarkOp(alias) in ops || exists d :: BindOp(alias, d) in ops
  }

  ghost function Named(ops: seq<AliasOp>): set<string> {
    if ops == [] then {}
    else Named(ops[..|ops| - 1]) + if ops[|ops| - 1].ResolveOp? then {} else {ops[|ops| - 1].alias}
  }

  ghost predicate Agrees(s: Aliases, ops: seq<AliasOp>, alias: string) {
    && (alias in s.entries <==> Mentioned(ops, alias))
    && forall c: nat :: (alias in s.entries && s.entries[alias] == Some(c)) <==> Unanimous(ops, alias, c)
  }

  lemma NewMention(ops: seq<AliasOp>, op: AliasOp, alias: string)
    ensures !op.ResolveOp? && op.alias == alias ==> Mentioned(ops + [op], alias)
    ensures op.ResolveOp? || op.alias != alias ==>
              && (Mentioned(ops + [op], alias) <==> Mentioned(ops, alias))
              && forall c :: Unanimous(ops + [op], alias, c) <==> Unanimous(ops, alias, c)
  {
    assert op in ops + [op] && forall x :: x in ops ==> x in ops + [op];
  }

  lemma BindAgrees(s: Aliases, ops: seq<AliasOp>, alias: string, canonical: nat)
    requires Agrees(s, ops, alias) && (alias in s.entries || |s.entries| < s.capacity)
    ensures Agrees(Bind(s, alias, canonical), ops + [BindOp(alias, canonical)], alias)
  {
    var op := BindOp(alias, canonical);
    NewMention(ops, op, alias);
    assert op in ops + [op] && forall x :: x in ops + [op] <==> x in ops || x == op;
  }

  lemma MarkAgrees(s: Aliases, ops: seq<AliasOp>, alias: string)
    requires Agrees(s, ops, alias) && (alias in s.entries || |s.entries| < s.capacity)
    ensures Agrees(MarkAmbiguous(s, alias), ops + [MarkOp(alias)], alias)
  {
    NewMention(ops, MarkOp(alias), alias);
    assert MarkOp(alias) in ops + [MarkOp(alias)];
  }

  /** An operation with room to spare leaves every other alias as it was. */
  lemma OthersKept(s: Aliases, op: AliasOp, alias: string)
    requires op.ResolveOp? || op.alias in s.entries || |s.entries| < s.capacity
    ensures op.ResolveOp? || op.alias != alias ==>
              && (alias in AfterOp(s, op).entries <==> alias in s.entries)
              && (alias in s.entries ==> AfterOp(s, op).entries[alias] == s.entries[alias])
    ensures AfterOp(s, op).entries.Keys <= s.entries.Keys + {op.alias}
    ensures op.ResolveOp? ==> AfterOp(s, op).entries == s.entries
  {
  }

  lemma OpAgrees(s: Aliases, ops: seq<AliasOp>, op: AliasOp, alias: string)
    requires Agrees(s, ops, alias) && (op.ResolveOp? || op.alias in s.entries || |s.entries| < s.capacity)
    ensures Agrees(AfterOp(s, op), ops + [op], alias)
  {
    OthersKept(s, op, alias);
    NewMention(ops, op, alias);
    if op.alias == alias {
      match op
      case BindOp(_, canonical) => BindAgrees(s, ops, alias, canonical);
      case MarkOp(_) => MarkAgrees(s, ops, alias);
      case ResolveOp(_) =>
    }
  }

  lemma {:induction false} RegistryAgrees(capacity: nat, ops: seq<AliasOp>)
    requires |Named(ops)| <= capacity
    ensures var s := RunFrom(LruState(map[], [], capacity), ops);
            && Valid(s) && s.capacity == capacity && s.entries.Keys <= Named(ops)
            && forall alias :: Agrees(s, ops, alias)
  {
    if ops != [] {
      var before, op := ops[..|ops| - 1], ops[|ops| - 1];
      assert ops == before + [op];
      SmallerSet(Named(before), Named(ops));
      RegistryAgrees(capacity, before);
      var s := RunFrom(LruState(map[], [], capacity), before);
      OpKeepsValid(s, op);
      if !op.ResolveOp? && op.alias !in s.entries {
        SmallerSet(s.entries.Keys + {op.alias}, Named(ops));
      }
      OthersKept(s, op, op.alias);
      forall alias
        ensures Agrees(AfterOp(s, op), ops, alias)
      {
        assert Agrees(s, before, alias);
        OpAgrees(s, before, op, alias);
      }
    }
  }

  /**
   * While the distinct aliases fit the registry, an alias resolves to a session exactly when it was bound to that
   * session, never to another, and never marked ambiguous.
   */
  lemma ResolvesIffUnanimous(capacity: nat, ops: seq<AliasOp>, alias: string, canonical: nat)
    requires |Named(ops)| <= capacity
    ensures Resolve(RunFrom(LruState(map[], [], capacity), ops), alias).1 == Some(canonical)
            <==> Unanimous(ops, alias, canonical)
  {
    RegistryAgrees(capacity, ops);
    assert Agrees(RunFrom(LruState(map[], [], capacity), ops), ops, alias);
  }
}
