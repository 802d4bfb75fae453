/** Deterministic parent correlation. */
module Correlation {
  import opened Core
  import R = Reducer

  datatype Basis =
    WeakHeuristic | TranscriptReference | UniqueWorktree | ProcessAncestry | McpRegistration | ExactNative
  {
    function Rank(): nat {
      match this
      case WeakHeuristic => 1
      case TranscriptReference => 2
      case UniqueWorktree => 3
      case ProcessAncestry => 4
      case McpRegistration => 5
      case ExactNative => 6
    }

    predicate Explicit() {
      ExactNative? || McpRegistration?
    }
  }

  type Confidence = n: nat | n <= 10_000

  datatype Candidate = Candidate(
    parent: R.SessionIdentity, basis: Basis, trust: R.Trust, confidence: Confidence, evidence: string)

  datatype RawPolicy = Policy(minimumConfidence: Confidence, minimumGap: nat)

  type Policy = p: RawPolicy | 0 < p.minimumGap <= 10_000 witness Policy(0, 1)

  datatype Decision =
    | Selected(selected: Candidate, supporting: seq<Candidate>, rejected: seq<Candidate>)
    | Ambiguous(candidates: seq<Candidate>)
    | Unassigned(candidates: seq<Candidate>)

  function TrustRank(trust: R.Trust): nat {
    match trust
    case Uncertain => 0
    case Heuristic => 1
    case Corroborating => 2
    case Authoritative => 3
  }

  /** Basis, then trust, then confidence, then the smaller session id, then the evidence text. */
  predicate Less(a: Candidate, b: Candidate) {
    if a.basis.Rank() != b.basis.Rank() then a.basis.Rank() < b.basis.Rank()
    else if TrustRank(a.trust) != TrustRank(b.trust) then TrustRank(a.trust) < TrustRank(b.trust)
    else if a.confidence != b.confidence then a.confidence < b.confidence
    else if a.parent.id != b.parent.id then b.parent.id < a.parent.id
    else LexLess(a.evidence, b.evidence)
  }

  lemma LessAsymmetric(a: Candidate, b: Candidate)
    ensures !(Less(a, b) && Less(b, a))
    ensures !Less(a, a)
  {
    LexTotal(a.evidence, b.evidence);
    LexTotal(a.evidence, a.evidence);
  }

  lemma AtLeastTransitive(a: Candidate, b: Candidate, c: Candidate)
    requires !Less(a, b) && !Less(b, c)
    ensures !Less(a, c)
  {
    LexTotal(a.evidence, b.evidence);
    LexTotal(b.evidence, c.evidence);
    LexTotal(a.evidence, c.evidence);
    if LexLess(c.evidence, b.evidence) && LexLess(b.evidence, a.evidence) {
      LexTransitive(c.evidence, b.evidence, a.evidence);
    }
  }

  /** How relations are ranked: explicit ones first, then by how closely the sessions are tied. */
  ghost predicate StrongerBasis(a: Basis, b: Basis) {
    match a
    case ExactNative => !b.ExactNative?
    case McpRegistration => !b.ExactNative? && !b.McpRegistration?
    case ProcessAncestry => b.UniqueWorktree? || b.TranscriptReference? || b.WeakHeuristic?
    case UniqueWorktree => b.TranscriptReference? || b.WeakHeuristic?
    case TranscriptReference => b.WeakHeuristic?
    case WeakHeuristic => false
  }

  ghost predicate MoreTrusted(a: R.Trust, b: R.Trust) {
    match a
    case Authoritative => !b.Authoritative?
    case Corroborating => b.Heuristic? || b.Uncertain?
    case Heuristic => b.Uncertain?
    case Uncertain => false
  }

  /** Which of two candidates comes first. */
  lemma ComesFirst(a: Candidate, b: Candidate)
    ensures StrongerBasis(a.basis, b.basis) ==> Less(b, a)
    ensures a.basis == b.basis && MoreTrusted(a.trust, b.trust) ==> Less(b, a)
    ensures a.basis == b.basis && a.trust == b.trust && a.confidence > b.confidence ==> Less(b, a)
    ensures a.basis == b.basis && a.trust == b.trust && a.confidence == b.confidence && a.parent.id < b.parent.id ==>
              Less(b, a)
    ensures a.basis == b.basis && a.trust == b.trust && a.confidence == b.confidence && a.parent.id == b.parent.id ==>
              (Less(b, a) <==> LexLess(b.evidence, a.evidence))
    ensures a.basis == b.basis || StrongerBasis(a.basis, b.basis) || StrongerBasis(b.basis, a.basis)
    ensures a.trust == b.trust || MoreTrusted(a.trust, b.trust) || MoreTrusted(b.trust, a.trust)
    ensures a.basis.Explicit() <==> StrongerBasis(a.basis, ProcessAncestry)
  {
  }

  predicate Tied(a: Candidate, b: Candidate) {
    !Less(a, b) && !Less(b, a)
  }

  /** The comparison ignores the role: tied candidates agree in everything else. */
  lemma TiedDiffersInRole(a: Candidate, b: Candidate)
    requires Tied(a, b)
    ensures a.basis == b.basis && a.trust == b.trust && a.confidence == b.confidence
    ensures a.parent.id == b.parent.id && a.evidence == b.evidence
    ensures a.parent == b.parent ==> a == b
  {
    LexTotal(a.evidence, b.evidence);
  }

  ghost predicate TieFree(cs: seq<Candidate>) {
    forall a, b :: a in cs && b in cs && Tied(a, b) ==> a == b
  }

  /** One role per session id. */
  ghost predicate OneRole(cs: seq<Candidate>) {
    forall a, b :: a in cs && b in cs && a.parent.id == b.parent.id ==> a.parent == b.parent
  }

  // ----- the stable descending sort -----

  function Insert(s: seq<Candidate>, c: Candidate): seq<Candidate> {
    if s != [] && Less(s[|s| - 1], c) then Insert(s[..|s| - 1], c) + [s[|s| - 1]] else s + [c]
  }

  function Sort(cs: seq<Candidate>): seq<Candidate> {
    if cs == [] then [] else Insert(Sort(cs[..|cs| - 1]), cs[|cs| - 1])
  }

  ghost predicate Descending(s: seq<Candidate>) {
    forall i, j :: 0 <= i < j < |s| ==> !Less(s[i], s[j])
  }

  lemma {:induction false} InsertPermutes(s: seq<Candidate>, c: Candidate)
    ensures multiset(Insert(s, c)) == multiset(s) + multiset{c}
  {
    if s != [] && Less(s[|s| - 1], c) {
      InsertPermutes(s[..|s| - 1], c);
      assert s == s[..|s| - 1] + [s[|s| - 1]];
    }
  }

  lemma {:induction false} InsertDescends(s: seq<Candidate>, c: Candidate)
    requires Descending(s)
    ensures Descending(Insert(s, c))
  {
    if s == [] {
    } else {
      var front, last := s[..|s| - 1], s[|s| - 1];
      if Less(last, c) {
        InsertDescends(front, c);
        InsertPermutes(front, c);
        var r := Insert(front, c);
        forall i | 0 <= i < |r|
          ensures !Less(r[i], last)
        {
          assert r[i] in multiset(r);
          LessAsymmetric(c, last);
        }
      } else {
        forall i | 0 <= i < |s|
          ensures !Less(s[i], c)
        {
          LessAsymmetric(last, last);
          AtLeastTransitive(s[i], last, c);
        }
      }
    }
  }

  lemma {:induction false} SortSorts(cs: seq<Candidate>)
    ensures multiset(Sort(cs)) == multiset(cs) && Descending(Sort(cs))
  {
    if cs != [] {
      var front, last := cs[..|cs| - 1], cs[|cs| - 1];
      SortSorts(front);
      InsertPermutes(Sort(front), last);
      InsertDescends(Sort(front), last);
      assert multiset(cs) == multiset(front) + multiset{last} by {
        assert cs == front + [last];
      }
    }
  }

  lemma SameMembers(a: seq<Candidate>, b: seq<Candidate>)
    requires multiset(a) == multiset(b)
    ensures forall c :: c in a <==> c in b
    ensures |a| == |b|
  {
    assert forall c :: c in a <==> c in multiset(a);
    assert |multiset(a)| == |a| && |multiset(b)| == |b|;
  }

  /** The least element of a descending sequence is its last, so two descending arrangements agree there. */
  lemma LastAgrees(a: seq<Candidate>, b: seq<Candidate>)
    requires a != [] && multiset(a) == multiset(b) && Descending(a) && Descending(b) && TieFree(a)
    ensures b != [] && a[|a| - 1] == b[|b| - 1]
  {
    SameMembers(a, b);
    var x, y := a[|a| - 1], b[|b| - 1];
    assert y in a && x in b;
    var i :| 0 <= i < |a| && a[i] == y;
    var j :| 0 <= j < |b| && b[j] == x;
    LessAsymmetric(x, x);
    LessAsymmetric(y, y);
    assert Tied(x, y);
  }

  lemma DropLast(a: seq<Candidate>)
    requires a != []
    ensures multiset(a) == multiset(a[..|a| - 1]) + multiset{a[|a| - 1]}
  {
    assert a == a[..|a| - 1] + [a[|a| - 1]];
  }

  lemma SameRest(a: multiset<Candidate>, b: multiset<Candidate>, x: Candidate)
    requires a + multiset{x} == b + multiset{x}
    ensures a == b
  {
    assert a == (a + multiset{x}) - multiset{x};
    assert b == (b + multiset{x}) - multiset{x};
  }

  lemma {:induction false} ArrangementUnique(a: seq<Candidate>, b: seq<Candidate>)
    requires multiset(a) == multiset(b) && Descending(a) && Descending(b) && TieFree(a)
    ensures a == b
    decreases |a|
  {
    SameMembers(a, b);
    if a != [] {
      LastAgrees(a, b);
      DropLast(a);
      DropLast(b);
      var x := a[|a| - 1];
      SameRest(multiset(a[..|a| - 1]), multiset(b[..|b| - 1]), x);
      ArrangementUnique(a[..|a| - 1], b[..|b| - 1]);
      assert a == a[..|a| - 1] + [x] && b == b[..|b| - 1] + [x];
    }
  }

  // ----- the best candidate of each parent -----

  /** The order of the per-parent map: main sessions first, then by id. */
  predicate KeyLess(p: R.SessionIdentity, q: R.SessionIdentity) {
    if p.Main? == q.Main? then p.id < q.id else p.Main?
  }

  /** Add a candidate to the per-parent map, keeping the better of two for one parent. */
  function Upsert(best: seq<Candidate>, c: Candidate): seq<Candidate> {
    if best == [] || KeyLess(c.parent, best[0].parent) then [c] + best
    else if c.parent == best[0].parent then [if Less(best[0], c) then c else best[0]] + best[1..]
    else [best[0]] + Upsert(best[1..], c)
  }

  function BestByParent(all: seq<Candidate>): seq<Candidate> {
    if all == [] then [] else Upsert(BestByParent(all[..|all| - 1]), all[|all| - 1])
  }

  ghost predicate KeySorted(best: seq<Candidate>) {
    forall i, j :: 0 <= i < j < |best| ==> KeyLess(best[i].parent, best[j].parent)
  }

  /** Some entry for the same parent is at least as good. */
  ghost predicate Covered(best: seq<Candidate>, c: Candidate) {
    exists e :: e in best && e.parent == c.parent && !Less(e, c)
  }

  lemma {:induction false} UpsertMembers(best: seq<Candidate>, c: Candidate)
    ensures forall e :: e in Upsert(best, c) ==> e in best || e == c
  {
    if !(best == [] || KeyLess(c.parent, best[0].parent)) && c.parent != best[0].parent {
      UpsertMembers(best[1..], c);
    }
  }

  lemma {:induction false} UpsertKeySorted(best: seq<Candidate>, c: Candidate)
    requires KeySorted(best)
    ensures KeySorted(Upsert(best, c))
  {
    if best == [] || KeyLess(c.parent, best[0].parent) || c.parent == best[0].parent {
    } else {
      var rest := Upsert(best[1..], c);
      UpsertKeySorted(best[1..], c);
      UpsertMembers(best[1..], c);
      forall j | 0 <= j < |rest|
        ensures KeyLess(best[0].parent, rest[j].parent)
      {
        assert rest[j] in rest;
      }
    }
  }

  lemma {:induction false} UpsertCovers(best: seq<Candidate>, c: Candidate, x: Candidate)
    requires x == c || Covered(best, x)
    ensures Covered(Upsert(best, c), x)
  {
    LessAsymmetric(c, c);
    if best == [] || KeyLess(c.parent, best[0].parent) {
      assert c in Upsert(best, c);
      assert forall e :: e in best ==> e in Upsert(best, c);
    } else if c.parent == best[0].parent {
      var kept := if Less(best[0], c) then c else best[0];
      var result := Upsert(best, c);
      assert kept == result[0] && kept in result;
      if x == c {
        LessAsymmetric(best[0], c);
      } else {
        var e :| e in best && e.parent == x.parent && !Less(e, x);
        if e == best[0] {
          LessAsymmetric(best[0], kept);
          LessAsymmetric(kept, kept);
          AtLeastTransitive(kept, best[0], x);
        } else {
          assert e in best[1..] && e in result;
        }
      }
    } else {
      var rest := Upsert(best[1..], c);
      assert best[0] in Upsert(best, c) && forall e :: e in rest ==> e in Upsert(best, c);
      if x == c || Covered(best[1..], x) {
        UpsertCovers(best[1..], c, x);
        var e :| e in rest && e.parent == x.parent && !Less(e, x);
        assert e in Upsert(best, c);
      } else {
        var e :| e in best && e.parent == x.parent && !Less(e, x);
        assert e == best[0];
      }
    }
  }

  lemma {:induction false} BestRepresents(all: seq<Candidate>)
    ensures KeySorted(BestByParent(all))
    ensures forall e :: e in BestByParent(all) ==> e in all
    ensures forall c :: c in all ==> Covered(BestByParent(all), c)
  {
    if all != [] {
      var before, c := all[..|all| - 1], all[|all| - 1];
      BestRepresents(before);
      UpsertMembers(BestByParent(before), c);
      UpsertKeySorted(BestByParent(before), c);
      forall x | x in all
        ensures Covered(BestByParent(all), x)
      {
        UpsertCovers(BestByParent(before), c, x);
      }
    }
  }

  // ----- the decision -----

  function Ranked(all: seq<Candidate>): seq<Candidate> {
    Sort(BestByParent(all))
  }

  function ExplicitParents(ranked: seq<Candidate>): set<R.SessionIdentity> {
    set c | c in ranked && c.basis.Explicit() :: c.parent
  }

  function Supporting(all: seq<Candidate>, selected: Candidate): seq<Candidate> {
    if all == [] then []
    else
      var c := all[|all| - 1];
      Supporting(all[..|all| - 1], selected) + if c.parent == selected.parent && c != selected then [c] else []
  }

  function Rejected(all: seq<Candidate>, selected: Candidate): seq<Candidate> {
    if all == [] then []
    else
      var c := all[|all| - 1];
      Rejected(all[..|all| - 1], selected) + if c.parent != selected.parent then [c] else []
  }

  predicate TooClose(selected: Candidate, runnerUp: Candidate, policy: Policy) {
    selected.basis == runnerUp.basis
    && SatSub(selected.confidence, runnerUp.confidence) < policy.minimumGap
  }

  /** The thresholds, applied to the ranked best candidates. */
  function DecideRanked(all: seq<Candidate>, ranked: seq<Candidate>, policy: Policy): Decision {
    if ranked == [] then Unassigned(all)
    else if |ExplicitParents(ranked)| > 1 then Ambiguous(all)
    else
      var selected := ranked[0];
      if !selected.basis.Explicit() && selected.confidence < policy.minimumConfidence then Unassigned(all)
      else if !selected.basis.Explicit() && |ranked| > 1 && TooClose(selected, ranked[1], policy) then Ambiguous(all)
      else Selected(selected, Supporting(all, selected), Rejected(all, selected))
  }

  function Decide(all: seq<Candidate>, policy: Policy): Decision {
    DecideRanked(all, Ranked(all), policy)
  }

  function Correlate(cs: seq<Candidate>, policy: Policy): Decision {
    Decide(Sort(cs), policy)
  }

  /** The in-place form: sort, fold the per-parent map, sort again and apply the thresholds. */
  method CorrelateCandidates(candidates: seq<Candidate>, policy: Policy) returns (decision: Decision)
    ensures decision == Correlate(candidates, policy)
  {
    var allRanked := Sort(candidates);
    var best: seq<Candidate> := [];
    var i := 0;
    while i < |allRanked|
      invariant 0 <= i <= |allRanked|
      invariant best == BestByParent(allRanked[..i])
    {
      assert allRanked[..i + 1][..i] == allRanked[..i];
      best := Upsert(best, allRanked[i]);
      i := i + 1;
    }
    assert allRanked[..i] == allRanked;
    var ranked := Sort(best);
    if ranked == [] {
      return Unassigned(allRanked);
    }
    if |ExplicitParents(ranked)| > 1 {
      return Ambiguous(allRanked);
    }
    var selected := ranked[0];
    if !selected.basis.Explicit() && selected.confidence < policy.minimumConfidence {
      return Unassigned(allRanked);
    }
    if !selected.basis.Explicit() && |ranked| > 1 && TooClose(selected, ranked[1], policy) {
      return Ambiguous(allRanked);
    }
    decision := Selected(selected, Supporting(allRanked, selected), Rejected(allRanked, selected));
  }

  // ----- what the ranking says about the raw candidates -----

  ghost predicate IsTop(cs: seq<Candidate>, m: Candidate) {
    m in cs && forall c :: c in cs ==> !Less(m, c)
  }

  ghost predicate IsTopRival(cs: seq<Candidate>, m: Candidate, r: Candidate) {
    r in cs && r.parent != m.parent && forall c :: c in cs && c.parent != m.parent ==> !Less(r, c)
  }

  /** Two distinct parents anywhere in the raw list have explicit evidence. */
  ghost predicate ExplicitConflict(cs: seq<Candidate>) {
    exists a, b :: a in cs && b in cs && a.parent != b.parent && a.basis.Explicit() && b.basis.Explicit()
  }

  /** The ranking holds one entry per parent, best first, each at least as good as all evidence for its parent. */
  ghost predicate Represents(ranked: seq<Candidate>, cs: seq<Candidate>) {
    && Descending(ranked)
    && (forall i, j :: 0 <= i < j < |ranked| ==> ranked[i].parent != ranked[j].parent)
    && (forall e :: e in ranked ==> e in cs)
    && (forall c :: c in cs ==> Covered(ranked, c))
  }

  lemma SeenOnce(a: seq<Candidate>, m: nat)
    requires m < |a| && forall i, j :: 0 <= i < j < |a| ==> a[i].parent != a[j].parent
    ensures multiset(a)[a[m]] == 1
  {
    assert a == a[..m] + [a[m]] + a[m + 1..];
    assert a[m] !in a[..m] && a[m] !in a[m + 1..];
  }

  lemma SeenTwice(b: seq<Candidate>, i: nat, j: nat)
    requires i < j < |b|
    ensures b[i] == b[j] ==> multiset(b)[b[i]] >= 2
  {
    assert b == b[..i] + [b[i]] + b[i + 1..j] + [b[j]] + b[j + 1..];
  }

  lemma DistinctParentsPermute(a: seq<Candidate>, b: seq<Candidate>)
    requires multiset(a) == multiset(b)
    requires forall i, j :: 0 <= i < j < |a| ==> a[i].parent != a[j].parent
    ensures forall i, j :: 0 <= i < j < |b| ==> b[i].parent != b[j].parent
  {
    SameMembers(a, b);
    forall i: nat, j: nat | i < j < |b|
      ensures b[i].parent != b[j].parent
    {
      assert b[i] in b && b[j] in b;
      var m: nat :| m < |a| && a[m] == b[i];
      var n: nat :| n < |a| && a[n] == b[j];
      SeenOnce(a, m);
      SeenTwice(b, i, j);
    }
  }

  lemma RankedRepresents(cs: seq<Candidate>)
    ensures Represents(Ranked(Sort(cs)), cs)
  {
    var all := Sort(cs);
    var best := BestByParent(all);
    SortSorts(cs);
    SortSorts(best);
    BestRepresents(all);
    SameMembers(all, cs);
    SameMembers(Sort(best), best);
    DistinctParentsPermute(best, Sort(best));
    forall c | c in cs
      ensures Covered(Sort(best), c)
    {
      assert Covered(best, c);
    }
  }

  lemma TopIsFirst(ranked: seq<Candidate>, cs: seq<Candidate>)
    requires Represents(ranked, cs) && ranked != []
    ensures IsTop(cs, ranked[0])
  {
    forall c | c in cs
      ensures !Less(ranked[0], c)
    {
      assert Covered(ranked, c);
      var e :| e in ranked && e.parent == c.parent && !Less(e, c);
      var k :| 0 <= k < |ranked| && ranked[k] == e;
      LessAsymmetric(ranked[0], ranked[0]);
      AtLeastTransitive(ranked[0], e, c);
    }
  }

  lemma RunnerUpIsTopRival(ranked: seq<Candidate>, cs: seq<Candidate>)
    requires Represents(ranked, cs) && ranked != []
    ensures |ranked| > 1 ==> IsTopRival(cs, ranked[0], ranked[1])
    ensures |ranked| == 1 ==> forall c :: c in cs ==> c.parent == ranked[0].parent
  {
    forall c | c in cs && c.parent != ranked[0].parent
      ensures |ranked| > 1 && !Less(ranked[1], c)
    {
      assert Covered(ranked, c);
      var e :| e in ranked && e.parent == c.parent && !Less(e, c);
      var k :| 0 <= k < |ranked| && ranked[k] == e;
      LessAsymmetric(ranked[1], ranked[1]);
      AtLeastTransitive(ranked[1], e, c);
    }
  }

  lemma TwoElements(s: set<R.SessionIdentity>)
    ensures |s| > 1 <==> exists p, q :: p in s && q in s && p != q
  {
    if |s| > 1 {
      var p :| p in s;
      assert |s - {p}| > 0;
      var q :| q in s - {p};
      assert p in s && q in s && p != q;
    } else if exists p, q :: p in s && q in s && p != q {
      var p, q :| p in s && q in s && p != q;
      assert {p, q} <= s && |{p, q}| == 2;
      SubsetSize({p, q}, s);
      assert false;
    }
  }

  lemma SubsetSize(a: set<R.SessionIdentity>, b: set<R.SessionIdentity>)
    requires a <= b
    ensures |a| <= |b|
  {
    assert b == a + (b - a);
  }

  /** The per-parent reduction sees an explicit conflict exactly when the raw list holds one. */
  lemma ExplicitCount(ranked: seq<Candidate>, cs: seq<Candidate>)
    requires Represents(ranked, cs)
    ensures |ExplicitParents(ranked)| > 1 <==> ExplicitConflict(cs)
  {
    var parents := ExplicitParents(ranked);
    TwoElements(parents);
    forall c | c in cs && c.basis.Explicit()
      ensures c.parent in parents
    {
      assert Covered(ranked, c);
      var e :| e in ranked && e.parent == c.parent && !Less(e, c);
      assert e.basis.Explicit();
    }
  }

  /** A top rival of the same basis comes closer than the gap. */
  ghost predicate Contested(cs: seq<Candidate>, m: Candidate, policy: Policy) {
    exists r :: IsTopRival(cs, m, r) && r.basis == m.basis && m.confidence < r.confidence + policy.minimumGap
  }

  /** The decision, stated on the raw candidate list. */
  ghost predicate Meets(cs: seq<Candidate>, policy: Policy, d: Decision) {
    if cs == [] then d == Unassigned([])
    else if ExplicitConflict(cs) then d.Ambiguous?
    else exists m :: IsTop(cs, m) && Settles(cs, m, policy, d)
  }

  ghost predicate Settles(cs: seq<Candidate>, m: Candidate, policy: Policy, d: Decision) {
    if !m.basis.Explicit() && m.confidence < policy.minimumConfidence then d.Unassigned?
    else if !m.basis.Explicit() && Contested(cs, m, policy) then d.Ambiguous?
    else d.Selected? && d.selected == m
  }

  /** Top rivals are tied, so any of them decides whether the top is contested. */
  lemma AnyTopRivalDecides(cs: seq<Candidate>, m: Candidate, r: Candidate, policy: Policy)
    requires IsTopRival(cs, m, r)
    ensures Contested(cs, m, policy) <==> TooClose(m, r, policy)
  {
    forall q | IsTopRival(cs, m, q)
      ensures TooClose(m, q, policy) <==> TooClose(m, r, policy)
    {
      TiedDiffersInRole(q, r);
    }
  }

  lemma RankedDecisionMeets(all: seq<Candidate>, ranked: seq<Candidate>, cs: seq<Candidate>, policy: Policy)
    requires cs != [] && ranked != [] && Represents(ranked, cs)
    ensures Meets(cs, policy, DecideRanked(all, ranked, policy))
  {
    ExplicitCount(ranked, cs);
    TopIsFirst(ranked, cs);
    RunnerUpIsTopRival(ranked, cs);
    var m := ranked[0];
    assert Contested(cs, m, policy) <==> |ranked| > 1 && TooClose(m, ranked[1], policy) by {
      if |ranked| > 1 {
        AnyTopRivalDecides(cs, m, ranked[1], policy);
      }
    }
    assert !ExplicitConflict(cs) ==> Settles(cs, m, policy, DecideRanked(all, ranked, policy));
  }

  /** Sort, per-parent reduction and thresholds agree with the declarative decision over the raw list. */
  lemma CorrelationMeetsSpec(cs: seq<Candidate>, policy: Policy)
    ensures Meets(cs, policy, Correlate(cs, policy))
  {
    var ranked := Ranked(Sort(cs));
    RankedRepresents(cs);
    if cs != [] {
      assert Covered(ranked, cs[0]);
      RankedDecisionMeets(Sort(cs), ranked, cs, policy);
    }
  }

  // ----- the choice does not depend on the order of the candidates -----

  /** The same kind of decision, and the same candidate selected. */
  ghost predicate SameChoice(d: Decision, e: Decision) {
    match d
    case Selected(m, _, _) => e.Selected? && e.selected == m
    case Ambiguous(_) => e.Ambiguous?
    case Unassigned(_) => e.Unassigned?
  }

  /** Two distinct tops are an explicit conflict, or each contests the other. */
  lemma TwoTops(cs: seq<Candidate>, m: Candidate, n: Candidate, policy: Policy)
    requires IsTop(cs, m) && IsTop(cs, n) && m != n
    ensures m.basis == n.basis && m.confidence == n.confidence
    ensures ExplicitConflict(cs) || (!m.basis.Explicit() && Contested(cs, m, policy) && Contested(cs, n, policy))
  {
    TiedDiffersInRole(m, n);
    assert IsTopRival(cs, m, n) && IsTopRival(cs, n, m);
  }

  lemma SpecDeterminesChoice(cs: seq<Candidate>, policy: Policy, d: Decision, e: Decision)
    requires Meets(cs, policy, d) && Meets(cs, policy, e)
    ensures SameChoice(d, e)
  {
    if cs != [] && !ExplicitConflict(cs) {
      var m :| IsTop(cs, m) && Settles(cs, m, policy, d);
      var n :| IsTop(cs, n) && Settles(cs, n, policy, e);
      if m != n {
        TwoTops(cs, m, n, policy);
      }
    }
  }

  /** The top of a list without explicit conflict that is explicit, or confident enough and uncontested. */
  ghost predicate Wins(cs: seq<Candidate>, m: Candidate, policy: Policy) {
    && IsTop(cs, m) && !ExplicitConflict(cs)
    && (m.basis.Explicit() || (m.confidence >= policy.minimumConfidence && !Contested(cs, m, policy)))
  }

  lemma WinnerSettles(cs: seq<Candidate>, policy: Policy, d: Decision, m: Candidate)
    requires Meets(cs, policy, d) && Wins(cs, m, policy)
    ensures d.Selected? && d.selected == m
  {
    var n :| IsTop(cs, n) && Settles(cs, n, policy, d);
    if n != m {
      TwoTops(cs, m, n, policy);
    }
  }

  /** Exactly the candidate that wins is selected; in particular an inferred one has the minimum confidence. */
  lemma SelectedIffWins(cs: seq<Candidate>, policy: Policy, m: Candidate)
    ensures Correlate(cs, policy).Selected? && Correlate(cs, policy).selected == m <==> Wins(cs, m, policy)
  {
    CorrelationMeetsSpec(cs, policy);
    if Wins(cs, m, policy) {
      WinnerSettles(cs, policy, Correlate(cs, policy), m);
    }
  }

  /**
   * Nobody has a better claim than the selected parent: not by basis, on the same basis not by trust, with the same
   * trust not by confidence, and with the same confidence not by an older session id.
   */
  lemma SelectedOutranks(cs: seq<Candidate>, policy: Policy, c: Candidate)
    requires Correlate(cs, policy).Selected? && c in cs
    ensures var m := Correlate(cs, policy).selected;
            && m in cs
            && !StrongerBasis(c.basis, m.basis)
            && (c.basis == m.basis ==> !MoreTrusted(c.trust, m.trust))
            && (c.basis == m.basis && c.trust == m.trust ==> c.confidence <= m.confidence)
            && (c.basis == m.basis && c.trust == m.trust && c.confidence == m.confidence ==> m.parent.id <= c.parent.id)
  {
    hide Less;
    var m := Correlate(cs, policy).selected;
    SelectedIffWins(cs, policy, m);
    ComesFirst(c, m);
  }

  /** The specification looks only at which candidates there are. */
  lemma SpecIgnoresOrder(a: seq<Candidate>, b: seq<Candidate>, policy: Policy, d: Decision)
    requires multiset(a) == multiset(b) && Meets(a, policy, d)
    ensures Meets(b, policy, d)
  {
    SameMembers(a, b);
    if a != [] && !ExplicitConflict(a) {
      var m :| IsTop(a, m) && Settles(a, m, policy, d);
      assert IsTop(b, m);
      assert forall r :: IsTopRival(a, m, r) <==> IsTopRival(b, m, r);
      assert Settles(b, m, policy, d);
    }
  }

  /** Which parent is selected, or why none is, never depends on the order of the candidates. */
  lemma ChoiceIgnoresOrder(a: seq<Candidate>, b: seq<Candidate>, policy: Policy)
    requires multiset(a) == multiset(b)
    ensures SameChoice(Correlate(a, policy), Correlate(b, policy))
  {
    CorrelationMeetsSpec(a, policy);
    CorrelationMeetsSpec(b, policy);
    SpecIgnoresOrder(a, b, policy, Correlate(a, policy));
    SpecDeterminesChoice(b, policy, Correlate(a, policy), Correlate(b, policy));
  }

  // ----- when the whole decision, with its ordered evidence, does not depend on the order either -----

  /** A pair of candidates differing only in role occurs only for the session id of a candidate that wins. */
  ghost predicate TiesUnseen(cs: seq<Candidate>, policy: Policy) {
    forall x, y :: x in cs && y in cs && Tied(x, y) && x != y ==>
      exists m :: Wins(cs, m, policy) && x.parent.id == m.parent.id
  }

  lemma {:induction false} PartsMembers(all: seq<Candidate>, m: Candidate)
    ensures forall e :: e in Supporting(all, m) <==> e in all && e.parent == m.parent && e != m
    ensures forall e :: e in Rejected(all, m) <==> e in all && e.parent != m.parent
  {
    if all != [] {
      var front, x := all[..|all| - 1], all[|all| - 1];
      assert all == front + [x];
      PartsMembers(front, m);
    }
  }

  lemma {:induction false} PartsDescend(all: seq<Candidate>, m: Candidate)
    requires Descending(all)
    ensures Descending(Supporting(all, m)) && Descending(Rejected(all, m))
  {
    if all != [] {
      var front, x := all[..|all| - 1], all[|all| - 1];
      PartsDescend(front, m);
      PartsMembers(front, m);
      forall e | e in front
        ensures !Less(e, x)
      {
        var i :| 0 <= i < |front| && front[i] == e;
        assert all[i] == e;
      }
      SnocDescends(Supporting(front, m), x);
      SnocDescends(Rejected(front, m), x);
    }
  }

  lemma SnocDescends(s: seq<Candidate>, x: Candidate)
    requires Descending(s)
    ensures (forall e :: e in s ==> !Less(e, x)) ==> Descending(s + [x])
  {
    assert forall i :: 0 <= i < |s| ==> s[i] in s;
  }

  lemma PartsPermute(a: seq<Candidate>, b: seq<Candidate>, m: Candidate)
    requires multiset(a) == multiset(b)
    ensures multiset(Supporting(a, m)) == multiset(Supporting(b, m))
    ensures multiset(Rejected(a, m)) == multiset(Rejected(b, m))
  {
    PartsMembers(a, m);
    PartsMembers(b, m);
    forall c
      ensures Count(Supporting(a, m), c) == Count(Supporting(b, m), c)
      ensures Count(Rejected(a, m), c) == Count(Rejected(b, m), c)
    {
      PartsCount(a, m, c);
      PartsCount(b, m, c);
      if c.parent == m.parent {
        assert c !in Rejected(a, m) && c !in Rejected(b, m);
      } else {
        assert c !in Supporting(a, m) && c !in Supporting(b, m);
      }
    }
    CountsDecide(Supporting(a, m), Supporting(b, m));
    CountsDecide(Rejected(a, m), Rejected(b, m));
  }

  lemma CountsDecide(s: seq<Candidate>, t: seq<Candidate>)
    ensures (forall c :: Count(s, c) == Count(t, c)) ==> multiset(s) == multiset(t)
  {
    if forall c :: Count(s, c) == Count(t, c) {
      forall c
        ensures multiset(s)[c] == multiset(t)[c]
      {
        assert Count(s, c) == Count(t, c);
      }
    }
  }

  lemma PartsAgree(a: seq<Candidate>, b: seq<Candidate>, m: Candidate)
    requires multiset(a) == multiset(b) && Descending(a) && Descending(b)
    requires forall x, y :: x in a && y in a && Tied(x, y) && x != y ==> x.parent.id == m.parent.id
    ensures Supporting(a, m) == Supporting(b, m) && Rejected(a, m) == Rejected(b, m)
  {
    PartsMembers(a, m);
    PartsPermute(a, b, m);
    PartsDescend(a, m);
    PartsDescend(b, m);
    forall x, y | x in a && y in a && Tied(x, y) && (x.parent == m.parent <==> y.parent == m.parent)
      ensures x == y
    {
      TiedDiffersInRole(x, y);
    }
    assert TieFree(Supporting(a, m)) && TieFree(Rejected(a, m));
    ArrangementUnique(Supporting(a, m), Supporting(b, m));
    ArrangementUnique(Rejected(a, m), Rejected(b, m));
  }

  /** What a decision holds is determined by its choice and the ranking. */
  lemma DecisionParts(cs: seq<Candidate>, policy: Policy)
    ensures match Correlate(cs, policy)
            case Selected(m, supporting, rejected) =>
              supporting == Supporting(Sort(cs), m) && rejected == Rejected(Sort(cs), m)
            case Ambiguous(all) => all == Sort(cs)
            case Unassigned(all) => all == Sort(cs)
  {
  }

  /** The winner is the selected candidate, so the ties that do not show are those of the selected session id. */
  lemma UnseenForDecision(cs: seq<Candidate>, policy: Policy)
    ensures TiesUnseen(cs, policy) <==>
            forall x, y :: x in cs && y in cs && Tied(x, y) && x != y ==>
              Correlate(cs, policy).Selected? && x.parent.id == Correlate(cs, policy).selected.parent.id
  {
    forall m
      ensures Wins(cs, m, policy) <==> Correlate(cs, policy).Selected? && Correlate(cs, policy).selected == m
    {
      SelectedIffWins(cs, policy, m);
    }
  }

  lemma UnseenTiesDoNotMatter(a: seq<Candidate>, b: seq<Candidate>, policy: Policy)
    requires multiset(a) == multiset(b) && TiesUnseen(a, policy)
    ensures Correlate(a, policy) == Correlate(b, policy)
  {
    ChoiceIgnoresOrder(a, b, policy);
    UnseenForDecision(a, policy);
    DecisionParts(a, policy);
    DecisionParts(b, policy);
    SortSorts(a);
    SortSorts(b);
    SameMembers(Sort(a), a);
    if Correlate(a, policy).Selected? {
      PartsAgree(Sort(a), Sort(b), Correlate(a, policy).selected);
    } else {
      ArrangementUnique(Sort(a), Sort(b));
    }
  }

  /** `x` stands in `s` with only greater candidates before it. */
  ghost predicate Leads(s: seq<Candidate>, x: Candidate) {
    exists i :: 0 <= i < |s| && s[i] == x && forall j :: 0 <= j < i ==> Less(x, s[j])
  }

  lemma LeaderUnique(s: seq<Candidate>, x: Candidate, y: Candidate)
    requires Leads(s, x) && Leads(s, y) && Tied(x, y)
    ensures x == y
  {
  }

  lemma SnocLeads(s: seq<Candidate>, last: Candidate, x: Candidate)
    requires Leads(s, x) || (x == last && forall e :: e in s ==> Less(x, e))
    ensures Leads(s + [last], x)
  {
    if Leads(s, x) {
      var i :| 0 <= i < |s| && s[i] == x && forall j :: 0 <= j < i ==> Less(x, s[j]);
      assert (s + [last])[i] == x;
    } else {
      assert (s + [last])[|s|] == x;
      assert forall j :: 0 <= j < |s| ==> s[j] in s;
    }
  }

  lemma LeadsInFront(s: seq<Candidate>, x: Candidate)
    requires Leads(s, x)
    ensures Leads(s[..|s| - 1], x) || (s[|s| - 1] == x && forall e :: e in s[..|s| - 1] ==> Less(x, e))
  {
    var i :| 0 <= i < |s| && s[i] == x && forall j :: 0 <= j < i ==> Less(x, s[j]);
    if i < |s| - 1 {
      assert s[..|s| - 1][i] == x;
    }
  }

  /** Inserting sorts a candidate behind everything tied with it. */
  lemma {:induction false} InsertKeepsLeader(s: seq<Candidate>, c: Candidate, x: Candidate)
    requires Leads(s, x)
    ensures Leads(Insert(s, c), x)
  {
    var front, last := s[..|s| - 1], s[|s| - 1];
    if Less(last, c) {
      LeadsInFront(s, x);
      if Leads(front, x) {
        InsertKeepsLeader(front, c, x);
      } else {
        InsertPermutes(front, c);
        forall e | e in Insert(front, c)
          ensures Less(x, e)
        {
          assert e in multiset(Insert(front, c));
        }
      }
      SnocLeads(Insert(front, c), last, x);
    } else {
      SnocLeads(s, c, x);
    }
  }

  lemma {:induction false} FirstLeads(x: Candidate, rest: seq<Candidate>)
    ensures Leads(Sort([x] + rest), x)
  {
    var cs := [x] + rest;
    if rest == [] {
      assert cs == [x] && [x][..0] == [];
      assert Sort(cs) == [x];
    } else {
      assert cs[..|cs| - 1] == [x] + rest[..|rest| - 1];
      FirstLeads(x, rest[..|rest| - 1]);
      InsertKeepsLeader(Sort(cs[..|cs| - 1]), cs[|cs| - 1], x);
    }
  }

  lemma {:induction false} RejectedKeepsLeader(s: seq<Candidate>, m: Candidate, x: Candidate)
    requires Leads(s, x) && x.parent != m.parent
    ensures Leads(Rejected(s, m), x)
  {
    var front, last := s[..|s| - 1], s[|s| - 1];
    LeadsInFront(s, x);
    if Leads(front, x) {
      RejectedKeepsLeader(front, m, x);
    } else {
      PartsMembers(front, m);
    }
    if last.parent != m.parent {
      SnocLeads(Rejected(front, m), last, x);
    } else {
      assert Rejected(s, m) == Rejected(front, m);
    }
  }

  /** The same candidates with `x` moved to the front. */
  lemma MovedFirst(cs: seq<Candidate>, x: Candidate) returns (rest: seq<Candidate>)
    requires x in cs
    ensures multiset([x] + rest) == multiset(cs)
  {
    var i :| 0 <= i < |cs| && cs[i] == x;
    rest := cs[..i] + cs[i + 1..];
    assert cs == cs[..i] + [x] + cs[i + 1..];
  }

  /** A tie that shows: one of two orders of the same candidates gives another decision. */
  lemma SeenTieMatters(a: seq<Candidate>, policy: Policy, x: Candidate, y: Candidate) returns (b: seq<Candidate>)
    requires x in a && y in a && Tied(x, y) && x != y
    requires Correlate(a, policy).Selected? ==> x.parent.id != Correlate(a, policy).selected.parent.id
    ensures multiset(b) == multiset(a) && Correlate(b, policy) != Correlate(a, policy)
  {
    var p := MovedFirst(a, x);
    var q := MovedFirst(a, y);
    b := [x] + p;
    if Correlate([x] + p, policy) == Correlate(a, policy) == Correlate([y] + q, policy) {
      FirstLeads(x, p);
      FirstLeads(y, q);
      DecisionParts([x] + p, policy);
      DecisionParts([y] + q, policy);
      TiedDiffersInRole(x, y);
      if Correlate(a, policy).Selected? {
        var m := Correlate(a, policy).selected;
        RejectedKeepsLeader(Sort([x] + p), m, x);
        RejectedKeepsLeader(Sort([y] + q), m, y);
        LeaderUnique(Rejected(Sort([x] + p), m), x, y);
      } else {
        LeaderUnique(Sort([x] + p), x, y);
      }
      assert false;
    } else if Correlate(b, policy) == Correlate(a, policy) {
      b := [y] + q;
    }
  }

  /**
   * The whole decision, ordered evidence included, is the same for every order of the candidates if and only if
   * candidates that differ only in role occur for the id of the winning candidate alone.
   */
  lemma OrderIndependentIff(a: seq<Candidate>, policy: Policy)
    ensures (forall b :: multiset(b) == multiset(a) ==> Correlate(b, policy) == Correlate(a, policy))
            <==> TiesUnseen(a, policy)
  {
    if TiesUnseen(a, policy) {
      forall b | multiset(b) == multiset(a)
        ensures Correlate(b, policy) == Correlate(a, policy)
      {
        UnseenTiesDoNotMatter(a, b, policy);
      }
    } else {
      UnseenForDecision(a, policy);
      var d := Correlate(a, policy);
      var x, y :| x in a && y in a && Tied(x, y) && x != y && !(d.Selected? && x.parent.id == d.selected.parent.id);
      var b := SeenTieMatters(a, policy, x, y);
    }
  }

  /** In particular, with one role per session id permuting the candidates changes nothing. */
  lemma OrderIndependent(a: seq<Candidate>, b: seq<Candidate>, policy: Policy)
    requires multiset(a) == multiset(b) && OneRole(a)
    ensures Correlate(a, policy) == Correlate(b, policy)
  {
    forall x, y | x in a && y in a && Tied(x, y)
      ensures x == y
    {
      TiedDiffersInRole(x, y);
    }
    UnseenTiesDoNotMatter(a, b, policy);
  }

  lemma {:induction false} NoneSupporting(all: seq<Candidate>, m: Candidate)
    requires forall i :: 0 <= i < |all| ==> all[i].parent != m.parent || all[i] == m
    ensures Supporting(all, m) == []
  {
    if all != [] {
      NoneSupporting(all[..|all| - 1], m);
    }
  }

  lemma SelectedAlone(cs: seq<Candidate>, m: Candidate)
    requires forall e :: e in cs ==> e.parent != m.parent || e == m
    ensures Supporting(Sort(cs), m) == []
  {
    SortSorts(cs);
    SameMembers(Sort(cs), cs);
    assert forall i :: 0 <= i < |Sort(cs)| ==> Sort(cs)[i] in Sort(cs);
    NoneSupporting(Sort(cs), m);
  }

  lemma TwoRoles(m: Candidate, x: Candidate, y: Candidate)
    requires m.basis.ExactNative? && x.basis.WeakHeuristic? && y == x.(parent := R.Child(2))
    requires m.parent == R.Main(1) && x.parent == R.Main(2)
    ensures IsTop([m, x, y], m) && !ExplicitConflict([m, x, y])
    ensures Tied(x, y) && x in [m, x, y] && y in [m, x, y]
    ensures forall e :: e in [m, x, y] ==> e.parent != m.parent || e == m
  {
    LexTotal(x.evidence, x.evidence);
    LessAsymmetric(m, m);
    assert [m, x, y][0] == m && [m, x, y][1] == x && [m, x, y][2] == y;
  }

  /** A list naming one session in two roles, whose rejected evidence depends on the order. */
  lemma TwoRolesReorder() returns (a: seq<Candidate>, b: seq<Candidate>, policy: Policy)
    ensures multiset(a) == multiset(b) && Correlate(a, policy).Selected? && Correlate(b, policy).Selected?
    ensures Correlate(a, policy).rejected != Correlate(b, policy).rejected
  {
    var m := Candidate(R.Main(1), ExactNative, R.Authoritative, 9000, "m");
    var x := Candidate(R.Main(2), WeakHeuristic, R.Heuristic, 5000, "e");
    var y := x.(parent := R.Child(2));
    a, policy := [m, x, y], Policy(6000, 1000);
    TwoRoles(m, x, y);
    SelectedIffWins(a, policy, m);
    b := SeenTieMatters(a, policy, x, y);
    ChoiceIgnoresOrder(a, b, policy);
    SameMembers(a, b);
    SelectedAlone(a, m);
    SelectedAlone(b, m);
    DecisionParts(a, policy);
    DecisionParts(b, policy);
  }

  /** A candidate of another parent than the selected one, with the same basis. */
  predicate Rivals(c: Candidate, m: Candidate) {
    c.parent != m.parent && c.basis == m.basis
  }

  lemma TopRivalExists(cs: seq<Candidate>, m: Candidate, c: Candidate, policy: Policy) returns (r: Candidate)
    requires Wins(cs, m, policy) && c in cs && c.parent != m.parent
    ensures IsTopRival(cs, m, r)
  {
    var ranked := Ranked(Sort(cs));
    RankedRepresents(cs);
    SelectedIffWins(cs, policy, m);
    RunnerUpIsTopRival(ranked, cs);
    r := ranked[1];
  }

  /** The top rival of a candidate with a rival of its own basis has that basis too, and at most its trust. */
  lemma TopRivalBasis(cs: seq<Candidate>, m: Candidate, r: Candidate, c: Candidate)
    requires IsTop(cs, m) && IsTopRival(cs, m, r) && c in cs && Rivals(c, m)
    ensures r.basis == m.basis && TrustRank(c.trust) <= TrustRank(r.trust) <= TrustRank(m.trust)
  {
    assert !Less(m, r) && !Less(r, c);
  }

  /** A selected inferred parent leads by the gap every rival of its basis that is trusted like its top rival. */
  lemma InferredLeads(cs: seq<Candidate>, policy: Policy, m: Candidate, r: Candidate, c: Candidate)
    requires Wins(cs, m, policy) && !m.basis.Explicit() && IsTopRival(cs, m, r)
    requires c in cs && Rivals(c, m) && TrustRank(c.trust) >= TrustRank(r.trust)
    ensures c.confidence + policy.minimumGap <= m.confidence
  {
    TopRivalBasis(cs, m, r, c);
    AnyTopRivalDecides(cs, m, r, policy);
    assert !Less(r, c);
  }

  function WithConfidence(cs: seq<Candidate>, i: nat, confidence: Confidence): seq<Candidate>
    requires i < |cs|
  {
    cs[i := cs[i].(confidence := confidence)]
  }

  lemma OthersRemain(cs: seq<Candidate>, i: nat, confidence: Confidence)
    requires i < |cs|
    ensures var changed := WithConfidence(cs, i, confidence);
            && cs[i].(confidence := confidence) in changed
            && (forall c :: c in cs && c != cs[i] ==> c in changed)
            && (forall c :: c in changed ==> c in cs || c == cs[i].(confidence := confidence))
            && (ExplicitConflict(changed) ==> ExplicitConflict(cs))
  {
    var changed := WithConfidence(cs, i, confidence);
    assert changed[i] == cs[i].(confidence := confidence);
    forall c | c in cs && c != cs[i]
      ensures c in changed
    {
      var j :| 0 <= j < |cs| && cs[j] == c;
      assert changed[j] == c;
    }
    if ExplicitConflict(changed) {
      var a, b :| a in changed && b in changed && a.parent != b.parent && a.basis.Explicit() && b.basis.Explicit();
      var a' := if a in cs then a else cs[i];
      var b' := if b in cs then b else cs[i];
      assert a' in cs && b' in cs && a'.parent == a.parent && b'.parent == b.parent;
    }
  }

  /** A rival trusted less than the top rival may come as close as it likes: the selection does not look at it. */
  lemma LessTrustedRivalIsIgnored(
    cs: seq<Candidate>, policy: Policy, m: Candidate, r: Candidate, i: nat, confidence: Confidence)
    requires Wins(cs, m, policy) && !m.basis.Explicit() && IsTopRival(cs, m, r)
    requires i < |cs| && Rivals(cs[i], m) && TrustRank(cs[i].trust) < TrustRank(r.trust)
    ensures Wins(WithConfidence(cs, i, confidence), m, policy)
  {
    var changed := WithConfidence(cs, i, confidence);
    OthersRemain(cs, i, confidence);
    TopRivalBasis(cs, m, r, cs[i]);
    assert IsTop(changed, m) && IsTopRival(changed, m, r);
    AnyTopRivalDecides(cs, m, r, policy);
    AnyTopRivalDecides(changed, m, r, policy);
  }

  /** Whatever the confidence of candidate `i`, it stays behind a selected `m` by the gap. */
  ghost predicate GapGuaranteed(cs: seq<Candidate>, policy: Policy, m: Candidate, i: nat)
    requires i < |cs|
  {
    forall confidence: Confidence ::
      var d := Correlate(WithConfidence(cs, i, confidence), policy);
      d.Selected? && d.selected == m ==> confidence + policy.minimumGap <= m.confidence
  }

  lemma TrustedRivalIsLed(
    cs: seq<Candidate>, policy: Policy, m: Candidate, r: Candidate, i: nat, confidence: Confidence)
    requires IsTop(cs, m) && !m.basis.Explicit() && IsTopRival(cs, m, r) && i < |cs| && Rivals(cs[i], m)
    requires TrustRank(cs[i].trust) >= TrustRank(r.trust)
    requires Wins(WithConfidence(cs, i, confidence), m, policy)
    ensures confidence + policy.minimumGap <= m.confidence
  {
    var changed, c := WithConfidence(cs, i, confidence), cs[i].(confidence := confidence);
    OthersRemain(cs, i, confidence);
    var q := TopRivalExists(changed, m, c, policy);
    TopRivalBasis(cs, m, r, cs[i]);
    TopRivalBasis(changed, m, q, c);
    assert q in cs ==> !Less(r, q);
    InferredLeads(changed, policy, m, q, c);
  }

  /**
   * A selected inferred parent is sure to lead a rival of its basis by the gap, whatever confidence the rival claims,
   * if and only if the rival is trusted at least like the top rival.
   */
  lemma GapGuaranteedIff(cs: seq<Candidate>, policy: Policy, m: Candidate, r: Candidate, i: nat)
    requires Wins(cs, m, policy) && !m.basis.Explicit() && IsTopRival(cs, m, r)
    requires i < |cs| && Rivals(cs[i], m)
    ensures GapGuaranteed(cs, policy, m, i) <==> TrustRank(cs[i].trust) >= TrustRank(r.trust)
  {
    if TrustRank(cs[i].trust) >= TrustRank(r.trust) {
      forall confidence: Confidence |
        Correlate(WithConfidence(cs, i, confidence), policy).Selected?
        && Correlate(WithConfidence(cs, i, confidence), policy).selected == m
        ensures confidence + policy.minimumGap <= m.confidence
      {
        SelectedIffWins(WithConfidence(cs, i, confidence), policy, m);
        TrustedRivalIsLed(cs, policy, m, r, i, confidence);
      }
    } else {
      LessTrustedRivalIsIgnored(cs, policy, m, r, i, m.confidence);
      SelectedIffWins(WithConfidence(cs, i, m.confidence), policy, m);
    }
  }

  /** Adding inferred candidates never changes an explicit selection. */
  lemma ExplicitSelectionStable(cs: seq<Candidate>, extra: seq<Candidate>, policy: Policy)
    requires Correlate(cs, policy).Selected? && Correlate(cs, policy).selected.basis.Explicit()
    requires forall c :: c in extra ==> !c.basis.Explicit()
    ensures Correlate(cs + extra, policy).Selected?
    ensures Correlate(cs + extra, policy).selected == Correlate(cs, policy).selected
  {
    var m := Correlate(cs, policy).selected;
    SelectedIffWins(cs, policy, m);
    ExtraIsBelow(cs, extra, m);
    SelectedIffWins(cs + extra, policy, m);
  }

  lemma ExtraIsBelow(cs: seq<Candidate>, extra: seq<Candidate>, m: Candidate)
    requires IsTop(cs, m) && m.basis.Explicit() && !ExplicitConflict(cs)
    requires forall c :: c in extra ==> !c.basis.Explicit()
    ensures IsTop(cs + extra, m) && !ExplicitConflict(cs + extra)
  {
    assert forall c :: c in cs + extra && c.basis.Explicit() ==> c in cs;
  }

  ghost function Count(s: seq<Candidate>, c: Candidate): nat {
    multiset(s)[c]
  }

  lemma CountSnoc(s: seq<Candidate>, x: Candidate, c: Candidate)
    ensures Count(s + [x], c) == Count(s, c) + if x == c then 1 else 0
  {
  }

  lemma PartsSnoc(front: seq<Candidate>, x: Candidate, selected: Candidate)
    ensures Supporting(front + [x], selected)
         == if x.parent == selected.parent && x != selected then Supporting(front, selected) + [x]
            else Supporting(front, selected)
    ensures Rejected(front + [x], selected)
         == if x.parent != selected.parent then Rejected(front, selected) + [x] else Rejected(front, selected)
  {
    assert (front + [x])[..|front|] == front;
  }

  lemma {:induction false} PartsCount(all: seq<Candidate>, selected: Candidate, c: Candidate)
    ensures Count(Supporting(all, selected), c) + Count(Rejected(all, selected), c)
         == if c == selected then 0 else Count(all, c)
  {
    if all != [] {
      var front, x := all[..|all| - 1], all[|all| - 1];
      assert all == front + [x];
      PartsCount(front, selected, c);
      PartsSnoc(front, x, selected);
      CountSnoc(front, x, c);
      CountSnoc(Supporting(front, selected), x, c);
      CountSnoc(Rejected(front, selected), x, c);
    }
  }

  /** Every candidate is kept, ranked, in exactly one part of the decision. */
  ghost predicate KeepsEvidence(cs: seq<Candidate>, d: Decision, c: Candidate) {
    match d
    case Selected(m, supporting, rejected) =>
      m in cs && (c != m ==> Count(supporting, c) + Count(rejected, c) == Count(cs, c))
    case Ambiguous(all) => multiset(all) == multiset(cs) && Descending(all)
    case Unassigned(all) => multiset(all) == multiset(cs) && Descending(all)
  }

  lemma RankedKeepsEvidence(
    all: seq<Candidate>, ranked: seq<Candidate>, cs: seq<Candidate>, policy: Policy, c: Candidate)
    requires multiset(all) == multiset(cs) && Descending(all)
    requires ranked != [] ==> ranked[0] in cs
    ensures KeepsEvidence(cs, DecideRanked(all, ranked, policy), c)
  {
    if ranked != [] {
      PartsCount(all, ranked[0], c);
    }
  }

  /** No evidence is lost in any decision. */
  lemma EvidenceConserved(cs: seq<Candidate>, policy: Policy, c: Candidate)
    ensures KeepsEvidence(cs, Correlate(cs, policy), c)
  {
    SortSorts(cs);
    RankedRepresents(cs);
    var ranked := Ranked(Sort(cs));
    assert ranked != [] ==> ranked[0] in ranked;
    RankedKeepsEvidence(Sort(cs), ranked, cs, policy, c);
  }

  /**
   * The gap claim stops at the selected trust: the gap is only tested against the top-ranked rival, so a rival of
   * lower trust behind it may be arbitrarily close.
   */
  lemma CloserRivalOfLowerTrust() returns (cs: seq<Candidate>, policy: Policy)
    ensures OneRole(cs) && Correlate(cs, policy).Selected?
    ensures exists c :: c in cs && c.parent != Correlate(cs, policy).selected.parent
                        && c.basis == Correlate(cs, policy).selected.basis
                        && c.confidence + policy.minimumGap > Correlate(cs, policy).selected.confidence
  {
    var m := Candidate(R.Main(1), WeakHeuristic, R.Authoritative, 9000, "m");
    var r := Candidate(R.Main(2), WeakHeuristic, R.Corroborating, 1000, "r");
    var c := Candidate(R.Main(3), WeakHeuristic, R.Heuristic, 8999, "c");
    cs, policy := [m, r, c], Policy(6000, 1000);
    SampleRanking(m, r, c);
    AnyTopRivalDecides(cs, m, r, policy);
    SelectedIffWins(cs, policy, m);
    assert cs[2] == c;
  }

  lemma SampleRanking(m: Candidate, r: Candidate, c: Candidate)
    requires m.basis == r.basis == c.basis == WeakHeuristic
    requires m.parent == R.Main(1) && r.parent == R.Main(2) && c.parent == R.Main(3)
    requires m.trust.Authoritative? && r.trust.Corroborating? && c.trust.Heuristic?
    ensures IsTop([m, r, c], m) && IsTopRival([m, r, c], m, r)
    ensures OneRole([m, r, c]) && !ExplicitConflict([m, r, c])
  {
    LessAsymmetric(m, m);
    LessAsymmetric(r, r);
    assert [m, r, c][0] == m && [m, r, c][1] == r;
  }
}
