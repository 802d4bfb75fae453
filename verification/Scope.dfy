/** The transport scope registry: reservations shared by concurrent guards, protected by generations. */
module Scope {
  import opened Core

  type Transport = string

  datatype Binding = Binding(root: nat, generation: u64, pending: u64, committed: bool)

  datatype Guard = Guard(transport: Transport, root: nat, generation: u64)

  datatype ScopeError = AlreadyBound | NotBound | CapacityExhausted

  datatype Reply<+T> = Ok(value: T) | Err(error: ScopeError)

  datatype Registry = Registry(roots: map<Transport, Binding>, next: u64)

  datatype Step<+T> = Step(registry: Registry, reply: Reply<T>)

  // ----- each registry method as one atomic step -----

  function Begin(reg: Registry, t: Transport, root: nat): Step<u64> {
    if t in reg.roots then
      var b := reg.roots[t];
      if b.root != root then Step(reg, Err(AlreadyBound))
      else if b.pending == U64_MAX then Step(reg, Err(CapacityExhausted))
      else Step(reg.(roots := reg.roots[t := b.(pending := b.pending + 1)]), Ok(b.generation))
    else if reg.next == U64_MAX then Step(reg, Err(CapacityExhausted))
    else Step(Registry(reg.roots[t := Binding(root, reg.next, 1, false)], reg.next + 1), Ok(reg.next))
  }

  function Bind(reg: Registry, t: Transport, root: nat): Step<()> {
    if t in reg.roots then
      var b := reg.roots[t];
      if b.root != root then Step(reg, Err(AlreadyBound))
      else Step(reg.(roots := reg.roots[t := b.(committed := true)]), Ok(()))
    else if reg.next == U64_MAX then Step(reg, Err(CapacityExhausted))
    else Step(Registry(reg.roots[t := Binding(root, reg.next, 0, true)], reg.next + 1), Ok(()))
  }

  predicate Holds(reg: Registry, g: Guard) {
    && g.transport in reg.roots
    && reg.roots[g.transport].root == g.root
    && reg.roots[g.transport].generation == g.generation
  }

  function Commit(reg: Registry, g: Guard): Step<()> {
    if !Holds(reg, g) || reg.roots[g.transport].pending == 0 then Step(reg, Err(NotBound))
    else
      var b := reg.roots[g.transport];
      Step(reg.(roots := reg.roots[g.transport := b.(pending := b.pending - 1, committed := true)]), Ok(()))
  }

  function Rollback(reg: Registry, g: Guard): Registry {
    if !Holds(reg, g) then reg
    else
      var b := reg.roots[g.transport];
      var left := SatSub(b.pending, 1);
      if left == 0 && !b.committed then reg.(roots := reg.roots - {g.transport})
      else reg.(roots := reg.roots[g.transport := b.(pending := left)])
  }

  function Release(reg: Registry, t: Transport): Registry {
    reg.(roots := reg.roots - {t})
  }

  /** The root a transport is authorised for. */
  function RootOf(reg: Registry, t: Transport): Reply<nat> {
    if t in reg.roots && reg.roots[t].committed then Ok(reg.roots[t].root) else Err(NotBound)
  }

  /** The registry's own in-place form. */
  class ScopeRegistry {
    var roots: map<Transport, Binding>
    var next: u64

    constructor ()
      ensures View() == Registry(map[], 0)
    {
      roots, next := map[], 0;
    }

    function View(): Registry
      reads this
    {
      Registry(roots, next)
    }

    method NextGeneration() returns (r: Reply<u64>)
      modifies this`next
      ensures old(next) == U64_MAX ==> r == Err(CapacityExhausted) && next == old(next)
      ensures old(next) < U64_MAX ==> r == Ok(old(next)) && next == old(next) + 1
    {
      if next == U64_MAX {
        return Err(CapacityExhausted);
      }
      r := Ok(next);
      next := next + 1;
    }

    method BindCommitted(t: Transport, root: nat) returns (r: Reply<()>)
      modifies this
      ensures Step(View(), r) == Bind(old(View()), t, root)
    {
      if t in roots {
        if roots[t].root != root {
          return Err(AlreadyBound);
        }
        roots := roots[t := roots[t].(committed := true)];
        return Ok(());
      }
      var generation := NextGeneration();
      if generation.Err? {
        return Err(generation.error);
      }
      roots := roots[t := Binding(root, generation.value, 0, true)];
      r := Ok(());
    }

    method BeginRegistration(t: Transport, root: nat) returns (r: Reply<u64>)
      modifies this
      ensures Step(View(), r) == Begin(old(View()), t, root)
    {
      if t in roots {
        var b := roots[t];
        if b.root != root {
          return Err(AlreadyBound);
        }
        if b.pending == U64_MAX {
          return Err(CapacityExhausted);
        }
        roots := roots[t := b.(pending := b.pending + 1)];
        return Ok(b.generation);
      }
      r := NextGeneration();
      if r.Ok? {
        roots := roots[t := Binding(root, r.value, 1, false)];
      }
    }

    method CommitRegistration(t: Transport, root: nat, generation: u64) returns (r: Reply<()>)
      modifies this`roots
      ensures Step(View(), r) == Commit(old(View()), Guard(t, root, generation))
    {
      if t !in roots {
        return Err(NotBound);
      }
      var b := roots[t];
      if b.root != root || b.generation != generation || b.pending == 0 {
        return Err(NotBound);
      }
      b := b.(pending := b.pending - 1);
      b := b.(committed := true);
      roots := roots[t := b];
      r := Ok(());
    }

    method RollbackRegistration(t: Transport, root: nat, generation: u64)
      modifies this`roots
      ensures View() == Rollback(old(View()), Guard(t, root, generation))
    {
      var remove := false;
      if t in roots {
        var b := roots[t];
        if b.root == root && b.generation == generation {
          if b.pending > 0 {
            b := b.(pending := b.pending - 1);
            roots := roots[t := b];
          }
          remove := b.pending == 0 && !b.committed;
        }
      }
      if remove {
        roots := roots - {t};
      } else if t in old(roots) && roots[t] == old(roots)[t] {
        assert roots == old(roots)[t := roots[t]];
      }
    }

    method Root(t: Transport) returns (r: Reply<nat>)
      ensures r == RootOf(View(), t)
    {
      if t in roots && roots[t].committed {
        return Ok(roots[t].root);
      }
      r := Err(NotBound);
    }

    method ReleaseTransport(t: Transport)
      modifies this`roots
      ensures View() == Release(old(View()), t)
    {
      roots := roots - {t};
    }
  }

  // ----- every interleaving of guards -----

  /** A live guard, with the number of releases its transport had seen when it was taken. */
  datatype Ticket = Ticket(guard: Guard, epoch: nat)

  /**
   * The registry beside what its clients know without it: which guards are live, how often each transport was
   * released, and which root was last granted to it since.
   */
  datatype World = World(
    registry: Registry, live: multiset<Ticket>, epochs: map<Transport, nat>, granted: map<Transport, nat>)

  datatype Op =
    | BeginOp(transport: Transport, root: nat)
    | CommitOp(ticket: Ticket)
    | DropOp(ticket: Ticket)
    | BindOp(transport: Transport, root: nat)
    | ReleaseOp(transport: Transport)

  ghost function Epoch(w: World, t: Transport): nat {
    if t in w.epochs then w.epochs[t] else 0
  }

  /** A guard is current until its transport is released. */
  ghost predicate Current(w: World, k: Ticket) {
    k.epoch == Epoch(w, k.guard.transport)
  }

  ghost predicate Legal(w: World, op: Op) {
    (op.CommitOp? || op.DropOp?) ==> op.ticket in w.live
  }

  ghost function After(w: World, op: Op): World
    requires Legal(w, op)
  {
    match op
    case BeginOp(t, root) =>
      var step := Begin(w.registry, t, root);
      var live := if step.reply.Ok? then w.live + multiset{Ticket(Guard(t, root, step.reply.value), Epoch(w, t))}
                  else w.live;
      w.(registry := step.registry, live := live)
    case CommitOp(k) =>
      w.(registry := Commit(w.registry, k.guard).registry, live := w.live - multiset{k},
      granted := if Current(w, k) then w.granted[k.guard.transport := k.guard.root] else w.granted)
    case DropOp(k) =>
      w.(registry := Rollback(w.registry, k.guard), live := w.live - multiset{k})
    case BindOp(t, root) =>
      var step := Bind(w.registry, t, root);
      w.(registry := step.registry, granted := if step.reply.Ok? then w.granted[t := root] else w.granted)
    case ReleaseOp(t) =>
      World(Release(w.registry, t), w.live, w.epochs[t := Epoch(w, t) + 1], w.granted - {t})
  }

  const START: World := World(Registry(map[], 0), multiset{}, map[], map[])

  ghost predicate LegalRun(ops: seq<Op>)
    decreases |ops|, 0
  {
    ops == [] || (LegalRun(ops[..|ops| - 1]) && Legal(Run(ops[..|ops| - 1]), ops[|ops| - 1]))
  }

  ghost function Run(ops: seq<Op>): World
    requires LegalRun(ops)
    decreases |ops|, 1
  {
    if ops == [] then START else After(Run(ops[..|ops| - 1]), ops[|ops| - 1])
  }

  ghost function TicketOf(w: World, t: Transport): Ticket
    requires t in w.registry.roots
  {
    var b := w.registry.roots[t];
    Ticket(Guard(t, b.root, b.generation), Epoch(w, t))
  }

  /** Pending counts are live current guards, an uncommitted binding has one, and a commit is a grant. */
  ghost predicate BindingCounts(w: World, t: Transport) {
    if t !in w.registry.roots then t !in w.granted
    else
      var b := w.registry.roots[t];
      && b.pending == w.live[TicketOf(w, t)]
      && (b.committed <==> t in w.granted)
      && (b.committed ==> w.granted[t] == b.root)
      && (!b.committed ==> b.pending > 0)
      && b.generation < w.registry.next
  }

  /** No two bindings share a generation. */
  ghost predicate Apart(w: World, t: Transport, u: Transport) {
    t in w.registry.roots && u in w.registry.roots && t != u ==>
      w.registry.roots[t].generation != w.registry.roots[u].generation
  }

  /** A live guard is current exactly when the binding it took its place in still stands. */
  ghost predicate GuardPlaced(w: World, k: Ticket) {
    && k.guard.generation < w.registry.next
    && k.epoch <= Epoch(w, k.guard.transport)
    && (Current(w, k) <==> Holds(w.registry, k.guard))
    && (!Current(w, k) && k.guard.transport in w.registry.roots ==>
          w.registry.roots[k.guard.transport].generation != k.guard.generation)
  }

  ghost predicate Invariant(w: World) {
    && (forall t :: BindingCounts(w, t))
    && (forall t, u :: Apart(w, t, u))
    && (forall k :: k in w.live ==> GuardPlaced(w, k))
  }

  /** A current live guard is a ticket for the binding that stands. */
  lemma CurrentIsTicket(w: World, k: Ticket)
    requires Invariant(w) && k in w.live && Current(w, k)
    ensures Holds(w.registry, k.guard) && k == TicketOf(w, k.guard.transport)
    ensures w.registry.roots[k.guard.transport].pending == w.live[k] > 0
  {
    assert GuardPlaced(w, k);
    assert BindingCounts(w, k.guard.transport);
  }

  /** Steps touch one transport; the rest of the world is framed by these three conditions. */
  ghost predicate OnlyTouches(w: World, w': World, t: Transport) {
    && w.registry.next <= w'.registry.next
    && forall u :: u != t ==>
         && (u in w.registry.roots <==> u in w'.registry.roots)
         && (u in w.registry.roots ==> w.registry.roots[u] == w'.registry.roots[u])
         && (u in w.granted <==> u in w'.granted)
         && (u in w.granted ==> w.granted[u] == w'.granted[u])
         && Epoch(w, u) == Epoch(w', u)
  }

  ghost predicate SameTickets(w: World, w': World, t: Transport) {
    forall k: Ticket :: k.guard.transport != t ==> w.live[k] == w'.live[k]
  }

  lemma KeepsElsewhere(w: World, w': World, t: Transport)
    requires Invariant(w) && OnlyTouches(w, w', t) && SameTickets(w, w', t)
    requires BindingCounts(w', t)
    requires forall u :: u != t ==> Apart(w', t, u) && Apart(w', u, t)
    requires forall k :: k in w'.live && k.guard.transport == t ==> GuardPlaced(w', k)
    ensures Invariant(w')
  {
    forall u
      ensures BindingCounts(w', u)
    {
      assert BindingCounts(w, u);
    }
    forall u, v
      ensures Apart(w', u, v)
    {
      assert Apart(w, u, v);
    }
    forall k | k in w'.live
      ensures GuardPlaced(w', k)
    {
      if k.guard.transport != t {
        assert k in w.live && GuardPlaced(w, k);
      }
    }
  }

  lemma StaysApart(w: World, w': World, t: Transport)
    requires Invariant(w) && OnlyTouches(w, w', t)
    requires t in w'.registry.roots ==>
               (t in w.registry.roots && w'.registry.roots[t].generation == w.registry.roots[t].generation)
               || w'.registry.roots[t].generation >= w.registry.next
    ensures forall u :: u != t ==> Apart(w', t, u) && Apart(w', u, t)
  {
    forall u | u != t
      ensures Apart(w', t, u) && Apart(w', u, t)
    {
      assert Apart(w, t, u) && BindingCounts(w, u);
    }
  }

  lemma FreshIsUnused(w: World, k: Ticket)
    requires Invariant(w) && k.guard.generation >= w.registry.next
    ensures w.live[k] == 0
  {
    assert k in w.live ==> GuardPlaced(w, k);
  }

  lemma BeginTouches(w: World, t: Transport, root: nat)
    ensures OnlyTouches(w, After(w, BeginOp(t, root)), t) && SameTickets(w, After(w, BeginOp(t, root)), t)
  {
  }

  lemma BeginCounts(w: World, t: Transport, root: nat)
    requires Invariant(w) && Begin(w.registry, t, root).reply.Ok?
    ensures BindingCounts(After(w, BeginOp(t, root)), t)
  {
    assert BindingCounts(w, t);
    if t !in w.registry.roots {
      FreshIsUnused(w, TicketOf(After(w, BeginOp(t, root)), t));
    }
  }

  lemma BeginPlaces(w: World, t: Transport, root: nat, j: Ticket)
    requires Invariant(w) && Begin(w.registry, t, root).reply.Ok? && j.guard.transport == t
    ensures j in After(w, BeginOp(t, root)).live ==> GuardPlaced(After(w, BeginOp(t, root)), j)
  {
    assert j in w.live ==> GuardPlaced(w, j);
    assert BindingCounts(w, t);
  }

  lemma BeginKeeps(w: World, t: Transport, root: nat)
    requires Invariant(w)
    ensures Invariant(After(w, BeginOp(t, root)))
  {
    if Begin(w.registry, t, root).reply.Ok? {
      var w' := After(w, BeginOp(t, root));
      BeginTouches(w, t, root);
      BeginCounts(w, t, root);
      StaysApart(w, w', t);
      forall j | j in w'.live && j.guard.transport == t
        ensures GuardPlaced(w', j)
      {
        BeginPlaces(w, t, root, j);
      }
      KeepsElsewhere(w, w', t);
    }
  }

  lemma CommitKeeps(w: World, k: Ticket)
    requires Invariant(w) && k in w.live
    ensures Invariant(After(w, CommitOp(k)))
  {
    var w', t := After(w, CommitOp(k)), k.guard.transport;
    assert BindingCounts(w, t) && GuardPlaced(w, k);
    StaysApart(w, w', t);
    forall j | j in w'.live && j.guard.transport == t
      ensures GuardPlaced(w', j)
    {
      assert j in w.live && GuardPlaced(w, j);
    }
    KeepsElsewhere(w, w', t);
  }

  lemma DropTouches(w: World, k: Ticket)
    requires k in w.live
    ensures OnlyTouches(w, After(w, DropOp(k)), k.guard.transport)
    ensures SameTickets(w, After(w, DropOp(k)), k.guard.transport)
  {
  }

  lemma DropPlaces(w: World, k: Ticket, j: Ticket)
    requires Invariant(w) && k in w.live && j.guard.transport == k.guard.transport
    ensures j in After(w, DropOp(k)).live ==> GuardPlaced(After(w, DropOp(k)), j)
  {
    if j in After(w, DropOp(k)).live {
      assert j in w.live && GuardPlaced(w, j) && GuardPlaced(w, k);
      assert BindingCounts(w, k.guard.transport);
      if Current(w, j) && Current(w, k) {
        CurrentIsTicket(w, j);
        CurrentIsTicket(w, k);
      }
    }
  }

  lemma DropCounts(w: World, k: Ticket)
    requires Invariant(w) && k in w.live
    ensures BindingCounts(After(w, DropOp(k)), k.guard.transport)
  {
    assert BindingCounts(w, k.guard.transport) && GuardPlaced(w, k);
  }

  lemma DropKeeps(w: World, k: Ticket)
    requires Invariant(w) && k in w.live
    ensures Invariant(After(w, DropOp(k)))
  {
    var w', t := After(w, DropOp(k)), k.guard.transport;
    DropTouches(w, k);
    DropCounts(w, k);
    StaysApart(w, w', t);
    forall j | j in w'.live && j.guard.transport == t
      ensures GuardPlaced(w', j)
    {
      DropPlaces(w, k, j);
    }
    KeepsElsewhere(w, w', t);
  }

  lemma BindTouches(w: World, t: Transport, root: nat)
    ensures OnlyTouches(w, After(w, BindOp(t, root)), t) && SameTickets(w, After(w, BindOp(t, root)), t)
  {
  }

  lemma BindCounts(w: World, t: Transport, root: nat)
    requires Invariant(w)
    ensures BindingCounts(After(w, BindOp(t, root)), t)
  {
    var w' := After(w, BindOp(t, root));
    assert BindingCounts(w, t);
    if t in w'.registry.roots && t !in w.registry.roots {
      FreshIsUnused(w, TicketOf(w', t));
    }
  }

  lemma BindKeeps(w: World, t: Transport, root: nat)
    requires Invariant(w)
    ensures Invariant(After(w, BindOp(t, root)))
  {
    var w' := After(w, BindOp(t, root));
    BindTouches(w, t, root);
    BindCounts(w, t, root);
    StaysApart(w, w', t);
    forall j | j in w'.live && j.guard.transport == t
      ensures GuardPlaced(w', j)
    {
      assert GuardPlaced(w, j);
    }
    KeepsElsewhere(w, w', t);
  }

  lemma ReleaseKeeps(w: World, t: Transport)
    requires Invariant(w)
    ensures Invariant(After(w, ReleaseOp(t)))
  {
    var w' := After(w, ReleaseOp(t));
    StaysApart(w, w', t);
    forall j | j in w'.live && j.guard.transport == t
      ensures GuardPlaced(w', j)
    {
      assert GuardPlaced(w, j);
    }
    KeepsElsewhere(w, w', t);
  }

  lemma StepKeeps(w: World, op: Op)
    requires Invariant(w) && Legal(w, op)
    ensures Invariant(After(w, op))
  {
    match op
    case BeginOp(t, root) => BeginKeeps(w, t, root);
    case CommitOp(k) => CommitKeeps(w, k);
    case DropOp(k) => DropKeeps(w, k);
    case BindOp(t, root) => BindKeeps(w, t, root);
    case ReleaseOp(t) => ReleaseKeeps(w, t);
  }

  /**
   * Scope counting, in every interleaving: each binding's pending count is the number of live guards holding its
   * transport, root and generation, generations are never reused, and an uncommitted binding has a live guard.
   */
  lemma {:induction false} ScopeCounting(ops: seq<Op>)
    requires LegalRun(ops)
    ensures Invariant(Run(ops))
  {
    if ops != [] {
      ScopeCounting(ops[..|ops| - 1]);
      StepKeeps(Run(ops[..|ops| - 1]), ops[|ops| - 1]);
    }
  }

  /** Scope authority: what a transport is authorised for is exactly what was granted since its last release. */
  lemma ScopeAuthority(ops: seq<Op>, t: Transport)
    requires LegalRun(ops)
    ensures RootOf(Run(ops).registry, t) == if t in Run(ops).granted then Ok(Run(ops).granted[t]) else Err(NotBound)
  {
    ScopeCounting(ops);
    assert BindingCounts(Run(ops), t);
  }

  /** A live guard commits if and only if its transport has not been released since the guard was taken. */
  lemma CommitSucceedsIffUnreleased(ops: seq<Op>, k: Ticket)
    requires LegalRun(ops) && k in Run(ops).live
    ensures Commit(Run(ops).registry, k.guard).reply == if Current(Run(ops), k) then Ok(()) else Err(NotBound)
    ensures !Current(Run(ops), k) ==>
              && Commit(Run(ops).registry, k.guard).registry == Run(ops).registry
              && Rollback(Run(ops).registry, k.guard) == Run(ops).registry
  {
    ScopeCounting(ops);
    assert GuardPlaced(Run(ops), k);
    if Current(Run(ops), k) {
      CurrentIsTicket(Run(ops), k);
    }
  }

  /** Who holds a transport, from the clients' side: a grant, or a live guard taken since the last release. */
  ghost predicate Held(w: World, t: Transport, root: nat) {
    || (t in w.granted && w.granted[t] == root)
    || exists k :: k in w.live && Current(w, k) && k.guard.transport == t && k.guard.root == root
  }

  /** An operation that succeeds for a transport that nobody holds. */
  ghost predicate MakesBinding(w: World, op: Op) {
    && (op.BeginOp? || op.BindOp?)
    && (op.BeginOp? ==> Begin(w.registry, op.transport, op.root).reply.Ok?)
    && (op.BindOp? ==> Bind(w.registry, op.transport, op.root).reply.Ok?)
    && forall root :: !Held(w, op.transport, root)
  }

  /** How many bindings the run has made for transports that nobody held. */
  ghost function FreshBindings(ops: seq<Op>): nat
    requires LegalRun(ops)
  {
    if ops == [] then 0
    else FreshBindings(ops[..|ops| - 1]) + if MakesBinding(Run(ops[..|ops| - 1]), ops[|ops| - 1]) then 1 else 0
  }

  lemma HeldIffBound(w: World, t: Transport, root: nat)
    requires Invariant(w)
    ensures Held(w, t, root) <==> t in w.registry.roots && w.registry.roots[t].root == root
  {
    HolderIsBound(w, t);
    assert BindingCounts(w, t);
    if t in w.registry.roots && w.registry.roots[t].root == root && !w.registry.roots[t].committed {
      assert TicketOf(w, t) in w.live && Current(w, TicketOf(w, t));
    }
  }

  lemma UnheldIffUnbound(w: World, t: Transport)
    requires Invariant(w)
    ensures (forall root :: !Held(w, t, root)) <==> t !in w.registry.roots
  {
    forall root
      ensures Held(w, t, root) <==> t in w.registry.roots && w.registry.roots[t].root == root
    {
      HeldIffBound(w, t, root);
    }
    if t in w.registry.roots {
      assert Held(w, t, w.registry.roots[t].root);
    }
  }

  lemma StepCounts(w: World, op: Op)
    requires Invariant(w) && Legal(w, op)
    ensures After(w, op).registry.next == w.registry.next + if MakesBinding(w, op) then 1 else 0
  {
    hide Invariant, Held;
    if op.BeginOp? || op.BindOp? {
      UnheldIffUnbound(w, op.transport);
    }
  }

  /** Generations are counted by the fresh bindings. */
  lemma {:induction false} GenerationsAreCounted(ops: seq<Op>)
    requires LegalRun(ops)
    ensures Run(ops).registry.next == FreshBindings(ops)
  {
    hide After, MakesBinding, Invariant;
    if ops != [] {
      GenerationsAreCounted(ops[..|ops| - 1]);
      ScopeCounting(ops[..|ops| - 1]);
      StepCounts(Run(ops[..|ops| - 1]), ops[|ops| - 1]);
    }
  }

  /** All live current guards of a transport and root are one and the same, so that it tells how many there are. */
  ghost predicate Full(w: World, t: Transport, root: nat) {
    exists k :: Current(w, k) && k.guard.transport == t && k.guard.root == root && w.live[k] == U64_MAX
  }

  lemma CurrentGuardsAgree(ops: seq<Op>, j: Ticket, k: Ticket)
    requires LegalRun(ops) && j in Run(ops).live && k in Run(ops).live
    requires Current(Run(ops), j) && Current(Run(ops), k) && j.guard.transport == k.guard.transport
    ensures j == k
  {
    ScopeCounting(ops);
    CurrentIsTicket(Run(ops), j);
    CurrentIsTicket(Run(ops), k);
  }

  /** What a transport and root can expect: another holder, exhausted counters, or success. */
  datatype Prospect = ForeignHolder | NoGuardLeft | NoGenerationLeft | Free

  ghost function ProspectOf(ops: seq<Op>, t: Transport, root: nat): Prospect
    requires LegalRun(ops)
  {
    var w := Run(ops);
    if exists other :: other != root && Held(w, t, other) then ForeignHolder
    else if Held(w, t, root) then if Full(w, t, root) then NoGuardLeft else Free
    else if FreshBindings(ops) == U64_MAX then NoGenerationLeft
    else Free
  }

  lemma FullIffPending(w: World, t: Transport, root: nat)
    requires Invariant(w) && t in w.registry.roots && w.registry.roots[t].root == root
    ensures Full(w, t, root) <==> w.registry.roots[t].pending == U64_MAX
  {
    assert BindingCounts(w, t);
    if Full(w, t, root) {
      var k :| Current(w, k) && k.guard.transport == t && k.guard.root == root && w.live[k] == U64_MAX;
      CurrentIsTicket(w, k);
    } else {
      assert Current(w, TicketOf(w, t));
    }
  }

  /** The prospect is what the registry answers by. */
  lemma ProspectFollowsRegistry(ops: seq<Op>, t: Transport, root: nat)
    requires LegalRun(ops)
    ensures var reg := Run(ops).registry;
            ProspectOf(ops, t, root)
            == if t in reg.roots then
                 if reg.roots[t].root != root then ForeignHolder
                 else if reg.roots[t].pending == U64_MAX then NoGuardLeft
                 else Free
               else if reg.next == U64_MAX then NoGenerationLeft
               else Free
  {
    hide Invariant, Held, Full, Run, LegalRun, FreshBindings;
    var w := Run(ops);
    ScopeCounting(ops);
    GenerationsAreCounted(ops);
    forall other
      ensures Held(w, t, other) <==> t in w.registry.roots && w.registry.roots[t].root == other
    {
      HeldIffBound(w, t, other);
    }
    if t in w.registry.roots {
      assert Held(w, t, w.registry.roots[t].root);
      if w.registry.roots[t].root == root {
        FullIffPending(w, t, root);
      }
    }
  }

  /**
   * In every run, a registration is refused exactly when another root holds the transport, when 2^64 - 1 current
   * guards of it are live, or when nobody holds it and all generations are handed out. Otherwise it succeeds, and the
   * new guard is current.
   */
  lemma RegistrationOutcome(ops: seq<Op>, t: Transport, root: nat)
    requires LegalRun(ops)
    ensures var w, reply := Run(ops), Begin(Run(ops).registry, t, root).reply;
            match ProspectOf(ops, t, root)
            case ForeignHolder => reply == Err(AlreadyBound)
            case NoGuardLeft => reply == Err(CapacityExhausted)
            case NoGenerationLeft => reply == Err(CapacityExhausted)
            case Free =>
              && reply.Ok?
              && var k := Ticket(Guard(t, root, reply.value), Epoch(w, t));
                 var w' := After(w, BeginOp(t, root));
                 Current(w', k) && w'.live == w.live + multiset{k} && Holds(w'.registry, k.guard)
  {
    hide ProspectOf, Run, LegalRun;
    ProspectFollowsRegistry(ops, t, root);
  }

  /** A direct binding is refused for the same reasons, except that it needs no guard. */
  lemma BindingOutcome(ops: seq<Op>, t: Transport, root: nat)
    requires LegalRun(ops)
    ensures var w, reply := Run(ops), Bind(Run(ops).registry, t, root).reply;
            match ProspectOf(ops, t, root)
            case ForeignHolder => reply == Err(AlreadyBound)
            case NoGenerationLeft => reply == Err(CapacityExhausted)
            case _ => reply.Ok? && RootOf(After(w, BindOp(t, root)).registry, t) == Ok(root)
  {
    hide ProspectOf, Run, LegalRun;
    ProspectFollowsRegistry(ops, t, root);
  }

  lemma HolderIsBound(w: World, t: Transport)
    requires Invariant(w)
    ensures forall other :: Held(w, t, other) ==> t in w.registry.roots && w.registry.roots[t].root == other
  {
    forall other | Held(w, t, other)
      ensures t in w.registry.roots && w.registry.roots[t].root == other
    {
      assert BindingCounts(w, t);
      if !(t in w.granted && w.granted[t] == other) {
        var k :| k in w.live && Current(w, k) && k.guard.transport == t && k.guard.root == other;
        CurrentIsTicket(w, k);
      }
    }
  }

  /** Once granted, a root stays authorised until the transport is released, whatever any other guard does. */
  lemma {:induction false} GrantPersists(ops: seq<Op>, more: seq<Op>, t: Transport)
    requires LegalRun(ops + more) && LegalRun(ops) && t in Run(ops).granted
    requires ReleaseOp(t) !in more
    ensures t in Run(ops + more).granted && Run(ops + more).granted[t] == Run(ops).granted[t]
    decreases |more|
  {
    if more == [] {
      assert ops + more == ops;
    } else {
      var before, op := more[..|more| - 1], more[|more| - 1];
      assert (ops + more)[..|ops + more| - 1] == ops + before;
      GrantPersists(ops, before, t);
      var w := Run(ops + before);
      ScopeCounting(ops + before);
      assert op in more;
      StepKeepsGrant(w, op, t);
    }
  }

  lemma StepKeepsGrant(w: World, op: Op, t: Transport)
    requires Invariant(w) && Legal(w, op) && t in w.granted && op != ReleaseOp(t)
    ensures t in After(w, op).granted && After(w, op).granted[t] == w.granted[t]
  {
    assert BindingCounts(w, t);
    if op.CommitOp? && Current(w, op.ticket) {
      CurrentIsTicket(w, op.ticket);
    }
  }

  /** A generation handed out earlier can only belong to the binding that has held it ever since. */
  lemma {:induction false} GenerationsNeverReused(ops: seq<Op>, more: seq<Op>, t: Transport)
    requires LegalRun(ops + more) && LegalRun(ops)
    ensures Run(ops).registry.next <= Run(ops + more).registry.next
    ensures t in Run(ops + more).registry.roots
            && Run(ops + more).registry.roots[t].generation < Run(ops).registry.next ==>
              && t in Run(ops).registry.roots
              && Run(ops).registry.roots[t].generation == Run(ops + more).registry.roots[t].generation
              && Run(ops).registry.roots[t].root == Run(ops + more).registry.roots[t].root
    decreases |more|
  {
    if more == [] {
      assert ops + more == ops;
    } else {
      assert (ops + more)[..|ops + more| - 1] == ops + more[..|more| - 1];
      GenerationsNeverReused(ops, more[..|more| - 1], t);
      StepGenerations(Run(ops + more[..|more| - 1]), more[|more| - 1], t);
    }
  }

  lemma StepGenerations(w: World, op: Op, t: Transport)
    requires Legal(w, op)
    ensures w.registry.next <= After(w, op).registry.next
    ensures t in After(w, op).registry.roots ==>
              var b := After(w, op).registry.roots[t];
              || b.generation >= w.registry.next
              || (t in w.registry.roots && w.registry.roots[t].generation == b.generation
                  && w.registry.roots[t].root == b.root)
  {
  }
}
