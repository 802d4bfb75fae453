/** The durable inbox: pages of events, clamped acknowledgements, and the cursors saved between calls. */
module Inbox {
  import opened Core

  const MAX_EVENTS: nat := 500

  datatype Event = Event(root: nat, subject: nat)

  datatype Offset = Offset(acked: nat, delivered: nat)

  datatype EventView = EventView(id: nat, event: Event, view: string)

  datatype EventPage = EventPage(after: nat, nextCursor: nat, events: seq<EventView>)

  datatype InboxError = InvalidLimit | SessionNotFound

  datatype PageReply = Page(page: EventPage) | Failed(error: InboxError)

  /** The event ids of one root. */
  function RootIds(events: map<nat, Event>, root: nat): set<nat> {
    set i | i in events && events[i].root == root
  }

  function Beyond(ids: set<nat>, cursor: nat): set<nat> {
    set i | i in ids && i > cursor
  }

  /** `SELECT ... ORDER BY event_id LIMIT`. */
  function FirstIds(ids: set<nat>, limit: nat): (page: seq<nat>)
    ensures Increasing(page) && |page| <= limit
    ensures forall i :: i in page ==> i in ids
    ensures forall i :: i in ids && i !in page ==> |page| == limit && forall j :: j in page ==> j < i
  {
    PrefixIsFirst(Sorted(ids), Min(limit, |Sorted(ids)|));
    Sorted(ids)[..Min(limit, |Sorted(ids)|)]
  }

  lemma PrefixIsFirst(all: seq<nat>, k: nat)
    requires Increasing(all) && k <= |all|
    ensures forall i :: i in all[..k] ==> i in all
    ensures forall i :: i in all && i !in all[..k] ==> k < |all| && forall j :: j in all[..k] ==> j < i
  {
    forall i | i in all && i !in all[..k]
      ensures k < |all| && forall j :: j in all[..k] ==> j < i
    {
      var n :| 0 <= n < |all| && all[n] == i;
      assert forall m :: 0 <= m < k ==> all[..k][m] == all[m];
      assert n >= k;
    }
  }

  /** A caller may confirm no more than was delivered, and never moves back behind what is stored. */
  function CursorFor(o: Offset, after: Option<nat>): nat {
    match after
    case None => o.acked
    case Some(confirmed) => Max(Min(confirmed, o.delivered), o.acked)
  }

  function NextCursor(cursor: nat, page: seq<nat>): nat {
    if page == [] then cursor else page[|page| - 1]
  }

  /** The store's upsert keeps the larger of each column. */
  function Saved(o: Offset, cursor: nat, delivered: nat): Offset {
    Offset(Max(o.acked, cursor), Max(o.delivered, delivered))
  }

  /** A page shows each event, in order, with its subject's view. */
  ghost predicate Views(events: map<nat, Event>, ids: seq<nat>, sessions: map<nat, string>, page: seq<EventView>) {
    && |page| == |ids|
    && forall n :: 0 <= n < |ids| ==>
         && ids[n] in events && events[ids[n]].subject in sessions
         && page[n] == EventView(ids[n], events[ids[n]], sessions[events[ids[n]].subject])
  }

  /** The page has this root's events between its two cursors, each once, and those of no other root. */
  ghost predicate ShowsRoot(events: map<nat, Event>, root: nat, page: EventPage) {
    && (forall n :: 0 <= n < |page.events| ==>
          page.after < page.events[n].id <= page.nextCursor && page.events[n].event.root == root)
    && (forall i: nat :: i in events && events[i].root == root && page.after < i <= page.nextCursor ==>
          exists n :: 0 <= n < |page.events| && page.events[n].id == i)
    && (forall n, m :: 0 <= n < m < |page.events| ==> page.events[n].id < page.events[m].id)
  }

  lemma PageIsVisible(events: map<nat, Event>, root: nat, cursor: nat, limit: nat)
    ensures forall i :: i in FirstIds(Beyond(RootIds(events, root), cursor), limit) ==> i in events
  {
  }

  lemma PageShowsRoot(
    events: map<nat, Event>, root: nat, cursor: nat, ids: seq<nat>, limit: nat, sessions: map<nat, string>,
    page: seq<EventView>)
    requires ids == FirstIds(Beyond(RootIds(events, root), cursor), limit) && Views(events, ids, sessions, page)
    ensures ShowsRoot(events, root, EventPage(cursor, NextCursor(cursor, ids), page))
  {
    PageAdvances(RootIds(events, root), cursor, limit);
    forall i: nat | i in events && events[i].root == root && cursor < i <= NextCursor(cursor, ids)
      ensures exists n :: 0 <= n < |page| && page[n].id == i
    {
      assert i in Beyond(RootIds(events, root), cursor);
      assert i in ids;
      var n :| 0 <= n < |ids| && ids[n] == i;
      assert page[n].id == i;
    }
    assert forall n :: 0 <= n < |ids| ==> ids[n] in ids;
  }

  class EventStore {
    var events: map<nat, Event>
    var offsets: map<nat, Offset>

    constructor ()
      ensures events == map[] && offsets == map[]
    {
      events, offsets := map[], map[];
    }

    function OffsetOf(root: nat): Offset
      reads this`offsets
    {
      if root in offsets then offsets[root] else Offset(0, 0)
    }

    method SaveInboxOffset(root: nat, cursor: nat, delivered: nat)
      modifies this`offsets
      ensures OffsetOf(root) == Saved(old(OffsetOf(root)), cursor, delivered)
      ensures forall other :: other != root ==> OffsetOf(other) == old(OffsetOf(other))
    {
      if root !in offsets {
        offsets := offsets[root := Offset(cursor, delivered)];
      } else {
        var o := offsets[root];
        if cursor > o.acked || delivered > o.delivered {
          offsets := offsets[root := Offset(Max(o.acked, cursor), Max(o.delivered, delivered))];
        }
      }
    }

    /** The view of each event's subject, looked up once per subject. */
    method Assemble(ids: seq<nat>, sessions: map<nat, string>) returns (page: Option<seq<EventView>>)
      requires forall i :: i in ids ==> i in events
      ensures page.None? <==> exists i :: i in ids && events[i].subject !in sessions
      ensures page.Some? ==> Views(events, ids, sessions, page.value)
    {
      var done: seq<EventView> := [];
      var views: map<nat, string> := map[];
      var n := 0;
      while n < |ids|
        invariant 0 <= n <= |ids|
        invariant forall s :: s in views ==> s in sessions && views[s] == sessions[s]
        invariant Views(events, ids[..n], sessions, done)
      {
        assert ids[n] in ids && ids[..n + 1] == ids[..n] + [ids[n]];
        var event := events[ids[n]];
        if event.subject !in views {
          if event.subject !in sessions {
            return None;
          }
          views := views[event.subject := sessions[event.subject]];
        }
        done := done + [EventView(ids[n], event, views[event.subject])];
        n := n + 1;
      }
      assert ids[..n] == ids;
      page := Some(done);
    }

    /**
     * One call: clamp the caller's cursor, read a page of this root's events beyond it, look each subject's view
     * up once, and only then save the acknowledgement and the new delivery ceiling.
     */
    method ListEvents(root: nat, after: Option<nat>, limit: nat, sessions: map<nat, string>) returns (r: PageReply)
      modifies this`offsets
      ensures var cursor := CursorFor(old(OffsetOf(root)), after);
              var page := FirstIds(Beyond(RootIds(events, root), cursor), limit);
              if limit == 0 || limit > MAX_EVENTS then r == Failed(InvalidLimit) && offsets == old(offsets)
              else if exists i :: i in page && i in events && events[i].subject !in sessions then
                r == Failed(SessionNotFound) && offsets == old(offsets)
              else
                && r.Page? && r.page.after == cursor && r.page.nextCursor == NextCursor(cursor, page)
                && Views(events, page, sessions, r.page.events)
                && OffsetOf(root) == Saved(old(OffsetOf(root)), cursor, NextCursor(cursor, page))
      ensures r.Page? ==> ShowsRoot(events, root, r.page)
      ensures forall other :: other != root ==> OffsetOf(other) == old(OffsetOf(other))
    {
      hide ShowsRoot, RootIds, Beyond, CursorFor;
      if limit == 0 || limit > MAX_EVENTS {
        return Failed(InvalidLimit);
      }
      var stored := OffsetOf(root);
      var cursor := CursorFor(stored, after);
      var ids := FirstIds(Beyond(RootIds(events, root), cursor), limit);
      var nextCursor := if ids == [] then cursor else ids[|ids| - 1];
      PageIsVisible(events, root, cursor, limit);
      var page := Assemble(ids, sessions);
      if page.None? {
        return Failed(SessionNotFound);
      }
      PageShowsRoot(events, root, cursor, ids, limit, sessions, page.value);
      SaveInboxOffset(root, cursor, Max(stored.delivered, nextCursor));
      r := Page(EventPage(cursor, nextCursor, page.value));
    }
  }

  // ----- every interleaving of calls on one root -----

  /**
   * A call in progress: it has read the stored offset; it has read its page; it has saved the offset. A call that has
   * saved still has to reach its caller.
   */
  datatype Call =
    | Opened(cursor: nat, ceiling: nat, limit: nat)
    | Fetched(cursor: nat, ceiling: nat, page: seq<nat>)
    | Stored(cursor: nat, ceiling: nat, page: seq<nat>)
  {
    function Page(): seq<nat> {
      if Opened? then [] else page
    }

    /** The `next_cursor` the call is going to answer. */
    function End(): nat {
      NextCursor(cursor, Page())
    }
  }

  /**
   * The visible events and saved offset of one root, the calls in progress, every id on a page that reached a caller,
   * and the largest `next_cursor` that did. `confirmed` and `paged` are the largest cursor and the largest end of a
   * page of any call that saved its offset.
   */
  datatype World = World(
    ids: set<nat>, offset: Offset, calls: multiset<Call>, received: set<nat>, handed: nat, confirmed: nat, paged: nat)

  /** `Drop` is a call that fails, is cancelled or crashes, at any point; dropping a stored one loses its reply. */
  datatype Op = Publish(id: nat) | Open(after: Option<nat>, limit: nat) | Advance(call: Call) | Drop(call: Call)

  ghost predicate Legal(w: World, op: Op) {
    match op
    case Publish(id) => id > 0 && id !in w.ids
    case Open(_, limit) => 0 < limit <= MAX_EVENTS
    case Advance(call) => call in w.calls
    case Drop(call) => call in w.calls
  }

  ghost function After(w: World, op: Op): World
    requires Legal(w, op)
  {
    match op
    case Publish(id) => w.(ids := w.ids + {id})
    case Open(after, limit) =>
      w.(calls := w.calls + multiset{Opened(CursorFor(w.offset, after), w.offset.delivered, limit)})
    case Advance(call) => Advanced(w, call)
    case Drop(call) => w.(calls := w.calls - multiset{call})
  }

  ghost function Advanced(w: World, call: Call): World {
    var rest := w.calls - multiset{call};
    match call
    case Opened(cursor, ceiling, limit) =>
      w.(calls := rest + multiset{Fetched(cursor, ceiling, FirstIds(Beyond(w.ids, cursor), limit))})
    case Fetched(cursor, ceiling, page) =>
      w.(offset := Saved(w.offset, cursor, Max(ceiling, call.End())),
      calls := rest + multiset{Stored(cursor, ceiling, page)},
      confirmed := Max(w.confirmed, cursor),
      paged := Max(w.paged, call.End()))
    case Stored(_, _, page) =>
      w.(calls := rest, received := w.received + (set i | i in page), handed := Max(w.handed, call.End()))
  }

  /** A new event lies beyond every cursor handed out and inside no page already read. */
  ghost predicate Timely(w: World, id: nat) {
    id > w.handed && forall c :: c in w.calls ==> !(c.cursor < id <= c.End())
  }

  /** A caller confirms no more than some reply told it, as far as the stored ceiling lets it through. */
  ghost predicate Honest(w: World, after: Option<nat>) {
    after.Some? ==> Min(after.value, w.offset.delivered) <= w.handed
  }

  ghost predicate Careful(w: World, op: Op) {
    match op
    case Publish(id) => Timely(w, id)
    case Open(after, _) => Honest(w, after)
    case _ => true
  }

  const START: World := World({}, Offset(0, 0), multiset{}, {}, 0, 0, 0)

  /** Steps that may follow one another from `w`; if `careful`, honest callers and timely publications. */
  ghost predicate LegalRun(w: World, ops: seq<Op>, careful: bool)
    decreases |ops|, 0
  {
    ops == []
    || (LegalRun(w, ops[..|ops| - 1], careful)
        && Legal(Run(w, ops[..|ops| - 1], careful), ops[|ops| - 1])
        && (careful ==> Careful(Run(w, ops[..|ops| - 1], careful), ops[|ops| - 1])))
  }

  ghost function Run(w: World, ops: seq<Op>, careful: bool): World
    requires LegalRun(w, ops, careful)
    decreases |ops|, 1
  {
    if ops == [] then w else After(Run(w, ops[..|ops| - 1], careful), ops[|ops| - 1])
  }

  // ----- acknowledgements never pass deliveries -----

  ghost predicate CallBounded(w: World, c: Call) {
    && c.cursor <= w.offset.delivered
    && c.ceiling <= w.offset.delivered
    && c.cursor <= c.End()
    && (forall i :: i in c.Page() ==> c.cursor < i <= c.End())
    && (c.Stored? ==> c.End() <= w.offset.delivered)
  }

  ghost predicate Bounded(w: World) {
    && w.offset.acked <= w.offset.delivered
    && w.handed <= w.offset.delivered
    && forall c :: c in w.calls ==> CallBounded(w, c)
  }

  lemma PageAdvances(ids: set<nat>, cursor: nat, limit: nat)
    ensures var page := FirstIds(Beyond(ids, cursor), limit);
            && cursor <= NextCursor(cursor, page)
            && (forall i :: i in page ==> cursor < i <= NextCursor(cursor, page))
            && (page != [] ==> NextCursor(cursor, page) in ids)
  {
    var page := FirstIds(Beyond(ids, cursor), limit);
    if page != [] {
      assert page[|page| - 1] in page;
    }
  }

  lemma AdvanceKeepsBounded(w: World, call: Call)
    requires Bounded(w) && call in w.calls
    ensures Bounded(Advanced(w, call))
    ensures w.offset.acked <= Advanced(w, call).offset.acked
    ensures w.offset.delivered <= Advanced(w, call).offset.delivered
  {
    var w' := Advanced(w, call);
    assert CallBounded(w, call);
    if call.Opened? {
      PageAdvances(w.ids, call.cursor, call.limit);
    }
    forall c | c in w'.calls
      ensures CallBounded(w', c)
    {
      if c in w.calls {
        assert CallBounded(w, c);
      }
    }
  }

  /** Under any interleaving, careful or not, saved cursors only grow and none passes the delivery ceiling. */
  lemma StepKeepsBounded(w: World, op: Op)
    requires Bounded(w) && Legal(w, op)
    ensures Bounded(After(w, op))
    ensures w.offset.acked <= After(w, op).offset.acked && w.offset.delivered <= After(w, op).offset.delivered
  {
    if op.Advance? {
      AdvanceKeepsBounded(w, op.call);
    } else {
      var w' := After(w, op);
      forall c | c in w'.calls
        ensures CallBounded(w', c)
      {
        if c in w.calls {
          assert CallBounded(w, c);
        }
      }
    }
  }

  lemma {:induction false} AckWithinDelivered(ops: seq<Op>, careful: bool)
    requires LegalRun(START, ops, careful)
    ensures Bounded(Run(START, ops, careful))
  {
    if ops != [] {
      AckWithinDelivered(ops[..|ops| - 1], careful);
      StepKeepsBounded(Run(START, ops[..|ops| - 1], careful), ops[|ops| - 1]);
    }
  }

  lemma {:induction false} AckMonotone(ops: seq<Op>, more: seq<Op>, careful: bool)
    requires LegalRun(START, ops + more, careful) && LegalRun(START, ops, careful)
    ensures Run(START, ops, careful).offset.acked <= Run(START, ops + more, careful).offset.acked
    ensures Run(START, ops, careful).offset.delivered <= Run(START, ops + more, careful).offset.delivered
    decreases |more|
  {
    if more == [] {
      assert ops + more == ops;
    } else {
      var before := more[..|more| - 1];
      assert (ops + more)[..|ops + more| - 1] == ops + before;
      AckMonotone(ops, before, careful);
      AckWithinDelivered(ops + before, careful);
      StepKeepsBounded(Run(START, ops + before, careful), more[|more| - 1]);
    }
  }

  // ----- the saved offset is what calls saved -----

  ghost predicate PagesVisible(w: World) {
    forall c :: c in w.calls ==> (forall i :: i in c.Page() ==> i in w.ids)
  }

  /** The two saved columns are the largest cursor and page end of the calls that saved, and such an end is visible. */
  ghost predicate SavedExactly(w: World) {
    && w.offset == Offset(w.confirmed, w.paged)
    && (w.paged == 0 || w.paged in w.ids)
    && PagesVisible(w)
  }

  lemma SaveKeepsExact(w: World, call: Call)
    requires Bounded(w) && SavedExactly(w) && call in w.calls && call.Fetched?
    ensures SavedExactly(Advanced(w, call))
  {
    assert CallBounded(w, call);
    if call.page != [] {
      assert call.page[|call.page| - 1] in call.Page();
    }
    forall c | c in Advanced(w, call).calls
      ensures forall i :: i in c.Page() ==> i in w.ids
    {
      assert c in w.calls || c.Page() == call.Page();
    }
  }

  lemma StepKeepsExact(w: World, op: Op)
    requires Bounded(w) && SavedExactly(w) && Legal(w, op)
    ensures SavedExactly(After(w, op))
  {
    if op.Advance? && op.call.Fetched? {
      SaveKeepsExact(w, op.call);
    } else {
      forall c | c in After(w, op).calls
        ensures forall i :: i in c.Page() ==> i in After(w, op).ids
      {
        if c !in w.calls && op.Advance? {
          assert forall i :: i in c.Page() ==> i in Beyond(w.ids, op.call.cursor);
        }
      }
    }
  }

  /** In every interleaving, the saved offset is exactly what the calls that saved had confirmed and paged. */
  lemma {:induction false} OffsetIsWhatWasSaved(ops: seq<Op>, careful: bool)
    requires LegalRun(START, ops, careful)
    ensures SavedExactly(Run(START, ops, careful))
  {
    if ops != [] {
      OffsetIsWhatWasSaved(ops[..|ops| - 1], careful);
      AckWithinDelivered(ops[..|ops| - 1], careful);
      StepKeepsExact(Run(START, ops[..|ops| - 1], careful), ops[|ops| - 1]);
    }
  }

  /**
   * Whatever a caller confirms, the call begins between the largest cursor confirmed by a saved call and the end of
   * the last page of one: at the confirmation itself if it lies there, else at the nearer end.
   */
  lemma CursorIsClamped(ops: seq<Op>, careful: bool, after: Option<nat>)
    requires LegalRun(START, ops, careful)
    ensures var w := Run(START, ops, careful);
            var cursor := CursorFor(w.offset, after);
            && w.confirmed <= cursor <= w.paged
            && match after
               case None => cursor == w.confirmed
               case Some(c) =>
                 && (w.confirmed <= c <= w.paged ==> cursor == c)
                 && (c < w.confirmed ==> cursor == w.confirmed)
                 && (c > w.paged ==> cursor == w.paged)
  {
    AckWithinDelivered(ops, careful);
    OffsetIsWhatWasSaved(ops, careful);
  }

  // ----- nothing acknowledged was missed -----

  /** A page that was read holds every visible event between its cursor and its end. */
  ghost predicate CallComplete(w: World, c: Call) {
    && c.cursor <= w.handed
    && (forall i :: i in c.Page() ==> i in w.ids)
    && (c.Page() != [] ==> c.End() in w.ids)
    && (!c.Opened? ==> forall i :: i in w.ids && c.cursor < i <= c.End() ==> i in c.page)
  }

  /** What callers have received is exactly what is visible up to the largest cursor handed to any of them. */
  ghost predicate NothingMissed(w: World) {
    && Bounded(w)
    && w.offset.acked <= w.handed
    && (forall c :: c in w.calls ==> CallComplete(w, c))
    && (w.handed == 0 || w.handed in w.ids)
    && (forall i: nat :: i in w.received <==> i in w.ids && i <= w.handed)
    && 0 !in w.ids
  }

  lemma FetchIsComplete(w: World, call: Call)
    requires call.Opened? && call.cursor <= w.handed
    ensures CallComplete(w, Fetched(call.cursor, call.ceiling, FirstIds(Beyond(w.ids, call.cursor), call.limit)))
  {
    var c := Fetched(call.cursor, call.ceiling, FirstIds(Beyond(w.ids, call.cursor), call.limit));
    PageAdvances(w.ids, call.cursor, call.limit);
    forall i | i in w.ids && c.cursor < i <= c.End()
      ensures i in c.page
    {
      assert i in Beyond(w.ids, c.cursor);
    }
  }

  lemma OthersComplete(w: World, w': World, call: Call)
    requires NothingMissed(w) && w'.ids == w.ids && w.handed <= w'.handed
    requires forall c :: c in w'.calls ==> c in w.calls || c == call
    requires CallComplete(w', call)
    ensures forall c :: c in w'.calls ==> CallComplete(w', c)
  {
    forall c | c in w'.calls
      ensures CallComplete(w', c)
    {
      if c in w.calls {
        assert CallComplete(w, c);
      }
    }
  }

  lemma ReplyIsReceived(w: World, call: Call, i: nat)
    requires NothingMissed(w) && call in w.calls && call.Stored?
    ensures i in Advanced(w, call).received <==> i in w.ids && i <= Advanced(w, call).handed
  {
    assert CallComplete(w, call) && CallBounded(w, call);
  }

  lemma ReplyKeepsNothingMissed(w: World, call: Call)
    requires NothingMissed(w) && call in w.calls && call.Stored?
    ensures NothingMissed(Advanced(w, call))
  {
    var w' := Advanced(w, call);
    AdvanceKeepsBounded(w, call);
    assert CallComplete(w, call);
    OthersComplete(w, w', call);
    forall i: nat
      ensures i in w'.received <==> i in w'.ids && i <= w'.handed
    {
      ReplyIsReceived(w, call, i);
    }
  }

  lemma FetchKeepsNothingMissed(w: World, call: Call)
    requires NothingMissed(w) && call in w.calls && call.Opened?
    ensures NothingMissed(Advanced(w, call))
  {
    assert CallComplete(w, call);
    AdvanceKeepsBounded(w, call);
    FetchIsComplete(w, call);
    var page := FirstIds(Beyond(w.ids, call.cursor), call.limit);
    OthersComplete(w, Advanced(w, call), Fetched(call.cursor, call.ceiling, page));
  }

  lemma SaveKeepsNothingMissed(w: World, call: Call)
    requires NothingMissed(w) && call in w.calls && call.Fetched?
    ensures NothingMissed(Advanced(w, call))
  {
    assert CallComplete(w, call);
    AdvanceKeepsBounded(w, call);
    OthersComplete(w, Advanced(w, call), Stored(call.cursor, call.ceiling, call.page));
  }

  lemma AdvanceKeepsNothingMissed(w: World, call: Call)
    requires NothingMissed(w) && call in w.calls
    ensures NothingMissed(Advanced(w, call))
  {
    match call
    case Opened(_, _, _) => FetchKeepsNothingMissed(w, call);
    case Fetched(_, _, _) => SaveKeepsNothingMissed(w, call);
    case Stored(_, _, _) => ReplyKeepsNothingMissed(w, call);
  }

  lemma OpenKeepsNothingMissed(w: World, after: Option<nat>, limit: nat)
    requires NothingMissed(w) && 0 < limit <= MAX_EVENTS && Honest(w, after)
    ensures NothingMissed(After(w, Open(after, limit)))
  {
    var w' := After(w, Open(after, limit));
    StepKeepsBounded(w, Open(after, limit));
    forall c | c in w'.calls
      ensures CallComplete(w', c)
    {
      if c in w.calls {
        assert CallComplete(w, c);
      }
    }
  }

  lemma DropKeepsNothingMissed(w: World, call: Call)
    requires NothingMissed(w) && call in w.calls
    ensures NothingMissed(After(w, Drop(call)))
  {
    var w' := After(w, Drop(call));
    StepKeepsBounded(w, Drop(call));
    forall c | c in w'.calls
      ensures CallComplete(w', c)
    {
      assert CallComplete(w, c);
    }
  }

  lemma OutsideKeepsComplete(w: World, id: nat, c: Call)
    requires CallComplete(w, c) && !(c.cursor < id <= c.End())
    ensures CallComplete(w.(ids := w.ids + {id}), c)
  {
  }

  lemma TimelyKeepsNothingMissed(w: World, id: nat)
    requires NothingMissed(w) && Legal(w, Publish(id)) && Timely(w, id)
    ensures NothingMissed(After(w, Publish(id)))
  {
    var w' := After(w, Publish(id));
    StepKeepsBounded(w, Publish(id));
    forall c | c in w'.calls
      ensures CallComplete(w', c)
    {
      OutsideKeepsComplete(w, id, c);
    }
  }

  /** Events that become visible in id order are timely. */
  lemma IdOrderIsTimely(w: World, id: nat)
    requires NothingMissed(w) && Legal(w, Publish(id)) && forall i :: i in w.ids ==> i < id
    ensures Timely(w, id)
  {
    forall c | c in w.calls
      ensures !(c.cursor < id <= c.End())
    {
      assert CallComplete(w, c);
    }
  }

  lemma CarefulStepKeepsNothingMissed(w: World, op: Op)
    requires NothingMissed(w) && Legal(w, op) && Careful(w, op)
    ensures NothingMissed(After(w, op))
  {
    match op
    case Publish(id) => TimelyKeepsNothingMissed(w, id);
    case Open(after, limit) => OpenKeepsNothingMissed(w, after, limit);
    case Advance(call) => AdvanceKeepsNothingMissed(w, call);
    case Drop(call) => DropKeepsNothingMissed(w, call);
  }

  lemma {:induction false} CarefulRunKeepsNothingMissed(w: World, ops: seq<Op>)
    requires NothingMissed(w) && LegalRun(w, ops, true)
    ensures NothingMissed(Run(w, ops, true))
  {
    if ops != [] {
      CarefulRunKeepsNothingMissed(w, ops[..|ops| - 1]);
      CarefulStepKeepsNothingMissed(Run(w, ops[..|ops| - 1], true), ops[|ops| - 1]);
    }
  }

  /**
   * At-least-once: when publications are timely and callers confirm only what a reply told them, then in every
   * interleaving of calls, failures, lost replies and publications, every visible event up to the acknowledgement was
   * on a page that reached a caller.
   */
  lemma AcknowledgedWasDelivered(ops: seq<Op>)
    requires LegalRun(START, ops, true)
    ensures NothingMissed(Run(START, ops, true))
    ensures forall i :: i in Run(START, ops, true).ids && i <= Run(START, ops, true).offset.acked ==>
              i in Run(START, ops, true).received
  {
    CarefulRunKeepsNothingMissed(START, ops);
  }

  // ----- what an incautious caller or a late event can do -----

  /** A call opened now and carried on until its offset is saved, undisturbed. */
  ghost function CallSaved(w: World, after: Option<nat>, limit: nat): World {
    var first := Opened(CursorFor(w.offset, after), w.offset.delivered, limit);
    var fetched := Fetched(first.cursor, first.ceiling, FirstIds(Beyond(w.ids, first.cursor), limit));
    Advanced(Advanced(w.(calls := w.calls + multiset{first}), first), fetched)
  }

  /** Undisturbed, the steps of a call save the offset that `ListEvents` saves. */
  lemma CallSavesAsListed(w: World, after: Option<nat>, limit: nat)
    ensures var cursor := CursorFor(w.offset, after);
            var page := FirstIds(Beyond(w.ids, cursor), limit);
            CallSaved(w, after, limit).offset == Saved(w.offset, cursor, NextCursor(cursor, page))
  {
  }

  ghost predicate Unseen(w: World, i: nat) {
    i in w.ids && i <= w.offset.acked && i !in w.received
  }

  /** A confirmation acknowledges an unseen event exactly when it reaches past the cursors handed out to one. */
  lemma AcknowledgesUnseenIff(w: World, after: Option<nat>, limit: nat)
    requires NothingMissed(w)
    ensures (exists i: nat :: Unseen(CallSaved(w, after, limit), i))
            <==> exists i: nat :: i in w.ids && w.handed < i <= CursorFor(w.offset, after)
  {
    var w' := CallSaved(w, after, limit);
    assert w'.ids == w.ids && w'.received == w.received && w'.offset.acked == CursorFor(w.offset, after);
    forall i: nat
      ensures Unseen(w', i) <==> i in w.ids && w.handed < i <= CursorFor(w.offset, after)
    {
    }
  }

  lemma RunSnoc(w: World, ops: seq<Op>, op: Op, careful: bool)
    requires LegalRun(w, ops, careful) && Legal(Run(w, ops, careful), op)
    requires careful ==> Careful(Run(w, ops, careful), op)
    ensures LegalRun(w, ops + [op], careful) && Run(w, ops + [op], careful) == After(Run(w, ops, careful), op)
  {
    assert (ops + [op])[..|ops|] == ops;
  }

  ghost predicate NonePublished(ops: seq<Op>) {
    forall i :: 0 <= i < |ops| ==> !ops[i].Publish?
  }

  /** An honest run without publications from `w` to `w'`. */
  ghost predicate Leads(w: World, ops: seq<Op>, w': World) {
    NonePublished(ops) && LegalRun(w, ops, true) && Run(w, ops, true) == w'
  }

  /** One careful step that publishes nothing. */
  ghost predicate QuietStep(w: World, op: Op, w': World) {
    !op.Publish? && Legal(w, op) && Careful(w, op) && After(w, op) == w'
  }

  lemma LeadsOn(w: World, before: seq<Op>, mid: World, op: Op, w': World) returns (ops: seq<Op>)
    requires Leads(w, before, mid) && QuietStep(mid, op, w')
    ensures Leads(w, ops, w')
  {
    RunSnoc(w, before, op, true);
    ops := before + [op];
  }

  /**
   * A call that confirms the largest cursor handed out, up to where its offset is saved: that is honest, and it
   * acknowledges everything up to the cursor.
   */
  lemma ConfirmSteps(w: World) returns (first: Call, begun: World, fetched: Call, read: World)
    requires Bounded(w)
    ensures QuietStep(w, Open(Some(w.handed), 1), begun)
    ensures QuietStep(begun, Advance(first), read)
    ensures QuietStep(read, Advance(fetched), CallSaved(w, Some(w.handed), 1))
    ensures w.handed <= CallSaved(w, Some(w.handed), 1).offset.acked
  {
    var cursor := CursorFor(w.offset, Some(w.handed));
    first := Opened(cursor, w.offset.delivered, 1);
    fetched := Fetched(cursor, w.offset.delivered, FirstIds(Beyond(w.ids, cursor), 1));
    begun := w.(calls := w.calls + multiset{first});
    read := Advanced(begun, first);
  }

  lemma ConfirmHanded(w: World) returns (ops: seq<Op>)
    requires Bounded(w)
    ensures Leads(w, ops, CallSaved(w, Some(w.handed), 1))
    ensures w.handed <= CallSaved(w, Some(w.handed), 1).offset.acked
  {
    var first, begun, fetched, read := ConfirmSteps(w);
    assert Leads(w, [], w);
    ops := LeadsOn(w, [], w, Open(Some(w.handed), 1), begun);
    ops := LeadsOn(w, ops, begun, Advance(first), read);
    ops := LeadsOn(w, ops, read, Advance(fetched), CallSaved(w, Some(w.handed), 1));
  }

  /** The steps that take a call with a page to its reply. */
  lemma ReplyTo(w: World, c: Call) returns (ops: seq<Op>, w': World)
    requires Bounded(w) && c in w.calls && !c.Opened?
    ensures Leads(w, ops, w') && Bounded(w')
    ensures w'.ids == w.ids && w'.handed == Max(w.handed, c.End()) && w'.received == w.received + (set i | i in c.page)
  {
    AdvanceKeepsBounded(w, c);
    w' := Advanced(w, c);
    ops := LeadsOn(w, [], w, Advance(c), w');
    if c.Fetched? {
      var stored := Stored(c.cursor, c.ceiling, c.page);
      assert stored in w'.calls;
      AdvanceKeepsBounded(w', stored);
      ops := LeadsOn(w, ops, w', Advance(stored), Advanced(w', stored));
      w' := Advanced(w', stored);
    }
  }

  lemma {:induction false} RunConcat(w: World, x: seq<Op>, y: seq<Op>, careful: bool)
    requires LegalRun(w, x, careful) && LegalRun(Run(w, x, careful), y, careful)
    ensures LegalRun(w, x + y, careful) && Run(w, x + y, careful) == Run(Run(w, x, careful), y, careful)
    decreases |y|
  {
    if y == [] {
      assert x + y == x;
    } else {
      RunConcat(w, x, y[..|y| - 1], careful);
      assert (x + y)[..|x + y| - 1] == x + y[..|y| - 1];
    }
  }

  /** An honest continuation acknowledges the event before it reached a caller. */
  ghost predicate LeadsToUnseen(w: World, ops: seq<Op>, id: nat) {
    LegalRun(w, ops, true) && Unseen(Run(w, ops, true), id)
  }

  /** What was handed out past an event nobody has can be confirmed, and the event is acknowledged unseen. */
  lemma ConfirmPast(w: World, id: nat) returns (ops: seq<Op>)
    requires Bounded(w) && id in w.ids && id !in w.received && id <= w.handed
    ensures NonePublished(ops) && LeadsToUnseen(w, ops, id)
  {
    ops := ConfirmHanded(w);
  }

  lemma ReplyThenConfirm(w: World, c: Call, id: nat) returns (ops: seq<Op>)
    requires Bounded(w) && id in w.ids && id !in w.received
    requires c in w.calls && !c.Opened? && id !in c.page && id <= c.End()
    ensures NonePublished(ops) && LeadsToUnseen(w, ops, id)
  {
    var reply, replied := ReplyTo(w, c);
    var confirm := ConfirmPast(replied, id);
    RunConcat(w, reply, confirm, true);
    ops := reply + confirm;
  }

  /**
   * An event published at or below a cursor handed out, or inside a page already read, can be acknowledged unseen by
   * an honest caller, with no further publication: the pages in question reach their caller, who confirms them.
   */
  lemma UntimelyIsAcknowledgedUnseen(w: World, id: nat) returns (ops: seq<Op>)
    requires NothingMissed(w) && Legal(w, Publish(id)) && !Timely(w, id)
    ensures NonePublished(ops) && LeadsToUnseen(After(w, Publish(id)), ops, id)
  {
    var late := After(w, Publish(id));
    StepKeepsBounded(w, Publish(id));
    assert id !in w.received;
    if id <= w.handed {
      ops := ConfirmPast(late, id);
    } else {
      var c :| c in w.calls && c.cursor < id <= c.End();
      assert CallComplete(w, c) && c in late.calls;
      ops := ReplyThenConfirm(late, c, id);
    }
  }

  lemma TimelyStaysSeen(w: World, id: nat, ops: seq<Op>)
    requires NothingMissed(w) && Legal(w, Publish(id)) && Timely(w, id)
    ensures !LeadsToUnseen(After(w, Publish(id)), ops, id)
  {
    TimelyKeepsNothingMissed(w, id);
    if LegalRun(After(w, Publish(id)), ops, true) {
      CarefulRunKeepsNothingMissed(After(w, Publish(id)), ops);
    }
  }

  /**
   * Publication is harmless exactly when it is timely: then, and only then, does no continuation with honest callers
   * (and timely publications, if any) acknowledge the event before it reached a caller.
   */
  lemma HarmlessIffTimely(w: World, id: nat)
    requires NothingMissed(w) && Legal(w, Publish(id))
    ensures Timely(w, id) <==> forall ops :: !LeadsToUnseen(After(w, Publish(id)), ops, id)
  {
    if Timely(w, id) {
      forall ops
        ensures !LeadsToUnseen(After(w, Publish(id)), ops, id)
      {
        TimelyStaysSeen(w, id, ops);
      }
    } else {
      var ops := UntimelyIsAcknowledgedUnseen(w, id);
    }
  }

  lemma OnlyId(id: nat, cursor: nat)
    requires id > 0
    ensures FirstIds(Beyond({id}, cursor), 1) == if cursor < id then [id] else []
  {
    var page := FirstIds(Beyond({id}, cursor), 1);
    if page == [] {
      assert cursor < id ==> id in Beyond({id}, cursor);
    } else {
      assert page[0] in page;
    }
  }

  /** One call of limit 1 on a root with one event and no other call: opened, fetched and saved. */
  lemma AloneSaves(w: World, cursor: nat, id: nat)
    requires w.ids == {id} && id > 0
    ensures var page := if cursor < id then [id] else [];
            var first, second := Opened(cursor, w.offset.delivered, 1), Fetched(cursor, w.offset.delivered, page);
            && Advanced(w.(calls := multiset{first}), first) == w.(calls := multiset{second})
            && Advanced(w.(calls := multiset{second}), second) == OneSaved(w, cursor, page)
  {
    OnlyId(id, cursor);
  }

  ghost function OneSaved(w: World, cursor: nat, page: seq<nat>): World {
    w.(offset := Saved(w.offset, cursor, Max(w.offset.delivered, NextCursor(cursor, page))),
    calls := multiset{Stored(cursor, w.offset.delivered, page)},
    confirmed := Max(w.confirmed, cursor),
    paged := Max(w.paged, NextCursor(cursor, page)))
  }

  lemma SaveOne(ops: seq<Op>, after: Option<nat>, id: nat) returns (longer: seq<Op>)
    requires LegalRun(START, ops, false) && id > 0
    requires Run(START, ops, false).ids == {id} && Run(START, ops, false).calls == multiset{}
    ensures LegalRun(START, longer, false)
    ensures var w, cursor := Run(START, ops, false), CursorFor(Run(START, ops, false).offset, after);
            Run(START, longer, false) == OneSaved(w, cursor, if cursor < id then [id] else [])
  {
    var w, cursor := Run(START, ops, false), CursorFor(Run(START, ops, false).offset, after);
    var page := if cursor < id then [id] else [];
    var first, second := Opened(cursor, w.offset.delivered, 1), Fetched(cursor, w.offset.delivered, page);
    AloneSaves(w, cursor, id);
    RunSnoc(START, ops, Open(after, 1), false);
    longer := ops + [Open(after, 1)];
    assert Run(START, longer, false) == w.(calls := multiset{first});
    RunSnoc(START, longer, Advance(first), false);
    longer := longer + [Advance(first)];
    RunSnoc(START, longer, Advance(second), false);
    longer := longer + [Advance(second)];
  }

  /**
   * The confirmation must have been received. The offset is saved before the page is returned, so a reply that is
   * lost in between raises the ceiling, and a caller that then confirms more than it was told acknowledges an event
   * that no page ever showed.
   */
  lemma LostPageCanBeAcknowledged() returns (ops: seq<Op>)
    ensures LegalRun(START, ops, false) && Unseen(Run(START, ops, false), 1)
  {
    assert LegalRun(START, [], false);
    RunSnoc(START, [], Publish(1), false);
    ops := [] + [Publish(1)];
    assert Run(START, ops, false).ids == {1};
    ops := SaveOne(ops, None, 1);
    var call := Stored(0, 0, [1]);
    assert Run(START, ops, false).calls == multiset{call};
    RunSnoc(START, ops, Drop(call), false);
    ops := ops + [Drop(call)];
    ops := SaveOne(ops, Some(1000), 1);
  }

  /** Every call in progress began at or beyond `id`, which is acknowledged and has not been received. */
  ghost predicate Passed(w: World, id: nat) {
    && Bounded(w) && id <= w.offset.acked && id !in w.received
    && forall c :: c in w.calls ==> id <= c.cursor
  }

  lemma StepKeepsPassed(w: World, op: Op, id: nat)
    requires Passed(w, id) && Legal(w, op)
    ensures Passed(After(w, op), id)
  {
    StepKeepsBounded(w, op);
    if op.Advance? {
      assert CallBounded(w, op.call);
    }
  }

  /** An event that becomes visible at or below the acknowledgement, with no older call left, is never received. */
  lemma {:induction false} LateEventIsNeverServed(ops: seq<Op>, more: seq<Op>, id: nat)
    requires LegalRun(START, ops + more, false) && LegalRun(START, ops, false) && Passed(Run(START, ops, false), id)
    ensures Passed(Run(START, ops + more, false), id)
    decreases |more|
  {
    if more == [] {
      assert ops + more == ops;
    } else {
      var before := more[..|more| - 1];
      assert (ops + more)[..|ops + more| - 1] == ops + before;
      LateEventIsNeverServed(ops, before, id);
      StepKeepsPassed(Run(START, ops + before, false), more[|more| - 1], id);
    }
  }

  /** Such an event: published after a larger one was served and confirmed. */
  lemma LateEventExists() returns (ops: seq<Op>)
    ensures LegalRun(START, ops, false) && 1 in Run(START, ops, false).ids && Passed(Run(START, ops, false), 1)
  {
    assert LegalRun(START, [], false);
    RunSnoc(START, [], Publish(2), false);
    ops := [] + [Publish(2)];
    assert Run(START, ops, false).ids == {2};
    ops := SaveOne(ops, None, 2);
    var call := Stored(0, 0, [2]);
    assert Run(START, ops, false).calls == multiset{call};
    RunSnoc(START, ops, Advance(call), false);
    ops := ops + [Advance(call)];
    assert Run(START, ops, false).calls == multiset{};
    ops := SaveOne(ops, Some(2), 2);
    RunSnoc(START, ops, Publish(1), false);
    ops := ops + [Publish(1)];
    AckWithinDelivered(ops, false);
  }

  /** The first unacknowledged event is on the page of any caller that confirms nothing, lost replies included. */
  lemma FirstUnacknowledgedIsServed(w: World, id: nat, limit: nat)
    requires 0 < limit && id in Beyond(w.ids, w.offset.acked)
    requires forall i :: i in Beyond(w.ids, w.offset.acked) ==> id <= i
    ensures id in FirstIds(Beyond(w.ids, CursorFor(w.offset, None)), limit)
  {
    var page := FirstIds(Beyond(w.ids, w.offset.acked), limit);
    assert page != [] ==> page[0] in page;
  }

  // ----- one client that passes back each cursor it receives -----

  /** How one call ends: with a reply, before the offset was saved, or saved with the reply lost. */
  datatype Outcome = Returned | FailedBeforeSave | SavedButLost

  /** Some events become visible, then the client asks for up to `limit`, confirming the last `next_cursor` it got. */
  datatype Round = Round(published: set<nat>, limit: nat, outcome: Outcome)

  datatype Client = Client(ids: set<nat>, offset: Offset, last: Option<nat>, got: seq<nat>) {
    function Cursor(): nat {
      CursorFor(offset, last)
    }
  }

  ghost function AfterRound(c: Client, r: Round): Client {
    var ids, cursor := c.ids + r.published, c.Cursor();
    var page := FirstIds(Beyond(ids, cursor), r.limit);
    var next := NextCursor(cursor, page);
    var saved := Saved(c.offset, cursor, Max(c.offset.delivered, next));
    match r.outcome
    case Returned => Client(ids, saved, Some(next), c.got + page)
    case FailedBeforeSave => c.(ids := ids)
    case SavedButLost => c.(ids := ids, offset := saved)
  }

  /** Every event becomes visible beyond the client's cursor. */
  ghost predicate GoodRounds(c: Client, rounds: seq<Round>)
    decreases |rounds|, 0
  {
    rounds == []
    || (GoodRounds(c, rounds[..|rounds| - 1])
        && 0 < rounds[|rounds| - 1].limit <= MAX_EVENTS
        && Fresh(AfterRounds(c, rounds[..|rounds| - 1]), rounds[|rounds| - 1].published))
  }

  ghost predicate Fresh(c: Client, published: set<nat>) {
    forall j :: j in published ==> c.Cursor() < j
  }

  ghost function AfterRounds(c: Client, rounds: seq<Round>): Client
    requires GoodRounds(c, rounds)
    decreases |rounds|, 1
  {
    if rounds == [] then c else AfterRound(AfterRounds(c, rounds[..|rounds| - 1]), rounds[|rounds| - 1])
  }

  /** The client has exactly the events between where it began and its last cursor, each once and in order. */
  ghost predicate Delivered(c: Client, start: nat) {
    && c.offset.acked <= c.offset.delivered
    && start <= c.Cursor()
    && (c.last.Some? ==> c.last.value == c.Cursor())
    && Increasing(c.got)
    && (forall i: nat :: i in c.got <==> i in c.ids && start < i <= c.Cursor())
  }

  lemma RoundDelivers(c: Client, start: nat, r: Round)
    requires Delivered(c, start) && Fresh(c, r.published)
    ensures Delivered(AfterRound(c, r), start)
  {
    var c', cursor := AfterRound(c, r), c.Cursor();
    var page := FirstIds(Beyond(c'.ids, cursor), r.limit);
    PageAdvances(c'.ids, cursor, r.limit);
    if r.outcome.Returned? {
      assert c'.Cursor() == NextCursor(cursor, page);
      forall i: nat
        ensures i in c'.got <==> i in c'.ids && start < i <= c'.Cursor()
      {
        GotExactly(c, start, r, i);
      }
      IncreasingConcat(c.got, page, cursor);
    } else {
      assert c'.Cursor() == cursor;
    }
  }

  lemma GotExactly(c: Client, start: nat, r: Round, i: nat)
    requires Delivered(c, start) && Fresh(c, r.published) && r.outcome.Returned?
    ensures var c' := AfterRound(c, r);
            i in c'.got <==> i in c'.ids && start < i <= c'.last.value
  {
    var c', cursor := AfterRound(c, r), c.Cursor();
    var page := FirstIds(Beyond(c'.ids, cursor), r.limit);
    PageAdvances(c'.ids, cursor, r.limit);
    assert i in c'.got <==> i in c.got || i in page;
    assert i in Beyond(c'.ids, cursor) <==> i in c'.ids && cursor < i;
  }

  lemma IncreasingConcat(a: seq<nat>, b: seq<nat>, bound: nat)
    requires Increasing(a) && Increasing(b)
    requires (forall i :: i in a ==> i <= bound) && (forall i :: i in b ==> bound < i)
    ensures Increasing(a + b)
  {
    assert forall i :: 0 <= i < |a| ==> a[i] in a;
    assert forall j :: 0 <= j < |b| ==> b[j] in b;
  }

  /**
   * Exactly once: a client that begins at the stored acknowledgement and passes back each `next_cursor` it receives
   * has, after any rounds, with calls failing or replies lost at any point, received every event between there and
   * its cursor exactly once, in id order.
   */
  lemma {:induction false} ExactlyOnceDelivery(ids: set<nat>, offset: Offset, rounds: seq<Round>)
    requires offset.acked <= offset.delivered
    requires GoodRounds(Client(ids, offset, None, []), rounds)
    ensures Delivered(AfterRounds(Client(ids, offset, None, []), rounds), offset.acked)
  {
    if rounds != [] {
      ExactlyOnceDelivery(ids, offset, rounds[..|rounds| - 1]);
      RoundDelivers(AfterRounds(Client(ids, offset, None, []), rounds[..|rounds| - 1]), offset.acked,
                    rounds[|rounds| - 1]);
    }
  }

  /** A page shorter than its limit means the client has caught up with everything visible. */
  lemma ShortPageMeansCaughtUp(c: Client, start: nat, r: Round)
    requires Delivered(c, start) && Fresh(c, r.published) && r.outcome.Returned?
    requires |AfterRound(c, r).got| < |c.got| + r.limit
    ensures forall i :: i in AfterRound(c, r).ids && i > start ==> i in AfterRound(c, r).got
  {
    var c', cursor := AfterRound(c, r), c.Cursor();
    RoundDelivers(c, start, r);
    forall i | i in c'.ids && i > start
      ensures i in c'.got
    {
      if i > cursor {
        assert i in Beyond(c'.ids, cursor);
      }
    }
  }
}
