/** What a client has received after any run of the hub. */
module SseDelivery {
  import opened Wrappers
  import opened Lists
  import opened SseHub

  // The hub, every event it ever emitted, and the cursor each client's stream starts after.
  datatype World = World(hub: Hub, history: seq<Event>, since: map<Client, nat>)

  datatype Step =
    | ConnectStep(c: Client, cursor: Option<int>)
    | EmitStep(owner: string, named: Option<seq<string>>)
    | BreakStep(c: Client)   // the receiving end goes away; the hub is not told
    | RemoveStep(c: Client)  // cancellation, or the maximum lifetime

  const START := World(EMPTY_HUB, [], map[])

  /** Each connection is a new object. */
  predicate Fresh(w: World, c: Client) { c !in w.since && c !in w.hub.streams && c !in w.hub.closed }

  /** Where a new stream starts: after its cursor if that can be replayed, otherwise from now on. */
  function StartOf(hub: Hub, cursor: Option<int>): nat {
    if cursor.Some? && CanReplay(hub, cursor.value) && 0 <= cursor.value <= hub.eventId then cursor.value
    else hub.eventId
  }

  function Next(w: World, s: Step): World {
    match s
    case ConnectStep(c, cursor) =>
      if !Fresh(w, c) || !CanConnect(w.hub, c.user, c.owner) then w
      else World(Connected(w.hub, c, cursor), w.history, w.since[c := StartOf(w.hub, cursor)])
    case EmitStep(owner, named) =>
      World(Emitted(w.hub, owner, named), w.history + [NextEvent(w.hub, owner, named)], w.since)
    case BreakStep(c) => w.(hub := w.hub.(closed := w.hub.closed + {c}))
    case RemoveStep(c) => w.(hub := Removed(w.hub, c))
  }

  function Run(w: World, steps: seq<Step>): World {
    if steps == [] then w else Next(Run(w, steps[..|steps| - 1]), steps[|steps| - 1])
  }

  predicate Registered(hub: Hub, c: Client) { c in ClientsOf(hub, c.owner) }

  // ------------------------------------------------------------------ the invariant

  /** Events are numbered from one, and the buffer is the last stretch of them, as long as it may be. */
  ghost predicate Numbered(w: World) {
    && |w.history| == w.hub.eventId
    && (forall i :: 0 <= i < |w.history| ==> w.history[i].id == i + 1)
    && |w.hub.buffer| == (if |w.history| < EVENT_BUFFER_MAX then |w.history| else EVENT_BUFFER_MAX)
    && w.hub.buffer == w.history[|w.history| - |w.hub.buffer|..]
  }

  /** Each workspace's list holds its own clients, once each. */
  ghost predicate ListsOk(hub: Hub) {
    forall owner :: owner in hub.clients ==>
      Distinct(hub.clients[owner]) && forall c :: c in hub.clients[owner] ==> c.owner == owner
  }

  /** The events meant for a client since its start. */
  function Due(w: World, c: Client): seq<nat>
    requires c in w.since
  {
    IdsFor(w.history, w.since[c], c)
  }

  ghost predicate Delivered(w: World, c: Client) {
    && (Registered(w.hub, c) ==> c in w.since)
    && (c in w.since ==> w.since[c] <= w.hub.eventId && StreamOf(w.hub, c) <= Due(w, c))
    && (c in w.since && Registered(w.hub, c) && c !in w.hub.closed ==> StreamOf(w.hub, c) == Due(w, c))
  }

  ghost predicate AllDelivered(w: World) { forall c {:trigger Delivered(w, c)} :: Delivered(w, c) }

  ghost predicate Good(w: World) { Numbered(w) && ListsOk(w.hub) && AllDelivered(w) }

  // ------------------------------------------------------------------ ids meant for a client

  lemma IdsForSnoc(events: seq<Event>, e: Event, cursor: int, c: Client)
    ensures IdsFor(events + [e], cursor, c)
         == IdsFor(events, cursor, c) + if e.id > cursor && For(e, c) then [e.id] else []
  {
    assert (events + [e])[..|events|] == events;
  }

  /** The ids are exactly those after the cursor that are meant for the client, in increasing order. */
  lemma IdsForIsExact(events: seq<Event>, cursor: int, c: Client)
    requires forall i, j :: 0 <= i < j < |events| ==> events[i].id < events[j].id
    ensures forall id :: id in IdsFor(events, cursor, c) <==>
              exists e :: e in events && e.id == id && id > cursor && For(e, c)
    ensures forall i, j :: 0 <= i < j < |IdsFor(events, cursor, c)| ==>
              IdsFor(events, cursor, c)[i] < IdsFor(events, cursor, c)[j]
  {
    IdsForAreThoseMeant(events, cursor, c);
    IdsForIncrease(events, cursor, c);
  }

  lemma {:induction false} IdsForAreThoseMeant(events: seq<Event>, cursor: int, c: Client)
    ensures forall id :: id in IdsFor(events, cursor, c) <==>
              exists e :: e in events && e.id == id && id > cursor && For(e, c)
  {
    if events != [] {
      var front, e := events[..|events| - 1], events[|events| - 1];
      IdsForAreThoseMeant(front, cursor, c);
      assert events == front + [e];
    }
  }

  lemma {:induction false} IdsForIncrease(events: seq<Event>, cursor: int, c: Client)
    requires forall i, j :: 0 <= i < j < |events| ==> events[i].id < events[j].id
    ensures forall i, j :: 0 <= i < j < |IdsFor(events, cursor, c)| ==>
              IdsFor(events, cursor, c)[i] < IdsFor(events, cursor, c)[j]
  {
    if events != [] {
      var front, e := events[..|events| - 1], events[|events| - 1];
      IdsForIncrease(front, cursor, c);
      IdsAreBounded(front, cursor, c, e.id);
      var ids := IdsFor(front, cursor, c);
      assert forall i :: 0 <= i < |ids| ==> ids[i] in ids;
    }
  }

  lemma {:induction false} IdsAreBounded(events: seq<Event>, cursor: int, c: Client, bound: int)
    requires forall i :: 0 <= i < |events| ==> events[i].id < bound
    ensures forall id :: id in IdsFor(events, cursor, c) ==> cursor < id < bound
  {
    if events != [] {
      IdsAreBounded(events[..|events| - 1], cursor, c, bound);
    }
  }

  /** Dropping a stretch of events that all come at or before the cursor loses nothing. */
  lemma {:induction false} OldEventsDoNotMatter(events: seq<Event>, k: nat, cursor: int, c: Client)
    requires k <= |events| && forall i :: 0 <= i < k ==> events[i].id <= cursor
    ensures IdsFor(events[k..], cursor, c) == IdsFor(events, cursor, c)
  {
    if k < |events| {
      var front, e := events[..|events| - 1], events[|events| - 1];
      OldEventsDoNotMatter(front, k, cursor, c);
      assert events == front + [e] && events[k..] == front[k..] + [e];
      IdsForSnoc(front, e, cursor, c);
      IdsForSnoc(front[k..], e, cursor, c);
    } else {
      NothingAfter(events, cursor, c);
      assert events[k..] == [];
    }
  }

  lemma {:induction false} NothingAfter(events: seq<Event>, cursor: int, c: Client)
    requires forall i :: 0 <= i < |events| ==> events[i].id <= cursor
    ensures IdsFor(events, cursor, c) == []
  {
    if events != [] {
      NothingAfter(events[..|events| - 1], cursor, c);
    }
  }

  // ------------------------------------------------------------------ one step at a time

  lemma {:induction false} WithoutMeans(list: seq<Client>, c: Client)
    ensures forall x :: x in Without(list, c) <==> x in list && x != c
    ensures Distinct(list) ==> Distinct(Without(list, c))
  {
    if list != [] {
      var front, last := list[..|list| - 1], list[|list| - 1];
      WithoutMeans(front, c);
      assert list == front + [last];
      if Distinct(list) {
        assert forall i :: 0 <= i < |front| ==> front[i] == list[i] && front[i] != last;
        assert last !in Without(front, c);
      }
    }
  }

  lemma RemovedMeans(hub: Hub, c: Client)
    requires ListsOk(hub)
    ensures ListsOk(Removed(hub, c))
    ensures forall x :: Registered(Removed(hub, c), x) <==> Registered(hub, x) && x != c
  {
    if c.owner in hub.clients {
      WithoutMeans(hub.clients[c.owner], c);
    }
  }

  /** What a fan-out does to the rest of the hub: only broken recipients are forgotten. */
  ghost predicate FanOutEffect(hub: Hub, list: seq<Client>, e: Event, after: Hub) {
    && after.eventId == hub.eventId && after.buffer == hub.buffer && after.closed == hub.closed && ListsOk(after)
    && (forall x :: Registered(after, x) <==> Registered(hub, x) && !(x in list && Sees(e, x.user) && x in hub.closed))
    && (forall x :: StreamOf(after, x)
                 == StreamOf(hub, x) + if x in list && Sees(e, x.user) && x !in hub.closed then [e.id] else [])
  }

  lemma SendMeans(hub: Hub, c: Client, e: Event)
    requires ListsOk(hub)
    ensures var after := if Sees(e, c.user) then Sent(hub, c, e.id) else hub;
            FanOutEffect(hub, if Sees(e, c.user) then [c] else [], e, after)
  {
    if Sees(e, c.user) && c in hub.closed {
      RemovedMeans(hub, c);
      assert hub.closed + {c} == hub.closed;
    }
  }

  lemma EffectsCompose(hub: Hub, front: seq<Client>, before: Hub, c: Client, e: Event, after: Hub)
    requires c !in front && FanOutEffect(hub, front, e, before)
    requires FanOutEffect(before, if Sees(e, c.user) then [c] else [], e, after)
    ensures FanOutEffect(hub, front + [c], e, after)
  {
  }

  lemma {:induction false} FanOutMeans(hub: Hub, list: seq<Client>, e: Event)
    requires ListsOk(hub) && Distinct(list)
    ensures FanOutEffect(hub, list, e, FannedOut(hub, list, e))
  {
    if list != [] {
      var front, c := list[..|list| - 1], list[|list| - 1];
      assert list == front + [c] && c !in front;
      FanOutMeans(hub, front, e);
      SendMeans(FannedOut(hub, front, e), c, e);
      EffectsCompose(hub, front, FannedOut(hub, front, e), c, e, FannedOut(hub, list, e));
    }
  }

  lemma EmitKeepsNumbered(w: World, e: Event)
    requires Numbered(w) && e.id == w.hub.eventId + 1
    ensures Numbered(World(Buffered(w.hub, e), w.history + [e], w.since))
  {
    var b, h := w.hub.buffer, w.history;
    assert b + [e] == (h + [e])[|h| - |b|..];
    if |b| == EVENT_BUFFER_MAX {
      assert Recent(b + [e]) == (b + [e])[1..] == (h + [e])[|h| - |b| + 1..];
    }
  }

  lemma EmitKeepsDelivered(w: World, e: Event, after: Hub, c: Client)
    requires Delivered(w, c) && e.id == w.hub.eventId + 1 && after.eventId == e.id && after.closed == w.hub.closed
    requires var recipient := c in ClientsOf(w.hub, e.owner) && Sees(e, c.user);
             && (recipient ==> c.owner == e.owner)
             && (Registered(after, c) <==> Registered(w.hub, c) && !(recipient && c in w.hub.closed))
             && StreamOf(after, c) == StreamOf(w.hub, c) + if recipient && c !in w.hub.closed then [e.id] else []
    ensures Delivered(World(after, w.history + [e], w.since), c)
  {
    if c in w.since {
      IdsForSnoc(w.history, e, w.since[c], c);
    }
  }

  lemma EmitKeepsAllDelivered(w: World, e: Event, after: Hub)
    requires ListsOk(w.hub) && AllDelivered(w) && e.id == w.hub.eventId + 1
    requires FanOutEffect(Buffered(w.hub, e), ClientsOf(w.hub, e.owner), e, after)
    ensures AllDelivered(World(after, w.history + [e], w.since))
  {
    forall x ensures Delivered(World(after, w.history + [e], w.since), x) {
      assert Delivered(w, x);
      assert Registered(Buffered(w.hub, e), x) == Registered(w.hub, x);
      assert StreamOf(Buffered(w.hub, e), x) == StreamOf(w.hub, x);
      EmitKeepsDelivered(w, e, after, x);
    }
  }

  /** When the buffer reaches back to the cursor, replaying it is replaying all of history. */
  lemma ReplayIsComplete(w: World, c: Client, cursor: int)
    requires Numbered(w) && CanReplay(w.hub, cursor)
    ensures IdsFor(w.hub.buffer, cursor, c) == IdsFor(w.history, cursor, c)
  {
    OldEventsDoNotMatter(w.history, |w.history| - |w.hub.buffer|, cursor, c);
  }

  /** A new stream holds what is due from its start. */
  lemma NewStreamIsDue(w: World, c: Client, cursor: Option<int>)
    requires Numbered(w)
    ensures (if cursor.Some? && CanReplay(w.hub, cursor.value) then IdsFor(w.hub.buffer, cursor.value, c) else [])
         == IdsFor(w.history, StartOf(w.hub, cursor), c)
  {
    var start := StartOf(w.hub, cursor);
    if cursor.Some? && CanReplay(w.hub, cursor.value) {
      ReplayIsComplete(w, c, cursor.value);
      if cursor.value > w.hub.eventId {
        NothingAfter(w.history, cursor.value, c);
        NothingAfter(w.history, start, c);
      }
    } else {
      NothingAfter(w.history, start, c);
    }
  }

  lemma ConnectMeans(w: World, c: Client, cursor: Option<int>)
    requires ListsOk(w.hub) && Fresh(w, c) && CanConnect(w.hub, c.user, c.owner)
    ensures var after := Connected(w.hub, c, cursor);
            && ListsOk(after) && after.closed == w.hub.closed
            && after.buffer == w.hub.buffer && after.eventId == w.hub.eventId
            && (forall x :: Registered(after, x) <==> Registered(w.hub, x) || x == c)
            && (forall x :: x != c ==> StreamOf(after, x) == StreamOf(w.hub, x))
            && StreamOf(after, c)
               == if cursor.Some? && CanReplay(w.hub, cursor.value) then IdsFor(w.hub.buffer, cursor.value, c) else []
  {
    AddedMeans(w.hub, c);
    assert StreamOf(w.hub, c) == [];
  }

  lemma AddedMeans(hub: Hub, c: Client)
    requires ListsOk(hub)
    ensures ListsOk(Added(hub, c))
    ensures forall x :: Registered(Added(hub, c), x) <==> Registered(hub, x) || x == c
  {
  }

  lemma SameForOthers(w: World, after: World, x: Client)
    requires Delivered(w, x) && after.history == w.history && after.hub.eventId == w.hub.eventId
    requires (x in after.since <==> x in w.since) && (x in w.since ==> after.since[x] == w.since[x])
    requires Registered(after.hub, x) ==> Registered(w.hub, x)
    requires StreamOf(after.hub, x) == StreamOf(w.hub, x) && (x in w.hub.closed ==> x in after.hub.closed)
    ensures Delivered(after, x)
  {
  }

  lemma FreshIsUnregistered(w: World, c: Client)
    requires AllDelivered(w) && Fresh(w, c)
    ensures !Registered(w.hub, c)
  {
    assert Delivered(w, c);
  }

  lemma ConnectKeepsDelivered(w: World, c: Client, cursor: Option<int>, x: Client)
    requires Numbered(w) && ListsOk(w.hub) && Delivered(w, x) && Fresh(w, c) && CanConnect(w.hub, c.user, c.owner)
    ensures Delivered(Next(w, ConnectStep(c, cursor)), x)
  {
    var after := Next(w, ConnectStep(c, cursor));
    ConnectMeans(w, c, cursor);
    if x == c {
      NewStreamIsDue(w, c, cursor);
    } else {
      SameForOthers(w, after, x);
    }
  }

  lemma ConnectKeepsGood(w: World, c: Client, cursor: Option<int>)
    requires Good(w) && Fresh(w, c) && CanConnect(w.hub, c.user, c.owner)
    ensures Good(Next(w, ConnectStep(c, cursor)))
  {
    var after := Next(w, ConnectStep(c, cursor));
    ConnectMeans(w, c, cursor);
    forall x ensures Delivered(after, x) {
      assert Delivered(w, x);
      ConnectKeepsDelivered(w, c, cursor, x);
    }
  }

  lemma EmitKeepsGood(w: World, owner: string, named: Option<seq<string>>)
    requires Good(w)
    ensures Good(Next(w, EmitStep(owner, named)))
  {
    var e, list := NextEvent(w.hub, owner, named), ClientsOf(w.hub, owner);
    EmitKeepsNumbered(w, e);
    FanOutMeans(Buffered(w.hub, e), list, e);
    EmitKeepsAllDelivered(w, e, FannedOut(Buffered(w.hub, e), list, e));
  }

  lemma RemoveKeepsGood(w: World, c: Client)
    requires Good(w)
    ensures Good(Next(w, RemoveStep(c)))
  {
    RemovedMeans(w.hub, c);
    forall x ensures Delivered(Next(w, RemoveStep(c)), x) {
      assert Delivered(w, x);
      SameForOthers(w, Next(w, RemoveStep(c)), x);
    }
  }

  lemma BreakKeepsAllDelivered(w: World, c: Client)
    requires AllDelivered(w)
    ensures AllDelivered(w.(hub := w.hub.(closed := w.hub.closed + {c})))
  {
    var after := w.(hub := w.hub.(closed := w.hub.closed + {c}));
    forall x ensures Delivered(after, x) {
      assert Delivered(w, x);
      SameForOthers(w, after, x);
    }
  }

  lemma BreakKeepsGood(w: World, c: Client)
    requires Good(w)
    ensures Good(Next(w, BreakStep(c)))
  {
    BreakKeepsAllDelivered(w, c);
  }

  lemma NextKeepsGood(w: World, s: Step)
    requires Good(w)
    ensures Good(Next(w, s))
  {
    match s
    case ConnectStep(c, cursor) =>
      if Fresh(w, c) && CanConnect(w.hub, c.user, c.owner) { ConnectKeepsGood(w, c, cursor); }
    case EmitStep(owner, named) => EmitKeepsGood(w, owner, named);
    case BreakStep(c) => BreakKeepsGood(w, c);
    case RemoveStep(c) => RemoveKeepsGood(w, c);
  }

  lemma {:induction false} RunKeepsGood(w: World, steps: seq<Step>)
    requires Good(w)
    ensures Good(Run(w, steps))
  {
    if steps != [] {
      RunKeepsGood(w, steps[..|steps| - 1]);
      NextKeepsGood(Run(w, steps[..|steps| - 1]), steps[|steps| - 1]);
    }
  }

  lemma StartIsGood()
    ensures Good(START)
  {
    forall c ensures Delivered(START, c) { }
  }

  lemma EveryRunIsGood(steps: seq<Step>)
    ensures Good(Run(START, steps))
  {
    StartIsGood();
    RunKeepsGood(START, steps);
  }

  // ------------------------------------------------------------------ what clients receive

  /** An id a client should get: emitted for its workspace after the cursor, and visible to its user. */
  ghost predicate Wanted(w: World, c: Client, after: int, id: int) {
    id > after && exists e :: e in w.history && e.id == id && For(e, c)
  }

  lemma DueIsExact(w: World, c: Client)
    requires Numbered(w) && c in w.since
    ensures forall id :: id in Due(w, c) <==> Wanted(w, c, w.since[c], id)
    ensures forall i, j :: 0 <= i < j < |Due(w, c)| ==> Due(w, c)[i] < Due(w, c)[j]
  {
    IdsForIsExact(w.history, w.since[c], c);
  }

  lemma PrefixOfIncreasing(due: seq<nat>, got: seq<nat>)
    requires got <= due && forall i, j :: 0 <= i < j < |due| ==> due[i] < due[j]
    ensures forall i, j :: 0 <= i < j < |got| ==> got[i] < got[j]
    ensures forall id, earlier :: id in got && earlier in due && earlier < id ==> earlier in got
    ensures forall id :: id in got ==> id in due
  {
    forall id, earlier | id in got && earlier in due && earlier < id ensures earlier in got {
      var i :| 0 <= i < |got| && got[i] == id;
      var j :| 0 <= j < |due| && due[j] == earlier;
      assert due[i] == id;
      assert got[j] == earlier;
    }
  }

  lemma RunDelivers(steps: seq<Step>, c: Client)
    requires c in Run(START, steps).since
    ensures var w := Run(START, steps);
            && Delivered(w, c)
            && (forall id :: id in Due(w, c) <==> Wanted(w, c, w.since[c], id))
            && (forall i, j :: 0 <= i < j < |Due(w, c)| ==> Due(w, c)[i] < Due(w, c)[j])
  {
    EveryRunIsGood(steps);
    assert Delivered(Run(START, steps), c);
    DueIsExact(Run(START, steps), c);
  }

  /**
   Exactly-once, ordered delivery: in every reachable state an open registered client has received exactly
   the events meant for it since its start, in increasing order. A closed one has received an initial part.
   */
  lemma ExactlyOnceInOrder(steps: seq<Step>, c: Client)
    requires c in Run(START, steps).since
    ensures var w := Run(START, steps); var got := StreamOf(w.hub, c);
            && (forall i, j :: 0 <= i < j < |got| ==> got[i] < got[j])
            && (forall id :: id in got ==> Wanted(w, c, w.since[c], id))
            && (forall id, earlier :: id in got && Wanted(w, c, w.since[c], earlier) && earlier < id ==> earlier in got)
            && (Registered(w.hub, c) && c !in w.hub.closed ==> forall id :: Wanted(w, c, w.since[c], id) ==> id in got)
  {
    var w := Run(START, steps);
    RunDelivers(steps, c);
    PrefixOfIncreasing(Due(w, c), StreamOf(w.hub, c));
  }

  /** A replayable cursor issued in this run is where the stream starts; one from the future counts as now. */
  lemma CursorIsTheStart(steps: seq<Step>, c: Client, k: int)
    requires var w := Run(START, steps); Fresh(w, c) && CanConnect(w.hub, c.user, c.owner) && CanReplay(w.hub, k)
    ensures var w := Run(START, steps);
            Next(w, ConnectStep(c, Some(k))).since[c] == (if k <= w.hub.eventId then k else w.hub.eventId)
  {
    EveryRunIsGood(steps);
  }

  /** No event after a cursor has left the buffer. */
  ghost predicate Lossless(w: World, k: int) { forall e :: e in w.history && e.id > k ==> e in w.hub.buffer }

  lemma BufferedIff(w: World, e: Event)
    requires Numbered(w) && e in w.history
    ensures e in w.hub.buffer <==> e.id > |w.history| - |w.hub.buffer|
  {
    if e in w.hub.buffer { BufferedIsLate(w, e); }
    if e.id > |w.history| - |w.hub.buffer| { LateIsBuffered(w, e); }
  }

  lemma LateIsBuffered(w: World, e: Event)
    requires Numbered(w) && e in w.history && e.id > |w.history| - |w.hub.buffer|
    ensures e in w.hub.buffer
  {
    assert w.history[e.id - 1] == e;
    assert w.hub.buffer[e.id - 1 - (|w.history| - |w.hub.buffer|)] == e;
  }

  lemma BufferedIsLate(w: World, e: Event)
    requires Numbered(w) && e in w.hub.buffer
    ensures e.id > |w.history| - |w.hub.buffer|
  {
    var j :| 0 <= j < |w.hub.buffer| && w.hub.buffer[j] == e;
    assert w.hub.buffer[j] == w.history[|w.history| - |w.hub.buffer| + j];
  }

  lemma OldestBuffered(w: World)
    requires Numbered(w) && w.hub.buffer != []
    ensures w.hub.buffer[0].id == |w.history| - |w.hub.buffer| + 1
  {
    assert w.hub.buffer[0] == w.history[|w.history| - |w.hub.buffer|];
  }

  lemma LastEvicted(w: World) returns (e: Event)
    requires Numbered(w) && |w.hub.buffer| < |w.history|
    ensures e in w.history && e !in w.hub.buffer && e.id == |w.history| - |w.hub.buffer|
  {
    e := w.history[|w.history| - |w.hub.buffer| - 1];
    BufferedIff(w, e);
  }

  /** Nothing after a cursor is lost exactly when the cursor is no more than one behind the oldest buffered event. */
  lemma LosslessIff(w: World, k: nat)
    requires Numbered(w)
    ensures Lossless(w, k) <==> w.hub.buffer == [] || k >= w.hub.buffer[0].id - 1
  {
    if w.hub.buffer == [] {
      assert w.history == [];
    } else {
      OldestBuffered(w);
      if k >= w.hub.buffer[0].id - 1 {
        forall e | e in w.history && e.id > k ensures e in w.hub.buffer { BufferedIff(w, e); }
      } else {
        var e := LastEvicted(w);
      }
    }
  }

  /** Every replay is lossless, and the one cursor needlessly refused is that of the event evicted last. */
  lemma NeedlesslyRefusedIff(w: World, k: nat)
    requires Numbered(w)
    ensures CanReplay(w.hub, k) ==> Lossless(w, k)
    ensures Lossless(w, k) && !CanReplay(w.hub, k) <==>
            w.hub.buffer != [] && k == w.hub.buffer[0].id - 1
  {
    if w.hub.buffer == [] { assert w.history == []; }
    LosslessIff(w, k);
  }

  lemma {:induction false} SameAudience(events: seq<Event>, k: int, c: Client, d: Client)
    requires c.user == d.user && c.owner == d.owner
    ensures IdsFor(events, k, c) == IdsFor(events, k, d)
  {
    if events != [] {
      SameAudience(events[..|events| - 1], k, c, d);
    }
  }

  function LastOr(got: seq<nat>, k: int): int { if got == [] then k else got[|got| - 1] }

  lemma {:induction false} ContinuesAfter(events: seq<Event>, k: int, got: seq<nat>, c: Client)
    requires forall i, j :: 0 <= i < j < |events| ==> events[i].id < events[j].id
    requires got <= IdsFor(events, k, c)
    ensures got + IdsFor(events, LastOr(got, k), c) == IdsFor(events, k, c)
  {
    if events != [] {
      var front, e := events[..|events| - 1], events[|events| - 1];
      var ids := IdsFor(front, k, c);
      IdsAreBounded(front, k, c, e.id);
      if got <= ids {
        var l := LastOr(got, k);
        var more := if e.id > k && For(e, c) then [e.id] else [];
        ContinuesAfter(front, k, got, c);
        assert got != [] ==> got[|got| - 1] == ids[|got| - 1] && l in ids;
        assert IdsFor(events, l, c) == IdsFor(front, l, c) + more;
        assert got + (IdsFor(front, l, c) + more) == ids + more;
      } else {
        assert got == ids + [e.id];
        NothingAfter(events, e.id, c);
      }
    }
  }

  /**
   What a stream got, followed by what is due to the same user from the last id received, is what is due to one
   unbroken stream.
   */
  lemma DueSplices(w: World, c: Client, d: Client)
    requires Numbered(w) && Delivered(w, c) && c in w.since && c.user == d.user && c.owner == d.owner
    ensures StreamOf(w.hub, c) + IdsFor(w.history, LastOr(StreamOf(w.hub, c), w.since[c]), d) == Due(w, c)
  {
    ContinuesAfter(w.history, w.since[c], StreamOf(w.hub, c), c);
    SameAudience(w.history, LastOr(StreamOf(w.hub, c), w.since[c]), c, d);
  }

  lemma CursorWasIssued(w: World, c: Client)
    requires Numbered(w) && c in w.since && Delivered(w, c)
    ensures 0 <= LastOr(StreamOf(w.hub, c), w.since[c]) <= w.hub.eventId
  {
    IdsAreBounded(w.history, w.since[c], c, w.hub.eventId + 1);
    LastIsBounded(StreamOf(w.hub, c), Due(w, c), w.since[c], w.hub.eventId);
  }

  lemma LastIsBounded(got: seq<nat>, due: seq<nat>, since: nat, bound: nat)
    requires got <= due && since <= bound && forall id :: id in due ==> id <= bound
    ensures 0 <= LastOr(got, since) <= bound
  {
    if got != [] { assert got[|got| - 1] == due[|got| - 1] && due[|got| - 1] in due; }
  }

  /** What a connection that is over keeps for good: its start, its stream, and being over. */
  ghost predicate Frozen(w: World, v: World, c: Client) {
    && c in w.since && c in v.since && v.since[c] == w.since[c]
    && !Registered(v.hub, c) && StreamOf(v.hub, c) == StreamOf(w.hub, c)
  }

  lemma StepKeepsStart(w: World, s: Step, c: Client)
    requires c in w.since
    ensures c in Next(w, s).since && Next(w, s).since[c] == w.since[c]
  {
  }

  lemma StepKeepsFrozen(w: World, s: Step, c: Client)
    requires ListsOk(w.hub) && c in w.since && !Registered(w.hub, c)
    ensures !Registered(Next(w, s).hub, c) && StreamOf(Next(w, s).hub, c) == StreamOf(w.hub, c)
  {
    match s
    case ConnectStep(d, cursor) =>
      if Fresh(w, d) && CanConnect(w.hub, d.user, d.owner) { ConnectMeans(w, d, cursor); }
    case EmitStep(owner, named) => EmitKeepsFrozen(w.hub, NextEvent(w.hub, owner, named), c);
    case BreakStep(_) =>
    case RemoveStep(d) => RemovedMeans(w.hub, d);
  }

  lemma EmitKeepsFrozen(hub: Hub, e: Event, c: Client)
    requires ListsOk(hub) && !Registered(hub, c)
    ensures var after := FannedOut(Buffered(hub, e), ClientsOf(hub, e.owner), e);
            !Registered(after, c) && StreamOf(after, c) == StreamOf(hub, c)
  {
    var buffered := Buffered(hub, e);
    FanOutMeans(buffered, ClientsOf(hub, e.owner), e);
    assert Registered(buffered, c) == Registered(hub, c) && StreamOf(buffered, c) == StreamOf(hub, c);
    assert c !in ClientsOf(hub, e.owner);
  }

  lemma {:induction false} RunKeepsFrozen(w: World, steps: seq<Step>, c: Client)
    requires Good(w) && c in w.since
    ensures c in Run(w, steps).since && Run(w, steps).since[c] == w.since[c]
    ensures !Registered(w.hub, c) ==> Frozen(w, Run(w, steps), c)
  {
    if steps != [] {
      var front := steps[..|steps| - 1];
      RunKeepsFrozen(w, front, c);
      RunKeepsGood(w, front);
      StepKeepsStart(Run(w, front), steps[|steps| - 1], c);
      if !Registered(w.hub, c) { StepKeepsFrozen(Run(w, front), steps[|steps| - 1], c); }
    }
  }

  /** A connection that is over, and a successor about to be opened by the same user. */
  ghost predicate CanSucceed(w: World, c: Client, d: Client) {
    && c in w.since && !Registered(w.hub, c) && c.user == d.user && c.owner == d.owner
    && Fresh(w, d) && CanConnect(w.hub, d.user, d.owner)
    && CanReplay(w.hub, LastOr(StreamOf(w.hub, c), w.since[c]))
  }

  /** Opening the successor from the last id received. */
  function Reconnect(w: World, c: Client, d: Client): Step
    requires c in w.since
  {
    ConnectStep(d, Some(LastOr(StreamOf(w.hub, c), w.since[c])))
  }

  lemma ReconnectMeans(w: World, c: Client, d: Client)
    requires Good(w) && CanSucceed(w, c, d)
    ensures var after := Next(w, Reconnect(w, c, d));
            && Good(after) && c != d && Frozen(w, after, c)
            && d in after.since && after.since[d] == LastOr(StreamOf(w.hub, c), w.since[c])
  {
    assert Delivered(w, c);
    CursorWasIssued(w, c);
    NextKeepsGood(w, Reconnect(w, c, d));
    StepKeepsStart(w, Reconnect(w, c, d), c);
    StepKeepsFrozen(w, Reconnect(w, c, d), c);
  }

  /** Later on, the two streams together are one. */
  lemma SuccessorContinues(after: World, c: Client, d: Client, more: seq<Step>)
    requires Good(after) && c in after.since && !Registered(after.hub, c) && c.user == d.user && c.owner == d.owner
    requires d in after.since && after.since[d] == LastOr(StreamOf(after.hub, c), after.since[c])
    ensures var v := Run(after, more);
            && Good(v) && c in v.since && d in v.since && StreamOf(v.hub, c) + Due(v, d) == Due(v, c)
  {
    RunKeepsGood(after, more);
    RunKeepsFrozen(after, more, c);
    RunKeepsFrozen(after, more, d);
    assert Delivered(Run(after, more), c);
    DueSplices(Run(after, more), c, d);
  }

  /**
   A connection that is over and its successor, opened by the same user from the last id received while that cursor
   can be replayed: at any later time, as long as the successor is open, the two streams together hold what one
   unbroken stream would have got, each id once and in order.
   */
  lemma ReconnectSplices(steps: seq<Step>, c: Client, d: Client, more: seq<Step>)
    requires CanSucceed(Run(START, steps), c, d)
    ensures var w := Run(START, steps); var v := Run(Next(w, Reconnect(w, c, d)), more);
            && c in v.since && d in v.since && v.since[c] == w.since[c]
            && (Registered(v.hub, d) && d !in v.hub.closed ==> StreamOf(v.hub, c) + StreamOf(v.hub, d) == Due(v, c))
  {
    var w := Run(START, steps);
    var after := Next(w, Reconnect(w, c, d));
    EveryRunIsGood(steps);
    ReconnectMeans(w, c, d);
    SuccessorContinues(after, c, d, more);
    RunKeepsFrozen(after, more, c);
    assert Delivered(Run(after, more), d);
  }
}
