/**
 The event hub: a bounded buffer of recent events, live fan-out to registered clients, replay by cursor,
 and connection limits. A client's stream is the list of event ids that were enqueued on it; a stream
 that has been closed, by either side, refuses every later enqueue.
 */
module SseHub {
  import opened Wrappers

  const EVENT_BUFFER_MAX := 10_000
  const MAX_CONNECTIONS_PER_WORKSPACE := 50
  const MAX_CONNECTIONS_PER_USER := 10

  // A connection object; `serial` is its identity.
  datatype Client = Client(serial: nat, user: string, owner: string)

  // `audience` is the set of users frozen at emit time, or None for everybody.
  datatype Event = Event(id: nat, owner: string, audience: Option<set<string>>)

  datatype Hub = Hub(
    clients: map<string, seq<Client>>, userCounts: map<string, nat>, eventId: nat, buffer: seq<Event>,
    streams: map<Client, seq<nat>>, closed: set<Client>)

  const EMPTY_HUB := Hub(map[], map[], 0, [], map[], {})

  function ClientsOf(hub: Hub, owner: string): seq<Client> {
    if owner in hub.clients then hub.clients[owner] else []
  }

  function CountOf(counts: map<string, nat>, user: string): nat { if user in counts then counts[user] else 0 }

  function StreamOf(hub: Hub, c: Client): seq<nat> { if c in hub.streams then hub.streams[c] else [] }

  predicate Sees(e: Event, user: string) { e.audience.None? || user in e.audience.value }

  predicate For(e: Event, c: Client) { e.owner == c.owner && Sees(e, c.user) }

  /** The named users and the owner, empty names dropped. */
  function AudienceOf(owner: string, named: Option<seq<string>>): Option<set<string>> {
    if named.None? then None else Some((set u | u in named.value && u != "") + (if owner != "" then {owner} else {}))
  }

  function Without(clients: seq<Client>, c: Client): seq<Client> {
    if clients == [] then []
    else Without(clients[..|clients| - 1], c) + (if clients[|clients| - 1] == c then [] else [clients[|clients| - 1]])
  }

  predicate CanConnect(hub: Hub, user: string, owner: string) {
    |ClientsOf(hub, owner)| < MAX_CONNECTIONS_PER_WORKSPACE && CountOf(hub.userCounts, user) < MAX_CONNECTIONS_PER_USER
  }

  function Added(hub: Hub, c: Client): Hub {
    var list := ClientsOf(hub, c.owner);
    hub.(clients := hub.clients[c.owner := if c in list then list else list + [c]],
         userCounts := hub.userCounts[c.user := CountOf(hub.userCounts, c.user) + 1])
  }

  function Decremented(counts: map<string, nat>, user: string): map<string, nat> {
    if CountOf(counts, user) <= 1 then counts - {user} else counts[user := CountOf(counts, user) - 1]
  }

  /** Closing a stream and forgetting its client; the user's count goes down whether or not it was registered. */
  function Removed(hub: Hub, c: Client): Hub {
    hub.(clients := if c.owner in hub.clients then hub.clients[c.owner := Without(hub.clients[c.owner], c)]
                    else hub.clients,
         userCounts := Decremented(hub.userCounts, c.user), closed := hub.closed + {c})
  }

  function Sent(hub: Hub, c: Client, id: nat): Hub {
    if c in hub.closed then Removed(hub, c) else hub.(streams := hub.streams[c := StreamOf(hub, c) + [id]])
  }

  function FannedOut(hub: Hub, clients: seq<Client>, e: Event): Hub {
    if clients == [] then hub
    else
      var before, c := FannedOut(hub, clients[..|clients| - 1], e), clients[|clients| - 1];
      if Sees(e, c.user) then Sent(before, c, e.id) else before
  }

  function Recent(buffer: seq<Event>): seq<Event> {
    if |buffer| > EVENT_BUFFER_MAX then buffer[|buffer| - EVENT_BUFFER_MAX..] else buffer
  }

  function NextEvent(hub: Hub, owner: string, named: Option<seq<string>>): Event {
    Event(hub.eventId + 1, owner, AudienceOf(owner, named))
  }

  function Buffered(hub: Hub, e: Event): Hub { hub.(eventId := e.id, buffer := Recent(hub.buffer + [e])) }

  function Emitted(hub: Hub, owner: string, named: Option<seq<string>>): Hub {
    var e := NextEvent(hub, owner, named);
    FannedOut(Buffered(hub, e), ClientsOf(hub, owner), e)
  }

  predicate CanReplay(hub: Hub, cursor: int) {
    if hub.buffer == [] then cursor >= hub.eventId else hub.buffer[0].id <= cursor
  }

  /** The ids after a cursor that are meant for a client, in the order of the given events. */
  function IdsFor(events: seq<Event>, cursor: int, c: Client): seq<nat> {
    if events == [] then []
    else
      var e := events[|events| - 1];
      IdsFor(events[..|events| - 1], cursor, c) + (if e.id > cursor && For(e, c) then [e.id] else [])
  }

  /** A connection attempt: limits, registration, then replay from the cursor where the buffer reaches back to it. */
  function Connected(hub: Hub, c: Client, cursor: Option<int>): Hub {
    if !CanConnect(hub, c.user, c.owner) then hub
    else
      var added := Added(hub, c);
      if cursor.Some? && CanReplay(hub, cursor.value)
      then added.(streams := added.streams[c := StreamOf(hub, c) + IdsFor(hub.buffer, cursor.value, c)])
      else added
  }

  class SSEHub {
    var clients: map<string, seq<Client>>
    var userCounts: map<string, nat>
    var eventId: nat
    var buffer: seq<Event>
    var streams: map<Client, seq<nat>>
    var closed: set<Client>

    ghost function State(): Hub
      reads this
    {
      Hub(clients, userCounts, eventId, buffer, streams, closed)
    }

    constructor ()
      ensures State() == EMPTY_HUB
    {
      clients, userCounts, eventId, buffer, streams, closed := map[], map[], 0, [], map[], {};
    }

    method AddClient(c: Client)
      modifies this
      ensures State() == Added(old(State()), c)
    {
      var list := if c.owner in clients then clients[c.owner] else [];
      clients := clients[c.owner := if c in list then list else list + [c]];
      userCounts := userCounts[c.user := CountOf(userCounts, c.user) + 1];
    }

    method RemoveClient(c: Client)
      modifies this
      ensures State() == Removed(old(State()), c)
    {
      closed := closed + {c};
      if c.owner in clients {
        clients := clients[c.owner := Without(clients[c.owner], c)];
      }
      var count := CountOf(userCounts, c.user);
      if count <= 1 {
        userCounts := userCounts - {c.user};
      } else {
        userCounts := userCounts[c.user := count - 1];
      }
    }

    method SendBytes(c: Client, id: nat)
      modifies this
      ensures State() == Sent(old(State()), c, id)
    {
      if c in closed {
        RemoveClient(c);
      } else {
        streams := streams[c := (if c in streams then streams[c] else []) + [id]];
      }
    }

    /** `while (buffer.length > max) buffer.shift()`. */
    method EvictOldest()
      modifies this`buffer
      ensures State() == old(State()).(buffer := Recent(old(buffer)))
    {
      ghost var all := buffer;
      while |buffer| > EVENT_BUFFER_MAX
        invariant |buffer| <= |all| && buffer == all[|all| - |buffer|..]
        invariant |buffer| >= EVENT_BUFFER_MAX || buffer == all
        decreases |buffer|
      {
        buffer := buffer[1..];
      }
    }

    /** Offers an event to each client of its workspace that may see it. */
    method FanOut(list: seq<Client>, e: Event)
      modifies this
      ensures State() == FannedOut(old(State()), list, e)
    {
      for i := 0 to |list|
        invariant State() == FannedOut(old(State()), list[..i], e)
      {
        assert list[..i + 1][..i] == list[..i];
        if Sees(e, list[i].user) {
          SendBytes(list[i], e.id);
        }
      }
      assert list[..|list|] == list;
    }

    /** Buffering with eviction of the oldest, then fan-out to the workspace's clients. */
    method Emit(owner: string, named: Option<seq<string>>)
      modifies this
      ensures State() == Emitted(old(State()), owner, named)
    {
      eventId := eventId + 1;
      var e := Event(eventId, owner, AudienceOf(owner, named));
      buffer := buffer + [e];
      EvictOldest();
      FanOut(if owner in clients then clients[owner] else [], e);
    }

    /** Enqueues the buffered events after a cursor on a newly opened stream. */
    method ReplayFrom(c: Client, cursor: int)
      requires c !in closed
      modifies this`streams
      ensures State()
           == old(State()).(streams := old(streams)[c := StreamOf(old(State()), c) + IdsFor(buffer, cursor, c)])
    {
      ghost var before := StreamOf(State(), c);
      var stream := if c in streams then streams[c] else [];
      for i := 0 to |buffer|
        invariant stream == before + IdsFor(buffer[..i], cursor, c)
      {
        assert buffer[..i + 1][..i] == buffer[..i];
        if buffer[i].id > cursor && buffer[i].owner == c.owner && Sees(buffer[i], c.user) {
          stream := stream + [buffer[i].id];
        }
      }
      assert buffer[..|buffer|] == buffer;
      streams := streams[c := stream];
    }

    /** The stream route, from the limit check to the end of the replay. */
    method Connect(c: Client, cursor: Option<int>) returns (open: bool)
      requires c !in closed
      modifies this
      ensures open == CanConnect(old(State()), c.user, c.owner)
      ensures State() == Connected(old(State()), c, cursor)
    {
      open := CanConnect(Hub(clients, userCounts, eventId, buffer, streams, closed), c.user, c.owner);
      if !open { return; }
      AddClient(c);
      if cursor.Some? && CanReplay(Hub(clients, userCounts, eventId, buffer, streams, closed), cursor.value) {
        ReplayFrom(c, cursor.value);
      }
    }
  }
}
