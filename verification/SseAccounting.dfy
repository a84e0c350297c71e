/** Connection counters and limits over runs of the hub. */
module SseAccounting {
  import opened Wrappers
  import opened Lists
  import opened SseHub
  import opened SseDelivery

  /** A user's registered clients, across all workspaces. */
  function UserClients(hub: Hub, user: string): set<Client> {
    set owner, c | owner in hub.clients && c in hub.clients[owner] && c.user == user :: c
  }

  /** Every counter is the number of the user's registered clients, and no counter is kept at zero. */
  ghost predicate Accurate(hub: Hub) {
    forall user :: AccurateFor(hub, user)
  }

  ghost predicate AccurateFor(hub: Hub, user: string) {
    && CountOf(hub.userCounts, user) == |UserClients(hub, user)|
    && (user in hub.userCounts ==> hub.userCounts[user] > 0)
  }

  ghost predicate WithinLimits(hub: Hub) {
    && (forall owner :: |ClientsOf(hub, owner)| <= MAX_CONNECTIONS_PER_WORKSPACE)
    && (forall user :: CountOf(hub.userCounts, user) <= MAX_CONNECTIONS_PER_USER)
  }

  lemma UserClientsAreRegistered(hub: Hub, user: string)
    requires ListsOk(hub)
    ensures forall c :: c in UserClients(hub, user) <==> Registered(hub, c) && c.user == user
  {
  }

  lemma AddedUserClients(hub: Hub, c: Client, user: string)
    requires ListsOk(hub)
    ensures UserClients(Added(hub, c), user) == UserClients(hub, user) + if c.user == user then {c} else {}
  {
    AddedMeans(hub, c);
    UserClientsAreRegistered(hub, user);
    UserClientsAreRegistered(Added(hub, c), user);
  }

  lemma AddedKeepsAccurate(hub: Hub, c: Client)
    requires ListsOk(hub) && Accurate(hub) && !Registered(hub, c)
    ensures Accurate(Added(hub, c))
  {
    forall user ensures AccurateFor(Added(hub, c), user) {
      assert AccurateFor(hub, user);
      UserClientsAreRegistered(hub, user);
      AddedUserClients(hub, c, user);
    }
  }

  lemma RemovedUserClients(hub: Hub, c: Client, user: string)
    requires ListsOk(hub)
    ensures UserClients(Removed(hub, c), user) == UserClients(hub, user) - {c}
    ensures user != c.user || !Registered(hub, c) ==> UserClients(Removed(hub, c), user) == UserClients(hub, user)
    ensures user == c.user && Registered(hub, c) ==> c in UserClients(hub, user)
  {
    RemovedMeans(hub, c);
    UserClientsAreRegistered(hub, user);
    UserClientsAreRegistered(Removed(hub, c), user);
  }

  lemma RemovedCountOfOthers(hub: Hub, c: Client, user: string)
    requires ListsOk(hub) && AccurateFor(hub, user) && user != c.user
    ensures AccurateFor(Removed(hub, c), user)
  {
    RemovedUserClients(hub, c, user);
  }

  lemma RemovedOwnCount(hub: Hub, c: Client)
    requires ListsOk(hub) && AccurateFor(hub, c.user)
    ensures AccurateFor(Removed(hub, c), c.user) <==> Registered(hub, c) || UserClients(hub, c.user) == {}
  {
    RemovedUserClients(hub, c, c.user);
    var before, after := UserClients(hub, c.user), UserClients(Removed(hub, c), c.user);
    assert Registered(hub, c) ==> |after| == |before| - 1;
    assert !Registered(hub, c) ==> |after| == |before|;
  }

  /**
   Removal keeps the counters right exactly when the client is registered or its user has no registered
   client left: removing the same client twice takes a connection off the user's other clients.
   */
  lemma RemovalIsAccurateIff(hub: Hub, c: Client)
    requires ListsOk(hub) && Accurate(hub)
    ensures Accurate(Removed(hub, c)) <==> Registered(hub, c) || UserClients(hub, c.user) == {}
  {
    assert AccurateFor(hub, c.user);
    RemovedOwnCount(hub, c);
    forall user | user != c.user ensures AccurateFor(Removed(hub, c), user) {
      assert AccurateFor(hub, user);
      RemovedCountOfOthers(hub, c, user);
    }
    assert Accurate(Removed(hub, c)) ==> AccurateFor(Removed(hub, c), c.user);
  }

  lemma {:induction false} FanOutKeepsAccurate(hub: Hub, list: seq<Client>, e: Event)
    requires ListsOk(hub) && Accurate(hub) && Distinct(list) && forall c :: c in list ==> Registered(hub, c)
    ensures Accurate(FannedOut(hub, list, e))
  {
    if list != [] {
      var front, c := list[..|list| - 1], list[|list| - 1];
      assert list == front + [c] && c !in front;
      FanOutKeepsAccurate(hub, front, e);
      FanOutMeans(hub, front, e);
      if c in FannedOut(hub, front, e).closed {
        RemovalIsAccurateIff(FannedOut(hub, front, e), c);
      } else {
        StreamsDoNotCount(FannedOut(hub, front, e), c, e.id);
      }
    }
  }

  lemma StreamsDoNotCount(hub: Hub, c: Client, id: nat)
    requires Accurate(hub) && c !in hub.closed
    ensures Accurate(Sent(hub, c, id))
  {
    forall user ensures AccurateFor(Sent(hub, c, id), user) { assert AccurateFor(hub, user); }
  }

  lemma {:induction false} WithoutIsNoLonger(list: seq<Client>, c: Client)
    ensures |Without(list, c)| <= |list|
  {
    if list != [] {
      WithoutIsNoLonger(list[..|list| - 1], c);
    }
  }

  lemma RemovedStaysWithin(hub: Hub, c: Client)
    requires WithinLimits(hub)
    ensures WithinLimits(Removed(hub, c))
  {
    WithoutIsNoLonger(ClientsOf(hub, c.owner), c);
    forall owner ensures |ClientsOf(Removed(hub, c), owner)| <= MAX_CONNECTIONS_PER_WORKSPACE {
      assert |ClientsOf(hub, owner)| <= MAX_CONNECTIONS_PER_WORKSPACE;
    }
    forall user ensures CountOf(Removed(hub, c).userCounts, user) <= MAX_CONNECTIONS_PER_USER {
      assert CountOf(hub.userCounts, user) <= MAX_CONNECTIONS_PER_USER;
    }
  }

  lemma {:induction false} FanOutStaysWithin(hub: Hub, list: seq<Client>, e: Event)
    requires WithinLimits(hub)
    ensures WithinLimits(FannedOut(hub, list, e))
  {
    if list != [] {
      var before, c := FannedOut(hub, list[..|list| - 1], e), list[|list| - 1];
      FanOutStaysWithin(hub, list[..|list| - 1], e);
      RemovedStaysWithin(before, c);
      SendStaysWithin(before, c, e.id);
    }
  }

  lemma SameCountsStayWithin(hub: Hub, after: Hub)
    requires WithinLimits(hub) && after.clients == hub.clients && after.userCounts == hub.userCounts
    ensures WithinLimits(after)
  {
    forall owner ensures |ClientsOf(after, owner)| <= MAX_CONNECTIONS_PER_WORKSPACE {
      assert ClientsOf(after, owner) == ClientsOf(hub, owner);
    }
  }

  lemma SendStaysWithin(hub: Hub, c: Client, id: nat)
    requires WithinLimits(hub)
    ensures WithinLimits(Sent(hub, c, id))
  {
    RemovedStaysWithin(hub, c);
    if c !in hub.closed {
      SameCountsStayWithin(hub, Sent(hub, c, id));
    }
  }

  // ------------------------------------------------------------------ runs

  /** A client is only removed while it is registered. */
  predicate Legal(w: World, s: Step) { s.RemoveStep? ==> Registered(w.hub, s.c) }

  ghost predicate LegalRun(steps: seq<Step>) {
    forall i :: 0 <= i < |steps| ==> LegalAt(steps, i)
  }

  predicate LegalAt(steps: seq<Step>, i: int)
    requires 0 <= i < |steps|
  {
    Legal(Run(START, steps[..i]), steps[i])
  }

  lemma SameCountsStayAccurate(hub: Hub, after: Hub)
    requires Accurate(hub) && after.clients == hub.clients && after.userCounts == hub.userCounts
    ensures Accurate(after)
  {
    forall user ensures AccurateFor(after, user) {
      assert AccurateFor(hub, user) && UserClients(after, user) == UserClients(hub, user);
    }
  }

  lemma AddedStaysWithin(hub: Hub, c: Client)
    requires WithinLimits(hub) && CanConnect(hub, c.user, c.owner)
    ensures WithinLimits(Added(hub, c))
  {
    forall owner ensures |ClientsOf(Added(hub, c), owner)| <= MAX_CONNECTIONS_PER_WORKSPACE {
      assert |ClientsOf(hub, owner)| <= MAX_CONNECTIONS_PER_WORKSPACE;
    }
    forall user ensures CountOf(Added(hub, c).userCounts, user) <= MAX_CONNECTIONS_PER_USER {
      assert CountOf(hub.userCounts, user) <= MAX_CONNECTIONS_PER_USER;
    }
  }

  lemma ConnectedKeepsAccurate(hub: Hub, c: Client, cursor: Option<int>)
    requires ListsOk(hub) && Accurate(hub) && CanConnect(hub, c.user, c.owner) && !Registered(hub, c)
    ensures Accurate(Connected(hub, c, cursor))
  {
    AddedKeepsAccurate(hub, c);
    SameCountsStayAccurate(Added(hub, c), Connected(hub, c, cursor));
  }

  lemma ConnectedStaysWithin(hub: Hub, c: Client, cursor: Option<int>)
    requires WithinLimits(hub) && CanConnect(hub, c.user, c.owner)
    ensures WithinLimits(Connected(hub, c, cursor))
  {
    AddedStaysWithin(hub, c);
    SameCountsStayWithin(Added(hub, c), Connected(hub, c, cursor));
  }

  lemma ConnectKeepsCounts(w: World, c: Client, cursor: Option<int>)
    requires Good(w) && Accurate(w.hub) && WithinLimits(w.hub) && Fresh(w, c) && CanConnect(w.hub, c.user, c.owner)
    ensures Accurate(Connected(w.hub, c, cursor)) && WithinLimits(Connected(w.hub, c, cursor))
  {
    FreshIsUnregistered(w, c);
    ConnectedKeepsAccurate(w.hub, c, cursor);
    ConnectedStaysWithin(w.hub, c, cursor);
  }

  lemma EmitKeepsCounts(w: World, owner: string, named: Option<seq<string>>)
    requires Good(w) && Accurate(w.hub) && WithinLimits(w.hub)
    ensures Accurate(Emitted(w.hub, owner, named)) && WithinLimits(Emitted(w.hub, owner, named))
  {
    var e := NextEvent(w.hub, owner, named);
    var buffered, list := Buffered(w.hub, e), ClientsOf(w.hub, owner);
    SameCountsStayAccurate(w.hub, buffered);
    SameCountsStayWithin(w.hub, buffered);
    FanOutKeepsAccurate(buffered, list, e);
    FanOutStaysWithin(buffered, list, e);
  }

  lemma NextKeepsCounts(w: World, s: Step)
    requires Good(w) && Accurate(w.hub) && WithinLimits(w.hub) && Legal(w, s)
    ensures Accurate(Next(w, s).hub) && WithinLimits(Next(w, s).hub)
  {
    match s
    case ConnectStep(c, cursor) =>
      if Fresh(w, c) && CanConnect(w.hub, c.user, c.owner) { ConnectKeepsCounts(w, c, cursor); }
    case EmitStep(owner, named) => EmitKeepsCounts(w, owner, named);
    case BreakStep(c) =>
      SameCountsStayAccurate(w.hub, Next(w, s).hub);
      SameCountsStayWithin(w.hub, Next(w, s).hub);
    case RemoveStep(c) =>
      RemovalIsAccurateIff(w.hub, c);
      RemovedStaysWithin(w.hub, c);
  }

  /** In every run that removes only registered clients, counters are exact and no limit is exceeded. */
  lemma {:induction false} CountsAreExact(steps: seq<Step>)
    requires LegalRun(steps)
    ensures Accurate(Run(START, steps).hub) && WithinLimits(Run(START, steps).hub)
    ensures forall user :: |UserClients(Run(START, steps).hub, user)| <= MAX_CONNECTIONS_PER_USER
  {
    if steps == [] {
      forall user ensures AccurateFor(EMPTY_HUB, user) { assert UserClients(EMPTY_HUB, user) == {}; }
    } else {
      var front := steps[..|steps| - 1];
      forall i | 0 <= i < |front| ensures LegalAt(front, i) {
        assert LegalAt(steps, i) && front[..i] == steps[..i];
      }
      CountsAreExact(front);
      EveryRunIsGood(front);
      assert LegalAt(steps, |steps| - 1);
      NextKeepsCounts(Run(START, front), steps[|steps| - 1]);
    }
    forall user ensures |UserClients(Run(START, steps).hub, user)| <= MAX_CONNECTIONS_PER_USER {
      assert AccurateFor(Run(START, steps).hub, user);
      assert CountOf(Run(START, steps).hub.userCounts, user) <= MAX_CONNECTIONS_PER_USER;
    }
  }
}
