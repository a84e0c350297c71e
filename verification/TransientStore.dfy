/** The bounded stores of the login flow: maps in insertion order whose entries expire. */
module TransientStore {
  import opened Wrappers

  const MAX_TRANSIENT_GRANTS := 10_000

  datatype Slot<K, V> = Slot(key: K, value: V, expiresAt: int)

  type Slots<K, V> = seq<Slot<K, V>>

  predicate Expired<K, V>(s: Slot<K, V>, now: int) { s.expiresAt <= now }

  function Get<K(==), V>(store: Slots<K, V>, key: K): (r: Option<Slot<K, V>>)
    ensures r.Some? ==> r.value in store && r.value.key == key
    ensures r.None? ==> forall s :: s in store ==> s.key != key
  {
    if store == [] then None else if store[0].key == key then Some(store[0]) else Get(store[1..], key)
  }

  function Live<K, V>(store: Slots<K, V>, now: int): Slots<K, V> {
    if store == [] then []
    else Live(store[..|store| - 1], now) + if Expired(store[|store| - 1], now) then [] else [store[|store| - 1]]
  }

  function Delete<K(==), V>(store: Slots<K, V>, key: K): Slots<K, V> {
    if store == [] then []
    else Delete(store[..|store| - 1], key) + if store[|store| - 1].key == key then [] else [store[|store| - 1]]
  }

  /** At capacity the expired entries go, and then the oldest ones until there is room. */
  function MakeRoom<K, V>(store: Slots<K, V>, now: int): Slots<K, V> {
    var kept := if |store| >= MAX_TRANSIENT_GRANTS then Live(store, now) else store;
    if |kept| >= MAX_TRANSIENT_GRANTS then kept[|kept| - MAX_TRANSIENT_GRANTS + 1..] else kept
  }

  /** `Map.set`: an entry that is replaced keeps its place. */
  function Put<K(==), V>(store: Slots<K, V>, slot: Slot<K, V>): Slots<K, V> {
    if store == [] then [slot]
    else if store[0].key == slot.key then [slot] + store[1..]
    else [store[0]] + Put(store[1..], slot)
  }

  function Stored<K(==), V>(store: Slots<K, V>, slot: Slot<K, V>, now: int): Slots<K, V> {
    Put(MakeRoom(store, now), slot)
  }

  class Store<K(==), V> {
    var slots: Slots<K, V>

    constructor ()
      ensures slots == []
    {
      slots := [];
    }

    method StoreTransient(key: K, value: V, expiresAt: int, now: int)
      modifies this
      ensures slots == Stored(old(slots), Slot(key, value, expiresAt), now)
    {
      if |slots| >= MAX_TRANSIENT_GRANTS {
        var all, kept := slots, [];
        for i := 0 to |all|
          invariant kept == Live(all[..i], now)
        {
          assert all[..i + 1][..i] == all[..i];
          if !Expired(all[i], now) {
            kept := kept + [all[i]];
          }
        }
        assert all[..|all|] == all;
        slots := kept;
      }
      ghost var kept := slots;
      while |slots| >= MAX_TRANSIENT_GRANTS
        invariant |slots| <= |kept| && slots == kept[|kept| - |slots|..]
        invariant |slots| >= MAX_TRANSIENT_GRANTS - 1 || slots == kept
        decreases |slots|
      {
        slots := slots[1..];
      }
      slots := Put(slots, Slot(key, value, expiresAt));
    }
  }

  // ------------------------------------------------------------------ what storing keeps and drops

  ghost predicate UniqueKeys<K, V>(store: Slots<K, V>) {
    forall i, j :: 0 <= i < j < |store| ==> store[i].key != store[j].key
  }

  lemma UniqueSplits<K, V>(store: Slots<K, V>)
    requires store != [] && UniqueKeys(store)
    ensures UniqueKeys(store[..|store| - 1])
    ensures forall s :: s in store[..|store| - 1] ==> s.key != store[|store| - 1].key
  {
    var front := store[..|store| - 1];
    forall s | s in front ensures s.key != store[|store| - 1].key {
      var i :| 0 <= i < |front| && front[i] == s;
      assert store[i] == s;
    }
  }

  lemma {:induction false} LiveIsTheUnexpired<K, V>(store: Slots<K, V>, now: int)
    ensures forall s :: s in Live(store, now) <==> s in store && !Expired(s, now)
    ensures |Live(store, now)| <= |store|
  {
    if store != [] {
      LiveIsTheUnexpired(store[..|store| - 1], now);
      assert store == store[..|store| - 1] + [store[|store| - 1]];
    }
  }

  lemma LiveWasStored<K, V>(store: Slots<K, V>, now: int, s: Slot<K, V>)
    requires s in Live(store, now)
    ensures s in store && !Expired(s, now)
  {
    LiveIsTheUnexpired(store, now);
  }

  lemma {:induction false} LiveStaysUnique<K, V>(store: Slots<K, V>, now: int)
    requires UniqueKeys(store)
    ensures UniqueKeys(Live(store, now))
  {
    if store != [] {
      UniqueSplits(store);
      LiveStaysUnique(store[..|store| - 1], now);
      var rest := Live(store[..|store| - 1], now);
      forall i | 0 <= i < |rest| ensures rest[i].key != store[|store| - 1].key {
        LiveWasStored(store[..|store| - 1], now, rest[i]);
      }
    }
  }

  lemma {:induction false} DeleteDropsOneKey<K, V>(store: Slots<K, V>, key: K)
    ensures forall s :: s in Delete(store, key) <==> s in store && s.key != key
    ensures |Delete(store, key)| <= |store|
  {
    if store != [] {
      DeleteDropsOneKey(store[..|store| - 1], key);
      assert store == store[..|store| - 1] + [store[|store| - 1]];
    }
  }

  lemma DeletedWasStored<K, V>(store: Slots<K, V>, key: K, s: Slot<K, V>)
    requires s in Delete(store, key)
    ensures s in store && s.key != key
  {
    DeleteDropsOneKey(store, key);
  }

  lemma {:induction false} DeleteStaysUnique<K, V>(store: Slots<K, V>, key: K)
    requires UniqueKeys(store)
    ensures UniqueKeys(Delete(store, key))
  {
    if store != [] {
      UniqueSplits(store);
      DeleteStaysUnique(store[..|store| - 1], key);
      var rest := Delete(store[..|store| - 1], key);
      forall i | 0 <= i < |rest| ensures rest[i].key != store[|store| - 1].key {
        DeletedWasStored(store[..|store| - 1], key, rest[i]);
      }
    }
  }

  lemma {:induction false} PutNewAppends<K, V>(store: Slots<K, V>, slot: Slot<K, V>)
    requires forall s :: s in store ==> s.key != slot.key
    ensures Put(store, slot) == store + [slot]
  {
    if store != [] {
      assert store[0] in store && forall s :: s in store[1..] ==> s in store;
      PutNewAppends(store[1..], slot);
    }
  }

  /** Everything kept was there before. */
  lemma MakeRoomOnlyDrops<K, V>(store: Slots<K, V>, now: int)
    ensures forall s :: s in MakeRoom(store, now) ==> s in store
    ensures |MakeRoom(store, now)| < MAX_TRANSIENT_GRANTS
    ensures UniqueKeys(store) ==> UniqueKeys(MakeRoom(store, now))
  {
    LiveIsTheUnexpired(store, now);
    if UniqueKeys(store) {
      LiveStaysUnique(store, now);
    }
    var kept := if |store| >= MAX_TRANSIENT_GRANTS then Live(store, now) else store;
    forall s | s in MakeRoom(store, now) ensures s in store {
      assert s in kept;
      if |store| >= MAX_TRANSIENT_GRANTS {
        LiveWasStored(store, now, s);
      }
    }
  }

  /** A new entry is stored last, and the store stays within its capacity. */
  lemma StoringStaysWithinCapacity<K, V>(store: Slots<K, V>, slot: Slot<K, V>, now: int)
    requires UniqueKeys(store) && forall s :: s in store ==> s.key != slot.key
    ensures |Stored(store, slot, now)| <= MAX_TRANSIENT_GRANTS
    ensures UniqueKeys(Stored(store, slot, now))
    ensures forall s :: s in Stored(store, slot, now) ==> s == slot || s in store
    ensures slot in Stored(store, slot, now)
  {
    MakeRoomOnlyDrops(store, now);
    PutNewAppends(MakeRoom(store, now), slot);
  }

  /** A live entry is dropped only from a full store with no expired entry left in it, and only the oldest one is. */
  lemma OnlyTheOldestLiveEntryIsEvicted<K, V>(store: Slots<K, V>, slot: Slot<K, V>, now: int, lost: Slot<K, V>)
    requires UniqueKeys(store) && |store| <= MAX_TRANSIENT_GRANTS && forall s :: s in store ==> s.key != slot.key
    requires lost in store && !Expired(lost, now) && lost !in Stored(store, slot, now)
    ensures |store| == MAX_TRANSIENT_GRANTS && lost == store[0]
    ensures forall s :: s in store ==> !Expired(s, now)
  {
    LiveIsTheUnexpired(store, now);
    MakeRoomOnlyDrops(store, now);
    PutNewAppends(MakeRoom(store, now), slot);
    assert lost !in MakeRoom(store, now) && lost in Live(store, now);
    assert |Live(store, now)| == |store| == MAX_TRANSIENT_GRANTS;
    NothingExpired(store, now);
    assert MakeRoom(store, now) == store[1..] && store == [store[0]] + store[1..];
  }

  lemma {:induction false} NothingExpired<K, V>(store: Slots<K, V>, now: int)
    requires |Live(store, now)| == |store|
    ensures Live(store, now) == store
  {
    if store != [] {
      LiveIsTheUnexpired(store[..|store| - 1], now);
      NothingExpired(store[..|store| - 1], now);
    }
  }
}
