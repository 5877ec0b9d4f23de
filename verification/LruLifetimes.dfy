/**
 * What deadlines mean along a run of the cache, and which entries a snapshot
 * carries (src/lru-memo-cache.ts, 80-119 and 169-223).
 */
module LruLifetimes {
  import opened Common
  import opened LruCache

  /** The deadline given with the last set of a key. */
  function DeadlineOf<K(==), V>(ops: seq<Op<K, V>>, key: K): Option<int> {
    var last := LastSet(ops, key);
    if last.Some? then last.value.deadline else None
  }

  lemma FoundIsStored<K, V>(c: Cache<K, V>, key: K, now: int) returns (s: Slot<K, V>)
    requires Valid(c) && Found(c, key, now).Some?
    ensures s in c.store && s == Slot(key, Found(c, key, now).value)
    ensures key in c.deadlines ==> now < c.deadlines[key]
  {
    LookupHas(c.store, key);
    var i :| 0 <= i < |c.store| && c.store[i] == Slot(key, Lookup(c.store, key).value);
    s := c.store[i];
  }

  /** A lookup returns only the value last set, and only before its deadline. */
  lemma {:induction false} ReturnedIsFresh<K(!new), V(!new)>(maxSize: int, ops: seq<Op<K, V>>, key: K, now: int)
    requires Found(Run(Empty<K, V>(maxSize), ops), key, now).Some?
    ensures var last := LastSet(ops, key);
            && last.Some? && Found(Run(Empty<K, V>(maxSize), ops), key, now) == Some(last.value.value)
            && (last.value.deadline.Some? ==> now < last.value.deadline.value)
  {
    var c := Run(Empty<K, V>(maxSize), ops);
    RunValid(Empty<K, V>(maxSize), ops);
    RunUpToDate<K, V>(maxSize, ops);
    var s := FoundIsStored(c, key, now);
    assert SlotUpToDate(c.deadlines, s, LastSet(ops, key));
  }

  /** From its deadline on a key is a miss, and the lookup clears the entry and the deadline. */
  lemma {:induction false} ExpiredIsMiss<K(!new), V(!new)>(maxSize: int, ops: seq<Op<K, V>>, key: K, now: int)
    requires DeadlineOf(ops, key).Some? && now >= DeadlineOf(ops, key).value
    ensures Found(Run(Empty<K, V>(maxSize), ops), key, now) == None
    ensures var r := Run(Empty<K, V>(maxSize), ops + [GetOp(key, now)]);
            !Has(r.store, key) && key !in r.deadlines
  {
    var c := Run(Empty<K, V>(maxSize), ops);
    if Found(c, key, now).Some? {
      ReturnedIsFresh(maxSize, ops, key, now);
    }
    RunValid(Empty<K, V>(maxSize), ops);
    assert (ops + [GetOp(key, now)])[..|ops|] == ops;
    MissClears(maxSize, ops, key, now);
  }

  lemma {:induction false} MissClears<K(!new), V(!new)>(maxSize: int, ops: seq<Op<K, V>>, key: K, now: int)
    requires Found(Run(Empty<K, V>(maxSize), ops), key, now) == None
    ensures var r := AfterGet(Run(Empty<K, V>(maxSize), ops), key, now);
            !Has(r.store, key) && key !in r.deadlines
  {
    var c := Run(Empty<K, V>(maxSize), ops);
    RunValid(Empty<K, V>(maxSize), ops);
    LookupHas(c.store, key);
    if Expired(c, key, now) {
      RemoveValid(c, key);
    }
  }

  // ------------------------------------------------------------------
  // What snapshots carry
  // ------------------------------------------------------------------

  /** A snapshot holds a stored entry exactly when it has no deadline, or a later one. */
  lemma {:induction false} SnapshotIsLive<K, V>(c: Cache<K, V>, slots: seq<Slot<K, V>>, now: int, e: Entry<K, V>)
    ensures e in Snapshot(c, slots, now) <==>
            && Slot(e.key, e.value) in slots
            && (if e.key in c.deadlines then e.expiresAt == Some(c.deadlines[e.key]) && now < c.deadlines[e.key]
                else e.expiresAt == None)
  {
    if slots != [] {
      var n := |slots| - 1;
      SnapshotIsLive(c, slots[..n], now, e);
      assert slots == slots[..n] + [slots[n]];
    }
  }

  /** It lists them in the order of the store, least recently used first. */
  lemma SnapshotInOrder<K, V>(c: Cache<K, V>, slots: seq<Slot<K, V>>, now: int, a: nat, b: nat)
    returns (i: nat, j: nat)
    requires a < b < |Snapshot(c, slots, now)|
    ensures i < j < |slots|
    ensures slots[i].key == Snapshot(c, slots, now)[a].key && slots[j].key == Snapshot(c, slots, now)[b].key
  {
    var n := |slots| - 1;
    var before := Snapshot(c, slots[..n], now);
    if b < |before| {
      i, j := SnapshotInOrder(c, slots[..n], now, a, b);
    } else {
      i := SnapshotPlace(c, slots[..n], now, a);
      j := n;
    }
  }

  lemma SnapshotPlace<K, V>(c: Cache<K, V>, slots: seq<Slot<K, V>>, now: int, a: nat)
    returns (i: nat)
    requires a < |Snapshot(c, slots, now)|
    ensures i < |slots| && slots[i].key == Snapshot(c, slots, now)[a].key
  {
    var n := |slots| - 1;
    if a < |Snapshot(c, slots[..n], now)| {
      i := SnapshotPlace(c, slots[..n], now, a);
    } else {
      i := n;
    }
  }

  /** Hydration takes an entry exactly when it is one, and has no deadline or a later one. */
  lemma {:induction false} HydratedIsLive<K, V>(entries: seq<RawEntry<K, V>>, now: int, e: Entry<K, V>)
    ensures e in Live(entries, now) <==> Raw(e) in entries && (e.expiresAt.Some? ==> now < e.expiresAt.value)
  {
    if entries != [] {
      var n := |entries| - 1;
      HydratedIsLive(entries[..n], now, e);
      assert entries == entries[..n] + [entries[n]];
    }
  }
}
