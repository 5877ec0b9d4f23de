/**
 * The LRU cache with deadlines, and its snapshots (src/lru-memo-cache.ts, 52-223).
 *
 * `store` is the insertion-ordered Map: the first slot is the least recently
 * used one. Deadlines are absolute epoch milliseconds.
 */
module LruCache {
  import opened Common

  datatype Slot<K, V> = Slot(key: K, value: V)

  datatype Cache<!K(==), V> = Cache(store: seq<Slot<K, V>>, deadlines: map<K, int>, maxSize: int)

  /** A lifetime passed to set(): none given, a number, or NaN/Infinity. */
  datatype Ttl = Default | Ms(value: int) | NotFinite

  // ------------------------------------------------------------------
  // Insertion-ordered maps
  // ------------------------------------------------------------------

  predicate Has<K(==), V>(store: seq<Slot<K, V>>, key: K)
    ensures Has(store, key) <==> exists s :: s in store && s.key == key
  {
    exists i :: 0 <= i < |store| && store[i].key == key
  }

  function Lookup<K(==), V>(store: seq<Slot<K, V>>, key: K): Option<V> {
    if store == [] then None
    else if store[|store| - 1].key == key then Some(store[|store| - 1].value)
    else Lookup(store[..|store| - 1], key)
  }

  function Without<K(==), V>(store: seq<Slot<K, V>>, key: K): seq<Slot<K, V>> {
    if store == [] then []
    else
      var rest := Without(store[..|store| - 1], key);
      if store[|store| - 1].key == key then rest else rest + [store[|store| - 1]]
  }

  ghost predicate DistinctKeys<K, V>(store: seq<Slot<K, V>>) {
    forall i, j :: 0 <= i < j < |store| ==> store[i].key != store[j].key
  }

  // ------------------------------------------------------------------
  // The operations
  // ------------------------------------------------------------------

  function Empty<K, V>(maxSize: int): Cache<K, V> {
    Cache([], map[], maxSize)
  }

  predicate Expired<K, V>(c: Cache<K, V>, key: K, now: int) {
    key in c.deadlines && now >= c.deadlines[key]
  }

  function Remove<K, V>(c: Cache<K, V>, key: K): Cache<K, V> {
    c.(store := Without(c.store, key), deadlines := c.deadlines - {key})
  }

  /** What a lookup finds. */
  function Found<K, V>(c: Cache<K, V>, key: K, now: int): Option<V> {
    if Expired(c, key, now) then None else Lookup(c.store, key)
  }

  /** What a lookup leaves behind: an expired entry goes, a hit moves to the end. */
  function AfterGet<K, V>(c: Cache<K, V>, key: K, now: int): Cache<K, V> {
    if Expired(c, key, now) then Remove(c, key)
    else
      match Lookup(c.store, key)
      case None => c
      case Some(value) => c.(store := Without(c.store, key) + [Slot(key, value)])
  }

  /** What insertion clears first: the key's own entry, or the oldest one of a full cache. */
  function Room<K, V>(c: Cache<K, V>, key: K): Cache<K, V> {
    if Has(c.store, key) then Remove(c, key)
    else if |c.store| >= c.maxSize && c.store != [] then Remove(c, c.store[0].key)
    else c
  }

  function Insert<K, V>(c: Cache<K, V>, key: K, value: V, deadline: Option<int>): Cache<K, V> {
    var room := Room(c, key);
    room.(store := room.store + [Slot(key, value)],
          deadlines := if deadline.Some? then room.deadlines[key := deadline.value] else room.deadlines)
  }

  /** How many entries the cache can really hold: a limit below 1 behaves as 1. */
  function Capacity(maxSize: int): nat {
    Max(1, maxSize)
  }

  ghost predicate Valid<K, V>(c: Cache<K, V>) {
    && DistinctKeys(c.store)
    && |c.store| <= Capacity(c.maxSize)
    && forall k :: k in c.deadlines ==> Has(c.store, k)
  }

  // ------------------------------------------------------------------
  // Facts about the map
  // ------------------------------------------------------------------

  lemma {:induction false} LookupHas<K, V>(store: seq<Slot<K, V>>, key: K)
    ensures Lookup(store, key).Some? <==> Has(store, key)
    ensures DistinctKeys(store) ==>
              forall i :: 0 <= i < |store| && store[i].key == key ==> Lookup(store, key) == Some(store[i].value)
    ensures Lookup(store, key).Some? ==> exists i :: 0 <= i < |store| && store[i] == Slot(key, Lookup(store, key).value)
  {
    if store != [] {
      var n := |store| - 1;
      LookupHas(store[..n], key);
      if store[n].key == key {
        assert store[n] == Slot(key, Lookup(store, key).value);
      } else if Lookup(store, key).Some? {
        var i :| 0 <= i < n && store[..n][i] == Slot(key, Lookup(store, key).value);
        assert store[i] == Slot(key, Lookup(store, key).value);
      }
    }
  }

  lemma {:induction false} WithoutMember<K, V>(store: seq<Slot<K, V>>, key: K, s: Slot<K, V>)
    ensures s in Without(store, key) <==> s in store && s.key != key
  {
    if store != [] {
      var n := |store| - 1;
      WithoutMember(store[..n], key, s);
      assert store == store[..n] + [store[n]];
    }
  }

  lemma {:induction false} WithoutDistinct<K, V>(store: seq<Slot<K, V>>, key: K)
    requires DistinctKeys(store)
    ensures DistinctKeys(Without(store, key))
  {
    if store != [] {
      var n := |store| - 1;
      WithoutDistinct(store[..n], key);
      var rest := Without(store[..n], key);
      forall i | 0 <= i < |rest|
        ensures rest[i].key != store[n].key
      {
        var s := rest[i];
        assert s in rest;
        WithoutMember(store[..n], key, s);
        var j :| 0 <= j < n && store[..n][j] == s;
        assert store[j].key != store[n].key;
      }
    }
  }

  lemma {:induction false} WithoutSize<K, V>(store: seq<Slot<K, V>>, key: K)
    requires DistinctKeys(store)
    ensures |Without(store, key)| == |store| - (if Has(store, key) then 1 else 0)
    ensures !Has(store, key) ==> Without(store, key) == store
  {
    if store != [] {
      var n := |store| - 1;
      WithoutSize(store[..n], key);
      if Has(store[..n], key) {
        var j :| 0 <= j < n && store[..n][j].key == key;
        assert store[j].key == key;
      } else {
        forall j | 0 <= j < n
          ensures store[j].key != key
        {
          assert store[..n][j] == store[j];
        }
      }
    }
  }

  lemma {:induction false} WithoutFacts<K, V>(store: seq<Slot<K, V>>, key: K)
    requires DistinctKeys(store)
    ensures DistinctKeys(Without(store, key))
    ensures forall s :: s in Without(store, key) <==> s in store && s.key != key
    ensures |Without(store, key)| == |store| - (if Has(store, key) then 1 else 0)
    ensures !Has(store, key) ==> Without(store, key) == store
  {
    WithoutDistinct(store, key);
    WithoutSize(store, key);
    forall s
      ensures s in Without(store, key) <==> s in store && s.key != key
    {
      WithoutMember(store, key, s);
    }
  }

  lemma {:induction false} WithoutAt<K, V>(store: seq<Slot<K, V>>, i: nat)
    requires DistinctKeys(store) && i < |store|
    ensures Without(store, store[i].key) == store[..i] + store[i + 1..]
  {
    var n := |store| - 1;
    var key := store[i].key;
    if i == n {
      assert !Has(store[..n], key);
      WithoutFacts(store[..n], key);
      assert store[i + 1..] == [];
    } else {
      WithoutAt(store[..n], i);
      assert store[..n][..i] == store[..i] && store[..n][i + 1..] + [store[n]] == store[i + 1..];
    }
  }

  lemma RemoveValid<K, V>(c: Cache<K, V>, key: K)
    requires Valid(c)
    ensures Valid(Remove(c, key)) && !Has(Remove(c, key).store, key)
  {
    WithoutFacts(c.store, key);
    var r := Remove(c, key);
    if Has(r.store, key) {
      var s :| s in r.store && s.key == key;
      assert false;
    }
    forall k | k in r.deadlines
      ensures Has(r.store, k)
    {
      var s :| s in c.store && s.key == k;
      assert s in r.store;
    }
  }

  lemma GetValid<K, V>(c: Cache<K, V>, key: K, now: int)
    requires Valid(c)
    ensures Valid(AfterGet(c, key, now))
    ensures Found(c, key, now).Some? ==>
      AfterGet(c, key, now).store == Without(c.store, key) + [Slot(key, Found(c, key, now).value)]
  {
    RemoveValid(c, key);
    LookupHas(c.store, key);
    WithoutFacts(c.store, key);
    var r := AfterGet(c, key, now);
    if Found(c, key, now).Some? {
      Appended(Without(c.store, key), Slot(key, Found(c, key, now).value));
    }
  }

  lemma Appended<K, V>(store: seq<Slot<K, V>>, s: Slot<K, V>)
    requires DistinctKeys(store) && !Has(store, s.key)
    ensures DistinctKeys(store + [s])
    ensures forall k :: Has(store + [s], k) <==> k == s.key || Has(store, k)
  {
    var r := store + [s];
    assert r[|store|] == s;
    forall k | Has(store, k)
      ensures Has(r, k)
    {
      var i :| 0 <= i < |store| && store[i].key == k;
      assert r[i].key == k;
    }
  }

  lemma RoomValid<K, V>(c: Cache<K, V>, key: K)
    requires Valid(c)
    ensures Valid(Room(c, key)) && !Has(Room(c, key).store, key) && |Room(c, key).store| < Capacity(c.maxSize)
    ensures !Has(c.store, key) && |c.store| >= c.maxSize && c.store != [] ==> Room(c, key).store == c.store[1..]
  {
    if Has(c.store, key) {
      RemoveValid(c, key);
      WithoutFacts(c.store, key);
    } else if |c.store| >= c.maxSize && c.store != [] {
      RemoveValid(c, c.store[0].key);
      WithoutFacts(c.store, c.store[0].key);
      assert Has(c.store, c.store[0].key);
      WithoutAt(c.store, 0);
      assert c.store[..0] + c.store[1..] == c.store[1..];
    }
  }

  lemma InsertValid<K, V>(c: Cache<K, V>, key: K, value: V, deadline: Option<int>)
    requires Valid(c)
    ensures Valid(Insert(c, key, value, deadline))
  {
    RoomValid(c, key);
    Appended(Room(c, key).store, Slot(key, value));
  }

  /** A lookup brings in no slot that was not there. */
  lemma GetInventsNothing<K, V>(c: Cache<K, V>, key: K, now: int, s: Slot<K, V>)
    requires Valid(c) && s in AfterGet(c, key, now).store
    ensures s in c.store
  {
    WithoutMember(c.store, key, s);
    LookupHas(c.store, key);
  }

  lemma RoomSubset<K, V>(c: Cache<K, V>, key: K, s: Slot<K, V>)
    requires s in Room(c, key).store
    ensures s in c.store
  {
    WithoutMember(c.store, key, s);
    if c.store != [] {
      WithoutMember(c.store, c.store[0].key, s);
    }
  }

  /** An insertion brings in no slot but the one inserted. */
  lemma InsertInventsNothing<K, V>(
    c: Cache<K, V>, key: K, value: V, deadline: Option<int>, s: Slot<K, V>)
    requires Valid(c) && s in Insert(c, key, value, deadline).store
    ensures s in c.store || s == Slot(key, value)
  {
    var room := Room(c, key);
    assert Insert(c, key, value, deadline).store == room.store + [Slot(key, value)];
    if s in room.store {
      RoomSubset(c, key, s);
    }
  }

  // ------------------------------------------------------------------
  // Caches of right values
  // ------------------------------------------------------------------

  /** A cache without lifetimes every slot of which is right. */
  ghost predicate SoundCache<K, V>(c: Cache<K, V>, right: Slot<K, V> -> bool) {
    Valid(c) && c.deadlines == map[] && forall slot :: slot in c.store ==> right(slot)
  }

  /** A lookup keeps the cache sound; a hit is right, and the key stays. */
  lemma GetSound<K, V>(c: Cache<K, V>, key: K, now: int, right: Slot<K, V> -> bool)
    requires SoundCache(c, right)
    ensures SoundCache(AfterGet(c, key, now), right)
    ensures Found(c, key, now).Some? ==> right(Slot(key, Found(c, key, now).value))
    ensures Found(c, key, now).Some? ==> forall t :: Found(AfterGet(c, key, now), key, t).Some?
  {
    GetValid(c, key, now);
    LookupHas(c.store, key);
    forall slot | slot in AfterGet(c, key, now).store
      ensures right(slot)
    {
      GetInventsNothing(c, key, now, slot);
    }
  }

  /** Storing a right value keeps the cache sound, and the key can be found from then on. */
  lemma SetSound<K, V>(c: Cache<K, V>, key: K, value: V, right: Slot<K, V> -> bool)
    requires SoundCache(c, right) && right(Slot(key, value))
    ensures SoundCache(Insert(c, key, value, None), right)
    ensures forall t :: Found(Insert(c, key, value, None), key, t).Some?
  {
    InsertValid(c, key, value, None);
    forall slot | slot in Insert(c, key, value, None).store
      ensures right(slot)
    {
      InsertInventsNothing(c, key, value, None, slot);
    }
  }

  // ------------------------------------------------------------------
  // Runs
  // ------------------------------------------------------------------

  datatype Op<K, V> = GetOp(key: K, now: int) | SetOp(key: K, value: V, deadline: Option<int>)

  function Step<K, V>(c: Cache<K, V>, op: Op<K, V>): Cache<K, V> {
    match op
    case GetOp(key, now) => AfterGet(c, key, now)
    case SetOp(key, value, deadline) => Insert(c, key, value, deadline)
  }

  function Run<K, V>(c: Cache<K, V>, ops: seq<Op<K, V>>): Cache<K, V> {
    if ops == [] then c else Step(Run(c, ops[..|ops| - 1]), ops[|ops| - 1])
  }

  /** A set, or a lookup that hits: what refreshes a key's position. */
  predicate Touches<K, V>(c: Cache<K, V>, op: Op<K, V>) {
    op.SetOp? || Found(c, op.key, op.now).Some?
  }

  /** The keys set or hit along a run. */
  function Touched<K, V>(c: Cache<K, V>, ops: seq<Op<K, V>>): set<K> {
    if ops == [] then {}
    else
      var before := ops[..|ops| - 1];
      var op := ops[|ops| - 1];
      Touched(c, before) + (if Touches(Run(c, before), op) then {op.key} else {})
  }

  lemma {:induction false} RunValid<K, V>(c: Cache<K, V>, ops: seq<Op<K, V>>)
    requires Valid(c)
    ensures Valid(Run(c, ops)) && Run(c, ops).maxSize == c.maxSize
  {
    if ops != [] {
      RunValid(c, ops[..|ops| - 1]);
      var d, op := Run(c, ops[..|ops| - 1]), ops[|ops| - 1];
      match op
      case GetOp(key, now) => GetValid(d, key, now);
      case SetOp(key, value, deadline) => InsertValid(d, key, value, deadline);
    }
  }

  /** In every run the size stays within the capacity and every deadline belongs to a stored key. */
  lemma {:induction false} SizeBounded<K, V>(maxSize: int, ops: seq<Op<K, V>>)
    ensures var c := Run(Empty<K, V>(maxSize), ops);
            |c.store| <= Capacity(maxSize) && forall k :: k in c.deadlines ==> Has(c.store, k)
  {
    RunValid(Empty<K, V>(maxSize), ops);
  }

  // ------------------------------------------------------------------
  // Retention
  // ------------------------------------------------------------------

  /** Slot i holds k; everything after it was touched since. */
  ghost predicate Holds<K, V>(c: Cache<K, V>, s: Slot<K, V>, i: nat, others: set<K>) {
    i < |c.store| && c.store[i] == s && s.key !in others
    && forall j :: i < j < |c.store| ==> c.store[j].key in others
  }

  ghost function KeysFrom<K, V>(store: seq<Slot<K, V>>, i: nat): set<K>
    requires i <= |store|
  {
    set j | i <= j < |store| :: store[j].key
  }

  lemma KeysFromSize<K, V>(store: seq<Slot<K, V>>, i: nat)
    requires DistinctKeys(store) && i <= |store|
    ensures |KeysFrom(store, i)| == |store| - i
    decreases |store| - i
  {
    if i == |store| {
      assert KeysFrom(store, i) == {};
    } else {
      KeysFromSize(store, i + 1);
      assert KeysFrom(store, i) == {store[i].key} + KeysFrom(store, i + 1);
      assert store[i].key !in KeysFrom(store, i + 1);
    }
  }

  /** With room for one more among the touched keys, slot i is not the one evicted. */
  lemma NotTheOldest<K, V>(c: Cache<K, V>, s: Slot<K, V>, i: nat, others: set<K>, key: K)
    requires Valid(c) && Holds(c, s, i, others) && !Has(c.store, key) && key != s.key
    requires |others + {key}| < Capacity(c.maxSize)
    ensures |c.store| < c.maxSize || i > 0
  {
    if i == 0 {
      KeysFromSize(c.store, 1);
      forall k | k in KeysFrom(c.store, 1) + {key}
        ensures k in others + {key}
      {
      }
      assert key !in KeysFrom(c.store, 1);
      SubsetSize(KeysFrom(c.store, 1) + {key}, others + {key});
    }
  }

  lemma SubsetSize<T>(a: set<T>, b: set<T>)
    requires a <= b
    ensures |a| <= |b| && (|a| == |b| ==> a == b)
  {
    assert b == a + (b - a);
    assert |b| == |a| + |b - a|;
  }

  /** Taking another slot out keeps s where it was, or one place earlier, with the same followers. */
  lemma HoldsWithout<K, V>(c: Cache<K, V>, s: Slot<K, V>, i: nat, others: set<K>, key: K)
    returns (i': nat)
    requires DistinctKeys(c.store) && Holds(c, s, i, others) && key != s.key
    ensures Holds(Remove(c, key), s, i', others)
  {
    if Has(c.store, key) {
      var p :| 0 <= p < |c.store| && c.store[p].key == key;
      WithoutAt(c.store, p);
      i' := if p < i then i - 1 else i;
      HoldsDropped(c, Remove(c, key), s, i, others, p);
    } else {
      WithoutFacts(c.store, key);
      i' := i;
    }
  }

  lemma HoldsDropped<K, V>(
    c: Cache<K, V>, r: Cache<K, V>, s: Slot<K, V>, i: nat, others: set<K>, p: nat)
    requires Holds(c, s, i, others) && p < |c.store| && p != i
    requires r.store == c.store[..p] + c.store[p + 1..]
    ensures Holds(r, s, if p < i then i - 1 else i, others)
  {
    var i' := if p < i then i - 1 else i;
    assert r.store[i'] == s;
    forall j | i' < j < |r.store|
      ensures r.store[j].key in others
    {
      assert r.store[j] == c.store[if j < p then j else j + 1];
    }
  }

  lemma HoldsAppended<K, V>(
    c: Cache<K, V>, s: Slot<K, V>, i: nat, others: set<K>, added: Slot<K, V>, deadlines: map<K, int>)
    requires Holds(c, s, i, others) && added.key != s.key
    ensures Holds(c.(store := c.store + [added], deadlines := deadlines), s, i, others + {added.key})
  {
  }

  /** One operation on another key keeps s in the store, as long as few enough keys were touched. */
  lemma StepHolds<K, V>(c: Cache<K, V>, op: Op<K, V>, s: Slot<K, V>, i: nat, others: set<K>)
    returns (i': nat)
    requires Valid(c) && Holds(c, s, i, others) && op.key != s.key
    requires |others + (if Touches(c, op) then {op.key} else {})| < Capacity(c.maxSize)
    ensures Holds(Step(c, op), s, i', others + (if Touches(c, op) then {op.key} else {}))
    ensures s.key in Step(c, op).deadlines <==> s.key in c.deadlines
    ensures s.key in c.deadlines ==> Step(c, op).deadlines[s.key] == c.deadlines[s.key]
  {
    var without := HoldsWithout(c, s, i, others, op.key);
    match op
    case GetOp(key, now) =>
      GetValid(c, key, now);
      if Found(c, key, now).Some? {
        HoldsAppended(Remove(c, key), s, without, others, Slot(key, Found(c, key, now).value), c.deadlines);
        i' := without;
      } else {
        i' := if Expired(c, key, now) then without else i;
      }
    case SetOp(key, value, deadline) =>
      var r := Insert(c, key, value, deadline);
      if Has(c.store, key) {
        HoldsAppended(Remove(c, key), s, without, others, Slot(key, value), r.deadlines);
        i' := without;
      } else {
        NotTheOldest(c, s, i, others, key);
        if |c.store| >= c.maxSize && c.store != [] {
          assert c.store[0].key != s.key;
          i' := HoldsWithout(c, s, i, others, c.store[0].key);
          HoldsAppended(Remove(c, c.store[0].key), s, i', others, Slot(key, value), r.deadlines);
        } else {
          HoldsAppended(c, s, i, others, Slot(key, value), r.deadlines);
          i' := i;
        }
      }
  }

  lemma RunHolds<K, V>(c: Cache<K, V>, ops: seq<Op<K, V>>, s: Slot<K, V>) returns (i: nat)
    requires Valid(c) && c.store != [] && c.store[|c.store| - 1] == s
    requires forall p :: 0 <= p < |ops| ==> ops[p].key != s.key
    requires |Touched(c, ops)| < Capacity(c.maxSize)
    ensures Holds(Run(c, ops), s, i, Touched(c, ops))
    ensures s.key in Run(c, ops).deadlines <==> s.key in c.deadlines
    ensures s.key in c.deadlines ==> Run(c, ops).deadlines[s.key] == c.deadlines[s.key]
  {
    if ops == [] {
      i := |c.store| - 1;
    } else {
      var before := ops[..|ops| - 1];
      SubsetSize(Touched(c, before), Touched(c, ops));
      i := RunHolds(c, before, s);
      RunValid(c, before);
      i := StepHolds(Run(c, before), ops[|ops| - 1], s, i, Touched(c, before));
    }
  }

  /** The last set of a key in a history. */
  function LastSet<K(==), V>(ops: seq<Op<K, V>>, key: K): (last: Option<Op<K, V>>)
    ensures last.Some? ==> last.value.SetOp? && last.value.key == key
  {
    if ops == [] then None
    else if ops[|ops| - 1].SetOp? && ops[|ops| - 1].key == key then Some(ops[|ops| - 1])
    else LastSet(ops[..|ops| - 1], key)
  }

  /** A stored value and its deadline are those of the key's last set. */
  ghost predicate SlotUpToDate<K, V>(deadlines: map<K, int>, s: Slot<K, V>, last: Option<Op<K, V>>) {
    && last.Some? && last.value.SetOp? && last.value.value == s.value
    && last.value.deadline == (if s.key in deadlines then Some(deadlines[s.key]) else None)
  }

  ghost predicate UpToDate<K(!new), V(!new)>(c: Cache<K, V>, ops: seq<Op<K, V>>) {
    forall s :: s in c.store ==> SlotUpToDate(c.deadlines, s, LastSet(ops, s.key))
  }

  lemma {:induction false} RunUpToDate<K(!new), V(!new)>(maxSize: int, ops: seq<Op<K, V>>)
    ensures UpToDate(Run(Empty<K, V>(maxSize), ops), ops)
  {
    if ops != [] {
      var before, op := ops[..|ops| - 1], ops[|ops| - 1];
      RunUpToDate(maxSize, before);
      RunValid(Empty<K, V>(maxSize), before);
      var c := Run(Empty<K, V>(maxSize), before);
      forall s | s in Step(c, op).store
        ensures SlotUpToDate(Step(c, op).deadlines, s, LastSet(ops, s.key))
      {
        StepUpToDate(c, op, s, LastSet(before, s.key));
      }
    }
  }

  lemma StepUpToDate<K, V>(c: Cache<K, V>, op: Op<K, V>, s: Slot<K, V>, last: Option<Op<K, V>>)
    requires Valid(c) && s in Step(c, op).store
    requires s in c.store ==> SlotUpToDate(c.deadlines, s, last)
    ensures SlotUpToDate(Step(c, op).deadlines, s, if op.SetOp? && op.key == s.key then Some(op) else last)
  {
    match op
    case GetOp(key, now) =>
      WithoutFacts(c.store, key);
      LookupHas(c.store, key);
    case SetOp(key, value, deadline) =>
      RoomValid(c, key);
      if s.key == key {
        assert !Has(Room(c, key).store, key);
        assert key !in Room(c, key).deadlines;
      } else {
        RoomKeeps(c, key, s);
      }
  }

  /** Making room keeps the slots it does not remove, with their deadlines. */
  lemma RoomKeeps<K, V>(c: Cache<K, V>, key: K, s: Slot<K, V>)
    requires Valid(c) && s in Room(c, key).store
    ensures s in c.store
    ensures s.key in Room(c, key).deadlines <==> s.key in c.deadlines
    ensures s.key in c.deadlines ==> Room(c, key).deadlines[s.key] == c.deadlines[s.key]
  {
    if Has(c.store, key) {
      WithoutFacts(c.store, key);
    } else if c.store != [] {
      WithoutFacts(c.store, c.store[0].key);
    }
  }

  /** A touch leaves the key at the end. */
  lemma TouchedIsLast<K, V>(c: Cache<K, V>, op: Op<K, V>)
    requires Valid(c) && Touches(c, op)
    ensures Step(c, op).store != [] && Step(c, op).store[|Step(c, op).store| - 1].key == op.key
  {
    match op
    case GetOp(key, now) => GetValid(c, key, now);
    case SetOp(key, value, deadline) => InsertValid(c, key, value, deadline);
  }

  /**
   * A key last set or hit at `touch` is still returned, with the value of its
   * last set, while its deadline has not passed and fewer distinct other keys
   * than the capacity were set or hit since.
   */
  lemma {:induction false} Retention<K(!new), V(!new)>(
    maxSize: int, before: seq<Op<K, V>>, touch: Op<K, V>, after: seq<Op<K, V>>, now: int)
    requires Touches(Run(Empty<K, V>(maxSize), before), touch)
    requires forall p :: 0 <= p < |after| ==> after[p].key != touch.key
    requires |Touched(Run(Empty<K, V>(maxSize), before + [touch]), after)| < Capacity(maxSize)
    requires var last := LastSet(before + [touch], touch.key);
             last.Some? && last.value.deadline.Some? ==> now < last.value.deadline.value
    ensures var last := LastSet(before + [touch], touch.key);
            && last.Some?
            && Found(Run(Run(Empty<K, V>(maxSize), before + [touch]), after), touch.key, now) == Some(last.value.value)
  {
    var c0, c := Run(Empty<K, V>(maxSize), before), Run(Empty<K, V>(maxSize), before + [touch]);
    assert (before + [touch])[..|before|] == before;
    assert c == Step(c0, touch);
    RunValid(Empty<K, V>(maxSize), before);
    RunValid(Empty<K, V>(maxSize), before + [touch]);
    RunUpToDate<K, V>(maxSize, before + [touch]);
    TouchedIsLast(c0, touch);
    var s := c.store[|c.store| - 1];
    assert s in c.store;
    RetentionFrom(c, s, after, now);
  }

  lemma {:induction false} RetentionFrom<K, V>(c: Cache<K, V>, s: Slot<K, V>, after: seq<Op<K, V>>, now: int)
    requires Valid(c) && c.store != [] && c.store[|c.store| - 1] == s
    requires forall p :: 0 <= p < |after| ==> after[p].key != s.key
    requires |Touched(c, after)| < Capacity(c.maxSize)
    requires s.key in c.deadlines ==> now < c.deadlines[s.key]
    ensures Found(Run(c, after), s.key, now) == Some(s.value)
  {
    var i := RunHolds(c, after, s);
    RunValid(c, after);
    LookupHas(Run(c, after).store, s.key);
  }

  // ------------------------------------------------------------------
  // Exactly least recently used
  // ------------------------------------------------------------------

  function Drop<K(==)>(keys: seq<K>, key: K): seq<K> {
    if keys == [] then []
    else Drop(keys[..|keys| - 1], key) + (if keys[|keys| - 1] == key then [] else [keys[|keys| - 1]])
  }

  function Keys<K, V>(store: seq<Slot<K, V>>): (keys: seq<K>)
    ensures |keys| == |store|
  {
    seq(|store|, i requires 0 <= i < |store| => store[i].key)
  }

  /** Every key ever touched, the most recent last: what an unbounded cache would remember. */
  function Recency<K, V>(c: Cache<K, V>, ops: seq<Op<K, V>>): seq<K> {
    if ops == [] then []
    else
      var before, op := ops[..|ops| - 1], ops[|ops| - 1];
      if Touches(Run(c, before), op) then Drop(Recency(c, before), op.key) + [op.key] else Recency(c, before)
  }

  ghost predicate Distinct<T>(s: seq<T>) {
    forall i, j :: 0 <= i < j < |s| ==> s[i] != s[j]
  }

  lemma {:induction false} DropConcat<K>(a: seq<K>, b: seq<K>, key: K)
    ensures Drop(a + b, key) == Drop(a, key) + Drop(b, key)
  {
    if b == [] {
      assert a + b == a;
    } else {
      var n := |b| - 1;
      DropConcat(a, b[..n], key);
      var last := if b[n] == key then [] else [b[n]];
      assert (a + b)[..|a| + n] == a + b[..n];
      assert Drop(a + b, key) == Drop(a, key) + Drop(b[..n], key) + last;
    }
  }

  lemma {:induction false} DropAbsent<K>(s: seq<K>, key: K)
    requires key !in s
    ensures Drop(s, key) == s
  {
    if s != [] {
      DropAbsent(s[..|s| - 1], key);
    }
  }

  lemma {:induction false} DropDistinct<K>(s: seq<K>, key: K)
    requires Distinct(s)
    ensures Distinct(Drop(s, key)) && key !in Drop(s, key)
    ensures forall k :: k in Drop(s, key) ==> k in s
    ensures |Drop(s, key)| == |s| - (if key in s then 1 else 0)
  {
    if s != [] {
      var n := |s| - 1;
      DropDistinct(s[..n], key);
      assert s == s[..n] + [s[n]];
      assert s[n] !in s[..n];
    }
  }

  lemma {:induction false} KeysWithout<K, V>(store: seq<Slot<K, V>>, key: K)
    ensures Keys(Without(store, key)) == Drop(Keys(store), key)
  {
    if store != [] {
      KeysWithout(store[..|store| - 1], key);
      assert Keys(store)[..|store| - 1] == Keys(store[..|store| - 1]);
    }
  }

  lemma LastOf<T>(a: seq<T>, b: seq<T>, m: nat)
    requires |b| == m || (a == [] && |b| <= m)
    ensures Last(a + b, m) == b
  {
  }

  /** Everything but the last m, and the last m. */
  lemma SplitLast<T>(l: seq<T>, m: nat) returns (older: seq<T>)
    ensures l == older + Last(l, m) && (older == [] || |Last(l, m)| == m)
  {
    older := l[..|l| - Min(m, |l|)];
  }

  lemma DistinctParts<T>(a: seq<T>, b: seq<T>)
    requires Distinct(a + b)
    ensures Distinct(a) && Distinct(b) && forall x :: x in b ==> x !in a
  {
    var l := a + b;
    assert forall i :: 0 <= i < |a| ==> l[i] == a[i];
    assert forall i :: 0 <= i < |b| ==> l[|a| + i] == b[i];
  }

  /** Dropping a key from the last m only. */
  lemma DropFromLater<K>(a: seq<K>, b: seq<K>, key: K) returns (rest: seq<K>)
    requires key !in a && Distinct(b) && key in b
    ensures rest == Drop(b, key) && Drop(a + b, key) == a + rest && |rest| == |b| - 1
  {
    DropConcat(a, b, key);
    DropAbsent(a, key);
    DropDistinct(b, key);
    rest := Drop(b, key);
  }

  lemma DropFromEarlier<K>(a: seq<K>, b: seq<K>, key: K) returns (rest: seq<K>)
    requires key !in b
    ensures Drop(a + b, key) == rest + b && (a == [] ==> rest == [])
  {
    DropConcat(a, b, key);
    DropAbsent(b, key);
    rest := Drop(a, key);
  }

  lemma LastMoved<K>(older: seq<K>, rest: seq<K>, key: K, m: nat)
    requires |rest| + 1 == m || (older == [] && |rest| + 1 <= m)
    ensures Last(older + rest + [key], m) == rest + [key]
  {
    assert older + rest + [key] == older + (rest + [key]);
    LastOf(older, rest + [key], m);
  }

  lemma LastPushed<K>(rest: seq<K>, held: seq<K>, key: K, m: nat)
    requires m >= 1 && (|held| == m || (rest == [] && |held| <= m))
    ensures Last(rest + held + [key], m) == (if |held| < m then held else held[1..]) + [key]
  {
    if |held| < m {
      LastMoved(rest, held, key, m);
    } else {
      assert rest + held == (rest + [held[0]]) + held[1..];
      LastMoved(rest + [held[0]], held[1..], key, m);
    }
  }

  lemma LastDistinct<K>(l: seq<K>, m: nat, key: K) returns (older: seq<K>)
    requires Distinct(l) && key in Last(l, m)
    ensures l == older + Last(l, m) && (older == [] || |Last(l, m)| == m)
    ensures Distinct(Last(l, m)) && key !in older
  {
    older := SplitLast(l, m);
    DistinctParts(older, Last(l, m));
  }

  lemma {:induction false} MoveToEnd<K>(older: seq<K>, held: seq<K>, m: nat, key: K)
    requires key !in older && Distinct(held) && key in held && (older == [] || |held| == m) && |held| <= m
    ensures Last(Drop(older + held, key) + [key], m) == Drop(held, key) + [key]
  {
    var rest := DropFromLater(older, held, key);
    LastMoved(older, rest, key, m);
  }

  /** Touching a key among the last m: it moves to the end of them. */
  lemma {:induction false} TouchHeld<K>(l: seq<K>, held: seq<K>, m: nat, key: K)
    requires Distinct(l) && held == Last(l, m) && key in held
    ensures Last(Drop(l, key) + [key], m) == Drop(held, key) + [key]
  {
    var older := LastDistinct(l, m, key);
    MoveToEnd(older, held, m, key);
  }

  /** Touching another key: it comes in at the end, and the first of the last m goes if they were m. */
  lemma {:induction false} TouchNew<K>(l: seq<K>, m: nat, key: K)
    requires Distinct(l) && key !in Last(l, m) && m >= 1
    ensures Last(Drop(l, key) + [key], m) ==
      (if |Last(l, m)| < m then Last(l, m) else Last(l, m)[1..]) + [key]
  {
    var older := SplitLast(l, m);
    var rest := DropFromEarlier(older, Last(l, m), key);
    LastPushed(rest, Last(l, m), key, m);
  }

  lemma KeysAppend<K, V>(store: seq<Slot<K, V>>, s: Slot<K, V>)
    ensures Keys(store + [s]) == Keys(store) + [s.key]
  {
  }

  ghost predicate NoDeadlines<K, V>(ops: seq<Op<K, V>>) {
    forall p :: 0 <= p < |ops| && ops[p].SetOp? ==> ops[p].deadline == None
  }

  lemma InKeys<K, V>(store: seq<Slot<K, V>>, key: K)
    ensures key in Keys(store) <==> Has(store, key)
  {
    if Has(store, key) {
      var i :| 0 <= i < |store| && store[i].key == key;
      assert Keys(store)[i] == key;
    }
  }

  /** The keys after a touch: moved to the end, or added with the oldest gone from a full cache. */
  lemma KeysAfterTouch<K, V>(c: Cache<K, V>, op: Op<K, V>)
    requires Valid(c) && c.deadlines == map[] && Touches(c, op)
    ensures Keys(Step(c, op).store) ==
      (if Has(c.store, op.key) then Drop(Keys(c.store), op.key)
       else if |c.store| < Capacity(c.maxSize) then Keys(c.store) else Keys(c.store)[1..]) + [op.key]
  {
    LookupHas(c.store, op.key);
    KeysWithout(c.store, op.key);
    match op
    case GetOp(key, now) =>
      KeysAppend(Without(c.store, key), Slot(key, Found(c, key, now).value));
    case SetOp(key, value, deadline) =>
      RoomValid(c, key);
      KeysAppend(Room(c, key).store, Slot(key, value));
      if !Has(c.store, key) && |c.store| >= Capacity(c.maxSize) {
        assert Keys(c.store[1..]) == Keys(c.store)[1..];
      }
  }

  lemma {:induction false} StepRecency<K, V>(c: Cache<K, V>, op: Op<K, V>, l: seq<K>)
    requires Valid(c) && c.deadlines == map[] && (op.SetOp? ==> op.deadline == None)
    requires Distinct(l) && Keys(c.store) == Last(l, Capacity(c.maxSize))
    ensures Touches(c, op) ==> Keys(Step(c, op).store) == Last(Drop(l, op.key) + [op.key], Capacity(c.maxSize))
    ensures Touches(c, op) ==> Distinct(Drop(l, op.key) + [op.key])
    ensures !Touches(c, op) ==> Step(c, op) == c
    ensures Step(c, op).deadlines == map[]
  {
    if Touches(c, op) {
      InKeys(c.store, op.key);
      DropDistinct(l, op.key);
      KeysAfterTouch(c, op);
      if Has(c.store, op.key) {
        TouchHeld(l, Keys(c.store), Capacity(c.maxSize), op.key);
      } else {
        TouchNew(l, Capacity(c.maxSize), op.key);
      }
    }
  }

  /**
   * Without lifetimes the cache holds, in order, exactly the last touched keys
   * that fit: what is evicted is always the least recently used.
   */
  lemma {:induction false} ExactlyMostRecent<K, V>(maxSize: int, ops: seq<Op<K, V>>)
    requires NoDeadlines(ops)
    ensures var c, l := Run(Empty<K, V>(maxSize), ops), Recency(Empty<K, V>(maxSize), ops);
            c.deadlines == map[] && Distinct(l) && Keys(c.store) == Last(l, Capacity(maxSize))
  {
    if ops != [] {
      var before, op := ops[..|ops| - 1], ops[|ops| - 1];
      ExactlyMostRecent<K, V>(maxSize, before);
      RunValid(Empty<K, V>(maxSize), before);
      StepRecency(Run(Empty<K, V>(maxSize), before), op, Recency(Empty<K, V>(maxSize), before));
    }
  }

  // ------------------------------------------------------------------
  // Snapshots
  // ------------------------------------------------------------------

  datatype Entry<K, V> = Entry(key: K, value: V, expiresAt: Option<int>)

  /** One element of a parsed snapshot: no key at all, a key of another type, or an entry. */
  datatype RawEntry<K, V> = Junk | BadKey | Raw(entry: Entry<K, V>)

  datatype Payload<K, V> =
    | NotJson | NotAnObject | NoEntries(version: int)
    | Payload(version: int, entries: seq<RawEntry<K, V>>)

  datatype HydrateError = InvalidJson | NotObject | UnsupportedVersion | EntriesNotArray | KeyNotSerializable

  function EntryOf<K, V>(c: Cache<K, V>, s: Slot<K, V>): Entry<K, V> {
    Entry(s.key, s.value, if s.key in c.deadlines then Some(c.deadlines[s.key]) else None)
  }

  predicate Dead<K, V>(e: Entry<K, V>, now: int) {
    e.expiresAt.Some? && now >= e.expiresAt.value
  }

  /** The entries of a snapshot: live slots, least recently used first. */
  function Snapshot<K, V>(c: Cache<K, V>, slots: seq<Slot<K, V>>, now: int): seq<Entry<K, V>> {
    if slots == [] then []
    else
      var before := Snapshot(c, slots[..|slots| - 1], now);
      var e := EntryOf(c, slots[|slots| - 1]);
      if Dead(e, now) then before else before + [e]
  }

  function Hydrated<K, V>(c: Cache<K, V>, entries: seq<RawEntry<K, V>>, now: int): Cache<K, V> {
    if entries == [] then c
    else
      var before := Hydrated(c, entries[..|entries| - 1], now);
      var raw := entries[|entries| - 1];
      if !raw.Raw? || Dead(raw.entry, now) then before
      else Insert(before, raw.entry.key, raw.entry.value, raw.entry.expiresAt)
  }

  function Restored<K, V>(entries: seq<RawEntry<K, V>>, now: int): nat {
    if entries == [] then 0
    else
      var raw := entries[|entries| - 1];
      Restored(entries[..|entries| - 1], now) + (if !raw.Raw? || Dead(raw.entry, now) then 0 else 1)
  }

  /** How many entries are read before hydration stops at a key it rejects. */
  function Readable<K, V>(entries: seq<RawEntry<K, V>>): (n: nat)
    ensures n <= |entries| && (n < |entries| ==> entries[n].BadKey?)
    ensures forall i :: 0 <= i < n ==> !entries[i].BadKey?
  {
    if entries == [] then 0
    else
      var n := Readable(entries[..|entries| - 1]);
      if n < |entries| - 1 || entries[n].BadKey? then n else n + 1
  }

  function Raws<K, V>(entries: seq<Entry<K, V>>): (r: seq<RawEntry<K, V>>)
    ensures |r| == |entries|
  {
    seq(|entries|, i requires 0 <= i < |entries| => Raw(entries[i]))
  }

  /** A cache holding exactly these entries, in this order, with these deadlines. */
  ghost predicate HoldsExactly<K, V>(c: Cache<K, V>, entries: seq<Entry<K, V>>) {
    && |c.store| == |entries|
    && (forall i :: 0 <= i < |entries| ==>
          EntryOf(c, c.store[i]) == entries[i])
    && forall k :: k in c.deadlines ==> Has(c.store, k)
  }

  ghost predicate DistinctEntries<K, V>(entries: seq<Entry<K, V>>) {
    forall i, j :: 0 <= i < j < |entries| ==> entries[i].key != entries[j].key
  }

  lemma InsertLast<K, V>(c: Cache<K, V>, held: seq<Entry<K, V>>, e: Entry<K, V>)
    requires Valid(c) && HoldsExactly(c, held) && DistinctEntries(held + [e])
    ensures HoldsExactly(Insert(c, e.key, e.value, e.expiresAt),
              (if |held| >= c.maxSize && held != [] then held[1..] else held) + [e])
  {
    forall s | s in c.store
      ensures s.key != e.key
    {
      var i :| 0 <= i < |c.store| && c.store[i] == s;
      assert EntryOf(c, c.store[i]) == held[i] == (held + [e])[i];
      assert (held + [e])[|held|] == e;
    }
    RoomValid(c, e.key);
    if |c.store| >= c.maxSize && c.store != [] {
      OldestDropped(c, Room(c, e.key), held);
      AppendExactly(Room(c, e.key), held[1..], e);
    } else {
      AppendExactly(c, held, e);
    }
  }

  lemma OldestDropped<K, V>(c: Cache<K, V>, r: Cache<K, V>, held: seq<Entry<K, V>>)
    requires Valid(c) && Valid(r) && HoldsExactly(c, held) && c.store != []
    requires r.store == c.store[1..] && r.deadlines == c.deadlines - {c.store[0].key}
    ensures HoldsExactly(r, held[1..])
  {
    forall i | 0 <= i < |r.store|
      ensures EntryOf(r, r.store[i]) == held[1..][i]
    {
      assert EntryOf(c, c.store[i + 1]) == held[i + 1];
      assert c.store[i + 1].key != c.store[0].key;
    }
  }

  lemma AppendExactly<K, V>(c: Cache<K, V>, held: seq<Entry<K, V>>, e: Entry<K, V>)
    requires Valid(c) && HoldsExactly(c, held) && !Has(c.store, e.key)
    ensures var deadlines := if e.expiresAt.Some? then c.deadlines[e.key := e.expiresAt.value] else c.deadlines;
            HoldsExactly(c.(store := c.store + [Slot(e.key, e.value)], deadlines := deadlines), held + [e])
  {
    var r := c.(store := c.store + [Slot(e.key, e.value)],
                deadlines := if e.expiresAt.Some? then c.deadlines[e.key := e.expiresAt.value] else c.deadlines);
    Appended(c.store, Slot(e.key, e.value));
    assert e.key !in c.deadlines;
    forall i | 0 <= i < |c.store|
      ensures EntryOf(r, r.store[i]) == held[i]
    {
      assert c.store[i] in c.store;
      assert EntryOf(c, c.store[i]) == held[i];
    }
  }

  /** The last entries, one more: the oldest goes when the window is full. */
  lemma LastGrows<T>(s: seq<T>, e: T, maxSize: int)
    ensures Last(s + [e], Capacity(maxSize)) ==
      (var kept := Last(s, Capacity(maxSize)); if |kept| >= maxSize && kept != [] then kept[1..] else kept) + [e]
  {
  }

  /** The entries hydration inserts. */
  function Live<K, V>(entries: seq<RawEntry<K, V>>, now: int): seq<Entry<K, V>> {
    if entries == [] then []
    else
      var raw := entries[|entries| - 1];
      Live(entries[..|entries| - 1], now) + (if !raw.Raw? || Dead(raw.entry, now) then [] else [raw.entry])
  }

  function InsertAll<K, V>(c: Cache<K, V>, live: seq<Entry<K, V>>): Cache<K, V> {
    if live == [] then c
    else
      var e := live[|live| - 1];
      Insert(InsertAll(c, live[..|live| - 1]), e.key, e.value, e.expiresAt)
  }

  lemma {:induction false} InsertAllNext<K, V>(c: Cache<K, V>, live: seq<Entry<K, V>>, e: Entry<K, V>)
    ensures InsertAll(c, live + [e]) == Insert(InsertAll(c, live), e.key, e.value, e.expiresAt)
  {
    assert (live + [e])[..|live|] == live;
  }

  lemma {:induction false} HydratedInserts<K, V>(c: Cache<K, V>, entries: seq<RawEntry<K, V>>, now: int)
    ensures Hydrated(c, entries, now) == InsertAll(c, Live(entries, now))
    ensures Restored(entries, now) == |Live(entries, now)|
  {
    if entries != [] {
      var n := |entries| - 1;
      var before, raw := Live(entries[..n], now), entries[n];
      HydratedInserts(c, entries[..n], now);
      if !raw.Raw? || Dead(raw.entry, now) {
        assert Live(entries, now) == before;
      } else {
        InsertAllNext(c, before, raw.entry);
      }
    }
  }

  lemma {:induction false} LiveOfRaws<K, V>(entries: seq<Entry<K, V>>, now: int)
    requires forall i :: 0 <= i < |entries| ==> !Dead(entries[i], now)
    ensures Live(Raws(entries), now) == entries
  {
    if entries != [] {
      var n := |entries| - 1;
      LiveOfRaws(entries[..n], now);
      assert Raws(entries)[..n] == Raws(entries[..n]);
    }
  }

  lemma {:induction false} InsertedKeepLast<K, V>(maxSize: int, entries: seq<Entry<K, V>>)
    requires DistinctEntries(entries)
    ensures var r := InsertAll(Empty<K, V>(maxSize), entries);
            Valid(r) && r.maxSize == maxSize && HoldsExactly(r, Last(entries, Capacity(maxSize)))
  {
    if entries != [] {
      var front, e := entries[..|entries| - 1], entries[|entries| - 1];
      InsertedKeepLast<K, V>(maxSize, front);
      InsertAllNext(Empty<K, V>(maxSize), front, e);
      assert entries == front + [e];
      HydrateStep(InsertAll(Empty<K, V>(maxSize), front), front, e);
    }
  }

  lemma HydrateStep<K, V>(c: Cache<K, V>, before: seq<Entry<K, V>>, e: Entry<K, V>)
    requires Valid(c) && HoldsExactly(c, Last(before, Capacity(c.maxSize)))
    requires DistinctEntries(before + [e])
    ensures var r := Insert(c, e.key, e.value, e.expiresAt);
            Valid(r) && r.maxSize == c.maxSize && HoldsExactly(r, Last(before + [e], Capacity(c.maxSize)))
  {
    var held := Last(before, Capacity(c.maxSize));
    InsertValid(c, e.key, e.value, e.expiresAt);
    LastGrows(before, e, c.maxSize);
    forall i, j | 0 <= i < j < |held| + 1
      ensures (held + [e])[i].key != (held + [e])[j].key
    {
      var d := |before| - |held|;
      assert (before + [e])[i + d].key != (before + [e])[j + d].key;
    }
    InsertLast(c, held, e);
  }

  lemma {:induction false} SnapshotFacts<K, V>(c: Cache<K, V>, slots: seq<Slot<K, V>>, now: int)
    requires DistinctKeys(slots)
    ensures DistinctEntries(Snapshot(c, slots, now))
    ensures forall i :: 0 <= i < |Snapshot(c, slots, now)| ==>
      !Dead(Snapshot(c, slots, now)[i], now) && Has(slots, Snapshot(c, slots, now)[i].key)
  {
    if slots != [] {
      var n := |slots| - 1;
      SnapshotFacts(c, slots[..n], now);
      var before := Snapshot(c, slots[..n], now);
      forall i | 0 <= i < |before|
        ensures Has(slots, before[i].key) && before[i].key != slots[n].key
      {
        var j :| 0 <= j < n && slots[..n][j].key == before[i].key;
        assert slots[j].key == before[i].key;
      }
      assert slots[n].key == EntryOf(c, slots[n]).key;
    }
  }

  /**
   * Serialising a cache and hydrating an empty one of any capacity at the same
   * instant leaves exactly the most recent live entries that fit, in the same
   * order and with the same deadlines.
   */
  lemma {:induction false} SnapshotRoundTrip<K, V>(c: Cache<K, V>, maxSize: int, now: int)
    requires Valid(c)
    ensures var entries := Snapshot(c, c.store, now);
            && HoldsExactly(Hydrated(Empty<K, V>(maxSize), Raws(entries), now), Last(entries, Capacity(maxSize)))
            && Restored(Raws(entries), now) == |entries|
  {
    SnapshotFacts(c, c.store, now);
    var entries := Snapshot(c, c.store, now);
    LiveOfRaws(entries, now);
    HydratedInserts(Empty<K, V>(maxSize), Raws(entries), now);
    InsertedKeepLast<K, V>(maxSize, entries);
  }

  // ------------------------------------------------------------------
  // The count hydration returns
  // ------------------------------------------------------------------

  function EntryKeys<K, V>(entries: seq<Entry<K, V>>): (keys: seq<K>)
    ensures |keys| == |entries|
  {
    seq(|entries|, i requires 0 <= i < |entries| => entries[i].key)
  }

  lemma KeysAfterInsert<K, V>(c: Cache<K, V>, key: K, value: V, deadline: Option<int>)
    requires Valid(c)
    ensures Keys(Insert(c, key, value, deadline).store) ==
      (if key in Keys(c.store) then Drop(Keys(c.store), key)
       else if |c.store| < Capacity(c.maxSize) then Keys(c.store) else Keys(c.store)[1..]) + [key]
  {
    InKeys(c.store, key);
    KeysWithout(c.store, key);
    RoomValid(c, key);
    KeysAppend(Room(c, key).store, Slot(key, value));
    if !Has(c.store, key) && |c.store| >= Capacity(c.maxSize) {
      assert Keys(c.store[1..]) == Keys(c.store)[1..];
    }
  }

  /** One new key more after `held` pushes out something older. */
  lemma PushOlder<K>(older: seq<K>, held: seq<K>, key: K, full: bool) returns (rest: seq<K>)
    requires key !in held && (full ==> older != [])
    ensures (if key in older + held then Drop(older + held, key)
             else if full then (older + held)[1..] else older + held) + [key] == rest + (held + [key])
  {
    if key in older + held {
      rest := DropFromEarlier(older, held, key);
    } else {
      rest := if full then older[1..] else older;
    }
    assert rest + held + [key] == rest + (held + [key]);
  }

  /** Different keys that fit are all still there, at the end and in order, whatever the cache held before. */
  lemma InsertedStay<K, V>(c: Cache<K, V>, live: seq<Entry<K, V>>) returns (older: seq<K>)
    requires Valid(c) && Distinct(EntryKeys(live)) && |live| <= Capacity(c.maxSize)
    ensures Valid(InsertAll(c, live)) && InsertAll(c, live).maxSize == c.maxSize
    ensures Keys(InsertAll(c, live).store) == older + EntryKeys(live)
  {
    if live == [] {
      older := Keys(c.store);
      assert older + EntryKeys(live) == older;
    } else {
      var n := |live| - 1;
      var e, held := live[n], EntryKeys(live[..n]);
      assert EntryKeys(live) == held + [e.key];
      DistinctParts(held, [e.key]);
      var before := InsertedStay(c, live[..n]);
      var b := InsertAll(c, live[..n]);
      InsertValid(b, e.key, e.value, e.expiresAt);
      KeysAfterInsert(b, e.key, e.value, e.expiresAt);
      older := PushOlder(before, held, e.key, |b.store| >= Capacity(c.maxSize));
    }
  }

  lemma {:induction false} InsertAllValid<K, V>(c: Cache<K, V>, live: seq<Entry<K, V>>)
    requires Valid(c)
    ensures Valid(InsertAll(c, live)) && InsertAll(c, live).maxSize == c.maxSize
  {
    if live != [] {
      var e := live[|live| - 1];
      InsertAllValid(c, live[..|live| - 1]);
      InsertValid(InsertAll(c, live[..|live| - 1]), e.key, e.value, e.expiresAt);
    }
  }

  ghost function Members<T>(s: seq<T>): set<T> {
    set x | x in s
  }

  lemma DistinctAppend<T>(s: seq<T>, x: T)
    ensures Distinct(s + [x]) <==> Distinct(s) && x !in s
  {
    var r := s + [x];
    assert forall i :: 0 <= i < |s| ==> r[i] == s[i];
    assert r[|s|] == x;
  }

  lemma MembersAppend<T>(s: seq<T>, x: T)
    ensures |Members(s + [x])| == |Members(s)| + (if x in s then 0 else 1)
  {
    assert Members(s + [x]) == Members(s) + {x};
  }

  lemma MembersSize<T>(s: seq<T>)
    ensures |Members(s)| <= |s| && (|Members(s)| == |s| <==> Distinct(s))
  {
    if s == [] {
      assert Members(s) == {};
    } else {
      var front, x := s[..|s| - 1], s[|s| - 1];
      MembersSize(front);
      DistinctAppend(front, x);
      MembersAppend(front, x);
      assert s == front + [x];
    }
  }

  /** The keys hydration brought into the cache, as far as they are still in it afterwards. */
  ghost function KeptKeys<K, V>(live: seq<Entry<K, V>>, c: Cache<K, V>): set<K> {
    Members(EntryKeys(live)) * Members(Keys(c.store))
  }

  /**
   * Hydrating any cache with any snapshot returns the number of entries it
   * leaves in the cache exactly when the entries not skipped have different
   * keys and fit the capacity together.
   */
  lemma {:induction false} HydrateCountsExactly<K, V>(c: Cache<K, V>, entries: seq<RawEntry<K, V>>, now: int)
    requires Valid(c)
    ensures var live := Live(entries, now);
            Restored(entries, now) == |KeptKeys(live, Hydrated(c, entries, now))| <==>
            Distinct(EntryKeys(live)) && |live| <= Capacity(c.maxSize)
  {
    var live := Live(entries, now);
    HydratedInserts(c, entries, now);
    var r := InsertAll(c, live);
    var all, kept := Members(EntryKeys(live)), KeptKeys(live, r);
    MembersSize(EntryKeys(live));
    if Distinct(EntryKeys(live)) && |live| <= Capacity(c.maxSize) {
      var older := InsertedStay(c, live);
      assert kept == all;
    } else if |kept| == |live| {
      InsertAllValid(c, live);
      SubsetSize(kept, all);
      SubsetSize(kept, Members(Keys(r.store)));
      MembersSize(Keys(r.store));
      assert false;
    }
  }

  /** Two entries into a cache of one: 2 are reported, 1 is there. */
  lemma {:induction false} HydrateOvercounts<V>(a: V, b: V, now: int)
    ensures var entries := [Raw(Entry(1, a, None)), Raw(Entry(2, b, None))];
            && Restored(entries, now) == 2
            && Hydrated(Empty<int, V>(1), entries, now).store == [Slot(2, b)]
  {
    var entries := [Raw(Entry(1, a, None)), Raw(Entry(2, b, None))];
    var c := Empty<int, V>(1);
    assert entries[..1] == [entries[0]] && [entries[0]][..0] == [];
    assert Restored<int, V>([], now) == 0 && Hydrated(c, [], now) == c;
    assert Hydrated(c, [entries[0]], now).store == [Slot(1, a)];
    assert Without([Slot(1, a)], 1) == [];
  }

  // ------------------------------------------------------------------
  // The cache object
  // ------------------------------------------------------------------

  lemma {:induction false} HydratedPrefix<K, V>(c: Cache<K, V>, entries: seq<RawEntry<K, V>>, now: int, i: nat)
    requires i < |entries|
    ensures var skipped := !entries[i].Raw? || Dead(entries[i].entry, now);
            var before := Hydrated(c, entries[..i], now);
            && Hydrated(c, entries[..i + 1], now) ==
               (if skipped then before
                else Insert(before, entries[i].entry.key, entries[i].entry.value, entries[i].entry.expiresAt))
            && Restored(entries[..i + 1], now) == Restored(entries[..i], now) + (if skipped then 0 else 1)
  {
    assert entries[..i + 1][..i] == entries[..i];
  }

  class LruMemoCache<K(==), V> {
    var store: seq<Slot<K, V>>
    var expiresAt: map<K, int>
    var cacheHits: nat
    var cacheMisses: nat
    const maxSize: int
    const defaultTtlMs: Option<int>

    function View(): Cache<K, V>
      reads this
    {
      Cache(store, expiresAt, maxSize)
    }

    constructor (maxEntries: int, ttlMs: Option<int>)
      requires ttlMs.Some? ==> ttlMs.value > 0
      ensures View() == Empty(maxEntries) && cacheHits == cacheMisses == 0
      ensures maxSize == maxEntries && defaultTtlMs == ttlMs
    {
      store := [];
      expiresAt := map[];
      cacheHits, cacheMisses := 0, 0;
      maxSize := maxEntries;
      defaultTtlMs := ttlMs;
    }

    method Drop(key: K)
      modifies this`store, this`expiresAt
      ensures View() == Remove(old(View()), key)
    {
      store := Without(store, key);
      expiresAt := expiresAt - {key};
    }

    method Get(key: K, now: int) returns (value: Option<V>)
      modifies this`store, this`expiresAt
      ensures View() == AfterGet(old(View()), key, now) && value == Found(old(View()), key, now)
    {
      if key in expiresAt && now >= expiresAt[key] {
        Drop(key);
        return None;
      }
      value := Lookup(store, key);
      if value.Some? {
        store := Without(store, key);
        store := store + [Slot(key, value.value)];
      }
    }

    method InsertEntry(key: K, value: V, deadline: Option<int>)
      modifies this`store, this`expiresAt
      ensures View() == Insert(old(View()), key, value, deadline)
    {
      if Has(store, key) {
        Drop(key);
      } else if |store| >= maxSize {
        if store != [] {
          Drop(store[0].key);
        }
      }
      store := store + [Slot(key, value)];
      if deadline.Some? {
        expiresAt := expiresAt[key := deadline.value];
      }
    }

    /** False for a lifetime that is not a positive finite number; nothing changes then. */
    method Set(key: K, value: V, ttl: Ttl, now: int) returns (ok: bool)
      requires defaultTtlMs.Some? ==> defaultTtlMs.value > 0
      modifies this`store, this`expiresAt
      ensures ok <==> ttl.Default? || (ttl.Ms? && ttl.value > 0)
      ensures !ok ==> View() == old(View())
      ensures ok && ttl.Ms? ==> View() == Insert(old(View()), key, value, Some(now + ttl.value))
      ensures ok && ttl.Default? ==> View() == Insert(old(View()), key, value,
        if defaultTtlMs.Some? then Some(now + defaultTtlMs.value) else None)
    {
      var ttlMs := if ttl.Default? then defaultTtlMs else if ttl.Ms? then Some(ttl.value) else None;
      if ttl.NotFinite? || (ttlMs.Some? && ttlMs.value <= 0) {
        return false;
      }
      InsertEntry(key, value, if ttlMs.None? then None else Some(now + ttlMs.value));
      return true;
    }

    method RecordHit()
      modifies this`cacheHits
      ensures cacheHits == old(cacheHits) + 1
    {
      cacheHits := cacheHits + 1;
    }

    method RecordMiss()
      modifies this`cacheMisses
      ensures cacheMisses == old(cacheMisses) + 1
    {
      cacheMisses := cacheMisses + 1;
    }

    method Clear()
      modifies this
      ensures View() == Empty(maxSize) && cacheHits == cacheMisses == 0
    {
      store := [];
      expiresAt := map[];
      cacheHits, cacheMisses := 0, 0;
    }

    method Serialize(now: int) returns (payload: Payload<K, V>)
      ensures payload == Payload(1, Raws(Snapshot(View(), store, now)))
    {
      var entries: seq<Entry<K, V>> := [];
      for i := 0 to |store|
        invariant entries == Snapshot(View(), store[..i], now)
      {
        assert store[..i + 1][..i] == store[..i];
        var s := store[i];
        var deadline := if s.key in expiresAt then Some(expiresAt[s.key]) else None;
        if deadline.Some? && now >= deadline.value {
          continue;
        }
        entries := entries + [Entry(s.key, s.value, deadline)];
      }
      assert store[..|store|] == store;
      payload := Payload(1, Raws(entries));
    }

    /** Stops with an error at a key of another type, keeping what was restored before it. */
    method Hydrate(payload: Payload<K, V>, now: int) returns (r: Result<nat, HydrateError>)
      modifies this`store, this`expiresAt
      ensures !(payload.Payload? && payload.version == 1) ==> r.Err? && View() == old(View())
      ensures payload.Payload? && payload.version == 1 ==>
        && View() == Hydrated(old(View()), payload.entries[..Readable(payload.entries)], now)
        && r == if Readable(payload.entries) < |payload.entries| then Err(KeyNotSerializable)
                else Ok(Restored(payload.entries, now))
    {
      if payload.NotJson? {
        return Err(InvalidJson);
      }
      if payload.NotAnObject? {
        return Err(NotObject);
      }
      if payload.version != 1 {
        return Err(UnsupportedVersion);
      }
      if payload.NoEntries? {
        return Err(EntriesNotArray);
      }
      var restored := 0;
      for i := 0 to |payload.entries|
        invariant View() == Hydrated(old(View()), payload.entries[..i], now)
        invariant restored == Restored(payload.entries[..i], now)
        invariant i <= Readable(payload.entries)
      {
        HydratedPrefix(old(View()), payload.entries, now, i);
        var raw := payload.entries[i];
        if raw.Junk? {
          continue;
        }
        if raw.BadKey? {
          return Err(KeyNotSerializable);
        }
        if raw.entry.expiresAt.Some? && now >= raw.entry.expiresAt.value {
          continue;
        }
        InsertEntry(raw.entry.key, raw.entry.value, raw.entry.expiresAt);
        restored := restored + 1;
      }
      assert payload.entries[..|payload.entries|] == payload.entries;
      return Ok(restored);
    }
  }
}
