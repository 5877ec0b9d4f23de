/**
 * Transaction rows and the bounded-heap "k newest" selection
 * (src/dashboard/transaction-history.ts, 616-673).
 *
 * The heap keeps the row to drop next at its root. Everything is proved
 * against one reference: sort all rows newest first, ties by original
 * position, and take the first k.
 */
module HistoryRanking {
  import opened Common

  datatype Status = PENDING | CONFIRMED | FAILED | CANCELLED | UNKNOWN_STATUS

  datatype Kind = CREATE | WITHDRAW | PAUSE | RESUME | CANCEL | TOP_UP | UNKNOWN_KIND

  datatype Direction = IN | OUT | UNKNOWN_DIRECTION

  function KindName(k: Kind): string {
    match k
    case CREATE => "CREATE" case WITHDRAW => "WITHDRAW" case PAUSE => "PAUSE" case RESUME => "RESUME"
    case CANCEL => "CANCEL" case TOP_UP => "TOP_UP" case UNKNOWN_KIND => "UNKNOWN"
  }

  function DirectionName(d: Direction): string {
    match d case IN => "IN" case OUT => "OUT" case UNKNOWN_DIRECTION => "UNKNOWN"
  }

  function StatusName(s: Status): string {
    match s
    case PENDING => "PENDING" case CONFIRMED => "CONFIRMED" case FAILED => "FAILED"
    case CANCELLED => "CANCELLED" case UNKNOWN_STATUS => "UNKNOWN"
  }

  datatype Transaction = Transaction(
    id: string, hash: string, streamId: string, kind: Kind, direction: Direction,
    status: Status, amount: string, asset: string, counterparty: string, timestamp: int)

  datatype Ranked = Ranked(tx: Transaction, idx: nat)

  predicate IsLowerPriority(a: Ranked, b: Ranked) {
    if a.tx.timestamp != b.tx.timestamp then a.tx.timestamp < b.tx.timestamp else a.idx > b.idx
  }

  // ------------------------------------------------------------------
  // Reference: sort everything
  // ------------------------------------------------------------------

  function RankedRows(txs: seq<Transaction>): (rows: seq<Ranked>)
    ensures |rows| == |txs|
  {
    seq(|txs|, i requires 0 <= i < |txs| => Ranked(txs[i], i))
  }

  function InsertDesc(x: Ranked, s: seq<Ranked>): seq<Ranked> {
    if s == [] then [x]
    else if IsLowerPriority(s[0], x) then [x] + s
    else [s[0]] + InsertDesc(x, s[1..])
  }

  /** Array.prototype.sort with the comparator of line 671. */
  function SortDesc(s: seq<Ranked>): seq<Ranked> {
    if s == [] then [] else InsertDesc(s[0], SortDesc(s[1..]))
  }

  function Rows(s: seq<Ranked>): (txs: seq<Transaction>)
    ensures |txs| == |s|
  {
    seq(|s|, i requires 0 <= i < |s| => s[i].tx)
  }

  /** All rows, newest first, ties by original index. */
  function Ranking(txs: seq<Transaction>): seq<Ranked> {
    SortDesc(RankedRows(txs))
  }

  /** The k newest rows by full sort and slice: what the heap must agree with. */
  function Newest(txs: seq<Transaction>, k: int): seq<Transaction> {
    RankingSize(txs);
    if k <= 0 then [] else Rows(Ranking(txs)[..Min(k, |txs|)])
  }

  /** No later element outranks an earlier one. */
  ghost predicate Descending(s: seq<Ranked>) {
    forall i, j :: 0 <= i < j < |s| ==> !IsLowerPriority(s[i], s[j])
  }

  /** Every element is a row of txs tagged with that row's own index. */
  ghost predicate FromRows(s: seq<Ranked>, txs: seq<Transaction>) {
    forall e :: e in s ==> e.idx < |txs| && e.tx == txs[e.idx]
  }

  lemma {:induction false} InsertDescPermutes(x: Ranked, s: seq<Ranked>)
    ensures multiset(InsertDesc(x, s)) == multiset(s) + multiset{x}
  {
    if s != [] && !IsLowerPriority(s[0], x) {
      InsertDescPermutes(x, s[1..]);
      assert s == [s[0]] + s[1..];
    }
  }

  /** Putting an element nothing outranks in front keeps the order. */
  lemma DescendingCons(x: Ranked, s: seq<Ranked>)
    requires Descending(s) && forall j :: 0 <= j < |s| ==> !IsLowerPriority(x, s[j])
    ensures Descending([x] + s)
  {
  }

  lemma {:induction false} NothingOutranks(top: Ranked, x: Ranked, s: seq<Ranked>)
    requires !IsLowerPriority(top, x) && forall j :: 0 <= j < |s| ==> !IsLowerPriority(top, s[j])
    ensures forall j :: 0 <= j < |InsertDesc(x, s)| ==> !IsLowerPriority(top, InsertDesc(x, s)[j])
  {
    if s != [] && !IsLowerPriority(s[0], x) {
      NothingOutranks(top, x, s[1..]);
    }
  }

  lemma {:induction false} InsertDescCorrect(x: Ranked, s: seq<Ranked>)
    requires Descending(s)
    ensures Descending(InsertDesc(x, s)) && |InsertDesc(x, s)| == |s| + 1
    ensures multiset(InsertDesc(x, s)) == multiset(s) + multiset{x}
  {
    InsertDescPermutes(x, s);
    if s == [] {
    } else if IsLowerPriority(s[0], x) {
      DescendingCons(x, s);
    } else {
      InsertDescCorrect(x, s[1..]);
      NothingOutranks(s[0], x, s[1..]);
      DescendingCons(s[0], InsertDesc(x, s[1..]));
    }
  }

  lemma {:induction false} SortDescCorrect(s: seq<Ranked>)
    ensures Descending(SortDesc(s))
    ensures multiset(SortDesc(s)) == multiset(s)
    ensures |SortDesc(s)| == |s|
  {
    if s != [] {
      SortDescCorrect(s[1..]);
      InsertDescCorrect(s[0], SortDesc(s[1..]));
      assert s == [s[0]] + s[1..];
    }
  }

  lemma RankingSize(txs: seq<Transaction>)
    ensures |Ranking(txs)| == |txs|
  {
    SortDescCorrect(RankedRows(txs));
  }

  /** The ranking lists every row exactly once, newest first, ties by original index. */
  lemma RankingCorrect(txs: seq<Transaction>)
    ensures |Ranking(txs)| == |txs|
    ensures multiset(Ranking(txs)) == multiset(RankedRows(txs))
    ensures FromRows(Ranking(txs), txs)
    ensures forall i, j :: 0 <= i < j < |txs| ==>
      var a, b := Ranking(txs)[i], Ranking(txs)[j];
      a.tx.timestamp > b.tx.timestamp || (a.tx.timestamp == b.tx.timestamp && a.idx < b.idx)
  {
    var rows, order := RankedRows(txs), Ranking(txs);
    SortDescCorrect(rows);
    forall e | e in order
      ensures e in rows
    {
      assert e in multiset(order);
    }
    forall i, j | 0 <= i < j < |txs|
      ensures order[i].idx != order[j].idx
    {
      if order[i].idx == order[j].idx {
        var e := order[i];
        assert order[i] in rows && order[j] in rows;
        TwoPlaces(order, i, j);
        OnePlace(rows, e.idx);
      }
    }
  }

  lemma TwoPlaces(s: seq<Ranked>, i: nat, j: nat)
    requires i < j < |s| && s[i] == s[j]
    ensures multiset(s)[s[i]] >= 2
  {
    assert s == s[..j] + [s[j]] + s[j + 1..];
    assert s[i] in s[..j];
  }

  lemma OnePlace(rows: seq<Ranked>, i: nat)
    requires i < |rows| && forall p :: 0 <= p < |rows| ==> rows[p].idx == p
    ensures multiset(rows)[rows[i]] == 1
  {
    assert rows == rows[..i] + [rows[i]] + rows[i + 1..];
    assert rows[i] !in rows[..i] && rows[i] !in rows[i + 1..];
  }

  /** Two descending arrangements of the same tagged rows are the same sequence. */
  lemma DescendingUnique(a: seq<Ranked>, b: seq<Ranked>, txs: seq<Transaction>)
    requires Descending(a) && Descending(b) && multiset(a) == multiset(b) && FromRows(a, txs)
    ensures a == b
  {
    assert |multiset(a)| == |multiset(b)|;
    if a != [] {
      assert a[0] in multiset(b) && b[0] in multiset(a);
      assert a[0] == b[0];
      assert a == [a[0]] + a[1..] && b == [b[0]] + b[1..];
      assert multiset(a[1..]) == multiset(a) - multiset{a[0]};
      assert multiset(b[1..]) == multiset(b) - multiset{b[0]};
      DescendingUnique(a[1..], b[1..], txs);
    }
  }

  lemma DescendingConcat(k: seq<Ranked>, d: seq<Ranked>)
    requires Descending(k) && Descending(d)
    requires forall x, y :: x in multiset(k) && y in multiset(d) ==> !IsLowerPriority(x, y)
    ensures Descending(k + d)
  {
    forall i, j | 0 <= i < j < |k + d|
      ensures !IsLowerPriority((k + d)[i], (k + d)[j])
    {
      if i < |k| <= j {
        assert k[i] in multiset(k) && d[j - |k|] in multiset(d);
      }
    }
  }

  /** If no kept row is outranked by a dropped one, sorting the kept rows gives a prefix of sorting all. */
  lemma {:induction false} KeptIsPrefix(
    kept: seq<Ranked>, dropped: seq<Ranked>, all: seq<Ranked>, txs: seq<Transaction>)
    requires multiset(kept) + multiset(dropped) == multiset(all) && FromRows(all, txs)
    requires forall h, d :: h in kept && d in dropped ==> !IsLowerPriority(h, d)
    ensures |kept| <= |SortDesc(all)| && SortDesc(all)[..|kept|] == SortDesc(kept)
  {
    var k, d, s := SortDesc(kept), SortDesc(dropped), SortDesc(all);
    SortDescCorrect(kept);
    SortDescCorrect(dropped);
    SortDescCorrect(all);
    DescendingConcat(k, d);
    forall e | e in s
      ensures e in all
    {
      assert e in multiset(s);
    }
    DescendingUnique(s, k + d, txs);
  }

  // ------------------------------------------------------------------
  // The heap, changed in place
  // ------------------------------------------------------------------

  function Parent(i: int): int
    requires i > 0
  {
    (i - 1) / 2
  }

  ghost predicate IsHeap(h: seq<Ranked>) {
    forall i :: 0 < i < |h| ==> !IsLowerPriority(h[i], h[Parent(i)])
  }

  /** Heap order everywhere except between `hole` and its children; the hole's parent still dominates them. */
  ghost predicate HeapBelow(h: seq<Ranked>, hole: nat) {
    && (forall i :: 0 < i < |h| && Parent(i) != hole ==> !IsLowerPriority(h[i], h[Parent(i)]))
    && (forall i :: 0 < i < |h| && Parent(i) == hole && 0 < hole < |h| ==> !IsLowerPriority(h[i], h[Parent(hole)]))
  }

  /** Heap order everywhere except between `hole` and its parent; that parent still dominates the hole's children. */
  ghost predicate HeapAbove(h: seq<Ranked>, hole: nat) {
    && (forall i :: 0 < i < |h| && i != hole ==> !IsLowerPriority(h[i], h[Parent(i)]))
    && (forall i :: 0 < i < |h| && Parent(i) == hole && 0 < hole < |h| ==> !IsLowerPriority(h[i], h[Parent(hole)]))
  }

  /** In a heap the root is the lowest-priority row. */
  lemma RootIsLowest(h: seq<Ranked>, i: nat)
    requires IsHeap(h) && i < |h|
    ensures !IsLowerPriority(h[i], h[0])
  {
    if i > 0 {
      RootIsLowest(h, Parent(i));
    }
  }

  function Swapped(h: seq<Ranked>, i: nat, j: nat): (r: seq<Ranked>)
    requires i < |h| && j < |h|
    ensures |r| == |h| && multiset(r) == multiset(h)
  {
    h[i := h[j]][j := h[i]]
  }

  /** The child a downward step swaps with: below the hole's row, not above its sibling. */
  ghost predicate LowestChild(h: seq<Ranked>, hole: nat, child: nat) {
    && child < |h| && (child == 2 * hole + 1 || child == 2 * hole + 2)
    && !IsLowerPriority(h[hole], h[child])
    && (2 * hole + 1 < |h| ==> !IsLowerPriority(h[2 * hole + 1], h[child]))
    && (2 * hole + 2 < |h| ==> !IsLowerPriority(h[2 * hole + 2], h[child]))
  }

  lemma SwapDown(h: seq<Ranked>, hole: nat, child: nat)
    requires HeapBelow(h, hole) && LowestChild(h, hole, child)
    ensures HeapBelow(Swapped(h, hole, child), child)
  {
    var r := Swapped(h, hole, child);
    assert Parent(child) == hole;
    forall i | 0 < i < |r| && Parent(i) != child
      ensures !IsLowerPriority(r[i], r[Parent(i)])
    {
      if Parent(i) == hole {
        assert i == 2 * hole + 1 || i == 2 * hole + 2;
      } else if i == hole {
        assert !IsLowerPriority(h[child], h[Parent(hole)]);
      }
    }
    forall i | 0 < i < |r| && Parent(i) == child
      ensures !IsLowerPriority(r[i], r[Parent(child)])
    {
      assert i != hole;
    }
  }

  lemma NoLowerChild(h: seq<Ranked>, hole: nat)
    requires hole < |h| && HeapBelow(h, hole)
    requires 2 * hole + 1 < |h| ==> !IsLowerPriority(h[2 * hole + 1], h[hole])
    requires 2 * hole + 2 < |h| ==> !IsLowerPriority(h[2 * hole + 2], h[hole])
    ensures IsHeap(h)
  {
    forall i | 0 < i < |h|
      ensures !IsLowerPriority(h[i], h[Parent(i)])
    {
      if Parent(i) == hole {
        assert i == 2 * hole + 1 || i == 2 * hole + 2;
      }
    }
  }

  lemma SwapUp(h: seq<Ranked>, hole: nat)
    requires 0 < hole < |h| && HeapAbove(h, hole) && !IsLowerPriority(h[Parent(hole)], h[hole])
    ensures HeapAbove(Swapped(h, hole, Parent(hole)), Parent(hole))
  {
    var parent := Parent(hole);
    var r := Swapped(h, hole, parent);
    forall i | 0 < i < |r| && i != parent
      ensures !IsLowerPriority(r[i], r[Parent(i)])
    {
      if i != hole && Parent(i) == parent {
        assert !IsLowerPriority(h[i], h[parent]);
      } else if Parent(i) == hole {
        assert !IsLowerPriority(h[i], h[parent]);
      }
    }
    forall i | 0 < i < |r| && Parent(i) == parent && 0 < parent
      ensures !IsLowerPriority(r[i], r[Parent(parent)])
    {
      assert !IsLowerPriority(h[parent], h[Parent(parent)]);
    }
  }

  lemma HoleFits(h: seq<Ranked>, hole: nat)
    requires hole < |h| && HeapAbove(h, hole)
    requires hole == 0 || IsLowerPriority(h[Parent(hole)], h[hole])
    ensures IsHeap(h)
  {
  }

  /** What becomes of the heap when x comes: it grows, exchanges its root, or stays. */
  ghost predicate Offered(heap: seq<Ranked>, k: int, x: Ranked, after: seq<Ranked>) {
    && IsHeap(after)
    && if |heap| < k then |after| == |heap| + 1 && multiset(after) == multiset(heap) + multiset{x}
       else if heap != [] && IsLowerPriority(heap[0], x) then
         |after| == |heap| && multiset(after) == multiset(heap) - multiset{heap[0]} + multiset{x}
       else after == heap
  }

  class BoundedHeap {
    var heap: seq<Ranked>

    constructor ()
      ensures heap == []
    {
      heap := [];
    }

    method SiftDown(start: nat)
      requires start < |heap| && HeapBelow(heap, start)
      modifies this
      ensures IsHeap(heap) && multiset(heap) == multiset(old(heap)) && |heap| == |old(heap)|
    {
      var n := |heap|;
      var i := start;
      while true
        invariant i < |heap| == n && n == |old(heap)| && HeapBelow(heap, i)
        invariant multiset(heap) == multiset(old(heap))
        decreases n - i
      {
        var left, right := 2 * i + 1, 2 * i + 2;
        var smallest := i;
        if left < n && IsLowerPriority(heap[left], heap[smallest]) {
          smallest := left;
        }
        if right < n && IsLowerPriority(heap[right], heap[smallest]) {
          smallest := right;
        }
        if smallest == i {
          NoLowerChild(heap, i);
          return;
        }
        SwapDown(heap, i, smallest);
        heap := Swapped(heap, i, smallest);
        i := smallest;
      }
    }

    /** heap.push followed by the upward loop of lines 655-663. */
    method Push(candidate: Ranked)
      requires IsHeap(heap)
      modifies this
      ensures IsHeap(heap) && multiset(heap) == multiset(old(heap)) + multiset{candidate}
      ensures |heap| == |old(heap)| + 1
    {
      heap := heap + [candidate];
      var i := |heap| - 1;
      while i > 0
        invariant 0 <= i < |heap| == |old(heap)| + 1 && HeapAbove(heap, i)
        invariant multiset(heap) == multiset(old(heap)) + multiset{candidate}
      {
        var parent := Parent(i);
        if IsLowerPriority(heap[parent], heap[i]) {
          break;
        }
        SwapUp(heap, i);
        heap := Swapped(heap, i, parent);
        i := parent;
      }
      HoleFits(heap, i);
    }

    /** heap[0] = candidate; siftDown(heap, 0). */
    method ReplaceRoot(candidate: Ranked)
      requires heap != [] && IsHeap(heap)
      modifies this
      ensures IsHeap(heap) && |heap| == |old(heap)|
      ensures multiset(heap) == multiset(old(heap)) - multiset{old(heap)[0]} + multiset{candidate}
    {
      heap := heap[0 := candidate];
      SiftDown(0);
    }

    /** One turn of the scan: grow, exchange the root, or leave the heap. */
    method Offer(candidate: Ranked, k: int)
      requires IsHeap(heap) && k > 0
      modifies this
      ensures Offered(old(heap), k, candidate, heap)
    {
      if |heap| < k {
        Push(candidate);
      } else if IsLowerPriority(heap[0], candidate) {
        ReplaceRoot(candidate);
      }
    }
  }

  /** The heap holds the best min(k, |seen|) of the rows seen; the rest were dropped and outrank none of it. */
  ghost predicate HoldsBest(heap: seq<Ranked>, dropped: seq<Ranked>, seen: seq<Ranked>, k: int) {
    && IsHeap(heap) && |heap| == Min(k, |seen|)
    && multiset(heap) + multiset(dropped) == multiset(seen)
    && forall e, d :: e in heap && d in dropped ==> !IsLowerPriority(e, d)
  }

  lemma PushKeepsBest(
    heap: seq<Ranked>, dropped: seq<Ranked>, seen: seq<Ranked>, k: int, x: Ranked, after: seq<Ranked>)
    requires HoldsBest(heap, dropped, seen, k) && |heap| < k
    requires IsHeap(after) && multiset(after) == multiset(heap) + multiset{x} && |after| == |heap| + 1
    ensures HoldsBest(after, dropped, seen + [x], k)
  {
    assert |multiset(heap) + multiset(dropped)| == |seen|;
    assert dropped == [];
  }

  lemma ReplaceKeepsBest(
    heap: seq<Ranked>, dropped: seq<Ranked>, seen: seq<Ranked>, k: int, x: Ranked, after: seq<Ranked>)
    requires HoldsBest(heap, dropped, seen, k) && |heap| == k > 0 && IsLowerPriority(heap[0], x)
    requires IsHeap(after) && |after| == |heap|
    requires multiset(after) == multiset(heap) - multiset{heap[0]} + multiset{x}
    ensures HoldsBest(after, dropped + [heap[0]], seen + [x], k)
  {
    LowestOfAll(heap);
    assert heap[0] in heap && heap[0] in multiset(heap);
    forall e, d | e in after && d in dropped + [heap[0]]
      ensures !IsLowerPriority(e, d)
    {
      assert e in multiset(after);
      assert e == x || e in multiset(heap);
    }
  }

  lemma SkipKeepsBest(heap: seq<Ranked>, dropped: seq<Ranked>, seen: seq<Ranked>, k: int, x: Ranked)
    requires HoldsBest(heap, dropped, seen, k) && |heap| == k > 0 && !IsLowerPriority(heap[0], x)
    ensures HoldsBest(heap, dropped + [x], seen + [x], k)
  {
    LowestOfAll(heap);
  }

  /** What has been dropped once x has come. */
  function Dropped(heap: seq<Ranked>, k: int, x: Ranked, dropped: seq<Ranked>): seq<Ranked> {
    if |heap| < k then dropped
    else if heap != [] && IsLowerPriority(heap[0], x) then dropped + [heap[0]]
    else dropped + [x]
  }

  /** Whichever of the three it is, the heap still holds the best rows. */
  lemma KeepsBest(
    heap: seq<Ranked>, dropped: seq<Ranked>, seen: seq<Ranked>, k: int, x: Ranked, after: seq<Ranked>)
    requires HoldsBest(heap, dropped, seen, k) && k > 0 && Offered(heap, k, x, after)
    ensures HoldsBest(after, Dropped(heap, k, x, dropped), seen + [x], k)
  {
    if |heap| < k {
      PushKeepsBest(heap, dropped, seen, k, x, after);
    } else if IsLowerPriority(heap[0], x) {
      ReplaceKeepsBest(heap, dropped, seen, k, x, after);
    } else {
      SkipKeepsBest(heap, dropped, seen, k, x);
    }
  }

  /** The rows ranked so far: one more each turn. */
  lemma RankedNext(txs: seq<Transaction>, idx: nat)
    requires idx < |txs|
    ensures RankedRows(txs)[..idx + 1] == RankedRows(txs)[..idx] + [Ranked(txs[idx], idx)]
  {
  }

  /** What is returned once every row has been offered. */
  lemma {:induction false} BestIsNewest(heap: seq<Ranked>, dropped: seq<Ranked>, txs: seq<Transaction>, k: int)
    requires HoldsBest(heap, dropped, RankedRows(txs), k) && k > 0
    ensures Rows(SortDesc(heap)) == Newest(txs, k)
  {
    KeptIsPrefix(heap, dropped, RankedRows(txs), txs);
    SortDescCorrect(heap);
  }

  /**
   * Returns the k newest rows. The invariant is the heap's purpose: after
   * every row it holds the best min(k, rows seen) of them.
   */
  method TopKByTimestampDesc(txs: seq<Transaction>, k: int) returns (top: seq<Transaction>)
    ensures top == Newest(txs, k)
  {
    if k <= 0 || |txs| == 0 {
      return [];
    }
    var h := new BoundedHeap();
    ghost var dropped: seq<Ranked> := [];
    for idx := 0 to |txs|
      invariant fresh(h) && HoldsBest(h.heap, dropped, RankedRows(txs)[..idx], k)
    {
      var candidate := Ranked(txs[idx], idx);
      RankedNext(txs, idx);
      ghost var before := h.heap;
      h.Offer(candidate, k);
      KeepsBest(before, dropped, RankedRows(txs)[..idx], k, candidate, h.heap);
      dropped := Dropped(before, k, candidate, dropped);
    }
    assert RankedRows(txs)[..|txs|] == RankedRows(txs);
    BestIsNewest(h.heap, dropped, txs, k);
    top := Rows(SortDesc(h.heap));
  }

  lemma LowestOfAll(h: seq<Ranked>)
    requires IsHeap(h)
    ensures forall e :: e in h ==> !IsLowerPriority(e, h[0])
  {
    forall i | 0 <= i < |h|
      ensures !IsLowerPriority(h[i], h[0])
    {
      RootIsLowest(h, i);
    }
  }
}
