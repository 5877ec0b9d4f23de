/**
 * Filtering with the identity-keyed memo, and paging
 * (src/dashboard/transaction-history.ts, 423-430 and 542-704).
 */
module HistorySelectors {
  import opened Common
  import opened HistoryRanking
  import opened Text

  datatype Choice<T> = All | Only(value: T)

  datatype Filters = Filters(status: Choice<Status>, kind: Choice<Kind>, direction: Choice<Direction>, search: string)

  /** String.prototype.trim and toLowerCase, kept as given functions. */
  datatype TextOps = TextOps(trim: string -> string, lower: string -> string)

  /** A page number as it arrives: possibly NaN or infinite, possibly fractional. */
  datatype PageInput = NotFinite | Finite(value: real)

  /** A rows array: compared by identity, its contents never change. */
  class RowArray {
    const rows: seq<Transaction>

    constructor (rows: seq<Transaction>)
      ensures this.rows == rows
    {
      this.rows := rows;
    }
  }

  datatype HistoryState = HistoryState(
    transactions: RowArray, filters: Filters, page: PageInput, pageSize: Option<real>)

  datatype SelectorEntry = SelectorEntry(signature: string, filtered: seq<Transaction>)

  const DEFAULT_PAGE_SIZE := 10.0

  const INITIAL_FILTERS := Filters(All, All, All, "")

  // ------------------------------------------------------------------
  // The filter
  // ------------------------------------------------------------------

  function StatusText(c: Choice<Status>): string {
    if c.All? then "ALL" else StatusName(c.value)
  }

  function KindText(c: Choice<Kind>): string {
    if c.All? then "ALL" else KindName(c.value)
  }

  function DirectionText(c: Choice<Direction>): string {
    if c.All? then "ALL" else DirectionName(c.value)
  }

  function Needle(ops: TextOps, f: Filters): string {
    ops.lower(ops.trim(f.search))
  }

  function Signature(ops: TextOps, f: Filters): string {
    StatusText(f.status) + " " + (KindText(f.kind) + " " + (DirectionText(f.direction) + " " + Needle(ops, f)))
  }

  /** String.prototype.includes. */
  predicate Includes(text: string, needle: string) {
    needle <= text || (text != "" && Includes(text[1..], needle))
  }

  predicate Allows<T(==)>(c: Choice<T>, value: T) {
    c == All || c == Only(value)
  }

  predicate Matches(ops: TextOps, tx: Transaction, f: Filters) {
    && Allows(f.status, tx.status) && Allows(f.kind, tx.kind) && Allows(f.direction, tx.direction)
    && (|| Needle(ops, f) == ""
        || Includes(ops.lower(tx.hash), Needle(ops, f)) || Includes(ops.lower(tx.streamId), Needle(ops, f))
        || Includes(ops.lower(tx.counterparty), Needle(ops, f)) || Includes(ops.lower(tx.asset), Needle(ops, f)))
  }

  function Filtered(ops: TextOps, rows: seq<Transaction>, f: Filters): seq<Transaction> {
    if rows == [] then []
    else
      var rest := Filtered(ops, rows[..|rows| - 1], f);
      if Matches(ops, rows[|rows| - 1], f) then rest + [rows[|rows| - 1]] else rest
  }

  predicate HoldsAt(text: string, needle: string, i: nat) {
    i + |needle| <= |text| && text[i..i + |needle|] == needle
  }

  /** The text holds the needle somewhere. */
  ghost predicate Contains(text: string, needle: string) {
    exists i :: HoldsAt(text, needle, i)
  }

  /** A needle not at the front is in the text where it is in the rest, one place on. */
  lemma HeldInRest(text: string, needle: string)
    requires text != [] && !(needle <= text)
    ensures Contains(text, needle) <==> Contains(text[1..], needle)
  {
    var rest := text[1..];
    if Contains(rest, needle) {
      var i: nat :| HoldsAt(rest, needle, i);
      assert rest[i..i + |needle|] == text[i + 1..i + 1 + |needle|];
      assert HoldsAt(text, needle, i + 1);
    }
    if Contains(text, needle) {
      var i: nat :| HoldsAt(text, needle, i);
      assert i > 0;
      assert rest[i - 1..i - 1 + |needle|] == text[i..i + |needle|];
      assert HoldsAt(rest, needle, i - 1);
    }
  }

  lemma {:induction false} IncludesIsContains(text: string, needle: string)
    ensures Includes(text, needle) <==> Contains(text, needle)
  {
    if needle <= text {
      assert HoldsAt(text, needle, 0);
    } else if text != [] {
      IncludesIsContains(text[1..], needle);
      HeldInRest(text, needle);
    }
  }

  /** A row is shown if it has the chosen status, kind and direction and one of its four texts holds the search text. */
  ghost predicate Shown(ops: TextOps, tx: Transaction, f: Filters) {
    var needle := ops.lower(ops.trim(f.search));
    && (f.status.Only? ==> tx.status == f.status.value)
    && (f.kind.Only? ==> tx.kind == f.kind.value)
    && (f.direction.Only? ==> tx.direction == f.direction.value)
    && (|| Contains(ops.lower(tx.hash), needle) || Contains(ops.lower(tx.streamId), needle)
        || Contains(ops.lower(tx.counterparty), needle) || Contains(ops.lower(tx.asset), needle))
  }

  lemma MatchesExactly(ops: TextOps, tx: Transaction, f: Filters)
    ensures Matches(ops, tx, f) <==> Shown(ops, tx, f)
  {
    var needle := ops.lower(ops.trim(f.search));
    IncludesIsContains(ops.lower(tx.hash), needle);
    IncludesIsContains(ops.lower(tx.streamId), needle);
    IncludesIsContains(ops.lower(tx.counterparty), needle);
    IncludesIsContains(ops.lower(tx.asset), needle);
    if needle == "" {
      assert HoldsAt(ops.lower(tx.hash), needle, 0);
    }
  }

  /** The filter keeps exactly the rows to be shown, each where it stands, in order. */
  lemma FilteredExactly(ops: TextOps, rows: seq<Transaction>, f: Filters) returns (at: seq<nat>)
    ensures |at| == |Filtered(ops, rows, f)|
    ensures forall k :: 0 <= k < |at| ==> at[k] < |rows| && Filtered(ops, rows, f)[k] == rows[at[k]]
    ensures forall j, k :: 0 <= j < k < |at| ==> at[j] < at[k]
    ensures forall i: nat :: i < |rows| ==> (i in at <==> Shown(ops, rows[i], f))
  {
    if rows == [] {
      at := [];
    } else {
      var n := |rows| - 1;
      at := FilteredExactly(ops, rows[..n], f);
      MatchesExactly(ops, rows[n], f);
      if Shown(ops, rows[n], f) {
        at := at + [n];
      }
    }
  }

  /** The signature loses nothing the filter looks at. */
  lemma SignatureDetermines(ops: TextOps, f: Filters, g: Filters)
    requires Signature(ops, f) == Signature(ops, g)
    ensures f.status == g.status && f.kind == g.kind && f.direction == g.direction
    ensures Needle(ops, f) == Needle(ops, g)
  {
    var f2, g2 := DirectionText(f.direction) + " " + Needle(ops, f), DirectionText(g.direction) + " " + Needle(ops, g);
    var f1, g1 := KindText(f.kind) + " " + f2, KindText(g.kind) + " " + g2;
    SplitAtFirst(' ', StatusText(f.status), f1, StatusText(g.status), g1);
    SplitAtFirst(' ', KindText(f.kind), f2, KindText(g.kind), g2);
    SplitAtFirst(' ', DirectionText(f.direction), Needle(ops, f), DirectionText(g.direction), Needle(ops, g));
  }

  /** Hence equal signatures select the same rows, whatever the rows. */
  lemma {:induction false} SameSignatureSameRows(ops: TextOps, rows: seq<Transaction>, f: Filters, g: Filters)
    requires Signature(ops, f) == Signature(ops, g)
    ensures Filtered(ops, rows, f) == Filtered(ops, rows, g)
  {
    if rows != [] {
      SameSignatureSameRows(ops, rows[..|rows| - 1], f, g);
      SignatureDetermines(ops, f, g);
    }
  }

  // ------------------------------------------------------------------
  // Paging
  // ------------------------------------------------------------------

  function PageSizeOf(pageSize: Option<real>): (size: int)
    ensures size >= 1
  {
    Max(1, Trunc(if pageSize.Some? then pageSize.value else DEFAULT_PAGE_SIZE))
  }

  function TotalPages(n: nat, size: int): (total: int)
    requires size >= 1
    ensures total >= 1
  {
    Max(1, (n + size - 1) / size)
  }

  function ClampPage(page: PageInput, totalPages: int): (p: int)
    ensures totalPages >= 1 ==> 0 <= p < totalPages
  {
    if page.NotFinite? then 0
    else
      var floored := Trunc(page.value);
      if floored < 0 then 0
      else
        var maxPage := Max(0, totalPages - 1);
        if floored > maxPage then maxPage else floored
  }

  /** The first page for what is no number, else the existing page nearest to the whole part of the number. */
  lemma NearestPage(page: PageInput, totalPages: int, whole: int, q: int)
    requires 0 <= q < totalPages
    requires page.Finite? ==>
               if page.value >= 0.0 then whole as real <= page.value < whole as real + 1.0
               else whole as real - 1.0 < page.value <= whole as real
    ensures page.NotFinite? ==> ClampPage(page, totalPages) == 0
    ensures page.Finite? ==>
              var p := ClampPage(page, totalPages);
              Max(p - whole, whole - p) <= Max(q - whole, whole - q)
  {
    if page.Finite? {
      assert Trunc(page.value) == whole;
    }
  }

  /** Ten rows a page unless asked otherwise; never less than one. */
  lemma PageSizes(n: int)
    ensures PageSizeOf(None) == 10 && PageSizeOf(Some(n as real)) == Max(1, n)
  {
  }

  /** Page p cut from the full ranking: the reference for the heap-based selector. */
  function PageRows(filtered: seq<Transaction>, p: nat, size: nat): seq<Transaction> {
    Slice(Rows(Ranking(filtered)), p * size, p * size + size)
  }

  /** Taking k = start + size newest first and slicing afterwards cuts the same page. */
  lemma NewestThenSlice(filtered: seq<Transaction>, p: nat, size: nat)
    requires size >= 1
    ensures Slice(Newest(filtered, p * size + size), p * size, p * size + size) == PageRows(filtered, p, size)
  {
    RankingSize(filtered);
    var k := Min(p * size + size, |filtered|);
    assert Newest(filtered, p * size + size) == Rows(Ranking(filtered))[..k];
  }

  /** Pages 0 to count - 1 in order. */
  function Pages(filtered: seq<Transaction>, size: nat, count: nat): seq<Transaction> {
    if count == 0 then [] else Pages(filtered, size, count - 1) + PageRows(filtered, count - 1, size)
  }

  lemma {:induction false} PagesArePrefix(filtered: seq<Transaction>, size: nat, count: nat)
    ensures |Ranking(filtered)| == |filtered|
    ensures Pages(filtered, size, count) == Rows(Ranking(filtered))[..Min(count * size, |filtered|)]
  {
    RankingSize(filtered);
    if count > 0 {
      PagesArePrefix(filtered, size, count - 1);
      Next(count, size);
      SliceOn(Rows(Ranking(filtered)), (count - 1) * size, size);
    }
  }

  lemma SliceOn<T>(all: seq<T>, start: nat, size: nat)
    ensures all[..Min(start, |all|)] + Slice(all, start, start + size) == all[..Min(start + size, |all|)]
  {
  }

  lemma RowsCons(x: Ranked, s: seq<Ranked>)
    ensures Rows([x] + s) == [x.tx] + Rows(s)
  {
  }

  lemma {:induction false} RowsOfInsert(x: Ranked, s: seq<Ranked>)
    ensures multiset(Rows(InsertDesc(x, s))) == multiset(Rows(s)) + multiset{x.tx}
  {
    if s == [] || IsLowerPriority(s[0], x) {
      RowsCons(x, s);
      assert [x] + [] == [x];
    } else {
      RowsOfInsert(x, s[1..]);
      RowsCons(s[0], InsertDesc(x, s[1..]));
      RowsCons(s[0], s[1..]);
      assert s == [s[0]] + s[1..];
    }
  }

  lemma {:induction false} RowsOfSort(s: seq<Ranked>)
    ensures multiset(Rows(SortDesc(s))) == multiset(Rows(s))
  {
    if s != [] {
      RowsOfSort(s[1..]);
      RowsOfInsert(s[0], SortDesc(s[1..]));
      RowsCons(s[0], s[1..]);
      assert s == [s[0]] + s[1..];
    }
  }

  lemma RankingRows(txs: seq<Transaction>)
    ensures |Ranking(txs)| == |txs|
    ensures multiset(Rows(Ranking(txs))) == multiset(txs)
  {
    SortDescCorrect(RankedRows(txs));
    RowsOfSort(RankedRows(txs));
    assert Rows(RankedRows(txs)) == txs;
  }

  lemma Ceiling(x: nat, size: nat)
    requires size >= 1
    ensures (x / size) * size <= x < (x / size) * size + size
  {
    assert x == size * (x / size) + x % size;
  }

  lemma Next(p: int, size: int)
    ensures (p + 1) * size == p * size + size && (p - 1) * size == p * size - size
  {
  }

  /** Page arithmetic: all pages together reach every row, and only the last may be short. */
  lemma PageCount(n: nat, size: nat)
    requires size >= 1
    ensures TotalPages(n, size) * size >= n
    ensures n > 0 ==> (TotalPages(n, size) - 1) * size < n
    ensures forall p :: 0 <= p < TotalPages(n, size) - 1 ==> p * size + size <= n
  {
    var q := (n + size - 1) / size;
    Ceiling(n + size - 1, size);
    Next(q, size);
    forall p | 0 <= p < q - 1
      ensures p * size + size <= n
    {
      MulMonotone(p + 1, q - 1, size);
      Next(p, size);
    }
  }

  lemma PageWidth(filtered: seq<Transaction>, p: nat, size: nat)
    requires p * size <= |filtered|
    ensures |PageRows(filtered, p, size)| == Min(size, |filtered| - p * size)
  {
    RankingSize(filtered);
  }

  lemma MulMonotone(a: int, b: int, c: nat)
    requires a <= b
    ensures a * c <= b * c
  {
  }

  /**
   * Paging through all pages shows the whole filtered list in ranking order,
   * every row as often as it occurs, even when timestamps coincide.
   */
  lemma {:induction false} PagesPartition(filtered: seq<Transaction>, size: nat)
    requires size >= 1
    ensures Pages(filtered, size, TotalPages(|filtered|, size)) == Rows(Ranking(filtered))
    ensures multiset(Pages(filtered, size, TotalPages(|filtered|, size))) == multiset(filtered)
  {
    var n, total := |filtered|, TotalPages(|filtered|, size);
    PageCount(n, size);
    PagesArePrefix(filtered, size, total);
    assert Rows(Ranking(filtered))[..n] == Rows(Ranking(filtered));
    RankingRows(filtered);
  }

  /** Every page but the last is full, and the last is empty only when nothing passes the filter. */
  lemma PagesFull(filtered: seq<Transaction>, size: nat, p: nat)
    requires size >= 1 && p < TotalPages(|filtered|, size)
    ensures p < TotalPages(|filtered|, size) - 1 ==> |PageRows(filtered, p, size)| == size
    ensures filtered != [] ==> PageRows(filtered, p, size) != []
  {
    PageCount(|filtered|, size);
    MulMonotone(p, TotalPages(|filtered|, size) - 1, size);
    PageWidth(filtered, p, size);
  }

  // ------------------------------------------------------------------
  // The memo
  // ------------------------------------------------------------------

  class SelectorCache {
    const ops: TextOps
    const noTransactions: RowArray
    var cache: map<RowArray, SelectorEntry>

    /** Every stored projection is right for every filter that has its signature. */
    ghost predicate Valid()
      reads this
    {
      && noTransactions.rows == []
      && forall r, f :: r in cache && Signature(ops, f) == cache[r].signature ==>
           cache[r].filtered == Filtered(ops, r.rows, f)
    }

    constructor (ops: TextOps)
      ensures Valid() && fresh(this) && this.ops == ops && cache == map[]
    {
      this.ops := ops;
      cache := map[];
      noTransactions := new RowArray([]);
    }

    function RowsOf(state: Option<HistoryState>): RowArray {
      if state.Some? then state.value.transactions else noTransactions
    }

    function FiltersOf(state: Option<HistoryState>): Filters {
      if state.Some? then state.value.filters else INITIAL_FILTERS
    }

    /** What a fresh filter of the state's rows would give. */
    function Fresh(state: Option<HistoryState>): seq<Transaction> {
      Filtered(ops, RowsOf(state).rows, FiltersOf(state))
    }

    /** The memoised filter: always a fresh filter's result; other rows arrays keep their entries. */
    method Entry(state: Option<HistoryState>) returns (entry: SelectorEntry)
      requires Valid()
      modifies this
      ensures Valid()
      ensures entry.filtered == Fresh(state) && entry.signature == Signature(ops, FiltersOf(state))
      ensures cache == old(cache)[RowsOf(state) := entry]
    {
      var transactions, filters := RowsOf(state), FiltersOf(state);
      var signature := Signature(ops, filters);
      if transactions in cache && cache[transactions].signature == signature {
        return cache[transactions];
      }
      var filtered: seq<Transaction> := [];
      for i := 0 to |transactions.rows|
        invariant filtered == Filtered(ops, transactions.rows[..i], filters)
      {
        assert transactions.rows[..i + 1][..i] == transactions.rows[..i];
        if Matches(ops, transactions.rows[i], filters) {
          filtered := filtered + [transactions.rows[i]];
        }
      }
      assert transactions.rows[..|transactions.rows|] == transactions.rows;
      entry := SelectorEntry(signature, filtered);
      forall f | Signature(ops, f) == signature
        ensures filtered == Filtered(ops, transactions.rows, f)
      {
        SameSignatureSameRows(ops, transactions.rows, f, filters);
      }
      cache := cache[transactions := entry];
    }

    /** A rows array that is no longer referenced may lose its entry at any time. */
    method Collect(r: RowArray)
      requires Valid()
      modifies this
      ensures Valid() && cache == old(cache) - {r}
    {
      cache := cache - {r};
    }

    /** The page the view shows is cut from the full ranking of a fresh filter. */
    method VisibleTransactions(state: Option<HistoryState>) returns (visible: seq<Transaction>)
      requires Valid()
      modifies this
      ensures Valid()
      ensures var size := PageSizeOf(if state.Some? then state.value.pageSize else None);
              var wanted := if state.Some? then state.value.page else Finite(0.0);
              var page := ClampPage(wanted, TotalPages(|Fresh(state)|, size));
              visible == PageRows(Fresh(state), page, size)
    {
      var entry := Entry(state);
      var filtered := entry.filtered;
      var pageSize := PageSizeOf(if state.Some? then state.value.pageSize else None);
      var totalPages := TotalPages(|filtered|, pageSize);
      var page := ClampPage(if state.Some? then state.value.page else Finite(0.0), totalPages);
      var start := page * pageSize;
      var k := start + pageSize;
      var top := TopKByTimestampDesc(filtered, k);
      NewestThenSlice(filtered, page, pageSize);
      visible := Slice(top, start, start + pageSize);
    }

    method SelectTotalPages(state: Option<HistoryState>) returns (total: int)
      requires Valid()
      modifies this
      ensures Valid()
      ensures total == TotalPages(|Fresh(state)|, PageSizeOf(if state.Some? then state.value.pageSize else None))
    {
      var entry := Entry(state);
      total := TotalPages(|entry.filtered|, PageSizeOf(if state.Some? then state.value.pageSize else None));
    }

    /**
     * Reading every page through the selector, at any page size, and joining
     * what it shows reproduces the ranking of the filtered rows.
     */
    method ReadAllPages(transactions: RowArray, filters: Filters, pageSize: Option<real>)
      returns (shown: seq<Transaction>)
      requires Valid()
      modifies this
      ensures Valid()
      ensures shown == Rows(Ranking(Filtered(ops, transactions.rows, filters)))
    {
      var total := SelectTotalPages(Some(HistoryState(transactions, filters, Finite(0.0), pageSize)));
      ghost var filtered := Filtered(ops, transactions.rows, filters);
      shown := [];
      for p := 0 to total
        invariant Valid() && shown == Pages(filtered, PageSizeOf(pageSize), p)
      {
        var visible := VisibleTransactions(Some(HistoryState(transactions, filters, Finite(p as real), pageSize)));
        shown := shown + visible;
      }
      PagesPartition(filtered, PageSizeOf(pageSize));
    }
  }
}
