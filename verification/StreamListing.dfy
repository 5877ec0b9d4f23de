/**
 * Listing streams by sender and recipient at once: two index prefixes merged,
 * then paged (src/streams.ts, 1520-1612; src/constants.ts, 160-172).
 */
module StreamListing {
  import opened Common

  const MAX_LIST_LIMIT := 100

  const DEFAULT_LIST_LIMIT := 20

  function ClampListLimit(limit: int): (r: int)
    ensures 1 <= r <= MAX_LIST_LIMIT
  {
    if limit <= 0 then DEFAULT_LIST_LIMIT else Min(limit, MAX_LIST_LIMIT)
  }

  /** A limit from 1 to 100 is kept, a larger one cut to 100, anything else replaced by 20. */
  lemma LimitsKept(limit: int)
    ensures 1 <= limit <= 100 ==> ClampListLimit(limit) == limit
    ensures limit > 100 ==> ClampListLimit(limit) == 100
    ensures limit < 1 ==> ClampListLimit(limit) == 20
  {
  }

  /** The first w entries of an index, as the contract returns them. */
  function Prefix<T>(s: seq<T>, w: nat): seq<T> {
    s[..Min(w, |s|)]
  }

  /** [...new Set(s)]: first occurrences, in order. */
  function Dedupe(s: seq<nat>): seq<nat> {
    if s == [] then []
    else
      var before := Dedupe(s[..|s| - 1]);
      if s[|s| - 1] in before then before else before + [s[|s| - 1]]
  }

  function Insert(x: nat, s: seq<nat>): seq<nat> {
    if s == [] || x <= s[0] then [x] + s else [s[0]] + Insert(x, s[1..])
  }

  function Sort(s: seq<nat>): seq<nat> {
    if s == [] then [] else Insert(s[|s| - 1], Sort(s[..|s| - 1]))
  }

  /** The merged list: union without duplicates, ascending. */
  function Merge(a: seq<nat>, b: seq<nat>): seq<nat> {
    Sort(Dedupe(a + b))
  }

  datatype Page = Page(ids: seq<nat>, hasNextPage: bool, nextOffset: Option<nat>)

  /** list() with both filters given, on the two full indexes. */
  function ListBoth(bySender: seq<nat>, byRecipient: seq<nat>, offset: nat, requested: int): Page {
    var limit := ClampListLimit(requested);
    var window := ClampListLimit(offset + limit + 1);
    var merged := Merge(Prefix(bySender, window), Prefix(byRecipient, window));
    var hasNextPage := |merged| > offset + limit;
    Page(Slice(merged, offset, offset + limit), hasNextPage, if hasNextPage then Some(offset + limit) else None)
  }

  /** The page a reader of the whole union would cut. */
  function TruePage(bySender: seq<nat>, byRecipient: seq<nat>, offset: nat, requested: int): Page {
    var limit := ClampListLimit(requested);
    PageOf(Merge(bySender, byRecipient), offset, limit)
  }

  ghost predicate Ascending(s: seq<nat>) {
    forall i, j :: 0 <= i < j < |s| ==> s[i] < s[j]
  }

  ghost predicate Distinct(s: seq<nat>) {
    forall i, j :: 0 <= i < j < |s| ==> s[i] != s[j]
  }

  lemma {:induction false} DedupeCorrect(s: seq<nat>)
    ensures Distinct(Dedupe(s))
    ensures forall x :: x in Dedupe(s) <==> x in s
  {
    if s != [] {
      DedupeCorrect(s[..|s| - 1]);
      assert s == s[..|s| - 1] + [s[|s| - 1]];
    }
  }

  lemma {:induction false} InsertCorrect(x: nat, s: seq<nat>)
    requires Ascending(s) && x !in s
    ensures Ascending(Insert(x, s))
    ensures forall y :: y in Insert(x, s) <==> y == x || y in s
  {
    if s != [] && x > s[0] {
      InsertCorrect(x, s[1..]);
      assert s == [s[0]] + s[1..];
      var tail := Insert(x, s[1..]);
      forall j | 0 <= j < |tail|
        ensures s[0] < tail[j]
      {
        assert tail[j] in tail;
      }
    }
  }

  lemma {:induction false} SortCorrect(s: seq<nat>)
    requires Distinct(s)
    ensures Ascending(Sort(s))
    ensures forall x :: x in Sort(s) <==> x in s
  {
    if s != [] {
      SortCorrect(s[..|s| - 1]);
      InsertCorrect(s[|s| - 1], Sort(s[..|s| - 1]));
      assert s == s[..|s| - 1] + [s[|s| - 1]];
    }
  }

  /** The merged list is the ascending enumeration of the union. */
  lemma MergeIsUnion(a: seq<nat>, b: seq<nat>)
    ensures Ascending(Merge(a, b))
    ensures forall x :: x in Merge(a, b) <==> x in a || x in b
  {
    DedupeCorrect(a + b);
    SortCorrect(Dedupe(a + b));
  }

  /** In an ascending list the entry at position p has p smaller entries before it, also inside the union. */
  lemma PositionInUnion(index: seq<nat>, union: seq<nat>, p: nat, i: nat)
    requires Ascending(index) && Ascending(union) && p < |index| && i < |union| && index[p] == union[i]
    requires forall x :: x in index ==> x in union
    ensures p <= i
  {
    if p > 0 {
      assert index[p - 1] in index;
      var k :| 0 <= k < |union| && union[k] == index[p - 1];
      assert index[p - 1] < index[p];
      assert k < i;
      PositionInUnion(index, union, p - 1, k);
    }
  }

  /** An ascending part of an ascending list that contains its first n elements starts with them. */
  lemma SharedStart(whole: seq<nat>, part: seq<nat>, n: nat)
    requires Ascending(whole) && Ascending(part) && n <= |whole|
    requires forall x :: x in part ==> x in whole
    requires forall i :: 0 <= i < n ==> whole[i] in part
    ensures n <= |part| && part[..n] == whole[..n]
  {
    forall i | 0 <= i < n
      ensures i < |part| && part[i] == whole[i]
    {
      assert whole[i] in part;
      var p :| 0 <= p < |part| && part[p] == whole[i];
      PositionInUnion(part, whole, p, i);
      PositionInUnion(whole[..n], part, i, p);
    }
    if n > 0 {
      assert n - 1 < |part| && part[n - 1] == whole[n - 1];
    }
  }

  /** The first w entries of the union are found in the first w entries of the two indexes. */
  lemma PrefixesSuffice(a: seq<nat>, b: seq<nat>, w: nat)
    requires Ascending(a) && Ascending(b)
    ensures var union, merged := Merge(a, b), Merge(Prefix(a, w), Prefix(b, w));
            Prefix(merged, w) == Prefix(union, w) && |merged| <= |union|
            && (|union| >= w ==> |merged| >= w)
  {
    var union, merged := Merge(a, b), Merge(Prefix(a, w), Prefix(b, w));
    MergeIsUnion(a, b);
    MergeIsUnion(Prefix(a, w), Prefix(b, w));
    var n := Min(w, |union|);
    forall i | 0 <= i < n
      ensures union[i] in merged
    {
      assert union[i] in union;
      if union[i] in a {
        var p :| 0 <= p < |a| && a[p] == union[i];
        PositionInUnion(a, union, p, i);
        assert Prefix(a, w)[p] == union[i];
      } else {
        var p :| 0 <= p < |b| && b[p] == union[i];
        PositionInUnion(b, union, p, i);
        assert Prefix(b, w)[p] == union[i];
      }
    }
    SharedStart(union, merged, n);
    PartIsShorter(merged, union);
    if |union| < w {
      PartIsShorter(union, merged);
    }
  }

  lemma PartIsShorter(part: seq<nat>, whole: seq<nat>)
    requires Ascending(part) && Ascending(whole) && forall x :: x in part ==> x in whole
    ensures |part| <= |whole|
  {
    if part != [] {
      var n := |part| - 1;
      assert part[n] in whole;
      var i :| 0 <= i < |whole| && whole[i] == part[n];
      PositionInUnion(part, whole, n, i);
    }
  }

  /** Within the window, the page and the next-page flag are those of the whole union. */
  lemma PageWithinWindow(a: seq<nat>, b: seq<nat>, offset: nat, requested: int)
    requires Ascending(a) && Ascending(b)
    requires offset + ClampListLimit(requested) + 1 <= MAX_LIST_LIMIT
    ensures ListBoth(a, b, offset, requested) == TruePage(a, b, offset, requested)
  {
    var limit := ClampListLimit(requested);
    var w := offset + limit + 1;
    PrefixesSuffice(a, b, w);
    SliceOfPrefix(Merge(a, b), w, offset, offset + limit);
    SliceOfPrefix(Merge(Prefix(a, w), Prefix(b, w)), w, offset, offset + limit);
  }

  lemma SliceOfPrefix(s: seq<nat>, w: nat, i: nat, j: nat)
    requires i <= j <= w
    ensures Slice(Prefix(s, w), i, j) == Slice(s, i, j)
  {
    var p := Prefix(s, w);
    assert |Slice(p, i, j)| == |Slice(s, i, j)|;
  }

  function UpTo(n: nat): (s: seq<nat>)
    ensures |s| == n && Ascending(s)
  {
    seq(n, i => i)
  }

  /** Past the window, one long index is enough to lose the next page. */
  lemma PageBeyondWindow(offset: nat, requested: int)
    requires offset + ClampListLimit(requested) + 1 > MAX_LIST_LIMIT
    ensures var a := UpTo(offset + ClampListLimit(requested) + 1);
            !ListBoth(a, [], offset, requested).hasNextPage && TruePage(a, [], offset, requested).hasNextPage
  {
    var limit := ClampListLimit(requested);
    var a := UpTo(offset + limit + 1);
    var p := Prefix(a, MAX_LIST_LIMIT);
    assert p == UpTo(MAX_LIST_LIMIT) && Prefix<nat>([], MAX_LIST_LIMIT) == [];
    MergeIsUnion(a, []);
    MergeIsUnion(p, []);
    PartIsShorter(a, Merge(a, []));
    PartIsShorter(Merge(p, []), p);
  }

  /** For which offsets and limits the page is right whatever the indexes hold. */
  lemma PagesRightExactly(offset: nat, requested: int)
    ensures (forall a, b :: Ascending(a) && Ascending(b) ==>
              ListBoth(a, b, offset, requested) == TruePage(a, b, offset, requested))
            <==> offset + ClampListLimit(requested) + 1 <= MAX_LIST_LIMIT
  {
    if offset + ClampListLimit(requested) + 1 <= MAX_LIST_LIMIT {
      forall a, b | Ascending(a) && Ascending(b)
        ensures ListBoth(a, b, offset, requested) == TruePage(a, b, offset, requested)
      {
        PageWithinWindow(a, b, offset, requested);
      }
    } else {
      PageBeyondWindow(offset, requested);
      var a := UpTo(offset + ClampListLimit(requested) + 1);
      assert Ascending(a) && Ascending([]);
    }
  }

  /** The page `union` has at an offset. */
  function PageOf(union: seq<nat>, offset: nat, limit: nat): Page {
    Page(Slice(union, offset, offset + limit), |union| > offset + limit,
         if |union| > offset + limit then Some(offset + limit) else None)
  }

  /** Rows already read, then the page at the next offset: the union from the start, without gap or repeat. */
  lemma NextPageContinues(a: seq<nat>, b: seq<nat>, offset: nat, requested: int)
    requires Ascending(a) && Ascending(b)
    requires offset + ClampListLimit(requested) + 1 <= MAX_LIST_LIMIT
    ensures Prefix(Merge(a, b), offset) + ListBoth(a, b, offset, requested).ids
         == Prefix(Merge(a, b), offset + ClampListLimit(requested))
    ensures ListBoth(a, b, offset, requested).nextOffset.None? <==>
            Prefix(Merge(a, b), offset + ClampListLimit(requested)) == Merge(a, b)
    ensures var page := ListBoth(a, b, offset, requested);
            && (page.hasNextPage <==> page.nextOffset.Some?)
            && (page.nextOffset.Some? ==> page.nextOffset.value == offset + ClampListLimit(requested))
  {
    PageWithinWindow(a, b, offset, requested);
    PrefixGrows(Merge(a, b), offset, offset + ClampListLimit(requested));
  }

  lemma PrefixGrows(union: seq<nat>, i: nat, j: nat)
    requires i <= j
    ensures Prefix(union, i) + Slice(union, i, j) == Prefix(union, j)
    ensures |union| <= j <==> Prefix(union, j) == union
  {
    if |union| > j {
      assert |Prefix(union, j)| == j;
    } else {
      assert Prefix(union, j) == union;
    }
  }
}
