/** Composite cache keys: an id followed by fields, joined with underscores. */
module CacheKeys {
  import opened Text

  function Joined(id: string, fields: seq<string>): string {
    if fields == [] then id else Joined(id, fields[..|fields| - 1]) + "_" + fields[|fields| - 1]
  }

  function Flag(b: bool): string { if b then "1" else "0" }

  /**
   * Joining is injective as long as the fields contain no underscore; the id,
   * which comes first, may contain any number of them.
   */
  lemma {:induction false} JoinedInjective(id: string, fields: seq<string>, id': string, fields': seq<string>)
    requires |fields| == |fields'|
    requires forall i :: 0 <= i < |fields| ==> '_' !in fields[i] && '_' !in fields'[i]
    requires Joined(id, fields) == Joined(id', fields')
    ensures id == id' && fields == fields'
  {
    if fields != [] {
      var n := |fields| - 1;
      SplitAtLast('_', Joined(id, fields[..n]), fields[n], Joined(id', fields'[..n]), fields'[n]);
      JoinedInjective(id, fields[..n], id', fields'[..n]);
      assert fields == fields[..n] + [fields[n]] && fields' == fields'[..n] + [fields'[n]];
    }
  }
}
