/**
 * Event subscriptions: the window of recent ids shared by polling, sequence-gap
 * replay and ledger-gap backfill (src/events.ts, 103-118, 139-361;
 * src/indexer.ts, 253-288). A step is the code between two awaits; replies
 * arrive in any order and say anything.
 */
module EventDedup {
  import opened Common

  /** An event as fetched; the empty id stands for a missing one. */
  datatype Event = Event(id: string, ledger: Option<int>, sequence: Option<int>)

  /** `expected` is the last sequence seen before the gap. */
  datatype SequenceGap = SequenceGap(expected: int, actual: int)

  datatype LedgerGap = LedgerGap(expected: int, actual: int)

  datatype Path = FromPoll | FromReplay(gap: SequenceGap) | FromBackfill(ledgerGap: LedgerGap)

  /** A call of the dispatcher; nothing is delivered once the handlers are dropped. */
  datatype Dispatch = Dispatch(event: Event, path: Path, delivered: bool)

  // ------------------------------------------------------------------
  // The window
  // ------------------------------------------------------------------

  predicate Remembers(size: int, id: string) { size > 0 && id != "" }

  predicate AlreadySeen(size: int, ids: seq<string>, id: string) {
    Remembers(size, id) && id in ids
  }

  /** A new id goes in at the end; one too many pushes the oldest out. A hit changes nothing. */
  function Recorded(size: int, ids: seq<string>, id: string): seq<string> {
    if !Remembers(size, id) || id in ids then ids
    else
      var grown := ids + [id];
      if |grown| > size then grown[1..] else grown
  }

  class RecentIdWindow {
    var ids: seq<string>
    const size: int

    constructor (n: int)
      ensures ids == [] && size == n
    {
      ids := [];
      size := n;
    }

    method Seen(id: string) returns (hit: bool)
      modifies this
      ensures hit == AlreadySeen(size, old(ids), id) && ids == Recorded(size, old(ids), id)
    {
      if size <= 0 || id == "" {
        return false;
      }
      if id in ids {
        return true;
      }
      ids := ids + [id];
      if |ids| > size {
        ids := ids[1..];
      }
      return false;
    }
  }

  // ------------------------------------------------------------------
  // Ledger continuity
  // ------------------------------------------------------------------

  function GapAt(current: Option<int>, ledger: int): Option<LedgerGap> {
    if current.Some? && ledger > current.value + 1 then Some(LedgerGap(current.value + 1, ledger)) else None
  }

  function Advanced(current: Option<int>, ledger: int): Option<int> {
    if current.None? || ledger > current.value then Some(ledger) else current
  }

  function CurrentAfter(ledgers: seq<nat>): Option<int> {
    if ledgers == [] then None else Advanced(CurrentAfter(ledgers[..|ledgers| - 1]), ledgers[|ledgers| - 1])
  }

  /** The gaps reported along a series of observations. */
  function GapsOf(ledgers: seq<nat>): seq<LedgerGap> {
    if ledgers == [] then []
    else
      var n := |ledgers| - 1;
      var gap := GapAt(CurrentAfter(ledgers[..n]), ledgers[n]);
      GapsOf(ledgers[..n]) + (if gap.Some? then [gap.value] else [])
  }

  ghost predicate InGap(gaps: seq<LedgerGap>, l: int) {
    exists g :: 0 <= g < |gaps| && gaps[g].expected <= l < gaps[g].actual
  }

  /** l was the highest ledger yet when it was observed. */
  ghost predicate Record(ledgers: seq<nat>, l: int) {
    exists k :: 0 <= k < |ledgers| && ledgers[k] == l && IsRecord(ledgers, k)
  }

  ghost predicate IsRecord(ledgers: seq<nat>, k: nat)
    requires k < |ledgers|
  {
    var before := CurrentAfter(ledgers[..k]);
    before.None? || ledgers[k] > before.value
  }

  lemma {:induction false} CurrentBounds(ledgers: seq<nat>)
    requires ledgers != []
    ensures CurrentAfter(ledgers).Some? && CurrentAfter(ledgers).value >= ledgers[0]
    ensures forall l :: Record(ledgers, l) ==> l <= CurrentAfter(ledgers).value
  {
    var n := |ledgers| - 1;
    if n > 0 {
      CurrentBounds(ledgers[..n]);
    }
    forall l | Record(ledgers, l)
      ensures l <= CurrentAfter(ledgers).value
    {
      RecordBack(ledgers, l);
    }
  }

  lemma RecordBack(ledgers: seq<nat>, l: int)
    requires ledgers != []
    ensures Record(ledgers, l) <==>
      (Record(ledgers[..|ledgers| - 1], l) || (l == ledgers[|ledgers| - 1] && IsRecord(ledgers, |ledgers| - 1)))
  {
    var n := |ledgers| - 1;
    var before := ledgers[..n];
    forall k: nat | k < n
      ensures IsRecord(ledgers, k) == IsRecord(before, k)
    {
      assert ledgers[..k] == before[..k];
    }
    if Record(before, l) {
      var k: nat :| k < n && before[k] == l && IsRecord(before, k);
      assert ledgers[k] == l && IsRecord(ledgers, k);
    }
  }

  /**
   * From the first ledger observed up to the current one, every ledger was
   * either the highest yet when observed or lies in a reported gap, never both.
   */
  lemma {:induction false} GapsAreExact(ledgers: seq<nat>, l: int)
    requires ledgers != []
    ensures ledgers[0] <= l <= CurrentAfter(ledgers).value ==> (InGap(GapsOf(ledgers), l) <==> !Record(ledgers, l))
    ensures InGap(GapsOf(ledgers), l) ==> ledgers[0] < l < CurrentAfter(ledgers).value
  {
    var n := |ledgers| - 1;
    RecordBack(ledgers, l);
    if n == 0 {
      assert ledgers[..0] == [] && GapsOf(ledgers) == [];
    } else {
      var before := ledgers[..n];
      GapsAreExact(before, l);
      CurrentBounds(before);
      var gap := GapAt(CurrentAfter(before), ledgers[n]);
      var gaps := GapsOf(before);
      assert GapsOf(ledgers) == gaps + (if gap.Some? then [gap.value] else []);
      GapsGrow(gaps, gap, l);
    }
  }

  lemma GapsGrow(gaps: seq<LedgerGap>, gap: Option<LedgerGap>, l: int)
    ensures InGap(gaps + (if gap.Some? then [gap.value] else []), l) <==>
            InGap(gaps, l) || (gap.Some? && gap.value.expected <= l < gap.value.actual)
  {
    var r := gaps + (if gap.Some? then [gap.value] else []);
    if InGap(gaps, l) {
      var g :| 0 <= g < |gaps| && gaps[g].expected <= l < gaps[g].actual;
      assert r[g] == gaps[g];
    }
    if gap.Some? {
      assert r[|gaps|] == gap.value;
    }
  }

  /** Gaps of at least one ledger, in ascending order without overlap, none above `current`. */
  ghost predicate AscendingGaps(gaps: seq<LedgerGap>, current: Option<int>) {
    && (forall g :: 0 <= g < |gaps| ==>
          current.Some? && gaps[g].expected < gaps[g].actual <= current.value)
    && (forall g, h :: 0 <= g < h < |gaps| ==> gaps[g].actual < gaps[h].expected)
  }

  lemma GapAbove(gaps: seq<LedgerGap>, current: Option<int>, ledger: int)
    requires AscendingGaps(gaps, current)
    ensures AscendingGaps(gaps, Advanced(current, ledger))
    ensures GapAt(current, ledger).Some? ==>
      AscendingGaps(gaps + [GapAt(current, ledger).value], Advanced(current, ledger))
  {
  }

  /** Reported gaps ascend and never overlap. */
  lemma {:induction false} GapsDisjoint(ledgers: seq<nat>)
    ensures AscendingGaps(GapsOf(ledgers), CurrentAfter(ledgers))
  {
    if ledgers != [] {
      var n := |ledgers| - 1;
      GapsDisjoint(ledgers[..n]);
      GapAbove(GapsOf(ledgers[..n]), CurrentAfter(ledgers[..n]), ledgers[n]);
      assert GapsOf(ledgers[..n]) + [] == GapsOf(ledgers[..n]);
    }
  }

  class LedgerGapDetector {
    var current: Option<int>

    constructor ()
      ensures current == None
    {
      current := None;
    }

    /** An error for a negative ledger; a duplicate or late one is no gap and moves nothing. */
    method Observe(ledger: int) returns (r: Result<Option<LedgerGap>, string>)
      modifies this
      ensures r.Err? <==> ledger < 0
      ensures r.Err? ==> current == old(current)
      ensures r.Ok? ==> r.value == GapAt(old(current), ledger) && current == Advanced(old(current), ledger)
    {
      if ledger < 0 {
        return Err("ledger must be a non-negative integer");
      }
      var gap := None;
      if current.Some? && ledger > current.value + 1 {
        gap := Some(LedgerGap(current.value + 1, ledger));
      }
      if current.None? || ledger > current.value {
        current := Some(ledger);
      }
      return Ok(gap);
    }
  }

  // ------------------------------------------------------------------
  // The subscription
  // ------------------------------------------------------------------

  datatype Config = Config(dedupWindowSize: int, maxConsecutiveFailures: int)

  /** What the three dispatching paths share; `replays` and `backfills` are the requests in flight. */
  datatype Feed = Feed(
    window: seq<string>, dispatched: seq<Dispatch>, detached: bool, lastSequence: Option<int>, ledger: Option<int>,
    lastStartLedger: int, isReplaying: bool, replays: seq<SequenceGap>, isBackfilling: bool, backfills: seq<LedgerGap>)

  datatype Phase = Waiting | Seeding | Fetching | Over

  datatype Poller = Poller(
    startLedger: int, ledgerSeeded: bool, cursor: string, consecutiveFailures: nat, stopped: bool, phase: Phase)

  datatype Sub = Sub(feed: Feed, poller: Poller)

  function Initial(): Sub {
    Sub(Feed([], [], false, None, None, 0, false, [], false, []), Poller(0, false, "", 0, false, Seeding))
  }

  /** Skip a recently seen event, or record and dispatch it. */
  function Offer(c: Config, f: Feed, e: Event, path: Path): Feed {
    if AlreadySeen(c.dedupWindowSize, f.window, e.id) then f
    else f.(window := Recorded(c.dedupWindowSize, f.window, e.id),
            dispatched := f.dispatched + [Dispatch(e, path, !f.detached)])
  }

  function OfferAll(c: Config, f: Feed, events: seq<Event>, path: Path): Feed {
    if events == [] then f
    else Offer(c, OfferAll(c, f, events[..|events| - 1], path), events[|events| - 1], path)
  }

  function StartReplay(f: Feed, gap: SequenceGap): Feed {
    if f.isReplaying || f.lastStartLedger <= 0 then f else f.(isReplaying := true, replays := f.replays + [gap])
  }

  function StartBackfill(f: Feed, gap: LedgerGap): Feed {
    if f.isBackfilling then f else f.(isBackfilling := true, backfills := f.backfills + [gap])
  }

  /** Ledger continuity first, for events the window will skip as well. */
  function ObserveLedger(f: Feed, e: Event): Feed {
    if e.ledger.None? then f
    else
      var gap := GapAt(f.ledger, e.ledger.value);
      var seen := f.(ledger := Advanced(f.ledger, e.ledger.value));
      if gap.Some? then StartBackfill(seen, gap.value) else seen
  }

  function FollowSequence(f: Feed, sequence: Option<int>): Feed {
    if sequence.None? then f
    else
      var followed :=
        if f.lastSequence.Some? && sequence.value != f.lastSequence.value + 1 then
          StartReplay(f, SequenceGap(f.lastSequence.value, sequence.value))
        else f;
      followed.(lastSequence := sequence)
  }

  function PollOne(c: Config, f: Feed, e: Event): Feed {
    var observed := ObserveLedger(f, e);
    if AlreadySeen(c.dedupWindowSize, observed.window, e.id) then observed
    else FollowSequence(Offer(c, observed, e, FromPoll), e.sequence)
  }

  predicate Malformed(e: Event) { e.ledger.Some? && e.ledger.value < 0 }

  /** How many events a poll handles before one makes it fail. */
  function Handled(events: seq<Event>): (n: nat)
    ensures n <= |events| && (n < |events| ==> Malformed(events[n]))
    ensures forall i :: 0 <= i < n ==> !Malformed(events[i])
  {
    if events == [] then 0
    else
      var n := Handled(events[..|events| - 1]);
      if n < |events| - 1 || Malformed(events[n]) then n else n + 1
  }

  function PollAll(c: Config, f: Feed, events: seq<Event>): Feed {
    if events == [] then f else PollOne(c, PollAll(c, f, events[..|events| - 1]), events[|events| - 1])
  }

  predicate InsideGap(e: Event, gap: SequenceGap) {
    e.sequence.Some? && gap.expected < e.sequence.value < gap.actual
  }

  predicate BelowGapEnd(e: Event, gap: LedgerGap) {
    e.ledger.Some? && e.ledger.value < gap.actual
  }

  function Inside(events: seq<Event>, gap: SequenceGap): (r: seq<Event>)
    ensures forall i :: 0 <= i < |r| ==> InsideGap(r[i], gap)
  {
    if events == [] then []
    else
      var e := events[|events| - 1];
      Inside(events[..|events| - 1], gap) + (if InsideGap(e, gap) then [e] else [])
  }

  function Below(events: seq<Event>, gap: LedgerGap): (r: seq<Event>)
    ensures forall i :: 0 <= i < |r| ==> BelowGapEnd(r[i], gap)
  {
    if events == [] then []
    else
      var e := events[|events| - 1];
      Below(events[..|events| - 1], gap) + (if BelowGapEnd(e, gap) then [e] else [])
  }

  /** A stable sort by sequence: after the last element that is not above e. */
  function InsertBySequence(sorted: seq<Event>, e: Event): (r: seq<Event>)
    requires e.sequence.Some? && forall i :: 0 <= i < |sorted| ==> sorted[i].sequence.Some?
    ensures |r| == |sorted| + 1 && forall i :: 0 <= i < |r| ==> r[i].sequence.Some?
    ensures multiset(r) == multiset(sorted) + multiset{e}
  {
    if sorted == [] || sorted[|sorted| - 1].sequence.value <= e.sequence.value then sorted + [e]
    else
      var n := |sorted| - 1;
      assert sorted == sorted[..n] + [sorted[n]];
      InsertBySequence(sorted[..n], e) + [sorted[n]]
  }

  function SortBySequence(events: seq<Event>): (r: seq<Event>)
    requires forall i :: 0 <= i < |events| ==> events[i].sequence.Some?
    ensures forall i :: 0 <= i < |r| ==> r[i].sequence.Some?
    ensures multiset(r) == multiset(events)
  {
    if events == [] then []
    else
      var n := |events| - 1;
      assert events == events[..n] + [events[n]];
      InsertBySequence(SortBySequence(events[..n]), events[n])
  }

  /** The missed events of a replay, in sequence order. */
  function Missed(events: seq<Event>, gap: SequenceGap): seq<Event> {
    SortBySequence(Inside(events, gap))
  }

  datatype Op =
    | TimerFires
    | LatestLedger(sequence: int)
    | PollReplies(events: seq<Event>, cursor: string, latestLedger: Option<int>)
    | PollFails
    | ReplayReplies(replay: nat, events: seq<Event>)
    | ReplayFails(replay: nat)
    | BackfillReplies(backfill: nat, events: seq<Event>)
    | BackfillFails(backfill: nat)
    | Unsubscribe

  predicate Enabled(s: Sub, op: Op) {
    match op
    case TimerFires => s.poller.phase.Waiting?
    case LatestLedger(_) => s.poller.phase.Seeding?
    case PollReplies(_, _, _) => s.poller.phase.Fetching?
    case PollFails => s.poller.phase.Seeding? || s.poller.phase.Fetching?
    case ReplayReplies(r, _) => r < |s.feed.replays|
    case ReplayFails(r) => r < |s.feed.replays|
    case BackfillReplies(b, _) => b < |s.feed.backfills|
    case BackfillFails(b) => b < |s.feed.backfills|
    case Unsubscribe => true
  }

  /** The end of a poll: the timer is set again unless polling has stopped. */
  function Rest(p: Poller): Poller {
    p.(phase := if p.stopped then Over else Waiting)
  }

  function Failure(c: Config, p: Poller): Poller {
    var failed := p.(consecutiveFailures := p.consecutiveFailures + 1);
    if failed.consecutiveFailures >= c.maxConsecutiveFailures then failed.(stopped := true, phase := Over)
    else Rest(failed)
  }

  function StartPoll(p: Poller): Poller {
    p.(phase := if p.stopped then Over else if !p.ledgerSeeded && p.cursor == "" then Seeding else Fetching)
  }

  function Success(s: Sub, cursor: string, latestLedger: Option<int>): Sub {
    var p := s.poller.(consecutiveFailures := 0, cursor := cursor);
    if cursor == "" && latestLedger.Some? then
      Sub(s.feed.(lastStartLedger := latestLedger.value), Rest(p.(startLedger := latestLedger.value + 1)))
    else Sub(s.feed, Rest(p))
  }

  function Polled(c: Config, s: Sub, events: seq<Event>, cursor: string, latestLedger: Option<int>): Sub {
    var n := Handled(events);
    var t := Sub(PollAll(c, s.feed, events[..n]), s.poller.(consecutiveFailures := 0));
    if n < |events| then Sub(t.feed, Failure(c, t.poller)) else Success(t, cursor, latestLedger)
  }

  function EndReplay(f: Feed, r: nat): Feed
    requires r < |f.replays|
  {
    f.(isReplaying := false, replays := f.replays[..r] + f.replays[r + 1..])
  }

  function EndBackfill(f: Feed, b: nat): Feed
    requires b < |f.backfills|
  {
    f.(isBackfilling := false, backfills := f.backfills[..b] + f.backfills[b + 1..])
  }

  function Replayed(c: Config, f: Feed, r: nat, events: seq<Event>): Feed
    requires r < |f.replays|
  {
    OfferAll(c, EndReplay(f, r), Missed(events, f.replays[r]), FromReplay(f.replays[r]))
  }

  function Backfilled(c: Config, f: Feed, b: nat, events: seq<Event>): Feed
    requires b < |f.backfills|
  {
    OfferAll(c, EndBackfill(f, b), Below(events, f.backfills[b]), FromBackfill(f.backfills[b]))
  }

  function Step(c: Config, s: Sub, op: Op): Sub
    requires Enabled(s, op)
  {
    match op
    case TimerFires => s.(poller := StartPoll(s.poller))
    case LatestLedger(sequence) =>
      Sub(s.feed.(lastStartLedger := sequence),
          s.poller.(startLedger := sequence, ledgerSeeded := true, phase := Fetching))
    case PollReplies(events, cursor, latestLedger) => Polled(c, s, events, cursor, latestLedger)
    case PollFails => s.(poller := Failure(c, s.poller))
    case ReplayReplies(r, events) => s.(feed := Replayed(c, s.feed, r, events))
    case ReplayFails(r) => s.(feed := EndReplay(s.feed, r))
    case BackfillReplies(b, events) => s.(feed := Backfilled(c, s.feed, b, events))
    case BackfillFails(b) => s.(feed := EndBackfill(s.feed, b))
    case Unsubscribe =>
      Sub(s.feed.(detached := true),
          s.poller.(stopped := true, phase := if s.poller.phase.Waiting? then Over else s.poller.phase))
  }

  // ------------------------------------------------------------------
  // What every step keeps
  // ------------------------------------------------------------------

  /** The non-empty ids dispatched, in order. */
  function Ids(dispatched: seq<Dispatch>): seq<string> {
    if dispatched == [] then []
    else
      var e := dispatched[|dispatched| - 1].event;
      Ids(dispatched[..|dispatched| - 1]) + (if e.id != "" then [e.id] else [])
  }

  /** No id repeats one of the last `size` before it. */
  ghost predicate Spaced(ids: seq<string>, size: int) {
    ids == [] ||
      (var before := ids[..|ids| - 1];
       Spaced(before, size) && ids[|ids| - 1] !in Last(before, Max(0, size)))
  }

  /** A replayed event lies strictly inside its gap, a backfilled one below the end of its gap. */
  predicate PathOk(d: Dispatch) {
    match d.path
    case FromPoll => true
    case FromReplay(gap) => d.event.sequence.Some? && gap.expected < d.event.sequence.value < gap.actual
    case FromBackfill(gap) => d.event.ledger.Some? && d.event.ledger.value < gap.actual
  }

  ghost predicate InFlightOk(f: Feed) {
    && |f.replays| == (if f.isReplaying then 1 else 0)
    && |f.backfills| == (if f.isBackfilling then 1 else 0)
  }

  /** The window is exactly the last ids dispatched, as many as it holds, oldest first. */
  ghost predicate HistoryOk(size: int, window: seq<string>, dispatched: seq<Dispatch>) {
    && window == Last(Ids(dispatched), Max(0, size))
    && Spaced(Ids(dispatched), size)
    && forall d :: 0 <= d < |dispatched| ==> PathOk(dispatched[d])
  }

  ghost predicate FeedOk(c: Config, f: Feed) {
    HistoryOk(c.dedupWindowSize, f.window, f.dispatched) && InFlightOk(f)
  }

  lemma {:induction false} IdsAppend(dispatched: seq<Dispatch>, d: Dispatch)
    ensures Ids(dispatched + [d]) == Ids(dispatched) + (if d.event.id != "" then [d.event.id] else [])
  {
    assert (dispatched + [d])[..|dispatched|] == dispatched;
  }

  lemma RecordedIsLast(size: int, ids: seq<string>, id: string)
    requires id != "" && (size > 0 ==> id !in Last(ids, size))
    ensures Recorded(size, Last(ids, Max(0, size)), id) == Last(ids + [id], Max(0, size))
  {
    if size > 0 {
      LastGrows(size, ids, id);
    }
  }

  lemma LastGrows(size: nat, ids: seq<string>, id: string)
    requires size > 0
    ensures Last(ids + [id], size) ==
      (if |ids| < size then Last(ids, size) + [id] else (Last(ids, size) + [id])[1..])
  {
    if |ids| < size {
      assert Last(ids, size) == ids;
    } else {
      var d := |ids| - size;
      assert (ids + [id])[d + 1..] == ids[d + 1..] + [id];
      assert (ids[d..] + [id])[1..] == ids[d + 1..] + [id];
    }
  }

  lemma {:induction false} NewIdIsSpaced(size: int, ids: seq<string>, id: string)
    requires Spaced(ids, size) && (size > 0 ==> id !in Last(ids, size))
    ensures Spaced(ids + [id], size)
  {
    assert (ids + [id])[..|ids|] == ids;
  }

  /** Hence two equal ids are more than the window apart. */
  lemma {:induction false} RepeatsAreFar(ids: seq<string>, size: int, a: nat, b: nat)
    requires Spaced(ids, size) && a < b < |ids| && ids[a] == ids[b]
    ensures b - a > size
  {
    var n := |ids| - 1;
    if b < n {
      RepeatsAreFar(ids[..n], size, a, b);
    }
  }

  lemma DispatchOk(size: int, window: seq<string>, dispatched: seq<Dispatch>, d: Dispatch)
    requires HistoryOk(size, window, dispatched) && PathOk(d) && !AlreadySeen(size, window, d.event.id)
    ensures HistoryOk(size, Recorded(size, window, d.event.id), dispatched + [d])
  {
    IdsAppend(dispatched, d);
    var ids := Ids(dispatched);
    if d.event.id != "" {
      RecordedIsLast(size, ids, d.event.id);
      NewIdIsSpaced(size, ids, d.event.id);
    } else {
      assert ids + [] == ids;
    }
  }

  lemma OfferOk(c: Config, f: Feed, e: Event, path: Path)
    requires FeedOk(c, f) && PathOk(Dispatch(e, path, !f.detached))
    ensures FeedOk(c, Offer(c, f, e, path))
  {
    if !AlreadySeen(c.dedupWindowSize, f.window, e.id) {
      DispatchOk(c.dedupWindowSize, f.window, f.dispatched, Dispatch(e, path, !f.detached));
    }
  }

  lemma {:induction false} OfferAllOk(c: Config, f: Feed, events: seq<Event>, path: Path)
    requires FeedOk(c, f)
    requires forall i :: 0 <= i < |events| ==> PathOk(Dispatch(events[i], path, !f.detached))
    ensures FeedOk(c, OfferAll(c, f, events, path)) && OfferAll(c, f, events, path).detached == f.detached
  {
    if events != [] {
      var n := |events| - 1;
      OfferAllOk(c, f, events[..n], path);
      OfferOk(c, OfferAll(c, f, events[..n], path), events[n], path);
    }
  }

  lemma ObserveInFlight(f: Feed, e: Event)
    requires InFlightOk(f)
    ensures InFlightOk(ObserveLedger(f, e))
  {
  }

  lemma ObserveOk(c: Config, f: Feed, e: Event)
    requires FeedOk(c, f)
    ensures FeedOk(c, ObserveLedger(f, e)) && ObserveLedger(f, e).window == f.window
  {
    ObserveKeeps(f, e);
    ObserveInFlight(f, e);
    SameHistory(c, f, ObserveLedger(f, e));
  }

  lemma SameHistory(c: Config, f: Feed, r: Feed)
    requires FeedOk(c, f) && r.window == f.window && r.dispatched == f.dispatched && InFlightOk(r)
    ensures FeedOk(c, r)
  {
  }

  lemma FollowKeeps(f: Feed, sequence: Option<int>)
    requires InFlightOk(f)
    ensures var r := FollowSequence(f, sequence);
            InFlightOk(r) && r.window == f.window && r.dispatched == f.dispatched
  {
  }

  lemma PollOneOk(c: Config, f: Feed, e: Event)
    requires FeedOk(c, f)
    ensures FeedOk(c, PollOne(c, f, e))
  {
    var observed := ObserveLedger(f, e);
    ObserveOk(c, f, e);
    OfferOk(c, observed, e, FromPoll);
    var offered := Offer(c, observed, e, FromPoll);
    FollowKeeps(offered, e.sequence);
    SameHistory(c, offered, FollowSequence(offered, e.sequence));
  }

  lemma {:induction false} PollAllOk(c: Config, f: Feed, events: seq<Event>)
    requires FeedOk(c, f)
    ensures FeedOk(c, PollAll(c, f, events))
  {
    if events != [] {
      PollAllOk(c, f, events[..|events| - 1]);
      PollOneOk(c, PollAll(c, f, events[..|events| - 1]), events[|events| - 1]);
    }
  }

  lemma MissedInside(events: seq<Event>, gap: SequenceGap, i: nat)
    requires i < |Missed(events, gap)|
    ensures InsideGap(Missed(events, gap)[i], gap)
  {
    var inside, missed := Inside(events, gap), Missed(events, gap);
    assert missed[i] in multiset(missed);
    assert missed[i] in multiset(inside);
  }

  lemma ReplayedOk(c: Config, f: Feed, r: nat, events: seq<Event>)
    requires FeedOk(c, f) && r < |f.replays|
    ensures FeedOk(c, EndReplay(f, r)) && FeedOk(c, Replayed(c, f, r, events))
  {
    var gap := f.replays[r];
    forall i | 0 <= i < |Missed(events, gap)|
      ensures InsideGap(Missed(events, gap)[i], gap)
    {
      MissedInside(events, gap, i);
    }
    OfferAllOk(c, EndReplay(f, r), Missed(events, gap), FromReplay(gap));
  }

  lemma BackfilledOk(c: Config, f: Feed, b: nat, events: seq<Event>)
    requires FeedOk(c, f) && b < |f.backfills|
    ensures FeedOk(c, EndBackfill(f, b)) && FeedOk(c, Backfilled(c, f, b, events))
  {
    OfferAllOk(c, EndBackfill(f, b), Below(events, f.backfills[b]), FromBackfill(f.backfills[b]));
  }

  lemma StepOk(c: Config, s: Sub, op: Op)
    requires FeedOk(c, s.feed) && Enabled(s, op)
    ensures FeedOk(c, Step(c, s, op).feed)
  {
    match op
    case PollReplies(events, cursor, latestLedger) => PollAllOk(c, s.feed, events[..Handled(events)]);
    case ReplayReplies(r, events) => ReplayedOk(c, s.feed, r, events);
    case ReplayFails(r) => ReplayedOk(c, s.feed, r, []);
    case BackfillReplies(b, events) => BackfilledOk(c, s.feed, b, events);
    case BackfillFails(b) => BackfilledOk(c, s.feed, b, []);
    case _ =>
  }

  // ------------------------------------------------------------------
  // Runs
  // ------------------------------------------------------------------

  /** A step that is not enabled does not happen. */
  function Run(c: Config, ops: seq<Op>): Sub {
    if ops == [] then Initial()
    else
      var before := Run(c, ops[..|ops| - 1]);
      if Enabled(before, ops[|ops| - 1]) then Step(c, before, ops[|ops| - 1]) else before
  }

  /**
   * Across all interleavings of polls, replays and backfills: the window is the
   * last ids dispatched, at most one replay and one backfill are in flight,
   * replayed events lie inside their gaps and backfilled ones below the end of theirs.
   */
  lemma {:induction false} RunOk(c: Config, ops: seq<Op>)
    ensures FeedOk(c, Run(c, ops).feed)
  {
    if ops != [] {
      RunOk(c, ops[..|ops| - 1]);
      var before := Run(c, ops[..|ops| - 1]);
      if Enabled(before, ops[|ops| - 1]) {
        StepOk(c, before, ops[|ops| - 1]);
      }
    }
  }

  /** Between two dispatches of an id, at least a window of other ids was dispatched, all different. */
  lemma {:induction false} Repeats(c: Config, ops: seq<Op>, a: nat, b: nat)
    requires c.dedupWindowSize > 0
    requires a < b < |Ids(Run(c, ops).feed.dispatched)|
    requires Ids(Run(c, ops).feed.dispatched)[a] == Ids(Run(c, ops).feed.dispatched)[b]
    ensures b - a - 1 >= c.dedupWindowSize
    ensures var ids := Ids(Run(c, ops).feed.dispatched);
            forall i, j :: a <= i < j <= a + c.dedupWindowSize ==> ids[i] != ids[j]
  {
    RunOk(c, ops);
    var ids, size := Ids(Run(c, ops).feed.dispatched), c.dedupWindowSize;
    RepeatsAreFar(ids, size, a, b);
    forall i: nat, j: nat | a <= i < j <= a + size
      ensures ids[i] != ids[j]
    {
      if ids[i] == ids[j] {
        RepeatsAreFar(ids, size, i, j);
      }
    }
  }

  ghost predicate Ascending(events: seq<Event>) {
    && (forall i :: 0 <= i < |events| ==> events[i].sequence.Some?)
    && forall i, j :: 0 <= i < j < |events| ==> events[i].sequence.value <= events[j].sequence.value
  }

  lemma {:induction false} InsertBounded(sorted: seq<Event>, e: Event, bound: int)
    requires e.sequence.Some? && e.sequence.value <= bound
    requires forall i :: 0 <= i < |sorted| ==> sorted[i].sequence.Some? && sorted[i].sequence.value <= bound
    ensures forall i :: 0 <= i < |InsertBySequence(sorted, e)| ==>
              InsertBySequence(sorted, e)[i].sequence.value <= bound
  {
    if sorted != [] && sorted[|sorted| - 1].sequence.value > e.sequence.value {
      InsertBounded(sorted[..|sorted| - 1], e, bound);
    }
  }

  lemma AscendingAppend(events: seq<Event>, e: Event)
    requires Ascending(events) && e.sequence.Some?
    requires forall i :: 0 <= i < |events| ==> events[i].sequence.value <= e.sequence.value
    ensures Ascending(events + [e])
  {
  }

  lemma {:induction false} InsertAscending(sorted: seq<Event>, e: Event)
    requires Ascending(sorted) && e.sequence.Some?
    ensures Ascending(InsertBySequence(sorted, e))
  {
    if sorted != [] && sorted[|sorted| - 1].sequence.value > e.sequence.value {
      var n := |sorted| - 1;
      InsertAscending(sorted[..n], e);
      InsertBounded(sorted[..n], e, sorted[n].sequence.value);
      AscendingAppend(InsertBySequence(sorted[..n], e), sorted[n]);
    } else {
      AscendingAppend(sorted, e);
    }
  }

  /** A replay offers exactly the fetched events inside its gap, in sequence order. */
  lemma {:induction false} ReplayInOrder(events: seq<Event>, gap: SequenceGap)
    ensures Ascending(Missed(events, gap)) && multiset(Missed(events, gap)) == multiset(Inside(events, gap))
  {
    SortAscending(Inside(events, gap));
  }

  lemma {:induction false} SortAscending(events: seq<Event>)
    requires forall i :: 0 <= i < |events| ==> events[i].sequence.Some?
    ensures Ascending(SortBySequence(events))
  {
    if events != [] {
      var n := |events| - 1;
      SortAscending(events[..n]);
      InsertAscending(SortBySequence(events[..n]), events[n]);
    }
  }

  // ------------------------------------------------------------------
  // What is not lost
  // ------------------------------------------------------------------

  /** The event's id has been dispatched; without an id, the event itself has, at `start` or later. */
  ghost predicate Reached(dispatched: seq<Dispatch>, start: nat, e: Event) {
    if e.id == "" then exists d :: start <= d < |dispatched| && dispatched[d].event == e
    else e.id in Ids(dispatched)
  }

  lemma StaysReached(dispatched: seq<Dispatch>, d: Dispatch, start: nat, e: Event)
    requires Reached(dispatched, start, e)
    ensures Reached(dispatched + [d], start, e)
  {
    IdsAppend(dispatched, d);
    if e.id == "" {
      var i :| start <= i < |dispatched| && dispatched[i].event == e;
      assert (dispatched + [d])[i].event == e;
    }
  }

  /** An offered event is dispatched unless its id has been. */
  lemma OfferReaches(c: Config, f: Feed, e: Event, path: Path, start: nat)
    requires f.window == Last(Ids(f.dispatched), Max(0, c.dedupWindowSize)) && start <= |f.dispatched|
    ensures Reached(Offer(c, f, e, path).dispatched, start, e)
  {
    if !AlreadySeen(c.dedupWindowSize, f.window, e.id) {
      IdsAppend(f.dispatched, Dispatch(e, path, !f.detached));
      assert (f.dispatched + [Dispatch(e, path, !f.detached)])[|f.dispatched|].event == e;
    }
  }

  lemma OfferKeepsReached(c: Config, f: Feed, o: Event, path: Path, start: nat, e: Event)
    requires Reached(f.dispatched, start, e)
    ensures Reached(Offer(c, f, o, path).dispatched, start, e)
  {
    StaysReached(f.dispatched, Dispatch(o, path, !f.detached), start, e);
  }

  lemma {:induction false} OfferAllGrows(c: Config, f: Feed, events: seq<Event>, path: Path)
    ensures |OfferAll(c, f, events, path).dispatched| >= |f.dispatched|
  {
    OfferAllQuietly(c, f, events, path);
  }

  lemma {:induction false} OfferAllReaches(c: Config, f: Feed, events: seq<Event>, path: Path, e: Event)
    requires FeedOk(c, f) && e in events
    requires forall i :: 0 <= i < |events| ==> PathOk(Dispatch(events[i], path, !f.detached))
    ensures Reached(OfferAll(c, f, events, path).dispatched, |f.dispatched|, e)
  {
    var n := |events| - 1;
    var before := OfferAll(c, f, events[..n], path);
    if e == events[n] {
      OfferAllOk(c, f, events[..n], path);
      OfferAllGrows(c, f, events[..n], path);
      OfferReaches(c, before, e, path, |f.dispatched|);
    } else {
      assert events == events[..n] + [events[n]];
      OfferAllReaches(c, f, events[..n], path, e);
      OfferKeepsReached(c, before, events[n], path, |f.dispatched|, e);
    }
  }

  lemma PollOneDispatches(c: Config, f: Feed, e: Event)
    ensures PollOne(c, f, e).dispatched == Offer(c, f, e, FromPoll).dispatched
  {
    ObserveKeeps(f, e);
    assert ObserveLedger(f, e).detached == f.detached;
  }

  lemma {:induction false} PollAllReaches(c: Config, f: Feed, events: seq<Event>, e: Event)
    requires FeedOk(c, f) && e in events
    ensures Reached(PollAll(c, f, events).dispatched, |f.dispatched|, e)
  {
    var n := |events| - 1;
    var before := PollAll(c, f, events[..n]);
    PollOneDispatches(c, before, events[n]);
    if e == events[n] {
      PollAllOk(c, f, events[..n]);
      PollAllQuietly(c, f, events[..n]);
      OfferReaches(c, before, e, FromPoll, |f.dispatched|);
    } else {
      assert events == events[..n] + [events[n]];
      PollAllReaches(c, f, events[..n], e);
      OfferKeepsReached(c, before, events[n], FromPoll, |f.dispatched|, e);
    }
  }

  lemma {:induction false} InsideHasAll(events: seq<Event>, gap: SequenceGap, e: Event)
    requires e in events && InsideGap(e, gap)
    ensures e in Inside(events, gap)
  {
    var n := |events| - 1;
    if e != events[n] {
      assert events == events[..n] + [events[n]];
      InsideHasAll(events[..n], gap, e);
    }
  }

  lemma {:induction false} BelowHasAll(events: seq<Event>, gap: LedgerGap, e: Event)
    requires e in events && BelowGapEnd(e, gap)
    ensures e in Below(events, gap)
  {
    var n := |events| - 1;
    if e != events[n] {
      assert events == events[..n] + [events[n]];
      BelowHasAll(events[..n], gap, e);
    }
  }

  lemma ReplayReaches(c: Config, f: Feed, r: nat, events: seq<Event>, e: Event)
    requires FeedOk(c, f) && r < |f.replays| && e in events && InsideGap(e, f.replays[r])
    ensures Reached(Replayed(c, f, r, events).dispatched, |f.dispatched|, e)
  {
    var gap := f.replays[r];
    var missed := Missed(events, gap);
    InsideHasAll(events, gap, e);
    assert e in multiset(Inside(events, gap)) && e in multiset(missed);
    forall i | 0 <= i < |missed|
      ensures InsideGap(missed[i], gap)
    {
      MissedInside(events, gap, i);
    }
    ReplayedOk(c, f, r, events);
    OfferAllReaches(c, EndReplay(f, r), missed, FromReplay(gap), e);
  }

  lemma BackfillReaches(c: Config, f: Feed, b: nat, events: seq<Event>, e: Event)
    requires FeedOk(c, f) && b < |f.backfills| && e in events && BelowGapEnd(e, f.backfills[b])
    ensures Reached(Backfilled(c, f, b, events).dispatched, |f.dispatched|, e)
  {
    BelowHasAll(events, f.backfills[b], e);
    BackfilledOk(c, f, b, events);
    OfferAllReaches(c, EndBackfill(f, b), Below(events, f.backfills[b]), FromBackfill(f.backfills[b]), e);
  }

  lemma {:induction false} PollReaches(
    c: Config, s: Sub, events: seq<Event>, cursor: string, latestLedger: Option<int>, e: Event)
    requires FeedOk(c, s.feed) && e in events[..Handled(events)]
    ensures Reached(Polled(c, s, events, cursor, latestLedger).feed.dispatched, |s.feed.dispatched|, e)
  {
    PollAllReaches(c, s.feed, events[..Handled(events)], e);
  }

  /** The reply brings the event, and it is one to dispatch. */
  predicate Brings(s: Sub, op: Op, e: Event)
    requires Enabled(s, op)
  {
    match op
    case PollReplies(events, _, _) => e in events[..Handled(events)]
    case ReplayReplies(r, events) =>
      && e in events && e.sequence.Some?
      && s.feed.replays[r].expected < e.sequence.value < s.feed.replays[r].actual
    case BackfillReplies(b, events) =>
      e in events && e.ledger.Some? && e.ledger.value < s.feed.backfills[b].actual
    case _ => false
  }

  /**
   * In every run no reply loses an event: after it, the ids of all events it
   * brought have been dispatched, by it or before, and those without an id by it.
   */
  lemma {:induction false} NothingIsLost(c: Config, ops: seq<Op>, op: Op, e: Event)
    requires Enabled(Run(c, ops), op) && Brings(Run(c, ops), op, e)
    ensures Reached(Run(c, ops + [op]).feed.dispatched, |Run(c, ops).feed.dispatched|, e)
  {
    assert (ops + [op])[..|ops|] == ops;
    RunOk(c, ops);
    var s := Run(c, ops);
    match op
    case PollReplies(events, cursor, latestLedger) => PollReaches(c, s, events, cursor, latestLedger, e);
    case ReplayReplies(r, events) => ReplayReaches(c, s.feed, r, events, e);
    case BackfillReplies(b, events) => BackfillReaches(c, s.feed, b, events, e);
  }

  // ------------------------------------------------------------------
  // What is replayed
  // ------------------------------------------------------------------

  predicate Sequenced(d: Dispatch) { d.path.FromPoll? && d.event.sequence.Some? }

  /** The sequence numbers dispatched by polling, in order. */
  function PolledSequences(dispatched: seq<Dispatch>): seq<int> {
    if dispatched == [] then []
    else
      var d := dispatched[|dispatched| - 1];
      PolledSequences(dispatched[..|dispatched| - 1]) + (if Sequenced(d) then [d.event.sequence.value] else [])
  }

  /** Two numbers dispatched one after the other by polling that do not follow each other. */
  ghost predicate IsJump(polled: seq<int>, gap: SequenceGap) {
    gap.actual != gap.expected + 1 &&
    exists k :: 0 <= k < |polled| - 1 && polled[k] == gap.expected && polled[k + 1] == gap.actual
  }

  ghost predicate JumpsOnly(polled: seq<int>, dispatched: seq<Dispatch>, replays: seq<SequenceGap>) {
    && (forall d :: 0 <= d < |dispatched| && dispatched[d].path.FromReplay? ==> IsJump(polled, dispatched[d].path.gap))
    && (forall r :: 0 <= r < |replays| ==> IsJump(polled, replays[r]))
  }

  ghost predicate SequencesOk(f: Feed) {
    var polled := PolledSequences(f.dispatched);
    && f.lastSequence == (if polled == [] then None else Some(polled[|polled| - 1]))
    && JumpsOnly(polled, f.dispatched, f.replays)
  }

  lemma {:induction false} PolledAppend(dispatched: seq<Dispatch>, d: Dispatch)
    ensures PolledSequences(dispatched + [d]) ==
            PolledSequences(dispatched) + (if Sequenced(d) then [d.event.sequence.value] else [])
  {
    assert (dispatched + [d])[..|dispatched|] == dispatched;
  }

  lemma JumpStays(polled: seq<int>, more: seq<int>, gap: SequenceGap)
    requires IsJump(polled, gap)
    ensures IsJump(polled + more, gap)
  {
    var k :| 0 <= k < |polled| - 1 && polled[k] == gap.expected && polled[k + 1] == gap.actual;
    assert (polled + more)[k] == gap.expected && (polled + more)[k + 1] == gap.actual;
  }

  lemma JumpsStay(
    polled: seq<int>, more: seq<int>, dispatched: seq<Dispatch>, replays: seq<SequenceGap>)
    requires JumpsOnly(polled, dispatched, replays)
    ensures JumpsOnly(polled + more, dispatched, replays)
  {
    forall gap | IsJump(polled, gap)
      ensures IsJump(polled + more, gap)
    {
      JumpStays(polled, more, gap);
    }
  }

  /** A dispatch by replay or backfill leaves the polled numbers alone. */
  lemma OfferSequences(c: Config, f: Feed, e: Event, path: Path)
    requires SequencesOk(f) && !path.FromPoll?
    requires path.FromReplay? ==> IsJump(PolledSequences(f.dispatched), path.gap)
    ensures SequencesOk(Offer(c, f, e, path))
    ensures PolledSequences(Offer(c, f, e, path).dispatched) == PolledSequences(f.dispatched)
  {
    PolledAppend(f.dispatched, Dispatch(e, path, !f.detached));
    assert PolledSequences(f.dispatched) + [] == PolledSequences(f.dispatched);
  }

  lemma {:induction false} OfferAllSequences(c: Config, f: Feed, events: seq<Event>, path: Path)
    requires SequencesOk(f) && !path.FromPoll?
    requires path.FromReplay? ==> IsJump(PolledSequences(f.dispatched), path.gap)
    ensures SequencesOk(OfferAll(c, f, events, path))
    ensures PolledSequences(OfferAll(c, f, events, path).dispatched) == PolledSequences(f.dispatched)
  {
    if events != [] {
      var n := |events| - 1;
      OfferAllSequences(c, f, events[..n], path);
      OfferSequences(c, OfferAll(c, f, events[..n], path), events[n], path);
    }
  }

  lemma DispatchPolled(
    polled: seq<int>, dispatched: seq<Dispatch>, replays: seq<SequenceGap>, d: Dispatch)
    requires JumpsOnly(polled, dispatched, replays) && d.path.FromPoll?
    ensures JumpsOnly(polled + (if Sequenced(d) then [d.event.sequence.value] else []), dispatched + [d], replays)
  {
    JumpsStay(polled, if Sequenced(d) then [d.event.sequence.value] else [], dispatched, replays);
  }

  lemma NewJump(
    polled: seq<int>, dispatched: seq<Dispatch>, replays: seq<SequenceGap>, before: seq<int>, q: int)
    requires JumpsOnly(polled, dispatched, replays) && before != [] && polled == before + [q]
    requires q != before[|before| - 1] + 1
    ensures JumpsOnly(polled, dispatched, replays + [SequenceGap(before[|before| - 1], q)])
  {
    var k := |before| - 1;
    assert polled[k] == before[k] && polled[k + 1] == q;
    assert IsJump(polled, SequenceGap(before[k], q));
  }

  /** After a polled dispatch the last sequence lags by one number, until it is followed. */
  lemma FollowSequences(f: Feed, before: seq<int>, sequence: Option<int>)
    requires f.lastSequence == (if before == [] then None else Some(before[|before| - 1]))
    requires PolledSequences(f.dispatched) == before + (if sequence.Some? then [sequence.value] else [])
    requires JumpsOnly(PolledSequences(f.dispatched), f.dispatched, f.replays)
    ensures SequencesOk(FollowSequence(f, sequence))
  {
    if sequence.Some? && before != [] && sequence.value != before[|before| - 1] + 1 {
      NewJump(PolledSequences(f.dispatched), f.dispatched, f.replays, before, sequence.value);
    }
  }

  lemma OfferPolled(c: Config, f: Feed, e: Event)
    requires JumpsOnly(PolledSequences(f.dispatched), f.dispatched, f.replays)
    requires !AlreadySeen(c.dedupWindowSize, f.window, e.id)
    ensures var r := Offer(c, f, e, FromPoll);
            && PolledSequences(r.dispatched) ==
               PolledSequences(f.dispatched) + (if e.sequence.Some? then [e.sequence.value] else [])
            && JumpsOnly(PolledSequences(r.dispatched), r.dispatched, r.replays) && r.lastSequence == f.lastSequence
  {
    var d := Dispatch(e, FromPoll, !f.detached);
    PolledAppend(f.dispatched, d);
    DispatchPolled(PolledSequences(f.dispatched), f.dispatched, f.replays, d);
  }

  lemma ObserveKeeps(f: Feed, e: Event)
    ensures var r := ObserveLedger(f, e);
            && r.dispatched == f.dispatched && r.replays == f.replays && r.lastSequence == f.lastSequence
            && r.window == f.window && r.isReplaying == f.isReplaying && r.lastStartLedger == f.lastStartLedger
  {
  }

  lemma PollOneSequences(c: Config, f: Feed, e: Event)
    requires SequencesOk(f)
    ensures SequencesOk(PollOne(c, f, e))
  {
    var observed := ObserveLedger(f, e);
    ObserveKeeps(f, e);
    if !AlreadySeen(c.dedupWindowSize, observed.window, e.id) {
      OfferPolled(c, observed, e);
      FollowSequences(Offer(c, observed, e, FromPoll), PolledSequences(f.dispatched), e.sequence);
    }
  }

  lemma {:induction false} PollAllSequences(c: Config, f: Feed, events: seq<Event>)
    requires SequencesOk(f)
    ensures SequencesOk(PollAll(c, f, events))
  {
    if events != [] {
      PollAllSequences(c, f, events[..|events| - 1]);
      PollOneSequences(c, PollAll(c, f, events[..|events| - 1]), events[|events| - 1]);
    }
  }

  lemma SameSequences(f: Feed, g: Feed)
    requires SequencesOk(f) && g.dispatched == f.dispatched
    requires g.lastSequence == f.lastSequence && g.replays == f.replays
    ensures SequencesOk(g)
  {
  }

  lemma EndReplaySequences(f: Feed, r: nat)
    requires SequencesOk(f) && r < |f.replays|
    ensures SequencesOk(EndReplay(f, r)) && IsJump(PolledSequences(f.dispatched), f.replays[r])
  {
  }

  lemma ReplayedSequences(c: Config, f: Feed, r: nat, events: seq<Event>)
    requires SequencesOk(f) && r < |f.replays|
    ensures SequencesOk(Replayed(c, f, r, events))
  {
    EndReplaySequences(f, r);
    OfferAllSequences(c, EndReplay(f, r), Missed(events, f.replays[r]), FromReplay(f.replays[r]));
  }

  lemma BackfilledSequences(c: Config, f: Feed, b: nat, events: seq<Event>)
    requires SequencesOk(f) && b < |f.backfills|
    ensures SequencesOk(Backfilled(c, f, b, events))
  {
    SameSequences(f, EndBackfill(f, b));
    OfferAllSequences(c, EndBackfill(f, b), Below(events, f.backfills[b]), FromBackfill(f.backfills[b]));
  }

  lemma PolledSequencesOk(
    c: Config, s: Sub, events: seq<Event>, cursor: string, latestLedger: Option<int>)
    requires SequencesOk(s.feed)
    ensures SequencesOk(Polled(c, s, events, cursor, latestLedger).feed)
  {
    var f := PollAll(c, s.feed, events[..Handled(events)]);
    PollAllSequences(c, s.feed, events[..Handled(events)]);
    SameSequences(f, Polled(c, s, events, cursor, latestLedger).feed);
  }

  lemma StepSequences(c: Config, s: Sub, op: Op)
    requires SequencesOk(s.feed) && Enabled(s, op)
    ensures SequencesOk(Step(c, s, op).feed)
  {
    match op
    case PollReplies(events, cursor, latestLedger) => PolledSequencesOk(c, s, events, cursor, latestLedger);
    case ReplayReplies(r, events) => ReplayedSequences(c, s.feed, r, events);
    case ReplayFails(r) => EndReplaySequences(s.feed, r);
    case BackfillReplies(b, events) => BackfilledSequences(c, s.feed, b, events);
    case _ => SameSequences(s.feed, Step(c, s, op).feed);
  }

  /**
   * The last sequence is that of the last numbered event polling dispatched, and
   * every replay, under way or done, is for two numbers polling dispatched one
   * after the other although they do not follow each other.
   */
  lemma {:induction false} ReplaysAreForJumps(c: Config, ops: seq<Op>)
    ensures SequencesOk(Run(c, ops).feed)
  {
    if ops != [] {
      ReplaysAreForJumps(c, ops[..|ops| - 1]);
      var before := Run(c, ops[..|ops| - 1]);
      if Enabled(before, ops[|ops| - 1]) {
        StepSequences(c, before, ops[|ops| - 1]);
      }
    }
  }

  /** The jump a polled event makes, if any. */
  function JumpAt(c: Config, f: Feed, e: Event): Option<SequenceGap> {
    if !AlreadySeen(c.dedupWindowSize, f.window, e.id) && f.lastSequence.Some? && e.sequence.Some?
       && e.sequence.value != f.lastSequence.value + 1
    then Some(SequenceGap(f.lastSequence.value, e.sequence.value))
    else None
  }

  /** The first jump among the events of a poll. */
  function FirstJump(c: Config, f: Feed, events: seq<Event>): Option<SequenceGap> {
    if events == [] then None
    else
      var n := |events| - 1;
      var earlier := FirstJump(c, f, events[..n]);
      if earlier.Some? then earlier else JumpAt(c, PollAll(c, f, events[..n]), events[n])
  }

  /** With a start ledger known, a jump leaves a replay under way: for that jump, unless one was already. */
  lemma JumpStartsReplay(c: Config, f: Feed, e: Event)
    requires InFlightOk(f)
    ensures var r := PollOne(c, f, e);
            && InFlightOk(r) && r.lastStartLedger == f.lastStartLedger
            && r.replays == if f.replays != [] || f.lastStartLedger <= 0 || JumpAt(c, f, e).None? then f.replays
                            else [JumpAt(c, f, e).value]
  {
    var observed := ObserveLedger(f, e);
    ObserveKeeps(f, e);
    ObserveInFlight(f, e);
    FollowKeeps(Offer(c, observed, e, FromPoll), e.sequence);
  }

  lemma {:induction false} PollReplaysFirstJump(c: Config, f: Feed, events: seq<Event>)
    requires InFlightOk(f)
    ensures var r := PollAll(c, f, events);
            && InFlightOk(r) && r.lastStartLedger == f.lastStartLedger
            && r.replays == if f.replays != [] || f.lastStartLedger <= 0 || FirstJump(c, f, events).None? then f.replays
                            else [FirstJump(c, f, events).value]
  {
    if events != [] {
      var n := |events| - 1;
      PollReplaysFirstJump(c, f, events[..n]);
      JumpStartsReplay(c, PollAll(c, f, events[..n]), events[n]);
    }
  }

  /**
   * In every run: once a start ledger is known, a poll leaves the replay that was
   * under way, or else that of the first jump among the events it handled.
   */
  lemma {:induction false} FirstJumpIsReplayed(
    c: Config, ops: seq<Op>, events: seq<Event>, cursor: string, latestLedger: Option<int>)
    requires Run(c, ops).poller.phase.Fetching?
    ensures var f, jump := Run(c, ops).feed, FirstJump(c, Run(c, ops).feed, events[..Handled(events)]);
            Run(c, ops + [PollReplies(events, cursor, latestLedger)]).feed.replays ==
            if f.replays != [] || f.lastStartLedger <= 0 || jump.None? then f.replays else [jump.value]
  {
    assert (ops + [PollReplies(events, cursor, latestLedger)])[..|ops|] == ops;
    RunOk(c, ops);
    PollReplaysFirstJump(c, Run(c, ops).feed, events[..Handled(events)]);
  }

  // ------------------------------------------------------------------
  // Stopping
  // ------------------------------------------------------------------

  /** The later feed adds dispatches; once detached, none of them is delivered. */
  ghost predicate Quietly(f: Feed, g: Feed) {
    && g.detached == f.detached
    && |f.dispatched| <= |g.dispatched| && g.dispatched[..|f.dispatched|] == f.dispatched
    && (f.detached ==> forall d :: |f.dispatched| <= d < |g.dispatched| ==> !g.dispatched[d].delivered)
  }

  lemma {:induction false} OfferAllQuietly(c: Config, f: Feed, events: seq<Event>, path: Path)
    ensures Quietly(f, OfferAll(c, f, events, path))
  {
    if events != [] {
      OfferAllQuietly(c, f, events[..|events| - 1], path);
    }
  }

  lemma PollOneQuietly(c: Config, f: Feed, g: Feed, e: Event)
    requires Quietly(f, g)
    ensures Quietly(f, PollOne(c, g, e))
  {
    var observed := ObserveLedger(g, e);
    assert observed.dispatched == g.dispatched && observed.detached == g.detached;
  }

  lemma {:induction false} PollAllQuietly(c: Config, f: Feed, events: seq<Event>)
    ensures Quietly(f, PollAll(c, f, events))
  {
    if events != [] {
      PollAllQuietly(c, f, events[..|events| - 1]);
      PollOneQuietly(c, f, PollAll(c, f, events[..|events| - 1]), events[|events| - 1]);
    }
  }

  /** After unsubscribe() no handler is called again, whatever replies were still in flight, and no poll is started. */
  lemma UnsubscribedIsQuiet(c: Config, s: Sub, op: Op)
    requires s.feed.detached && s.poller.stopped && !s.poller.phase.Waiting? && Enabled(s, op)
    ensures var r := Step(c, s, op);
            && Quietly(s.feed, r.feed) && r.poller.stopped && !r.poller.phase.Waiting?
            && (s.poller.phase.Over? ==> r.poller.phase.Over?)
  {
    match op
    case PollReplies(events, cursor, latestLedger) => PollAllQuietly(c, s.feed, events[..Handled(events)]);
    case ReplayReplies(r, events) =>
      OfferAllQuietly(c, EndReplay(s.feed, r), Missed(events, s.feed.replays[r]), FromReplay(s.feed.replays[r]));
    case BackfillReplies(b, events) =>
      OfferAllQuietly(c, EndBackfill(s.feed, b), Below(events, s.feed.backfills[b]), FromBackfill(s.feed.backfills[b]));
    case _ =>
  }

  lemma QuietlyOn(f: Feed, g: Feed, h: Feed)
    requires Quietly(f, g) && Quietly(g, h)
    ensures Quietly(f, h)
  {
    assert h.dispatched[..|f.dispatched|] == g.dispatched[..|f.dispatched|];
    forall d | f.detached && |f.dispatched| <= d < |h.dispatched|
      ensures !h.dispatched[d].delivered
    {
      assert d < |g.dispatched| ==> h.dispatched[..|g.dispatched|][d] == g.dispatched[d];
    }
  }

  /** No handler is called any more, no timer is set, and a poll that is over stays so. */
  ghost predicate Silenced(s: Sub, r: Sub) {
    && r.feed.detached && r.poller.stopped && !r.poller.phase.Waiting?
    && Quietly(s.feed, r.feed)
    && (s.poller.phase.Over? ==> r.poller.phase.Over?)
  }

  lemma {:induction false} SilencedNext(c: Config, s: Sub, ops: seq<Op>, op: Op)
    requires Silenced(s, Run(c, ops))
    ensures Silenced(s, Run(c, ops + [op]))
  {
    assert (ops + [op])[..|ops|] == ops;
    var t := Run(c, ops);
    if Enabled(t, op) {
      UnsubscribedIsQuiet(c, t, op);
      QuietlyOn(s.feed, t.feed, Step(c, t, op).feed);
    }
  }

  /**
   * Whatever happens after unsubscribe(), replies in flight included: what is
   * dispatched beyond the dispatches of before it is not delivered, and no poll starts.
   */
  lemma {:induction false} UnsubscribedRunIsQuiet(c: Config, before: seq<Op>, after: seq<Op>)
    ensures Silenced(Run(c, before + [Unsubscribe]), Run(c, before + [Unsubscribe] + after))
    ensures var f, g := Run(c, before).feed.dispatched, Run(c, before + [Unsubscribe] + after).feed.dispatched;
            && |f| <= |g| && g[..|f|] == f
            && forall d :: |f| <= d < |g| ==> !g[d].delivered
  {
    assert (before + [Unsubscribe])[..|before|] == before;
    if after == [] {
      assert before + [Unsubscribe] + after == before + [Unsubscribe];
    } else {
      var n := |after| - 1;
      assert before + [Unsubscribe] + after == before + [Unsubscribe] + after[..n] + [after[n]];
      UnsubscribedRunIsQuiet(c, before, after[..n]);
      SilencedNext(c, Run(c, before + [Unsubscribe]), before + [Unsubscribe] + after[..n], after[n]);
    }
  }

  /** Failures since the last reply that was handled to the end. */
  function FailuresInARow(c: Config, ops: seq<Op>): nat {
    if ops == [] then 0
    else
      var before, op := ops[..|ops| - 1], ops[|ops| - 1];
      if !Enabled(Run(c, before), op) then FailuresInARow(c, before)
      else
        FailuresNext(op, FailuresInARow(c, before))
  }

  function FailuresNext(op: Op, failures: nat): nat {
    match op
    case PollFails => failures + 1
    case PollReplies(events, _, _) => if Handled(events) < |events| then 1 else 0
    case _ => failures
  }

  /** Any maximum below 1 stops polling at the first failure. */
  function FailuresAllowed(c: Config): int {
    Max(1, c.maxConsecutiveFailures)
  }

  ghost predicate StopOk(c: Config, p: Poller, failures: nat, unsubscribed: bool) {
    && p.consecutiveFailures == failures
    && (p.stopped <==> unsubscribed || failures >= FailuresAllowed(c))
    && (p.phase.Waiting? ==> !p.stopped)
    && (p.stopped && !unsubscribed ==> p.phase.Over?)
  }

  lemma StepStops(c: Config, s: Sub, op: Op, failures: nat, unsubscribed: bool)
    requires Enabled(s, op) && StopOk(c, s.poller, failures, unsubscribed)
    ensures StopOk(c, Step(c, s, op).poller, FailuresNext(op, failures), unsubscribed || op.Unsubscribe?)
  {
  }

  lemma {:induction false} RunStops(c: Config, ops: seq<Op>)
    ensures StopOk(c, Run(c, ops).poller, FailuresInARow(c, ops), Unsubscribe in ops)
  {
    if ops != [] {
      var before, op := ops[..|ops| - 1], ops[|ops| - 1];
      RunStops(c, before);
      assert Unsubscribe in ops <==> Unsubscribe in before || op == Unsubscribe by {
        assert ops == before + [op];
      }
      if Enabled(Run(c, before), op) {
        StepStops(c, Run(c, before), op, FailuresInARow(c, before), Unsubscribe in before);
      }
    }
  }

  /**
   * Polling has stopped exactly when somebody unsubscribed or the failures in a
   * row reached the maximum; a stopped poller has no timer set.
   */
  lemma {:induction false} StopsExactly(c: Config, ops: seq<Op>)
    ensures Run(c, ops).poller.stopped <==> Unsubscribe in ops || FailuresInARow(c, ops) >= FailuresAllowed(c)
    ensures Run(c, ops).poller.stopped ==> !Run(c, ops).poller.phase.Waiting?
  {
    RunStops(c, ops);
  }

  // ------------------------------------------------------------------
  // The closure's variables
  // ------------------------------------------------------------------

  class Subscription {
    const config: Config
    const recentIds: RecentIdWindow
    const ledgerGapDetector: LedgerGapDetector
    var dispatched: seq<Dispatch>
    var detached: bool
    var lastSequence: Option<int>
    var lastStartLedger: int
    var isReplaying: bool
    var replays: seq<SequenceGap>
    var isBackfilling: bool
    var backfills: seq<LedgerGap>
    var poller: Poller

    ghost function FeedView(): Feed
      reads this, recentIds, ledgerGapDetector
    {
      Feed(recentIds.ids, dispatched, detached, lastSequence, ledgerGapDetector.current, lastStartLedger,
           isReplaying, replays, isBackfilling, backfills)
    }

    ghost function View(): Sub
      reads this, recentIds, ledgerGapDetector
    {
      Sub(FeedView(), poller)
    }

    ghost predicate Valid()
      reads this, recentIds, ledgerGapDetector
    {
      recentIds.size == config.dedupWindowSize && FeedOk(config, FeedView())
    }

    constructor (c: Config)
      ensures config == c && View() == Initial() && Valid()
      ensures fresh(recentIds) && fresh(ledgerGapDetector)
    {
      config := c;
      recentIds := new RecentIdWindow(c.dedupWindowSize);
      ledgerGapDetector := new LedgerGapDetector();
      dispatched, detached, lastSequence, lastStartLedger := [], false, None, 0;
      isReplaying, replays, isBackfilling, backfills := false, [], false, [];
      poller := Poller(0, false, "", 0, false, Seeding);
    }

    /** True when the window had not seen the event, which is then dispatched. */
    method DispatchUnseen(e: Event, path: Path) returns (fresh': bool)
      requires recentIds.size == config.dedupWindowSize
      modifies this, recentIds
      ensures FeedView() == Offer(config, old(FeedView()), e, path) && poller == old(poller)
      ensures fresh' == !AlreadySeen(config.dedupWindowSize, old(recentIds.ids), e.id)
    {
      var hit := recentIds.Seen(e.id);
      if !hit {
        dispatched := dispatched + [Dispatch(e, path, !detached)];
      }
      return !hit;
    }

    /** False for a malformed ledger, before anything changes. */
    method ObserveEvent(e: Event) returns (ok: bool)
      modifies this`isBackfilling, this`backfills, ledgerGapDetector
      ensures ok == !Malformed(e)
      ensures FeedView() == if ok then ObserveLedger(old(FeedView()), e) else old(FeedView())
    {
      if e.ledger.None? {
        return true;
      }
      var gap := ledgerGapDetector.Observe(e.ledger.value);
      if gap.Err? {
        return false;
      }
      if gap.value.Some? && !isBackfilling {
        isBackfilling := true;
        backfills := backfills + [gap.value.value];
      }
      return true;
    }

    method FollowEvent(sequence: Option<int>)
      modifies this`isReplaying, this`replays, this`lastSequence
      ensures FeedView() == FollowSequence(old(FeedView()), sequence)
    {
      if sequence.None? {
        return;
      }
      if lastSequence.Some? && sequence.value != lastSequence.value + 1 {
        if !isReplaying && lastStartLedger > 0 {
          isReplaying := true;
          replays := replays + [SequenceGap(lastSequence.value, sequence.value)];
        }
      }
      lastSequence := sequence;
    }

    /** One event of a poll; false when its ledger is malformed. */
    method HandlePolled(e: Event) returns (ok: bool)
      requires recentIds.size == config.dedupWindowSize
      modifies this, recentIds, ledgerGapDetector
      ensures ok == !Malformed(e) && poller == old(poller)
      ensures FeedView() == if ok then PollOne(config, old(FeedView()), e) else old(FeedView())
    {
      ok := ObserveEvent(e);
      if ok {
        var unseen := DispatchUnseen(e, FromPoll);
        if unseen {
          FollowEvent(e.sequence);
        }
      }
    }

    method HandleAll(events: seq<Event>) returns (ok: bool)
      requires recentIds.size == config.dedupWindowSize
      modifies this, recentIds, ledgerGapDetector
      ensures ok <==> Handled(events) == |events|
      ensures FeedView() == PollAll(config, old(FeedView()), events[..Handled(events)]) && poller == old(poller)
    {
      ghost var start := FeedView();
      for i := 0 to |events|
        invariant poller == old(poller) && i <= Handled(events)
        invariant FeedView() == PollAll(config, start, events[..i])
      {
        PollNext(config, start, events, i);
        ok := HandlePolled(events[i]);
        if !ok {
          return false;
        }
      }
      return true;
    }

    method OnPollReply(events: seq<Event>, cursor: string, latestLedger: Option<int>)
      requires Valid() && poller.phase.Fetching?
      modifies this, recentIds, ledgerGapDetector
      ensures View() == Polled(config, old(View()), events, cursor, latestLedger)
      ensures Valid()
    {
      StepOk(config, View(), PollReplies(events, cursor, latestLedger));
      ghost var after := Polled(config, View(), events, cursor, latestLedger);
      poller := poller.(consecutiveFailures := 0);
      var ok := HandleAll(events);
      if !ok {
        poller := Failure(config, poller);
        assert View() == after;
        return;
      }
      poller := poller.(cursor := cursor);
      if cursor == "" && latestLedger.Some? {
        poller := poller.(startLedger := latestLedger.value + 1);
        lastStartLedger := latestLedger.value;
      }
      poller := Rest(poller);
      assert View() == after;
    }

    method OnReplayReply(r: nat, events: seq<Event>)
      requires Valid() && r < |replays|
      modifies this, recentIds
      ensures View() == old(View()).(feed := Replayed(config, old(FeedView()), r, events))
      ensures Valid()
    {
      ReplayedOk(config, FeedView(), r, events);
      ghost var after := Replayed(config, FeedView(), r, events);
      var gap := replays[r];
      var missed := Missed(events, gap);
      isReplaying := false;
      replays := replays[..r] + replays[r + 1..];
      ghost var start := FeedView();
      for i := 0 to |missed|
        invariant recentIds.size == config.dedupWindowSize && poller == old(poller)
        invariant FeedView() == OfferAll(config, start, missed[..i], FromReplay(gap))
      {
        OfferNext(config, start, missed, FromReplay(gap), i);
        var _ := DispatchUnseen(missed[i], FromReplay(gap));
      }
      assert missed[..|missed|] == missed;
      assert FeedView() == after;
    }

    method OnBackfillReply(b: nat, events: seq<Event>)
      requires Valid() && b < |backfills|
      modifies this, recentIds
      ensures View() == old(View()).(feed := Backfilled(config, old(FeedView()), b, events))
      ensures Valid()
    {
      BackfilledOk(config, FeedView(), b, events);
      ghost var after := Backfilled(config, FeedView(), b, events);
      var gap := backfills[b];
      var missed := Below(events, gap);
      isBackfilling := false;
      backfills := backfills[..b] + backfills[b + 1..];
      ghost var start := FeedView();
      for i := 0 to |missed|
        invariant recentIds.size == config.dedupWindowSize && poller == old(poller)
        invariant FeedView() == OfferAll(config, start, missed[..i], FromBackfill(gap))
      {
        OfferNext(config, start, missed, FromBackfill(gap), i);
        var _ := DispatchUnseen(missed[i], FromBackfill(gap));
      }
      assert missed[..|missed|] == missed;
      assert FeedView() == after;
    }

    /** The timer is cleared and the handlers are dropped. */
    method CancelSubscription()
      requires Valid()
      modifies this
      ensures Valid() && View() == Step(config, old(View()), Unsubscribe)
    {
      StepOk(config, View(), Unsubscribe);
      poller := poller.(stopped := true, phase := if poller.phase.Waiting? then Over else poller.phase);
      detached := true;
    }
  }

  lemma {:induction false} PollNext(c: Config, f: Feed, events: seq<Event>, i: nat)
    requires i < |events|
    ensures PollAll(c, f, events[..i + 1]) == PollOne(c, PollAll(c, f, events[..i]), events[i])
    ensures i <= Handled(events) ==> (i == Handled(events) <==> Malformed(events[i]))
  {
    assert events[..i + 1][..i] == events[..i];
  }

  lemma {:induction false} OfferNext(c: Config, f: Feed, events: seq<Event>, path: Path, i: nat)
    requires i < |events|
    ensures OfferAll(c, f, events[..i + 1], path) == Offer(c, OfferAll(c, f, events[..i], path), events[i], path)
  {
    assert events[..i + 1][..i] == events[..i];
  }
}
