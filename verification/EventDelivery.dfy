/**
 * What the handlers of a subscription are given, and what it fetches next
 * (src/events.ts, 139-361): events reach the handlers until unsubscribe(), in
 * order, and a skipped ledger range is backfilled.
 */
module EventDelivery {
  import opened Common
  import opened EventDedup

  lemma {:induction false} Next(c: Config, ops: seq<Op>, op: Op)
    ensures Run(c, ops + [op]) == if Enabled(Run(c, ops), op) then Step(c, Run(c, ops), op) else Run(c, ops)
  {
    assert (ops + [op])[..|ops|] == ops;
  }

  // ------------------------------------------------------------------
  // Delivery
  // ------------------------------------------------------------------

  /** The later feed adds dispatches, each delivered exactly if the handlers are attached. */
  ghost predicate Delivers(f: Feed, g: Feed) {
    && g.detached == f.detached && |f.dispatched| <= |g.dispatched|
    && (forall d :: 0 <= d < |f.dispatched| ==> g.dispatched[d] == f.dispatched[d])
    && (forall d :: |f.dispatched| <= d < |g.dispatched| ==> g.dispatched[d].delivered == !f.detached)
  }

  lemma OfferDelivers(c: Config, f: Feed, g: Feed, e: Event, path: Path)
    requires Delivers(f, g)
    ensures Delivers(f, Offer(c, g, e, path))
  {
  }

  lemma {:induction false} OfferAllDelivers(c: Config, f: Feed, events: seq<Event>, path: Path)
    ensures Delivers(f, OfferAll(c, f, events, path))
  {
    if events != [] {
      OfferAllDelivers(c, f, events[..|events| - 1], path);
      OfferDelivers(c, f, OfferAll(c, f, events[..|events| - 1], path), events[|events| - 1], path);
    }
  }

  lemma PollOneDelivers(c: Config, f: Feed, g: Feed, e: Event)
    requires Delivers(f, g)
    ensures Delivers(f, PollOne(c, g, e))
  {
    PollOneDispatches(c, g, e);
    OfferDelivers(c, f, g, e, FromPoll);
    assert ObserveLedger(g, e).detached == g.detached;
  }

  lemma {:induction false} PollAllDelivers(c: Config, f: Feed, events: seq<Event>)
    ensures Delivers(f, PollAll(c, f, events))
  {
    if events != [] {
      PollAllDelivers(c, f, events[..|events| - 1]);
      PollOneDelivers(c, f, PollAll(c, f, events[..|events| - 1]), events[|events| - 1]);
    }
  }

  lemma StepDelivers(c: Config, s: Sub, op: Op)
    requires Enabled(s, op) && !op.Unsubscribe?
    ensures Delivers(s.feed, Step(c, s, op).feed)
  {
    match op
    case PollReplies(events, cursor, latestLedger) => PollAllDelivers(c, s.feed, events[..Handled(events)]);
    case ReplayReplies(r, events) =>
      OfferAllDelivers(c, EndReplay(s.feed, r), Missed(events, s.feed.replays[r]), FromReplay(s.feed.replays[r]));
    case BackfillReplies(b, events) =>
      var gap := s.feed.backfills[b];
      OfferAllDelivers(c, EndBackfill(s.feed, b), Below(events, gap), FromBackfill(gap));
    case _ =>
  }

  /** As long as nobody unsubscribes, everything dispatched reaches the handlers. */
  lemma {:induction false} SubscribedIsDelivered(c: Config, ops: seq<Op>)
    requires Unsubscribe !in ops
    ensures !Run(c, ops).feed.detached
    ensures forall d :: 0 <= d < |Run(c, ops).feed.dispatched| ==> Run(c, ops).feed.dispatched[d].delivered
  {
    if ops != [] {
      var before, op := ops[..|ops| - 1], ops[|ops| - 1];
      assert ops == before + [op];
      SubscribedIsDelivered(c, before);
      Next(c, before, op);
      if Enabled(Run(c, before), op) {
        StepDelivers(c, Run(c, before), op);
      }
    }
  }

  /** A dispatch reaches the handlers exactly if it is made before unsubscribe(). */
  lemma {:induction false} DeliveredExactly(c: Config, before: seq<Op>, after: seq<Op>, d: nat)
    requires Unsubscribe !in before && d < |Run(c, before + [Unsubscribe] + after).feed.dispatched|
    ensures Run(c, before + [Unsubscribe] + after).feed.dispatched[d].delivered <==>
            d < |Run(c, before).feed.dispatched|
  {
    var f, g := Run(c, before).feed.dispatched, Run(c, before + [Unsubscribe] + after).feed.dispatched;
    SubscribedIsDelivered(c, before);
    UnsubscribedRunIsQuiet(c, before, after);
    if d < |f| {
      assert g[d] == g[..|f|][d] == f[d];
    }
  }

  /** A handler has been given the event's id; without an id, the event itself, at `start` or later. */
  ghost predicate Given(dispatched: seq<Dispatch>, start: nat, e: Event) {
    exists d :: 0 <= d < |dispatched| && dispatched[d].delivered && dispatched[d].event.id == e.id
                && (e.id == "" ==> d >= start && dispatched[d].event == e)
  }

  lemma IdIsDispatched(dispatched: seq<Dispatch>, id: string) returns (d: nat)
    requires id in Ids(dispatched)
    ensures d < |dispatched| && dispatched[d].event.id == id
  {
    var n := |dispatched| - 1;
    if dispatched[n].event.id == id {
      d := n;
    } else {
      d := IdIsDispatched(dispatched[..n], id);
    }
  }

  /**
   * In every run without unsubscribe(), every event a reply to a poll, a replay or
   * a backfill brings has then been given to the handlers, now or under its id before.
   */
  lemma {:induction false} BroughtIsDelivered(c: Config, ops: seq<Op>, op: Op, e: Event)
    requires Unsubscribe !in ops && Enabled(Run(c, ops), op) && Brings(Run(c, ops), op, e)
    ensures Given(Run(c, ops + [op]).feed.dispatched, |Run(c, ops).feed.dispatched|, e)
  {
    var start, after := |Run(c, ops).feed.dispatched|, Run(c, ops + [op]).feed.dispatched;
    NothingIsLost(c, ops, op, e);
    assert Unsubscribe !in ops + [op];
    SubscribedIsDelivered(c, ops + [op]);
    if e.id == "" {
      var d :| start <= d < |after| && after[d].event == e;
      assert after[d].delivered;
    } else {
      var d := IdIsDispatched(after, e.id);
      assert after[d].delivered;
    }
  }

  // ------------------------------------------------------------------
  // Order
  // ------------------------------------------------------------------

  /** a is b with some events left out. */
  ghost predicate Thinned(a: seq<Event>, b: seq<Event>) {
    if b == [] then a == []
    else
      || Thinned(a, b[..|b| - 1])
      || (a != [] && a[|a| - 1] == b[|b| - 1] && Thinned(a[..|a| - 1], b[..|b| - 1]))
  }

  function EventsFrom(dispatched: seq<Dispatch>, start: nat): (events: seq<Event>)
    requires start <= |dispatched|
    ensures |events| == |dispatched| - start
  {
    seq(|dispatched| - start, i requires 0 <= i < |dispatched| - start => dispatched[start + i].event)
  }

  lemma {:induction false} ThinnedNext(a: seq<Event>, b: seq<Event>, e: Event)
    requires Thinned(a, b)
    ensures Thinned(a, b + [e]) && Thinned(a + [e], b + [e])
  {
    assert (b + [e])[..|b|] == b && (a + [e])[..|a|] == a;
  }

  lemma {:induction false} OfferInOrder(c: Config, f: Feed, e: Event, path: Path, start: nat, b: seq<Event>)
    requires start <= |f.dispatched| && Thinned(EventsFrom(f.dispatched, start), b)
    ensures var r := Offer(c, f, e, path);
            start <= |r.dispatched| && Thinned(EventsFrom(r.dispatched, start), b + [e])
  {
    var r := Offer(c, f, e, path);
    ThinnedNext(EventsFrom(f.dispatched, start), b, e);
    assert r.dispatched == f.dispatched || EventsFrom(r.dispatched, start) == EventsFrom(f.dispatched, start) + [e];
  }

  lemma {:induction false} OfferAllInOrder(c: Config, f: Feed, events: seq<Event>, path: Path)
    ensures var r := OfferAll(c, f, events, path);
            |f.dispatched| <= |r.dispatched| && Thinned(EventsFrom(r.dispatched, |f.dispatched|), events)
  {
    if events != [] {
      var n := |events| - 1;
      OfferAllInOrder(c, f, events[..n], path);
      OfferInOrder(c, OfferAll(c, f, events[..n], path), events[n], path, |f.dispatched|, events[..n]);
      assert events == events[..n] + [events[n]];
    }
  }

  lemma {:induction false} PollAllInOrder(c: Config, f: Feed, events: seq<Event>)
    ensures var r := PollAll(c, f, events);
            |f.dispatched| <= |r.dispatched| && Thinned(EventsFrom(r.dispatched, |f.dispatched|), events)
  {
    if events != [] {
      var n := |events| - 1;
      var before := PollAll(c, f, events[..n]);
      PollAllInOrder(c, f, events[..n]);
      OfferInOrder(c, before, events[n], FromPoll, |f.dispatched|, events[..n]);
      PollOneDispatches(c, before, events[n]);
      assert events == events[..n] + [events[n]];
    }
  }

  lemma {:induction false} BelowInOrder(events: seq<Event>, gap: LedgerGap, a: seq<Event>)
    requires Thinned(a, Below(events, gap))
    ensures Thinned(a, events)
  {
    if events != [] {
      var n := |events| - 1;
      var below := Below(events[..n], gap);
      if BelowGapEnd(events[n], gap) {
        var full := below + [events[n]];
        assert Below(events, gap) == full && full[..|full| - 1] == below;
        if Thinned(a, below) {
          BelowInOrder(events[..n], gap, a);
        } else {
          BelowInOrder(events[..n], gap, a[..|a| - 1]);
        }
      } else {
        assert below + [] == below;
        BelowInOrder(events[..n], gap, a);
      }
    }
  }

  /** The order a reply's events are dispatched in: that of the reply, and that of their sequences for a replay. */
  function ReplyOrder(s: Sub, op: Op): seq<Event>
    requires Enabled(s, op)
  {
    match op
    case PollReplies(events, _, _) => events[..Handled(events)]
    case ReplayReplies(r, events) => Missed(events, s.feed.replays[r])
    case BackfillReplies(_, events) => events
    case _ => []
  }

  /** In every run a step dispatches events of its reply only, in that order. */
  lemma {:induction false} DispatchedInOrder(c: Config, ops: seq<Op>, op: Op)
    requires Enabled(Run(c, ops), op)
    ensures var f, g := Run(c, ops).feed.dispatched, Run(c, ops + [op]).feed.dispatched;
            |f| <= |g| && Thinned(EventsFrom(g, |f|), ReplyOrder(Run(c, ops), op))
  {
    var s := Run(c, ops);
    Next(c, ops, op);
    match op
    case PollReplies(events, cursor, latestLedger) => PollAllInOrder(c, s.feed, events[..Handled(events)]);
    case ReplayReplies(r, events) =>
      OfferAllInOrder(c, EndReplay(s.feed, r), Missed(events, s.feed.replays[r]), FromReplay(s.feed.replays[r]));
    case BackfillReplies(b, events) =>
      var gap := s.feed.backfills[b];
      OfferAllInOrder(c, EndBackfill(s.feed, b), Below(events, gap), FromBackfill(gap));
      var after := OfferAll(c, EndBackfill(s.feed, b), Below(events, gap), FromBackfill(gap)).dispatched;
      BelowInOrder(events, gap, EventsFrom(after, |s.feed.dispatched|));
    case _ => assert EventsFrom(s.feed.dispatched, |s.feed.dispatched|) == [];
  }

  // ------------------------------------------------------------------
  // Where polling goes on
  // ------------------------------------------------------------------

  /** From where the next poll reads: the cursor, or without one the start ledger; and the ledger replays start at. */
  datatype Reading = Reading(cursor: string, startLedger: int, replaysFrom: int, seeded: bool)

  /** From the replies alone: a reply moves the reading only when all of its events were handled. */
  function ReadingAfter(c: Config, ops: seq<Op>): Reading {
    if ops == [] then Reading("", 0, 0, false)
    else
      var before, op := ops[..|ops| - 1], ops[|ops| - 1];
      var reading := ReadingAfter(c, before);
      if !Enabled(Run(c, before), op) then reading
      else
        match op
        case LatestLedger(sequence) => Reading(reading.cursor, sequence, sequence, true)
        case PollReplies(events, cursor, latestLedger) =>
          if exists e :: e in events && e.ledger.Some? && e.ledger.value < 0 then reading
          else if cursor == "" && latestLedger.Some? then
            Reading("", latestLedger.value + 1, latestLedger.value, reading.seeded)
          else reading.(cursor := cursor)
        case _ => reading
  }

  lemma {:induction false} HandledAll(events: seq<Event>)
    ensures Handled(events) == |events| <==> forall e :: e in events ==> !(e.ledger.Some? && e.ledger.value < 0)
  {
    if Handled(events) < |events| {
      assert Malformed(events[Handled(events)]);
    }
  }

  lemma StepReads(c: Config, s: Sub, op: Op)
    requires Enabled(s, op)
    ensures var t := Step(c, s, op);
            (t.poller.cursor, t.poller.startLedger, t.feed.lastStartLedger, t.poller.ledgerSeeded) ==
            match op
            case LatestLedger(sequence) => (s.poller.cursor, sequence, sequence, true)
            case PollReplies(events, cursor, latestLedger) =>
              if Handled(events) < |events| then
                (s.poller.cursor, s.poller.startLedger, s.feed.lastStartLedger, s.poller.ledgerSeeded)
              else if cursor == "" && latestLedger.Some? then
                ("", latestLedger.value + 1, latestLedger.value, s.poller.ledgerSeeded)
              else (cursor, s.poller.startLedger, s.feed.lastStartLedger, s.poller.ledgerSeeded)
            case _ => (s.poller.cursor, s.poller.startLedger, s.feed.lastStartLedger, s.poller.ledgerSeeded)
  {
    match op
    case PollReplies(events, cursor, latestLedger) => PollAllStart(c, s.feed, events[..Handled(events)]);
    case ReplayReplies(r, events) =>
      OfferAllStart(c, EndReplay(s.feed, r), Missed(events, s.feed.replays[r]), FromReplay(s.feed.replays[r]));
    case BackfillReplies(b, events) =>
      OfferAllStart(c, EndBackfill(s.feed, b), Below(events, s.feed.backfills[b]), FromBackfill(s.feed.backfills[b]));
    case _ =>
  }

  lemma {:induction false} OfferAllStart(c: Config, f: Feed, events: seq<Event>, path: Path)
    ensures OfferAll(c, f, events, path).lastStartLedger == f.lastStartLedger
    ensures OfferAll(c, f, events, path).ledger == f.ledger && OfferAll(c, f, events, path).backfills == f.backfills
  {
    if events != [] {
      OfferAllStart(c, f, events[..|events| - 1], path);
    }
  }

  lemma {:induction false} PollAllStart(c: Config, f: Feed, events: seq<Event>)
    ensures PollAll(c, f, events).lastStartLedger == f.lastStartLedger
  {
    if events != [] {
      PollAllStart(c, f, events[..|events| - 1]);
      ObserveKeeps(PollAll(c, f, events[..|events| - 1]), events[|events| - 1]);
    }
  }

  /** In every run polling reads on from where the last reply that was handled to its end left off. */
  lemma {:induction false} ReadsOn(c: Config, ops: seq<Op>)
    ensures var s := Run(c, ops);
            ReadingAfter(c, ops) ==
            Reading(s.poller.cursor, s.poller.startLedger, s.feed.lastStartLedger, s.poller.ledgerSeeded)
  {
    if ops != [] {
      var before, op := ops[..|ops| - 1], ops[|ops| - 1];
      ReadsOn(c, before);
      if Enabled(Run(c, before), op) {
        StepReads(c, Run(c, before), op);
        if op.PollReplies? {
          HandledAll(op.events);
        }
      }
    }
  }

  /**
   * The timer starts a poll that first asks for the latest ledger, exactly while neither a start
   * ledger nor a cursor is known; and it is set again after every poll unless polling has stopped.
   */
  lemma {:induction false} PollingGoesOn(c: Config, ops: seq<Op>, op: Op)
    requires Enabled(Run(c, ops), op)
    ensures var s, r := Run(c, ops).poller, Run(c, ops + [op]).poller;
            && (op.TimerFires? ==> r.phase == if !s.ledgerSeeded && s.cursor == "" then Seeding else Fetching)
            && (op.LatestLedger? ==> r.phase == Fetching)
            && (op.PollReplies? || op.PollFails? ==> r.phase == if r.stopped then Over else Waiting)
  {
    Next(c, ops, op);
    RunStops(c, ops);
  }

  // ------------------------------------------------------------------
  // Skipped ledgers
  // ------------------------------------------------------------------

  /** The ledgers of a list of events, in order. */
  function LedgersOf(events: seq<Event>): seq<nat> {
    if events == [] then []
    else
      var e := events[|events| - 1];
      LedgersOf(events[..|events| - 1]) + (if e.ledger.Some? && e.ledger.value >= 0 then [e.ledger.value] else [])
  }

  /** The ledgers of all events polling has handled, in order. */
  function PolledLedgers(c: Config, ops: seq<Op>): seq<nat> {
    if ops == [] then []
    else
      var before, op := ops[..|ops| - 1], ops[|ops| - 1];
      PolledLedgers(c, before) + (if Enabled(Run(c, before), op) then BroughtBy(op) else [])
  }

  function BroughtBy(op: Op): seq<nat> {
    if op.PollReplies? then LedgersOf(op.events[..Handled(op.events)]) else []
  }

  lemma {:induction false} LedgersAppend(ledgers: seq<nat>, l: nat)
    ensures CurrentAfter(ledgers + [l]) == Advanced(CurrentAfter(ledgers), l)
    ensures GapsOf(ledgers + [l]) ==
            var gap := GapAt(CurrentAfter(ledgers), l);
            GapsOf(ledgers) + (if gap.Some? then [gap.value] else [])
  {
    assert (ledgers + [l])[..|ledgers|] == ledgers;
  }

  /** The backfill in flight: the one before, or that of the first gap among `more`, reported after `earlier`. */
  function FirstNew(backfills: seq<LedgerGap>, earlier: seq<LedgerGap>, gaps: seq<LedgerGap>): seq<LedgerGap> {
    if backfills != [] || |gaps| <= |earlier| then backfills else [gaps[|earlier|]]
  }

  lemma ObserveStarts(c: Config, f: Feed, e: Event)
    requires InFlightOk(f)
    ensures var r := PollOne(c, f, e);
            && InFlightOk(r)
            && (e.ledger.None? ==> r.ledger == f.ledger && r.backfills == f.backfills)
            && (e.ledger.Some? ==>
                  var gap := GapAt(f.ledger, e.ledger.value);
                  && r.ledger == Advanced(f.ledger, e.ledger.value)
                  && r.backfills == if f.backfills != [] || gap.None? then f.backfills else [gap.value])
  {
    var observed := ObserveLedger(f, e);
    ObserveInFlight(f, e);
    ObserveKeeps(f, e);
    FollowKeeps(Offer(c, observed, e, FromPoll), e.sequence);
    assert FollowSequence(Offer(c, observed, e, FromPoll), e.sequence).backfills == observed.backfills;
  }

  lemma FirstNewNext(backfills: seq<LedgerGap>, earlier: seq<LedgerGap>, gaps: seq<LedgerGap>, gap: Option<LedgerGap>)
    requires earlier <= gaps
    ensures var sofar, more := FirstNew(backfills, earlier, gaps), gaps + (if gap.Some? then [gap.value] else []);
            && FirstNew(backfills, earlier, more) ==
               (if sofar != [] || gap.None? then sofar else [gap.value])
            && earlier <= more
  {
  }

  lemma {:induction false} PollBackfills(c: Config, f: Feed, events: seq<Event>, base: seq<nat>)
    requires InFlightOk(f) && f.ledger == CurrentAfter(base)
    requires forall i :: 0 <= i < |events| ==> !Malformed(events[i])
    ensures var r := PollAll(c, f, events);
            && InFlightOk(r) && r.ledger == CurrentAfter(base + LedgersOf(events))
            && GapsOf(base) <= GapsOf(base + LedgersOf(events))
            && r.backfills == FirstNew(f.backfills, GapsOf(base), GapsOf(base + LedgersOf(events)))
  {
    if events == [] {
      assert base + [] == base;
    } else {
      var n := |events| - 1;
      PollBackfills(c, f, events[..n], base);
      ObserveStarts(c, PollAll(c, f, events[..n]), events[n]);
      LedgersNext(base, events);
      if events[n].ledger.Some? {
        var sofar := base + LedgersOf(events[..n]);
        FirstNewNext(f.backfills, GapsOf(base), GapsOf(sofar), GapAt(CurrentAfter(sofar), events[n].ledger.value));
      }
    }
  }

  lemma {:induction false} LedgersNext(base: seq<nat>, events: seq<Event>)
    requires events != [] && !Malformed(events[|events| - 1])
    ensures var sofar, e := base + LedgersOf(events[..|events| - 1]), events[|events| - 1];
            var all := base + LedgersOf(events);
            && (e.ledger.None? ==> all == sofar)
            && (e.ledger.Some? ==>
                  var gap := GapAt(CurrentAfter(sofar), e.ledger.value);
                  && CurrentAfter(all) == Advanced(CurrentAfter(sofar), e.ledger.value)
                  && GapsOf(all) == GapsOf(sofar) + (if gap.Some? then [gap.value] else []))
  {
    var sofar, e := base + LedgersOf(events[..|events| - 1]), events[|events| - 1];
    if e.ledger.Some? {
      LedgersAppend(sofar, e.ledger.value);
      assert base + LedgersOf(events) == sofar + [e.ledger.value];
    } else {
      assert base + LedgersOf(events) == sofar;
    }
  }

  lemma {:induction false} StepLedger(c: Config, s: Sub, op: Op, base: seq<nat>)
    requires InFlightOk(s.feed) && Enabled(s, op) && s.feed.ledger == CurrentAfter(base)
    ensures Step(c, s, op).feed.ledger == CurrentAfter(base + BroughtBy(op))
    ensures op.PollReplies? ==>
              && GapsOf(base) <= GapsOf(base + BroughtBy(op))
              && Step(c, s, op).feed.backfills ==
                 FirstNew(s.feed.backfills, GapsOf(base), GapsOf(base + BroughtBy(op)))
  {
    assert base + [] == base;
    match op
    case PollReplies(events, _, _) => PollBackfills(c, s.feed, events[..Handled(events)], base);
    case ReplayReplies(r, events) =>
      OfferAllStart(c, EndReplay(s.feed, r), Missed(events, s.feed.replays[r]), FromReplay(s.feed.replays[r]));
    case BackfillReplies(b, events) =>
      OfferAllStart(c, EndBackfill(s.feed, b), Below(events, s.feed.backfills[b]), FromBackfill(s.feed.backfills[b]));
    case _ =>
  }

  /** The highest ledger a subscription knows is that of the ledgers polling has handled. */
  lemma {:induction false} LedgerFollowsPolls(c: Config, ops: seq<Op>)
    ensures Run(c, ops).feed.ledger == CurrentAfter(PolledLedgers(c, ops))
  {
    if ops != [] {
      var before, op := ops[..|ops| - 1], ops[|ops| - 1];
      LedgerFollowsPolls(c, before);
      RunOk(c, before);
      if Enabled(Run(c, before), op) {
        StepLedger(c, Run(c, before), op, PolledLedgers(c, before));
      } else {
        assert PolledLedgers(c, before) + [] == PolledLedgers(c, before);
      }
    }
  }

  /** In every run a replay or backfill is over with its reply, or with its failure: the next gap can start one. */
  lemma {:induction false} RequestsEnd(c: Config, ops: seq<Op>, op: Op)
    requires Enabled(Run(c, ops), op)
    ensures op.ReplayReplies? || op.ReplayFails? ==> Run(c, ops + [op]).feed.replays == []
    ensures op.BackfillReplies? || op.BackfillFails? ==> Run(c, ops + [op]).feed.backfills == []
  {
    var f := Run(c, ops).feed;
    Next(c, ops, op);
    RunOk(c, ops);
    match op
    case ReplayReplies(r, events) =>
      OfferAllRequests(c, EndReplay(f, r), Missed(events, f.replays[r]), FromReplay(f.replays[r]));
    case BackfillReplies(b, events) =>
      OfferAllRequests(c, EndBackfill(f, b), Below(events, f.backfills[b]), FromBackfill(f.backfills[b]));
    case _ =>
  }

  lemma {:induction false} OfferAllRequests(c: Config, f: Feed, events: seq<Event>, path: Path)
    ensures OfferAll(c, f, events, path).replays == f.replays && OfferAll(c, f, events, path).backfills == f.backfills
  {
    if events != [] {
      OfferAllRequests(c, f, events[..|events| - 1], path);
    }
  }

  /**
   * In every run a poll leaves the backfill that was under way, or else exactly
   * that of the first gap its events leave in the ledgers handled so far.
   */
  lemma {:induction false} FirstGapIsBackfilled(
    c: Config, ops: seq<Op>, events: seq<Event>, cursor: string, latestLedger: Option<int>)
    requires Run(c, ops).poller.phase.Fetching?
    ensures var known := PolledLedgers(c, ops);
            var all := PolledLedgers(c, ops + [PollReplies(events, cursor, latestLedger)]);
            && all == known + LedgersOf(events[..Handled(events)]) && GapsOf(known) <= GapsOf(all)
            && Run(c, ops + [PollReplies(events, cursor, latestLedger)]).feed.backfills ==
               FirstNew(Run(c, ops).feed.backfills, GapsOf(known), GapsOf(all))
  {
    var op := PollReplies(events, cursor, latestLedger);
    Next(c, ops, op);
    RunOk(c, ops);
    LedgerFollowsPolls(c, ops);
    LedgersOn(c, ops, op);
    StepLedger(c, Run(c, ops), op, PolledLedgers(c, ops));
  }

  lemma {:induction false} LedgersOn(c: Config, ops: seq<Op>, op: Op)
    requires Enabled(Run(c, ops), op)
    ensures PolledLedgers(c, ops + [op]) == PolledLedgers(c, ops) + BroughtBy(op)
  {
    assert (ops + [op])[..|ops|] == ops;
  }
}
