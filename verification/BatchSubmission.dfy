/**
 * Batches of pre-numbered transactions (src/batch-tx.ts, 75-88, 306-337,
 * 559-622, 688-852). The network, the signer and the abort signal are an
 * arbitrary oracle, asked by position in the batch.
 */
module BatchSubmission {
  import opened Common

  datatype Operation = Operation(name: string)

  /** An unsigned transaction, with the sequence number it was given. */
  datatype Built = Built(index: nat, name: string, sequence: int)

  datatype Polling = PollAborted | PollThrew | PollSuccess | PollFailed | PollPending

  datatype Sending = SendThrew | SendError | SendAccepted

  datatype Network = Network(
    abortedBefore: nat -> bool, signThrows: nat -> bool, send: nat -> Sending, poll: (nat, nat) -> Polling)

  datatype Options = Options(maxPollAttempts: int, signs: bool, dryRun: bool, throwOnError: bool, throwOnPartial: bool)

  datatype Status = SUCCESS | FAILED | ERROR | SKIPPED

  /** Why an outcome is what it is: the code's error texts. */
  datatype Reason =
    | Confirmed | DryRun
    | Rejected | FailedOnChain
    | SignFailed | SubmitFailed | AbortedDuringPolling | PollFailure | TimedOut
    | AbortedBefore | AfterFailure(index: int)

  function StatusOf(reason: Reason): Status {
    match reason
    case Confirmed => SUCCESS
    case DryRun => SUCCESS
    case Rejected => FAILED
    case FailedOnChain => FAILED
    case AbortedBefore => SKIPPED
    case AfterFailure(_) => SKIPPED
    case _ => ERROR
  }

  datatype Outcome = Outcome(index: nat, name: string, status: Status, reason: Reason)

  /** What the network sees: a transaction sent, or a confirmation read back. */
  datatype Event = Sent(position: nat, sequence: int) | ReadConfirmed(position: nat)

  datatype State = State(outcomes: seq<Outcome>, firstFailureIndex: int, log: seq<Event>)

  // ------------------------------------------------------------------
  // One transaction
  // ------------------------------------------------------------------

  function PollFrom(net: Network, p: nat, attempt: nat, maxPollAttempts: int): Reason
    decreases maxPollAttempts - attempt
  {
    if attempt >= maxPollAttempts then TimedOut
    else
      match net.poll(p, attempt)
      case PollAborted => AbortedDuringPolling
      case PollThrew => PollFailure
      case PollSuccess => Confirmed
      case PollFailed => FailedOnChain
      case PollPending => PollFrom(net, p, attempt + 1, maxPollAttempts)
  }

  function Decide(net: Network, opts: Options, p: nat, firstFailureIndex: int): Reason {
    if firstFailureIndex != -1 then AfterFailure(firstFailureIndex)
    else if net.abortedBefore(p) then AbortedBefore
    else if opts.dryRun then DryRun
    else if opts.signs && net.signThrows(p) then SignFailed
    else
      match net.send(p)
      case SendThrew => SubmitFailed
      case SendError => Rejected
      case SendAccepted => PollFrom(net, p, 0, opts.maxPollAttempts)
  }

  /** The transaction was handed to the network. */
  predicate WasSent(reason: Reason) {
    reason.Confirmed? || reason.Rejected? || reason.FailedOnChain? || reason.SubmitFailed?
    || reason.AbortedDuringPolling? || reason.PollFailure? || reason.TimedOut?
  }

  /** What the network sees of one transaction. */
  function Trace(reason: Reason, p: nat, tx: Built): seq<Event> {
    (if WasSent(reason) then [Sent(p, tx.sequence)] else []) + (if reason.Confirmed? then [ReadConfirmed(p)] else [])
  }

  function Step(net: Network, opts: Options, st: State, tx: Built): State {
    var p := |st.outcomes|;
    var reason := Decide(net, opts, p, st.firstFailureIndex);
    State(st.outcomes + [Outcome(tx.index, tx.name, StatusOf(reason), reason)],
          if st.firstFailureIndex == -1 && StatusOf(reason) != SUCCESS then tx.index else st.firstFailureIndex,
          st.log + Trace(reason, p, tx))
  }

  function Run(net: Network, opts: Options, txs: seq<Built>): State {
    if txs == [] then State([], -1, []) else Step(net, opts, Run(net, opts, txs[..|txs| - 1]), txs[|txs| - 1])
  }

  // ------------------------------------------------------------------
  // The shape of every result
  // ------------------------------------------------------------------

  /** Send, confirm, send, confirm: the first k transactions. */
  function ConfirmedInTurn(txs: seq<Built>, k: nat): seq<Event>
    requires k <= |txs|
  {
    if k == 0 then [] else ConfirmedInTurn(txs, k - 1) + [Sent(k - 1, txs[k - 1].sequence), ReadConfirmed(k - 1)]
  }

  /**
   * k successes, then at most one transaction that went wrong or was stopped by
   * the abort signal, then only skipped ones; the network saw exactly the
   * successes, one at a time in order, and perhaps the one that went wrong.
   */
  ghost predicate Shaped(st: State, txs: seq<Built>, dryRun: bool, k: nat) {
    && |st.outcomes| == |txs| && k <= |txs|
    && (forall i :: 0 <= i < |txs| ==> st.outcomes[i].index == txs[i].index && st.outcomes[i].name == txs[i].name)
    && (forall i :: 0 <= i < |txs| ==> st.outcomes[i].status == StatusOf(st.outcomes[i].reason))
    && (forall i :: 0 <= i < k ==> st.outcomes[i].reason == if dryRun then DryRun else Confirmed)
    && (k < |txs| ==> StatusOf(st.outcomes[k].reason) != SUCCESS && !st.outcomes[k].reason.AfterFailure?)
    && (forall i :: k < i < |txs| ==> st.outcomes[i].reason == AfterFailure(txs[k].index))
    && st.firstFailureIndex == (if k < |txs| then txs[k].index else -1)
    && st.log == (if dryRun then [] else ConfirmedInTurn(txs, k))
               + (if k < |txs| && WasSent(st.outcomes[k].reason) then [Sent(k, txs[k].sequence)] else [])
  }

  lemma {:induction false} PollIsTerminal(net: Network, p: nat, attempt: nat, max: int)
    ensures var r := PollFrom(net, p, attempt, max); WasSent(r) && !r.Rejected? && !r.SubmitFailed?
    decreases max - attempt
  {
    if attempt < max && net.poll(p, attempt).PollPending? {
      PollIsTerminal(net, p, attempt + 1, max);
    }
  }

  lemma {:induction false} InTurnPrefix(txs: seq<Built>, tx: Built, k: nat)
    requires k <= |txs|
    ensures ConfirmedInTurn(txs + [tx], k) == ConfirmedInTurn(txs, k)
  {
    if k > 0 {
      InTurnPrefix(txs, tx, k - 1);
    }
  }

  lemma StepAfterFailure(net: Network, opts: Options, st: State, txs: seq<Built>, tx: Built, k: nat)
    requires Shaped(st, txs, opts.dryRun, k) && k < |txs|
    ensures Shaped(Step(net, opts, st, tx), txs + [tx], opts.dryRun, k)
  {
    InTurnPrefix(txs, tx, k);
    assert Step(net, opts, st, tx).log == st.log;
  }

  lemma {:induction false} SuccessLog(log: seq<Event>, txs: seq<Built>, tx: Built, dryRun: bool)
    requires log == if dryRun then [] else ConfirmedInTurn(txs, |txs|)
    ensures log + (if dryRun then [] else [Sent(|txs|, tx.sequence), ReadConfirmed(|txs|)]) ==
            if dryRun then [] else ConfirmedInTurn(txs + [tx], |txs| + 1)
  {
    InTurnPrefix(txs, tx, |txs|);
  }

  lemma {:induction false} OneMoreSuccess(
    st: State, txs: seq<Built>, tx: Built, o: Outcome, log: seq<Event>, dryRun: bool)
    requires Shaped(st, txs, dryRun, |txs|) && o.index == tx.index && o.name == tx.name
    requires o.reason == (if dryRun then DryRun else Confirmed) && o.status == StatusOf(o.reason)
    requires log == if dryRun then [] else ConfirmedInTurn(txs + [tx], |txs| + 1)
    ensures Shaped(State(st.outcomes + [o], -1, log), txs + [tx], dryRun, |txs| + 1)
  {
  }

  lemma StepSucceeds(net: Network, opts: Options, st: State, txs: seq<Built>, tx: Built)
    requires Shaped(st, txs, opts.dryRun, |txs|) && StatusOf(Decide(net, opts, |txs|, -1)) == SUCCESS
    ensures Shaped(Step(net, opts, st, tx), txs + [tx], opts.dryRun, |txs| + 1)
  {
    PollIsTerminal(net, |txs|, 0, opts.maxPollAttempts);
    var reason, r := Decide(net, opts, |txs|, -1), Step(net, opts, st, tx);
    assert reason == if opts.dryRun then DryRun else Confirmed;
    assert st.log == if opts.dryRun then [] else ConfirmedInTurn(txs, |txs|);
    assert Trace(reason, |txs|, tx) == if opts.dryRun then [] else [Sent(|txs|, tx.sequence), ReadConfirmed(|txs|)];
    SuccessLog(st.log, txs, tx, opts.dryRun);
    OneMoreSuccess(st, txs, tx, Outcome(tx.index, tx.name, SUCCESS, reason), r.log, opts.dryRun);
  }

  lemma StepBreaks(net: Network, opts: Options, st: State, txs: seq<Built>, tx: Built)
    requires Shaped(st, txs, opts.dryRun, |txs|) && StatusOf(Decide(net, opts, |txs|, -1)) != SUCCESS
    ensures Shaped(Step(net, opts, st, tx), txs + [tx], opts.dryRun, |txs|)
  {
    PollIsTerminal(net, |txs|, 0, opts.maxPollAttempts);
    InTurnPrefix(txs, tx, |txs|);
    var r, reason := Step(net, opts, st, tx), Decide(net, opts, |txs|, -1);
    assert r.outcomes[|txs|].reason == reason;
    assert st.log == if opts.dryRun then [] else ConfirmedInTurn(txs, |txs|);
  }

  /** Against any network behaviour the result has that shape. */
  lemma RunShaped(net: Network, opts: Options, txs: seq<Built>) returns (k: nat)
    ensures Shaped(Run(net, opts, txs), txs, opts.dryRun, k)
  {
    if txs == [] {
      k := 0;
    } else {
      var before, tx := txs[..|txs| - 1], txs[|txs| - 1];
      k := RunShaped(net, opts, before);
      assert before + [tx] == txs;
      if k < |before| {
        StepAfterFailure(net, opts, Run(net, opts, before), before, tx, k);
      } else if StatusOf(Decide(net, opts, |before|, -1)) == SUCCESS {
        StepSucceeds(net, opts, Run(net, opts, before), before, tx);
        k := k + 1;
      } else {
        StepBreaks(net, opts, Run(net, opts, before), before, tx);
      }
    }
  }

  // ------------------------------------------------------------------
  // Numbering
  // ------------------------------------------------------------------

  /** Transaction i is built on an account already advanced by i, and takes the next number. */
  function Number(ops: seq<Operation>, sequence: int): seq<Built> {
    if ops == [] then []
    else
      var n := |ops| - 1;
      Number(ops[..n], sequence) + [Built(n, ops[n].name, (sequence + n) + 1)]
  }

  /** The first operation without a method name fails the whole batch. */
  function FirstUnnamed(ops: seq<Operation>): (r: Option<nat>)
    ensures r.Some? ==> r.value < |ops| && ops[r.value].name == "" && forall i :: 0 <= i < r.value ==> ops[i].name != ""
    ensures r.None? ==> forall i :: 0 <= i < |ops| ==> ops[i].name != ""
  {
    if ops == [] then None
    else
      var r := FirstUnnamed(ops[..|ops| - 1]);
      if r.Some? then r else if ops[|ops| - 1].name == "" then Some(|ops| - 1) else None
  }

  method BuildBatchTransactionsSync(ops: seq<Operation>, sequence: int) returns (r: Result<seq<Built>, nat>)
    ensures r == if FirstUnnamed(ops).Some? then Err(FirstUnnamed(ops).value) else Ok(Number(ops, sequence))
  {
    var built: seq<Built> := [];
    for index := 0 to |ops|
      invariant built == Number(ops[..index], sequence)
      invariant forall i :: 0 <= i < index ==> ops[i].name != ""
    {
      assert ops[..index + 1][..index] == ops[..index];
      if ops[index].name == "" {
        return Err(index);
      }
      built := built + [Built(index, ops[index].name, (sequence + index) + 1)];
    }
    assert ops[..|ops|] == ops;
    return Ok(built);
  }

  lemma {:induction false} NumberedAt(ops: seq<Operation>, sequence: int, i: nat)
    requires i < |ops|
    ensures |Number(ops, sequence)| == |ops|
    ensures Number(ops, sequence)[i] == Built(i, ops[i].name, sequence + i + 1)
  {
    NumberSize(ops, sequence);
    var n := |ops| - 1;
    NumberSize(ops[..n], sequence);
    if i < n {
      NumberedAt(ops[..n], sequence, i);
    }
  }

  lemma {:induction false} NumberSize(ops: seq<Operation>, sequence: int)
    ensures |Number(ops, sequence)| == |ops|
  {
    if ops != [] {
      NumberSize(ops[..|ops| - 1], sequence);
    }
  }

  /** The account's sequence number after the confirmations in a log. */
  function AccountSequence(start: int, log: seq<Event>): int {
    if log == [] then start
    else AccountSequence(start, log[..|log| - 1]) + (if log[|log| - 1].ReadConfirmed? then 1 else 0)
  }

  /** Every submission carries exactly the number the account expects next. */
  ghost predicate SequencesMatch(start: int, log: seq<Event>) {
    log == [] ||
      (var before, e := log[..|log| - 1], log[|log| - 1];
       SequencesMatch(start, before) && (e.Sent? ==> e.sequence == AccountSequence(start, before) + 1))
  }

  lemma {:induction false} MatchAppend(start: int, log: seq<Event>, e: Event)
    requires SequencesMatch(start, log)
    requires e.Sent? ==> e.sequence == AccountSequence(start, log) + 1
    ensures SequencesMatch(start, log + [e])
    ensures AccountSequence(start, log + [e]) == AccountSequence(start, log) + (if e.ReadConfirmed? then 1 else 0)
  {
    assert (log + [e])[..|log|] == log;
  }

  lemma {:induction false} TurnMatches(start: int, log: seq<Event>, k: nat, q: int)
    requires SequencesMatch(start, log) && q == AccountSequence(start, log) + 1
    ensures SequencesMatch(start, log + [Sent(k, q), ReadConfirmed(k)])
    ensures AccountSequence(start, log + [Sent(k, q), ReadConfirmed(k)]) == q
  {
    MatchAppend(start, log, Sent(k, q));
    MatchAppend(start, log + [Sent(k, q)], ReadConfirmed(k));
    assert log + [Sent(k, q), ReadConfirmed(k)] == log + [Sent(k, q)] + [ReadConfirmed(k)];
  }

  ghost predicate NumberedFrom(txs: seq<Built>, start: int) {
    forall i :: 0 <= i < |txs| ==> txs[i].sequence == start + i + 1
  }

  lemma InTurnMatches(txs: seq<Built>, start: int, k: nat) returns (log: seq<Event>)
    requires k <= |txs| && NumberedFrom(txs, start)
    ensures log == ConfirmedInTurn(txs, k)
    ensures SequencesMatch(start, log) && AccountSequence(start, log) == start + k
  {
    if k == 0 {
      log := [];
    } else {
      var before := InTurnMatches(txs, start, k - 1);
      log := before + [Sent(k - 1, start + k), ReadConfirmed(k - 1)];
      TurnMatches(start, before, k - 1, start + k);
    }
  }

  lemma {:induction false} ShapedMatches(st: State, txs: seq<Built>, start: int, k: nat)
    requires Shaped(st, txs, false, k) && NumberedFrom(txs, start)
    ensures SequencesMatch(start, st.log)
  {
    var log := InTurnMatches(txs, start, k);
    if k < |txs| {
      MatchAppend(start, log, Sent(k, txs[k].sequence));
    }
    assert log + [] == log;
  }

  /**
   * When the batch was numbered from the account's current sequence, each
   * submission carries the account's next number at the moment it is made.
   */
  lemma {:induction false} SubmissionsInSequence(net: Network, opts: Options, ops: seq<Operation>, start: int)
    ensures SequencesMatch(start, Run(net, opts, Number(ops, start)).log)
  {
    var txs := Number(ops, start);
    NumberSize(ops, start);
    forall i | 0 <= i < |ops|
      ensures txs[i].sequence == start + i + 1
    {
      NumberedAt(ops, start, i);
    }
    if opts.dryRun {
      DryRunSendsNothing(net, opts, txs);
    } else {
      var k := RunShaped(net, opts, txs);
      ShapedMatches(Run(net, opts, txs), txs, start, k);
    }
  }

  lemma {:induction false} DryRunSendsNothing(net: Network, opts: Options, txs: seq<Built>)
    requires opts.dryRun
    ensures Run(net, opts, txs).log == []
  {
    if txs != [] {
      DryRunSendsNothing(net, opts, txs[..|txs| - 1]);
    }
  }

  // ------------------------------------------------------------------
  // The result object
  // ------------------------------------------------------------------

  datatype BatchResult = BatchResult(
    allSucceeded: bool, firstFailureIndex: int, outcomes: seq<Outcome>, successCount: nat, failureCount: int)

  datatype SubmitError = BadRpcUrl | PartiallySubmitted(result: BatchResult, skippedIndices: seq<nat>)

  function CountSuccesses(outcomes: seq<Outcome>): nat {
    if outcomes == [] then 0
    else CountSuccesses(outcomes[..|outcomes| - 1]) + (if outcomes[|outcomes| - 1].status == SUCCESS then 1 else 0)
  }

  function Skipped(outcomes: seq<Outcome>): seq<nat> {
    if outcomes == [] then []
    else
      var last := outcomes[|outcomes| - 1];
      Skipped(outcomes[..|outcomes| - 1]) + (if last.status == SKIPPED then [last.index] else [])
  }

  function ResultOf(st: State): BatchResult {
    var successCount := CountSuccesses(st.outcomes);
    BatchResult(st.firstFailureIndex == -1, st.firstFailureIndex, st.outcomes,
                successCount, |st.outcomes| - successCount)
  }

  lemma {:induction false} CountLeading(outcomes: seq<Outcome>, k: nat)
    requires k <= |outcomes|
    requires forall i :: 0 <= i < |outcomes| ==> (outcomes[i].status == SUCCESS <==> i < k)
    ensures CountSuccesses(outcomes) == k
  {
    if outcomes != [] {
      var n := |outcomes| - 1;
      CountLeading(outcomes[..n], Min(k, n));
    }
  }

  /** The flags and counts agree with the outcomes, and outside a dry run with the network's log. */
  lemma ResultAgrees(net: Network, opts: Options, txs: seq<Built>) returns (k: nat)
    ensures Shaped(Run(net, opts, txs), txs, opts.dryRun, k)
    ensures var r := ResultOf(Run(net, opts, txs));
            && r.successCount == k && r.failureCount == |txs| - k
            && (r.allSucceeded <==> k == |txs|)
            && (r.allSucceeded <==> forall i :: 0 <= i < |txs| ==> r.outcomes[i].status == SUCCESS)
            && (r.allSucceeded && !opts.dryRun ==> Run(net, opts, txs).log == ConfirmedInTurn(txs, |txs|))
  {
    k := RunShaped(net, opts, txs);
    var st := Run(net, opts, txs);
    CountLeading(st.outcomes, k);
  }

  /** For one run: `allSucceeded` means that the network confirmed every transaction, except in a dry run of some. */
  lemma {:induction false} SucceededMeansConfirmed(net: Network, opts: Options, txs: seq<Built>)
    requires ResultOf(Run(net, opts, txs)).allSucceeded
    ensures Run(net, opts, txs).log == ConfirmedInTurn(txs, |txs|) <==> !opts.dryRun || txs == []
  {
    var k := ResultAgrees(net, opts, txs);
    if opts.dryRun {
      DryRunSendsNothing(net, opts, txs);
    }
  }

  /** A dry run of one transaction: all succeeded, and the network was sent nothing. */
  lemma DryRunSucceedsUnconfirmed(opts: Options, tx: Built) returns (net: Network)
    requires opts.dryRun
    ensures var st := Run(net, opts, [tx]);
            && ResultOf(st).allSucceeded && st.log == []
            && ConfirmedInTurn([tx], 1) == [Sent(0, tx.sequence), ReadConfirmed(0)]
  {
    net := Network(_ => false, _ => false, _ => SendAccepted, (_, _) => PollSuccess);
    assert [tx][..0] == [] && Run(net, opts, []) == State([], -1, []);
    assert ConfirmedInTurn([tx], 0) == [];
  }

  /** The operations offered for a retry: those whose outcome failed or errored, in batch order. */
  function FailedOperations(outcomes: seq<Outcome>, txs: seq<Built>, ops: seq<Operation>): seq<Operation>
    requires forall i :: 0 <= i < |txs| ==> txs[i].index < |ops|
  {
    if txs == [] then []
    else
      var tx := txs[|txs| - 1];
      FailedOperations(outcomes, txs[..|txs| - 1], ops)
      + (if exists i :: 0 <= i < |outcomes| && Broke(outcomes[i]) && outcomes[i].index == tx.index then [ops[tx.index]]
         else [])
  }

  predicate Broke(o: Outcome) { o.status == FAILED || o.status == ERROR }

  /** After a numbered batch that is the single operation that broke, or none when the abort signal stopped it. */
  lemma RetryIsTheBrokenOne(net: Network, opts: Options, ops: seq<Operation>, start: int)
    returns (k: nat)
    ensures |Number(ops, start)| == |ops|
    ensures Shaped(Run(net, opts, Number(ops, start)), Number(ops, start), opts.dryRun, k)
    ensures forall i :: 0 <= i < |ops| ==> Number(ops, start)[i].index == i
    ensures var outcomes := Run(net, opts, Number(ops, start)).outcomes;
            FailedOperations(outcomes, Number(ops, start), ops) ==
            if k < |ops| && outcomes[k].reason != AbortedBefore then [ops[k]] else []
  {
    NumberSize(ops, start);
    forall i | 0 <= i < |ops|
      ensures Number(ops, start)[i].index == i
    {
      NumberedAt(ops, start, i);
    }
    var txs := Number(ops, start);
    k := RunShaped(net, opts, txs);
    var st := Run(net, opts, txs);
    forall i | 0 <= i < |txs|
      ensures Broke(st.outcomes[i]) <==> i == k && st.outcomes[k].reason != AbortedBefore
    {
      BrokenOne(st, txs, opts.dryRun, k, i);
    }
    FailedUpTo(st.outcomes, txs, ops, k, k < |txs| && st.outcomes[k].reason != AbortedBefore, |txs|);
    assert txs[..|txs|] == txs;
  }

  lemma BrokenOne(st: State, txs: seq<Built>, dryRun: bool, k: nat, i: nat)
    requires Shaped(st, txs, dryRun, k) && i < |txs|
    ensures Broke(st.outcomes[i]) <==> i == k && st.outcomes[k].reason != AbortedBefore
  {
  }

  lemma {:induction false} FailedUpTo(
    outcomes: seq<Outcome>, txs: seq<Built>, ops: seq<Operation>, k: nat, broke: bool, n: nat)
    requires |outcomes| == |txs| == |ops| && n <= |txs|
    requires forall i :: 0 <= i < |txs| ==> txs[i].index == i && outcomes[i].index == i
    requires forall i :: 0 <= i < |txs| ==> (Broke(outcomes[i]) <==> i == k && broke)
    ensures FailedOperations(outcomes, txs[..n], ops) == if k < n && broke then [ops[k]] else []
  {
    if n > 0 {
      FailedUpTo(outcomes, txs, ops, k, broke, n - 1);
      assert txs[..n][..n - 1] == txs[..n - 1] && txs[..n][n - 1] == txs[n - 1];
      BrokeAt(outcomes, k, broke, n - 1);
    }
  }

  lemma BrokeAt(outcomes: seq<Outcome>, k: nat, broke: bool, j: nat)
    requires j < |outcomes| && forall i :: 0 <= i < |outcomes| ==> outcomes[i].index == i
    requires forall i :: 0 <= i < |outcomes| ==> (Broke(outcomes[i]) <==> i == k && broke)
    ensures (exists i :: 0 <= i < |outcomes| && Broke(outcomes[i]) && outcomes[i].index == j) <==> j == k && broke
  {
    assert outcomes[j].index == j;
  }

  // ------------------------------------------------------------------
  // The loops
  // ------------------------------------------------------------------

  method Poll(net: Network, p: nat, maxPollAttempts: int) returns (reason: Reason)
    ensures reason == PollFrom(net, p, 0, maxPollAttempts)
  {
    var attempt: nat := 0;
    while attempt < maxPollAttempts
      invariant PollFrom(net, p, 0, maxPollAttempts) == PollFrom(net, p, attempt, maxPollAttempts)
    {
      match net.poll(p, attempt) {
        case PollAborted => return AbortedDuringPolling;
        case PollThrew => return PollFailure;
        case PollSuccess => return Confirmed;
        case PollFailed => return FailedOnChain;
        case PollPending =>
      }
      attempt := attempt + 1;
    }
    return TimedOut;
  }

  /** Progress callbacks come once per outcome, in order, except for the successes of a dry run. */
  function Reported(outcomes: seq<Outcome>): seq<Outcome> {
    if outcomes == [] then []
    else
      var last := outcomes[|outcomes| - 1];
      Reported(outcomes[..|outcomes| - 1]) + (if last.reason.DryRun? then [] else [last])
  }

  /** Skip, or sign, send and poll one transaction. */
  method Attempt(net: Network, opts: Options, p: nat, built: Built, firstFailureIndex: int)
    returns (reason: Reason, trace: seq<Event>)
    ensures reason == Decide(net, opts, p, firstFailureIndex) && trace == Trace(reason, p, built)
  {
    if firstFailureIndex != -1 {
      return AfterFailure(firstFailureIndex), [];
    }
    if net.abortedBefore(p) {
      return AbortedBefore, [];
    }
    if opts.dryRun {
      return DryRun, [];
    }
    if opts.signs && net.signThrows(p) {
      return SignFailed, [];
    }
    trace := [Sent(p, built.sequence)];
    match net.send(p) {
      case SendThrew => reason := SubmitFailed;
      case SendError => reason := Rejected;
      case SendAccepted =>
        reason := Poll(net, p, opts.maxPollAttempts);
        PollIsTerminal(net, p, 0, opts.maxPollAttempts);
        if reason.Confirmed? {
          trace := trace + [ReadConfirmed(p)];
        }
    }
  }

  lemma {:induction false} RunNext(net: Network, opts: Options, txs: seq<Built>, p: nat)
    requires p < |txs|
    ensures Run(net, opts, txs[..p + 1]) == Step(net, opts, Run(net, opts, txs[..p]), txs[p])
  {
    assert txs[..p + 1][..p] == txs[..p];
  }

  lemma {:induction false} ReportedNext(outcomes: seq<Outcome>, o: Outcome)
    ensures Reported(outcomes + [o]) == Reported(outcomes) + (if o.reason.DryRun? then [] else [o])
  {
    assert (outcomes + [o])[..|outcomes|] == outcomes;
  }

  method SubmitBatch(net: Network, txs: seq<Built>, rpcUrl: string, opts: Options)
    returns (r: Result<BatchResult, SubmitError>, log: seq<Event>, progress: seq<Outcome>)
    ensures rpcUrl == "" ==> r == Err(BadRpcUrl) && log == [] && progress == []
    ensures rpcUrl != "" ==>
      var st := Run(net, opts, txs);
      && log == st.log && progress == Reported(st.outcomes)
      && r == if (opts.throwOnError || opts.throwOnPartial) && st.firstFailureIndex != -1
              then Err(PartiallySubmitted(ResultOf(st), Skipped(st.outcomes))) else Ok(ResultOf(st))
  {
    log, progress := [], [];
    if rpcUrl == "" {
      return Err(BadRpcUrl), log, progress;
    }
    var outcomes: seq<Outcome> := [];
    var firstFailureIndex: int := -1;
    ghost var st := State([], -1, []);
    for p := 0 to |txs|
      invariant st == Run(net, opts, txs[..p])
      invariant st.outcomes == outcomes && st.firstFailureIndex == firstFailureIndex && st.log == log
      invariant |outcomes| == p && progress == Reported(outcomes)
    {
      RunNext(net, opts, txs, p);
      var built := txs[p];
      var reason, trace := Attempt(net, opts, p, built, firstFailureIndex);
      var outcome := Outcome(built.index, built.name, StatusOf(reason), reason);
      ReportedNext(outcomes, outcome);
      outcomes := outcomes + [outcome];
      log := log + trace;
      if !reason.DryRun? {
        progress := progress + [outcome];
      }
      if firstFailureIndex == -1 && outcome.status != SUCCESS {
        firstFailureIndex := built.index;
      }
      st := Step(net, opts, st, built);
    }
    assert txs[..|txs|] == txs;
    var result := ResultOf(State(outcomes, firstFailureIndex, log));
    if (opts.throwOnError || opts.throwOnPartial) && !result.allSucceeded {
      return Err(PartiallySubmitted(result, Skipped(outcomes))), log, progress;
    }
    return Ok(result), log, progress;
  }

  // ------------------------------------------------------------------
  // Chunks
  // ------------------------------------------------------------------

  function Concat<T>(chunks: seq<seq<T>>): seq<T> {
    if chunks == [] then [] else Concat(chunks[..|chunks| - 1]) + chunks[|chunks| - 1]
  }

  /** Chunks put end to end are the list; all are full but perhaps the last, and none is empty. */
  method ChunkBatchOperations<T>(items: seq<T>, maxChunkSize: int) returns (r: Result<seq<seq<T>>, string>)
    ensures r.Ok? <==> maxChunkSize >= 1
    ensures r.Ok? ==>
      && Concat(r.value) == items
      && (forall c :: 0 <= c < |r.value| ==> 1 <= |r.value[c]| <= maxChunkSize)
      && (forall c :: 0 <= c < |r.value| - 1 ==> |r.value[c]| == maxChunkSize)
  {
    if maxChunkSize < 1 {
      return Err("maxChunkSize must be a positive integer");
    }
    if |items| == 0 {
      return Ok([]);
    }
    var chunks: seq<seq<T>> := [];
    var i: nat := 0;
    while i < |items|
      invariant Concat(chunks) == items[..Min(i, |items|)]
      invariant forall c :: 0 <= c < |chunks| ==> 1 <= |chunks[c]| <= maxChunkSize
      invariant forall c :: 0 <= c < |chunks| - (if i > |items| then 1 else 0) ==> |chunks[c]| == maxChunkSize
    {
      ghost var before := chunks;
      chunks := chunks + [items[i..Min(i + maxChunkSize, |items|)]];
      assert chunks[..|chunks| - 1] == before;
      i := i + maxChunkSize;
    }
    return Ok(chunks);
  }
}
