/**
 * What a batch reports against what the network, the signer and the abort
 * signal answered (src/batch-tx.ts, 718-845): every outcome is determined by
 * the answers alone.
 */
module BatchAnswers {
  import opened Common
  import opened BatchSubmission

  // ------------------------------------------------------------------
  // What the answers say of one transaction
  // ------------------------------------------------------------------

  /** The a-th poll is the first whose answer is not "still pending", and it is within the limit. */
  ghost predicate FirstAnswer(net: Network, p: nat, max: int, a: nat) {
    a < max && !net.poll(p, a).PollPending? && forall b: nat :: b < a ==> net.poll(p, b).PollPending?
  }

  ghost predicate Answered(net: Network, p: nat, max: int, answer: Polling) {
    exists a :: FirstAnswer(net, p, max, a) && net.poll(p, a) == answer
  }

  ghost predicate NeverAnswered(net: Network, p: nat, max: int) {
    forall a: nat :: a < max ==> net.poll(p, a).PollPending?
  }

  /** Accepted by the network and then seen as successful on-chain. */
  ghost predicate ConfirmedBy(net: Network, opts: Options, p: nat) {
    net.send(p).SendAccepted? && Answered(net, p, opts.maxPollAttempts, PollSuccess)
  }

  predicate Signed(net: Network, opts: Options, p: nat) {
    opts.signs ==> !net.signThrows(p)
  }

  ghost predicate Succeeds(net: Network, opts: Options, p: nat) {
    !net.abortedBefore(p) && (opts.dryRun || (Signed(net, opts, p) && ConfirmedBy(net, opts, p)))
  }

  /** Rejected when sent, or failed on-chain. */
  ghost predicate FailedBy(net: Network, opts: Options, p: nat) {
    && !net.abortedBefore(p) && !opts.dryRun && Signed(net, opts, p)
    && (net.send(p).SendError?
        || (net.send(p).SendAccepted? && Answered(net, p, opts.maxPollAttempts, PollFailed)))
  }

  /** Not signed, not sent, no longer polled because of an error or the abort signal, or never answered. */
  ghost predicate ErredBy(net: Network, opts: Options, p: nat) {
    && !net.abortedBefore(p) && !opts.dryRun
    && (|| !Signed(net, opts, p)
        || net.send(p).SendThrew?
        || (&& net.send(p).SendAccepted?
            && (|| Answered(net, p, opts.maxPollAttempts, PollAborted)
                || Answered(net, p, opts.maxPollAttempts, PollThrew)
                || NeverAnswered(net, p, opts.maxPollAttempts))))
  }

  lemma OneAnswer(net: Network, p: nat, max: int, a: nat, answer: Polling)
    requires FirstAnswer(net, p, max, a)
    ensures Answered(net, p, max, answer) <==> net.poll(p, a) == answer
    ensures !NeverAnswered(net, p, max)
  {
    if Answered(net, p, max, answer) {
      var b: nat :| FirstAnswer(net, p, max, b) && net.poll(p, b) == answer;
      assert b < a ==> net.poll(p, b).PollPending?;
      assert a < b ==> net.poll(p, a).PollPending?;
    }
  }

  lemma {:induction false} PollingByAnswers(net: Network, p: nat, attempt: nat, max: int)
    requires forall b: nat :: b < attempt ==> net.poll(p, b).PollPending?
    ensures var r := PollFrom(net, p, attempt, max);
            && (r.Confirmed? <==> Answered(net, p, max, PollSuccess))
            && (r.FailedOnChain? <==> Answered(net, p, max, PollFailed))
            && (r.AbortedDuringPolling? <==> Answered(net, p, max, PollAborted))
            && (r.PollFailure? <==> Answered(net, p, max, PollThrew))
            && (r.TimedOut? <==> NeverAnswered(net, p, max))
    decreases max - attempt
  {
    if attempt < max {
      if net.poll(p, attempt).PollPending? {
        PollingByAnswers(net, p, attempt + 1, max);
      } else {
        forall answer: Polling
          ensures Answered(net, p, max, answer) <==> net.poll(p, attempt) == answer
        {
          OneAnswer(net, p, max, attempt, answer);
        }
        OneAnswer(net, p, max, attempt, PollSuccess);
      }
    }
  }

  lemma DecidedByAnswers(net: Network, opts: Options, p: nat)
    ensures var status := StatusOf(Decide(net, opts, p, -1));
            && (status == SUCCESS <==> Succeeds(net, opts, p))
            && (status == FAILED <==> FailedBy(net, opts, p))
            && (status == ERROR <==> ErredBy(net, opts, p))
            && (status == SKIPPED <==> net.abortedBefore(p))
  {
    PollingByAnswers(net, p, 0, opts.maxPollAttempts);
    PollIsTerminal(net, p, 0, opts.maxPollAttempts);
  }

  // ------------------------------------------------------------------
  // What the answers say of a batch
  // ------------------------------------------------------------------

  /** The batch gets as far as transaction i. */
  ghost predicate Reached(net: Network, opts: Options, i: nat) {
    forall j: nat :: j < i ==> Succeeds(net, opts, j)
  }

  lemma ReachedNext(net: Network, opts: Options, i: nat)
    ensures Reached(net, opts, i + 1) <==> Reached(net, opts, i) && Succeeds(net, opts, i)
  {
  }

  lemma {:induction false} RunDecides(net: Network, opts: Options, txs: seq<Built>, i: nat)
    requires i < |txs|
    ensures |Run(net, opts, txs).outcomes| == |txs|
    ensures Run(net, opts, txs).outcomes[i].reason == Decide(net, opts, i, Run(net, opts, txs[..i]).firstFailureIndex)
  {
    RunSize(net, opts, txs);
    var n := |txs| - 1;
    RunSize(net, opts, txs[..n]);
    if i < n {
      RunDecides(net, opts, txs[..n], i);
      assert txs[..n][..i] == txs[..i];
    }
  }

  lemma {:induction false} RunSize(net: Network, opts: Options, txs: seq<Built>)
    ensures |Run(net, opts, txs).outcomes| == |txs|
  {
    if txs != [] {
      RunSize(net, opts, txs[..|txs| - 1]);
    }
  }

  /** No failure is on record exactly while every transaction so far succeeds by the answers. */
  lemma {:induction false} NoFailureYet(net: Network, opts: Options, txs: seq<Built>)
    ensures Run(net, opts, txs).firstFailureIndex == -1 <==> Reached(net, opts, |txs|)
  {
    if txs != [] {
      var n := |txs| - 1;
      NoFailureYet(net, opts, txs[..n]);
      ReachedNext(net, opts, n);
      FailureNext(net, opts, txs);
    }
  }

  lemma {:induction false} FailureNext(net: Network, opts: Options, txs: seq<Built>)
    requires txs != []
    ensures var n := |txs| - 1;
            Run(net, opts, txs).firstFailureIndex == -1 <==>
            Run(net, opts, txs[..n]).firstFailureIndex == -1 && Succeeds(net, opts, n)
  {
    RunSize(net, opts, txs[..|txs| - 1]);
    DecidedByAnswers(net, opts, |txs| - 1);
  }

  /**
   * Every outcome follows from the answers: after one that did not succeed all
   * are skipped; the others succeeded, failed, erred or were aborted as answered.
   */
  lemma {:induction false} OutcomeByAnswers(net: Network, opts: Options, txs: seq<Built>, i: nat)
    requires i < |txs|
    ensures |Run(net, opts, txs).outcomes| == |txs|
    ensures var status := Run(net, opts, txs).outcomes[i].status;
            && (status == SUCCESS <==> Reached(net, opts, i) && Succeeds(net, opts, i))
            && (status == FAILED <==> Reached(net, opts, i) && FailedBy(net, opts, i))
            && (status == ERROR <==> Reached(net, opts, i) && ErredBy(net, opts, i))
            && (status == SKIPPED <==> !Reached(net, opts, i) || net.abortedBefore(i))
  {
    RunDecides(net, opts, txs, i);
    NoFailureYet(net, opts, txs[..i]);
    DecidedByAnswers(net, opts, i);
    var k := RunShaped(net, opts, txs);
  }

  /** `allSucceeded`, from the answers alone. */
  lemma {:induction false} AllSucceededExactly(net: Network, opts: Options, txs: seq<Built>)
    ensures ResultOf(Run(net, opts, txs)).allSucceeded <==> forall i: nat :: i < |txs| ==> Succeeds(net, opts, i)
  {
    NoFailureYet(net, opts, txs);
  }

  /** How far the batch gets: to the first transaction that does not succeed, or to the end. */
  lemma BatchStops(net: Network, opts: Options, txs: seq<Built>) returns (k: nat)
    ensures k <= |txs| == |Run(net, opts, txs).outcomes|
    ensures forall i: nat :: i <= |txs| ==> (i <= k <==> Reached(net, opts, i))
    ensures k < |txs| ==> !Succeeds(net, opts, k)
    ensures Run(net, opts, txs).firstFailureIndex == if k < |txs| then txs[k].index else -1
    ensures forall i :: 0 <= i < |txs| ==> (Run(net, opts, txs).outcomes[i].reason.DryRun? <==> opts.dryRun && i < k)
    ensures forall i :: 0 <= i < |txs| ==> Run(net, opts, txs).outcomes[i].index == txs[i].index
    ensures Run(net, opts, txs).log ==
            (if opts.dryRun then [] else ConfirmedInTurn(txs, k))
            + (if k < |txs| && WasSent(Decide(net, opts, k, -1)) then [Sent(k, txs[k].sequence)] else [])
  {
    k := RunShaped(net, opts, txs);
    forall i: nat | i <= |txs|
      ensures i <= k <==> Reached(net, opts, i)
    {
      ReachedUpTo(net, opts, txs, k, i);
    }
    if k < |txs| {
      OutcomeByAnswers(net, opts, txs, k);
      RunDecides(net, opts, txs, k);
      NoFailureYet(net, opts, txs[..k]);
    }
  }

  lemma {:induction false} ReachedUpTo(net: Network, opts: Options, txs: seq<Built>, k: nat, i: nat)
    requires Shaped(Run(net, opts, txs), txs, opts.dryRun, k) && i <= |txs|
    ensures i <= k <==> Reached(net, opts, i)
  {
    forall j: nat | j < k
      ensures Succeeds(net, opts, j)
    {
      OutcomeByAnswers(net, opts, txs, j);
    }
    if k < |txs| {
      OutcomeByAnswers(net, opts, txs, k);
    }
  }

  /** The first failure reported is the first transaction that does not succeed by the answers. */
  lemma {:induction false} FirstFailureByAnswers(net: Network, opts: Options, txs: seq<Built>, k: nat)
    requires k < |txs| && Reached(net, opts, k) && !Succeeds(net, opts, k)
    ensures Run(net, opts, txs).firstFailureIndex == txs[k].index
  {
    var m := BatchStops(net, opts, txs);
    assert Reached(net, opts, k) && !Reached(net, opts, k + 1);
  }

  // ------------------------------------------------------------------
  // What reached the network
  // ------------------------------------------------------------------

  lemma {:induction false} InTurnHolds(txs: seq<Built>, k: nat, e: Event)
    requires k <= |txs|
    ensures e in ConfirmedInTurn(txs, k) <==>
            match e
            case Sent(i, sequence) => i < k && sequence == txs[i].sequence
            case ReadConfirmed(i) => i < k
  {
    if k > 0 {
      InTurnHolds(txs, k - 1, e);
    }
  }

  lemma SentByAnswers(net: Network, opts: Options, p: nat)
    ensures WasSent(Decide(net, opts, p, -1)) <==>
            !net.abortedBefore(p) && !opts.dryRun && Signed(net, opts, p)
  {
    PollIsTerminal(net, p, 0, opts.maxPollAttempts);
  }

  /** A transaction is sent, with its number, exactly if the batch reaches it and it is not stopped before. */
  lemma {:induction false} SentExactly(net: Network, opts: Options, txs: seq<Built>, i: nat, sequence: int)
    ensures Sent(i, sequence) in Run(net, opts, txs).log <==>
            && i < |txs| && sequence == txs[i].sequence && Reached(net, opts, i)
            && !net.abortedBefore(i) && !opts.dryRun && Signed(net, opts, i)
  {
    var k := BatchStops(net, opts, txs);
    var last := k < |txs| && WasSent(Decide(net, opts, k, -1));
    InTurnHolds(txs, k, Sent(i, sequence));
    SentByAnswers(net, opts, k);
    assert Sent(i, sequence) in Run(net, opts, txs).log <==>
           || (!opts.dryRun && i < k && sequence == txs[i].sequence)
           || (last && i == k && sequence == txs[k].sequence);
    if i < |txs| {
      ReachedNext(net, opts, i);
      assert i < k <==> Reached(net, opts, i + 1);
    }
  }

  /** A confirmation is read back exactly for those the network confirmed. */
  lemma {:induction false} ConfirmedExactly(net: Network, opts: Options, txs: seq<Built>, i: nat)
    ensures ReadConfirmed(i) in Run(net, opts, txs).log <==>
            i < |txs| && !opts.dryRun && Reached(net, opts, i) && Succeeds(net, opts, i)
  {
    var k := BatchStops(net, opts, txs);
    InTurnHolds(txs, k, ReadConfirmed(i));
    ReachedNext(net, opts, i);
    assert i < |txs| ==> (i < k <==> Reached(net, opts, i + 1));
  }

  // ------------------------------------------------------------------
  // Confirmed on-chain
  // ------------------------------------------------------------------

  /** Outside a dry run, `allSucceeded` means that the network accepted and confirmed every transaction, in turn. */
  lemma {:induction false} SucceededIsConfirmed(net: Network, opts: Options, txs: seq<Built>)
    requires !opts.dryRun && ResultOf(Run(net, opts, txs)).allSucceeded
    ensures forall i: nat :: i < |txs| ==> ConfirmedBy(net, opts, i)
    ensures Run(net, opts, txs).log == ConfirmedInTurn(txs, |txs|)
  {
    AllSucceededExactly(net, opts, txs);
    SucceededMeansConfirmed(net, opts, txs);
    forall i: nat | i < |txs|
      ensures ConfirmedBy(net, opts, i)
    {
      assert Succeeds(net, opts, i);
    }
  }

  /** A dry run of one transaction on a network that refuses everything. */
  lemma DryRunUnconfirmed(opts: Options, tx: Built) returns (net: Network)
    requires opts.dryRun
    ensures ResultOf(Run(net, opts, [tx])).allSucceeded && !ConfirmedBy(net, opts, 0)
  {
    net := Network(_ => false, _ => false, _ => SendError, (_, _) => PollFailed);
    AllSucceededExactly(net, opts, [tx]);
  }

  /** `allSucceeded` means "confirmed on-chain" for every network and every batch exactly without `dryRun`. */
  lemma {:induction false} SucceededIsConfirmedExactly(opts: Options)
    ensures (forall net: Network, txs: seq<Built> :: ResultOf(Run(net, opts, txs)).allSucceeded ==>
              && (forall i: nat :: i < |txs| ==> ConfirmedBy(net, opts, i))
              && Run(net, opts, txs).log == ConfirmedInTurn(txs, |txs|))
            <==> !opts.dryRun
  {
    if opts.dryRun {
      var net := DryRunUnconfirmed(opts, Built(0, "", 0));
    } else {
      forall net: Network, txs: seq<Built> | ResultOf(Run(net, opts, txs)).allSucceeded
        ensures (forall i: nat :: i < |txs| ==> ConfirmedBy(net, opts, i))
        ensures Run(net, opts, txs).log == ConfirmedInTurn(txs, |txs|)
      {
        SucceededIsConfirmed(net, opts, txs);
      }
    }
  }

  // ------------------------------------------------------------------
  // What callers are told besides
  // ------------------------------------------------------------------

  /** Progress is reported for every outcome in order, except for the successes of a dry run. */
  lemma ProgressExactly(net: Network, opts: Options, txs: seq<Built>) returns (k: nat)
    ensures k <= |txs| == |Run(net, opts, txs).outcomes|
    ensures Reached(net, opts, k) && (k < |txs| ==> !Succeeds(net, opts, k))
    ensures Reported(Run(net, opts, txs).outcomes) ==
            if opts.dryRun then Run(net, opts, txs).outcomes[k..] else Run(net, opts, txs).outcomes
  {
    k := BatchStops(net, opts, txs);
    var outcomes := Run(net, opts, txs).outcomes;
    ReportedFrom(outcomes, if opts.dryRun then k else 0);
    assert outcomes[0..] == outcomes;
  }

  lemma {:induction false} ReportedFrom(outcomes: seq<Outcome>, k: nat)
    requires k <= |outcomes| && forall i :: 0 <= i < |outcomes| ==> (outcomes[i].reason.DryRun? <==> i < k)
    ensures Reported(outcomes) == outcomes[k..]
  {
    if outcomes != [] {
      var front, last := outcomes[..|outcomes| - 1], outcomes[|outcomes| - 1];
      assert outcomes == front + [last];
      ReportedNext(front, last);
      ReportedFrom(front, Min(k, |front|));
    }
  }

  /** The skipped indexes of the thrown error: all after the first failure, and it too if it was aborted before. */
  lemma SkippedExactly(net: Network, opts: Options, txs: seq<Built>) returns (k: nat)
    ensures k <= |txs| && Reached(net, opts, k) && (k < |txs| ==> !Succeeds(net, opts, k))
    ensures Skipped(Run(net, opts, txs).outcomes) ==
            IndexesFrom(txs, if k < |txs| && !net.abortedBefore(k) then k + 1 else k)
  {
    k := BatchStops(net, opts, txs);
    var from := if k < |txs| && !net.abortedBefore(k) then k + 1 else k;
    forall i: nat | i < |txs|
      ensures Run(net, opts, txs).outcomes[i].status == SKIPPED <==> i >= from
    {
      OutcomeByAnswers(net, opts, txs, i);
      ReachedNext(net, opts, i);
      assert i < k <==> Reached(net, opts, i) && Succeeds(net, opts, i);
    }
    SkippedFrom(Run(net, opts, txs).outcomes, txs, from);
  }

  /** The indexes of the transactions from position `from` on. */
  function IndexesFrom(txs: seq<Built>, from: nat): (r: seq<nat>)
    ensures |r| == Max(0, |txs| - from)
    ensures forall i :: 0 <= i < |r| ==> r[i] == txs[from + i].index
  {
    if |txs| <= from then [] else IndexesFrom(txs[..|txs| - 1], from) + [txs[|txs| - 1].index]
  }

  lemma {:induction false} SkippedFrom(outcomes: seq<Outcome>, txs: seq<Built>, from: nat)
    requires |outcomes| == |txs| && from <= |txs|
    requires forall i :: 0 <= i < |txs| ==> outcomes[i].index == txs[i].index
    requires forall i :: 0 <= i < |txs| ==> (outcomes[i].status == SKIPPED <==> i >= from)
    ensures Skipped(outcomes) == IndexesFrom(txs, from)
  {
    if txs != [] {
      SkippedFrom(outcomes[..|txs| - 1], txs[..|txs| - 1], Min(from, |txs| - 1));
    }
  }
}
