/**
 * Sending a consolidation plan: the spends are tried one after another in
 * plan order; each fails on its own, each success debits the aggregate
 * legacy balance, and only a successful final spend saves the payload.
 */
module Consolidation {
  import opened WalletModel
  import opened Planner

  /** What the unspent-output selection returns for a spend. */
  datatype Unspents =
    | NoUnspents                       // nothing to spend (or the lookup failed)
    | Bundle(notice: Option<string>)   // outputs found, with an optional advisory notice

  /** How the send callback ends. */
  datatype Broadcast =
    | Sent(hash: string)
    | Failed(error: string)
    | FailedPermanently(error: string)

  /** What the network does with one pending spend. */
  datatype Attempt = Attempt(unspents: Unspents, broadcast: Broadcast)

  datatype SpendOutcome =
    | NoConfirmedFunds                               // skipped, with a notice
    | Executed(notice: Option<string>, result: Broadcast)

  /** What the user is told about one pending spend. */
  datatype SpendReport = SpendReport(
    source: string,
    selectionTarget: int,
    isLast: bool,
    outcome: SpendOutcome)

  /** The part of the wallet state a send changes. */
  datatype Ledger = Ledger(legacyBalance: int, tempPassword: string, saveRequests: nat)

  function LedgerOf(w: Wallet): Ledger
    reads w
  {
    Ledger(w.legacyBalance, w.tempPassword, w.saveRequests)
  }

  predicate Succeeds(a: Attempt)
  {
    a.unspents.Bundle? && a.broadcast.Sent?
  }

  /** The outcome callbacks of one send. */
  function AfterSend(l: Ledger, s: PendingSpend, result: Broadcast, isLast: bool): Ledger
  {
    match result
    case Sent(_) =>
      var debited := l.(legacyBalance := l.legacyBalance - (s.amount + s.fee));
      if isLast then debited.(tempPassword := "", saveRequests := l.saveRequests + 1) else debited
    case Failed(_) => l
    case FailedPermanently(_) => l.(tempPassword := "")
  }

  /** One pending spend: skipped without unspent outputs, sent otherwise. */
  function Step(l: Ledger, s: PendingSpend, a: Attempt, isLast: bool): Ledger
  {
    if a.unspents.NoUnspents? then l else AfterSend(l, s, a.broadcast, isLast)
  }

  /** The ledger after the first `n` pending spends of the batch. */
  function Run(l: Ledger, spends: seq<PendingSpend>, attempts: seq<Attempt>, n: nat): Ledger
    requires |attempts| == |spends| && n <= |spends|
  {
    if n == 0 then l
    else Step(Run(l, spends, attempts, n - 1), spends[n - 1], attempts[n - 1], n == |spends|)
  }

  function ReportOf(s: PendingSpend, a: Attempt, isLast: bool): SpendReport
  {
    SpendReport(s.source.address, s.amount + AVERAGE_FEE, isLast,
                if a.unspents.NoUnspents? then NoConfirmedFunds else Executed(a.unspents.notice, a.broadcast))
  }

  /** The reports of the first `n` pending spends. */
  function Reports(spends: seq<PendingSpend>, attempts: seq<Attempt>, n: nat): seq<SpendReport>
    requires |attempts| == |spends| && n <= |spends|
  {
    if n == 0 then []
    else Reports(spends, attempts, n - 1) + [ReportOf(spends[n - 1], attempts[n - 1], n == |spends|)]
  }

  /** The list is rebuilt and the transfer option hidden only after a successful final spend. */
  predicate Refreshes(spends: seq<PendingSpend>, attempts: seq<Attempt>)
    requires |attempts| == |spends|
  {
    |spends| > 0 && Succeeds(attempts[|spends| - 1])
  }

  /** Amount plus fee of every spend among the first `n` that was sent. */
  function SentCost(spends: seq<PendingSpend>, attempts: seq<Attempt>, n: nat): int
    requires |attempts| == |spends| && n <= |spends|
  {
    if n == 0 then 0
    else SentCost(spends, attempts, n - 1)
         + (if Succeeds(attempts[n - 1]) then spends[n - 1].amount + spends[n - 1].fee else 0)
  }

  /** Some spend among the first `n` reached the network and failed for good. */
  predicate FailedForGood(attempts: seq<Attempt>, n: nat)
    requires n <= |attempts|
  {
    exists k :: 0 <= k < n && attempts[k].unspents.Bundle? && attempts[k].broadcast.FailedPermanently?
  }

  /**
   * Every pending spend is tried, in plan order; the selection target is
   * the amount plus the flat fee; exactly the final one is flagged last;
   * a spend without unspent outputs is reported and skipped; otherwise the
   * advisory notice and the broadcast result are reported.
   */
  lemma {:induction false} ReportsFollowPlan(spends: seq<PendingSpend>, attempts: seq<Attempt>, n: nat)
    requires |attempts| == |spends| && n <= |spends|
    ensures |Reports(spends, attempts, n)| == n
    ensures forall k :: 0 <= k < n ==>
              var r := Reports(spends, attempts, n)[k];
              r.source == spends[k].source.address
              && r.selectionTarget == spends[k].amount + AVERAGE_FEE
              && (r.isLast <==> k == |spends| - 1)
              && (r.outcome == NoConfirmedFunds <==> attempts[k].unspents == NoUnspents)
              && (attempts[k].unspents.Bundle? ==>
                    r.outcome == Executed(attempts[k].unspents.notice, attempts[k].broadcast))
  {
    if n > 0 {
      ReportsFollowPlan(spends, attempts, n - 1);
    }
  }

  /** The aggregate balance drops by exactly amount plus fee per sent spend, with no floor at zero. */
  lemma {:induction false} RunDebitsSentSpends(l: Ledger, spends: seq<PendingSpend>, attempts: seq<Attempt>, n: nat)
    requires |attempts| == |spends| && n <= |spends|
    ensures Run(l, spends, attempts, n).legacyBalance == l.legacyBalance - SentCost(spends, attempts, n)
  {
    if n > 0 {
      RunDebitsSentSpends(l, spends, attempts, n - 1);
    }
  }

  /** The payload is saved once, and only when the final spend is sent. */
  lemma {:induction false} RunSavesOnlyAfterLast(l: Ledger, spends: seq<PendingSpend>, attempts: seq<Attempt>, n: nat)
    requires |attempts| == |spends| && n <= |spends|
    ensures Run(l, spends, attempts, n).saveRequests
            == l.saveRequests + (if n == |spends| && Refreshes(spends, attempts) then 1 else 0)
  {
    if n > 0 {
      RunSavesOnlyAfterLast(l, spends, attempts, n - 1);
    }
  }

  /**
   * The second password is cleared by a permanent failure anywhere in the
   * batch or by a successful final spend, and is kept otherwise.
   */
  lemma {:induction false} RunClearsPassword(l: Ledger, spends: seq<PendingSpend>, attempts: seq<Attempt>, n: nat)
    requires |attempts| == |spends| && n <= |spends|
    ensures Run(l, spends, attempts, n).tempPassword
            == if FailedForGood(attempts, n) || (n == |spends| && Refreshes(spends, attempts))
               then "" else l.tempPassword
  {
    if n > 0 {
      RunClearsPassword(l, spends, attempts, n - 1);
      var k := n - 1;
      if attempts[k].unspents.Bundle? && attempts[k].broadcast.FailedPermanently? {
        assert FailedForGood(attempts, n);
      }
      if FailedForGood(attempts, n - 1) {
        var j :| 0 <= j < n - 1 && attempts[j].unspents.Bundle? && attempts[j].broadcast.FailedPermanently?;
        assert FailedForGood(attempts, n);
      }
    }
  }

  /** One failing spend does not stop the ones after it: a successful third spend is debited. */
  lemma MiddleFailureDoesNotStopBatch(a: PendingSpend, b: PendingSpend, c: PendingSpend, l: Ledger)
    ensures var attempts := [Attempt(Bundle(None), Sent("h1")), Attempt(Bundle(None), Failed("e")),
                             Attempt(Bundle(None), Sent("h3"))];
            var r := Run(l, [a, b, c], attempts, 3);
            r.legacyBalance == l.legacyBalance - (a.amount + a.fee) - (c.amount + c.fee)
            && r.saveRequests == l.saveRequests + 1 && r.tempPassword == ""
  {
    var spends := [a, b, c];
    var attempts := [Attempt(Bundle(None), Sent("h1")), Attempt(Bundle(None), Failed("e")),
                     Attempt(Bundle(None), Sent("h3"))];
    RunDebitsSentSpends(l, spends, attempts, 3);
    RunSavesOnlyAfterLast(l, spends, attempts, 3);
    RunClearsPassword(l, spends, attempts, 3);
    assert SentCost(spends, attempts, 1) == a.amount + a.fee;
    assert SentCost(spends, attempts, 2) == a.amount + a.fee;
    assert SentCost(spends, attempts, 3) == a.amount + a.fee + (c.amount + c.fee);
  }

  /** The debit is not clamped: sending more than the cached aggregate leaves it negative. */
  lemma DebitCanGoNegative(s: PendingSpend)
    requires s.fee == AVERAGE_FEE && s.amount > DUST
    ensures Run(Ledger(0, "", 0), [s], [Attempt(Bundle(None), Sent("h"))], 1).legacyBalance < 0
  {
  }
}
