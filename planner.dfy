/**
 * Planning a consolidation: which legacy addresses are swept into the
 * default HD account, the pending spends built for them, and the totals
 * shown on the confirmation dialog.
 */
module Planner {
  import opened WalletModel

  /** One planned transfer out of a legacy address. */
  datatype PendingSpend = PendingSpend(
    source: LegacyAddress,
    destination: string,
    fee: int,
    amount: int)

  /** What the confirmation dialog shows before the batch is sent. */
  datatype Confirmation = Confirmation(addressCount: nat, fee: int, total: int)

  /** The balance test: what is left after the flat fee must exceed dust. */
  predicate AboveDust(a: LegacyAddress, balances: map<string, int>)
  {
    BalanceOf(balances, a.address) - AVERAGE_FEE > DUST
  }

  /** The test that offers the transfer option; it does not look at the tag. */
  predicate Offerable(a: LegacyAddress, balances: map<string, int>)
  {
    !a.watchOnly && AboveDust(a, balances)
  }

  /** The test that puts an address into the plan. */
  predicate Sweepable(a: LegacyAddress, balances: map<string, int>)
  {
    !a.watchOnly && a.tag != ARCHIVED_ADDRESS && AboveDust(a, balances)
  }

  predicate AnyOfferable(legacy: seq<LegacyAddress>, balances: map<string, int>)
  {
    exists i :: 0 <= i < |legacy| && Offerable(legacy[i], balances)
  }

  /** The spend planned for `a`: the whole balance less the flat fee. */
  function SpendFrom(a: LegacyAddress, balances: map<string, int>, destination: string): PendingSpend
  {
    PendingSpend(a, destination, AVERAGE_FEE, BalanceOf(balances, a.address) - AVERAGE_FEE)
  }

  /**
   * The plan built from the first `n` legacy addresses. The k-th spend
   * is sent to `receive(k)`, the address the k-th derivation returns.
   */
  function Plan(legacy: seq<LegacyAddress>, balances: map<string, int>,
                receive: nat -> string, n: nat): seq<PendingSpend>
    requires n <= |legacy|
  {
    if n == 0 then []
    else
      var p := Plan(legacy, balances, receive, n - 1);
      if Sweepable(legacy[n - 1], balances)
      then p + [SpendFrom(legacy[n - 1], balances, receive(|p|))]
      else p
  }

  /** Positions, among the first `n`, of the addresses the plan sweeps. */
  function SweptPositions(legacy: seq<LegacyAddress>, balances: map<string, int>, n: nat): seq<int>
    requires n <= |legacy|
  {
    if n == 0 then []
    else
      SweptPositions(legacy, balances, n - 1)
      + (if Sweepable(legacy[n - 1], balances) then [n - 1] else [])
  }

  /** Sum of the balances of the swept addresses among the first `n`. */
  function SweptBalance(legacy: seq<LegacyAddress>, balances: map<string, int>, n: nat): int
    requires n <= |legacy|
  {
    if n == 0 then 0
    else
      SweptBalance(legacy, balances, n - 1)
      + (if Sweepable(legacy[n - 1], balances) then BalanceOf(balances, legacy[n - 1].address) else 0)
  }

  /** The running total `totalToSend`: the sum of the planned amounts. */
  function TotalAmount(spends: seq<PendingSpend>): int
  {
    if spends == [] then 0
    else TotalAmount(spends[..|spends| - 1]) + spends[|spends| - 1].amount
  }

  function ConfirmationOf(spends: seq<PendingSpend>, totalToSend: int): Confirmation
  {
    Confirmation(|spends|, AVERAGE_FEE * |spends|, totalToSend + AVERAGE_FEE * |spends|)
  }

  lemma TotalAmountAppend(spends: seq<PendingSpend>, s: PendingSpend)
    ensures TotalAmount(spends + [s]) == TotalAmount(spends) + s.amount
  {
    assert (spends + [s])[..|spends|] == spends;
  }

  /**
   * The swept positions are exactly the sweepable ones, each once, in
   * list order.
   */
  lemma {:induction false} SweptPositionsExact(legacy: seq<LegacyAddress>, balances: map<string, int>, n: nat)
    requires n <= |legacy|
    ensures forall k :: 0 <= k < |SweptPositions(legacy, balances, n)| ==>
              0 <= SweptPositions(legacy, balances, n)[k] < n
              && Sweepable(legacy[SweptPositions(legacy, balances, n)[k]], balances)
    ensures forall k1, k2 :: 0 <= k1 < k2 < |SweptPositions(legacy, balances, n)| ==>
              SweptPositions(legacy, balances, n)[k1] < SweptPositions(legacy, balances, n)[k2]
    ensures forall i :: 0 <= i < n ==>
              (Sweepable(legacy[i], balances) <==> i in SweptPositions(legacy, balances, n))
  {
    if n > 0 {
      SweptPositionsExact(legacy, balances, n - 1);
      var p := SweptPositions(legacy, balances, n - 1);
      var last: seq<int> := if Sweepable(legacy[n - 1], balances) then [n - 1] else [];
      assert SweptPositions(legacy, balances, n) == p + last;
      forall i | 0 <= i < n
        ensures Sweepable(legacy[i], balances) <==> i in p + last
      {
        if i < n - 1 {
          assert i !in last;
        }
      }
    }
  }

  /**
   * The k-th pending spend comes from the k-th swept address, carries the
   * flat fee, sends the balance less the fee, and goes to `receive(k)`.
   */
  lemma {:induction false} PlanFollowsPositions(legacy: seq<LegacyAddress>, balances: map<string, int>,
                                                receive: nat -> string, n: nat)
    requires n <= |legacy|
    ensures |Plan(legacy, balances, receive, n)| == |SweptPositions(legacy, balances, n)|
    ensures forall k :: 0 <= k < |Plan(legacy, balances, receive, n)| ==>
              0 <= SweptPositions(legacy, balances, n)[k] < |legacy|
              && Plan(legacy, balances, receive, n)[k]
                 == SpendFrom(legacy[SweptPositions(legacy, balances, n)[k]], balances, receive(k))
  {
    if n > 0 {
      PlanFollowsPositions(legacy, balances, receive, n - 1);
      SweptPositionsExact(legacy, balances, n);
    }
  }

  /** Every planned spend comes from a sweepable address and has the fee and amount the plan promises. */
  lemma PlanSpendsAreSweepable(legacy: seq<LegacyAddress>, balances: map<string, int>, receive: nat -> string)
    ensures forall k :: 0 <= k < |Plan(legacy, balances, receive, |legacy|)| ==>
              var s := Plan(legacy, balances, receive, |legacy|)[k];
              Sweepable(s.source, balances) && s.source in legacy
              && s.fee == AVERAGE_FEE
              && s.amount == BalanceOf(balances, s.source.address) - AVERAGE_FEE
              && s.amount > DUST
              && s.destination == receive(k)
  {
    PlanFollowsPositions(legacy, balances, receive, |legacy|);
    SweptPositionsExact(legacy, balances, |legacy|);
  }

  /**
   * The confirmation dialog: the fee shown is the flat fee once per spend,
   * and the total shown is the sum of the swept addresses' balances.
   */
  lemma {:induction false} ConfirmationTotals(legacy: seq<LegacyAddress>, balances: map<string, int>,
                                              receive: nat -> string, n: nat)
    requires n <= |legacy|
    ensures var p := Plan(legacy, balances, receive, n);
            ConfirmationOf(p, TotalAmount(p))
            == Confirmation(|p|, AVERAGE_FEE * |p|, SweptBalance(legacy, balances, n))
  {
    if n > 0 {
      ConfirmationTotals(legacy, balances, receive, n - 1);
      var p := Plan(legacy, balances, receive, n - 1);
      if Sweepable(legacy[n - 1], balances) {
        TotalAmountAppend(p, SpendFrom(legacy[n - 1], balances, receive(|p|)));
      }
    }
  }

  /** A non-empty plan means the transfer option was offered. */
  lemma PlanImpliesOffer(legacy: seq<LegacyAddress>, balances: map<string, int>, receive: nat -> string)
    requires Plan(legacy, balances, receive, |legacy|) != []
    ensures AnyOfferable(legacy, balances)
  {
    PlanFollowsPositions(legacy, balances, receive, |legacy|);
    SweptPositionsExact(legacy, balances, |legacy|);
    var i := SweptPositions(legacy, balances, |legacy|)[0];
    assert Offerable(legacy[i], balances);
  }

  /**
   * The converse fails: a funded archived address offers the transfer,
   * yet the plan it produces is empty.
   */
  lemma OfferWithoutPlan(receive: nat -> string)
    ensures var legacy := [LegacyAddress("1Archived", "", ARCHIVED_ADDRESS, false, PlainKey([1]))];
            var balances := map["1Archived" := 100000];
            AnyOfferable(legacy, balances) && Plan(legacy, balances, receive, |legacy|) == []
  {
    var legacy := [LegacyAddress("1Archived", "", ARCHIVED_ADDRESS, false, PlainKey([1]))];
    var balances := map["1Archived" := 100000];
    assert Offerable(legacy[0], balances);
  }
}
