/**
  When each merchandise operation is carried out, what a payment in time and a payment too late come to, and what an
  operation leaves behind: in terms of the rows and of the clock.
*/
module MerchOutcomes {
  import opened Common
  import opened Merch
  import opened MerchRuns

  // ---------------------------------------------------------------- orders

  function Cost(l: Line): int { l.qty * l.price }

  lemma {:induction false} TotalIsCost(lines: seq<Line>)
    ensures Total(lines) == SumBy(lines, Cost)
  {
    if lines != [] { TotalIsCost(lines[..|lines| - 1]); }
  }

  function PiecesOf(s: int): Line -> int { (l: Line) => if l.sku == s then l.qty else 0 }

  lemma {:induction false} DemandIsPieces(lines: seq<Line>, s: int)
    ensures Demand(lines, s) == SumBy(lines, PiecesOf(s))
  {
    if lines != [] { DemandIsPieces(lines[..|lines| - 1], s); }
  }

  /** One item is on sale and there are enough pieces that nobody has reserved. */
  ghost predicate Sellable(stock: Stock, i: Item)
  {
    i.sku in stock && stock[i.sku].saleable && 0 < i.qty <= stock[i.sku].onHand - stock[i.sku].reserved
  }

  /** An order is accepted exactly when it is not empty and each of its items can be sold. */
  lemma CreateIff(d: Shop, items: seq<Item>, deadline: int)
    ensures var (d', out) := AfterCreate(d, items, deadline);
            (out.Done? <==> items != [] && forall i <- items :: Sellable(d.stock, i)) && (!out.Done? ==> d' == d)
  {
    assert forall i: Item :: ItemOk(d.stock, i) <==> Sellable(d.stock, i);
  }

  /** It costs its pieces at the prices of the moment, reserves them all, and waits until the deadline. */
  lemma PlacedAs(d: Shop, items: seq<Item>, deadline: int, s: int)
    requires AfterCreate(d, items, deadline).1.Done?
    ensures var d' := AfterCreate(d, items, deadline).0;
            |d'.orders| == |d.orders| + 1 && d'.orders[..|d.orders|] == d.orders &&
            d' == d.(stock := d'.stock, orders := d'.orders) &&
            var o := d'.orders[|d.orders|];
            |o.lines| == |items| && o.amount == SumBy(o.lines, Cost) && o.deadline == deadline &&
            o.status.PendingPayment? && !o.released && !o.deducted && o.fulfilment.NoGoods? &&
            (forall k | 0 <= k < |items| ::
              items[k].sku in d.stock &&
              o.lines[k] == Line(items[k].sku, items[k].qty, d.stock[items[k].sku].price)) &&
            (s in d.stock ==>
              s in d'.stock &&
              d'.stock[s] == d.stock[s].(reserved := d.stock[s].reserved + SumBy(o.lines, PiecesOf(s))))
  {
    hide SumBy, Total, Demand;
    var lines := Frozen(d.stock, items);
    TotalIsCost(lines);
    DemandIsPieces(lines, s);
    assert forall k | 0 <= k < |items| :: items[k] in items && ItemOk(d.stock, items[k]);
  }

  /** Before its deadline a waiting order is paid; from the deadline on, and when it has expired, money is late. */
  lemma PayIff(d: Shop, id: nat, now: int)
    requires BooksOk(d)
    ensures var (d', out) := AfterPay(d, id, now);
            (out.Done? <==> id < |d.orders| && d.orders[id].status.PendingPayment? && now < d.orders[id].deadline) &&
            (out.LateMoney? <==>
              id < |d.orders| &&
              (d.orders[id].status.Expired? ||
               (d.orders[id].status.PendingPayment? && d.orders[id].deadline <= now))) &&
            (out.Refused? ==> d' == d)
  {
    assert id < |d.orders| ==> OrderOk(d.orders[id]);
  }

  /** A payment in time sells the goods, a late one leaves an expired order and an open exception over its amount. */
  lemma PaidAs(d: Shop, id: nat, now: int)
    requires BooksOk(d)
    ensures var (d', out) := AfterPay(d, id, now);
            (out.Done? ==>
              d'.refunds == d.refunds && d'.excs == d.excs && id < |d.orders| == |d'.orders| &&
              var o, o' := d.orders[id], d'.orders[id];
              o' == o.(status := Paid, released := true, deducted := true, fulfilment := PendingHandoff)) &&
            (out.LateMoney? ==>
              d'.refunds == d.refunds && id < |d.orders| == |d'.orders| &&
              d'.orders[id].status.Expired? && d'.orders[id].released && !d'.orders[id].deducted &&
              d'.excs == d.excs + [Exc(id, true, d.orders[id].amount, true, None)])
  {
    hide Sold, Freed;
    assert id < |d.orders| ==> OrderOk(d.orders[id]);
  }

  /** A waiting order can be cancelled before its deadline and while no money is in question; after it, it expires. */
  lemma CancelIff(d: Shop, id: nat, now: int)
    requires BooksOk(d)
    ensures var (d', out) := AfterCancel(d, id, now);
            var waits := id < |d.orders| && d.orders[id].status.PendingPayment?;
            (out.Done? <==>
              waits && now < d.orders[id].deadline &&
              forall e | 0 <= e < |d.excs| && d.excs[e].orderId == id :: !d.excs[e].open) &&
            (out.Done? ==> |d'.orders| == |d.orders| && d'.orders[id].status.Cancelled? && d'.orders[id].released) &&
            (waits && d.orders[id].deadline <= now ==>
              |d'.orders| == |d.orders| && d'.orders[id].status.Expired? && d'.orders[id].released) &&
            (!out.Done? && !(waits && d.orders[id].deadline <= now) ==> d' == d)
  {
    hide Freed, MoneyOk;
    assert id < |d.orders| ==> OrderOk(d.orders[id]);
    assert forall e | 0 <= e < |d.excs| :: d.excs[e] in d.excs;
  }

  /** Only a waiting order expires. */
  lemma ExpireIff(d: Shop, id: nat)
    requires BooksOk(d)
    ensures var (d', out) := AfterExpire(d, id);
            (out.Done? <==> id < |d.orders| && d.orders[id].status.PendingPayment?) &&
            (out.Done? ==> |d'.orders| == |d.orders| && d'.orders[id].status.Expired? && d'.orders[id].released) &&
            (!out.Done? ==> d' == d)
  {
    hide Freed, MoneyOk;
    assert id < |d.orders| ==> OrderOk(d.orders[id]);
  }

  /** Paid goods are handed over once, and not after they have been paid back. */
  lemma HandoffIff(d: Shop, id: nat)
    ensures var (d', out) := AfterHandoff(d, id);
            (out.Done? <==>
              id < |d.orders| && d.orders[id].status.Paid? && d.orders[id].fulfilment.PendingHandoff? &&
              forall r | 0 <= r < |d.refunds| && d.refunds[r].orderId == id :: !d.refunds[r].status.Settled?) &&
            d' == if out.Done? then d.(orders := d.orders[id := d.orders[id].(fulfilment := Fulfilled)]) else d
  {
    assert forall r | 0 <= r < |d.refunds| :: d.refunds[r] in d.refunds;
  }

  // ---------------------------------------------------------------- refunds

  ghost predicate IsLateOf(d: Shop, e: nat, id: nat) { e < |d.excs| && d.excs[e].late && d.excs[e].orderId == id }

  /** The newest late money of an order. */
  ghost predicate IsNewest(d: Shop, e: nat, id: nat)
  {
    IsLateOf(d, e, id) && forall k: nat | IsLateOf(d, k, id) :: k <= e
  }

  ghost predicate NoneStands(d: Shop, id: nat)
  {
    forall r | 0 <= r < |d.refunds| && d.refunds[r].orderId == id ::
      d.refunds[r].status.Rejected? || d.refunds[r].status.Withdrawn?
  }

  lemma {:induction false} LatestIsNewest(d: Shop, excs: seq<Exc>, id: nat)
    requires excs <= d.excs
    ensures match LatestLate(excs, id)
            case None => forall k: nat | k < |excs| :: !IsLateOf(d, k, id)
            case Some(e) => e < |excs| && IsLateOf(d, e, id) && forall k: nat | e < k < |excs| :: !IsLateOf(d, k, id)
  {
    if excs != [] {
      assert excs[|excs| - 1] == d.excs[|excs| - 1];
      LatestIsNewest(d, excs[..|excs| - 1], id);
    }
  }

  lemma NoneStandsIff(d: Shop, id: nat)
    ensures NoneStands(d, id) <==> !HasActive(d.refunds, id) && !HasSettled(d.refunds, id)
  {
    assert forall r | 0 <= r < |d.refunds| :: d.refunds[r] in d.refunds;
  }

  /** A refund is opened for a paid order, or for late money of an expired one, and only when none stands. */
  lemma RefundIff(d: Shop, id: nat)
    ensures AfterRefund(d, id).1.Done? <==>
            id < |d.orders| && NoneStands(d, id) &&
            (d.orders[id].status.Paid? ||
             (d.orders[id].status.Expired? && exists e: nat :: IsLateOf(d, e, id)))
  {
    hide LatestLate;
    NoneStandsIff(d, id);
    LatestIsNewest(d, d.excs, id);
  }

  /** It pays back the order's amount, or exactly the newest late money, which it names. */
  lemma RefundedAs(d: Shop, id: nat)
    requires AfterRefund(d, id).1.Done?
    ensures var d' := AfterRefund(d, id).0;
            id < |d.orders| && |d'.refunds| == |d.refunds| + 1 && d' == d.(refunds := d'.refunds) &&
            d'.refunds[..|d.refunds|] == d.refunds &&
            var x := d'.refunds[|d.refunds|];
            x.orderId == id && x.status.Requested? && !x.returned && x.required == x.settled == 0 &&
            (if d.orders[id].status.Paid? then x.source == None && x.amount == d.orders[id].amount
             else x.source.Some? && IsNewest(d, x.source.value, id) && x.amount == d.excs[x.source.value].amount)
  {
    hide LatestLate, HasActive, HasSettled;
    LatestIsNewest(d, d.excs, id);
  }

  lemma ReviewIff(d: Shop, r: nat, withdraw: bool, confirmed: bool)
    ensures var (d', out) := AfterApprove(d, r);
            (out.Done? <==> r < |d.refunds| && d.refunds[r].status.Requested?) &&
            d' == if out.Done? then d.(refunds := d.refunds[r := d.refunds[r].(status := Approved)]) else d
    ensures var (d', out) := AfterReject(d, r, withdraw, confirmed);
            (out.Done? <==>
              r < |d.refunds| && d.refunds[r].source.None? &&
              (d.refunds[r].status.Requested? || d.refunds[r].status.Approved?) && (withdraw ==> confirmed)) &&
            d' == if out.Done? then
                    d.(refunds := d.refunds[r := d.refunds[r].(status := if withdraw then Withdrawn else Rejected)])
                  else d
  {
  }

  /** An approved refund is settled exactly with its own amount and a proof of payment. */
  lemma SettleIff(d: Shop, r: nat, amount: int, proof: bool)
    requires BooksOk(d)
    ensures var (d', out) := AfterSettle(d, r, amount, proof);
            (out.Done? <==>
              r < |d.refunds| && d.refunds[r].status.Approved? && proof && amount == d.refunds[r].amount > 0) &&
            (!out.Done? ==> d' == d)
  {
    if r < |d.refunds| { assert RefundOk(d.refunds[r], d.orders, d.excs); }
  }

  lemma SettledAs(d: Shop, r: nat, amount: int, proof: bool)
    requires AfterSettle(d, r, amount, proof).1.Done?
    ensures var d' := AfterSettle(d, r, amount, proof).0;
            r < |d.refunds| && d'.stock == d.stock && d'.orders == d.orders &&
            var x := d.refunds[r];
            d'.refunds == d.refunds[r := x.(status := Settled, required := amount, settled := amount)] &&
            |d'.excs| == |d.excs| &&
            forall e | 0 <= e < |d.excs| ::
              d'.excs[e] == if x.source == Some(e) && d.excs[e].open
                            then d.excs[e].(open := false, closedBy := Some(r)) else d.excs[e]
  {
  }

  /** The goods of a settled refund come back once, if they had left the shelf, and all of them. */
  lemma ReturnIff(d: Shop, base: map<int, int>, r: nat, s: int)
    requires BooksOk(d) && ShelfOk(d, base)
    ensures var (d', out) := AfterReturn(d, r);
            (out.Done? <==>
              r < |d.refunds| && d.refunds[r].status.Settled? && !d.refunds[r].returned &&
              d.refunds[r].orderId < |d.orders| && d.orders[d.refunds[r].orderId].status.Paid?) &&
            (!out.Done? ==> d' == d) &&
            (out.Done? ==>
              d'.refunds == d.refunds[r := d.refunds[r].(returned := true)] &&
              (s in d.stock ==>
                s in d'.stock &&
                d'.stock[s].onHand ==
                d.stock[s].onHand + SumBy(d.orders[d.refunds[r].orderId].lines, PiecesOf(s))))
  {
    hide MoneyOk, Returned, SumBy, Demand, StockOk;
    if r < |d.refunds| && d.refunds[r].orderId < |d.orders| {
      var lines := d.orders[d.refunds[r].orderId].lines;
      assert OrderOk(d.orders[d.refunds[r].orderId]);
      ReturnKeeps(d, base, lines);
      DemandIsPieces(lines, s);
    }
  }

  // ---------------------------------------------------------------- stock and exceptions

  /** Stock is adjusted exactly as long as something stays on hand for everything reserved. */
  lemma AdjustIff(d: Shop, s: int, delta: int)
    ensures var (d', out) := AfterAdjust(d, s, delta);
            (out.Done? <==>
              s in d.stock && 0 <= d.stock[s].onHand + delta && d.stock[s].reserved <= d.stock[s].onHand + delta) &&
            (!out.Done? ==> d' == d) &&
            (out.Done? ==>
              d'.stock == d.stock[s := d.stock[s].(onHand := d.stock[s].onHand + delta)] &&
              d'.adjustments == d.adjustments + [Adjustment(s, delta)])
  {
  }

  /** By hand an exception is closed exactly when it is open and no late money. */
  lemma ResolveIff(d: Shop, e: nat)
    ensures var (d', out) := AfterResolve(d, e);
            (out.Done? <==> e < |d.excs| && d.excs[e].open && !d.excs[e].late) &&
            d' == if out.Done? then d.(excs := d.excs[e := d.excs[e].(open := false)]) else d
  {
  }
}
