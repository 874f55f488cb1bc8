/** What the merchandise side keeps over every run: stock, refunds, and where late money can get stuck. */
module MerchRuns {
  import opened Common
  import opened Merch

  // ---------------------------------------------------------------- stock

  function HeldBy(s: int): Order -> int { (o: Order) => if o.released then 0 else Demand(o.lines, s) }

  function SoldBy(s: int): Order -> int { (o: Order) => if o.deducted then Demand(o.lines, s) else 0 }

  function DeltaOf(s: int): Adjustment -> int { (a: Adjustment) => if a.sku == s then a.delta else 0 }

  /** Reserved is what open orders hold; on hand is the opening stock, plus adjustments, minus what was sold. */
  ghost predicate SkuOk(k: Sku, s: int, base: int, orders: seq<Order>, adjustments: seq<Adjustment>)
  {
    0 <= k.reserved <= k.onHand &&
    k.reserved == SumBy(orders, HeldBy(s)) &&
    k.onHand == base + SumBy(adjustments, DeltaOf(s)) - SumBy(orders, SoldBy(s))
  }

  ghost predicate StockOk(stock: Stock, base: map<int, int>, orders: seq<Order>, adjustments: seq<Adjustment>)
  {
    base.Keys == stock.Keys && forall s <- stock :: SkuOk(stock[s], s, base[s], orders, adjustments)
  }

  /** Status, reservation, deduction and fulfilment of an order agree. */
  ghost predicate OrderOk(o: Order)
  {
    Positive(o.lines) && (o.released <==> !o.status.PendingPayment?) && (o.deducted <==> o.status.Paid?) &&
    (o.fulfilment.NoGoods? <==> !o.status.Paid?)
  }

  ghost predicate OrdersOk(orders: seq<Order>) { forall i | 0 <= i < |orders| :: OrderOk(orders[i]) }

  lemma HeldCovered(stock: Stock, base: map<int, int>, orders: seq<Order>, adjustments: seq<Adjustment>,
                    id: nat, s: int)
    requires StockOk(stock, base, orders, adjustments) && OrdersOk(orders) && id < |orders| && s in stock
    ensures !orders[id].released ==> 0 <= Demand(orders[id].lines, s) <= stock[s].reserved
  {
    assert SkuOk(stock[s], s, base[s], orders, adjustments);
    forall o <- orders ensures HeldBy(s)(o) >= 0 {
      var i :| 0 <= i < |orders| && orders[i] == o;
      assert OrderOk(orders[i]);
      DemandNotNegative(o.lines, s);
    }
    SumByNonNegative(orders, HeldBy(s));
    assert HeldBy(s)(orders[id]) <= SumBy(orders, HeldBy(s));
  }

  /** An order row that keeps its reservation and its deduction keeps the sums. */
  lemma SameSums(orders: seq<Order>, id: nat, o: Order, s: int)
    requires id < |orders| && o.lines == orders[id].lines
    ensures SumBy(orders[id := o], HeldBy(s)) == SumBy(orders, HeldBy(s)) - HeldBy(s)(orders[id]) + HeldBy(s)(o)
    ensures SumBy(orders[id := o], SoldBy(s)) == SumBy(orders, SoldBy(s)) - SoldBy(s)(orders[id]) + SoldBy(s)(o)
  {
    SumByUpdate(orders, id, o, HeldBy(s));
    SumByUpdate(orders, id, o, SoldBy(s));
  }

  /** A reservation given back: no clamp bites, and the sums follow. */
  lemma FreeKeeps(d: Shop, base: map<int, int>, id: nat, o: Order)
    requires StockOk(d.stock, base, d.orders, d.adjustments) && OrdersOk(d.orders) && id < |d.orders|
    requires !d.orders[id].released && o.lines == d.orders[id].lines && o.released && !o.deducted
    ensures StockOk(Freed(d.stock, o.lines), base, d.orders[id := o], d.adjustments)
  {
    forall s <- d.stock ensures SkuOk(Freed(d.stock, o.lines)[s], s, base[s], d.orders[id := o], d.adjustments) {
      assert SkuOk(d.stock[s], s, base[s], d.orders, d.adjustments);
      assert OrderOk(d.orders[id]);
      HeldCovered(d.stock, base, d.orders, d.adjustments, id, s);
      SameSums(d.orders, id, o, s);
    }
  }

  lemma SellKeeps(d: Shop, base: map<int, int>, id: nat, o: Order)
    requires StockOk(d.stock, base, d.orders, d.adjustments) && OrdersOk(d.orders) && id < |d.orders|
    requires !d.orders[id].released && o.lines == d.orders[id].lines && o.released && o.deducted
    ensures StockOk(Sold(d.stock, o.lines), base, d.orders[id := o], d.adjustments)
  {
    forall s <- d.stock ensures SkuOk(Sold(d.stock, o.lines)[s], s, base[s], d.orders[id := o], d.adjustments) {
      assert SkuOk(d.stock[s], s, base[s], d.orders, d.adjustments);
      assert OrderOk(d.orders[id]);
      HeldCovered(d.stock, base, d.orders, d.adjustments, id, s);
      SameSums(d.orders, id, o, s);
    }
  }

  lemma RewriteKeeps(d: Shop, base: map<int, int>, id: nat, o: Order)
    requires StockOk(d.stock, base, d.orders, d.adjustments) && id < |d.orders| && o.lines == d.orders[id].lines
    requires o.released == d.orders[id].released && o.deducted == d.orders[id].deducted
    ensures StockOk(d.stock, base, d.orders[id := o], d.adjustments)
  {
    forall s <- d.stock ensures SkuOk(d.stock[s], s, base[s], d.orders[id := o], d.adjustments) {
      assert SkuOk(d.stock[s], s, base[s], d.orders, d.adjustments);
      SameSums(d.orders, id, o, s);
    }
  }

  lemma AdjustKeeps(d: Shop, base: map<int, int>, s: int, delta: int)
    requires StockOk(d.stock, base, d.orders, d.adjustments)
    ensures var d' := AfterAdjust(d, s, delta).0; StockOk(d'.stock, base, d.orders, d'.adjustments)
    ensures s in d.stock && delta >= 0 ==> AfterAdjust(d, s, delta).1.Done?
  {
    hide SumBy;
    var d' := AfterAdjust(d, s, delta).0;
    assert s in d.stock ==> SkuOk(d.stock[s], s, base[s], d.orders, d.adjustments);
    forall k <- d.stock ensures SkuOk(d'.stock[k], k, base[k], d.orders, d'.adjustments) {
      assert SkuOk(d.stock[k], k, base[k], d.orders, d.adjustments);
      SumByAppend(d.adjustments, Adjustment(s, delta), DeltaOf(k));
    }
  }

  /** Returned goods all come back to the shelf: none of the adjustments can be refused. */
  lemma {:induction false} ReturnKeeps(d: Shop, base: map<int, int>, lines: seq<Line>)
    requires StockOk(d.stock, base, d.orders, d.adjustments) && Positive(lines)
    ensures var d' := Returned(d, lines);
            StockOk(d'.stock, base, d.orders, d'.adjustments) && d'.orders == d.orders &&
            forall s | s in d.stock :: s in d'.stock && d'.stock[s].onHand == d.stock[s].onHand + Demand(lines, s)
  {
    if lines != [] {
      var front, l := lines[..|lines| - 1], lines[|lines| - 1];
      assert forall x <- front :: x in lines;
      ReturnKeeps(d, base, front);
      AdjustKeeps(Returned(d, front), base, l.sku, l.qty);
      assert l in lines;
    }
  }

  // ---------------------------------------------------------------- the per-item check

  /** What the order asks for together fits what is available. */
  ghost predicate FitsTogether(stock: Stock, items: seq<Item>)
  {
    forall s <- stock :: Demand(Frozen(stock, items), s) <= Available(stock[s])
  }

  predicate DistinctSkus(items: seq<Item>) { forall i, j | 0 <= i < j < |items| :: items[i].sku != items[j].sku }

  /**
    The items are checked one by one, so a repeated SKU is checked twice against the same stock. The stock invariant
    survives an accepted order exactly when the merged demand fits.
  */
  lemma CreateKeepsStockIff(d: Shop, base: map<int, int>, items: seq<Item>, deadline: int)
    requires StockOk(d.stock, base, d.orders, d.adjustments) && ItemsOk(d.stock, items)
    ensures var d' := AfterCreate(d, items, deadline).0;
            StockOk(d'.stock, base, d'.orders, d'.adjustments) <==> FitsTogether(d.stock, items)
  {
    var d', lines := AfterCreate(d, items, deadline).0, Frozen(d.stock, items);
    var o := d'.orders[|d.orders|];
    FrozenPositive(d.stock, items);
    forall s <- d.stock
      ensures SkuOk(d'.stock[s], s, base[s], d'.orders, d'.adjustments) <==> Demand(lines, s) <= Available(d.stock[s])
    {
      assert SkuOk(d.stock[s], s, base[s], d.orders, d.adjustments);
      SumByAppend(d.orders, o, HeldBy(s));
      SumByAppend(d.orders, o, SoldBy(s));
      DemandNotNegative(lines, s);
    }
  }

  /** Orders whose items name distinct SKUs always pass. */
  lemma DistinctItemsFit(stock: Stock, items: seq<Item>)
    requires ItemsOk(stock, items) && DistinctSkus(items) && forall s <- stock :: Available(stock[s]) >= 0
    ensures FitsTogether(stock, items)
  {
    forall s <- stock ensures Demand(Frozen(stock, items), s) <= Available(stock[s]) {
      DemandOfDistinct(stock, items, s);
    }
  }

  lemma {:induction false} DemandOfDistinct(stock: Stock, items: seq<Item>, s: int)
    requires (forall i <- items :: ItemOk(stock, i)) && DistinctSkus(items) && s in stock && Available(stock[s]) >= 0
    ensures Demand(Frozen(stock, items), s) <= Available(stock[s])
    ensures Demand(Frozen(stock, items), s) == 0 || exists i <- items :: i.sku == s
  {
    if items != [] {
      var n := |items| - 1;
      var front, last := items[..n], items[n];
      assert Frozen(stock, items)[..n] == Frozen(stock, front);
      DemandOfDistinct(stock, front, s);
      assert last in items && ItemOk(stock, last);
      if last.sku == s {
        assert forall i | 0 <= i < n :: front[i].sku != s;
      } else if i: Item :| i in front && i.sku == s {
        assert i in items;
      }
    }
  }

  /** One piece left, asked for twice in one order: both items pass, and two pieces are reserved. */
  lemma RepeatedSkuOversells()
    ensures var d, items := Shop(map[1 := Sku(1, 0, 500, true)], [], [], [], []), [Item(1, 1), Item(1, 1)];
            var (d', out) := AfterCreate(d, items, 60);
            out.Done? && d'.stock[1].reserved == 2 > d'.stock[1].onHand
  {
    var stock := map[1 := Sku(1, 0, 500, true)];
    var lines := Frozen(stock, [Item(1, 1), Item(1, 1)]);
    assert lines == [Line(1, 1, 500), Line(1, 1, 500)] && lines[..1] == [Line(1, 1, 500)];
    assert Demand(lines[..1], 1) == 1 + Demand(lines[..1][..0], 1);
  }

  // ---------------------------------------------------------------- refunds and exceptions

  predicate Standing(r: Refund) { Active(r) || r.status.Settled? }

  /** One refund of an order at most is under way or paid. */
  ghost predicate OneStanding(refunds: seq<Refund>)
  {
    forall i, j | 0 <= i < j < |refunds| && Standing(refunds[i]) && Standing(refunds[j]) ::
      refunds[i].orderId != refunds[j].orderId
  }

  /** A refund pays back a paid order in full, or exactly the late money it names, on an expired one. */
  ghost predicate RefundOk(r: Refund, orders: seq<Order>, excs: seq<Exc>)
  {
    r.orderId < |orders| &&
    (if r.source.None? then orders[r.orderId].status.Paid? && r.amount == orders[r.orderId].amount
     else r.source.value < |excs| && excs[r.source.value].late && excs[r.source.value].orderId == r.orderId &&
          r.amount == excs[r.source.value].amount && orders[r.orderId].status.Expired? && Standing(r)) &&
    (r.status.Settled? ==> r.required == r.settled == r.amount > 0) &&
    (r.returned ==> r.status.Settled? && orders[r.orderId].deducted)
  }

  /** Late money belongs to an expired order, and is closed by a settled refund that names it. */
  ghost predicate ExcOk(e: nat, excs: seq<Exc>, orders: seq<Order>, refunds: seq<Refund>)
    requires e < |excs|
  {
    excs[e].late ==>
      excs[e].orderId < |orders| && orders[excs[e].orderId].status.Expired? &&
      excs[e].amount == orders[excs[e].orderId].amount &&
      (!excs[e].open ==> excs[e].closedBy.Some? && PaidBack(e, excs[e].closedBy.value, refunds)) &&
      (excs[e].open ==> forall r: nat | r < |refunds| :: !PaidBack(e, r, refunds))
  }

  ghost predicate PaidBack(e: nat, r: nat, refunds: seq<Refund>)
  {
    r < |refunds| && refunds[r].status.Settled? && refunds[r].source == Some(e)
  }

  ghost predicate MoneyOk(orders: seq<Order>, refunds: seq<Refund>, excs: seq<Exc>)
  {
    OneStanding(refunds) && (forall r: nat | r < |refunds| :: RefundOk(refunds[r], orders, excs)) &&
    (forall e: nat | e < |excs| :: ExcOk(e, excs, orders, refunds))
  }

  /** Orders, refunds and exceptions in order: this survives everything. */
  ghost predicate BooksOk(d: Shop) { OrdersOk(d.orders) && MoneyOk(d.orders, d.refunds, d.excs) }

  /** The shelf in order: this survives as long as accepted orders fit it. */
  ghost predicate ShelfOk(d: Shop, base: map<int, int>) { StockOk(d.stock, base, d.orders, d.adjustments) }

  /** What refunds and exceptions need of the order table stays true when orders move on. */
  ghost predicate Onward(o: Order, o': Order)
  {
    o'.lines == o.lines && o'.amount == o.amount && o'.deadline == o.deadline && (o.deducted ==> o'.deducted) &&
    (o'.status == o.status || o.status.PendingPayment?)
  }

  lemma MoneyOnward(orders: seq<Order>, orders': seq<Order>, refunds: seq<Refund>, excs: seq<Exc>)
    requires MoneyOk(orders, refunds, excs) && |orders'| >= |orders|
    requires forall i | 0 <= i < |orders| :: Onward(orders[i], orders'[i])
    ensures MoneyOk(orders', refunds, excs)
  {
    forall r: nat | r < |refunds| ensures RefundOk(refunds[r], orders', excs) {
      assert RefundOk(refunds[r], orders, excs);
      assert Onward(orders[refunds[r].orderId], orders'[refunds[r].orderId]);
    }
    forall e: nat | e < |excs| ensures ExcOk(e, excs, orders', refunds) {
      assert ExcOk(e, excs, orders, refunds);
      if excs[e].late { assert Onward(orders[excs[e].orderId], orders'[excs[e].orderId]); }
    }
  }

  lemma NewExc(orders: seq<Order>, refunds: seq<Refund>, excs: seq<Exc>, e: Exc)
    requires MoneyOk(orders, refunds, excs) && e.open
    requires e.late ==>
               e.orderId < |orders| && orders[e.orderId].status.Expired? && e.amount == orders[e.orderId].amount
    ensures MoneyOk(orders, refunds, excs + [e])
  {
    forall r: nat | r < |refunds| ensures RefundOk(refunds[r], orders, excs + [e]) {
      assert RefundOk(refunds[r], orders, excs);
    }
    forall k: nat | k < |excs + [e]| ensures ExcOk(k, excs + [e], orders, refunds) {
      if k < |excs| { assert ExcOk(k, excs, orders, refunds); }
    }
  }

  lemma {:induction false} LatestIsLate(excs: seq<Exc>, id: nat)
    ensures LatestLate(excs, id).Some? ==>
              LatestLate(excs, id).value < |excs| && excs[LatestLate(excs, id).value].late &&
              excs[LatestLate(excs, id).value].orderId == id
  {
    if excs != [] { LatestIsLate(excs[..|excs| - 1], id); }
  }

  lemma RefundKeeps(d: Shop, id: nat)
    requires MoneyOk(d.orders, d.refunds, d.excs)
    ensures var d' := AfterRefund(d, id).0; MoneyOk(d.orders, d'.refunds, d.excs)
  {
    var d' := AfterRefund(d, id).0;
    LatestIsLate(d.excs, id);
    if AfterRefund(d, id).1.Done? {
      assert forall r | 0 <= r < |d.refunds| && Standing(d.refunds[r]) :: d.refunds[r].orderId != id;
      forall e: nat | e < |d.excs| ensures ExcOk(e, d.excs, d.orders, d'.refunds) {
        assert ExcOk(e, d.excs, d.orders, d.refunds);
        assert d.excs[e].late && !d.excs[e].open ==> PaidBack(e, d.excs[e].closedBy.value, d.refunds);
        assert forall r: nat | r < |d'.refunds| :: PaidBack(e, r, d'.refunds) ==> PaidBack(e, r, d.refunds);
      }
      forall r: nat | r < |d'.refunds| ensures RefundOk(d'.refunds[r], d.orders, d.excs) {
        if r < |d.refunds| { assert RefundOk(d.refunds[r], d.orders, d.excs); }
      }
    }
  }

  /** A refund that moves without being settled or losing that. */
  lemma RefundMoves(d: Shop, r: nat, x: Refund)
    requires MoneyOk(d.orders, d.refunds, d.excs) && r < |d.refunds| && RefundOk(x, d.orders, d.excs)
    requires x.orderId == d.refunds[r].orderId && x.source == d.refunds[r].source
    requires (x.status.Settled? <==> d.refunds[r].status.Settled?) && (Standing(x) ==> Standing(d.refunds[r]))
    ensures MoneyOk(d.orders, d.refunds[r := x], d.excs)
  {
    var refunds := d.refunds[r := x];
    forall k: nat | k < |refunds| ensures RefundOk(refunds[k], d.orders, d.excs) {
      assert RefundOk(d.refunds[k], d.orders, d.excs);
    }
    forall e: nat | e < |d.excs| ensures ExcOk(e, d.excs, d.orders, refunds) {
      assert ExcOk(e, d.excs, d.orders, d.refunds);
      assert forall k: nat | k < |refunds| :: PaidBack(e, k, refunds) <==> PaidBack(e, k, d.refunds);
    }
  }

  lemma SettleKeeps(d: Shop, r: nat, amount: int, proof: bool)
    requires MoneyOk(d.orders, d.refunds, d.excs)
    ensures var d' := AfterSettle(d, r, amount, proof).0; MoneyOk(d.orders, d'.refunds, d'.excs)
  {
    var d' := AfterSettle(d, r, amount, proof).0;
    if AfterSettle(d, r, amount, proof).1.Done? {
      var x := d.refunds[r];
      assert RefundOk(x, d.orders, d.excs);
      forall k: nat | k < |d'.refunds| ensures RefundOk(d'.refunds[k], d.orders, d'.excs) {
        assert RefundOk(d.refunds[k], d.orders, d.excs);
      }
      forall e: nat | e < |d'.excs| ensures ExcOk(e, d'.excs, d.orders, d'.refunds) {
        SettledExc(d, r, amount, proof, e);
      }
    }
  }

  lemma SettledExc(d: Shop, r: nat, amount: int, proof: bool, e: nat)
    requires MoneyOk(d.orders, d.refunds, d.excs) && AfterSettle(d, r, amount, proof).1.Done? && e < |d.excs|
    ensures var d' := AfterSettle(d, r, amount, proof).0; ExcOk(e, d'.excs, d.orders, d'.refunds)
  {
    var d', x := AfterSettle(d, r, amount, proof).0, d.refunds[r];
    assert ExcOk(e, d.excs, d.orders, d.refunds) && RefundOk(x, d.orders, d.excs);
    assert forall k: nat | k < |d.refunds| ::
      PaidBack(e, k, d'.refunds) <==> PaidBack(e, k, d.refunds) || (k == r && x.source == Some(e));
  }

  // ---------------------------------------------------------------- every step

  datatype Command =
    | Adjust(sku: int, delta: int)
    | Create(items: seq<Item>, deadline: int)
    | Cancel(id: nat, now: int)
    | Expire(id: nat)
    | Pay(id: nat, now: int)
    | HandOff(id: nat)
    | CreateRefund(id: nat)
    | Approve(refund: nat)
    | Reject(refund: nat, withdraw: bool, confirmed: bool)
    | Settle(refund: nat, amount: int, proof: bool)
    | Return(refund: nat)
    | Resolve(exc: nat)
    | Register(id: nat, amount: int)

  /** An order that does not repeat a SKU beyond what the merged demand allows; see CreateKeepsStockIff. */
  ghost predicate Fits(d: Shop, c: Command)
  {
    c.Create? && ItemsOk(d.stock, c.items) ==> FitsTogether(d.stock, c.items)
  }

  function After(d: Shop, c: Command): Shop
  {
    match c
    case Adjust(s, delta) => AfterAdjust(d, s, delta).0
    case Create(items, deadline) => AfterCreate(d, items, deadline).0
    case Cancel(id, now) => AfterCancel(d, id, now).0
    case Expire(id) => AfterExpire(d, id).0
    case Pay(id, now) => AfterPay(d, id, now).0
    case HandOff(id) => AfterHandoff(d, id).0
    case CreateRefund(id) => AfterRefund(d, id).0
    case Approve(r) => AfterApprove(d, r).0
    case Reject(r, withdraw, confirmed) => AfterReject(d, r, withdraw, confirmed).0
    case Settle(r, amount, proof) => AfterSettle(d, r, amount, proof).0
    case Return(r) => AfterReturn(d, r).0
    case Resolve(e) => AfterResolve(d, e).0
    case Register(id, amount) => AfterRegister(d, id, amount)
  }

  // ---------------------------------------------------------------- orders, refunds and exceptions over every run

  lemma EndKeepsBooks(d: Shop, id: nat, status: Status)
    requires BooksOk(d) && id < |d.orders| && d.orders[id].status.PendingPayment?
    requires status.Expired? || status.Cancelled?
    ensures BooksOk(SetStatus(Release(d, id), id, status))
  {
    hide MoneyOk, Freed;
    assert OrderOk(d.orders[id]);
    var o := d.orders[id].(released := true, status := status);
    assert SetStatus(Release(d, id), id, status).orders == d.orders[id := o];
    MoneyOnward(d.orders, d.orders[id := o], d.refunds, d.excs);
  }

  lemma ExpireKeepsBooks(d: Shop, id: nat)
    requires BooksOk(d)
    ensures BooksOk(AfterExpire(d, id).0)
    ensures id < |d.orders| && !d.orders[id].status.PendingPayment? ==> AfterExpire(d, id).0 == d
  {
    hide MoneyOk, Freed;
    if id < |d.orders| {
      assert OrderOk(d.orders[id]);
      if d.orders[id].status.PendingPayment? { EndKeepsBooks(d, id, Expired); }
    }
  }

  lemma LateKeepsBooks(d: Shop, id: nat)
    requires BooksOk(d) && id < |d.orders| && (d.orders[id].status.PendingPayment? || d.orders[id].status.Expired?)
    ensures BooksOk(AfterLate(d, id))
  {
    hide MoneyOk, Freed;
    ExpireKeepsBooks(d, id);
    var d' := AfterExpire(d, id).0;
    assert d'.orders[id].status.Expired? && d'.orders[id].amount == d.orders[id].amount by {
      assert OrderOk(d.orders[id]);
    }
    NewExc(d'.orders, d'.refunds, d'.excs, Exc(id, true, d.orders[id].amount, true, None));
  }

  lemma PayKeepsBooks(d: Shop, id: nat, now: int)
    requires BooksOk(d)
    ensures BooksOk(AfterPay(d, id, now).0)
  {
    hide MoneyOk, Sold, AfterLate;
    if id < |d.orders| {
      assert OrderOk(d.orders[id]);
      var o := d.orders[id];
      if o.status.Expired? || (o.status.PendingPayment? && PastDeadline(o, now)) {
        LateKeepsBooks(d, id);
      } else if o.status.PendingPayment? {
        var o' := o.(released := true, deducted := true, status := Paid, fulfilment := PendingHandoff);
        MoneyOnward(d.orders, d.orders[id := o'], d.refunds, d.excs);
      }
    }
  }

  lemma CreateKeepsBooks(d: Shop, items: seq<Item>, deadline: int)
    requires BooksOk(d)
    ensures BooksOk(AfterCreate(d, items, deadline).0)
  {
    hide MoneyOk, Held;
    if ItemsOk(d.stock, items) {
      FrozenPositive(d.stock, items);
      MoneyOnward(d.orders, AfterCreate(d, items, deadline).0.orders, d.refunds, d.excs);
    }
  }

  lemma HandoffKeepsBooks(d: Shop, id: nat)
    requires BooksOk(d)
    ensures BooksOk(AfterHandoff(d, id).0)
  {
    hide MoneyOk;
    if AfterHandoff(d, id).1.Done? {
      assert OrderOk(d.orders[id]);
      MoneyOnward(d.orders, d.orders[id := d.orders[id].(fulfilment := Fulfilled)], d.refunds, d.excs);
    }
  }

  lemma ReviewKeepsBooks(d: Shop, c: Command)
    requires BooksOk(d) && (c.Approve? || c.Reject?)
    ensures BooksOk(After(d, c))
  {
    hide OrdersOk;
    if c.refund < |d.refunds| && After(d, c) != d {
      assert RefundOk(d.refunds[c.refund], d.orders, d.excs);
      RefundMoves(d, c.refund, After(d, c).refunds[c.refund]);
    }
  }

  lemma ReturnKeepsBooks(d: Shop, r: nat)
    requires BooksOk(d)
    ensures BooksOk(AfterReturn(d, r).0)
  {
    hide Returned;
    if AfterReturn(d, r).1.Done? {
      assert RefundOk(d.refunds[r], d.orders, d.excs);
      RefundMoves(d, r, d.refunds[r].(returned := true));
    }
  }

  lemma ResolveKeepsBooks(d: Shop, e: nat)
    requires BooksOk(d)
    ensures BooksOk(AfterResolve(d, e).0)
  {
    hide OrdersOk;
    if AfterResolve(d, e).1.Done? {
      var excs := AfterResolve(d, e).0.excs;
      forall r: nat | r < |d.refunds| ensures RefundOk(d.refunds[r], d.orders, excs) {
        assert RefundOk(d.refunds[r], d.orders, d.excs);
      }
      forall k: nat | k < |excs| ensures ExcOk(k, excs, d.orders, d.refunds) {
        assert ExcOk(k, d.excs, d.orders, d.refunds);
      }
    }
  }

  /** Every operation, on whatever stock, keeps orders, refunds and exceptions consistent. */
  lemma StepKeepsBooks(d: Shop, c: Command)
    requires BooksOk(d)
    ensures BooksOk(After(d, c))
  {
    hide OrdersOk, MoneyOk, AfterExpire, AfterPay, AfterCreate, AfterHandoff, AfterReturn, AfterResolve;
    hide AfterApprove, AfterReject;
    match c
    case Adjust(s, delta) =>
    case Create(items, deadline) => CreateKeepsBooks(d, items, deadline);
    case Cancel(id, now) =>
      ExpireKeepsBooks(d, id);
      if id < |d.orders| && d.orders[id].status.PendingPayment? { EndKeepsBooks(d, id, Cancelled); }
    case Expire(id) => ExpireKeepsBooks(d, id);
    case Pay(id, now) => PayKeepsBooks(d, id, now);
    case HandOff(id) => HandoffKeepsBooks(d, id);
    case CreateRefund(id) => RefundKeeps(d, id);
    case Settle(r, amount, proof) => SettleKeeps(d, r, amount, proof);
    case Return(r) => ReturnKeepsBooks(d, r);
    case Resolve(e) => ResolveKeepsBooks(d, e);
    case Register(id, amount) => NewExc(d.orders, d.refunds, d.excs, Exc(id, false, amount, true, None));
    case _ => ReviewKeepsBooks(d, c);
  }

  ghost function Run(d: Shop, run: seq<Command>): Shop
  {
    if run == [] then d else After(Run(d, run[..|run| - 1]), run[|run| - 1])
  }

  lemma {:induction false} RunKeepsBooks(d: Shop, run: seq<Command>)
    requires BooksOk(d)
    ensures BooksOk(Run(d, run))
  {
    if run != [] {
      hide BooksOk;
      RunKeepsBooks(d, run[..|run| - 1]);
      StepKeepsBooks(Run(d, run[..|run| - 1]), run[|run| - 1]);
    }
  }

  // ---------------------------------------------------------------- the shelf

  lemma EndKeepsShelf(d: Shop, base: map<int, int>, id: nat, status: Status)
    requires BooksOk(d) && ShelfOk(d, base) && id < |d.orders| && d.orders[id].status.PendingPayment?
    requires status.Expired? || status.Cancelled?
    ensures ShelfOk(SetStatus(Release(d, id), id, status), base)
  {
    hide StockOk, MoneyOk, Freed;
    assert OrderOk(d.orders[id]);
    var o := d.orders[id].(released := true, status := status);
    FreeKeeps(d, base, id, o);
    assert SetStatus(Release(d, id), id, status).orders == d.orders[id := o];
  }

  lemma ExpireKeepsShelf(d: Shop, base: map<int, int>, id: nat)
    requires BooksOk(d) && ShelfOk(d, base)
    ensures ShelfOk(AfterExpire(d, id).0, base)
  {
    hide StockOk, MoneyOk, Freed;
    if id < |d.orders| {
      assert OrderOk(d.orders[id]);
      if d.orders[id].status.PendingPayment? { EndKeepsShelf(d, base, id, Expired); }
    }
  }

  lemma PayKeepsShelf(d: Shop, base: map<int, int>, id: nat, now: int)
    requires BooksOk(d) && ShelfOk(d, base)
    ensures ShelfOk(AfterPay(d, id, now).0, base)
  {
    hide StockOk, MoneyOk, Sold, AfterExpire;
    if id < |d.orders| {
      assert OrderOk(d.orders[id]);
      ExpireKeepsShelf(d, base, id);
      var o := d.orders[id];
      if o.status.PendingPayment? && !PastDeadline(o, now) {
        SellKeeps(d, base, id, o.(released := true, deducted := true, status := Paid, fulfilment := PendingHandoff));
      }
    }
  }

  lemma ReturnKeepsShelf(d: Shop, base: map<int, int>, r: nat)
    requires BooksOk(d) && ShelfOk(d, base)
    ensures ShelfOk(AfterReturn(d, r).0, base)
  {
    hide StockOk, MoneyOk, Returned;
    if AfterReturn(d, r).1.Done? {
      assert OrderOk(d.orders[d.refunds[r].orderId]);
      ReturnKeeps(d, base, d.orders[d.refunds[r].orderId].lines);
    }
  }

  lemma HandoffKeepsShelf(d: Shop, base: map<int, int>, id: nat)
    requires ShelfOk(d, base)
    ensures ShelfOk(AfterHandoff(d, id).0, base)
  {
    hide StockOk;
    if AfterHandoff(d, id).1.Done? { RewriteKeeps(d, base, id, d.orders[id].(fulfilment := Fulfilled)); }
  }

  /** An operation keeps the shelf in order exactly when it is not an accepted order that does not fit. */
  lemma StepKeepsShelfIff(d: Shop, base: map<int, int>, c: Command)
    requires BooksOk(d) && ShelfOk(d, base)
    ensures ShelfOk(After(d, c), base) <==> Fits(d, c)
  {
    hide StockOk, BooksOk, AfterExpire, AfterPay, AfterHandoff, AfterReturn, FitsTogether, Held;
    match c
    case Adjust(s, delta) => AdjustKeeps(d, base, s, delta);
    case Create(items, deadline) => if ItemsOk(d.stock, items) { CreateKeepsStockIff(d, base, items, deadline); }
    case Cancel(id, now) =>
      ExpireKeepsShelf(d, base, id);
      if id < |d.orders| && d.orders[id].status.PendingPayment? { EndKeepsShelf(d, base, id, Cancelled); }
    case Expire(id) => ExpireKeepsShelf(d, base, id);
    case Pay(id, now) => PayKeepsShelf(d, base, id, now);
    case HandOff(id) => HandoffKeepsShelf(d, base, id);
    case Return(r) => ReturnKeepsShelf(d, base, r);
    case _ =>
  }

  /** Every accepted order of the run fitted when it was placed. */
  ghost predicate FittingRun(d: Shop, run: seq<Command>)
  {
    run == [] || (FittingRun(d, run[..|run| - 1]) && Fits(Run(d, run[..|run| - 1]), run[|run| - 1]))
  }

  /** The shelf is in order after every step of the run. */
  ghost predicate ShelfThroughout(d: Shop, base: map<int, int>, run: seq<Command>)
  {
    ShelfOk(Run(d, run), base) && (run == [] || ShelfThroughout(d, base, run[..|run| - 1]))
  }

  lemma {:induction false} ShelfThroughoutIff(d: Shop, base: map<int, int>, run: seq<Command>)
    requires BooksOk(d) && ShelfOk(d, base)
    ensures ShelfThroughout(d, base, run) <==> FittingRun(d, run)
  {
    if run != [] {
      hide BooksOk, ShelfOk, Fits;
      var front := run[..|run| - 1];
      ShelfThroughoutIff(d, base, front);
      RunKeepsBooks(d, front);
      if ShelfThroughout(d, base, front) { StepKeepsShelfIff(Run(d, front), base, run[|run| - 1]); }
    }
  }
}
