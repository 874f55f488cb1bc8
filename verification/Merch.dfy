/**
  The merchandise side of the shared domain: stock, orders that reserve it, payment, refunds of whole orders, and money
  that arrives after an order has expired.
*/
module Merch {
  import opened Common

  /** `saleable` is product on sale and variant saleable. Prices and amounts are cents. */
  datatype Sku = Sku(onHand: int, reserved: int, price: int, saleable: bool)

  type Stock = map<int, Sku>

  datatype Item = Item(sku: int, qty: int)

  /** An item with its price frozen. */
  datatype Line = Line(sku: int, qty: int, price: int)

  datatype Status = PendingPayment | Paid | Expired | Cancelled

  datatype Fulfilment = NoGoods | PendingHandoff | Fulfilled

  datatype Order = Order(lines: seq<Line>, amount: int, status: Status, released: bool, deducted: bool,
                         fulfilment: Fulfilment, deadline: int)

  /** A payment exception; a late arrival is closed by the settled refund that names it. */
  datatype Exc = Exc(orderId: nat, late: bool, amount: int, open: bool, closedBy: Option<nat>)

  datatype RefundStatus = Requested | Approved | Settled | Rejected | Withdrawn

  /** `source` is the late arrival a refund pays back; without one it refunds a paid order. */
  datatype Refund = Refund(orderId: nat, amount: int, source: Option<nat>, status: RefundStatus, required: int,
                           settled: int, returned: bool)

  datatype Adjustment = Adjustment(sku: int, delta: int)

  /** Newest last. */
  datatype Shop = Shop(stock: Stock, orders: seq<Order>, refunds: seq<Refund>, excs: seq<Exc>,
                       adjustments: seq<Adjustment>)

  datatype Outcome = Done | Refused | LateMoney

  // ---------------------------------------------------------------- stock

  /** How many pieces of s the lines ask for together. */
  function Demand(lines: seq<Line>, s: int): int
  {
    if lines == [] then 0
    else Demand(lines[..|lines| - 1], s) + if lines[|lines| - 1].sku == s then lines[|lines| - 1].qty else 0
  }

  function Available(k: Sku): int { k.onHand - k.reserved }

  function Held(stock: Stock, lines: seq<Line>): Stock
  {
    map s <- stock :: stock[s].(reserved := stock[s].reserved + Demand(lines, s))
  }

  /** Releasing stops at zero. */
  function Freed(stock: Stock, lines: seq<Line>): Stock
  {
    map s <- stock :: if Demand(lines, s) == 0 then stock[s]
                      else stock[s].(reserved := Max(0, stock[s].reserved - Demand(lines, s)))
  }

  function Sold(stock: Stock, lines: seq<Line>): Stock
  {
    map s <- stock :: if Demand(lines, s) == 0 then stock[s]
                      else stock[s].(reserved := Max(0, stock[s].reserved - Demand(lines, s)),
                                     onHand := Max(0, stock[s].onHand - Demand(lines, s)))
  }

  /** Never below zero on hand, and never below what is reserved. */
  function AfterAdjust(d: Shop, s: int, delta: int): (Shop, Outcome)
  {
    if s !in d.stock || d.stock[s].onHand + delta < 0 || d.stock[s].onHand + delta - d.stock[s].reserved < 0
    then (d, Refused)
    else (d.(stock := d.stock[s := d.stock[s].(onHand := d.stock[s].onHand + delta)],
             adjustments := d.adjustments + [Adjustment(s, delta)]), Done)
  }

  // ---------------------------------------------------------------- orders

  /** The check of one item, by itself. */
  predicate ItemOk(stock: Stock, i: Item)
  {
    i.sku in stock && i.qty > 0 && stock[i.sku].saleable && Available(stock[i.sku]) > 0 &&
    Available(stock[i.sku]) >= i.qty
  }

  predicate ItemsOk(stock: Stock, items: seq<Item>) { items != [] && forall i <- items :: ItemOk(stock, i) }

  function Frozen(stock: Stock, items: seq<Item>): seq<Line>
  {
    seq(|items|, i requires 0 <= i < |items| =>
      Line(items[i].sku, items[i].qty, if items[i].sku in stock then stock[items[i].sku].price else 0))
  }

  function Total(lines: seq<Line>): int
  {
    if lines == [] then 0 else Total(lines[..|lines| - 1]) + lines[|lines| - 1].price * lines[|lines| - 1].qty
  }

  function AfterCreate(d: Shop, items: seq<Item>, deadline: int): (Shop, Outcome)
  {
    if !ItemsOk(d.stock, items) then (d, Refused)
    else
      var lines := Frozen(d.stock, items);
      (d.(stock := Held(d.stock, lines),
          orders := d.orders + [Order(lines, Total(lines), PendingPayment, false, false, NoGoods, deadline)]), Done)
  }

  /** The reservation of an order, given back exactly once. */
  function Release(d: Shop, id: nat): Shop
    requires id < |d.orders|
  {
    if d.orders[id].released then d
    else d.(stock := Freed(d.stock, d.orders[id].lines), orders := d.orders[id := d.orders[id].(released := true)])
  }

  function SetStatus(d: Shop, id: nat, status: Status): Shop
    requires id < |d.orders|
  {
    d.(orders := d.orders[id := d.orders[id].(status := status)])
  }

  function AfterExpire(d: Shop, id: nat): (Shop, Outcome)
  {
    if id >= |d.orders| then (d, Refused)
    else if d.orders[id].status != PendingPayment then (Release(d, id), Refused)
    else (SetStatus(Release(d, id), id, Expired), Done)
  }

  predicate PastDeadline(o: Order, now: int) { o.deadline <= now }

  predicate OpenExc(excs: seq<Exc>, id: nat) { exists e <- excs :: e.orderId == id && e.open }

  function AfterCancel(d: Shop, id: nat, now: int): (Shop, Outcome)
  {
    if id >= |d.orders| || d.orders[id].status != PendingPayment then (d, Refused)
    else if PastDeadline(d.orders[id], now) then (AfterExpire(d, id).0, Refused)
    else if OpenExc(d.excs, id) then (d, Refused)
    else (SetStatus(Release(d, id), id, Cancelled), Done)
  }

  /** Money after the deadline: the order expires, or has, and the money is booked as an exception. */
  function AfterLate(d: Shop, id: nat): Shop
    requires id < |d.orders|
  {
    var d' := AfterExpire(d, id).0;
    d'.(excs := d'.excs + [Exc(id, true, d.orders[id].amount, true, None)])
  }

  function AfterPay(d: Shop, id: nat, now: int): (Shop, Outcome)
  {
    if id >= |d.orders| then (d, Refused)
    else
      var o := d.orders[id];
      if o.status == Expired then (AfterLate(d, id), LateMoney)
      else if o.status != PendingPayment || o.released then (d, Refused)
      else if PastDeadline(o, now) then (AfterLate(d, id), LateMoney)
      else (d.(stock := Sold(d.stock, o.lines),
               orders := d.orders[id := o.(released := true, deducted := true, status := Paid,
                                           fulfilment := PendingHandoff)]), Done)
  }

  predicate Active(r: Refund) { r.status.Requested? || r.status.Approved? }

  predicate HasActive(refunds: seq<Refund>, id: nat) { exists r <- refunds :: r.orderId == id && Active(r) }

  predicate HasSettled(refunds: seq<Refund>, id: nat) { exists r <- refunds :: r.orderId == id && r.status.Settled? }

  function AfterHandoff(d: Shop, id: nat): (Shop, Outcome)
  {
    if id >= |d.orders| || d.orders[id].status != Paid || d.orders[id].fulfilment != PendingHandoff ||
       HasSettled(d.refunds, id) then (d, Refused)
    else (d.(orders := d.orders[id := d.orders[id].(fulfilment := Fulfilled)]), Done)
  }

  // ---------------------------------------------------------------- refunds and exceptions

  /** The newest late arrival of an order. */
  function LatestLate(excs: seq<Exc>, id: nat): Option<nat>
  {
    if excs == [] then None
    else if excs[|excs| - 1].orderId == id && excs[|excs| - 1].late then Some(|excs| - 1)
    else LatestLate(excs[..|excs| - 1], id)
  }

  function AfterRefund(d: Shop, id: nat): (Shop, Outcome)
  {
    if id >= |d.orders| then (d, Refused)
    else
      var late := if d.orders[id].status == Expired then LatestLate(d.excs, id) else None;
      if d.orders[id].status != Paid && late.None? then (d, Refused)
      else if HasActive(d.refunds, id) || HasSettled(d.refunds, id) then (d, Refused)
      else
        var amount := if late.Some? && late.value < |d.excs| then d.excs[late.value].amount else d.orders[id].amount;
        (d.(refunds := d.refunds + [Refund(id, amount, late, Requested, 0, 0, false)]), Done)
  }

  function SetRefund(d: Shop, r: nat, refund: Refund): Shop
    requires r < |d.refunds|
  {
    d.(refunds := d.refunds[r := refund])
  }

  function AfterApprove(d: Shop, r: nat): (Shop, Outcome)
  {
    if r >= |d.refunds| || d.refunds[r].status != Requested then (d, Refused)
    else (SetRefund(d, r, d.refunds[r].(status := Approved)), Done)
  }

  /** Money that came in late may not be refused back; a withdrawal needs the buyer's word. */
  function AfterReject(d: Shop, r: nat, withdraw: bool, confirmed: bool): (Shop, Outcome)
  {
    if r >= |d.refunds| || d.refunds[r].source.Some? || !Active(d.refunds[r]) || (withdraw && !confirmed)
    then (d, Refused)
    else (SetRefund(d, r, d.refunds[r].(status := if withdraw then Withdrawn else Rejected)), Done)
  }

  /** What a refund has to pay: the late money it names, or the frozen amount of the order. */
  function Obligation(d: Shop, r: nat): Option<int>
    requires r < |d.refunds|
  {
    var x := d.refunds[r];
    if x.source.None? then Some(x.amount)
    else if x.source.value < |d.excs| && d.excs[x.source.value].late then Some(d.excs[x.source.value].amount)
    else None
  }

  function AfterSettle(d: Shop, r: nat, amount: int, proof: bool): (Shop, Outcome)
  {
    if r >= |d.refunds| || d.refunds[r].status != Approved || amount <= 0 || !proof ||
       Obligation(d, r) != Some(amount) then (d, Refused)
    else
      var x := d.refunds[r];
      var d' := SetRefund(d, r, x.(status := Settled, required := amount, settled := amount));
      if x.source.Some? && x.source.value < |d.excs| && d.excs[x.source.value].open
      then (d'.(excs := d.excs[x.source.value := d.excs[x.source.value].(open := false, closedBy := Some(r))]), Done)
      else (d', Done)
  }

  /** The goods of a refunded order come back in full, as adjustments of their own. */
  function Returned(d: Shop, lines: seq<Line>): Shop
  {
    if lines == [] then d
    else AfterAdjust(Returned(d, lines[..|lines| - 1]), lines[|lines| - 1].sku, lines[|lines| - 1].qty).0
  }

  function AfterReturn(d: Shop, r: nat): (Shop, Outcome)
  {
    if r >= |d.refunds| || d.refunds[r].status != Settled || d.refunds[r].returned ||
       d.refunds[r].orderId >= |d.orders| || !d.orders[d.refunds[r].orderId].deducted then (d, Refused)
    else (SetRefund(d, r, d.refunds[r].(returned := true)).(
            stock := Returned(d, d.orders[d.refunds[r].orderId].lines).stock,
            adjustments := Returned(d, d.orders[d.refunds[r].orderId].lines).adjustments), Done)
  }

  /** Late money cannot be talked away. */
  function AfterResolve(d: Shop, e: nat): (Shop, Outcome)
  {
    if e >= |d.excs| || !d.excs[e].open || d.excs[e].late then (d, Refused)
    else (d.(excs := d.excs[e := d.excs[e].(open := false)]), Done)
  }

  /** Any other payment exception. */
  function AfterRegister(d: Shop, id: nat, amount: int): Shop
  {
    d.(excs := d.excs + [Exc(id, false, amount, true, None)])
  }

  // ---------------------------------------------------------------- the domain, written in place

  lemma LastLine(lines: seq<Line>, i: nat, s: int)
    requires i < |lines|
    ensures Demand(lines[..i + 1], s) == Demand(lines[..i], s) + if lines[i].sku == s then lines[i].qty else 0
  {
    assert lines[..i + 1][..i] == lines[..i];
  }

  predicate Positive(lines: seq<Line>) { forall l <- lines :: l.qty > 0 }

  lemma {:induction false} DemandNotNegative(lines: seq<Line>, s: int)
    requires Positive(lines)
    ensures Demand(lines, s) >= 0
    ensures Demand(lines, s) > 0 <==> exists l <- lines :: l.sku == s
  {
    if lines != [] {
      var front := lines[..|lines| - 1];
      DemandNotNegative(front, s);
      assert lines == front + [lines[|lines| - 1]];
    }
  }

  lemma FreedNext(stock: Stock, lines: seq<Line>, k: nat)
    requires k < |lines| && Positive(lines)
    ensures var (f, s) := (Freed(stock, lines[..k]), lines[k].sku);
            Freed(stock, lines[..k + 1]) ==
            if s in f then f[s := f[s].(reserved := Max(0, f[s].reserved - lines[k].qty))] else f
  {
    NextFacts(stock, lines, k);
  }

  lemma SoldNext(stock: Stock, lines: seq<Line>, k: nat)
    requires k < |lines| && Positive(lines)
    ensures var (f, s) := (Sold(stock, lines[..k]), lines[k].sku);
            Sold(stock, lines[..k + 1]) ==
            if s in f then f[s := f[s].(reserved := Max(0, f[s].reserved - lines[k].qty),
                                        onHand := Max(0, f[s].onHand - lines[k].qty))] else f
  {
    NextFacts(stock, lines, k);
  }

  lemma NextFacts(stock: Stock, lines: seq<Line>, k: nat)
    requires k < |lines| && Positive(lines)
    ensures lines[k].qty > 0
    ensures forall s | s in stock ::
              Demand(lines[..k + 1], s) == Demand(lines[..k], s) + (if lines[k].sku == s then lines[k].qty else 0) &&
              Demand(lines[..k], s) >= 0
  {
    forall s | s in stock
      ensures Demand(lines[..k + 1], s) == Demand(lines[..k], s) + (if lines[k].sku == s then lines[k].qty else 0) &&
              Demand(lines[..k], s) >= 0
    {
      LastLine(lines, k, s);
      DemandNotNegative(lines[..k], s);
    }
  }

  lemma FrozenPositive(stock: Stock, items: seq<Item>)
    requires ItemsOk(stock, items)
    ensures Positive(Frozen(stock, items))
  {
    forall l <- Frozen(stock, items) ensures l.qty > 0 {
      var i :| 0 <= i < |items| && l == Frozen(stock, items)[i];
      assert ItemOk(stock, items[i]);
    }
  }

  class MerchShop {
    var stock: Stock
    var orders: seq<Order>
    var refunds: seq<Refund>
    var excs: seq<Exc>
    var adjustments: seq<Adjustment>

    /** No order has a line without a positive quantity. */
    ghost predicate Valid()
      reads this`orders
    {
      forall o <- orders :: Positive(o.lines)
    }

    constructor (stock: Stock)
      ensures Valid()
      ensures Value() == Shop(stock, [], [], [], [])
    {
      this.stock, orders, refunds, excs, adjustments := stock, [], [], [], [];
    }

    ghost function Value(): Shop
      reads this
    {
      Shop(stock, orders, refunds, excs, adjustments)
    }

    method AdjustInventory(s: int, delta: int) returns (out: Outcome)
      modifies this`stock, this`adjustments
      ensures (Value(), out) == AfterAdjust(old(Value()), s, delta)
    {
      if s !in stock { return Refused; }
      var after := stock[s].onHand + delta;
      if after < 0 { return Refused; }
      if after - stock[s].reserved < 0 { return Refused; }
      stock := stock[s := stock[s].(onHand := after)];
      adjustments := adjustments + [Adjustment(s, delta)];
      out := Done;
    }

    /** Every item is checked on its own and its price frozen. */
    method CheckItems(items: seq<Item>) returns (ok: bool, lines: seq<Line>, amount: int)
      ensures ok <==> forall i <- items :: ItemOk(stock, i)
      ensures ok ==> lines == Frozen(stock, items) && amount == Total(lines)
    {
      lines, amount := [], 0;
      for k := 0 to |items|
        invariant forall i <- items[..k] :: ItemOk(stock, i)
        invariant lines == Frozen(stock, items[..k]) && amount == Total(lines)
      {
        assert items[..k + 1] == items[..k] + [items[k]];
        if !ItemOk(stock, items[k]) { return false, lines, amount; }
        var l := Line(items[k].sku, items[k].qty, stock[items[k].sku].price);
        assert Frozen(stock, items[..k + 1]) == lines + [l];
        assert (lines + [l])[..k] == lines;
        lines, amount := lines + [l], amount + l.price * l.qty;
      }
      assert items[..|items|] == items;
      ok := true;
    }

    method CreateOrder(items: seq<Item>, deadline: int) returns (out: Outcome)
      requires Valid()
      modifies this
      ensures Valid()
      ensures (Value(), out) == AfterCreate(old(Value()), items, deadline)
    {
      if items == [] { return Refused; }
      var ok, lines, amount := CheckItems(items);
      if !ok { return Refused; }
      FrozenPositive(stock, items);
      Hold(lines);
      orders := orders + [Order(lines, amount, PendingPayment, false, false, NoGoods, deadline)];
      out := Done;
    }

    method Hold(lines: seq<Line>)
      modifies this`stock
      ensures stock == Held(old(stock), lines)
    {
      for k := 0 to |lines|
        invariant stock == Held(old(stock), lines[..k])
      {
        forall s
          ensures Demand(lines[..k + 1], s) == Demand(lines[..k], s) + if lines[k].sku == s then lines[k].qty else 0
        {
          LastLine(lines, k, s);
        }
        var s := lines[k].sku;
        if s in stock { stock := stock[s := stock[s].(reserved := stock[s].reserved + lines[k].qty)]; }
      }
      assert lines[..|lines|] == lines;
    }

    /** Line by line, never below zero. */
    method Free(lines: seq<Line>)
      requires Positive(lines)
      modifies this`stock
      ensures stock == Freed(old(stock), lines)
    {
      for k := 0 to |lines|
        invariant stock == Freed(old(stock), lines[..k])
      {
        FreedNext(old(stock), lines, k);
        var s := lines[k].sku;
        if s in stock { stock := stock[s := stock[s].(reserved := Max(0, stock[s].reserved - lines[k].qty))]; }
      }
      assert lines[..|lines|] == lines;
    }

    /** Paid goods leave the reservation and the shelf together. */
    method Sell(lines: seq<Line>)
      requires Positive(lines)
      modifies this`stock
      ensures stock == Sold(old(stock), lines)
    {
      for k := 0 to |lines|
        invariant stock == Sold(old(stock), lines[..k])
      {
        SoldNext(old(stock), lines, k);
        var s := lines[k].sku;
        if s in stock {
          stock := stock[s := stock[s].(reserved := Max(0, stock[s].reserved - lines[k].qty),
                                        onHand := Max(0, stock[s].onHand - lines[k].qty))];
        }
      }
      assert lines[..|lines|] == lines;
    }

    method ReleaseReservation(id: nat) returns (released: bool)
      requires Valid() && id < |orders|
      modifies this`stock, this`orders
      ensures Valid()
      ensures Value() == Release(old(Value()), id) && released == !old(orders)[id].released
    {
      if orders[id].released { return false; }
      assert orders[id] in orders;
      Free(orders[id].lines);
      orders := orders[id := orders[id].(released := true)];
      released := true;
    }

    method ExpireOrder(id: nat) returns (out: Outcome)
      requires Valid()
      modifies this`stock, this`orders
      ensures Valid()
      ensures (Value(), out) == AfterExpire(old(Value()), id)
    {
      if id >= |orders| { return Refused; }
      var pending := orders[id].status == PendingPayment;
      var _ := ReleaseReservation(id);
      if !pending { return Refused; }
      orders := orders[id := orders[id].(status := Expired)];
      out := Done;
    }

    method CancelOrder(id: nat, now: int) returns (out: Outcome)
      requires Valid()
      modifies this`stock, this`orders
      ensures Valid()
      ensures (Value(), out) == AfterCancel(old(Value()), id, now)
      ensures out.Done? ==> id < |old(orders)| && now < old(orders)[id].deadline
    {
      if id >= |orders| || orders[id].status != PendingPayment { return Refused; }
      if PastDeadline(orders[id], now) {
        out := ExpireOrder(id);
        return Refused;
      }
      if OpenExc(excs, id) { return Refused; }
      var _ := ReleaseReservation(id);
      orders := orders[id := orders[id].(status := Cancelled)];
      out := Done;
    }

    method LateArrival(id: nat)
      requires Valid() && id < |orders|
      modifies this`stock, this`orders, this`excs
      ensures Valid()
      ensures Value() == AfterLate(old(Value()), id)
    {
      var amount := orders[id].amount;
      var _ := ExpireOrder(id);
      excs := excs + [Exc(id, true, amount, true, None)];
    }

    method PayOrder(id: nat, now: int) returns (out: Outcome)
      requires Valid()
      modifies this`stock, this`orders, this`excs
      ensures Valid()
      ensures (Value(), out) == AfterPay(old(Value()), id, now)
      ensures out.Done? ==> id < |old(orders)| && now < old(orders)[id].deadline
      ensures out.LateMoney? ==>
                id < |old(orders)| && (old(orders)[id].status.Expired? || old(orders)[id].deadline <= now)
    {
      if id >= |orders| { return Refused; }
      if orders[id].status == Expired {
        LateArrival(id);
        return LateMoney;
      }
      if orders[id].status != PendingPayment || orders[id].released { return Refused; }
      if PastDeadline(orders[id], now) {
        LateArrival(id);
        return LateMoney;
      }
      assert orders[id] in orders;
      Sell(orders[id].lines);
      orders := orders[id := orders[id].(released := true, deducted := true, status := Paid,
                                         fulfilment := PendingHandoff)];
      out := Done;
    }

    method HandOff(id: nat) returns (out: Outcome)
      requires Valid()
      modifies this`orders
      ensures Valid()
      ensures (Value(), out) == AfterHandoff(old(Value()), id)
    {
      if id >= |orders| || orders[id].status != Paid || orders[id].fulfilment != PendingHandoff { return Refused; }
      if HasSettled(refunds, id) { return Refused; }
      orders := orders[id := orders[id].(fulfilment := Fulfilled)];
      out := Done;
    }

    method CreateRefund(id: nat) returns (out: Outcome)
      modifies this`refunds
      ensures (Value(), out) == AfterRefund(old(Value()), id)
    {
      if id >= |orders| { return Refused; }
      var late := if orders[id].status == Expired then LatestLate(excs, id) else None;
      if orders[id].status != Paid && late.None? { return Refused; }
      if HasActive(refunds, id) { return Refused; }
      if HasSettled(refunds, id) { return Refused; }
      var amount := if late.Some? && late.value < |excs| then excs[late.value].amount else orders[id].amount;
      refunds := refunds + [Refund(id, amount, late, Requested, 0, 0, false)];
      out := Done;
    }

    method ApproveRefund(r: nat) returns (out: Outcome)
      modifies this`refunds
      ensures (Value(), out) == AfterApprove(old(Value()), r)
    {
      if r >= |refunds| || refunds[r].status != Requested { return Refused; }
      refunds := refunds[r := refunds[r].(status := Approved)];
      out := Done;
    }

    method RejectRefund(r: nat, withdraw: bool, confirmed: bool) returns (out: Outcome)
      modifies this`refunds
      ensures (Value(), out) == AfterReject(old(Value()), r, withdraw, confirmed)
    {
      if r >= |refunds| || refunds[r].source.Some? || !Active(refunds[r]) { return Refused; }
      if withdraw && !confirmed { return Refused; }
      refunds := refunds[r := refunds[r].(status := if withdraw then Withdrawn else Rejected)];
      out := Done;
    }

    method SettleRefund(r: nat, amount: int, proof: bool) returns (out: Outcome)
      modifies this`refunds, this`excs
      ensures (Value(), out) == AfterSettle(old(Value()), r, amount, proof)
    {
      if r >= |refunds| || refunds[r].status != Approved || amount <= 0 || !proof { return Refused; }
      var x := refunds[r];
      if x.source.Some? && (x.source.value >= |excs| || !excs[x.source.value].late) { return Refused; }
      if x.source.None? && amount != x.amount { return Refused; }
      if x.source.Some? && amount != excs[x.source.value].amount { return Refused; }
      refunds := refunds[r := x.(status := Settled, required := amount, settled := amount)];
      if x.source.Some? && excs[x.source.value].open {
        excs := excs[x.source.value := excs[x.source.value].(open := false, closedBy := Some(r))];
      }
      out := Done;
    }

    method ReceiveReturn(r: nat) returns (out: Outcome)
      modifies this`stock, this`adjustments, this`refunds
      ensures (Value(), out) == AfterReturn(old(Value()), r)
    {
      if r >= |refunds| || refunds[r].status != Settled || refunds[r].returned { return Refused; }
      var id := refunds[r].orderId;
      if id >= |orders| || !orders[id].deducted { return Refused; }
      var lines := orders[id].lines;
      for k := 0 to |lines|
        invariant Value() == Returned(old(Value()), lines[..k])
        invariant orders == old(orders) && refunds == old(refunds) && excs == old(excs)
      {
        assert lines[..k + 1][..k] == lines[..k];
        var _ := AdjustInventory(lines[k].sku, lines[k].qty);
      }
      assert lines[..|lines|] == lines;
      refunds := refunds[r := refunds[r].(returned := true)];
      out := Done;
    }

    method ResolveException(e: nat) returns (out: Outcome)
      modifies this`excs
      ensures (Value(), out) == AfterResolve(old(Value()), e)
    {
      if e >= |excs| || !excs[e].open { return Refused; }
      if excs[e].late { return Refused; }
      excs := excs[e := excs[e].(open := false)];
      out := Done;
    }

    method RegisterException(id: nat, amount: int)
      modifies this`excs
      ensures Value() == AfterRegister(old(Value()), id, amount)
    {
      excs := excs + [Exc(id, false, amount, true, None)];
    }
  }
}
