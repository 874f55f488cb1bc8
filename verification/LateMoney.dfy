/**
  The promises of the merchandise side over whole runs, and the exact condition under which money that came in late can
  still be paid back.
*/
module LateMoney {
  import opened Common
  import opened Merch
  import opened MerchRuns

  // ---------------------------------------------------------------- promises over every run

  /** A shop on its first day. */
  ghost predicate Opening(d: Shop, base: map<int, int>)
  {
    d == Shop(d.stock, [], [], [], []) && base.Keys == d.stock.Keys &&
    forall s <- d.stock :: d.stock[s].reserved == 0 && d.stock[s].onHand == base[s] >= 0
  }

  lemma OpeningIsFine(d: Shop, base: map<int, int>)
    requires Opening(d, base)
    ensures BooksOk(d) && ShelfOk(d, base)
  {
  }

  /**
    No oversell and no ghost reservation, at any moment of a run, exactly when every accepted order fitted: the shelf
    and the reservations then always add up.
  */
  lemma StockIsConserved(d: Shop, base: map<int, int>, run: seq<Command>)
    requires Opening(d, base)
    ensures ShelfThroughout(d, base, run) <==> FittingRun(d, run)
    ensures FittingRun(d, run) ==>
              var x := Run(d, run);
              forall s | s in x.stock ::
                s in base && 0 <= x.stock[s].reserved <= x.stock[s].onHand &&
                x.stock[s].reserved == SumBy(x.orders, HeldBy(s)) &&
                x.stock[s].onHand == base[s] + SumBy(x.adjustments, DeltaOf(s)) - SumBy(x.orders, SoldBy(s))
  {
    OpeningIsFine(d, base);
    ShelfThroughoutIff(d, base, run);
    var x := Run(d, run);
    assert FittingRun(d, run) ==> forall s <- x.stock :: SkuOk(x.stock[s], s, base[s], x.orders, x.adjustments);
  }

  /**
    A step moves an order once, out of waiting for payment; expired and cancelled are final and never deduct stock, a
    reservation is never taken again, and nothing is handed over once a refund is settled.
  */
  lemma OneMove(d: Shop, c: Command, id: nat)
    requires BooksOk(d) && id < |d.orders|
    ensures id < |After(d, c).orders| && Onward(d.orders[id], After(d, c).orders[id])
    ensures d.orders[id].status.Expired? || d.orders[id].status.Cancelled? ==> After(d, c).orders[id] == d.orders[id]
    ensures d.orders[id].released ==> After(d, c).orders[id].released
    ensures HasSettled(d.refunds, id) ==> After(d, c).orders[id].fulfilment == d.orders[id].fulfilment
  {
    hide MoneyOk, Held, Freed, Sold, Returned, ItemsOk, OpenExc, HasActive, LatestLate;
    assert OrderOk(d.orders[id]);
    if HasSettled(d.refunds, id) { SettledIsPaidOrExpired(d, id); }
  }

  /** Only orders that took money have settled refunds. */
  lemma SettledIsPaidOrExpired(d: Shop, id: nat)
    requires BooksOk(d) && id < |d.orders| && HasSettled(d.refunds, id)
    ensures !d.orders[id].status.PendingPayment?
  {
  }

  /** After a refund is settled before the goods are handed over, no run whatever hands them over. */
  lemma {:induction false} RefundedIsNeverFulfilled(d: Shop, run: seq<Command>, id: nat)
    requires BooksOk(d) && id < |d.orders| && HasSettled(d.refunds, id) && !d.orders[id].fulfilment.Fulfilled?
    ensures var x := Run(d, run);
            id < |x.orders| && HasSettled(x.refunds, id) && !x.orders[id].fulfilment.Fulfilled?
  {
    if run != [] {
      hide BooksOk, After;
      var x := Run(d, run[..|run| - 1]);
      RefundedIsNeverFulfilled(d, run[..|run| - 1], id);
      RunKeepsBooks(d, run[..|run| - 1]);
      OneMove(x, run[|run| - 1], id);
      RefundsMove(x, run[|run| - 1]);
      SettledStays(x, After(x, run[|run| - 1]), id);
    }
  }

  lemma SettledStays(d: Shop, d': Shop, id: nat)
    requires RefundsOnward(d, d') && HasSettled(d.refunds, id)
    ensures HasSettled(d'.refunds, id)
  {
    var x :| x in d.refunds && x.orderId == id && x.status.Settled?;
    var r: nat :| r < |d.refunds| && d.refunds[r] == x;
    assert d'.refunds[r] in d'.refunds;
  }

  /** What was paid back is to the cent what was owed. */
  lemma SettledInFull(d: Shop, base: map<int, int>, run: seq<Command>, r: nat)
    requires Opening(d, base) && r < |Run(d, run).refunds| && Run(d, run).refunds[r].status.Settled?
    ensures var x := Run(d, run);
            x.refunds[r].settled == x.refunds[r].required > 0 && Obligation(x, r) == Some(x.refunds[r].settled)
  {
    OpeningIsFine(d, base);
    RunKeepsBooks(d, run);
    assert RefundOk(Run(d, run).refunds[r], Run(d, run).orders, Run(d, run).excs);
  }

  /** Late money is closed exactly when a settled refund names it. */
  lemma ClosedMeansPaidBack(d: Shop, base: map<int, int>, run: seq<Command>, e: nat)
    requires Opening(d, base) && e < |Run(d, run).excs| && Run(d, run).excs[e].late
    ensures !Run(d, run).excs[e].open <==> exists r: nat :: PaidBack(e, r, Run(d, run).refunds)
  {
    OpeningIsFine(d, base);
    RunKeepsBooks(d, run);
    assert ExcOk(e, Run(d, run).excs, Run(d, run).orders, Run(d, run).refunds);
  }

  // ---------------------------------------------------------------- late money in total

  function LateCents(x: Exc): int { if x.late then x.amount else 0 }

  function OpenCents(x: Exc): int { if x.late && x.open then x.amount else 0 }

  function CentsPaidBack(r: Refund): int { if r.status.Settled? && r.source.Some? then r.settled else 0 }

  ghost predicate LateBalances(refunds: seq<Refund>, excs: seq<Exc>)
  {
    SumBy(excs, LateCents) == SumBy(excs, OpenCents) + SumBy(refunds, CentsPaidBack)
  }

  /** A refund under way that names late money finds it open: otherwise the order would have two refunds standing. */
  lemma SourceIsOpen(d: Shop, r: nat)
    requires BooksOk(d) && r < |d.refunds| && Active(d.refunds[r]) && d.refunds[r].source.Some?
    ensures var e := d.refunds[r].source.value;
            e < |d.excs| && d.excs[e].late && d.excs[e].open && d.excs[e].amount == d.refunds[r].amount
  {
    assert RefundOk(d.refunds[r], d.orders, d.excs);
    var e := d.refunds[r].source.value;
    assert ExcOk(e, d.excs, d.orders, d.refunds);
    forall k: nat ensures !PaidBack(e, k, d.refunds) {
      if k < |d.refunds| { assert RefundOk(d.refunds[k], d.orders, d.excs); }
    }
  }

  lemma SettleBalances(d: Shop, r: nat, amount: int, proof: bool)
    requires BooksOk(d) && LateBalances(d.refunds, d.excs)
    ensures var d' := AfterSettle(d, r, amount, proof).0; LateBalances(d'.refunds, d'.excs)
  {
    hide SumBy;
    var d' := AfterSettle(d, r, amount, proof).0;
    if AfterSettle(d, r, amount, proof).1.Done? {
      if d.refunds[r].source.Some? {
        SourceIsOpen(d, r);
        hide BooksOk;
        var e := d.refunds[r].source.value;
        SumByUpdate(d.excs, e, d'.excs[e], LateCents);
        SumByUpdate(d.excs, e, d'.excs[e], OpenCents);
      }
      hide BooksOk;
      SumByUpdate(d.refunds, r, d'.refunds[r], CentsPaidBack);
    }
  }

  lemma RefundBalances(refunds: seq<Refund>, excs: seq<Exc>, r: nat, x: Refund)
    requires LateBalances(refunds, excs) && r < |refunds| && CentsPaidBack(x) == CentsPaidBack(refunds[r])
    ensures LateBalances(refunds[r := x], excs)
  {
    SumByUpdate(refunds, r, x, CentsPaidBack);
  }

  lemma ExcBalances(refunds: seq<Refund>, excs: seq<Exc>, x: Exc)
    requires LateBalances(refunds, excs) && x.open
    ensures LateBalances(refunds, excs + [x])
  {
    SumByAppend(excs, x, LateCents);
    SumByAppend(excs, x, OpenCents);
  }

  lemma ResolveBalances(refunds: seq<Refund>, excs: seq<Exc>, e: nat)
    requires LateBalances(refunds, excs) && e < |excs| && !excs[e].late
    ensures LateBalances(refunds, excs[e := excs[e].(open := false)])
  {
    SumByUpdate(excs, e, excs[e].(open := false), LateCents);
    SumByUpdate(excs, e, excs[e].(open := false), OpenCents);
  }

  lemma ExpireKeepsMoney(d: Shop, id: nat)
    ensures AfterExpire(d, id).0.refunds == d.refunds && AfterExpire(d, id).0.excs == d.excs
  {
  }

  lemma StepBalances(d: Shop, c: Command)
    requires BooksOk(d) && LateBalances(d.refunds, d.excs)
    ensures LateBalances(After(d, c).refunds, After(d, c).excs)
  {
    hide BooksOk, LateBalances, Held, Sold, Returned, ItemsOk, OpenExc, HasActive, HasSettled, LatestLate, AfterExpire;
    match c
    case Cancel(id, _) => ExpireKeepsMoney(d, id);
    case Expire(id) => ExpireKeepsMoney(d, id);
    case Pay(id, _) =>
      ExpireKeepsMoney(d, id);
      if id < |d.orders| { ExcBalances(d.refunds, d.excs, Exc(id, true, d.orders[id].amount, true, None)); }
    case CreateRefund(id) =>
      hide SumBy;
      if |After(d, c).refunds| > |d.refunds| { NewRefundBalances(d.refunds, d.excs, After(d, c).refunds[|d.refunds|]); }
    case Approve(r) =>
      if r < |d.refunds| && d.refunds[r].status.Requested? {
        RefundBalances(d.refunds, d.excs, r, d.refunds[r].(status := Approved));
      }
    case Reject(r, withdraw, _) =>
      if r < |d.refunds| && Active(d.refunds[r]) {
        RefundBalances(d.refunds, d.excs, r, d.refunds[r].(status := if withdraw then Withdrawn else Rejected));
      }
    case Settle(r, amount, proof) => SettleBalances(d, r, amount, proof);
    case Return(r) =>
      if r < |d.refunds| { RefundBalances(d.refunds, d.excs, r, d.refunds[r].(returned := true)); }
    case Resolve(e) => if e < |d.excs| && !d.excs[e].late { ResolveBalances(d.refunds, d.excs, e); }
    case Register(id, amount) => ExcBalances(d.refunds, d.excs, Exc(id, false, amount, true, None));
    case _ =>
  }

  lemma NewRefundBalances(refunds: seq<Refund>, excs: seq<Exc>, x: Refund)
    requires LateBalances(refunds, excs) && !x.status.Settled?
    ensures LateBalances(refunds + [x], excs)
  {
    SumByAppend(refunds, x, CentsPaidBack);
  }

  /** Every cent that came in late is still open or has been paid back, after every run. */
  lemma {:induction false} LateMoneyIsConserved(d: Shop, base: map<int, int>, run: seq<Command>)
    requires Opening(d, base)
    ensures var x := Run(d, run);
            SumBy(x.excs, LateCents) == SumBy(x.excs, OpenCents) + SumBy(x.refunds, CentsPaidBack)
  {
    if run != [] {
      hide After, SumBy;
      var front := run[..|run| - 1];
      LateMoneyIsConserved(d, base, front);
      OpeningIsFine(d, base);
      RunKeepsBooks(d, front);
      StepBalances(Run(d, front), run[|run| - 1]);
    }
  }

  // ---------------------------------------------------------------- can late money still be paid back?

  ghost predicate IsOpenLate(d: Shop, e: nat) { e < |d.excs| && d.excs[e].late && d.excs[e].open }

  ghost predicate HasStanding(refunds: seq<Refund>, id: nat)
  {
    exists r: nat :: r < |refunds| && refunds[r].orderId == id && Standing(refunds[r])
  }

  ghost predicate UnderWay(d: Shop, e: nat, r: nat)
  {
    r < |d.refunds| && Active(d.refunds[r]) && d.refunds[r].source == Some(e)
  }

  /**
    Either a refund that names this money is under way, or the order has no standing refund and this is its newest late
    arrival, which is the one that a new refund will name.
  */
  ghost predicate Closable(d: Shop, e: nat)
    requires e < |d.excs|
  {
    d.excs[e].amount > 0 &&
    ((exists r: nat :: UnderWay(d, e, r)) ||
     (!HasStanding(d.refunds, d.excs[e].orderId) && LatestLate(d.excs, d.excs[e].orderId) == Some(e)))
  }

  ghost predicate Stuck(d: Shop, e: nat) { IsOpenLate(d, e) && !Closable(d, e) }

  lemma LatestAppend(excs: seq<Exc>, x: Exc, id: nat)
    ensures LatestLate(excs + [x], id) == if x.late && x.orderId == id then Some(|excs|) else LatestLate(excs, id)
  {
  }

  /** Closing another exception does not change which late arrival is the newest. */
  lemma {:induction false} LatestSame(excs: seq<Exc>, excs': seq<Exc>, id: nat)
    requires |excs| == |excs'|
    requires forall i | 0 <= i < |excs| :: excs'[i].late == excs[i].late && excs'[i].orderId == excs[i].orderId
    ensures LatestLate(excs', id) == LatestLate(excs, id)
  {
    if excs != [] { LatestSame(excs[..|excs| - 1], excs'[..|excs| - 1], id); }
  }

  /** How the exceptions of a shop move on: identities stay, late ones close only by a settlement that names them. */
  ghost predicate ExcsOnward(d: Shop, c: Command, d': Shop)
  {
    |d.excs| <= |d'.excs| <= |d.excs| + 1 &&
    (forall i: nat | i < |d.excs| ::
      d'.excs[i] == d.excs[i].(open := d'.excs[i].open, closedBy := d'.excs[i].closedBy) &&
      (d.excs[i].late && d.excs[i].open && !d'.excs[i].open ==>
        c.Settle? && UnderWay(d, i, c.refund) && d.excs[i].amount > 0))
  }

  lemma ExcsMove(d: Shop, c: Command)
    ensures ExcsOnward(d, c, After(d, c))
  {
    hide Held, Freed, Sold, Returned, ItemsOk, OpenExc, HasActive, HasSettled, LatestLate;
  }

  /** How the refunds of a shop move on. */
  ghost predicate RefundsOnward(d: Shop, d': Shop)
  {
    |d.refunds| <= |d'.refunds| <= |d.refunds| + 1 &&
    (forall r: nat | r < |d.refunds| ::
      d'.refunds[r].orderId == d.refunds[r].orderId && d'.refunds[r].source == d.refunds[r].source &&
      (Standing(d'.refunds[r]) ==> Standing(d.refunds[r])) && (Active(d'.refunds[r]) ==> Active(d.refunds[r])) &&
      (d.refunds[r].source.Some? && Standing(d.refunds[r]) ==> Standing(d'.refunds[r])) &&
      (d.refunds[r].status.Settled? ==> d'.refunds[r].status.Settled?)) &&
    (|d'.refunds| > |d.refunds| ==> FreshRefund(d, d'.refunds[|d.refunds|]))
  }

  ghost predicate FreshRefund(d: Shop, x: Refund)
  {
    x.orderId < |d.orders| && !HasActive(d.refunds, x.orderId) && !HasSettled(d.refunds, x.orderId) &&
    (x.source.Some? ==> LatestLate(d.excs, x.orderId) == x.source) &&
    (d.orders[x.orderId].status.Expired? ==> x.source.Some?)
  }

  lemma RefundsMove(d: Shop, c: Command)
    ensures RefundsOnward(d, After(d, c))
  {
    hide Held, Freed, Sold, Returned, ItemsOk, OpenExc, HasActive, HasSettled, LatestLate;
  }

  lemma NoneStanding(refunds: seq<Refund>, id: nat)
    ensures HasStanding(refunds, id) <==> HasActive(refunds, id) || HasSettled(refunds, id)
  {
  }

  /** The standing refund of an expired order is for late money, so it never goes away. */
  lemma StandingStays(d: Shop, c: Command, id: nat)
    requires BooksOk(d) && id < |d.orders| && d.orders[id].status.Expired? && HasStanding(d.refunds, id)
    ensures HasStanding(After(d, c).refunds, id)
  {
    RefundsMove(d, c);
    var r: nat :| r < |d.refunds| && d.refunds[r].orderId == id && Standing(d.refunds[r]);
    assert RefundOk(d.refunds[r], d.orders, d.excs);
    assert After(d, c).refunds[r].orderId == id && Standing(After(d, c).refunds[r]);
  }

  lemma LatestMoves(d: Shop, c: Command, e: nat)
    requires e < |d.excs|
    ensures var id := d.excs[e].orderId;
            LatestLate(After(d, c).excs, id) == Some(e) ==> LatestLate(d.excs, id) == Some(e)
  {
    hide After;
    ExcsMove(d, c);
    var excs, id := After(d, c).excs, d.excs[e].orderId;
    var front := excs[..|d.excs|];
    LatestSame(d.excs, front, id);
    if |excs| > |d.excs| {
      assert excs == front + [excs[|d.excs|]];
      LatestAppend(front, excs[|d.excs|], id);
    } else {
      assert excs == front;
    }
  }

  lemma NotUnderWay(d: Shop, c: Command, e: nat, r: nat)
    requires Stuck(d, e) && d.excs[e].amount > 0
    ensures !UnderWay(After(d, c), e, r)
  {
    hide After, LatestLate;
    RefundsMove(d, c);
    assert !UnderWay(d, e, r);
    var refunds := After(d, c).refunds;
    if r == |d.refunds| < |refunds| {
      LatestIsLate(d.excs, refunds[r].orderId);
      NoneStanding(d.refunds, refunds[r].orderId);
    }
  }

  /** Once stuck, no step helps. */
  lemma StuckStays(d: Shop, c: Command, e: nat)
    requires BooksOk(d) && Stuck(d, e)
    ensures Stuck(After(d, c), e)
  {
    hide After, LatestLate;
    ExcsMove(d, c);
    LatestMoves(d, c, e);
    assert ExcOk(e, d.excs, d.orders, d.refunds);
    if HasStanding(d.refunds, d.excs[e].orderId) { StandingStays(d, c, d.excs[e].orderId); }
    if d.excs[e].amount > 0 {
      forall r: nat ensures !UnderWay(After(d, c), e, r) { NotUnderWay(d, c, e, r); }
    }
  }

  lemma {:induction false} StuckForGood(d: Shop, run: seq<Command>, e: nat)
    requires BooksOk(d) && Stuck(d, e)
    ensures Stuck(Run(d, run), e)
  {
    if run != [] {
      hide BooksOk, Stuck;
      StuckForGood(d, run[..|run| - 1], e);
      RunKeepsBooks(d, run[..|run| - 1]);
      StuckStays(Run(d, run[..|run| - 1]), run[|run| - 1], e);
    }
  }

  /** The way out: ask for a refund unless one is under way, approve it, pay exactly what came in. */
  function WayOut(d: Shop, e: nat, r: nat): seq<Command>
    requires e < |d.excs|
  {
    var settle := Settle(r, d.excs[e].amount, true);
    if r >= |d.refunds| then [CreateRefund(d.excs[e].orderId), Approve(r), settle]
    else if d.refunds[r].status.Requested? then [Approve(r), settle]
    else [settle]
  }

  lemma ApprovedPays(d: Shop, e: nat, r: nat)
    requires BooksOk(d) && IsOpenLate(d, e) && d.excs[e].amount > 0
    requires UnderWay(d, e, r) && d.refunds[r].status.Approved?
    ensures var d' := After(d, Settle(r, d.excs[e].amount, true)); !d'.excs[e].open && d'.excs[e].closedBy == Some(r)
  {
    assert RefundOk(d.refunds[r], d.orders, d.excs);
  }

  lemma RequestedPays(d: Shop, e: nat, r: nat)
    requires BooksOk(d) && IsOpenLate(d, e) && UnderWay(d, e, r) && d.excs[e].amount > 0
    ensures var d' := if d.refunds[r].status.Requested? then After(d, Approve(r)) else d;
            !After(d', Settle(r, d.excs[e].amount, true)).excs[e].open
  {
    if d.refunds[r].status.Requested? {
      StepKeepsBooks(d, Approve(r));
      ApprovedPays(After(d, Approve(r)), e, r);
    } else {
      ApprovedPays(d, e, r);
    }
  }

  lemma NewRefundIsUnderWay(d: Shop, e: nat)
    requires BooksOk(d) && IsOpenLate(d, e) && !HasStanding(d.refunds, d.excs[e].orderId)
    requires LatestLate(d.excs, d.excs[e].orderId) == Some(e)
    ensures var d' := After(d, CreateRefund(d.excs[e].orderId));
            d'.excs == d.excs && UnderWay(d', e, |d.refunds|) && d'.refunds[|d.refunds|].status.Requested?
  {
    hide LatestLate;
    assert ExcOk(e, d.excs, d.orders, d.refunds);
    NoneStanding(d.refunds, d.excs[e].orderId);
  }

  lemma ShortRuns(d: Shop, a: Command, b: Command, c: Command)
    ensures Run(d, [a]) == After(d, a) && Run(d, [a, b]) == After(After(d, a), b)
    ensures Run(d, [a, b, c]) == After(After(After(d, a), b), c)
  {
    hide After;
    assert [a][..0] == [] && [a, b][..1] == [a] && [a, b, c][..2] == [a, b];
    assert Run(d, []) == d;
  }

  /**
    Money that came in late can still be paid back exactly when a refund naming it is under way, or nothing stands in
    the way of one. Otherwise no run whatever closes it: a second late payment of an order that has its refund stays
    open.
  */
  lemma PaidBackIff(d: Shop, e: nat)
    requires BooksOk(d) && IsOpenLate(d, e)
    ensures (exists run :: !IsOpenLate(Run(d, run), e)) <==> Closable(d, e)
  {
    hide BooksOk, LatestLate, HasStanding;
    if Closable(d, e) {
      if r: nat :| UnderWay(d, e, r) {
        WayOutWorks(d, e, r);
      } else {
        WayOutWorks(d, e, |d.refunds|);
      }
    } else {
      forall run ensures IsOpenLate(Run(d, run), e) { StuckForGood(d, run, e); }
    }
  }

  lemma WayOutWorks(d: Shop, e: nat, r: nat)
    requires BooksOk(d) && IsOpenLate(d, e) && d.excs[e].amount > 0
    requires UnderWay(d, e, r) || (r == |d.refunds| && !HasStanding(d.refunds, d.excs[e].orderId) &&
                                   LatestLate(d.excs, d.excs[e].orderId) == Some(e))
    ensures !IsOpenLate(Run(d, WayOut(d, e, r)), e)
  {
    hide BooksOk, LatestLate, HasStanding, After;
    var id, settle := d.excs[e].orderId, Settle(r, d.excs[e].amount, true);
    if r < |d.refunds| {
      ShortRuns(d, Approve(r), settle, settle);
      ShortRuns(d, settle, settle, settle);
      RequestedPays(d, e, r);
    } else {
      NewRefundIsUnderWay(d, e);
      StepKeepsBooks(d, CreateRefund(id));
      ShortRuns(d, CreateRefund(id), Approve(r), settle);
      RequestedPays(After(d, CreateRefund(id)), e, r);
    }
  }

  /** It does happen: when an expired order without a refund is paid twice, the first payment is stuck. */
  lemma SecondPaymentBlocksFirst(d: Shop, id: nat, now: int)
    requires BooksOk(d) && id < |d.orders| && d.orders[id].status.Expired?
    ensures var x := After(After(d, Pay(id, now)), Pay(id, now));
            Stuck(x, |d.excs|) && x.excs[|d.excs|].amount == d.orders[id].amount
  {
    assert OrderOk(d.orders[id]) && forall r: nat | r < |d.refunds| :: RefundOk(d.refunds[r], d.orders, d.excs);
    var d1 := After(d, Pay(id, now));
    var d2 := After(d1, Pay(id, now));
    assert d1.orders == d.orders && d1.excs == d.excs + [Exc(id, true, d.orders[id].amount, true, None)];
    assert d2.orders == d.orders && d2.excs == d1.excs + [Exc(id, true, d.orders[id].amount, true, None)];
    LatestAppend(d1.excs, Exc(id, true, d.orders[id].amount, true, None), id);
  }

  /** One order, expired and then paid twice, on a shop's first day: its first payment can never be paid back. */
  lemma StuckIsReached() returns (d: Shop, run: seq<Command>)
    ensures Opening(d, map[1 := 1]) && |run| == 4
    ensures Stuck(Run(d, run), 0) && Run(d, run).excs[0].amount == 500
  {
    d := Shop(map[1 := Sku(1, 0, 500, true)], [], [], [], []);
    var create := Create([Item(1, 1)], 60);
    OneOrder(d.stock);
    var placed := After(d, create);
    var expired := After(placed, Expire(0));
    assert |expired.orders| == 1 && expired.orders[0].status.Expired? && expired.orders[0].amount == 500;
    hide After;
    ShortRuns(d, create, Expire(0), Pay(0, 100));
    run := [create, Expire(0), Pay(0, 100), Pay(0, 100)];
    assert run[..3] == [create, Expire(0), Pay(0, 100)];
    RunKeepsBooks(d, [create, Expire(0)]);
    SecondPaymentBlocksFirst(expired, 0, 100);
  }

  lemma OneOrder(stock: Stock)
    requires stock == map[1 := Sku(1, 0, 500, true)]
    ensures ItemsOk(stock, [Item(1, 1)]) && Total(Frozen(stock, [Item(1, 1)])) == 500
  {
    assert Frozen(stock, [Item(1, 1)]) == [Line(1, 1, 500)] && [Line(1, 1, 500)][..0] == [];
  }
}
