/**
  The registration and payment services as they run: conditional updates one after the other inside a transaction,
  rolled back on an error. Every transaction is proved to be the step that Orders describes.
*/
module OrderService {
  import opened Common
  import opened Ledger
  import opened Counters
  import opened Quoting
  import opened Orders

  /** Marking the order row before the counters move comes to the same as doing both at once. */
  lemma RowFirst(db: Db, id: nat, marked: Order, o: Order, ch: Change)
    requires id < |db.orders| && marked.parts == db.orders[id].parts
    ensures AfterMove(db.(orders := db.orders[id := marked]), id, o, ch) == AfterMove(db, id, o, ch)
  {
    assert db.orders[id := marked][id := o] == db.orders[id := o];
  }

  class OrderService {
    const prices: PricingStore
    var free: map<Row, int>
    var orders: seq<Order>
    var proofs: seq<Proof>
    var receipts: seq<Receipt>
    var overpaid: seq<Overpayment>

    constructor (prices: PricingStore)
      ensures this.prices == prices
      ensures Rows() == Db(prices.table, prices.redemptions, map[], [], [], [], [])
    {
      this.prices := prices;
      free, orders, proofs, receipts, overpaid := map[], [], [], [], [];
    }

    /** All the rows. */
    function Rows(): Db
      reads this, prices
    {
      Db(prices.table, prices.redemptions, free, orders, proofs, receipts, overpaid)
    }

    /** Back to before a failed transaction, or on to what other transactions have committed. */
    method SetRows(db: Db)
      modifies this, prices
      ensures Rows() == db
    {
      prices.table, prices.redemptions, free := db.table, db.redemptions, db.free;
      orders, proofs, receipts, overpaid := db.orders, db.proofs, db.receipts, db.overpaid;
    }

    // -------------------------------------------------------------- steps inside a transaction

    /** Consume or Release, and then the registrations that are still pending. */
    method MoveSeats(id: nat, ch: Change, to: RegStatus) returns (err: Option<OrderError>)
      requires id < |orders| && (ch.Consume? || ch.Release?)
      modifies this`orders, prices
      ensures Yields(AfterMove(old(Rows()), id, old(orders)[id].(regs := MovePending(old(orders)[id].regs, to)), ch),
                     err, Rows())
    {
      var o := orders[id];
      var ok := prices.Move(id, CategoryIds(o.parts), RuleIds(o.parts), ch);
      if !ok { return Some(CountersShort); }
      orders := orders[id := o.(regs := MovePending(o.regs, to))];
      err := None;
    }

    /** The order row moves first, on its condition; only then are the counters touched. */
    method ConfirmPaid(id: nat, at: int) returns (err: Option<OrderError>)
      requires id < |orders|
      modifies this`orders, prices
      ensures Yields(AfterPaid(old(Rows()), id, at), err, Rows())
    {
      hide Allowed, ApplyAll, SeatsHeld;
      var o := orders[id];
      if !Payable(o) { return Some(StateConflict); }
      var marked := o.(status := Paid, paidAt := Some(at), deadline := None, hold := Consumed);
      RowFirst(Rows(), id, marked, PaidOrder(o, at), Change.Consume);
      orders := orders[id := marked];
      err := MoveSeats(id, Change.Consume, Confirmed);
    }

    method ReleaseOrder(id: nat, kind: ReleaseKind) returns (released: bool, err: Option<OrderError>)
      requires id < |orders|
      modifies this`orders, prices
      ensures Yields(AfterRelease(old(Rows()), id, kind), err, Rows())
      ensures err.None? ==> (released <==> Releasable(old(orders)[id], kind))
    {
      hide Allowed, ApplyAll, SeatsHeld;
      var o := orders[id];
      if !Releasable(o, kind) { return false, None; }
      var marked := o.(status := if kind.OrderExpiry? then Expired else Cancelled, deadline := None, hold := Released);
      RowFirst(Rows(), id, marked, ReleasedOrder(o, kind), Change.Release);
      orders := orders[id := marked];
      err := MoveSeats(id, Change.Release, Withdrawn);
      released := err.None?;
    }

    /** The row locks and states that both reviews start with. */
    method LockForReview(proofId: nat) returns (res: Result<nat, OrderError>)
      ensures res == UnderReview(Rows(), proofId)
    {
      if proofId >= |proofs| { return Err(NotFound); }
      var p := proofs[proofId];
      if p.orderId >= |orders| { return Err(OrderNotFound); }
      if p.status != Submitted || orders[p.orderId].status != ProofSubmitted { return Err(StateConflict); }
      res := Ok(p.orderId);
    }

    method MarkProofSubmitted(id: nat) returns (err: Option<OrderError>)
      requires id < |orders|
      modifies this`orders
      ensures err.None? <==>
              old(orders)[id].hold == Reserved && old(orders)[id].status in {PendingPayment, ProofRejected}
      ensures err.None? ==> orders == old(orders)[id := old(orders)[id].(status := ProofSubmitted, deadline := None)]
      ensures err.Some? ==> err == Some(StateConflict)
    {
      var o := orders[id];
      if o.hold != Reserved || (o.status != PendingPayment && o.status != ProofRejected) {
        return Some(StateConflict);
      }
      orders := orders[id := o.(status := ProofSubmitted, deadline := None)];
      err := None;
    }

    method MarkProofRejected(id: nat, deadline: int) returns (err: Option<OrderError>)
      requires id < |orders|
      modifies this`orders
      ensures err.None? <==> old(orders)[id].hold == Reserved && old(orders)[id].status == ProofSubmitted
      ensures err.None? ==>
              orders == old(orders)[id := old(orders)[id].(status := ProofRejected, deadline := Some(deadline))]
      ensures err.Some? ==> err == Some(StateConflict)
    {
      var o := orders[id];
      if o.hold != Reserved || o.status != ProofSubmitted { return Some(StateConflict); }
      orders := orders[id := o.(status := ProofRejected, deadline := Some(deadline))];
      err := None;
    }

    // -------------------------------------------------------------- transactions

    method CancelOrder(buyer: int, id: nat) returns (err: Option<OrderError>)
      modifies this, prices
      ensures Commits(AfterCancel(old(Rows()), buyer, id), old(Rows()), err, Rows())
    {
      if id >= |orders| || orders[id].buyer != buyer { return Some(OrderNotFound); }
      if orders[id].status != PendingPayment { return Some(StateConflict); }
      var before := Rows();
      var released;
      released, err := ReleaseOrder(id, OrderCancel);
      if err.None? && !released { err := Some(StateConflict); }
      if err.Some? { SetRows(before); }
    }

    method SubmitProof(buyer: int, id: nat, txnRef: string, declared: int, now: int) returns (err: Option<OrderError>)
      modifies this, prices
      ensures Commits(AfterSubmit(old(Rows()), buyer, id, txnRef, declared, now), old(Rows()), err, Rows())
      ensures err.None? ==>
                id < |old(orders)| && old(orders)[id].buyer == buyer && declared > 0 && 4 <= |txnRef| <= 64 &&
                (old(orders)[id].deadline.Some? ==> now < old(orders)[id].deadline.value)
    {
      if id >= |orders| || orders[id].buyer != buyer { return Some(OrderNotFound); }
      var o := orders[id];
      if o.status != PendingPayment && o.status != ProofRejected { return Some(StateConflict); }
      if o.deadline.Some? && o.deadline.value <= now { return Some(OrderExpired); }
      if |txnRef| < MIN_TXN_REF_LEN || |txnRef| > MAX_TXN_REF_LEN || declared <= 0 { return Some(InvalidInput); }
      if ProofPendingFor(proofs, id) { return Some(ProofPending); }
      if RefUsed(proofs, o.account, txnRef) { return Some(TxnRefUsed); }
      var before := Rows();
      proofs := proofs + [Proof(id, o.account, txnRef, declared, Submitted)];
      err := MarkProofSubmitted(id);
      if err.Some? { SetRows(before); }
    }

    method ApproveProof(proofId: nat, received: int, receivedAt: int) returns (err: Option<OrderError>)
      modifies this, prices
      ensures Commits(AfterApprove(old(Rows()), proofId, received, receivedAt), old(Rows()), err, Rows())
    {
      if received <= 0 { return Some(InvalidInput); }
      var locked := LockForReview(proofId);
      if locked.Err? { return Some(locked.error); }
      var id, p := locked.value, proofs[proofId];
      if received < orders[id].amount { return Some(ReceivedAmountTooLow); }
      var before := Rows();
      proofs := proofs[proofId := p.(status := Approved)];
      if ReceiptExists(receipts, p.account, p.txnRef) {
        SetRows(before);
        return Some(TxnRefUsed);
      }
      var over := received - orders[id].amount;
      receipts := receipts + [Receipt(p.account, p.txnRef, received, proofId, id, over > 0)];
      if over > 0 {
        overpaid := overpaid + [Overpayment(id, |receipts| - 1, over)];
      }
      assert Rows() == WithReceipt(before, proofId, id, received);
      err := ConfirmPaid(id, receivedAt);
      if err.Some? { SetRows(before); }
    }

    method RejectProof(proofId: nat, deadline: int) returns (err: Option<OrderError>)
      modifies this, prices
      ensures Commits(AfterReject(old(Rows()), proofId, deadline), old(Rows()), err, Rows())
    {
      var locked := LockForReview(proofId);
      if locked.Err? { return Some(locked.error); }
      var before := Rows();
      proofs := proofs[proofId := proofs[proofId].(status := Rejected)];
      err := MarkProofRejected(locked.value, deadline);
      if err.Some? { SetRows(before); }
    }

    /**
      Placing an order: checks, quote, seats, order row with its registrations, coupon use, and the confirmation when
      nothing is to be paid. `q` is the quote that was made, for callers to read after a success.
    */
    method CreateOrder(req: OrderRequest, cat: Catalog) returns (err: Option<OrderError>, q: Option<Quote>)
      requires WellFormed(cat)
      modifies this, prices
      ensures err.Some? ==> Rows() == old(Rows())
      ensures RefusedEarly(old(Rows()), req).Some? ==> err == RefusedEarly(old(Rows()), req)
      ensures RefusedEarly(old(Rows()), req).None? ==>
                (err.Some? && q.None? && err.value.QuoteFailed? &&
                Unquotable(cat, QuoteInputOf(req), err.value.quote)) ||
                (q.Some? &&
                IsQuote(cat, QuoteInputOf(req), AccountOf(old(Rows()), req), q.value) &&
                Commits(AfterCreate(old(Rows()), req, q.value), old(Rows()), err, Rows()))
    {
      q := None;
      var refused := RefusedEarly(Rows(), req);
      if refused.Some? { return refused, q; }
      var quoted := MakeQuote(cat, QuoteInputOf(req), AccountOf(Rows(), req));
      if quoted.Err? { return Some(QuoteFailed(quoted.error)), q; }
      q := Some(quoted.value);
      var before := Rows();
      err := PlaceOrder(req, quoted.value);
      if err.Some? { SetRows(before); }
    }

    /** The writes of an order whose quote is made. */
    method PlaceOrder(req: OrderRequest, q: Quote) returns (err: Option<OrderError>)
      requires RefusedEarly(Rows(), req).None? && req.account.Some?
      modifies this, prices
      ensures Yields(AfterCreate(old(Rows()), req, q), err, Rows())
    {
      hide ApplyAll, RefusedEarly, AfterMove, Allowed, AfterPaid, SeatsOf;
      var refused := prices.Reserve(CategoryIds(q.parts), RuleIds(q.parts), q.coupon);
      assert refused.Some? ==>
        refused.value.CategorySoldOut? || refused.value.PriceTierSoldOut? || refused.value.CouponExhausted?;
      assert refused == ReserveRefused(old(prices.table), q);
      if refused.Some? { return Some(ReserveFailed(refused.value)); }
      var id := |orders|;
      orders := orders + [NewOrder(req, req.account.value, q)];
      prices.RecordRedemption(id, q.coupon, q.couponDiscount);
      err := None;
      if q.amount == 0 {
        err := ConfirmPaid(id, req.now);
      }
    }

    // -------------------------------------------------------------- the staff and free sign-ups

    method UpdatePriceRule(rule: int, quota: Option<int>, repriced: bool) returns (err: Option<OrderError>)
      modifies prices
      ensures Commits(AfterRuleEdit(old(Rows()), rule, quota, repriced), old(Rows()), err, Rows())
    {
      var r := PriceRule(rule);
      if r !in prices.table { return Some(NotFound); }
      var c := prices.table[r];
      var taken := c.used + c.reserved;
      if taken > 0 && repriced { return Some(PriceRuleLocked); }
      if quota.Some? && quota.value < taken { return Some(QuotaBelowTaken); }
      prices.table := prices.table[r := c.(limit := quota)];
      err := None;
    }

    method UpdateCoupon(coupon: int, quota: int, active: bool) returns (err: Option<OrderError>)
      modifies prices
      ensures Commits(AfterCouponEdit(old(Rows()), coupon, quota, active), old(Rows()), err, Rows())
    {
      var r := Coupon(coupon);
      if r !in prices.table { return Some(NotFound); }
      var c := prices.table[r];
      if quota < c.used + c.reserved { return Some(QuotaBelowTaken); }
      prices.table := prices.table[r := c.(limit := Some(quota), active := active)];
      err := None;
    }

    method CreateFreeSignup(category: int) returns (err: Option<OrderError>)
      modifies this`free, prices
      ensures Commits(AfterSignup(old(Rows()), category), old(Rows()), err, Rows())
    {
      var r := Category(category);
      if r !in prices.table { return Some(NotFound); }
      if !Guard(prices.table[r], 1, Change.Occupy) { return Some(CategorySoldOutError); }
      prices.table := prices.table[r := Apply(prices.table[r], 1, Change.Occupy)];
      free := free[r := BaseOf(free, r) + 1];
      err := None;
    }
  }
}
