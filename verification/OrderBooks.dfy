/**
  What every run of the registration and payment transactions keeps: the seat books, the money, the proofs,
  the identifying cents, and one registration per person.
*/
module OrderBooks {
  import opened Common
  import opened Ledger
  import opened Counters
  import opened Quoting
  import opened Orders
  import Allocation

  // ---------------------------------------------------------------- one order

  function HoldOf(s: Status): HoldState
  {
    if s.Paid? then Consumed else if s.Expired? || s.Cancelled? then Released else Reserved
  }

  function RegOf(h: HoldState): RegStatus
  {
    match h case Reserved => Pending case Consumed => Confirmed case Released => Withdrawn
  }

  /** Status, reservation, registrations, deadline and payment date of an order all tell the same story. */
  ghost predicate StatusOk(o: Order)
  {
    o.hold == HoldOf(o.status) &&
    |o.regs| == |o.idHashes| == |o.parts| && (forall k | 0 <= k < |o.regs| :: o.regs[k] == RegOf(o.hold)) &&
    (o.deadline.Some? <==> o.status.PendingPayment? || o.status.ProofRejected?) &&
    (o.paidAt.Some? <==> o.status.Paid?)
  }

  ghost predicate MoneyOk(o: Order)
  {
    o.amount == o.list - o.discount == Allocation.Sum(PaidCents(o.parts)) >= 0 &&
    0 <= o.offset <= Min(o.discount, IDENT_OFFSET_CAP_CENTS) &&
    (o.amount == 0 ==> o.offset == 0)
  }

  ghost predicate RedemptionOk(redemptions: map<nat, Redemption>, id: nat, o: Order)
  {
    if o.coupon.None? then id !in redemptions
    else id in redemptions && redemptions[id] == Redemption(o.coupon.value, o.discount - o.offset, o.hold)
  }

  ghost predicate OrderOk(redemptions: map<nat, Redemption>, id: nat, o: Order)
  {
    StatusOk(o) && MoneyOk(o) && RedemptionOk(redemptions, id, o)
  }

  ghost predicate OrdersOk(orders: seq<Order>, redemptions: map<nat, Redemption>)
  {
    (forall id: nat | id < |orders| :: OrderOk(redemptions, id, orders[id])) &&
    (forall id <- redemptions :: id < |orders|)
  }

  /** What never changes about an order. */
  ghost predicate SameTerms(o: Order, o': Order)
  {
    o' == o.(status := o'.status, hold := o'.hold, regs := o'.regs, deadline := o'.deadline, paidAt := o'.paidAt)
  }

  // ---------------------------------------------------------------- the seat books

  function HoldingOf(o: Order): Holding { Holding(SeatsHeld(o, o.coupon), o.hold) }

  function Holdings(orders: seq<Order>): seq<Holding>
  {
    seq(|orders|, i requires 0 <= i < |orders| => HoldingOf(orders[i]))
  }

  ghost predicate Books(table: Table, orders: seq<Order>, free: map<Row, int>)
  {
    Conserved(table, Holdings(orders), free)
  }

  // ---------------------------------------------------------------- proofs, receipts, exceptions per order

  function ProofIn(id: nat, s: ProofStatus): Proof -> int
  {
    (p: Proof) => if p.orderId == id && p.status == s then 1 else 0
  }

  function ReceiptOf(id: nat): Receipt -> int { (r: Receipt) => if r.orderId == id then 1 else 0 }

  function CentsOf(id: nat): Receipt -> int { (r: Receipt) => if r.orderId == id then r.amount else 0 }

  function CaseOf(id: nat): Overpayment -> int { (x: Overpayment) => if x.orderId == id then 1 else 0 }

  function ExcessOf(id: nat): Overpayment -> int { (x: Overpayment) => if x.orderId == id then x.amount else 0 }

  /** How many proofs, receipts and exceptions an order has, and the cents on them. */
  datatype Tally = Tally(submitted: int, approved: int, receipts: int, received: int, cases: int, excess: int)

  ghost function TallyOf(proofs: seq<Proof>, receipts: seq<Receipt>, overpaid: seq<Overpayment>, id: nat): Tally
  {
    Tally(SumBy(proofs, ProofIn(id, Submitted)), SumBy(proofs, ProofIn(id, Approved)),
          SumBy(receipts, ReceiptOf(id)), SumBy(receipts, CentsOf(id)),
          SumBy(overpaid, CaseOf(id)), SumBy(overpaid, ExcessOf(id)))
  }

  /**
    One submitted proof exactly while the order is under review; one approved proof and one receipt exactly when it
    was paid with money, and the receipt is the amount due plus what the exception says came on top.
  */
  ghost predicate TallyOk(o: Order, t: Tally)
  {
    var settled := o.status.Paid? && o.amount > 0;
    t.submitted == (if o.status.ProofSubmitted? then 1 else 0) &&
    t.approved == t.receipts == (if settled then 1 else 0) &&
    t.received == (if settled then o.amount + t.excess else 0) &&
    t.excess >= 0 && t.cases == (if t.excess > 0 then 1 else 0) && (t.excess > 0 ==> settled)
  }

  ghost predicate TalliesOk(orders: seq<Order>, proofs: seq<Proof>, receipts: seq<Receipt>, overpaid: seq<Overpayment>)
  {
    forall id: nat | id < |orders| :: TallyOk(orders[id], TallyOf(proofs, receipts, overpaid, id))
  }

  /** A receipt is the receipt of an approved proof: same order, account and bank reference. */
  ghost predicate ReceiptFits(r: Receipt, proofs: seq<Proof>)
  {
    r.proofId < |proofs| && proofs[r.proofId].status.Approved? && proofs[r.proofId].orderId == r.orderId &&
    proofs[r.proofId].account == r.account && proofs[r.proofId].txnRef == r.txnRef
  }

  ghost predicate OverpaymentFits(x: Overpayment, receipts: seq<Receipt>)
  {
    x.receiptId < |receipts| && receipts[x.receiptId].orderId == x.orderId && receipts[x.receiptId].excess
  }

  ghost predicate ProofFits(p: Proof, orders: seq<Order>)
  {
    p.orderId < |orders| && p.account == orders[p.orderId].account
  }

  /** A bank reference of an account is on one live proof at most. */
  ghost predicate RefsDistinct(proofs: seq<Proof>)
  {
    forall p, q | 0 <= p < q < |proofs| && Live(proofs[p]) && Live(proofs[q]) ::
      proofs[p].account != proofs[q].account || proofs[p].txnRef != proofs[q].txnRef
  }

  ghost predicate ProofsOk(orders: seq<Order>, proofs: seq<Proof>, receipts: seq<Receipt>, overpaid: seq<Overpayment>)
  {
    (forall p: nat | p < |proofs| :: ProofFits(proofs[p], orders)) && RefsDistinct(proofs) &&
    (forall r: nat | r < |receipts| :: ReceiptFits(receipts[r], proofs)) &&
    (forall x: nat | x < |overpaid| :: OverpaymentFits(overpaid[x], receipts))
  }

  // ---------------------------------------------------------------- across orders

  /** An identifying offset keeps an order apart from everything that was open on its account before it. */
  ghost predicate AmountsApart(orders: seq<Order>)
  {
    forall i, j | 0 <= i < j < |orders| && Open(orders[i]) && Open(orders[j]) &&
                  orders[i].account == orders[j].account && orders[j].offset > 0 ::
      orders[i].amount != orders[j].amount
  }

  predicate Active(o: Order) { !o.hold.Released? }

  ghost predicate OncePerEvent(orders: seq<Order>)
  {
    (forall i | 0 <= i < |orders| :: AllDistinct(orders[i].idHashes)) &&
    (forall i, j | 0 <= i < j < |orders| && Active(orders[i]) && Active(orders[j]) &&
                   orders[i].event == orders[j].event :: NoneShared(orders[i].idHashes, orders[j].idHashes))
  }

  ghost predicate NoneShared(a: seq<string>, b: seq<string>)
  {
    forall k, l | 0 <= k < |a| && 0 <= l < |b| :: a[k] != b[l]
  }

  // ---------------------------------------------------------------- all the money

  function AmountPaid(o: Order): int { if o.status.Paid? then o.amount else 0 }

  function Received(r: Receipt): int { r.amount }

  function OnTop(x: Overpayment): int { x.amount }

  /** Every cent received is either the price of a paid order or an open exception. */
  ghost predicate MoneyBalances(orders: seq<Order>, receipts: seq<Receipt>, overpaid: seq<Overpayment>)
  {
    SumBy(receipts, Received) == SumBy(orders, AmountPaid) + SumBy(overpaid, OnTop)
  }

  /** Free sign-ups take seats of categories only. */
  ghost predicate FreeIsKnown(db: Db) { db.free.Keys <= db.table.Keys && forall r <- db.free :: r.Category? }

  /** Holds even in the middle of placing an order. */
  ghost predicate Sound(db: Db)
  {
    OrdersOk(db.orders, db.redemptions) && Books(db.table, db.orders, db.free) && FreeIsKnown(db) &&
    TalliesOk(db.orders, db.proofs, db.receipts, db.overpaid) &&
    ProofsOk(db.orders, db.proofs, db.receipts, db.overpaid) &&
    AmountsApart(db.orders) && OncePerEvent(db.orders) && MoneyBalances(db.orders, db.receipts, db.overpaid)
  }

  /** An order with nothing to pay has been confirmed. */
  ghost predicate FreeArePaid(orders: seq<Order>)
  {
    forall i | 0 <= i < |orders| && orders[i].amount == 0 :: orders[i].status.Paid?
  }

  ghost predicate Inv(db: Db) { Sound(db) && FreeArePaid(db.orders) }

  // ---------------------------------------------------------------- one order row rewritten

  /** Another row of the order table does not notice. */
  lemma OrdersUpdate(orders: seq<Order>, redemptions: map<nat, Redemption>, redemptions': map<nat, Redemption>,
                     id: nat, o: Order)
    requires OrdersOk(orders, redemptions) && id < |orders| && OrderOk(redemptions', id, o)
    requires redemptions'.Keys == redemptions.Keys
    requires forall k | k in redemptions && k != id :: redemptions'[k] == redemptions[k]
    ensures OrdersOk(orders[id := o], redemptions')
  {
  }

  /** An order whose reservation ends takes its redemption along. */
  lemma MoveKeepsOrders(orders: seq<Order>, redemptions: map<nat, Redemption>, id: nat, o: Order)
    requires OrdersOk(orders, redemptions) && id < |orders| && orders[id].hold == Reserved
    requires SameTerms(orders[id], o) && StatusOk(o) && MoneyOk(o)
    ensures OpenCoupon(redemptions, id) == orders[id].coupon
    ensures OrdersOk(orders[id := o], MarkRedemption(redemptions, id, o.hold))
  {
  }

  lemma HoldingsUpdate(orders: seq<Order>, id: nat, o: Order)
    requires id < |orders| && SameTerms(orders[id], o)
    ensures Holdings(orders[id := o]) == Holdings(orders)[id := Holdings(orders)[id].(state := o.hold)]
  {
  }

  /** "Fewer than reserved" never happens: the counters cover every order that still holds its seats. */
  lemma MoveKeepsBooks(table: Table, orders: seq<Order>, free: map<Row, int>, id: nat, o: Order, ch: Change)
    requires Books(table, orders, free) && id < |orders| && orders[id].hold == Reserved
    requires SameTerms(orders[id], o) && o.hold == To(ch) && (ch.Consume? || ch.Release?)
    ensures var d := SeatsHeld(orders[id], orders[id].coupon);
            Allowed(table, d, ch) && Books(ApplyAll(table, d, ch), orders[id := o], free)
  {
    ChangeKeeps(table, Holdings(orders), free, id, ch);
    HoldingsUpdate(orders, id, o);
  }

  lemma MoveKeeps(db: Db, id: nat, o: Order, ch: Change)
    requires OrdersOk(db.orders, db.redemptions) && Books(db.table, db.orders, db.free)
    requires id < |db.orders| && db.orders[id].hold == Reserved
    requires SameTerms(db.orders[id], o) && StatusOk(o) && MoneyOk(o)
    requires o.hold == To(ch) && (ch.Consume? || ch.Release?)
    ensures AfterMove(db, id, o, ch).Ok?
    ensures var db' := AfterMove(db, id, o, ch).value;
            OrdersOk(db'.orders, db'.redemptions) && Books(db'.table, db'.orders, db'.free)
  {
    MoveKeepsOrders(db.orders, db.redemptions, id, o);
    MoveKeepsBooks(db.table, db.orders, db.free, id, o, ch);
  }

  lemma RewriteKeepsRest(orders: seq<Order>, id: nat, o: Order)
    requires AmountsApart(orders) && OncePerEvent(orders) && id < |orders| && SameTerms(orders[id], o)
    requires (Open(o) ==> Open(orders[id])) && (Active(o) ==> Active(orders[id]))
    ensures AmountsApart(orders[id := o]) && OncePerEvent(orders[id := o])
  {
  }

  lemma PaidSum(orders: seq<Order>, id: nat, o: Order)
    requires id < |orders|
    ensures SumBy(orders[id := o], AmountPaid) == SumBy(orders, AmountPaid) - AmountPaid(orders[id]) + AmountPaid(o)
  {
    SumByUpdate(orders, id, o, AmountPaid);
  }

  /** An order moved to a status with the same tally. */
  lemma RewriteKeepsProofs(db: Db, id: nat, o: Order)
    requires TalliesOk(db.orders, db.proofs, db.receipts, db.overpaid)
    requires ProofsOk(db.orders, db.proofs, db.receipts, db.overpaid)
    requires id < |db.orders| && SameTerms(db.orders[id], o)
    requires TallyOk(o, TallyOf(db.proofs, db.receipts, db.overpaid, id))
    ensures TalliesOk(db.orders[id := o], db.proofs, db.receipts, db.overpaid)
    ensures ProofsOk(db.orders[id := o], db.proofs, db.receipts, db.overpaid)
  {
    ProofsFitRewrite(db.orders, db.proofs, id, o);
  }

  lemma ProofsFitRewrite(orders: seq<Order>, proofs: seq<Proof>, id: nat, o: Order)
    requires id < |orders| && SameTerms(orders[id], o)
    requires forall p: nat | p < |proofs| :: ProofFits(proofs[p], orders)
    ensures forall p: nat | p < |proofs| :: ProofFits(proofs[p], orders[id := o])
  {
  }

  lemma MoneyFacts(db: Db, id: nat)
    requires OrdersOk(db.orders, db.redemptions) && id < |db.orders|
    ensures MoneyOk(db.orders[id]) && StatusOk(db.orders[id])
  {
  }

  /** Where a move settles no money, everything else stays as it was. */
  lemma MoveIsSound(db: Db, id: nat, o: Order, ch: Change)
    requires Sound(db) && id < |db.orders| && db.orders[id].hold == Reserved
    requires SameTerms(db.orders[id], o) && StatusOk(o) && o.hold == To(ch) && (ch.Consume? || ch.Release?)
    requires TallyOk(o, TallyOf(db.proofs, db.receipts, db.overpaid, id)) && AmountPaid(o) == 0
    ensures AfterMove(db, id, o, ch).Ok? && Sound(AfterMove(db, id, o, ch).value)
  {
    hide OrdersOk, Books, TalliesOk, ProofsOk, AmountsApart, OncePerEvent, SumBy, Allowed, SeatsHeld;
    MoneyFacts(db, id);
    MoveKeeps(db, id, o, ch);
    RewriteKeepsRest(db.orders, id, o);
    RewriteKeepsProofs(db, id, o);
    PaidSum(db.orders, id, o);
  }

  lemma OrderFacts(db: Db, id: nat)
    requires Inv(db) && id < |db.orders|
    ensures OrderOk(db.redemptions, id, db.orders[id])
    ensures TallyOk(db.orders[id], TallyOf(db.proofs, db.receipts, db.overpaid, id))
  {
  }

  lemma ReleaseKeeps(db: Db, id: nat, kind: ReleaseKind)
    requires Inv(db) && id < |db.orders|
    ensures AfterRelease(db, id, kind).Ok? && Inv(AfterRelease(db, id, kind).value)
  {
    hide OrdersOk, Books, TalliesOk, ProofsOk, AmountsApart, OncePerEvent, MoneyBalances, Sound, Allowed, ApplyAll;
    OrderFacts(db, id);
    if Releasable(db.orders[id], kind) {
      MoveIsSound(db, id, ReleasedOrder(db.orders[id], kind), Release);
    }
  }

  // ---------------------------------------------------------------- proofs

  /** One proof changing its status changes the tallies of its own order only. */
  lemma ProofMoves(proofs: seq<Proof>, p: nat, status: ProofStatus, id: nat, s: ProofStatus)
    requires p < |proofs|
    ensures SumBy(proofs[p := proofs[p].(status := status)], ProofIn(id, s)) ==
            SumBy(proofs, ProofIn(id, s)) +
            (if proofs[p].orderId == id && status == s then 1 else 0) -
            (if proofs[p].orderId == id && proofs[p].status == s then 1 else 0)
  {
    SumByUpdate(proofs, p, proofs[p].(status := status), ProofIn(id, s));
  }

  /** A change of status that keeps the reservation keeps the seats and the rows. */
  lemma StayKeeps(db: Db, id: nat, o: Order)
    requires OrdersOk(db.orders, db.redemptions) && Books(db.table, db.orders, db.free)
    requires id < |db.orders| && SameTerms(db.orders[id], o) && StatusOk(o) && o.hold == db.orders[id].hold
    ensures OrdersOk(db.orders[id := o], db.redemptions) && Books(db.table, db.orders[id := o], db.free)
  {
    assert OrderOk(db.redemptions, id, db.orders[id]);
    OrdersUpdate(db.orders, db.redemptions, db.redemptions, id, o);
    assert Holdings(db.orders[id := o]) == Holdings(db.orders);
  }

  lemma SubmitKeepsTallies(db: Db, id: nat, p: Proof)
    requires TalliesOk(db.orders, db.proofs, db.receipts, db.overpaid)
    requires id < |db.orders| && !db.orders[id].status.ProofSubmitted? && Open(db.orders[id])
    requires p.status.Submitted? && p.orderId == id
    ensures var db' := WithProof(db, id, p); TalliesOk(db'.orders, db'.proofs, db'.receipts, db'.overpaid)
  {
  }

  lemma SubmitKeepsProofs(db: Db, id: nat, p: Proof, o: Order)
    requires ProofsOk(db.orders, db.proofs, db.receipts, db.overpaid)
    requires id < |db.orders| && p.orderId == id && p.account == db.orders[id].account && SameTerms(db.orders[id], o)
    requires !RefUsed(db.proofs, p.account, p.txnRef)
    ensures ProofsOk(db.orders[id := o], db.proofs + [p], db.receipts, db.overpaid)
  {
  }

  lemma SubmitKeeps(db: Db, id: nat, p: Proof)
    requires Inv(db) && id < |db.orders| && db.orders[id].status in {PendingPayment, ProofRejected}
    requires p.status.Submitted? && p.orderId == id && p.account == db.orders[id].account
    requires !RefUsed(db.proofs, p.account, p.txnRef)
    ensures Inv(WithProof(db, id, p))
  {
    hide OrdersOk, Books, TalliesOk, ProofsOk, AmountsApart, OncePerEvent;
    OrderFacts(db, id);
    var o := db.orders[id].(status := ProofSubmitted, deadline := None);
    StayKeeps(db, id, o);
    SubmitKeepsTallies(db, id, p);
    SubmitKeepsProofs(db, id, p, o);
    RewriteKeepsRest(db.orders, id, o);
    PaidSum(db.orders, id, o);
  }

  /** A pending proof is there exactly during a review, so its unique index never refuses an order that may submit. */
  lemma PendingProofIffUnderReview(db: Db, id: nat)
    requires Inv(db) && id < |db.orders|
    ensures ProofPendingFor(db.proofs, id) <==> db.orders[id].status.ProofSubmitted?
  {
    assert TallyOk(db.orders[id], TallyOf(db.proofs, db.receipts, db.overpaid, id));
    SomeProof(db.proofs, id, Submitted);
  }

  lemma {:induction false} SomeProof(proofs: seq<Proof>, id: nat, s: ProofStatus)
    ensures SumBy(proofs, ProofIn(id, s)) >= 0
    ensures SumBy(proofs, ProofIn(id, s)) > 0 <==> exists p <- proofs :: p.orderId == id && p.status == s
  {
    if proofs != [] {
      var n := |proofs| - 1;
      SomeProof(proofs[..n], id, s);
      assert proofs == proofs[..n] + [proofs[n]];
    }
  }

  /** A reviewed proof keeps its reference; rejecting one frees it. */
  lemma ProofUpdate(orders: seq<Order>, proofs: seq<Proof>, p: nat, status: ProofStatus)
    requires p < |proofs| && proofs[p].status.Submitted? && RefsDistinct(proofs)
    requires forall q: nat | q < |proofs| :: ProofFits(proofs[q], orders)
    ensures var proofs' := proofs[p := proofs[p].(status := status)];
            RefsDistinct(proofs') && forall q: nat | q < |proofs'| :: ProofFits(proofs'[q], orders)
  {
  }

  lemma ReceiptsStillFit(receipts: seq<Receipt>, proofs: seq<Proof>, p: nat, status: ProofStatus)
    requires p < |proofs| && proofs[p].status.Submitted?
    requires forall r: nat | r < |receipts| :: ReceiptFits(receipts[r], proofs)
    ensures forall r: nat | r < |receipts| :: ReceiptFits(receipts[r], proofs[p := proofs[p].(status := status)])
  {
  }

  // ---------------------------------------------------------------- rejecting

  lemma RejectKeepsTallies(db: Db, p: nat, o: Order)
    requires TalliesOk(db.orders, db.proofs, db.receipts, db.overpaid)
    requires p < |db.proofs| && db.proofs[p].status.Submitted? && db.proofs[p].orderId < |db.orders|
    requires db.orders[db.proofs[p].orderId].status.ProofSubmitted? && o.status.ProofRejected?
    ensures TalliesOk(db.orders[db.proofs[p].orderId := o], db.proofs[p := db.proofs[p].(status := Rejected)],
                      db.receipts, db.overpaid)
  {
    var orders, proofs := db.orders[db.proofs[p].orderId := o], db.proofs[p := db.proofs[p].(status := Rejected)];
    forall k: nat | k < |orders| ensures TallyOk(orders[k], TallyOf(proofs, db.receipts, db.overpaid, k)) {
      ProofMoves(db.proofs, p, Rejected, k, Submitted);
      ProofMoves(db.proofs, p, Rejected, k, Approved);
      assert TallyOk(db.orders[k], TallyOf(db.proofs, db.receipts, db.overpaid, k));
    }
  }

  lemma RejectKeeps(db: Db, proofId: nat, deadline: int)
    requires Inv(db) && AfterReject(db, proofId, deadline).Ok?
    ensures Inv(AfterReject(db, proofId, deadline).value)
  {
    hide OrdersOk, Books, TalliesOk, AmountsApart, OncePerEvent, SumBy, RefsDistinct;
    var id := db.proofs[proofId].orderId;
    OrderFacts(db, id);
    var o := db.orders[id].(status := ProofRejected, deadline := Some(deadline));
    StayKeeps(db, id, o);
    RejectKeepsTallies(db, proofId, o);
    ProofUpdate(db.orders, db.proofs, proofId, Rejected);
    ProofsFitRewrite(db.orders, db.proofs[proofId := db.proofs[proofId].(status := Rejected)], id, o);
    ReceiptsStillFit(db.receipts, db.proofs, proofId, Rejected);
    RewriteKeepsRest(db.orders, id, o);
    PaidSum(db.orders, id, o);
  }

  // ---------------------------------------------------------------- approving

  lemma ReceiptAdds(receipts: seq<Receipt>, r: Receipt, k: nat)
    ensures SumBy(receipts + [r], ReceiptOf(k)) == SumBy(receipts, ReceiptOf(k)) + (if r.orderId == k then 1 else 0)
    ensures SumBy(receipts + [r], CentsOf(k)) == SumBy(receipts, CentsOf(k)) + (if r.orderId == k then r.amount else 0)
    ensures SumBy(receipts + [r], Received) == SumBy(receipts, Received) + r.amount
  {
  }

  lemma OverpaymentAdds(xs: seq<Overpayment>, x: Overpayment, k: nat)
    ensures SumBy(xs + [x], CaseOf(k)) == SumBy(xs, CaseOf(k)) + (if x.orderId == k then 1 else 0)
    ensures SumBy(xs + [x], ExcessOf(k)) == SumBy(xs, ExcessOf(k)) + (if x.orderId == k then x.amount else 0)
    ensures SumBy(xs + [x], OnTop) == SumBy(xs, OnTop) + x.amount
  {
  }

  /** What an approval adds to the tally of order k. */
  ghost function Settle(t: Tally, mine: bool, amount: int, received: int): Tally
  {
    if !mine then t
    else Tally(t.submitted - 1, t.approved + 1, t.receipts + 1, t.received + received,
               t.cases + (if received > amount then 1 else 0), t.excess + received - amount)
  }

  lemma ApproveTally(db: Db, proofId: nat, id: nat, received: int, k: nat)
    requires UnderReview(db, proofId) == Ok(id) && received >= db.orders[id].amount
    ensures var db' := WithReceipt(db, proofId, id, received);
            TallyOf(db'.proofs, db'.receipts, db'.overpaid, k) ==
            Settle(TallyOf(db.proofs, db.receipts, db.overpaid, k), k == id, db.orders[id].amount, received)
  {
    hide SumBy;
    var over := received - db.orders[id].amount;
    ProofMoves(db.proofs, proofId, Approved, k, Submitted);
    ProofMoves(db.proofs, proofId, Approved, k, Approved);
    var p := db.proofs[proofId];
    ReceiptAdds(db.receipts, Receipt(p.account, p.txnRef, received, proofId, id, over > 0), k);
    OverpaymentAdds(db.overpaid, Overpayment(id, |db.receipts|, over), k);
  }

  lemma ApproveKeepsTallies(db: Db, proofId: nat, id: nat, received: int, o: Order)
    requires TalliesOk(db.orders, db.proofs, db.receipts, db.overpaid)
    requires UnderReview(db, proofId) == Ok(id) && received >= db.orders[id].amount > 0
    requires SameTerms(db.orders[id], o) && o.status.Paid?
    ensures var db' := WithReceipt(db, proofId, id, received);
            TalliesOk(db.orders[id := o], db'.proofs, db'.receipts, db'.overpaid)
  {
    hide TallyOf, WithReceipt;
    var db', orders := WithReceipt(db, proofId, id, received), db.orders[id := o];
    forall k: nat | k < |orders| ensures TallyOk(orders[k], TallyOf(db'.proofs, db'.receipts, db'.overpaid, k)) {
      ApproveTally(db, proofId, id, received, k);
      assert TallyOk(db.orders[k], TallyOf(db.proofs, db.receipts, db.overpaid, k));
    }
  }

  lemma ApproveKeepsProofs(db: Db, proofId: nat, id: nat, received: int, o: Order)
    requires ProofsOk(db.orders, db.proofs, db.receipts, db.overpaid)
    requires UnderReview(db, proofId) == Ok(id) && SameTerms(db.orders[id], o)
    ensures var db' := WithReceipt(db, proofId, id, received);
            ProofsOk(db.orders[id := o], db'.proofs, db'.receipts, db'.overpaid)
  {
    var db' := WithReceipt(db, proofId, id, received);
    ProofUpdate(db.orders, db.proofs, proofId, Approved);
    ProofsFitRewrite(db.orders, db'.proofs, id, o);
    ReceiptsStillFit(db.receipts, db.proofs, proofId, Approved);
    forall x: nat | x < |db'.overpaid| ensures OverpaymentFits(db'.overpaid[x], db'.receipts) {
      if x < |db.overpaid| { assert OverpaymentFits(db.overpaid[x], db.receipts); }
    }
  }

  lemma ApproveBalances(db: Db, proofId: nat, id: nat, received: int, o: Order)
    requires MoneyBalances(db.orders, db.receipts, db.overpaid)
    requires UnderReview(db, proofId) == Ok(id) && received >= db.orders[id].amount
    requires SameTerms(db.orders[id], o) && o.status.Paid?
    ensures var db' := WithReceipt(db, proofId, id, received);
            MoneyBalances(db.orders[id := o], db'.receipts, db'.overpaid)
  {
    hide SumBy;
    var p, over := db.proofs[proofId], received - db.orders[id].amount;
    ReceiptAdds(db.receipts, Receipt(p.account, p.txnRef, received, proofId, id, over > 0), 0);
    OverpaymentAdds(db.overpaid, Overpayment(id, |db.receipts|, over), 0);
    PaidSum(db.orders, id, o);
  }

  /** A bank reference under review has not been booked: the receipt's unique index never refuses an approval. */
  lemma RefIsFree(db: Db, proofId: nat)
    requires Inv(db) && UnderReview(db, proofId).Ok?
    ensures !ReceiptExists(db.receipts, db.proofs[proofId].account, db.proofs[proofId].txnRef)
  {
    forall r: nat | r < |db.receipts|
      ensures db.receipts[r].account != db.proofs[proofId].account || db.receipts[r].txnRef != db.proofs[proofId].txnRef
    {
      assert ReceiptFits(db.receipts[r], db.proofs);
    }
  }

  lemma PaymentKeeps(db: Db, proofId: nat, id: nat, received: int, at: int)
    requires Inv(db) && UnderReview(db, proofId) == Ok(id) && received >= db.orders[id].amount
    ensures var r := AfterPaid(WithReceipt(db, proofId, id, received), id, at); r.Ok? && Inv(r.value)
  {
    hide OrdersOk, Books, TalliesOk, ProofsOk, AmountsApart, OncePerEvent, MoneyBalances;
    OrderFacts(db, id);
    var mid, o := WithReceipt(db, proofId, id, received), PaidOrder(db.orders[id], at);
    MoveKeeps(mid, id, o, Consume);
    RewriteKeepsRest(db.orders, id, o);
    ApproveKeepsProofs(db, proofId, id, received, o);
    ApproveBalances(db, proofId, id, received, o);
    ApproveKeepsTallies(db, proofId, id, received, o);
  }

  /** A review can only fail for the reasons its caller can see: the input, the states, and too little money. */
  lemma ApproveKeeps(db: Db, proofId: nat, received: int, at: int)
    requires Inv(db)
    ensures var r := AfterApprove(db, proofId, received, at);
            (r.Ok? <==> received > 0 && UnderReview(db, proofId).Ok? &&
                        received >= db.orders[UnderReview(db, proofId).value].amount) &&
            (r.Ok? ==> Inv(r.value))
  {
    hide Inv, AfterPaid, WithReceipt, ReceiptExists, ProofsOk;
    if UnderReview(db, proofId).Ok? {
      var id := UnderReview(db, proofId).value;
      RefIsFree(db, proofId);
      if received >= db.orders[id].amount { PaymentKeeps(db, proofId, id, received, at); }
    }
  }

  // ---------------------------------------------------------------- placing an order

  /** What a quote was made from. */
  datatype Reads = Reads(cat: Catalog, open: set<int>)

  /**
    A quote as CreateOrder gets it. The catalog may have been read earlier. Of the open amounts only those may be
    missing that orders have left since: the account lock keeps others from adding one.
  */
  ghost predicate QuotedFor(db: Db, req: OrderRequest, from: Reads, q: Quote)
  {
    req.account.Some? && WellFormed(from.cat) && OpenAmounts(db.orders, req.account.value) <= from.open &&
    IsQuote(from.cat, QuoteInputOf(req), Some(Account(from.open, req.maxOffset)), q)
  }

  lemma NewOrderIsOk(db: Db, req: OrderRequest, from: Reads, q: Quote)
    requires QuotedFor(db, req, from, q)
    ensures var o := NewOrder(req, req.account.value, q);
            StatusOk(o) && MoneyOk(o) && o.discount - o.offset == q.couponDiscount
  {
    QuoteMoney(from.cat, QuoteInputOf(req), Some(Account(from.open, req.maxOffset)), q);
  }

  lemma OrdersAppend(orders: seq<Order>, redemptions: map<nat, Redemption>, redemptions': map<nat, Redemption>,
                     o: Order)
    requires OrdersOk(orders, redemptions) && OrderOk(redemptions', |orders|, o)
    requires forall k: nat | k != |orders| ::
      (k in redemptions' <==> k in redemptions) && (k in redemptions ==> redemptions'[k] == redemptions[k])
    ensures OrdersOk(orders + [o], redemptions')
  {
  }

  lemma NewOrderOk(db: Db, req: OrderRequest, from: Reads, q: Quote)
    requires OrdersOk(db.orders, db.redemptions) && QuotedFor(db, req, from, q)
    ensures var db' := AfterInsert(db, req, req.account.value, q); OrdersOk(db'.orders, db'.redemptions)
  {
    hide IsQuote, WellFormed;
    NewOrderIsOk(db, req, from, q);
    var o := NewOrder(req, req.account.value, q);
    var redemptions := AfterInsert(db, req, req.account.value, q).redemptions;
    OrdersAppend(db.orders, db.redemptions, redemptions, o);
  }

  lemma BooksAppend(table: Table, orders: seq<Order>, free: map<Row, int>, o: Order)
    requires Books(table, orders, free) && o.hold == Reserved && Allowed(table, SeatsHeld(o, o.coupon), Reserve)
    ensures Books(ApplyAll(table, SeatsHeld(o, o.coupon), Reserve), orders + [o], free)
  {
    hide Conserved, Allowed;
    ReserveKeeps(table, Holdings(orders), free, SeatsHeld(o, o.coupon));
    assert Holdings(orders + [o]) == Holdings(orders) + [HoldingOf(o)];
  }

  lemma NewTallies(orders: seq<Order>, proofs: seq<Proof>, receipts: seq<Receipt>, overpaid: seq<Overpayment>, o: Order)
    requires TalliesOk(orders, proofs, receipts, overpaid) && ProofsOk(orders, proofs, receipts, overpaid)
    requires o.status.PendingPayment?
    ensures TalliesOk(orders + [o], proofs, receipts, overpaid) && ProofsOk(orders + [o], proofs, receipts, overpaid)
  {
    NothingYet(orders, proofs, receipts, overpaid);
    var orders' := orders + [o];
    forall k: nat | k < |orders'| ensures TallyOk(orders'[k], TallyOf(proofs, receipts, overpaid, k)) {
      if k < |orders| { assert TallyOk(orders[k], TallyOf(proofs, receipts, overpaid, k)); }
    }
    forall p: nat | p < |proofs| ensures ProofFits(proofs[p], orders') {
      assert ProofFits(proofs[p], orders);
    }
  }

  /** Nothing refers to an order that does not exist yet. */
  lemma NothingYet(orders: seq<Order>, proofs: seq<Proof>, receipts: seq<Receipt>, overpaid: seq<Overpayment>)
    requires ProofsOk(orders, proofs, receipts, overpaid)
    ensures TallyOf(proofs, receipts, overpaid, |orders|) == Tally(0, 0, 0, 0, 0, 0)
  {
    var id := |orders|;
    forall r <- receipts ensures r.orderId < id {
      var k: nat :| k < |receipts| && receipts[k] == r;
      assert ReceiptFits(receipts[k], proofs) && ProofFits(proofs[r.proofId], orders);
    }
    forall x <- overpaid ensures x.orderId < id {
      var k: nat :| k < |overpaid| && overpaid[k] == x;
      assert OverpaymentFits(overpaid[k], receipts) && receipts[x.receiptId] in receipts;
    }
    forall p <- proofs ensures p.orderId < id {
      var k: nat :| k < |proofs| && proofs[k] == p;
      assert ProofFits(proofs[k], orders);
    }
    SumByZero(proofs, ProofIn(id, Submitted));
    SumByZero(proofs, ProofIn(id, Approved));
    SumByZero(receipts, ReceiptOf(id));
    SumByZero(receipts, CentsOf(id));
    SumByZero(overpaid, CaseOf(id));
    SumByZero(overpaid, ExcessOf(id));
  }

  /** The least free offset leads to an amount that no open order of the account has. */
  lemma NewAmountApart(db: Db, req: OrderRequest, from: Reads, q: Quote)
    requires AmountsApart(db.orders) && QuotedFor(db, req, from, q)
    ensures AmountsApart(db.orders + [NewOrder(req, req.account.value, q)])
  {
    var orders, account := db.orders, req.account.value;
    assert q.offset > 0 ==> q.amount !in OpenAmounts(orders, account);
    forall i | 0 <= i < |orders| && Open(orders[i]) && orders[i].account == account
      ensures orders[i].amount in OpenAmounts(orders, account)
    {
    }
  }

  /** Nobody on the request has a registration for the event that still counts. */
  lemma NewcomersOnly(db: Db, req: OrderRequest, q: Quote)
    requires OncePerEvent(db.orders) && OrdersOk(db.orders, db.redemptions) && RefusedEarly(db, req).None?
    ensures OncePerEvent(db.orders + [NewOrder(req, req.account.value, q)])
  {
    var orders := db.orders;
    forall i: nat | i < |orders| && Active(orders[i]) && orders[i].event == req.ev.id
      ensures NoneShared(orders[i].idHashes, IdHashes(req))
    {
      assert OrderOk(db.redemptions, i, orders[i]);
      forall k, l | 0 <= k < |orders[i].idHashes| && 0 <= l < |IdHashes(req)|
        ensures orders[i].idHashes[k] != IdHashes(req)[l]
      {
        assert !orders[i].regs[k].Withdrawn?;
        assert IdHashes(req)[l] in IdHashes(req);
        assert !Registered(orders, req.ev.id, IdHashes(req)[l]);
      }
    }
  }

  lemma InsertIsSound(db: Db, req: OrderRequest, from: Reads, q: Quote)
    requires Inv(db) && QuotedFor(db, req, from, q)
    requires RefusedEarly(db, req).None? && ReserveRefused(db.table, q).None?
    ensures Sound(AfterInsert(db, req, req.account.value, q))
  {
    hide OrdersOk, Books, TalliesOk, ProofsOk, AmountsApart, OncePerEvent, Allowed, RefusedEarly, IsQuote, WellFormed;
    var o := NewOrder(req, req.account.value, q);
    NewOrderOk(db, req, from, q);
    BooksAppend(db.table, db.orders, db.free, o);
    NewTallies(db.orders, db.proofs, db.receipts, db.overpaid, o);
    NewAmountApart(db, req, from, q);
    NewcomersOnly(db, req, q);
    SumByAppend(db.orders, o, AmountPaid);
  }

  /**
    Placing an order keeps everything. Exactly an order with nothing to pay is confirmed at once, and that
    confirmation cannot fail.
  */
  lemma CreateKeeps(db: Db, req: OrderRequest, from: Reads, q: Quote)
    requires Inv(db) && QuotedFor(db, req, from, q)
    requires RefusedEarly(db, req).None? && ReserveRefused(db.table, q).None?
    ensures var r := AfterCreate(db, req, q);
            r.Ok? && Inv(r.value) &&
            |r.value.orders| == |db.orders| + 1 && r.value.orders[..|db.orders|] == db.orders &&
            (r.value.orders[|db.orders|].status.Paid? <==> q.amount == 0) &&
            (r.value.orders[|db.orders|].status.PendingPayment? <==> q.amount > 0)
  {
    hide OrdersOk, Books, TalliesOk, ProofsOk, AmountsApart, OncePerEvent, MoneyBalances, ReserveRefused, RefusedEarly;
    hide IsQuote, WellFormed;
    InsertIsSound(db, req, from, q);
    var db', id := AfterInsert(db, req, req.account.value, q), |db.orders|;
    MoneyFacts(db', id);
    if q.amount == 0 {
      NewTally(db, req, q);
      MoveIsSound(db', id, PaidOrder(db'.orders[id], req.now), Consume);
    }
  }

  lemma NewTally(db: Db, req: OrderRequest, q: Quote)
    requires Inv(db) && req.account.Some?
    ensures var db' := AfterInsert(db, req, req.account.value, q);
            TallyOf(db'.proofs, db'.receipts, db'.overpaid, |db.orders|) == Tally(0, 0, 0, 0, 0, 0)
  {
    NothingYet(db.orders, db.proofs, db.receipts, db.overpaid);
  }

  // ---------------------------------------------------------------- the staff and free sign-ups

  /** Changing a limit to one that still covers what is taken, or a coupon's status, keeps the books. */
  lemma EditKeepsBooks(table: Table, orders: seq<Order>, free: map<Row, int>, r: Row, c: Counter)
    requires Books(table, orders, free) && r in table
    requires c == table[r].(limit := c.limit, active := c.active) && (r.Coupon? || c.active == table[r].active)
    requires c.limit.Some? ==> table[r].used + table[r].reserved <= c.limit.value
    ensures Books(table[r := c], orders, free)
  {
  }

  /** Nobody holds seats of a row that is not there. */
  lemma NobodyHolds(table: Table, hs: seq<Holding>, base: map<Row, int>, r: Row)
    requires Conserved(table, hs, base) && r !in table
    ensures SumBy(hs, ReservedBy(r)) == 0 && SumBy(hs, ConsumedBy(r)) == 0
  {
    forall h <- hs ensures h.seats[r] == 0 {
      var i :| 0 <= i < |hs| && hs[i] == h;
      assert r !in hs[i].seats;
    }
    SumByZero(hs, ReservedBy(r));
    SumByZero(hs, ConsumedBy(r));
  }

  lemma AddKeepsBooks(db: Db, r: Row, c: Counter)
    requires Books(db.table, db.orders, db.free) && r !in db.table && FreeIsKnown(db)
    requires c == Counter(c.limit, 0, 0, c.active) && (c.limit.Some? ==> c.limit.value >= 0) && (r.Coupon? || c.active)
    ensures Books(db.table[r := c], db.orders, db.free)
  {
    hide Holdings, SumBy, Within;
    NobodyHolds(db.table, Holdings(db.orders), db.free, r);
    AddConserves(db.table, Holdings(db.orders), db.free, r, c);
  }

  lemma AddConserves(table: Table, hs: seq<Holding>, base: map<Row, int>, r: Row, c: Counter)
    requires Conserved(table, hs, base) && r !in table && r !in base
    requires SumBy(hs, ReservedBy(r)) == 0 && SumBy(hs, ConsumedBy(r)) == 0
    requires c == Counter(c.limit, 0, 0, c.active) && (c.limit.Some? ==> c.limit.value >= 0) && (r.Coupon? || c.active)
    ensures Conserved(table[r := c], hs, base)
  {
  }

  lemma OneSeat(table: Table, r: Row)
    requires r in table
    ensures ApplyAll(table, multiset{r}, Occupy) == table[r := Apply(table[r], 1, Occupy)]
    ensures Allowed(table, multiset{r}, Occupy) <==> Guard(table[r], 1, Occupy)
  {
  }

  lemma SignupKeepsBooks(db: Db, category: int)
    requires Books(db.table, db.orders, db.free) && AfterSignup(db, category).Ok?
    ensures var db' := AfterSignup(db, category).value; Books(db'.table, db'.orders, db'.free)
  {
    hide Conserved, Allowed, ApplyAll;
    OneSeat(db.table, Category(category));
    DirectUseKeeps(db.table, Holdings(db.orders), db.free, Category(category));
  }

  // ---------------------------------------------------------------- the machine

  /** Every transaction that touches these tables. Expire is one order of the deadline job. */
  datatype Command =
    | Create(req: OrderRequest, from: Reads, quote: Quote)
    | Cancel(buyer: int, order: nat)
    | Submit(buyer: int, order: nat, txnRef: string, declared: int, now: int)
    | Approve(proof: nat, received: int, receivedAt: int)
    | Reject(proof: nat, deadline: int)
    | Expire(order: nat, asOf: int)
    | EditRule(rule: int, quota: Option<int>, repriced: bool)
    | EditCoupon(coupon: int, uses: int, active: bool)
    | AddRow(row: Row, limit: Option<int>, active: bool)
    | Signup(category: int)

  predicate Due(o: Order, asOf: int)
  {
    (o.status.PendingPayment? || o.status.ProofRejected?) && o.deadline.Some? && o.deadline.value <= asOf
  }

  /** An order is placed with a quote made for it; the deadline job only picks orders that are due. */
  ghost predicate Legal(db: Db, c: Command)
  {
    match c
    case Create(req, from, q) => RefusedEarly(db, req).None? ==> QuotedFor(db, req, from, q)
    case Expire(id, asOf) => id < |db.orders| && Due(db.orders[id], asOf)
    case _ => true
  }

  ghost function After(db: Db, c: Command): Result<Db, OrderError>
    requires Legal(db, c)
  {
    match c
    case Create(req, from, q) => AfterCreate(db, req, q)
    case Cancel(buyer, id) => AfterCancel(db, buyer, id)
    case Submit(buyer, id, txnRef, declared, now) => AfterSubmit(db, buyer, id, txnRef, declared, now)
    case Approve(proof, received, at) => AfterApprove(db, proof, received, at)
    case Reject(proof, deadline) => AfterReject(db, proof, deadline)
    case Expire(id, _) => AfterRelease(db, id, OrderExpiry)
    case EditRule(rule, quota, repriced) => AfterRuleEdit(db, rule, quota, repriced)
    case EditCoupon(coupon, uses, active) => AfterCouponEdit(db, coupon, uses, active)
    case AddRow(r, limit, active) => AfterAddRow(db, r, limit, active)
    case Signup(category) => AfterSignup(db, category)
  }

  lemma CreateStepKeeps(db: Db, req: OrderRequest, from: Reads, q: Quote)
    requires Inv(db) && (RefusedEarly(db, req).None? ==> QuotedFor(db, req, from, q)) && AfterCreate(db, req, q).Ok?
    ensures Inv(AfterCreate(db, req, q).value)
  {
    hide Inv, QuotedFor, AfterInsert, Allowed;
    assert RefusedEarly(db, req).None? && ReserveRefused(db.table, q).None? by { hide RefusedEarly, ReserveRefused; }
    CreateKeeps(db, req, from, q);
  }

  lemma TableStepKeeps(db: Db, c: Command)
    requires Inv(db) && Legal(db, c) && After(db, c).Ok?
    requires c.EditRule? || c.EditCoupon? || c.AddRow? || c.Signup?
    ensures Inv(After(db, c).value)
  {
    hide OrdersOk, Books, TalliesOk, ProofsOk, AmountsApart, OncePerEvent, MoneyBalances;
    var db' := After(db, c).value;
    match c
    case EditRule(rule, quota, _) =>
      EditKeepsBooks(db.table, db.orders, db.free, PriceRule(rule), db'.table[PriceRule(rule)]);
    case EditCoupon(coupon, uses, active) =>
      EditKeepsBooks(db.table, db.orders, db.free, Coupon(coupon), db'.table[Coupon(coupon)]);
    case AddRow(r, _, _) => AddKeepsBooks(db, r, db'.table[r]);
    case Signup(category) => SignupKeepsBooks(db, category);
  }

  lemma StepKeeps(db: Db, c: Command)
    requires Inv(db) && Legal(db, c) && After(db, c).Ok?
    ensures Inv(After(db, c).value)
  {
    hide Sound, FreeArePaid;
    match c
    case Create(req, from, q) => CreateStepKeeps(db, req, from, q);
    case Cancel(_, id) => ReleaseKeeps(db, id, OrderCancel);
    case Submit(_, id, txnRef, declared, _) =>
      SubmitKeeps(db, id, Proof(id, db.orders[id].account, txnRef, declared, Submitted));
    case Approve(proof, received, at) => ApproveKeeps(db, proof, received, at);
    case Reject(proof, deadline) => RejectKeeps(db, proof, deadline);
    case Expire(id, _) => ReleaseKeeps(db, id, OrderExpiry);
    case _ => TableStepKeeps(db, c);
  }

  // ---------------------------------------------------------------- whole runs

  const EMPTY := Db(map[], map[], map[], [], [], [], [])

  /** A run from one database to another; a transaction that fails leaves no trace. */
  ghost predicate Runs(db: Db, run: seq<Command>, db': Db)
    decreases |run|
  {
    if run == [] then db' == db
    else
      var front, last := run[..|run| - 1], run[|run| - 1];
      exists mid :: Runs(db, front, mid) && StepsTo(mid, last, db')
  }

  ghost predicate StepsTo(db: Db, c: Command, db': Db)
  {
    Legal(db, c) && db' == Committed(After(db, c), db)
  }

  lemma EmptyIsFine()
    ensures Inv(EMPTY)
  {
  }

  lemma {:induction false} RunsKeep(db: Db, run: seq<Command>, db': Db)
    requires Runs(db, run, db') && Inv(db)
    ensures Inv(db')
    decreases |run|
  {
    hide Inv, After;
    if run != [] {
      var front, last := run[..|run| - 1], run[|run| - 1];
      var mid :| Runs(db, front, mid) && StepsTo(mid, last, db');
      RunsKeep(db, front, mid);
      if After(mid, last).Ok? { StepKeeps(mid, last); }
    }
  }

  /** Everything this module is about holds in every state the transactions can reach. */
  lemma RunKeeps(run: seq<Command>, db: Db)
    requires Runs(EMPTY, run, db)
    ensures Inv(db)
  {
    hide Inv, Runs;
    EmptyIsFine();
    RunsKeep(EMPTY, run, db);
  }
}
