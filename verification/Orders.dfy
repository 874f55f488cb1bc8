/**
  Registration orders, payment proofs, receipts and overpayments: the rows, and what each transaction does to them.
  A transaction either commits the whole change or fails and leaves every row as it was.
*/
module Orders {
  import opened Common
  import opened Ledger
  import opened Counters
  import opened Quoting

  const MIN_PARTICIPANTS := 1
  const MAX_PARTICIPANTS := 10
  const MIN_TXN_REF_LEN := 4
  const MAX_TXN_REF_LEN := 64

  datatype Status = PendingPayment | ProofSubmitted | ProofRejected | Paid | Expired | Cancelled

  /** A participant's registration within an order. */
  datatype RegStatus = Pending | Confirmed | Withdrawn

  /** `idHashes` are the participants' hashed id numbers, `regs` their registrations, in the order of `parts`. */
  datatype Order = Order(event: int, buyer: int, account: int, parts: seq<Priced>, idHashes: seq<string>,
                         regs: seq<RegStatus>, list: int, discount: int, offset: int, amount: int, coupon: Option<int>,
                         status: Status, hold: HoldState, deadline: Option<int>, paidAt: Option<int>)

  datatype ProofStatus = Submitted | Approved | Rejected

  datatype Proof = Proof(orderId: nat, account: int, txnRef: string, declared: int, status: ProofStatus)

  /** `excess` is match status EXCEPTION: more came in than was due. */
  datatype Receipt = Receipt(account: int, txnRef: string, amount: int, proofId: nat, orderId: nat, excess: bool)

  /** An open OVERPAID exception. */
  datatype Overpayment = Overpayment(orderId: nat, receiptId: nat, amount: int)

  /** `free` counts the seats taken by free sign-ups, which have no order. */
  datatype Db = Db(table: Table, redemptions: map<nat, Redemption>, free: map<Row, int>, orders: seq<Order>,
                   proofs: seq<Proof>, receipts: seq<Receipt>, overpaid: seq<Overpayment>)

  datatype OrderError =
    | InvalidInput
    | RegistrationClosed
    | AlreadyRegistered
    | PaymentAccountUnavailable
    | QuoteFailed(quote: QuoteError)
    | ReserveFailed(reserve: ReserveError)
    | OrderNotFound
    | NotFound
    | StateConflict
    | OrderExpired
    | ProofPending          // unique index: one SUBMITTED proof per order
    | TxnRefUsed
    | ReceivedAmountTooLow
    | CountersShort         // "fewer than n reserved seats"
    | PriceRuleLocked
    | QuotaBelowTaken
    | CategorySoldOutError

  /** A step inside a transaction: on an error the rows are whatever the step left behind. */
  ghost predicate Yields(r: Result<Db, OrderError>, err: Option<OrderError>, after: Db)
  {
    match r
    case Ok(db) => err.None? && after == db
    case Err(e) => err == Some(e)
  }

  /** A whole transaction: on an error every row is as before. */
  ghost predicate Commits(r: Result<Db, OrderError>, before: Db, err: Option<OrderError>, after: Db)
  {
    Yields(r, err, after) && (err.Some? ==> after == before)
  }

  ghost function Committed(r: Result<Db, OrderError>, before: Db): Db { if r.Ok? then r.value else before }

  // ---------------------------------------------------------------- moving an order

  function SeatsHeld(o: Order, coupon: Option<int>): multiset<Row>
  {
    SeatsOf(CategoryIds(o.parts), RuleIds(o.parts), coupon)
  }

  /** The conditional UPDATE of registrations: only those still pending change. */
  function MovePending(regs: seq<RegStatus>, to: RegStatus): seq<RegStatus>
  {
    seq(|regs|, i requires 0 <= i < |regs| => if regs[i] == Pending then to else regs[i])
  }

  /** An order row that has passed its conditional update, and the counters moved to match. */
  ghost function AfterMove(db: Db, id: nat, o: Order, ch: Change): Result<Db, OrderError>
    requires id < |db.orders|
  {
    var d := SeatsHeld(db.orders[id], OpenCoupon(db.redemptions, id));
    if !Allowed(db.table, d, ch) then Err(CountersShort)
    else Ok(db.(table := ApplyAll(db.table, d, ch), redemptions := MarkRedemption(db.redemptions, id, To(ch)),
                orders := db.orders[id := o]))
  }

  predicate Payable(o: Order)
  {
    o.hold == Reserved && (o.status == ProofSubmitted || (o.status == PendingPayment && o.amount == 0))
  }

  function PaidOrder(o: Order, at: int): Order
  {
    o.(status := Paid, paidAt := Some(at), deadline := None, hold := Consumed, regs := MovePending(o.regs, Confirmed))
  }

  ghost function AfterPaid(db: Db, id: nat, at: int): Result<Db, OrderError>
    requires id < |db.orders|
  {
    if !Payable(db.orders[id]) then Err(StateConflict)
    else AfterMove(db, id, PaidOrder(db.orders[id], at), Consume)
  }

  /** ReleaseOrder runs for two reasons, with their own conditions on the status. */
  datatype ReleaseKind = OrderExpiry | OrderCancel

  predicate Releasable(o: Order, kind: ReleaseKind)
  {
    o.hold == Reserved && (o.status == PendingPayment || (kind.OrderExpiry? && o.status == ProofRejected))
  }

  function ReleasedOrder(o: Order, kind: ReleaseKind): Order
  {
    o.(status := if kind.OrderExpiry? then Expired else Cancelled, deadline := None, hold := Released,
       regs := MovePending(o.regs, Withdrawn))
  }

  /** Releasing an order that is not releasable is no error; it just changes nothing. */
  ghost function AfterRelease(db: Db, id: nat, kind: ReleaseKind): Result<Db, OrderError>
    requires id < |db.orders|
  {
    if !Releasable(db.orders[id], kind) then Ok(db)
    else AfterMove(db, id, ReleasedOrder(db.orders[id], kind), Release)
  }

  ghost function AfterCancel(db: Db, buyer: int, id: nat): Result<Db, OrderError>
  {
    if id >= |db.orders| || db.orders[id].buyer != buyer then Err(OrderNotFound)
    else if db.orders[id].status != PendingPayment || !Releasable(db.orders[id], OrderCancel) then Err(StateConflict)
    else AfterRelease(db, id, OrderCancel)
  }

  // ---------------------------------------------------------------- placing an order

  datatype EventRow = EventRow(id: int, published: bool, race: bool, open: bool, opensAt: Option<int>,
                               closesAt: Option<int>)

  predicate RegistrationOpen(ev: EventRow, now: int)
  {
    ev.published && ev.race && ev.open &&
    (ev.opensAt.Some? ==> ev.opensAt.value <= now) && (ev.closesAt.Some? ==> ev.closesAt.value > now)
  }

  predicate Open(o: Order) { o.status.PendingPayment? || o.status.ProofSubmitted? || o.status.ProofRejected? }

  /** The payable amounts that are open on an account. */
  function OpenAmounts(orders: seq<Order>, account: int): set<int>
  {
    set i | 0 <= i < |orders| && Open(orders[i]) && orders[i].account == account :: orders[i].amount
  }

  /** Somebody with this id number is registered for the event and has not been withdrawn. */
  predicate Registered(orders: seq<Order>, event: int, idHash: string)
  {
    exists i, k | 0 <= i < |orders| && orders[i].event == event && 0 <= k < |orders[i].idHashes| &&
                  k < |orders[i].regs| ::
      orders[i].idHashes[k] == idHash && !orders[i].regs[k].Withdrawn?
  }

  predicate AllDistinct(s: seq<string>) { forall i, j | 0 <= i < j < |s| :: s[i] != s[j] }

  /** A request: who buys, for whom, and the settings it is placed under. */
  datatype OrderRequest = OrderRequest(ev: EventRow, buyer: int, runners: seq<Runner>, couponCode: string,
                                       account: Option<int>, maxOffset: int, uploadWindow: int, now: int)

  datatype Runner = Runner(participant: Participant, idHash: string)

  function IdHashes(req: OrderRequest): seq<string>
  {
    seq(|req.runners|, i requires 0 <= i < |req.runners| => req.runners[i].idHash)
  }

  function QuoteInputOf(req: OrderRequest): QuoteInput
  {
    QuoteInput(req.ev.id, req.now, req.couponCode, seq(|req.runners|, i requires 0 <= i < |req.runners| =>
      req.runners[i].participant))
  }

  function AccountOf(db: Db, req: OrderRequest): Option<Account>
    requires req.account.Some?
  {
    Some(Account(OpenAmounts(db.orders, req.account.value), req.maxOffset))
  }

  predicate TakenAlready(db: Db, req: OrderRequest)
  {
    exists h <- IdHashes(req) :: Registered(db.orders, req.ev.id, h)
  }

  function NewOrder(req: OrderRequest, account: int, q: Quote): Order
  {
    Order(req.ev.id, req.buyer, account, q.parts, IdHashes(req), seq(|q.parts|, _ => Pending), q.list, q.discount,
          q.offset, q.amount, q.coupon, PendingPayment, Reserved, Some(req.now + req.uploadWindow), None)
  }

  /** The order written with its seats reserved and its coupon use recorded. */
  ghost function AfterInsert(db: Db, req: OrderRequest, account: int, q: Quote): Db
  {
    var id := |db.orders|;
    db.(table := ApplyAll(db.table, SeatsOf(CategoryIds(q.parts), RuleIds(q.parts), q.coupon), Reserve),
        redemptions := if q.coupon.None? then db.redemptions
                       else db.redemptions[id := Redemption(q.coupon.value, q.couponDiscount, Reserved)],
        orders := db.orders + [NewOrder(req, account, q)])
  }

  /** The checks before pricing, in the order in which they are made. */
  function RefusedEarly(db: Db, req: OrderRequest): Option<OrderError>
  {
    if !(MIN_PARTICIPANTS <= |req.runners| <= MAX_PARTICIPANTS) then Some(InvalidInput)
    else if !RegistrationOpen(req.ev, req.now) then Some(RegistrationClosed)
    else if !AllDistinct(IdHashes(req)) then Some(InvalidInput)
    else if TakenAlready(db, req) then Some(AlreadyRegistered)
    else if req.account.None? then Some(PaymentAccountUnavailable)
    else None
  }

  /** The first kind of counter that has no room left, as Reserve reports it. */
  ghost function ReserveRefused(t: Table, q: Quote): Option<ReserveError>
  {
    if !Allowed(t, multiset(CategoryRows(CategoryIds(q.parts))), Reserve) then Some(CategorySoldOut)
    else if !Allowed(t, multiset(RuleRows(RuleIds(q.parts))), Reserve) then Some(PriceTierSoldOut)
    else if !Allowed(t, SeatsOf(CategoryIds(q.parts), RuleIds(q.parts), q.coupon), Reserve)
    then Some(ReserveError.CouponExhausted)
    else None
  }

  /** Placing a priced order. With nothing to pay it is confirmed in the same transaction. */
  ghost function AfterCreate(db: Db, req: OrderRequest, q: Quote): Result<Db, OrderError>
  {
    if RefusedEarly(db, req).Some? then Err(RefusedEarly(db, req).value)
    else if ReserveRefused(db.table, q).Some? then Err(ReserveFailed(ReserveRefused(db.table, q).value))
    else
      var db' := AfterInsert(db, req, req.account.value, q);
      if q.amount == 0 then AfterPaid(db', |db.orders|, req.now) else Ok(db')
  }

  // ---------------------------------------------------------------- proofs and their review

  predicate Live(p: Proof) { p.status.Submitted? || p.status.Approved? }

  predicate ProofPendingFor(proofs: seq<Proof>, id: nat)
  {
    exists p <- proofs :: p.orderId == id && p.status.Submitted?
  }

  predicate RefUsed(proofs: seq<Proof>, account: int, txnRef: string)
  {
    exists p <- proofs :: Live(p) && p.account == account && p.txnRef == txnRef
  }

  predicate ReceiptExists(receipts: seq<Receipt>, account: int, txnRef: string)
  {
    exists r <- receipts :: r.account == account && r.txnRef == txnRef
  }

  /** The proof written and its order moved into review, where no deadline runs. */
  function WithProof(db: Db, id: nat, p: Proof): Db
    requires id < |db.orders|
  {
    db.(proofs := db.proofs + [p],
        orders := db.orders[id := db.orders[id].(status := ProofSubmitted, deadline := None)])
  }

  function AfterSubmit(db: Db, buyer: int, id: nat, txnRef: string, declared: int, now: int): Result<Db, OrderError>
  {
    if id >= |db.orders| || db.orders[id].buyer != buyer then Err(OrderNotFound)
    else
      var o := db.orders[id];
      if o.status != PendingPayment && o.status != ProofRejected then Err(StateConflict)
      else if o.deadline.Some? && o.deadline.value <= now then Err(OrderExpired)
      else if !(MIN_TXN_REF_LEN <= |txnRef| <= MAX_TXN_REF_LEN) || declared <= 0 then Err(InvalidInput)
      else if ProofPendingFor(db.proofs, id) then Err(ProofPending)
      else if RefUsed(db.proofs, o.account, txnRef) then Err(TxnRefUsed)
      else if o.hold != Reserved then Err(StateConflict)
      else Ok(WithProof(db, id, Proof(id, o.account, txnRef, declared, Submitted)))
  }

  /** The rows lockForReview hands on: a submitted proof and the order it is for. */
  function UnderReview(db: Db, proofId: nat): Result<nat, OrderError>
  {
    if proofId >= |db.proofs| then Err(NotFound)
    else
      var p := db.proofs[proofId];
      if p.orderId >= |db.orders| then Err(OrderNotFound)
      else if p.status != Submitted || db.orders[p.orderId].status != ProofSubmitted then Err(StateConflict)
      else Ok(p.orderId)
  }

  /** The receipt of an approved proof, and the exception for what came in above the amount due. */
  function WithReceipt(db: Db, proofId: nat, id: nat, received: int): Db
    requires proofId < |db.proofs| && id < |db.orders|
  {
    var p, over := db.proofs[proofId], received - db.orders[id].amount;
    db.(proofs := db.proofs[proofId := p.(status := Approved)],
        receipts := db.receipts + [Receipt(p.account, p.txnRef, received, proofId, id, over > 0)],
        overpaid := if over > 0 then db.overpaid + [Overpayment(id, |db.receipts|, over)] else db.overpaid)
  }

  ghost function AfterApprove(db: Db, proofId: nat, received: int, receivedAt: int): Result<Db, OrderError>
  {
    if received <= 0 then Err(InvalidInput)
    else
      var id := UnderReview(db, proofId);
      if id.Err? then Err(id.error)
      else if received < db.orders[id.value].amount then Err(ReceivedAmountTooLow)
      else if ReceiptExists(db.receipts, db.proofs[proofId].account, db.proofs[proofId].txnRef) then Err(TxnRefUsed)
      else AfterPaid(WithReceipt(db, proofId, id.value, received), id.value, receivedAt)
  }

  function AfterReject(db: Db, proofId: nat, deadline: int): Result<Db, OrderError>
  {
    var id := UnderReview(db, proofId);
    if id.Err? then Err(id.error)
    else if db.orders[id.value].hold != Reserved then Err(StateConflict)
    else
      var o := db.orders[id.value].(status := ProofRejected, deadline := Some(deadline));
      Ok(db.(proofs := db.proofs[proofId := db.proofs[proofId].(status := Rejected)],
             orders := db.orders[id.value := o]))
  }

  // ---------------------------------------------------------------- counters edited by the staff

  /** `repriced` says that price, audience or categories differ from the stored rule. */
  function AfterRuleEdit(db: Db, rule: int, quota: Option<int>, repriced: bool): Result<Db, OrderError>
  {
    var r := PriceRule(rule);
    if r !in db.table then Err(NotFound)
    else
      var taken := db.table[r].used + db.table[r].reserved;
      if taken > 0 && repriced then Err(PriceRuleLocked)
      else if quota.Some? && quota.value < taken then Err(QuotaBelowTaken)
      else Ok(db.(table := db.table[r := db.table[r].(limit := quota)]))
  }

  function AfterCouponEdit(db: Db, coupon: int, quota: int, active: bool): Result<Db, OrderError>
  {
    var r := Coupon(coupon);
    if r !in db.table then Err(NotFound)
    else if quota < db.table[r].used + db.table[r].reserved then Err(QuotaBelowTaken)
    else Ok(db.(table := db.table[r := db.table[r].(limit := Some(quota), active := active)]))
  }

  /** A new category, price rule or coupon; the database assigns a fresh id. */
  function AfterAddRow(db: Db, r: Row, limit: Option<int>, active: bool): Result<Db, OrderError>
  {
    if r in db.table || (limit.Some? && limit.value < 0) || (r.Category? && limit.None?) || (!r.Coupon? && !active)
    then Err(InvalidInput)
    else Ok(db.(table := db.table[r := Counter(limit, 0, 0, active)]))
  }

  /** A free sign-up takes a seat of its category at once. */
  function AfterSignup(db: Db, category: int): Result<Db, OrderError>
  {
    var r := Category(category);
    if r !in db.table then Err(NotFound)
    else if !Guard(db.table[r], 1, Occupy) then Err(CategorySoldOutError)
    else Ok(db.(table := db.table[r := Apply(db.table[r], 1, Occupy)], free := db.free[r := BaseOf(db.free, r) + 1]))
  }
}
