/** The promises of registration and payment, read off every state that the transactions can reach. */
module OrderRuns {
  import opened Common
  import opened Ledger
  import Counters
  import opened Quoting
  import opened Orders
  import opened OrderBooks

  /** How a transaction may move an order that exists before it. */
  predicate Moves(c: Command, from: Status, to: Status)
  {
    match c
    case Cancel(_, _) => from == PendingPayment && to == Cancelled
    case Expire(_, _) => (from == PendingPayment || from == ProofRejected) && to == Expired
    case Submit(_, _, _, _, _) => (from == PendingPayment || from == ProofRejected) && to == ProofSubmitted
    case Approve(_, _, _) => from == ProofSubmitted && to == Paid
    case Reject(_, _) => from == ProofSubmitted && to == ProofRejected
    case _ => false
  }

  /** The order a command is about, if it is about one. */
  ghost predicate About(db: Db, c: Command, id: nat)
  {
    match c
    case Cancel(_, o) => o == id
    case Expire(o, _) => o == id
    case Submit(_, o, _, _, _) => o == id
    case Approve(p, _, _) => p < |db.proofs| && db.proofs[p].orderId == id
    case Reject(p, _) => p < |db.proofs| && db.proofs[p].orderId == id
    case _ => false
  }

  /**
    A transaction changes the order it is about, along one arrow of the state diagram, and no other; what was agreed
    about an order never changes.
  */
  lemma OneArrow(db: Db, c: Command, db': Db, id: nat)
    requires StepsTo(db, c, db') && id < |db.orders|
    ensures |db'.orders| >= |db.orders| && SameTerms(db.orders[id], db'.orders[id])
    ensures db'.orders[id] == db.orders[id] ||
            (About(db, c, id) && Moves(c, db.orders[id].status, db'.orders[id].status))
  {
    hide Allowed, ApplyAll, SeatsHeld, RefusedEarly, ReserveRefused, QuotedFor;
    match c
    case Create(req, _, q) => if After(db, c).Ok? { OnlyAppends(db, req, q); }
    case Approve(proof, received, at) => if After(db, c).Ok? { OnlyPays(db, proof, received, at, id); }
    case _ =>
  }

  lemma OnlyAppends(db: Db, req: OrderRequest, q: Quote)
    requires AfterCreate(db, req, q).Ok?
    ensures var orders := AfterCreate(db, req, q).value.orders;
            |orders| == |db.orders| + 1 && forall i | 0 <= i < |db.orders| :: orders[i] == db.orders[i]
  {
    hide Allowed, ApplyAll, SeatsHeld, RefusedEarly, ReserveRefused;
  }

  lemma OnlyPays(db: Db, proof: nat, received: int, at: int, id: nat)
    requires AfterApprove(db, proof, received, at).Ok? && id < |db.orders|
    ensures var orders := AfterApprove(db, proof, received, at).value.orders;
            |orders| == |db.orders| && UnderReview(db, proof).Ok? &&
            orders[id] == if id == UnderReview(db, proof).value then PaidOrder(db.orders[id], at) else db.orders[id]
  {
  }

  /** Every transaction but the placing of an order leaves the number of orders alone. */
  lemma SameRows(db: Db, c: Command, db': Db)
    requires StepsTo(db, c, db') && (!c.Create? || After(db, c).Err?)
    ensures |db'.orders| == |db.orders|
  {
    hide QuotedFor, Due, RefusedEarly, AfterMove;
    if c.Approve? && After(db, c).Ok? {
      ApproveKeepsRows(db, c.proof, c.received, c.receivedAt);
    } else if (c.Cancel? || c.Expire?) && After(db, c).Ok? {
      ReleaseKeepsRows(db, c.order, if c.Cancel? then OrderCancel else OrderExpiry);
    }
  }

  lemma ApproveKeepsRows(db: Db, proof: nat, received: int, at: int)
    requires AfterApprove(db, proof, received, at).Ok?
    ensures |AfterApprove(db, proof, received, at).value.orders| == |db.orders|
  {
    hide Allowed, ApplyAll, SeatsHeld;
  }

  lemma ReleaseKeepsRows(db: Db, id: nat, kind: ReleaseKind)
    requires id < |db.orders| && AfterRelease(db, id, kind).Ok?
    ensures |AfterRelease(db, id, kind).value.orders| == |db.orders|
  {
    hide Allowed, ApplyAll, SeatsHeld;
  }

  /** Paid, expired and cancelled orders stay what they are; so seats are consumed or released exactly once. */
  lemma SettledForGood(run: seq<Command>, db: Db, c: Command, db': Db, id: nat)
    requires Runs(EMPTY, run, db) && StepsTo(db, c, db') && id < |db.orders| && db.orders[id].hold != Reserved
    ensures |db'.orders| > id && db'.orders[id] == db.orders[id]
  {
    hide Inv, StepsTo;
    RunKeeps(run, db);
    OrderFacts(db, id);
    OneArrow(db, c, db', id);
  }

  /** While a proof is being reviewed the order cannot expire or be cancelled: only the review moves it. */
  lemma ReviewShields(run: seq<Command>, db: Db, c: Command, db': Db, id: nat)
    requires Runs(EMPTY, run, db) && StepsTo(db, c, db') && id < |db.orders| && db.orders[id].status.ProofSubmitted?
    ensures db.orders[id].deadline.None?
    ensures |db'.orders| > id && (c.Approve? || c.Reject? || db'.orders[id] == db.orders[id])
  {
    hide Inv, StepsTo;
    RunKeeps(run, db);
    OrderFacts(db, id);
    OneArrow(db, c, db', id);
  }

  /** Every counter says who holds its seats, and no category, tier or coupon is ever oversold. */
  lemma SeatsAreConserved(run: seq<Command>, db: Db, r: Row)
    requires Runs(EMPTY, run, db) && r in db.table
    ensures db.table[r].reserved == SumBy(Holdings(db.orders), ReservedBy(r))
    ensures db.table[r].used == BaseOf(db.free, r) + SumBy(Holdings(db.orders), ConsumedBy(r))
    ensures 0 <= db.table[r].used && 0 <= db.table[r].reserved
    ensures db.table[r].limit.Some? ==> db.table[r].used + db.table[r].reserved <= db.table[r].limit.value
  {
    RunKeeps(run, db);
    assert RowConserved(db.table[r], r, Holdings(db.orders), db.free);
  }

  /** The database errors that the code guards against as a last resort never come up. */
  lemma LastResortsUnreached(run: seq<Command>, db: Db, c: Command)
    requires Runs(EMPTY, run, db) && Legal(db, c)
    ensures After(db, c) != Err(CountersShort) && After(db, c) != Err(ProofPending)
    ensures c.Approve? ==> After(db, c) != Err(TxnRefUsed)
  {
    hide Inv, AfterCreate, AfterApprove, AfterRelease, AfterSubmit, QuotedFor;
    RunKeeps(run, db);
    match c
    case Create(req, from, q) => CreateNeverShort(db, req, from, q);
    case Cancel(_, id) => if id < |db.orders| { ReleaseKeeps(db, id, OrderCancel); }
    case Submit(buyer, id, txnRef, declared, now) => SubmitNeverPending(db, buyer, id, txnRef, declared, now);
    case Approve(p, received, at) => ApproveFailsInSight(db, p, received, at);
    case Expire(id, _) => ReleaseKeeps(db, id, OrderExpiry);
    case _ =>
  }

  lemma SubmitNeverPending(db: Db, buyer: int, id: nat, txnRef: string, declared: int, now: int)
    requires Inv(db)
    ensures var r := AfterSubmit(db, buyer, id, txnRef, declared, now);
            r != Err(ProofPending) && r != Err(CountersShort)
  {
    hide Inv, ProofPendingFor, RefUsed;
    if id < |db.orders| { PendingProofIffUnderReview(db, id); }
  }

  lemma ApproveFailsInSight(db: Db, proof: nat, received: int, at: int)
    requires Inv(db)
    ensures var r := AfterApprove(db, proof, received, at);
            r.Ok? || r.error in {InvalidInput, NotFound, OrderNotFound, StateConflict, ReceivedAmountTooLow}
  {
    hide Inv, AfterPaid, ReceiptExists;
    ApproveKeeps(db, proof, received, at);
  }

  lemma CreateNeverShort(db: Db, req: OrderRequest, from: Reads, q: Quote)
    requires Inv(db) && Legal(db, Create(req, from, q))
    ensures AfterCreate(db, req, q) != Err(CountersShort) && AfterCreate(db, req, q) != Err(ProofPending)
  {
    hide Inv, QuotedFor, Allowed, AfterInsert;
    if RefusedEarly(db, req).None? && ReserveRefused(db.table, q).None? { CreateKeeps(db, req, from, q); }
  }

  /** A payable amount with identifying cents points at one open order of its account. */
  lemma AmountIdentifiesOrder(run: seq<Command>, db: Db, i: nat, j: nat)
    requires Runs(EMPTY, run, db) && i < j < |db.orders|
    requires Open(db.orders[i]) && Open(db.orders[j]) && db.orders[i].account == db.orders[j].account
    requires db.orders[i].offset > 0 && db.orders[j].offset > 0
    ensures db.orders[i].amount != db.orders[j].amount
  {
    RunKeeps(run, db);
  }

  /** A person is registered once per event, over all orders and within one. */
  lemma RegisteredOnce(run: seq<Command>, db: Db, i: nat, k: nat, j: nat, l: nat)
    requires Runs(EMPTY, run, db) && (i < j || (i == j && k < l)) && j < |db.orders|
    requires HasPlace(db.orders[i], k) && HasPlace(db.orders[j], l) && db.orders[i].event == db.orders[j].event
    ensures db.orders[i].idHashes[k] != db.orders[j].idHashes[l]
  {
    hide OrdersOk, Books, TalliesOk, ProofsOk, AmountsApart, MoneyBalances;
    RunKeeps(run, db);
    OrderFacts(db, i);
    OrderFacts(db, j);
    assert i < j ==> NoneShared(db.orders[i].idHashes, db.orders[j].idHashes);
  }

  /** The registration of participant k has not been withdrawn. */
  predicate HasPlace(o: Order, k: nat) { k < |o.idHashes| && k < |o.regs| && !o.regs[k].Withdrawn? }

  /** Status, reservation, coupon use, proofs, receipts and exceptions of an order always agree. */
  lemma OneStory(run: seq<Command>, db: Db, id: nat)
    requires Runs(EMPTY, run, db) && id < |db.orders|
    ensures StatusOk(db.orders[id]) && RedemptionOk(db.redemptions, id, db.orders[id])
    ensures TallyOk(db.orders[id], TallyOf(db.proofs, db.receipts, db.overpaid, id))
    ensures db.orders[id].amount == 0 ==> db.orders[id].status.Paid?
  {
    RunKeeps(run, db);
    OrderFacts(db, id);
  }

  /** One bank transfer is booked once: no two receipts share an account and a reference. */
  lemma BookedOnce(run: seq<Command>, db: Db, r: nat, s: nat)
    requires Runs(EMPTY, run, db) && r < s < |db.receipts|
    ensures db.receipts[r].account != db.receipts[s].account || db.receipts[r].txnRef != db.receipts[s].txnRef
  {
    RunKeeps(run, db);
    var p, q := db.receipts[r], db.receipts[s];
    assert ReceiptFits(p, db.proofs) && ReceiptFits(q, db.proofs);
    if p.proofId == q.proofId { SameOrderTwice(db, r, s); }
  }

  /** Two receipts for one proof would give its order two receipts. */
  lemma SameOrderTwice(db: Db, r: nat, s: nat)
    requires Inv(db) && r < s < |db.receipts|
    ensures db.receipts[r].orderId != db.receipts[s].orderId
  {
    var id := db.receipts[r].orderId;
    assert ReceiptFits(db.receipts[r], db.proofs) && ProofFits(db.proofs[db.receipts[r].proofId], db.orders);
    OrderFacts(db, id);
    TwoCount(db.receipts, ReceiptOf(id), r, s);
  }

  lemma {:induction false} TwoCount(receipts: seq<Receipt>, f: Receipt -> int, r: nat, s: nat)
    requires r < s < |receipts| && forall x <- receipts :: f(x) >= 0
    ensures SumBy(receipts, f) >= f(receipts[r]) + f(receipts[s])
  {
    var n := |receipts| - 1;
    var front := receipts[..n];
    if s == n {
      SumByNonNegative(front, f);
      assert front[r] in front;
    } else {
      TwoCount(front, f, r, s);
      assert receipts[n] in receipts;
    }
  }

  /** All the money: what came in is what the paid orders cost plus what the open exceptions record. */
  lemma MoneyIsConserved(run: seq<Command>, db: Db)
    requires Runs(EMPTY, run, db)
    ensures SumBy(db.receipts, Received) == SumBy(db.orders, AmountPaid) + SumBy(db.overpaid, OnTop)
  {
    RunKeeps(run, db);
  }

  /** On counters that have not moved since the quote, only a category can still be full. */
  lemma QuoteOnlyMissesCategories(db: Db, req: OrderRequest, from: Reads, q: Quote)
    requires QuotedFor(db, req, from, q) && ReadFrom(from.cat, db.table)
    ensures ReserveRefused(db.table, q).None? || ReserveRefused(db.table, q) == Some(Counters.CategorySoldOut)
  {
    hide IsQuote, ReadFrom, WellFormed, Allowed, ApplyAll;
    QuoteFitsReserve(from.cat, QuoteInputOf(req), Some(Account(from.open, req.maxOffset)), q, db.table);
    Counters.AllowedByKind(db.table, CategoryIds(q.parts), RuleIds(q.parts), q.coupon, Reserve);
  }

  // ---------------------------------------------------------------- what the staff and free sign-ups may do

  /** The seats of a row that orders and free sign-ups have, counted from them and not from the counter. */
  ghost function SeatsTaken(db: Db, r: Row): int
  {
    SumBy(Holdings(db.orders), ReservedBy(r)) + SumBy(Holdings(db.orders), ConsumedBy(r)) + BaseOf(db.free, r)
  }

  lemma CounterIsTaken(run: seq<Command>, db: Db, r: Row)
    requires Runs(EMPTY, run, db) && r in db.table
    ensures db.table[r].used + db.table[r].reserved == SeatsTaken(db, r) && (!r.Category? ==> BaseOf(db.free, r) == 0)
    ensures db.table[r].active || r.Coupon?
  {
    SeatsAreConserved(run, db, r);
    RunKeeps(run, db);
    assert RowConserved(db.table[r], r, Holdings(db.orders), db.free);
  }

  /** A quota may be lowered to what the orders have and no further; a coupon's number of uses as well. */
  lemma QuotaEditsIff(run: seq<Command>, db: Db, id: int, quota: int, active: bool)
    requires Runs(EMPTY, run, db)
    ensures AfterRuleEdit(db, id, Some(quota), false).Ok? <==>
            PriceRule(id) in db.table && SeatsTaken(db, PriceRule(id)) <= quota
    ensures AfterCouponEdit(db, id, quota, active).Ok? <==>
            Coupon(id) in db.table && SeatsTaken(db, Coupon(id)) <= quota
  {
    if PriceRule(id) in db.table { CounterIsTaken(run, db, PriceRule(id)); }
    if Coupon(id) in db.table { CounterIsTaken(run, db, Coupon(id)); }
  }

  /** No order that stands has a seat in row r. */
  ghost predicate Untouched(orders: seq<Order>, r: Row)
  {
    forall i | 0 <= i < |orders| && orders[i].hold != Released :: r !in SeatsHeld(orders[i], orders[i].coupon)
  }

  /** All its seats are zero exactly when nobody has one. */
  lemma UntouchedIff(orders: seq<Order>, r: Row)
    ensures Untouched(orders, r) <==>
            SumBy(Holdings(orders), ReservedBy(r)) + SumBy(Holdings(orders), ConsumedBy(r)) == 0
  {
    hide SumBy, SeatsHeld;
    var hs, f, g := Holdings(orders), ReservedBy(r), ConsumedBy(r);
    SumByNonNegative(hs, f);
    SumByNonNegative(hs, g);
    if Untouched(orders, r) {
      forall h <- hs ensures f(h) == 0 && g(h) == 0 {
        var i :| 0 <= i < |hs| && hs[i] == h;
        SeatsOfOne(orders[i], r);
      }
      SumByZero(hs, f);
      SumByZero(hs, g);
    } else {
      var i :| 0 <= i < |orders| && orders[i].hold != Released && r in SeatsHeld(orders[i], orders[i].coupon);
      SeatsOfOne(orders[i], r);
      assert hs[i] in hs;
    }
  }

  lemma SeatsOfOne(o: Order, r: Row)
    ensures var (f, g) := (ReservedBy(r)(HoldingOf(o)), ConsumedBy(r)(HoldingOf(o)));
            f >= 0 && g >= 0 && (f + g == 0 <==> o.hold == Released || r !in SeatsHeld(o, o.coupon))
  {
  }

  /** A tier can be repriced exactly while no order that stands has a seat in it; a quota has to be allowed as well. */
  lemma RepricedIffUntouched(run: seq<Command>, db: Db, rule: int, quota: Option<int>)
    requires Runs(EMPTY, run, db)
    ensures AfterRuleEdit(db, rule, quota, true).Ok? <==>
            PriceRule(rule) in db.table && Untouched(db.orders, PriceRule(rule)) &&
            (quota.Some? ==> quota.value >= 0)
  {
    if PriceRule(rule) in db.table {
      CounterIsTaken(run, db, PriceRule(rule));
      UntouchedIff(db.orders, PriceRule(rule));
      hide Untouched, Runs, SumBy, Holdings;
      SeatsNotNegative(db.orders, PriceRule(rule));
    }
  }

  lemma SeatsNotNegative(orders: seq<Order>, r: Row)
    ensures SumBy(Holdings(orders), ReservedBy(r)) + SumBy(Holdings(orders), ConsumedBy(r)) >= 0
  {
    SumByNonNegative(Holdings(orders), ReservedBy(r));
    SumByNonNegative(Holdings(orders), ConsumedBy(r));
  }

  /** A free sign-up gets a seat exactly when orders and earlier sign-ups leave one. */
  lemma SignupsIff(run: seq<Command>, db: Db, category: int)
    requires Runs(EMPTY, run, db)
    ensures var r := Category(category);
            AfterSignup(db, category).Ok? <==>
            r in db.table && (db.table[r].limit.Some? ==> SeatsTaken(db, r) < db.table[r].limit.value)
  {
    if Category(category) in db.table { CounterIsTaken(run, db, Category(category)); }
  }

  /** Every submitted proof can be reviewed: its order is there and waits for exactly that. */
  lemma SubmittedProofsAreReviewable(run: seq<Command>, db: Db, p: nat)
    requires Runs(EMPTY, run, db)
    ensures UnderReview(db, p).Ok? <==> p < |db.proofs| && db.proofs[p].status.Submitted?
  {
    hide OrdersOk, Books, TalliesOk, AmountsApart, OncePerEvent, MoneyBalances, Runs;
    RunKeeps(run, db);
    if p < |db.proofs| && db.proofs[p].status.Submitted? {
      assert ProofFits(db.proofs[p], db.orders) && db.proofs[p] in db.proofs;
      hide Inv;
      PendingProofIffUnderReview(db, db.proofs[p].orderId);
    }
  }
}
