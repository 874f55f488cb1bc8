/**
  When each transaction on an order succeeds, why it fails otherwise, and what the order looks like afterwards: in terms
  of the rows and the limits themselves.
*/
module OrderOutcomes {
  import opened Common
  import opened Ledger
  import opened Counters
  import opened Quoting
  import opened Orders
  import opened OrderBooks
  import OrderRuns

  // ---------------------------------------------------------------- the seats of an order

  ghost function HowMany(parts: seq<Priced>, f: Priced -> bool): nat
  {
    if parts == [] then 0
    else HowMany(parts[..|parts| - 1], f) + if f(parts[|parts| - 1]) then 1 else 0
  }

  /** An order holds a seat of each runner's category, one of his tier, and one use of its coupon. */
  lemma SeatsHeldAre(o: Order, coupon: Option<int>, id: int)
    ensures SeatsHeld(o, coupon)[Category(id)] == HowMany(o.parts, (x: Priced) => x.category == id)
    ensures SeatsHeld(o, coupon)[PriceRule(id)] == HowMany(o.parts, (x: Priced) => x.ruleId == id)
    ensures SeatsHeld(o, coupon)[Coupon(id)] == if coupon == Some(id) then 1 else 0
  {
    CategorySeats(o.parts, id);
    TierSeats(o.parts, id);
  }

  lemma {:induction false} CategorySeats(parts: seq<Priced>, id: int)
    ensures multiset(CategoryRows(CategoryIds(parts)))[Category(id)] == HowMany(parts, (x: Priced) => x.category == id)
  {
    if parts != [] {
      var front, last := parts[..|parts| - 1], parts[|parts| - 1];
      CategorySeats(front, id);
      assert CategoryRows(CategoryIds(parts)) == CategoryRows(CategoryIds(front)) + [Category(last.category)];
    }
  }

  lemma {:induction false} TierSeats(parts: seq<Priced>, id: int)
    ensures multiset(RuleRows(RuleIds(parts)))[PriceRule(id)] == HowMany(parts, (x: Priced) => x.ruleId == id)
  {
    if parts != [] {
      var front, last := parts[..|parts| - 1], parts[|parts| - 1];
      TierSeats(front, id);
      assert RuleRows(RuleIds(parts)) == RuleRows(RuleIds(front)) + [PriceRule(last.ruleId)];
    }
  }

  // ---------------------------------------------------------------- placing

  /** The event is a published race whose registration is open at that moment. */
  ghost predicate TakesOrders(ev: EventRow, now: int)
  {
    ev.published && ev.race && ev.open && !(ev.opensAt.Some? && now < ev.opensAt.value) &&
    !(ev.closesAt.Some? && now >= ev.closesAt.value)
  }

  /** Nobody comes twice, and nobody who has a place in the event comes again. */
  ghost predicate AllNew(orders: seq<Order>, req: OrderRequest)
  {
    (forall k, l | 0 <= k < l < |req.runners| :: req.runners[k].idHash != req.runners[l].idHash) &&
    forall k, i, j | 0 <= k < |req.runners| && 0 <= i < |orders| && orders[i].event == req.ev.id &&
                     0 <= j < |orders[i].idHashes| && j < |orders[i].regs| && !orders[i].regs[j].Withdrawn? ::
      orders[i].idHashes[j] != req.runners[k].idHash
  }

  /** Every row that the order needs is there, active, and has that many seats left. */
  ghost predicate RoomFor(db: Db, need: multiset<Row>)
  {
    forall r <- need ::
      r in db.table && db.table[r].active &&
      (db.table[r].limit.Some? ==> OrderRuns.SeatsTaken(db, r) + need[r] <= db.table[r].limit.value)
  }

  /** Amounts that identifying cents must avoid: those of the account's own orders that are still to be paid. */
  lemma OpenAmountsAre(orders: seq<Order>, account: int, x: int)
    ensures x in OpenAmounts(orders, account) <==>
            exists i | 0 <= i < |orders| ::
              orders[i].account == account && orders[i].amount == x && !orders[i].status.Paid? &&
              !orders[i].status.Expired? && !orders[i].status.Cancelled?
  {
  }

  lemma RefusedEarlyIff(db: Db, req: OrderRequest)
    ensures RefusedEarly(db, req).None? <==>
            1 <= |req.runners| <= 10 && TakesOrders(req.ev, req.now) && AllNew(db.orders, req) && req.account.Some?
  {
    var hs := IdHashes(req);
    assert forall k | 0 <= k < |req.runners| :: hs[k] == req.runners[k].idHash && hs[k] in hs;
    if !TakenAlready(db, req) && AllDistinct(hs) {
      forall k, l | 0 <= k < l < |req.runners| ensures req.runners[k].idHash != req.runners[l].idHash {
        assert hs[k] != hs[l];
      }
      forall k, i, j | 0 <= k < |req.runners| && 0 <= i < |db.orders| && db.orders[i].event == req.ev.id &&
                       0 <= j < |db.orders[i].idHashes| && j < |db.orders[i].regs| && !db.orders[i].regs[j].Withdrawn?
        ensures db.orders[i].idHashes[j] != req.runners[k].idHash
      {
        assert !Registered(db.orders, req.ev.id, hs[k]);
      }
    }
  }

  lemma RoomIff(run: seq<Command>, db: Db, q: Quote)
    requires Runs(EMPTY, run, db)
    ensures ReserveRefused(db.table, q).None? <==>
            RoomFor(db, SeatsOf(CategoryIds(q.parts), RuleIds(q.parts), q.coupon))
  {
    var need := SeatsOf(CategoryIds(q.parts), RuleIds(q.parts), q.coupon);
    AllowedByKind(db.table, CategoryIds(q.parts), RuleIds(q.parts), q.coupon, Reserve);
    forall r | r in db.table
      ensures db.table[r].used + db.table[r].reserved == OrderRuns.SeatsTaken(db, r)
    {
      OrderRuns.CounterIsTaken(run, db, r);
    }
  }

  predicate IsCategory(r: Row) { r.Category? }

  predicate IsPriceRule(r: Row) { r.PriceRule? }

  predicate IsCoupon(r: Row) { r.Coupon? }

  ghost predicate Full(t: Table, r: Row, n: int)
  {
    r !in t || !t[r].active || (t[r].limit.Some? && t[r].used + t[r].reserved + n > t[r].limit.value)
  }

  ghost predicate SomeFull(t: Table, need: multiset<Row>, kind: Row -> bool)
  {
    exists r <- need :: kind(r) && Full(t, r, need[r])
  }

  lemma KindOf(categories: seq<int>, rules: seq<int>, coupon: Option<int>, r: Row)
    ensures r in multiset(CategoryRows(categories)) ==> r.Category?
    ensures r in multiset(RuleRows(rules)) ==> r.PriceRule?
    ensures r in multiset(CouponRows(coupon)) ==> r.Coupon?
  {
    if r in multiset(CategoryRows(categories)) { assert r in CategoryRows(categories); }
    if r in multiset(RuleRows(rules)) { assert r in RuleRows(rules); }
    if r in multiset(CouponRows(coupon)) { assert r in CouponRows(coupon); }
  }

  /** Whether the rows of one kind have room. */
  lemma KindIff(t: Table, need: multiset<Row>, part: multiset<Row>, kind: Row -> bool)
    requires forall r: Row :: part[r] == if kind(r) then need[r] else 0
    ensures Allowed(t, part, Reserve) <==> !SomeFull(t, need, kind)
  {
    assert forall r :: r in part <==> r in need && kind(r);
  }

  /** The error names the first kind that is full: categories, then tiers, then the coupon. */
  lemma FullBecause(t: Table, q: Quote)
    ensures var need := SeatsOf(CategoryIds(q.parts), RuleIds(q.parts), q.coupon);
            var cat, tier := SomeFull(t, need, IsCategory), SomeFull(t, need, IsPriceRule);
            (ReserveRefused(t, q) == Some(CategorySoldOut) <==> cat) &&
            (ReserveRefused(t, q) == Some(PriceTierSoldOut) <==> !cat && tier) &&
            (ReserveRefused(t, q) == Some(ReserveError.CouponExhausted) <==>
              !cat && !tier && SomeFull(t, need, IsCoupon))
  {
    var cs, rs, u := CategoryIds(q.parts), RuleIds(q.parts), q.coupon;
    var need := SeatsOf(cs, rs, u);
    PartOf(cs, rs, u);
    AllowedByKind(t, cs, rs, u, Reserve);
    hide Allowed, SomeFull, SeatsOf, Full, IsCategory, IsPriceRule, IsCoupon;
    KindIff(t, need, multiset(CategoryRows(cs)), IsCategory);
    KindIff(t, need, multiset(RuleRows(rs)), IsPriceRule);
    KindIff(t, need, multiset(CouponRows(u)), IsCoupon);
  }

  lemma PartOf(categories: seq<int>, rules: seq<int>, coupon: Option<int>)
    ensures var need := SeatsOf(categories, rules, coupon);
            forall r: Row ::
              multiset(CategoryRows(categories))[r] == (if IsCategory(r) then need[r] else 0) &&
              multiset(RuleRows(rules))[r] == (if IsPriceRule(r) then need[r] else 0) &&
              multiset(CouponRows(coupon))[r] == (if IsCoupon(r) then need[r] else 0)
  {
    var need := SeatsOf(categories, rules, coupon);
    forall r: Row
      ensures multiset(CategoryRows(categories))[r] == (if IsCategory(r) then need[r] else 0) &&
              multiset(RuleRows(rules))[r] == (if IsPriceRule(r) then need[r] else 0) &&
              multiset(CouponRows(coupon))[r] == (if IsCoupon(r) then need[r] else 0)
    {
      KindOf(categories, rules, coupon, r);
    }
  }

  /** An order is placed exactly for new runners, at an open race, with an account to pay to, while there is room. */
  lemma CreateIff(run: seq<Command>, db: Db, req: OrderRequest, from: Reads, q: Quote)
    requires Runs(EMPTY, run, db) && Legal(db, Create(req, from, q))
    ensures AfterCreate(db, req, q).Ok? <==>
            1 <= |req.runners| <= 10 && TakesOrders(req.ev, req.now) && AllNew(db.orders, req) && req.account.Some? &&
            RoomFor(db, SeatsOf(CategoryIds(q.parts), RuleIds(q.parts), q.coupon))
  {
    RefusedEarlyIff(db, req);
    RoomIff(run, db, q);
    hide RefusedEarly, ReserveRefused, RoomFor, AllNew, TakesOrders, Inv, QuotedFor, Runs, AfterPaid, AfterInsert;
    RunKeeps(run, db);
    if RefusedEarly(db, req).None? && ReserveRefused(db.table, q).None? { CreateKeeps(db, req, from, q); }
  }

  /** A placed order waits for its money until the window closes, unless it is free: then it is paid at once. */
  lemma PlacedAs(db: Db, req: OrderRequest, q: Quote)
    requires AfterCreate(db, req, q).Ok? && req.account.Some?
    ensures var orders := AfterCreate(db, req, q).value.orders;
            |orders| == |db.orders| + 1 &&
            var o := orders[|db.orders|];
            o.event == req.ev.id && o.buyer == req.buyer && o.account == req.account.value && o.parts == q.parts &&
            o.list == q.list && o.discount == q.discount && o.offset == q.offset && o.amount == q.amount &&
            o.coupon == q.coupon && |o.idHashes| == |req.runners| &&
            (forall k | 0 <= k < |req.runners| :: o.idHashes[k] == req.runners[k].idHash) &&
            (if q.amount == 0
             then o.status.Paid? && o.paidAt == Some(req.now) && o.deadline == None
             else o.status.PendingPayment? && o.paidAt == None && o.deadline == Some(req.now + req.uploadWindow))
  {
    hide Allowed, ApplyAll, RefusedEarly, ReserveRefused, SeatsHeld;
  }

  // ---------------------------------------------------------------- paying

  /** A bank reference of the account that is under review or has been accepted. */
  ghost predicate RefTaken(proofs: seq<Proof>, account: int, txnRef: string)
  {
    exists p <- proofs :: p.account == account && p.txnRef == txnRef && !p.status.Rejected?
  }

  lemma RefTakenIff(proofs: seq<Proof>, account: int, txnRef: string)
    ensures RefUsed(proofs, account, txnRef) <==> RefTaken(proofs, account, txnRef)
  {
  }

  ghost predicate Owns(db: Db, buyer: int, id: nat) { id < |db.orders| && db.orders[id].buyer == buyer }

  /** A proof is taken exactly from the buyer, before the deadline, with a new reference and a sensible input. */
  lemma SubmitIff(db: Db, buyer: int, id: nat, txnRef: string, declared: int, now: int)
    requires Inv(db)
    ensures var r := AfterSubmit(db, buyer, id, txnRef, declared, now);
            (r.Ok? <==>
              Owns(db, buyer, id) && db.orders[id].deadline.Some? && now < db.orders[id].deadline.value &&
              4 <= |txnRef| <= 64 && declared > 0 && !RefTaken(db.proofs, db.orders[id].account, txnRef)) &&
            (r == Err(OrderNotFound) <==> !Owns(db, buyer, id)) &&
            (r == Err(StateConflict) <==> Owns(db, buyer, id) && db.orders[id].deadline.None?) &&
            (r == Err(OrderExpired) <==>
              Owns(db, buyer, id) && db.orders[id].deadline.Some? && db.orders[id].deadline.value <= now) &&
            (r == Err(InvalidInput) <==>
              Owns(db, buyer, id) && db.orders[id].deadline.Some? && now < db.orders[id].deadline.value &&
              !(4 <= |txnRef| <= 64 && declared > 0))
  {
    hide Inv, ProofPendingFor, RefUsed, RefTaken;
    if id < |db.orders| {
      OrderFacts(db, id);
      PendingProofIffUnderReview(db, id);
      RefTakenIff(db.proofs, db.orders[id].account, txnRef);
    }
  }

  /** Then the proof is under review, and so is the order, without a deadline. */
  lemma SubmittedAs(db: Db, buyer: int, id: nat, txnRef: string, declared: int, now: int)
    requires AfterSubmit(db, buyer, id, txnRef, declared, now).Ok?
    ensures var db' := AfterSubmit(db, buyer, id, txnRef, declared, now).value;
            id < |db.orders| && |db'.orders| == |db.orders| && |db'.proofs| == |db.proofs| + 1 &&
            db'.orders[id].status.ProofSubmitted? && db'.orders[id].deadline == None &&
            db'.proofs[..|db.proofs|] == db.proofs &&
            db'.proofs[|db.proofs|] == Proof(id, db.orders[id].account, txnRef, declared, Submitted)
  {
  }

  /** Confirming a payment is refused exactly unless the order is under review, or new and free. */
  lemma ConfirmIff(db: Db, id: nat, at: int)
    requires id < |db.orders| && StatusOk(db.orders[id])
    ensures AfterPaid(db, id, at) == Err(StateConflict) <==>
            !(db.orders[id].status.ProofSubmitted? ||
              (db.orders[id].status.PendingPayment? && db.orders[id].amount == 0))
  {
    hide Allowed, ApplyAll, SeatsHeld;
  }

  lemma PaidFacts(o: Order, at: int)
    requires StatusOk(o) && o.hold == Reserved
    ensures var o' := PaidOrder(o, at);
            o'.status.Paid? && o'.paidAt == Some(at) && o'.deadline == None &&
            forall k | 0 <= k < |o'.regs| :: o'.regs[k].Confirmed?
  {
  }

  /** An accepted proof books what came in, and what came in on top as an exception of its own. */
  lemma BookedAs(db: Db, proof: nat, received: int, at: int)
    requires AfterApprove(db, proof, received, at).Ok?
    ensures var db' := AfterApprove(db, proof, received, at).value;
            proof < |db.proofs| && db.proofs[proof].orderId < |db.orders| &&
            var p := db.proofs[proof];
            var due := db.orders[p.orderId].amount;
            received >= due && db'.proofs == db.proofs[proof := p.(status := Approved)] &&
            db'.receipts == db.receipts + [Receipt(p.account, p.txnRef, received, proof, p.orderId, received > due)] &&
            db'.overpaid == db.overpaid + if received == due then []
                                          else [Overpayment(p.orderId, |db.receipts|, received - due)]
  {
    hide Allowed, ApplyAll, SeatsHeld, ReceiptExists, MarkRedemption;
  }

  /** And it pays the order. */
  lemma ApprovedAs(db: Db, proof: nat, received: int, at: int)
    requires Inv(db) && AfterApprove(db, proof, received, at).Ok?
    ensures var db' := AfterApprove(db, proof, received, at).value;
            proof < |db.proofs| && db.proofs[proof].orderId < |db.orders| == |db'.orders| &&
            var o' := db'.orders[db.proofs[proof].orderId];
            db.proofs[proof].status.Submitted? && o'.status.Paid? && o'.paidAt == Some(at) && o'.deadline == None &&
            forall k | 0 <= k < |o'.regs| :: o'.regs[k].Confirmed?
  {
    hide Inv, AfterPaid, ReceiptExists, WithReceipt, PaidOrder;
    var id := db.proofs[proof].orderId;
    OrderRuns.OnlyPays(db, proof, received, at, id);
    OrderFacts(db, id);
    PaidFacts(db.orders[id], at);
  }

  /** A refused proof opens its order again, until the new deadline. */
  lemma RejectedAs(db: Db, proof: nat, deadline: int)
    requires Inv(db)
    ensures var r := AfterReject(db, proof, deadline);
            (r.Ok? <==> proof < |db.proofs| && db.proofs[proof].status.Submitted?) &&
            (r.Ok? ==>
              db.proofs[proof].orderId < |db.orders| == |r.value.orders| && |r.value.proofs| == |db.proofs| &&
              r.value.proofs[proof] == db.proofs[proof].(status := Rejected) &&
              var o' := r.value.orders[db.proofs[proof].orderId];
              o'.status.ProofRejected? && o'.deadline == Some(deadline))
  {
    hide OrdersOk, Books, TalliesOk, AmountsApart, OncePerEvent, MoneyBalances;
    if proof < |db.proofs| && db.proofs[proof].status.Submitted? {
      assert ProofFits(db.proofs[proof], db.orders) && db.proofs[proof] in db.proofs;
      hide Inv;
      OrderFacts(db, db.proofs[proof].orderId);
      PendingProofIffUnderReview(db, db.proofs[proof].orderId);
    }
  }

  /** The guards behind the guards hold on any rows at all, reachable or not. */
  lemma LastResorts(db: Db, buyer: int, id: nat, txnRef: string, declared: int, now: int, proof: nat, received: int,
                    at: int)
    ensures AfterSubmit(db, buyer, id, txnRef, declared, now).Ok? ==>
              id < |db.orders| && db.orders[id].hold.Reserved? &&
              forall p <- db.proofs | p.orderId == id :: !p.status.Submitted?
    ensures AfterApprove(db, proof, received, at).Ok? ==>
              proof < |db.proofs| && db.proofs[proof].orderId < |db.orders| &&
              db.orders[db.proofs[proof].orderId].hold.Reserved? &&
              forall r <- db.receipts ::
                r.account != db.proofs[proof].account || r.txnRef != db.proofs[proof].txnRef
    ensures AfterReject(db, proof, at).Ok? ==>
              proof < |db.proofs| && db.proofs[proof].orderId < |db.orders| &&
              db.orders[db.proofs[proof].orderId].hold.Reserved?
    ensures AfterCancel(db, buyer, id).Ok? ==>
              id < |db.orders| && db.orders[id].status.PendingPayment? && db.orders[id].hold.Reserved?
  {
    hide Allowed, ApplyAll, SeatsHeld, MarkRedemption;
  }

  // ---------------------------------------------------------------- ending

  /** What is given up has no deadline, no seats, and no registration that stands. */
  ghost predicate GivenUp(o: Order)
  {
    o.deadline == None && o.hold == Released && o.paidAt == None &&
    forall k | 0 <= k < |o.regs| :: o.regs[k].Withdrawn?
  }

  lemma ReleasedAs(db: Db, id: nat, kind: ReleaseKind)
    requires id < |db.orders| && AfterRelease(db, id, kind).Ok?
    requires StatusOk(db.orders[id]) && Releasable(db.orders[id], kind)
    ensures var orders := AfterRelease(db, id, kind).value.orders;
            |orders| == |db.orders| && GivenUp(orders[id]) &&
            orders[id].status == if kind.OrderExpiry? then Expired else Cancelled
  {
    hide Allowed, ApplyAll, SeatsHeld, MarkRedemption;
  }

  /** An order can be cancelled exactly by its buyer and while it waits for its first payment. */
  lemma CancelIff(db: Db, buyer: int, id: nat)
    requires Inv(db)
    ensures var r := AfterCancel(db, buyer, id);
            (r.Ok? <==> Owns(db, buyer, id) && db.orders[id].status.PendingPayment?) &&
            (r == Err(OrderNotFound) <==> !Owns(db, buyer, id)) &&
            (r.Ok? ==> id < |r.value.orders| && r.value.orders[id].status.Cancelled? && GivenUp(r.value.orders[id]))
  {
    hide Inv, AfterRelease, GivenUp;
    if id < |db.orders| {
      OrderFacts(db, id);
      ReleaseKeeps(db, id, OrderCancel);
      if Releasable(db.orders[id], OrderCancel) { ReleasedAs(db, id, OrderCancel); }
    }
  }

  /** The job expires exactly the orders whose deadline has come, and they are given up then. */
  lemma ExpireIff(db: Db, id: nat, asOf: int)
    requires Inv(db) && id < |db.orders|
    ensures Due(db.orders[id], asOf) <==> db.orders[id].deadline.Some? && db.orders[id].deadline.value <= asOf
    ensures Due(db.orders[id], asOf) ==>
              var r := AfterRelease(db, id, OrderExpiry);
              r.Ok? && id < |r.value.orders| && r.value.orders[id].status.Expired? && GivenUp(r.value.orders[id])
  {
    hide Inv, AfterRelease, GivenUp;
    OrderFacts(db, id);
    ReleaseKeeps(db, id, OrderExpiry);
    if Releasable(db.orders[id], OrderExpiry) { ReleasedAs(db, id, OrderExpiry); }
  }

  // ---------------------------------------------------------------- the staff

  /** A new row starts empty, with a limit that is not negative; only coupons can be inactive or limitless tiers. */
  lemma AddRowIff(db: Db, r: Row, limit: Option<int>, active: bool)
    ensures AfterAddRow(db, r, limit, active).Ok? <==>
            r !in db.table && (limit.Some? ==> limit.value >= 0) && (limit.None? ==> !r.Category?) &&
            (active || r.Coupon?)
    ensures AfterAddRow(db, r, limit, active).Ok? ==>
              var db' := AfterAddRow(db, r, limit, active).value;
              db' == db.(table := db'.table) && db'.table.Keys == db.table.Keys + {r} &&
              db'.table[r] == Counter(limit, 0, 0, active) && forall k <- db.table :: db'.table[k] == db.table[k]
  {
  }

  /** An edit changes the limit, of a coupon also whether it is active, and nothing else. */
  lemma EditedAs(db: Db, id: int, quota: Option<int>, uses: int, active: bool, repriced: bool)
    ensures AfterRuleEdit(db, id, quota, repriced).Ok? ==>
              var r, db' := PriceRule(id), AfterRuleEdit(db, id, quota, repriced).value;
              r in db.table && db' == db.(table := db.table[r := db.table[r].(limit := quota)])
    ensures AfterCouponEdit(db, id, uses, active).Ok? ==>
              var r, db' := Coupon(id), AfterCouponEdit(db, id, uses, active).value;
              r in db.table && db' == db.(table := db.table[r := db.table[r].(limit := Some(uses), active := active)])
  {
  }
}
