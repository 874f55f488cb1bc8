/** One order's life from an empty database to an overpaid receipt: the runs that the promises speak about exist. */
module OrderLife {
  import opened Common
  import opened Ledger
  import opened Counters
  import opened Quoting
  import opened Orders
  import opened OrderBooks
  import Allocation

  const TIER := Tier(1, All, 1000, None, 0, 0, None, None, 0)
  const CATALOG := Catalog(map[1 := 0], map[1 := TIER], map[1 := [TIER]], map[])
  const REQUEST := OrderRequest(EventRow(1, true, true, true, None, None), 7, [Runner(Participant(1, false, 30), "id")],
                                "", Some(3), 50, 600, 0)
  const QUOTE := Quote([Priced(1, 1, All, 1000, 999)], 1000, None, 0, 1, 1, 999)

  /** One runner at $10.00, one identifying cent off. */
  lemma QuoteIsMade()
    ensures WellFormed(CATALOG) && IsQuote(CATALOG, QuoteInputOf(REQUEST), Some(Account({}, 50)), QUOTE)
  {
    var inp := QuoteInputOf(REQUEST);
    assert PickedTier(CATALOG, inp.now, [], inp.participants[0], QUOTE.parts[0], TIER) by {
      assert TIER in TiersOf(CATALOG, 1) && RuleIds([]) == [];
    }
    assert QUOTE.parts[..0] == [];
    assert PickedAs(CATALOG, inp.now, QUOTE.parts[..0], inp.participants[0], QUOTE.parts[0]);
    assert ListPrices(QUOTE.parts) == [1000] && PaidCents(QUOTE.parts) == [999];
    OneShare();
    assert LeastFree(1000, {}, 50, 1);
  }

  lemma OneShare()
    ensures Allocation.Sum([1000]) == 1000 && Allocation.Allocated([1000], 1, [999])
  {
    assert [1000][..0] == [] && [999][..0] == [];
    assert Allocation.Sum([999]) == 999;
  }

  const TABLE: Table := map[Category(1) := Counter(Some(5), 0, 0, true), PriceRule(1) := Counter(None, 0, 0, true)]
  const OPENED := EMPTY.(table := TABLE)

  lemma FitsOne(r: Row)
    requires r in TABLE
    ensures Allowed(TABLE, multiset([r]), Reserve) && Allowed(TABLE, multiset(CouponRows(None)), Reserve)
  {
  }

  lemma SeatsFit()
    ensures ReserveRefused(TABLE, QUOTE).None?
  {
    var cs, rs := CategoryRows(CategoryIds(QUOTE.parts)), RuleRows(RuleIds(QUOTE.parts));
    assert cs == [Category(1)] && rs == [PriceRule(1)];
    FitsOne(Category(1));
    FitsOne(PriceRule(1));
    hide Allowed;
    AllowedByKind(TABLE, CategoryIds(QUOTE.parts), RuleIds(QUOTE.parts), None, Reserve);
  }

  ghost function Placed(): Db { AfterInsert(OPENED, REQUEST, 3, QUOTE) }

  lemma OrderIsPlaced()
    ensures StepsTo(OPENED, Create(REQUEST, Reads(CATALOG, {}), QUOTE), Placed())
  {
    hide IsQuote, WellFormed, ReserveRefused, AfterInsert;
    QuoteIsMade();
    SeatsFit();
    assert OpenAmounts(OPENED.orders, 3) == {};
  }

  const PROOF := Proof(0, 3, "BANK-1", 999, Submitted)

  ghost function UnderReviewNow(): Db { WithProof(Placed(), 0, PROOF) }

  lemma ProofIsSubmitted()
    ensures StepsTo(Placed(), Submit(7, 0, "BANK-1", 999, 100), UnderReviewNow())
  {
  }

  lemma RunAppend(run: seq<Command>, db: Db, c: Command, db': Db)
    requires Runs(EMPTY, run, db) && StepsTo(db, c, db')
    ensures Runs(EMPTY, run + [c], db')
  {
    hide StepsTo;
    assert (run + [c])[..|run|] == run;
  }

  lemma Opens() returns (run: seq<Command>)
    ensures Runs(EMPTY, run, OPENED)
  {
    var a, b := AddRow(Category(1), Some(5), true), AddRow(PriceRule(1), None, true);
    var first := EMPTY.(table := map[Category(1) := Counter(Some(5), 0, 0, true)]);
    assert Runs(EMPTY, [], EMPTY) && StepsTo(EMPTY, a, first) && StepsTo(first, b, OPENED);
    RunAppend([], EMPTY, a, first);
    RunAppend([] + [a], first, b, OPENED);
    run := [] + [a] + [b];
  }

  lemma Approved()
    requires Inv(UnderReviewNow())
    ensures var r := AfterApprove(UnderReviewNow(), 0, 1100, 200);
            r.Ok? && StepsTo(UnderReviewNow(), Approve(0, 1100, 200), r.value) &&
            |r.value.orders| == 1 && r.value.orders[0].status.Paid? && r.value.orders[0].offset == 1 &&
            r.value.receipts == [Receipt(3, "BANK-1", 1100, 0, 0, true)] &&
            r.value.overpaid == [Overpayment(0, 0, 101)]
  {
    hide Inv, Allowed, ApplyAll, SeatsHeld;
    assert UnderReview(UnderReviewNow(), 0) == Ok(0) && UnderReviewNow().orders[0].amount == 999;
    ApproveKeeps(UnderReviewNow(), 0, 1100, 200);
  }

  /** Rows added, order placed, proof submitted and approved with more money than due: the order ends paid. */
  lemma PaidOrdersAreReached() returns (run: seq<Command>, db: Db)
    ensures Runs(EMPTY, run, db) && |db.orders| == 1 && db.orders[0].status.Paid? && db.orders[0].offset == 1
    ensures db.receipts == [Receipt(3, "BANK-1", 1100, 0, 0, true)] && db.overpaid == [Overpayment(0, 0, 101)]
  {
    hide Inv, Placed, UnderReviewNow, Runs, StepsTo;
    run := Opens();
    OrderIsPlaced();
    RunAppend(run, OPENED, Create(REQUEST, Reads(CATALOG, {}), QUOTE), Placed());
    run := run + [Create(REQUEST, Reads(CATALOG, {}), QUOTE)];
    ProofIsSubmitted();
    RunAppend(run, Placed(), Submit(7, 0, "BANK-1", 999, 100), UnderReviewNow());
    run := run + [Submit(7, 0, "BANK-1", 999, 100)];
    RunKeeps(run, UnderReviewNow());
    Approved();
    db := AfterApprove(UnderReviewNow(), 0, 1100, 200).value;
    RunAppend(run, UnderReviewNow(), Approve(0, 1100, 200), db);
    run := run + [Approve(0, 1100, 200)];
  }
}
