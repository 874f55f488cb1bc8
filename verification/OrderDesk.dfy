/**
  Ordering as its callers meet it: the key table and the order rows in one transaction. Every run of the two together
  is a run of each, so that a key, its stored answer and the order row that it paid for stay together.
*/
module OrderDesk {
  import opened Common
  import opened Quoting
  import opened Orders
  import OrderBooks
  import OrderRuns
  import opened OrderService
  import I = Idempotency

  // ---------------------------------------------------------------- the machine

  /** The key table with its history, and the order rows: order i was placed by commit i. */
  datatype Desk = Desk(table: I.World, db: Db)

  datatype Event =
    | Place(id: I.KeyId, hash: string, req: OrderRequest, from: OrderBooks.Reads, quote: Quote, detail: I.Detail)
    | Other(c: OrderBooks.Command)
    | Purge(batch: set<I.KeyId>, now: int)

  /** An answer says what an order costs, whom it is for and where to pay. */
  ghost predicate Bills(a: I.ApiDetail, o: Order)
  {
    a.amounts.list == o.list && a.amounts.discount == o.discount && a.amounts.offset == o.offset &&
    a.amounts.amount == o.amount && a.account.id == o.account && |a.participants| == |o.parts| &&
    forall i | 0 <= i < |o.parts| ::
      var p, q := a.participants[i], o.parts[i];
      p.category == q.category && p.rule == q.ruleId && p.list == q.list && p.paid == q.paid
  }

  function CommandOf(e: Event): OrderBooks.Command
    requires e.Place?
  {
    OrderBooks.Create(e.req, e.from, e.quote)
  }

  /** The answer is made from the row that was written. */
  ghost predicate Answers(db: Db, c: OrderBooks.Command, detail: I.Detail)
    requires c.Create? && OrderBooks.Legal(db, c)
  {
    OrderBooks.After(db, c).Ok? ==>
      |OrderBooks.After(db, c).value.orders| > |db.orders| &&
      Bills(I.ToApi(detail), OrderBooks.After(db, c).value.orders[|db.orders|])
  }

  ghost predicate Replays(w: Desk, e: Event)
    requires e.Place?
  {
    I.Lives(w.table.keys, e.id, e.req.now)
  }

  /** Keys are a buyer's own, and only calls under a key place orders. Clock readings can come in any order. */
  ghost predicate Legal(w: Desk, e: Event)
  {
    match e
    case Place(id, _, req, _, _, detail) =>
      id.subject == req.buyer &&
      (!Replays(w, e) ==> OrderBooks.Legal(w.db, CommandOf(e)) && Answers(w.db, CommandOf(e), detail))
    case Other(c) => !c.Create? && OrderBooks.Legal(w.db, c)
    case Purge(_, _) => true
  }

  ghost function Made(r: Result<Db, OrderError>, detail: I.Detail): Result<I.Detail, OrderError>
  {
    if r.Ok? then Ok(detail) else Err(r.error)
  }

  /** What the key table sees of an event: nothing, or one of its own. */
  ghost function KeyEvents(w: Desk, e: Event): seq<I.Event>
    requires Legal(w, e)
  {
    match e
    case Place(id, hash, req, _, _, detail) =>
      [I.Call(id, hash, req.now,
              if Replays(w, e) then Err(InvalidInput) else Made(OrderBooks.After(w.db, CommandOf(e)), detail))]
    case Other(_) => []
    case Purge(batch, now) => [I.Purge(batch, now)]
  }

  /** The transactions on the order rows inside an event: one, or none. */
  ghost function CommandsOf(w: Desk, e: Event): seq<OrderBooks.Command>
  {
    if e.Other? then [e.c] else if e.Place? && !Replays(w, e) then [CommandOf(e)] else []
  }

  ghost function Step(w: Desk, e: Event): Desk
    requires Legal(w, e)
  {
    match e
    case Place(_, _, _, _, _, _) =>
      Desk(I.Step(w.table, KeyEvents(w, e)[0]),
           if Replays(w, e) then w.db else Committed(OrderBooks.After(w.db, CommandOf(e)), w.db))
    case Other(c) => w.(db := Committed(OrderBooks.After(w.db, c), w.db))
    case Purge(batch, now) => w.(table := I.Step(w.table, I.Purge(batch, now)))
  }

  ghost predicate StepsTo(w: Desk, e: Event, w': Desk) { Legal(w, e) && w' == Step(w, e) }

  ghost predicate Runs(run: seq<Event>, w: Desk)
    decreases |run|
  {
    if run == [] then w == Desk(I.World(map[], [], []), OrderBooks.EMPTY)
    else
      var front, last := run[..|run| - 1], run[|run| - 1];
      exists m :: Runs(front, m) && StepsTo(m, last, w)
  }

  // ---------------------------------------------------------------- a run of both machines

  lemma StepIsKeyStep(w: Desk, e: Event)
    requires Legal(w, e)
    ensures var ks, table := KeyEvents(w, e), Step(w, e).table;
            if ks == [] then table == w.table else |ks| == 1 && table == I.Step(w.table, ks[0])
  {
    hide OrderBooks.Legal, OrderBooks.After, Answers, I.Step;
  }

  /** The run of the key table inside a run of the desk. */
  lemma {:induction false} RunIsKeyRun(run: seq<Event>, w: Desk) returns (ks: seq<I.Event>)
    requires Runs(run, w)
    ensures w.table == I.After(ks)
    decreases |run|
  {
    hide Legal, Step, I.Step;
    ks := [];
    if run != [] {
      var front, last := run[..|run| - 1], run[|run| - 1];
      var m :| Runs(front, m) && StepsTo(m, last, w);
      ks := RunIsKeyRun(front, m);
      StepIsKeyStep(m, last);
      if KeyEvents(m, last) != [] {
        var before := ks;
        ks := before + KeyEvents(m, last);
        assert ks[..|ks| - 1] == before;
      }
    }
  }

  lemma StepIsOrderStep(w: Desk, e: Event)
    requires Legal(w, e)
    ensures var cs, db' := CommandsOf(w, e), Step(w, e).db;
            if cs == [] then db' == w.db else |cs| == 1 && OrderBooks.StepsTo(w.db, cs[0], db')
  {
    hide OrderBooks.Legal, OrderBooks.After, Answers;
  }

  /** The run of the order machine inside a run of the desk. */
  lemma {:induction false} RunIsOrderRun(run: seq<Event>, w: Desk) returns (cs: seq<OrderBooks.Command>)
    requires Runs(run, w)
    ensures OrderBooks.Runs(OrderBooks.EMPTY, cs, w.db)
    decreases |run|
  {
    hide Legal, Step, OrderBooks.StepsTo;
    cs := [];
    if run != [] {
      var front, last := run[..|run| - 1], run[|run| - 1];
      var m :| Runs(front, m) && StepsTo(m, last, w);
      cs := RunIsOrderRun(front, m);
      StepIsOrderStep(m, last);
      if CommandsOf(m, last) != [] {
        var before := cs;
        cs := before + CommandsOf(m, last);
        assert cs[..|cs| - 1] == before;
      }
    }
  }

  // ---------------------------------------------------------------- what ties them together

  ghost predicate RowFits(c: I.Commit, o: Order) { c.id.subject == o.buyer && Bills(I.ToApi(c.detail), o) }

  ghost predicate Matches(commits: seq<I.Commit>, orders: seq<Order>)
  {
    |commits| == |orders| && forall i | 0 <= i < |orders| :: RowFits(commits[i], orders[i])
  }

  lemma TermsStay(c: I.Commit, o: Order, o': Order)
    requires RowFits(c, o) && OrderBooks.SameTerms(o, o')
    ensures RowFits(c, o')
  {
  }

  lemma OrdersStillMatch(commits: seq<I.Commit>, db: Db, c: OrderBooks.Command, db': Db)
    requires Matches(commits, db.orders) && OrderBooks.StepsTo(db, c, db')
    ensures |db'.orders| >= |db.orders| && forall i | 0 <= i < |commits| :: RowFits(commits[i], db'.orders[i])
  {
    hide RowFits, OrderBooks.StepsTo, OrderBooks.SameTerms;
    if db.orders == [] { OrdersGrow(db, c, db'); }
    forall i: nat | i < |db.orders|
      ensures |db'.orders| >= |db.orders| && RowFits(commits[i], db'.orders[i])
    {
      OrderRuns.OneArrow(db, c, db', i);
      TermsStay(commits[i], db.orders[i], db'.orders[i]);
    }
    if |db.orders| > 0 { OrderRuns.OneArrow(db, c, db', 0); }
  }

  lemma OrdersGrow(db: Db, c: OrderBooks.Command, db': Db)
    requires db.orders == []
    ensures |db'.orders| >= |db.orders|
  {
  }

  lemma PlacedFits(w: Desk, e: Event)
    requires Legal(w, e) && e.Place? && !Replays(w, e) && OrderBooks.After(w.db, CommandOf(e)).Ok?
    ensures var orders := OrderBooks.After(w.db, CommandOf(e)).value.orders;
            |orders| == |w.db.orders| + 1 && RowFits(I.Commit(e.id, e.hash, e.req.now, e.detail), orders[|w.db.orders|])
  {
    hide Ledger.Allowed, Ledger.ApplyAll, SeatsHeld, RefusedEarly, ReserveRefused, OrderBooks.Legal, Bills;
  }

  /** The commits grow by the placed order, or not at all. */
  lemma CommitsGrow(w: Desk, e: Event)
    requires Legal(w, e)
    ensures Step(w, e).table.commits ==
            if e.Place? && !Replays(w, e) && OrderBooks.After(w.db, CommandOf(e)).Ok?
            then w.table.commits + [I.Commit(e.id, e.hash, e.req.now, e.detail)] else w.table.commits
  {
    hide OrderBooks.Legal, OrderBooks.After, Answers, I.AfterCall;
  }

  lemma StepMatches(w: Desk, e: Event)
    requires Matches(w.table.commits, w.db.orders) && Legal(w, e)
    ensures var w' := Step(w, e); Matches(w'.table.commits, w'.db.orders)
  {
    hide RowFits, OrderBooks.StepsTo, Answers, OrderBooks.Legal, OrderBooks.After, I.Step;
    StepIsOrderStep(w, e);
    CommitsGrow(w, e);
    var cs, w' := CommandsOf(w, e), Step(w, e);
    if cs != [] {
      OrdersStillMatch(w.table.commits, w.db, cs[0], w'.db);
      if e.Place? && OrderBooks.After(w.db, cs[0]).Ok? {
        PlacedFits(w, e);
      } else {
        OrderRuns.SameRows(w.db, cs[0], w'.db);
      }
    }
  }

  lemma {:induction false} RunMatches(run: seq<Event>, w: Desk)
    requires Runs(run, w)
    ensures Matches(w.table.commits, w.db.orders)
    decreases |run|
  {
    hide Legal, Step, RowFits;
    if run != [] {
      hide Matches;
      var front, last := run[..|run| - 1], run[|run| - 1];
      var m :| Runs(front, m) && StepsTo(m, last, w);
      RunMatches(front, m);
      StepMatches(m, last);
    }
  }

  // ---------------------------------------------------------------- what callers are promised

  /**
    One order row per key and lifetime: two rows placed under one key are a lifetime apart, as long as no deletion of
    expired keys was ahead of the later calls.
  */
  lemma OneRowPerKey(run: seq<Event>, w: Desk, i: nat, j: nat)
    requires Runs(run, w) && i < j < |w.db.orders|
    ensures var cs := w.table.commits;
            |cs| == |w.db.orders| && cs[j].id.subject == w.db.orders[j].buyer &&
            (cs[i].id == cs[j].id &&
             (forall k: nat | i < k <= j && cs[k].id == cs[i].id :: I.NoneAhead(w.table, k)) ==>
               cs[j].at - cs[i].at >= 86_400_000_000_000)
  {
    hide Runs, I.NoneAhead, I.After;
    RunMatches(run, w);
    assert RowFits(w.table.commits[j], w.db.orders[j]);
    var cs := w.table.commits;
    if cs[i].id == cs[j].id && forall k: nat | i < k <= j && cs[k].id == cs[i].id :: I.NoneAhead(w.table, k) {
      var ks := RunIsKeyRun(run, w);
      I.OneOrderPerKey(ks, i, j);
    }
  }

  /**
    A call within the life of the order's key. Unless the key has been deleted it writes nothing: the same request is
    shown the bill of the order that the key placed, as the row has it to this day, whatever has happened to the order
    since, and any other request is refused. If the key has been deleted, by a clock ahead of the call's, the call
    places another order whenever it can.
  */
  lemma RepeatShowsTheOrderIff(run: seq<Event>, w: Desk, i: nat, e: Event)
    requires Runs(run, w) && Legal(w, e) && e.Place?
    requires I.Last(w.table.commits, i) && e.id == w.table.commits[i].id && I.Recent(w.table.commits[i], e.req.now)
    ensures i < |w.db.orders| && (Replays(w, e) <==> !I.Deleted(w.table, i))
    ensures Replays(w, e) ==>
              Step(w, e) == w &&
              var answer := I.Replayed(w.table.keys[e.id], e.hash);
              if e.hash == w.table.commits[i].hash then answer.Ok? && Bills(I.ToApi(answer.value), w.db.orders[i])
              else answer == Err(I.KeyReused)
    ensures !Replays(w, e) ==>
              (exists d <- w.table.deletions :: d.at > e.req.now) &&
              (OrderBooks.After(w.db, CommandOf(e)).Ok? ==> |Step(w, e).db.orders| == |w.db.orders| + 1)
  {
    hide Runs, I.ToApi, I.FromApi, Bills, OrderBooks.Legal, OrderBooks.After, Answers, I.KeysOk, I.PairsOk, I.After;
    RunMatches(run, w);
    assert RowFits(w.table.commits[i], w.db.orders[i]);
    var ks := RunIsKeyRun(run, w);
    I.RunKeeps(ks);
    I.LivesIff(w.table, i, e.req.now);
    I.ReplayIsLossless(I.ToApi(w.table.commits[i].detail));
    if !Replays(w, e) && OrderBooks.After(w.db, CommandOf(e)).Ok? { PlacedFits(w, e); }
  }

  /** A taken key has its order row, and the row is the key owner's. */
  lemma KeysHaveOrders(run: seq<Event>, w: Desk, id: I.KeyId) returns (i: nat)
    requires Runs(run, w) && id in w.table.keys
    ensures i < |w.db.orders| == |w.table.commits| && w.table.commits[i].id == id && w.db.orders[i].buyer == id.subject
    ensures w.table.keys[id].response.Some? && Bills(w.table.keys[id].response.value, w.db.orders[i])
  {
    hide Runs, Bills, I.ToApi, I.After;
    RunMatches(run, w);
    var ks := RunIsKeyRun(run, w);
    I.RunKeeps(ks);
    assert I.HasCommit(w.table.commits, id);
    i :| I.Last(w.table.commits, i) && w.table.commits[i].id == id;
    assert I.KeyTells(w.table, i) && RowFits(w.table.commits[i], w.db.orders[i]);
  }

  // ---------------------------------------------------------------- the transaction

  class OrderDesk {
    const table: I.KeyTable
    const svc: OrderService
    ghost var commits: seq<I.Commit>
    ghost var deletions: seq<I.Deletion>

    constructor (table: I.KeyTable, svc: OrderService)
      ensures this.table == table && this.svc == svc && commits == [] && deletions == []
    {
      this.table, this.svc, commits, deletions := table, svc, [], [];
    }

    ghost function Value(): Desk
      reads this, table, svc, svc.prices
    {
      Desk(I.World(table.keys, commits, deletions), svc.Rows())
    }

    /**
      Claims the key, places the order, stores the answer; `show` reads an order back. A living key is answered from
      what is stored. An error of any step leaves key table and rows as they were.
    */
    method CreateOrder(id: I.KeyId, hash: string, req: OrderRequest, cat: Catalog, show: (Db, nat) -> I.Detail)
      returns (res: Result<I.Detail, I.Error>, q: Option<Quote>)
      requires WellFormed(cat) && id.subject == req.buyer
      requires forall db: Db, i: nat | i < |db.orders| :: Bills(I.ToApi(show(db, i)), db.orders[i])
      modifies this, table, svc, svc.prices
      ensures var w, w' := old(Value()), Value();
              if I.Lives(w.table.keys, id, req.now) then w' == w && res == I.Replayed(w.table.keys[id], hash)
              else if res.Err? then w' == w && res.error.Failed? && Refused(w.db, req, cat, q, res.error.why)
              else
                q.Some? &&
                var e := Place(id, hash, req, ReadNow(w.db, req, cat), q.value, res.value);
                Legal(w, e) && w' == Step(w, e)
    {
      hide Bills, I.ToApi, I.FromApi, OrderBooks.QuotedFor, IsQuote, WellFormed, RefusedEarly, AfterCreate, Unquotable;
      hide Legal, Step, QuoteInputOf;
      ghost var w := Value();
      var before := table.keys;
      var claimed := table.Claim(id, hash, req.now);
      if !claimed {
        res := table.Replay(id, hash);
        return res, None;
      }
      var err;
      err, q := svc.CreateOrder(req, cat);
      if err.Some? {
        table.Rollback(before);
        return Err(I.Failed(err.value)), q;
      }
      OrderRuns.OnlyAppends(w.db, req, q.value);
      var detail := show(svc.Rows(), |svc.orders| - 1);
      table.SaveResponse(id, I.ToApi(detail));
      commits := commits + [I.Commit(id, hash, req.now, detail)];
      assert table.keys == before[id := I.KeyRow(hash, Some(I.ToApi(detail)), req.now + I.TTL)];
      PlacedIsStep(w, id, hash, req, cat, q.value, detail);
      res := Ok(detail);
    }
  }

  /** What a quote made in the transaction itself is made from. */
  function ReadNow(db: Db, req: OrderRequest, cat: Catalog): OrderBooks.Reads
  {
    OrderBooks.Reads(cat, if req.account.Some? then OpenAmounts(db.orders, req.account.value) else {})
  }

  /** Why placing an order can fail: a check before pricing, no price, or no room for the priced order. */
  ghost predicate Refused(db: Db, req: OrderRequest, cat: Catalog, q: Option<Quote>, why: OrderError)
  {
    if RefusedEarly(db, req).Some? then RefusedEarly(db, req) == Some(why)
    else if q.None? then why.QuoteFailed? && Unquotable(cat, QuoteInputOf(req), why.quote)
    else AfterCreate(db, req, q.value) == Err(why)
  }

  lemma PlacedIsStep(w: Desk, id: I.KeyId, hash: string, req: OrderRequest, cat: Catalog, q: Quote, detail: I.Detail)
    requires !I.Lives(w.table.keys, id, req.now) && id.subject == req.buyer && WellFormed(cat)
    requires RefusedEarly(w.db, req).None?
    requires IsQuote(cat, QuoteInputOf(req), AccountOf(w.db, req), q)
    requires var r := AfterCreate(w.db, req, q);
      r.Ok? && |r.value.orders| > |w.db.orders| && Bills(I.ToApi(detail), r.value.orders[|w.db.orders|])
    ensures var e := Place(id, hash, req, ReadNow(w.db, req, cat), q, detail);
            Legal(w, e) &&
            Step(w, e) ==
            Desk(I.World(w.table.keys[id := I.KeyRow(hash, Some(I.ToApi(detail)), req.now + I.TTL)],
                         w.table.commits + [I.Commit(id, hash, req.now, detail)], w.table.deletions),
                 AfterCreate(w.db, req, q).value)
  {
    hide Bills, I.ToApi, IsQuote, WellFormed, AfterCreate, QuoteInputOf;
  }
}
