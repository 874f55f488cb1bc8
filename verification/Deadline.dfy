/** The deadline job: batches of due orders, skipping those that other transactions hold, until nothing is left. */
module Deadline {
  import opened Common
  import opened Ledger
  import opened Counters
  import opened Quoting
  import opened Orders
  import opened OrderBooks
  import OrderOutcomes
  import OrderRuns
  import opened OrderService
  import opened Sorting

  const BATCH_SIZE := 100

  // ---------------------------------------------------------------- the query

  predicate DueAt(orders: seq<Order>, id: nat, asOf: int) { id < |orders| && Due(orders[id], asOf) }

  function DeadlineOf(orders: seq<Order>, id: nat): int
  {
    if id < |orders| && orders[id].deadline.Some? then orders[id].deadline.value else 0
  }

  /** By deadline, then by id. */
  predicate Earlier(orders: seq<Order>, a: nat, b: nat)
  {
    DeadlineOf(orders, a) < DeadlineOf(orders, b) || (DeadlineOf(orders, a) == DeadlineOf(orders, b) && a < b)
  }

  /** The due orders below n that nobody holds. */
  function DueIds(orders: seq<Order>, asOf: int, locked: set<nat>, n: nat): seq<nat>
  {
    if n == 0 then []
    else
      var rest := DueIds(orders, asOf, locked, n - 1);
      if DueAt(orders, n - 1, asOf) && n - 1 !in locked then rest + [n - 1] else rest
  }

  function DueSorted(orders: seq<Order>, asOf: int, locked: set<nat>): seq<nat>
  {
    SortBy(DueIds(orders, asOf, locked, |orders|), (a, b) => Earlier(orders, a, b))
  }

  /** FOR UPDATE SKIP LOCKED with a limit. */
  function DueBatch(orders: seq<Order>, asOf: int, locked: set<nat>): seq<nat>
  {
    var all := DueSorted(orders, asOf, locked);
    if |all| > BATCH_SIZE then all[..BATCH_SIZE] else all
  }

  ghost predicate ByDeadline(orders: seq<Order>, ids: seq<nat>)
  {
    forall i, j | 0 <= i < j < |ids| :: Earlier(orders, ids[i], ids[j])
  }

  lemma {:induction false} DueIdsAre(orders: seq<Order>, asOf: int, locked: set<nat>, n: nat)
    ensures var ids := DueIds(orders, asOf, locked, n);
            (forall i, j | 0 <= i < j < |ids| :: ids[i] < ids[j]) &&
            forall x: nat :: x in ids <==> x < n && DueAt(orders, x, asOf) && x !in locked
  {
    hide DueAt;
    if n > 0 {
      DueIdsAre(orders, asOf, locked, n - 1);
      var rest := DueIds(orders, asOf, locked, n - 1);
      assert forall i | 0 <= i < |rest| :: rest[i] in rest;
    }
  }

  lemma SortedIsDue(orders: seq<Order>, asOf: int, locked: set<nat>)
    ensures ByDeadline(orders, DueSorted(orders, asOf, locked))
    ensures forall x: nat ::
              x in DueSorted(orders, asOf, locked) <==> x < |orders| && DueAt(orders, x, asOf) && x !in locked
  {
    hide DueAt;
    var ids, less := DueIds(orders, asOf, locked, |orders|), (a: nat, b: nat) => Earlier(orders, a, b);
    DueIdsAre(orders, asOf, locked, |orders|);
    SortBySorts(ids, less, less);
    var sorted := SortBy(ids, less);
    forall i, j | 0 <= i < j < |sorted| ensures Earlier(orders, sorted[i], sorted[j]) {
      assert less(sorted[i], sorted[j]);
    }
    forall x: nat ensures x in sorted <==> x in ids { SortedHas(ids, less, x); }
  }

  /** The batch holds due orders nobody holds, each once, earliest first; a short batch holds them all. */
  lemma BatchIsDue(orders: seq<Order>, asOf: int, locked: set<nat>)
    ensures var ids := DueBatch(orders, asOf, locked);
            |ids| <= 100 && ByDeadline(orders, ids) &&
            (forall x: nat | x in ids :: DueAt(orders, x, asOf) && x !in locked) &&
            (|ids| < 100 ==> forall x: nat | DueAt(orders, x, asOf) && x !in locked :: x in ids) &&
            (forall x: nat, y: nat | x in ids && DueAt(orders, y, asOf) && y !in locked && y !in ids ::
              Earlier(orders, x, y))
  {
    SortedIsDue(orders, asOf, locked);
    var all, ids := DueSorted(orders, asOf, locked), DueBatch(orders, asOf, locked);
    assert forall j | 0 <= j < |ids| :: all[j] == ids[j];
    forall x: nat, y: nat | x in ids && DueAt(orders, y, asOf) && y !in locked && y !in ids
      ensures Earlier(orders, x, y)
    {
      var i :| 0 <= i < |ids| && ids[i] == x;
      assert y in all;
      var j :| 0 <= j < |all| && all[j] == y;
    }
  }

  /** The orders of a batch come by deadline, and none that is left out was due before one of them. */
  lemma EarliestFirst(orders: seq<Order>, asOf: int, locked: set<nat>, i: nat, y: nat)
    requires i < |DueBatch(orders, asOf, locked)| && y < |orders| && y !in locked
    requires orders[y].status.PendingPayment? || orders[y].status.ProofRejected?
    requires orders[y].deadline.Some? && orders[y].deadline.value <= asOf
    requires y !in DueBatch(orders, asOf, locked)[..i]
    ensures var x := DueBatch(orders, asOf, locked)[i];
            x < |orders| && orders[x].deadline.Some? && orders[x].deadline.value <= orders[y].deadline.value
  {
    hide DueBatch;
    BatchIsDue(orders, asOf, locked);
    var ids := DueBatch(orders, asOf, locked);
    assert DueAt(orders, ids[i], asOf) && DueAt(orders, y, asOf);
    if y in ids {
      assert forall m | 0 <= m < i :: ids[..i][m] == ids[m];
      var k :| 0 <= k < |ids| && ids[k] == y;
    } else {
      assert Earlier(orders, ids[i], y);
    }
  }

  lemma BatchInRange(orders: seq<Order>, asOf: int, locked: set<nat>)
    ensures var ids := DueBatch(orders, asOf, locked);
            forall i | 0 <= i < |ids| :: ids[i] < |orders| && Due(orders[ids[i]], asOf)
  {
    BatchIsDue(orders, asOf, locked);
    var ids := DueBatch(orders, asOf, locked);
    assert forall i | 0 <= i < |ids| :: DueAt(orders, ids[i], asOf);
  }

  // ---------------------------------------------------------------- one batch

  /** A batch is nothing but its orders released one after the other. */
  ghost function ReleaseAll(db: Db, ids: seq<nat>): Result<Db, OrderError>
  {
    if ids == [] then Ok(db)
    else
      var r, id := ReleaseAll(db, ids[..|ids| - 1]), ids[|ids| - 1];
      if r.Err? || id >= |r.value.orders| then r else AfterRelease(r.value, id, OrderExpiry)
  }

  function IsReserved(o: Order): int { if o.hold == Reserved then 1 else 0 }

  ghost function ReservedCount(orders: seq<Order>): int { SumBy(orders, IsReserved) }

  lemma ReleaseCounts(db: Db, id: nat, kind: ReleaseKind)
    requires id < |db.orders| && AfterRelease(db, id, kind).Ok?
    ensures var orders := AfterRelease(db, id, kind).value.orders;
            |orders| == |db.orders| &&
            ReservedCount(orders) == ReservedCount(db.orders) - if Releasable(db.orders[id], kind) then 1 else 0
  {
    hide Allowed, ApplyAll, SeatsHeld;
    SumByUpdate(db.orders, id, ReleasedOrder(db.orders[id], kind), IsReserved);
  }

  function IsDue(asOf: int): Order -> int { (o: Order) => if Due(o, asOf) then 1 else 0 }

  ghost function DueCount(orders: seq<Order>, asOf: int): int { SumBy(orders, IsDue(asOf)) }

  /** Orders that differ from before have been released. */
  ghost predicate OnlyReleased(before: seq<Order>, orders: seq<Order>)
  {
    |orders| == |before| && forall i | 0 <= i < |orders| :: orders[i] == before[i] || orders[i].hold == Released
  }

  lemma ReleaseDue(db: Db, id: nat, before: seq<Order>, asOf: int)
    requires id < |db.orders| && AfterRelease(db, id, OrderExpiry).Ok?
    requires OnlyReleased(before, db.orders) && Due(before[id], asOf)
    ensures var orders := AfterRelease(db, id, OrderExpiry).value.orders;
            OnlyReleased(before, orders) &&
            DueCount(orders, asOf) ==
            DueCount(db.orders, asOf) - if Releasable(db.orders[id], OrderExpiry) then 1 else 0
  {
    hide Allowed, ApplyAll, SeatsHeld;
    SumByUpdate(db.orders, id, ReleasedOrder(db.orders[id], OrderExpiry), IsDue(asOf));
  }

  /** Releasing again changes nothing. */
  lemma ReleaseTwice(db: Db, id: nat, kind: ReleaseKind)
    requires id < |db.orders| && AfterRelease(db, id, kind).Ok?
    ensures AfterRelease(AfterRelease(db, id, kind).value, id, kind) == AfterRelease(db, id, kind)
  {
  }

  lemma AllSame(orders: seq<Order>)
    ensures OnlyReleased(orders, orders)
  {
  }

  method ExpireDueBatch(svc: OrderService, asOf: int, locked: set<nat>)
    returns (selected: nat, released: nat, err: Option<OrderError>)
    modifies svc, svc.prices
    ensures var ids := DueBatch(old(svc.orders), asOf, locked);
            Commits(ReleaseAll(old(svc.Rows()), ids), old(svc.Rows()), err, svc.Rows())
    ensures err.None? ==> selected == |DueBatch(old(svc.orders), asOf, locked)|
    ensures err.None? ==> released == ReservedCount(old(svc.orders)) - ReservedCount(svc.orders)
    ensures err.None? ==> released == DueCount(old(svc.orders), asOf) - DueCount(svc.orders, asOf)
  {
    hide AfterRelease, DueBatch, ReservedCount, DueCount, Due, OnlyReleased, Releasable;
    var before := svc.Rows();
    var ids := DueBatch(svc.orders, asOf, locked);
    BatchInRange(svc.orders, asOf, locked);
    AllSame(svc.orders);
    selected, released, err := |ids|, 0, None;
    var k := 0;
    while k < |ids|
      invariant 0 <= k <= |ids| && |svc.orders| == |before.orders|
      invariant err.None? && Ok(svc.Rows()) == ReleaseAll(before, ids[..k])
      invariant released == ReservedCount(before.orders) - ReservedCount(svc.orders)
      invariant released == DueCount(before.orders, asOf) - DueCount(svc.orders, asOf)
      invariant OnlyReleased(before.orders, svc.orders)
    {
      assert ids[..k + 1][..k] == ids[..k];
      ghost var mid := svc.Rows();
      var ok;
      ok, err := svc.ReleaseOrder(ids[k], OrderExpiry);
      if err.Some? {
        svc.SetRows(before);
        FailsAsWhole(before, ids, k + 1);
        return;
      }
      ReleaseCounts(mid, ids[k], OrderExpiry);
      ReleaseDue(mid, ids[k], before.orders, asOf);
      if ok { released := released + 1; }
      k := k + 1;
    }
    assert ids[..k] == ids;
  }

  lemma {:induction false} FailsAsWhole(db: Db, ids: seq<nat>, k: nat)
    requires k <= |ids| && ReleaseAll(db, ids[..k]).Err?
    ensures ReleaseAll(db, ids) == ReleaseAll(db, ids[..k])
    decreases |ids| - k
  {
    if k < |ids| {
      assert ids[..k + 1][..k] == ids[..k];
      FailsAsWhole(db, ids, k + 1);
    } else {
      assert ids[..k] == ids;
    }
  }

  // ---------------------------------------------------------------- what a batch comes to

  /** Orders after a batch: those in it are expired, the others are as they were. */
  ghost predicate Expires(orders: seq<Order>, ids: seq<nat>, orders': seq<Order>)
  {
    |orders'| == |orders| &&
    forall id: nat | id < |orders| ::
      orders'[id] == if id in ids then ReleasedOrder(orders[id], OrderExpiry) else orders[id]
  }

  /** In a state that transactions can reach, a batch cannot fail and expires every order in it. */
  lemma {:induction false} BatchExpires(db: Db, ids: seq<nat>, asOf: int)
    requires Inv(db) && ByDeadline(db.orders, ids) && forall i | 0 <= i < |ids| :: DueAt(db.orders, ids[i], asOf)
    ensures var r := ReleaseAll(db, ids);
            r.Ok? && Inv(r.value) && Expires(db.orders, ids, r.value.orders) &&
            ReservedCount(db.orders) - ReservedCount(r.value.orders) == |ids|
  {
    hide Inv, AfterRelease, ReservedCount, ByDeadline;
    if ids != [] {
      var front, id := ids[..|ids| - 1], ids[|ids| - 1];
      FrontIsBatch(db.orders, ids, asOf);
      BatchExpires(db, front, asOf);
      var mid := ReleaseAll(db, front).value;
      ReleaseKeeps(mid, id, OrderExpiry);
      ReleaseCounts(mid, id, OrderExpiry);
      OrderFacts(db, id);
      ReleaseOne(mid, id);
      assert ids == front + [id];
    }
  }

  lemma FrontIsBatch(orders: seq<Order>, ids: seq<nat>, asOf: int)
    requires ids != [] && ByDeadline(orders, ids) && forall i | 0 <= i < |ids| :: DueAt(orders, ids[i], asOf)
    ensures var front := ids[..|ids| - 1];
            ByDeadline(orders, front) && (forall i | 0 <= i < |front| :: DueAt(orders, front[i], asOf)) &&
            ids[|ids| - 1] !in front && DueAt(orders, ids[|ids| - 1], asOf)
  {
    NotTwice(orders, ids);
  }

  lemma NotTwice(orders: seq<Order>, ids: seq<nat>)
    requires ids != [] && ByDeadline(orders, ids)
    ensures ids[|ids| - 1] !in ids[..|ids| - 1]
  {
  }

  lemma ReleaseOne(db: Db, id: nat)
    requires id < |db.orders| && AfterRelease(db, id, OrderExpiry).Ok? && Releasable(db.orders[id], OrderExpiry)
    ensures AfterRelease(db, id, OrderExpiry).value.orders == db.orders[id := ReleasedOrder(db.orders[id], OrderExpiry)]
  {
  }

  function Expirations(ids: seq<nat>, asOf: int): seq<Command>
  {
    seq(|ids|, i requires 0 <= i < |ids| => Expire(ids[i], asOf))
  }

  /** A batch is a run of the machine: so everything proved about runs covers the job. */
  lemma {:induction false} BatchIsRun(db: Db, ids: seq<nat>, asOf: int)
    requires Inv(db) && ByDeadline(db.orders, ids) && forall i | 0 <= i < |ids| :: DueAt(db.orders, ids[i], asOf)
    ensures ReleaseAll(db, ids).Ok? && Runs(db, Expirations(ids, asOf), ReleaseAll(db, ids).value)
  {
    hide Inv, AfterRelease, ReservedCount, ByDeadline;
    BatchExpires(db, ids, asOf);
    if ids != [] {
      var front, id := ids[..|ids| - 1], ids[|ids| - 1];
      FrontIsBatch(db.orders, ids, asOf);
      BatchIsRun(db, front, asOf);
      BatchExpires(db, front, asOf);
      var mid := ReleaseAll(db, front).value;
      assert Expirations(ids, asOf)[..|ids| - 1] == Expirations(front, asOf);
      assert StepsTo(mid, Expire(id, asOf), ReleaseAll(db, ids).value);
    }
  }

  /** What is due, and held by nobody. */
  ghost predicate Left(orders: seq<Order>, asOf: int, locked: set<nat>)
  {
    exists id: nat :: DueAt(orders, id, asOf) && id !in locked
  }

  lemma BatchEffect(db: Db, asOf: int, locked: set<nat>)
    requires Inv(db)
    ensures var ids := DueBatch(db.orders, asOf, locked);
            var r := ReleaseAll(db, ids);
            r.Ok? && Inv(r.value) && Expires(db.orders, ids, r.value.orders) &&
            ReservedCount(db.orders) - ReservedCount(r.value.orders) == |ids| &&
            (|ids| < BATCH_SIZE ==> !Left(r.value.orders, asOf, locked))
  {
    hide Inv, DueBatch, ReservedCount, ReleaseAll;
    BatchIsDue(db.orders, asOf, locked);
    BatchExpires(db, DueBatch(db.orders, asOf, locked), asOf);
  }

  // ---------------------------------------------------------------- the whole job

  /** A transaction that gives no order a deadline before the start of the job. */
  predicate SetsLater(c: Command, asOf: int)
  {
    match c
    case Create(req, _, _) => req.now + req.uploadWindow > asOf
    case Reject(_, deadline) => deadline > asOf
    case _ => true
  }

  ghost predicate Reaches(db: Db, db': Db) { exists run :: Runs(db, run, db') }

  ghost predicate ByOthers(db: Db, db': Db, asOf: int)
  {
    exists run :: Runs(db, run, db') && forall i | 0 <= i < |run| :: SetsLater(run[i], asOf)
  }

  ghost predicate NothingNewDue(orders: seq<Order>, orders': seq<Order>, asOf: int)
  {
    |orders'| >= |orders| &&
    forall i | 0 <= i < |orders'| && Due(orders'[i], asOf) :: i < |orders| && Due(orders[i], asOf)
  }

  lemma CreateAddsNoDue(db: Db, req: OrderRequest, q: Quote, asOf: int)
    requires AfterCreate(db, req, q).Ok? && req.now + req.uploadWindow > asOf
    ensures NothingNewDue(db.orders, AfterCreate(db, req, q).value.orders, asOf)
  {
    hide Allowed, ApplyAll, SeatsHeld, RefusedEarly, ReserveRefused;
    OrderRuns.OnlyAppends(db, req, q);
  }

  lemma RejectAddsNoDue(db: Db, proof: nat, deadline: int, asOf: int)
    requires AfterReject(db, proof, deadline).Ok? && deadline > asOf
    ensures NothingNewDue(db.orders, AfterReject(db, proof, deadline).value.orders, asOf)
  {
  }

  lemma StepAddsNoDue(db: Db, c: Command, db': Db, asOf: int)
    requires StepsTo(db, c, db') && SetsLater(c, asOf)
    ensures NothingNewDue(db.orders, db'.orders, asOf)
  {
    if After(db, c).Ok? {
      hide AfterCreate, AfterReject, AfterApprove, AfterRelease, AfterSubmit, AfterCancel, QuotedFor, RefusedEarly;
      if c.Create? {
        CreateAddsNoDue(db, c.req, c.quote, asOf);
      } else if c.Reject? {
        RejectAddsNoDue(db, c.proof, c.deadline, asOf);
      } else {
        OldStaysUndue(db, c, db', asOf);
      }
    }
  }

  /** Every other move leads out of the states in which a deadline runs. */
  lemma OldStaysUndue(db: Db, c: Command, db': Db, asOf: int)
    requires StepsTo(db, c, db') && !c.Create? && !c.Reject?
    ensures NothingNewDue(db.orders, db'.orders, asOf)
  {
    hide StepsTo;
    OrderRuns.SameRows(db, c, db');
    forall i: nat | i < |db.orders| ensures Due(db'.orders[i], asOf) ==> Due(db.orders[i], asOf) {
      OrderRuns.OneArrow(db, c, db', i);
    }
  }

  lemma {:induction false} RunAddsNoDue(db: Db, run: seq<Command>, db': Db, asOf: int)
    requires Runs(db, run, db') && forall i | 0 <= i < |run| :: SetsLater(run[i], asOf)
    ensures NothingNewDue(db.orders, db'.orders, asOf)
    decreases |run|
  {
    hide StepsTo, SetsLater, Due;
    if run != [] {
      var front, last := run[..|run| - 1], run[|run| - 1];
      var mid :| Runs(db, front, mid) && StepsTo(mid, last, db');
      RunAddsNoDue(db, front, mid, asOf);
      StepAddsNoDue(mid, last, db', asOf);
    }
  }

  lemma {:induction false} FewerDue(orders: seq<Order>, orders': seq<Order>, asOf: int)
    requires NothingNewDue(orders, orders', asOf)
    ensures 0 <= DueCount(orders', asOf) <= DueCount(orders, asOf)
  {
    hide Due;
    var f := IsDue(asOf);
    if |orders'| > |orders| {
      FewerDue(orders, orders'[..|orders'| - 1], asOf);
    } else if orders != [] {
      FewerDue(orders[..|orders| - 1], orders'[..|orders| - 1], asOf);
    }
  }

  lemma {:induction false} RunsJoin(a: Db, r: seq<Command>, b: Db, s: seq<Command>, c: Db)
    requires Runs(a, r, b) && Runs(b, s, c)
    ensures Runs(a, r + s, c)
    decreases |s|
  {
    hide StepsTo;
    if s == [] {
      assert r + s == r;
    } else {
      var front, last := s[..|s| - 1], s[|s| - 1];
      var mid :| Runs(b, front, mid) && StepsTo(mid, last, c);
      RunsJoin(a, r, b, front, mid);
      assert (r + s)[..|r + s| - 1] == r + front;
    }
  }

  lemma ReachesJoins(a: Db, b: Db, c: Db)
    requires Reaches(a, b) && Reaches(b, c)
    ensures Reaches(a, c)
  {
    hide Runs;
    var r :| Runs(a, r, b);
    var s :| Runs(b, s, c);
    RunsJoin(a, r, b, s, c);
  }

  lemma ReachesItself(db: Db)
    ensures Reaches(db, db)
  {
    assert Runs(db, [], db);
  }

  lemma OthersKeep(db: Db, db': Db)
    requires Reaches(db, db') && Inv(db)
    ensures Inv(db')
  {
    hide Runs, Inv;
    var run :| Runs(db, run, db');
    RunsKeep(db, run, db');
  }

  lemma OthersAddNoDue(db: Db, db': Db, asOf: int)
    requires ByOthers(db, db', asOf)
    ensures DueCount(db'.orders, asOf) <= DueCount(db.orders, asOf)
  {
    hide Runs, SetsLater, DueCount;
    var run :| Runs(db, run, db') && forall i | 0 <= i < |run| :: SetsLater(run[i], asOf);
    RunAddsNoDue(db, run, db', asOf);
    FewerDue(db.orders, db'.orders, asOf);
  }

  lemma BatchStep(db: Db, asOf: int, locked: set<nat>)
    ensures Inv(db) ==>
              var ids := DueBatch(db.orders, asOf, locked);
              var r := ReleaseAll(db, ids);
              r.Ok? && Inv(r.value) && Reaches(db, r.value) && Expiries(db.orders, r.value.orders, asOf) &&
              |ids| <= BATCH_SIZE && ReservedCount(db.orders) - ReservedCount(r.value.orders) == |ids| &&
              (|ids| < BATCH_SIZE ==> !Left(r.value.orders, asOf, locked))
  {
    hide Inv, DueBatch, ReservedCount, ReleaseAll, Left, Runs;
    if Inv(db) {
      BatchEffect(db, asOf, locked);
      BatchIsDue(db.orders, asOf, locked);
      BatchIsRun(db, DueBatch(db.orders, asOf, locked), asOf);
    }
  }

  ghost predicate Quiet(others: (nat, Db) -> Db) { forall k: nat, db: Db :: others(k, db) == db }

  /**
    Batch after batch until one is short or releases nothing. `held(k)` are the orders that other transactions hold
    while batch k selects, `others` is what they commit before it: any transactions at all, in any number. From batch
    `calm` on, whenever that is, none of them read its clock so long before the job that its order is due at once; from
    then on each batch leaves fewer due orders, so the loop ends. Started in a reachable state it cannot fail; the job
    and everything committed in between are one run, and at its end nothing is due any more but what was held during
    the last batch. With nothing in between, exactly the expired orders have changed.
  */
  method ProcessDeadlines(svc: OrderService, asOf: int, held: nat -> set<nat>, others: (nat, Db) -> Db,
                          ghost calm: nat)
    returns (expired: nat, err: Option<OrderError>, batches: nat)
    requires forall k: nat, db: Db :: Reaches(db, others(k, db))
    requires forall k: nat, db: Db | k >= calm :: ByOthers(db, others(k, db), asOf)
    modifies svc, svc.prices
    ensures Inv(old(svc.Rows())) ==>
              err.None? && Inv(svc.Rows()) && Reaches(old(svc.Rows()), svc.Rows()) &&
              batches > 0 && NoneOverdue(svc.orders, asOf, held(batches - 1))
    ensures calm == 0 ==> expired + DueCount(svc.orders, asOf) <= DueCount(old(svc.orders), asOf)
    ensures Quiet(others) ==>
              expired == ReservedCount(old(svc.orders)) - ReservedCount(svc.orders) &&
              (Inv(old(svc.Rows())) ==> Expiries(old(svc.orders), svc.orders, asOf))
  {
    hide Inv, Left, DueBatch, ReleaseAll, ReservedCount, DueCount, Expiries, ByOthers, Reaches, Quiet;
    expired, err, batches := 0, None, 0;
    SameExpiries(svc.orders, asOf);
    ReachesItself(svc.Rows());
    var more := true;
    while more
      invariant Inv(old(svc.Rows())) ==>
        err.None? && Inv(svc.Rows()) && Reaches(old(svc.Rows()), svc.Rows()) &&
        (!more ==> batches > 0 && !Left(svc.orders, asOf, held(batches - 1)))
      invariant calm == 0 ==> expired + DueCount(svc.orders, asOf) <= DueCount(old(svc.orders), asOf)
      invariant Quiet(others) ==>
        expired == ReservedCount(old(svc.orders)) - ReservedCount(svc.orders) &&
        (Inv(old(svc.Rows())) ==> Expiries(old(svc.orders), svc.orders, asOf))
      decreases Max(calm - batches, 0), DueCount(svc.orders, asOf), more
    {
      DueCountIsCount(svc.orders, asOf);
      ghost var atStart := svc.Rows();
      svc.SetRows(others(batches, svc.Rows()));
      ghost var before := svc.Rows();
      QuietStays(others, batches, atStart);
      if Inv(atStart) { OthersKeep(atStart, before); }
      if batches >= calm { OthersAddNoDue(atStart, before, asOf); }
      BatchStep(before, asOf, held(batches));
      var selected, released;
      selected, released, err := ExpireDueBatch(svc, asOf, held(batches));
      batches := batches + 1;
      if err.Some? {
        more := false;
      } else {
        assert Inv(before) ==> released == selected;
        expired := expired + released;
        ExpiriesCompose(old(svc.orders), before.orders, svc.orders, asOf);
        more := !(selected < BATCH_SIZE || released == 0);
      }
      JobReaches(old(svc.Rows()), atStart, before, svc.Rows());
    }
    if batches > 0 && Inv(svc.Rows()) { LeftIsOverdue(svc.Rows(), asOf, held(batches - 1)); }
  }

  /** Every order that nobody held has its deadline still to come, or has none. */
  ghost predicate NoneOverdue(orders: seq<Order>, asOf: int, locked: set<nat>)
  {
    forall id: nat | id < |orders| && id !in locked && orders[id].deadline.Some? :: asOf < orders[id].deadline.value
  }

  lemma LeftIsOverdue(db: Db, asOf: int, locked: set<nat>)
    requires Inv(db)
    ensures !Left(db.orders, asOf, locked) <==> NoneOverdue(db.orders, asOf, locked)
  {
    hide Inv, Due;
    forall id: nat | id < |db.orders|
      ensures Due(db.orders[id], asOf) <==> db.orders[id].deadline.Some? && db.orders[id].deadline.value <= asOf
    {
      OrderOutcomes.ExpireIff(db, id, asOf);
    }
    assert forall id: nat | id < |db.orders| :: DueAt(db.orders, id, asOf) <==> Due(db.orders[id], asOf);
  }

  lemma QuietStays(others: (nat, Db) -> Db, k: nat, db: Db)
    ensures Quiet(others) ==> others(k, db) == db
  {
  }

  lemma JobReaches(a: Db, b: Db, c: Db, d: Db)
    ensures Reaches(a, b) && Reaches(b, c) && Reaches(c, d) ==> Reaches(a, d)
  {
    hide Reaches;
    if Reaches(a, b) && Reaches(b, c) && Reaches(c, d) {
      ReachesJoins(a, b, c);
      ReachesJoins(a, c, d);
    }
  }

  lemma DueCountIsCount(orders: seq<Order>, asOf: int)
    ensures DueCount(orders, asOf) >= 0
  {
    SumByNonNegative(orders, IsDue(asOf));
  }

  /** Between two moments of the job, orders that changed were due and are expired now. */
  ghost predicate Expiries(orders: seq<Order>, orders': seq<Order>, asOf: int)
  {
    |orders'| == |orders| &&
    forall id: nat | id < |orders| ::
      orders'[id] == orders[id] ||
      (Due(orders[id], asOf) && orders'[id] == ReleasedOrder(orders[id], OrderExpiry))
  }

  lemma SameExpiries(orders: seq<Order>, asOf: int)
    ensures Expiries(orders, orders, asOf)
  {
  }

  lemma ExpiriesCompose(a: seq<Order>, b: seq<Order>, c: seq<Order>, asOf: int)
    ensures Expiries(a, b, asOf) && Expiries(b, c, asOf) ==> Expiries(a, c, asOf)
  {
  }
}
