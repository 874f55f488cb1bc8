/**
  Why transactions never deadlock: all row and advisory locks are taken in one global order, and whatever is touched
  again is already held.
*/
module Locks {
  import opened Common
  import opened Counters

  /** The lock classes in the order in which transactions go through them. */
  datatype Class = Event | IdempotencyKey | IdHash | Account | Proof | Order | Category | PriceRule | Coupon

  function Rank(c: Class): nat
  {
    match c
    case Event => 0 case IdempotencyKey => 1 case IdHash => 2 case Account => 3 case Proof => 4
    case Order => 5 case Category => 6 case PriceRule => 7 case Coupon => 8
  }

  datatype Resource = Resource(class_: Class, id: int)

  predicate Below(a: Resource, b: Resource)
  {
    Rank(a.class_) < Rank(b.class_) || (a.class_ == b.class_ && a.id < b.id)
  }

  /** FOR SHARE on the event; everything else excludes everybody else. */
  datatype Mode = Shared | Exclusive

  datatype Request = Request(res: Resource, mode: Mode)

  type Locked = map<Resource, Mode>

  /**
    A transaction: the locks it holds, the requests still to come, and -- for a batch -- whether it is still picking
    free orders with SKIP LOCKED.
  */
  datatype Tx = Tx(held: Locked, todo: seq<Request>, picking: bool)

  function Take(held: Locked, q: Request): Locked { if q.res in held then held else held[q.res := q.mode] }

  /** Every request is above all locks held by then, or for a lock that is already held strongly enough. */
  ghost predicate Orderly(held: Locked, todo: seq<Request>)
    decreases |todo|
  {
    todo == [] ||
    (Fits(held, todo[0]) && Orderly(Take(held, todo[0]), todo[1..]))
  }

  ghost predicate Fits(held: Locked, q: Request)
  {
    (q.res in held && (held[q.res].Exclusive? || q.mode.Shared?)) || forall h <- held :: Below(h, q.res)
  }

  // ---------------------------------------------------------------- interleavings

  datatype Action =
    | Begin(todo: seq<Request>)               // a transaction with a fixed plan
    | BeginBatch                              // the deadline job opens a batch
    | Pick(tx: nat, order: int)               // SKIP LOCKED: only an order nobody holds
    | EndPicking(tx: nat, todo: seq<Request>) // then the counters of the picked orders
    | Grant(tx: nat)
    | Finish(tx: nat)                         // commit, or roll back at any time

  ghost predicate Conflicts(q: Request, other: Tx)
  {
    q.res in other.held && !(q.mode.Shared? && other.held[q.res].Shared?)
  }

  ghost predicate Blocks(w: seq<Tx>, i: nat, j: nat)
  {
    i < |w| && j < |w| && i != j && w[i].todo != [] && Conflicts(w[i].todo[0], w[j])
  }

  ghost predicate Waiting(w: seq<Tx>, i: nat) { exists j: nat :: Blocks(w, i, j) }

  ghost predicate Legal(w: seq<Tx>, a: Action)
  {
    match a
    case Begin(todo) => Orderly(map[], todo)
    case BeginBatch => true
    case Pick(i, id) =>
      i < |w| && w[i].picking && forall j | 0 <= j < |w| && j != i :: Resource(Order, id) !in w[j].held
    case EndPicking(i, todo) => i < |w| && w[i].picking && Orderly(w[i].held, todo)
    case Grant(i) => i < |w| && w[i].todo != [] && !Waiting(w, i)
    case Finish(i) => i < |w|
  }

  function Next(w: seq<Tx>, a: Action): seq<Tx>
  {
    match a
    case Begin(todo) => w + [Tx(map[], todo, false)]
    case BeginBatch => w + [Tx(map[], [], true)]
    case Pick(i, id) =>
      if i < |w| then w[i := w[i].(held := Take(w[i].held, Request(Resource(Order, id), Exclusive)))] else w
    case EndPicking(i, todo) => if i < |w| then w[i := w[i].(picking := false, todo := todo)] else w
    case Grant(i) =>
      if i < |w| && w[i].todo != []
      then w[i := w[i].(held := Take(w[i].held, w[i].todo[0]), todo := w[i].todo[1..])] else w
    case Finish(i) => if i < |w| then w[i := Tx(map[], [], false)] else w
  }

  /** Locks exclude each other, everybody keeps to the order, and whoever is still picking asks for nothing. */
  ghost predicate Exclude(x: Tx, y: Tx)
  {
    forall r | r in x.held && r in y.held :: x.held[r].Shared? && y.held[r].Shared?
  }

  ghost predicate Apart(w: seq<Tx>) { forall i, j | 0 <= i < j < |w| :: Exclude(w[i], w[j]) }

  ghost predicate Tidy(x: Tx)
  {
    Orderly(x.held, x.todo) &&
    (x.picking ==> x.todo == [] && forall r <- x.held :: r.class_.Order? && x.held[r].Exclusive?)
  }

  ghost predicate AllTidy(w: seq<Tx>) { forall i | 0 <= i < |w| :: Tidy(w[i]) }

  lemma ApartUpdate(w: seq<Tx>, i: nat, x: Tx)
    requires Apart(w) && i < |w| && forall j | 0 <= j < |w| && j != i :: Exclude(x, w[j])
    ensures Apart(w[i := x])
  {
  }

  lemma GrantExcludes(w: seq<Tx>, i: nat, j: nat, q: Request)
    requires Apart(w) && i < |w| && j < |w| && i != j && !Conflicts(q, w[j])
    ensures Exclude(w[i].(held := Take(w[i].held, q)), w[j])
  {
  }

  lemma StepKeeps(w: seq<Tx>, a: Action)
    requires Apart(w) && AllTidy(w) && Legal(w, a)
    ensures Apart(Next(w, a)) && AllTidy(Next(w, a))
  {
    match a
    case Begin(todo) => NewTx(w, Tx(map[], todo, false));
    case BeginBatch => NewTx(w, Tx(map[], [], true));
    case Pick(i, id) =>
      var q := Request(Resource(Order, id), Exclusive);
      forall j | 0 <= j < |w| && j != i ensures Exclude(w[i].(held := Take(w[i].held, q)), w[j]) {
        GrantExcludes(w, i, j, q);
      }
      ApartUpdate(w, i, Next(w, a)[i]);
    case EndPicking(i, todo) => Rewrite(w, i, w[i].(picking := false, todo := todo));
    case Grant(i) =>
      var q := w[i].todo[0];
      forall j: nat | j < |w| && j != i ensures Exclude(w[i].(held := Take(w[i].held, q)), w[j]) {
        assert !Blocks(w, i, j);
        GrantExcludes(w, i, j, q);
      }
      ApartUpdate(w, i, Next(w, a)[i]);
    case Finish(i) => ApartUpdate(w, i, Tx(map[], [], false));
  }

  lemma NewTx(w: seq<Tx>, x: Tx)
    requires Apart(w) && AllTidy(w) && x.held == map[] && Tidy(x)
    ensures Apart(w + [x]) && AllTidy(w + [x])
  {
  }

  /** The same locks, other plans. */
  lemma Rewrite(w: seq<Tx>, i: nat, x: Tx)
    requires Apart(w) && AllTidy(w) && i < |w| && x.held == w[i].held && Tidy(x)
    ensures Apart(w[i := x]) && AllTidy(w[i := x])
  {
  }

  ghost predicate Runs(run: seq<Action>, w: seq<Tx>)
    decreases |run|
  {
    if run == [] then w == []
    else
      var front, last := run[..|run| - 1], run[|run| - 1];
      exists m :: Runs(front, m) && StepsTo(m, last, w)
  }

  ghost predicate StepsTo(w: seq<Tx>, a: Action, w': seq<Tx>) { Legal(w, a) && w' == Next(w, a) }

  lemma {:induction false} RunKeeps(run: seq<Action>, w: seq<Tx>)
    requires Runs(run, w)
    ensures Apart(w) && AllTidy(w)
    decreases |run|
  {
    if run != [] {
      var front, last := run[..|run| - 1], run[|run| - 1];
      var m :| Runs(front, m) && StepsTo(m, last, w);
      RunKeeps(front, m);
      StepKeeps(m, last);
    }
  }

  // ---------------------------------------------------------------- no deadlock

  /** Whoever waits wants something above everything it holds: what is held already is never waited for. */
  lemma WaitersReachUp(w: seq<Tx>, i: nat, j: nat)
    requires Apart(w) && AllTidy(w) && Blocks(w, i, j)
    ensures forall h <- w[i].held :: Below(h, w[i].todo[0].res)
  {
  }

  ghost predicate WaitChain(w: seq<Tx>, path: seq<nat>)
  {
    forall k | 0 <= k < |path| - 1 :: Blocks(w, path[k], path[k + 1])
  }

  lemma {:induction false} ChainsRise(w: seq<Tx>, path: seq<nat>)
    requires Apart(w) && AllTidy(w) && WaitChain(w, path) && |path| >= 2
    ensures path[0] < |w| && w[path[0]].todo != []
    ensures forall i: nat, j: nat | i == path[|path| - 1] && Blocks(w, i, j) ::
              Below(w[path[0]].todo[0].res, w[i].todo[0].res)
  {
    assert Blocks(w, path[0], path[1]);
    forall i: nat, j: nat | i == path[|path| - 1] && Blocks(w, i, j)
      ensures Below(w[path[0]].todo[0].res, w[i].todo[0].res)
    {
      WaitersReachUp(w, i, j);
      if |path| > 2 {
        var front := path[..|path| - 1];
        forall k | 0 <= k < |front| - 1 ensures Blocks(w, front[k], front[k + 1]) {
          assert Blocks(w, path[k], path[k + 1]);
        }
        ChainsRise(w, front);
        assert Blocks(w, path[|path| - 2], path[|path| - 1]);
      }
    }
  }

  /** No interleaving ever closes a circle of transactions waiting for one another. */
  lemma NoWaitCycle(run: seq<Action>, w: seq<Tx>, path: seq<nat>)
    requires Runs(run, w) && |path| >= 2 && WaitChain(w, path)
    ensures path[0] != path[|path| - 1]
  {
    RunKeeps(run, w);
    ChainsRise(w, path);
    assert Blocks(w, path[0], path[1]);
  }

  predicate Live(x: Tx) { x.picking || x.todo != [] || x.held != map[] }

  /** Some transaction that is still going does not have to wait. */
  ghost predicate CanGo(w: seq<Tx>, i: nat) { i < |w| && Live(w[i]) && !Waiting(w, i) }

  /** The waiting transaction below n that reaches highest. */
  ghost predicate Highest(w: seq<Tx>, n: nat, i: nat)
  {
    n <= |w| && i < n && Waiting(w, i) &&
    forall k: nat | k < n && Waiting(w, k) :: !Below(w[i].todo[0].res, w[k].todo[0].res)
  }

  lemma {:induction false} HighestExists(w: seq<Tx>, n: nat, some: nat) returns (i: nat)
    requires n <= |w| && some < n && Waiting(w, some)
    ensures Highest(w, n, i)
  {
    var below: nat :| below == n - 1;
    if exists k: nat :: k < below && Waiting(w, k) {
      var k: nat :| k < below && Waiting(w, k);
      i := HighestExists(w, below, k);
      if Waiting(w, below) && Below(w[i].todo[0].res, w[below].todo[0].res) {
        i := below;
      }
    } else {
      i := some;
    }
  }

  /** Progress: as long as anybody is going, somebody can go on. */
  lemma SomebodyCanGo(run: seq<Action>, w: seq<Tx>, some: nat) returns (i: nat)
    requires Runs(run, w) && some < |w| && Live(w[some])
    ensures CanGo(w, i)
  {
    RunKeeps(run, w);
    if !Waiting(w, some) { return some; }
    var top := HighestExists(w, |w|, some);
    var j: nat :| Blocks(w, top, j);
    i := j;
    forall k: nat ensures !Blocks(w, j, k) {
      if Blocks(w, j, k) {
        WaitersReachUp(w, j, k);
        assert Waiting(w, j);
      }
    }
  }

  // ---------------------------------------------------------------- the plans

  ghost predicate Rising(qs: seq<Request>) { forall i, j | 0 <= i < j < |qs| :: Below(qs[i].res, qs[j].res) }

  function HoldAll(held: Locked, qs: seq<Request>): Locked
    decreases |qs|
  {
    if qs == [] then held else HoldAll(Take(held, qs[0]), qs[1..])
  }

  lemma {:induction false} OrderlyAppend(held: Locked, a: seq<Request>, b: seq<Request>)
    requires Orderly(held, a) && Orderly(HoldAll(held, a), b)
    ensures Orderly(held, a + b)
    decreases |a|
  {
    if a == [] {
      assert a + b == b;
    } else {
      OrderlyAppend(Take(held, a[0]), a[1..], b);
      assert (a + b)[0] == a[0] && (a + b)[1..] == a[1..] + b;
    }
  }

  lemma {:induction false} RisingIsOrderly(held: Locked, qs: seq<Request>)
    requires Rising(qs) && forall h, i | h in held && 0 <= i < |qs| :: Below(h, qs[i].res)
    ensures Orderly(held, qs)
    ensures forall r | r in held :: r in HoldAll(held, qs) && HoldAll(held, qs)[r] == held[r]
    ensures forall i | 0 <= i < |qs| :: qs[i].res in HoldAll(held, qs) && HoldAll(held, qs)[qs[i].res] == qs[i].mode
    decreases |qs|
  {
    if qs != [] {
      RisingIsOrderly(Take(held, qs[0]), qs[1..]);
      assert forall i | 1 <= i < |qs| :: qs[i] == qs[1..][i - 1];
    }
  }

  lemma {:induction false} HeldIsOrderly(held: Locked, qs: seq<Request>)
    requires forall i | 0 <= i < |qs| :: qs[i].res in held && held[qs[i].res].Exclusive?
    ensures Orderly(held, qs)
    decreases |qs|
  {
    if qs != [] { HeldIsOrderly(held, qs[1..]); }
  }

  /** First up the order, then only again what was taken exclusively on the way. */
  lemma UpThenAgain(held: Locked, up: seq<Request>, again: seq<Request>)
    requires Rising(up) && forall h, i | h in held && 0 <= i < |up| :: Below(h, up[i].res)
    requires forall q <- again ::
      (q.res in held && held[q.res].Exclusive?) || exists p <- up :: p == Request(q.res, Exclusive)
    ensures Orderly(held, up + again)
  {
    RisingIsOrderly(held, up);
    var all := HoldAll(held, up);
    forall i | 0 <= i < |again| ensures again[i].res in all && all[again[i].res].Exclusive? {
      assert again[i] in again;
    }
    HeldIsOrderly(all, again);
    OrderlyAppend(held, up, again);
  }

  function Ask(c: Class, id: int): Request { Request(Resource(c, id), Exclusive) }

  function AskOption(c: Class, id: Option<int>): seq<Request> { if id.Some? then [Ask(c, id.value)] else [] }

  function AskIds(c: Class, ids: seq<int>): seq<Request> { seq(|ids|, i requires 0 <= i < |ids| => Ask(c, ids[i])) }

  function IdsOf(ns: seq<Need>): seq<int> { seq(|ns|, i requires 0 <= i < |ns| => ns[i].row.id) }

  /** The counter rows of one order, merged by GroupSeats, in the order in which they are updated. */
  function CounterRows(cats: seq<Need>, rules: seq<Need>, coupon: Option<int>): seq<Request>
  {
    AskIds(Category, IdsOf(cats)) + AskIds(PriceRule, IdsOf(rules)) + AskOption(Coupon, coupon)
  }

  ghost predicate Sorted(ids: seq<int>) { forall i, j | 0 <= i < j < |ids| :: ids[i] < ids[j] }

  /** Rising requests with all ranks from lo on and below hi. */
  ghost predicate Between(qs: seq<Request>, lo: nat, hi: nat)
  {
    Rising(qs) && forall i | 0 <= i < |qs| :: lo <= Rank(qs[i].res.class_) < hi
  }

  lemma Joined(a: seq<Request>, b: seq<Request>, lo: nat, mid: nat, hi: nat)
    requires Between(a, lo, mid) && Between(b, mid, hi) && lo <= mid <= hi
    ensures Between(a + b, lo, hi)
  {
  }

  lemma IdsBetween(c: Class, ids: seq<int>)
    requires Sorted(ids)
    ensures Between(AskIds(c, ids), Rank(c), Rank(c) + 1)
  {
  }

  lemma CountersBetween(cats: seq<Need>, rules: seq<Need>, coupon: Option<int>)
    requires Ascending(cats) && Ascending(rules)
    ensures Between(CounterRows(cats, rules, coupon), 6, 9)
  {
    var c, r, u := AskIds(Category, IdsOf(cats)), AskIds(PriceRule, IdsOf(rules)), AskOption(Coupon, coupon);
    IdsBetween(Category, IdsOf(cats));
    IdsBetween(PriceRule, IdsOf(rules));
    Joined(c, r, 6, 7, 8);
    Joined(c + r, u, 6, 8, 9);
  }

  /**
    Placing an order: the event, the idempotency key, the participants' id hashes in byte order, the account when
    something is to be paid, the counters; with nothing to pay the counters again; at last the key, for the stored
    answer. The rows it inserts are its own.
  */
  function CreatePlan(event: int, key: int, hashes: seq<int>, account: Option<int>, cats: seq<Need>, rules: seq<Need>,
                      coupon: Option<int>): seq<Request>
  {
    ([Request(Resource(Event, event), Shared), Ask(IdempotencyKey, key)] + AskIds(IdHash, hashes) +
     AskOption(Account, account) + CounterRows(cats, rules, coupon)) +
    ((if account.None? then CounterRows(cats, rules, coupon) else []) + [Ask(IdempotencyKey, key)])
  }

  lemma CreateIsOrderly(event: int, key: int, hashes: seq<int>, account: Option<int>, cats: seq<Need>,
                        rules: seq<Need>, coupon: Option<int>)
    requires Sorted(hashes) && Ascending(cats) && Ascending(rules)
    ensures Orderly(map[], CreatePlan(event, key, hashes, account, cats, rules, coupon))
  {
    var a, h := [Request(Resource(Event, event), Shared), Ask(IdempotencyKey, key)], AskIds(IdHash, hashes);
    var p, c := AskOption(Account, account), CounterRows(cats, rules, coupon);
    IdsBetween(IdHash, hashes);
    CountersBetween(cats, rules, coupon);
    Joined(a, h, 0, 2, 3);
    Joined(a + h, p, 0, 3, 6);
    Joined(a + h + p, c, 0, 6, 9);
    var again := (if account.None? then c else []) + [Ask(IdempotencyKey, key)];
    assert a[1] in a + h + p + c;
    forall q <- again ensures exists x <- a + h + p + c :: x == Request(q.res, Exclusive) {
      assert q in a + h + p + c && q == Request(q.res, Exclusive);
    }
    UpThenAgain(map[], a + h + p + c, again);
  }

  lemma AskedIds(c: Class, ids: seq<int>, i: nat)
    requires i < |ids|
    ensures Ask(c, ids[i]) in AskIds(c, ids)
  {
    assert AskIds(c, ids)[i] == Ask(c, ids[i]);
  }

  lemma AskedRows(cats: seq<Need>, rules: seq<Need>, coupon: Option<int>)
    ensures var qs := CounterRows(cats, rules, coupon);
            (forall i | 0 <= i < |cats| :: Ask(Category, cats[i].row.id) in qs) &&
            (forall i | 0 <= i < |rules| :: Ask(PriceRule, rules[i].row.id) in qs) &&
            (coupon.Some? ==> Ask(Coupon, coupon.value) in qs)
  {
    forall i | 0 <= i < |cats| ensures Ask(Category, cats[i].row.id) in AskIds(Category, IdsOf(cats)) {
      AskedIds(Category, IdsOf(cats), i);
    }
    forall i | 0 <= i < |rules| ensures Ask(PriceRule, rules[i].row.id) in AskIds(PriceRule, IdsOf(rules)) {
      AskedIds(PriceRule, IdsOf(rules), i);
    }
  }

  /** No plan leaves out a row or a name that its transaction relies on. */
  lemma PlansAskForAll(event: int, key: int, hashes: seq<int>, account: Option<int>, proof: int, order: int,
                       cats: seq<Need>, rules: seq<Need>, coupon: Option<int>)
    ensures var qs := CreatePlan(event, key, hashes, account, cats, rules, coupon);
            Request(Resource(Event, event), Shared) in qs && Ask(IdempotencyKey, key) in qs &&
            (forall i | 0 <= i < |hashes| :: Ask(IdHash, hashes[i]) in qs) &&
            (account.Some? ==> Ask(Account, account.value) in qs) &&
            forall q <- CounterRows(cats, rules, coupon) :: q in qs
    ensures var qs := ReviewPlan(proof, order, cats, rules, coupon);
            Ask(Proof, proof) in qs && Ask(Order, order) in qs &&
            forall q <- CounterRows(cats, rules, coupon) :: q in qs
    ensures var qs := OrderPlan(order, cats, rules, coupon);
            Ask(Order, order) in qs && forall q <- CounterRows(cats, rules, coupon) :: q in qs
  {
    forall i | 0 <= i < |hashes| ensures Ask(IdHash, hashes[i]) in AskIds(IdHash, hashes) {
      AskedIds(IdHash, hashes, i);
    }
  }

  /** A review: the proof and its order are locked, then both rows are written; an approval moves the counters last. */
  function ReviewPlan(proof: int, order: int, cats: seq<Need>, rules: seq<Need>, coupon: Option<int>): seq<Request>
  {
    ([Ask(Proof, proof), Ask(Order, order)] + [Ask(Proof, proof), Ask(Order, order)]) + CounterRows(cats, rules, coupon)
  }

  lemma ReviewIsOrderly(proof: int, order: int, cats: seq<Need>, rules: seq<Need>, coupon: Option<int>)
    requires Ascending(cats) && Ascending(rules)
    ensures Orderly(map[], ReviewPlan(proof, order, cats, rules, coupon))
  {
    var a, c := [Ask(Proof, proof), Ask(Order, order)], CounterRows(cats, rules, coupon);
    RisingIsOrderly(map[], a);
    HeldIsOrderly(HoldAll(map[], a), a);
    OrderlyAppend(map[], a, a);
    HoldsOnly(map[], a + a);
    CountersBetween(cats, rules, coupon);
    RisingIsOrderly(HoldAll(map[], a + a), c);
    OrderlyAppend(map[], a + a, c);
  }

  lemma {:induction false} HoldsOnly(held: Locked, qs: seq<Request>)
    ensures forall r <- HoldAll(held, qs) :: r in held || exists q <- qs :: q.res == r
    decreases |qs|
  {
    if qs != [] {
      HoldsOnly(Take(held, qs[0]), qs[1..]);
      forall r <- HoldAll(held, qs) ensures r in held || exists q <- qs :: q.res == r {
        if exists q <- qs[1..] :: q.res == r {
          var q :| q in qs[1..] && q.res == r;
          assert q in qs;
        } else {
          assert r in Take(held, qs[0]) && qs[0] in qs;
        }
      }
    }
  }

  /** Cancelling, and submitting a proof (no counters then): the order and what it holds. */
  function OrderPlan(order: int, cats: seq<Need>, rules: seq<Need>, coupon: Option<int>): seq<Request>
  {
    [Ask(Order, order), Ask(Order, order)] + CounterRows(cats, rules, coupon)
  }

  lemma OrderPlanIsOrderly(order: int, cats: seq<Need>, rules: seq<Need>, coupon: Option<int>)
    requires Ascending(cats) && Ascending(rules)
    ensures Orderly(map[], OrderPlan(order, cats, rules, coupon))
  {
    var a, c := [Ask(Order, order)], CounterRows(cats, rules, coupon);
    CountersBetween(cats, rules, coupon);
    Joined(a, c, 5, 6, 9);
    RisingIsOrderly(map[], a + c);
    assert (a + c)[1..] == c;
    assert OrderPlan(order, cats, rules, coupon)[1..] == a + c;
    assert Orderly(Take(map[], Ask(Order, order)), a + c);
  }

  /** An order of a batch, with the counters that its release moves. */
  datatype Batched = Batched(order: int, cats: seq<Need>, rules: seq<Need>, coupon: Option<int>)

  function IdsIn(o: Batched, c: Class): seq<int>
  {
    match c
    case Category => IdsOf(o.cats)
    case PriceRule => IdsOf(o.rules)
    case Coupon => if o.coupon.Some? then [o.coupon.value] else []
    case _ => []
  }

  /** What the locking queries select: the ids of one class that occur in the orders, each once, ascending. */
  ghost predicate AllIdsOf(orders: seq<Batched>, c: Class, ids: seq<int>)
  {
    Sorted(ids) && forall x :: x in ids <==> exists o <- orders :: x in IdsIn(o, c)
  }

  /** Order by order: the row, then its counters. */
  function Releases(orders: seq<Batched>): seq<Request>
  {
    if orders == [] then []
    else
      var o := orders[|orders| - 1];
      Releases(orders[..|orders| - 1]) + [Ask(Order, o.order)] + CounterRows(o.cats, o.rules, o.coupon)
  }

  /** A batch after picking its orders: the counters of all of them first, then order by order. */
  function BatchPlan(orders: seq<Batched>, cats: seq<int>, rules: seq<int>, coupons: seq<int>): seq<Request>
  {
    AskIds(Category, cats) + AskIds(PriceRule, rules) + AskIds(Coupon, coupons) + Releases(orders)
  }

  /** All that a release touches: its order and the counters that occur in it. */
  lemma {:induction false} ReleasesTouch(orders: seq<Batched>, q: Request) returns (o: Batched)
    requires q in Releases(orders)
    ensures q == Request(q.res, Exclusive) && o in orders
    ensures q.res == Resource(Order, o.order) || q.res.id in IdsIn(o, q.res.class_)
  {
    o := orders[|orders| - 1];
    if q in Releases(orders[..|orders| - 1]) {
      o := ReleasesTouch(orders[..|orders| - 1], q);
    } else if q != Ask(Order, o.order) {
      CounterIn(o, q);
    }
  }

  lemma CounterIn(o: Batched, q: Request)
    requires q in CounterRows(o.cats, o.rules, o.coupon)
    ensures q.mode.Exclusive? && q.res.id in IdsIn(o, q.res.class_)
  {
    var c, r := AskIds(Category, IdsOf(o.cats)), AskIds(PriceRule, IdsOf(o.rules));
    if q in c {
      var i :| 0 <= i < |c| && c[i] == q;
      assert q == Ask(Category, IdsOf(o.cats)[i]);
    } else if q in r {
      var i :| 0 <= i < |r| && r[i] == q;
      assert q == Ask(PriceRule, IdsOf(o.rules)[i]);
    }
  }

  /** A batch that has picked its orders, and nothing else, goes up once more and then only touches its own. */
  lemma BatchIsOrderly(held: Locked, orders: seq<Batched>, cats: seq<int>, rules: seq<int>, coupons: seq<int>)
    requires AllIdsOf(orders, Category, cats) && AllIdsOf(orders, PriceRule, rules) && AllIdsOf(orders, Coupon, coupons)
    requires forall r <- held :: r.class_.Order? && held[r].Exclusive?
    requires forall o <- orders :: Resource(Order, o.order) in held
    ensures Orderly(held, BatchPlan(orders, cats, rules, coupons))
  {
    var c, r, u, rest := AskIds(Category, cats), AskIds(PriceRule, rules), AskIds(Coupon, coupons), Releases(orders);
    IdsBetween(Category, cats);
    IdsBetween(PriceRule, rules);
    IdsBetween(Coupon, coupons);
    Joined(c, r, 6, 7, 8);
    Joined(c + r, u, 6, 8, 9);
    forall q <- rest
      ensures (q.res in held && held[q.res].Exclusive?) || exists x <- c + r + u :: x == Request(q.res, Exclusive)
    {
      if q.res !in held {
        AskedBefore(held, orders, cats, rules, coupons, q);
        assert Request(q.res, Exclusive) in c + r + u;
      }
    }
    hide AllIdsOf, Rising, Releases, AskIds;
    UpThenAgain(held, c + r + u, rest);
  }

  lemma AskedBefore(held: Locked, orders: seq<Batched>, cats: seq<int>, rules: seq<int>, coupons: seq<int>, q: Request)
    requires AllIdsOf(orders, Category, cats) && AllIdsOf(orders, PriceRule, rules) && AllIdsOf(orders, Coupon, coupons)
    requires forall o <- orders :: Resource(Order, o.order) in held
    requires q in Releases(orders) && q.res !in held
    ensures q == Request(q.res, Exclusive)
    ensures q in AskIds(Category, cats) || q in AskIds(PriceRule, rules) || q in AskIds(Coupon, coupons)
  {
    hide Releases, AllIdsOf, AskIds;
    var o := ReleasesTouch(orders, q);
    var c := q.res.class_;
    AskedFor(orders, c, if c.Category? then cats else if c.PriceRule? then rules else coupons, o, q.res.id);
  }

  /** What occurs in one of the orders has been asked for. */
  lemma AskedFor(orders: seq<Batched>, c: Class, ids: seq<int>, o: Batched, id: int)
    ensures AllIdsOf(orders, c, ids) && o in orders && id in IdsIn(o, c) ==> Ask(c, id) in AskIds(c, ids)
  {
    if AllIdsOf(orders, c, ids) && o in orders && id in IdsIn(o, c) {
      assert id in ids;
      var i :| 0 <= i < |ids| && ids[i] == id;
      assert AskIds(c, ids)[i] == Ask(c, id);
    }
  }

  /** Free sign-ups, and the staff editing one event, price rule or coupon. */
  lemma ShortPlansAreOrderly(event: int, category: int, c: Class, id: int)
    ensures Orderly(map[], [Request(Resource(Event, event), Shared), Ask(Category, category)])
    ensures Orderly(map[], [Ask(c, id), Ask(c, id)])
  {
  }
}
