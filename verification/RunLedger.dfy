/**
  The second reservation ledger, of the shared business domain: orders reserve seats as a whole, confirm, expire and
  cancel them, and an expired order whose money came late can be restored, all of it or nothing.
*/
module RunLedger {
  import opened Common
  import opened Ledger

  datatype PartStatus = Pending | Confirmed | ExpiredOut | CancelledOut

  datatype Part = Part(cat: int, rule: int, reg: PartStatus)

  /** A participant as he comes in: category and the one price tier that matched. */
  datatype Line = Line(cat: int, rule: int)

  function Fresh(lines: seq<Line>): seq<Part>
  {
    seq(|lines|, i requires 0 <= i < |lines| => Part(lines[i].cat, lines[i].rule, Pending))
  }

  datatype Status = PendingPayment | Paid | Expired | Cancelled

  datatype RunOrder = RunOrder(orderNo: string, parts: seq<Part>, status: Status, reservation: HoldState, deadline: int)

  datatype Domain = Domain(table: Table, orders: seq<RunOrder>)

  datatype Outcome = Done | Already | Refused

  /** One seat in the category and one in the price tier for each participant. */
  function RowsOf(parts: seq<Part>): seq<Row>
  {
    if parts == [] then []
    else RowsOf(parts[..|parts| - 1]) + [Category(parts[|parts| - 1].cat), PriceRule(parts[|parts| - 1].rule)]
  }

  function Seats(parts: seq<Part>): multiset<Row> { multiset(RowsOf(parts)) }

  // ---------------------------------------------------------------- counters with clamps

  /** The subtractions of the domain stop at zero. */
  function Clamped(c: Counter, n: int, ch: Change): Counter
  {
    match ch
    case Consume => c.(reserved := Max(0, c.reserved - n), used := c.used + n)
    case Release => c.(reserved := Max(0, c.reserved - n))
    case _ => Apply(c, n, ch)
  }

  function ClampAll(t: Table, d: multiset<Row>, ch: Change): Table
  {
    map r <- t :: if r in d then Clamped(t[r], d[r], ch) else t[r]
  }

  lemma ReserveIsApply(t: Table, d: multiset<Row>)
    ensures ClampAll(t, d, Reserve) == ApplyAll(t, d, Reserve)
  {
  }

  /** On seats that are covered no clamp ever bites. */
  lemma NoClampBites(t: Table, d: multiset<Row>, ch: Change)
    requires Allowed(t, d, ch) && forall r <- t :: t[r].reserved >= 0
    ensures ClampAll(t, d, ch) == ApplyAll(t, d, ch)
  {
  }

  // ---------------------------------------------------------------- what the operations do

  predicate NumberTaken(orders: seq<RunOrder>, orderNo: string)
  {
    orderNo != "" && exists o <- orders :: o.orderNo == orderNo
  }

  function SetParts(parts: seq<Part>, from: PartStatus, to: PartStatus): seq<Part>
  {
    seq(|parts|, i requires 0 <= i < |parts| => if parts[i].reg == from then parts[i].(reg := to) else parts[i])
  }

  ghost function AfterCreate(d: Domain, orderNo: string, open: bool, lines: seq<Line>, deadline: int): (Domain, Outcome)
  {
    var parts := Fresh(lines);
    if NumberTaken(d.orders, orderNo) then (d, Already)
    else if !open || parts == [] || !Allowed(d.table, Seats(parts), Reserve) then (d, Refused)
    else (Domain(ClampAll(d.table, Seats(parts), Reserve),
                 d.orders + [RunOrder(orderNo, parts, PendingPayment, Reserved, deadline)]), Done)
  }

  /** A reservation that ends, with the order and its registrations. */
  function Ended(d: Domain, id: nat, ch: Change, status: Status, reg: PartStatus): Domain
    requires id < |d.orders|
  {
    var o := d.orders[id];
    Domain(ClampAll(d.table, Seats(o.parts), ch),
           d.orders[id := o.(status := status, reservation := To(ch), parts := SetParts(o.parts, Pending, reg))])
  }

  function AfterExpire(d: Domain, id: nat): (Domain, Outcome)
  {
    if id >= |d.orders| then (d, Refused)
    else
      var o := d.orders[id];
      if o.status == Expired then (d, Already)
      else if o.status != PendingPayment || o.reservation == Consumed then (d, Refused)
      else if o.reservation == Released then
        (d.(orders := d.orders[id := o.(status := Expired, parts := SetParts(o.parts, Pending, ExpiredOut))]), Done)
      else (Ended(d, id, Release, Expired, ExpiredOut), Done)
  }

  predicate PastDeadline(o: RunOrder, now: int) { o.status == PendingPayment && o.deadline <= now }

  /** Whatever is due expires before anything else is considered. */
  function AfterConfirm(d: Domain, id: nat, authorised: bool, now: int): (Domain, Outcome)
  {
    if !authorised || id >= |d.orders| then (d, Refused)
    else
      var o := d.orders[id];
      if o.status == Paid then (d, Already)
      else if PastDeadline(o, now) then (AfterExpire(d, id).0, Refused)
      else if o.status != PendingPayment || o.reservation != Reserved then (d, Refused)
      else (Ended(d, id, Consume, Paid, Confirmed), Done)
  }

  function AfterCancel(d: Domain, id: nat, now: int): (Domain, Outcome)
  {
    if id >= |d.orders| then (d, Refused)
    else
      var o := d.orders[id];
      if o.status == Cancelled then (d, Already)
      else if PastDeadline(o, now) then (AfterExpire(d, id).0, Refused)
      else if o.status != PendingPayment || o.reservation != Reserved then (d, Refused)
      else (Ended(d, id, Release, Cancelled, CancelledOut), Done)
  }

  /** The registrations that the expiry cancelled. */
  function Targets(parts: seq<Part>): seq<Part>
  {
    if parts == [] then []
    else Targets(parts[..|parts| - 1]) + if parts[|parts| - 1].reg == ExpiredOut then [parts[|parts| - 1]] else []
  }

  ghost predicate Restorable(d: Domain, id: nat)
  {
    id < |d.orders| && d.orders[id].status == Expired && Targets(d.orders[id].parts) != [] &&
    Allowed(d.table, Seats(Targets(d.orders[id].parts)), Occupy)
  }

  ghost function AfterRestore(d: Domain, id: nat): (Domain, Outcome)
  {
    if !Restorable(d, id) then (d, Refused)
    else
      var o := d.orders[id];
      (Domain(ApplyAll(d.table, Seats(Targets(o.parts)), Occupy),
              d.orders[id := o.(status := Paid, reservation := Consumed,
                                parts := SetParts(o.parts, ExpiredOut, Confirmed))]), Done)
  }

  // ---------------------------------------------------------------- counting and checking

  ghost predicate Counts(need: map<Row, int>, d: multiset<Row>)
  {
    (forall r :: r in need <==> r in d) && forall r <- need :: need[r] == d[r]
  }

  lemma CountNone()
    ensures Counts(map[], multiset{})
  {
  }

  lemma CountOne(need: map<Row, int>, d: multiset<Row>, r: Row)
    requires Counts(need, d)
    ensures Counts(need[r := (if r in need then need[r] else 0) + 1], d + multiset{r})
  {
  }

  lemma LastRows(parts: seq<Part>, i: nat)
    requires i < |parts|
    ensures Seats(parts[..i + 1]) ==
            Seats(parts[..i]) + multiset{Category(parts[i].cat)} + multiset{PriceRule(parts[i].rule)}
    ensures RowsOf(parts[..i + 1]) == RowsOf(parts[..i]) + [Category(parts[i].cat), PriceRule(parts[i].rule)]
  {
    assert parts[..i + 1][..i] == parts[..i];
  }

  class RunDomain {
    var table: Table
    var orders: seq<RunOrder>

    constructor (table: Table)
      ensures Value() == Domain(table, [])
    {
      this.table, orders := table, [];
    }

    ghost function Value(): Domain
      reads this
    {
      Domain(table, orders)
    }

    /** Participants of the same category or tier are counted together. */
    method MergeDemand(parts: seq<Part>) returns (need: map<Row, int>)
      ensures Counts(need, Seats(parts))
    {
      need := map[];
      for i := 0 to |parts|
        invariant Counts(need, Seats(parts[..i]))
      {
        LastRows(parts, i);
        var c, r := Category(parts[i].cat), PriceRule(parts[i].rule);
        CountOne(need, Seats(parts[..i]), c);
        need := need[c := (if c in need then need[c] else 0) + 1];
        CountOne(need, Seats(parts[..i]) + multiset{c}, r);
        need := need[r := (if r in need then need[r] else 0) + 1];
      }
      assert parts[..|parts|] == parts;
    }

    /** The demand of the whole order against what is free. */
    method PlanReservation(parts: seq<Part>) returns (ok: bool, need: map<Row, int>)
      ensures ok <==> Allowed(table, Seats(parts), Reserve)
      ensures Counts(need, Seats(parts))
    {
      need := MergeDemand(parts);
      ok := true;
      var left := need.Keys;
      while left != {}
        invariant left <= need.Keys
        invariant ok <==> forall r | r in need && r !in left :: r in table && Guard(table[r], need[r], Change.Reserve)
        decreases left
      {
        var r :| r in left;
        if r !in table || !Guard(table[r], need[r], Change.Reserve) { ok := false; }
        left := left - {r};
      }
    }

    /** One counter after the other, in whatever order the keys come. */
    method MoveCounters(need: map<Row, int>, ghost d: multiset<Row>, ch: Change)
      requires Counts(need, d) && !ch.Occupy?
      modifies this`table
      ensures table == ClampAll(old(table), d, ch)
    {
      var left := need.Keys;
      while left != {}
        invariant left <= need.Keys && table.Keys == old(table).Keys
        invariant forall r | r in table ::
          table[r] == (if r in need && r !in left then Clamped(old(table)[r], need[r], ch) else old(table)[r])
        decreases left
      {
        var r :| r in left;
        if r in table { table := table[r := Clamped(table[r], need[r], ch)]; }
        left := left - {r};
      }
    }

    method CreateOrder(orderNo: string, open: bool, lines: seq<Line>, deadline: int) returns (out: Outcome)
      modifies this
      ensures (Value(), out) == AfterCreate(old(Value()), orderNo, open, lines, deadline)
    {
      var parts := Fresh(lines);
      if NumberTaken(orders, orderNo) { return Already; }
      if !open || parts == [] { return Refused; }
      var ok, need := PlanReservation(parts);
      if !ok { return Refused; }
      MoveCounters(need, Seats(parts), Change.Reserve);
      orders := orders + [RunOrder(orderNo, parts, PendingPayment, Reserved, deadline)];
      out := Done;
    }

    /** Consume or release the reservation of an order, then write the order. */
    method EndReservation(id: nat, ch: Change, status: Status, reg: PartStatus)
      requires id < |orders| && (ch.Consume? || ch.Release?)
      modifies this
      ensures Value() == Ended(old(Value()), id, ch, status, reg)
    {
      var o := orders[id];
      var _, need := PlanReservation(o.parts);
      MoveCounters(need, Seats(o.parts), ch);
      orders := orders[id := o.(status := status, reservation := To(ch), parts := SetParts(o.parts, Pending, reg))];
    }

    method ExpireOrder(id: nat) returns (out: Outcome)
      modifies this
      ensures (Value(), out) == AfterExpire(old(Value()), id)
    {
      if id >= |orders| { return Refused; }
      var o := orders[id];
      if o.status == Expired { return Already; }
      if o.status != PendingPayment || o.reservation == Consumed { return Refused; }
      if o.reservation == Released {
        orders := orders[id := o.(status := Expired, parts := SetParts(o.parts, Pending, ExpiredOut))];
      } else {
        EndReservation(id, Change.Release, Expired, ExpiredOut);
      }
      out := Done;
    }

    method ConfirmPayment(id: nat, authorised: bool, now: int) returns (out: Outcome)
      modifies this
      ensures (Value(), out) == AfterConfirm(old(Value()), id, authorised, now)
    {
      if !authorised || id >= |orders| { return Refused; }
      if orders[id].status == Paid { return Already; }
      if PastDeadline(orders[id], now) {
        out := ExpireOrder(id);
        return Refused;
      }
      if orders[id].status != PendingPayment || orders[id].reservation != Reserved { return Refused; }
      EndReservation(id, Change.Consume, Paid, Confirmed);
      out := Done;
    }

    method CancelOrder(id: nat, now: int) returns (out: Outcome)
      modifies this
      ensures (Value(), out) == AfterCancel(old(Value()), id, now)
    {
      if id >= |orders| { return Refused; }
      if orders[id].status == Cancelled { return Already; }
      if PastDeadline(orders[id], now) {
        out := ExpireOrder(id);
        return Refused;
      }
      if orders[id].status != PendingPayment || orders[id].reservation != Reserved { return Refused; }
      EndReservation(id, Change.Release, Cancelled, CancelledOut);
      out := Done;
    }

    // -------------------------------------------------------------- restoring an expired order

    /** One more seat of a row, on top of those counted so far. */
    method CountAndCheck(need: map<Row, int>, ghost d: multiset<Row>, r: Row) returns (more: map<Row, int>, fits: bool)
      requires Counts(need, d)
      ensures Counts(more, d + multiset{r})
      ensures Allowed(table, d, Occupy) && fits <==> Allowed(table, d + multiset{r}, Occupy)
    {
      CountOne(need, d, r);
      more := need[r := (if r in need then need[r] else 0) + 1];
      fits := r in table && Guard(table[r], more[r], Change.Occupy);
      OneMore(table, d, r);
    }

    /** Participant by participant, counting those before him: the same answer as the merged demand. */
    method ValidateRestore(parts: seq<Part>) returns (ok: bool)
      ensures ok <==> Allowed(table, Seats(parts), Occupy)
    {
      hide Allowed, Counts;
      ok := true;
      var need: map<Row, int> := map[];
      ApplyNone(table);
      CountNone();
      for i := 0 to |parts|
        invariant Counts(need, Seats(parts[..i]))
        invariant ok <==> Allowed(table, Seats(parts[..i]), Occupy)
      {
        LastRows(parts, i);
        var c, r := Category(parts[i].cat), PriceRule(parts[i].rule);
        var capOk, quotaOk;
        need, capOk := CountAndCheck(need, Seats(parts[..i]), c);
        need, quotaOk := CountAndCheck(need, Seats(parts[..i]) + multiset{c}, r);
        if !capOk || !quotaOk { ok := false; }
      }
      assert parts[..|parts|] == parts;
    }

    /** occupyCapacity and consumeQuota one row after the other; what was written is taken back at the first failure. */
    method OccupyRows(rows: seq<Row>) returns (ok: bool)
      requires forall r <- table :: table[r].used >= 0
      modifies this`table
      ensures ok <==> Allowed(old(table), multiset(rows), Occupy)
      ensures table == if ok then ApplyAll(old(table), multiset(rows), Occupy) else old(table)
    {
      hide Allowed, Room;
      var k := 0;
      ApplyNone(table);
      while k < |rows|
        invariant 0 <= k <= |rows|
        invariant Allowed(old(table), multiset(rows[..k]), Occupy)
        invariant table == ApplyAll(old(table), multiset(rows[..k]), Occupy)
      {
        var r := rows[k];
        assert rows[..k + 1] == rows[..k] + [r];
        OneMore(old(table), multiset(rows[..k]), r);
        if r !in table || !Room(table[r], 1) {
          MoreIsHarder(old(table), rows, k + 1);
          AllowedRows(old(table), rows[..k]);
          TakeBack(old(table), rows[..k]);
          return false;
        }
        table := table[r := Apply(table[r], 1, Change.Occupy)];
        NextApplied(old(table), multiset(rows[..k]), r);
        k := k + 1;
      }
      assert rows[..k] == rows;
      ok := true;
    }

    /** rollbackRestore: one seat less for every write made, never below zero. */
    method TakeBack(ghost start: Table, rows: seq<Row>)
      requires table == ApplyAll(start, multiset(rows), Occupy) && forall r <- start :: start[r].used >= 0
      requires forall r <- rows :: r in table
      modifies this`table
      ensures table == start
    {
      var k := 0;
      assert rows[0..] == rows;
      while k < |rows|
        invariant 0 <= k <= |rows|
        invariant table == ApplyAll(start, multiset(rows[k..]), Occupy)
      {
        var r := rows[k];
        assert rows[k..] == [r] + rows[k + 1..];
        table := table[r := table[r].(used := Max(0, table[r].used - 1))];
        LastApplied(start, multiset(rows[k + 1..]), r);
        k := k + 1;
      }
      ApplyNone(start);
    }

    /** Once the check has passed, no single write can fail: the roll-back is never needed. */
    method Restore(id: nat) returns (out: Outcome)
      requires forall r <- table :: table[r].used >= 0
      modifies this
      ensures (Value(), out) == AfterRestore(old(Value()), id)
    {
      if id >= |orders| || orders[id].status != Expired { return Refused; }
      var o := orders[id];
      var targets := Targets(o.parts);
      if targets == [] { return Refused; }
      var valid := ValidateRestore(targets);
      if !valid { return Refused; }
      var written := OccupyRows(RowsOf(targets));
      assert written;
      orders := orders[id := o.(status := Paid, reservation := Consumed,
                                parts := SetParts(o.parts, ExpiredOut, Confirmed))];
      out := Done;
    }
  }

  /** The guard for one more seat, seen from the start or after the seats before it. */
  lemma OneMore(t: Table, d: multiset<Row>, r: Row)
    ensures Allowed(t, d + multiset{r}, Occupy) <==> Allowed(t, d, Occupy) && r in t && Guard(t[r], d[r] + 1, Occupy)
    ensures r in t ==> (Room(ApplyAll(t, d, Occupy)[r], 1) <==> Guard(t[r], d[r] + 1, Occupy))
  {
  }

  lemma {:induction false} MoreIsHarder(t: Table, rows: seq<Row>, k: nat)
    requires k <= |rows| && !Allowed(t, multiset(rows[..k]), Occupy)
    ensures !Allowed(t, multiset(rows), Occupy)
    decreases |rows| - k
  {
    if k == |rows| {
      assert rows[..k] == rows;
    } else {
      assert rows[..k + 1] == rows[..k] + [rows[k]];
      OneMore(t, multiset(rows[..k]), rows[k]);
      MoreIsHarder(t, rows, k + 1);
    }
  }

  lemma AllowedRows(t: Table, rows: seq<Row>)
    requires Allowed(t, multiset(rows), Occupy)
    ensures forall r <- rows :: r in t
  {
  }

  lemma ApplyNone(t: Table)
    ensures ApplyAll(t, multiset{}, Occupy) == t && Allowed(t, multiset{}, Occupy)
  {
  }

  lemma NextApplied(t: Table, d: multiset<Row>, r: Row)
    requires r in t
    ensures var u := ApplyAll(t, d, Occupy);
            ApplyAll(t, d + multiset{r}, Occupy) == u[r := Apply(u[r], 1, Occupy)]
  {
  }

  lemma LastApplied(t: Table, d: multiset<Row>, r: Row)
    requires r in t && t[r].used >= 0
    ensures var u := ApplyAll(t, multiset{r} + d, Occupy);
            ApplyAll(t, d, Occupy) == u[r := u[r].(used := Max(0, u[r].used - 1))]
  {
  }

  // ---------------------------------------------------------------- what every run keeps

  function RegOf(s: Status): PartStatus
  {
    match s
    case PendingPayment => Pending case Paid => Confirmed case Expired => ExpiredOut case Cancelled => CancelledOut
  }

  function HoldOf(s: Status): HoldState
  {
    match s case PendingPayment => Reserved case Paid => Consumed case _ => Released
  }

  /** Status, reservation and registrations of an order agree. */
  ghost predicate OrderOk(o: RunOrder)
  {
    o.parts != [] && o.reservation == HoldOf(o.status) &&
    forall i | 0 <= i < |o.parts| :: o.parts[i].reg == RegOf(o.status)
  }

  function Holdings(orders: seq<RunOrder>): seq<Holding>
  {
    seq(|orders|, i requires 0 <= i < |orders| => Holding(Seats(orders[i].parts), orders[i].reservation))
  }

  ghost predicate NumbersDistinct(orders: seq<RunOrder>)
  {
    forall i, j | 0 <= i < j < |orders| && orders[i].orderNo != "" :: orders[i].orderNo != orders[j].orderNo
  }

  ghost predicate OrdersOk(orders: seq<RunOrder>)
  {
    (forall i | 0 <= i < |orders| :: OrderOk(orders[i])) && NumbersDistinct(orders)
  }

  ghost predicate Inv(d: Domain, base: map<Row, int>)
  {
    Conserved(d.table, Holdings(d.orders), base) && OrdersOk(d.orders)
  }

  lemma {:induction false} SameRows(parts: seq<Part>, from: PartStatus, to: PartStatus)
    ensures RowsOf(SetParts(parts, from, to)) == RowsOf(parts)
  {
    if parts != [] {
      var front := parts[..|parts| - 1];
      SameRows(front, from, to);
      assert SetParts(parts, from, to)[..|parts| - 1] == SetParts(front, from, to);
    }
  }

  lemma {:induction false} AllAreTargets(parts: seq<Part>)
    requires forall i | 0 <= i < |parts| :: parts[i].reg == ExpiredOut
    ensures Targets(parts) == parts
  {
    if parts != [] { AllAreTargets(parts[..|parts| - 1]); }
  }

  /** An order whose status moves on, with its reservation and registrations. */
  lemma MoveHoldings(orders: seq<RunOrder>, id: nat, o: RunOrder, from: PartStatus, to: PartStatus)
    requires OrdersOk(orders) && id < |orders| && OrderOk(o)
    requires o == orders[id].(status := o.status, reservation := o.reservation,
                              parts := SetParts(orders[id].parts, from, to))
    ensures OrdersOk(orders[id := o])
    ensures Holdings(orders[id := o]) == Holdings(orders)[id := Holdings(orders)[id].(state := o.reservation)]
  {
    hide OrderOk, RowsOf;
    SameRows(orders[id].parts, from, to);
    SameNumbers(orders, id, o);
    hide NumbersDistinct, SetParts;
  }

  lemma SameNumbers(orders: seq<RunOrder>, id: nat, o: RunOrder)
    requires NumbersDistinct(orders) && id < |orders| && o.orderNo == orders[id].orderNo
    ensures NumbersDistinct(orders[id := o])
  {
    var orders' := orders[id := o];
    assert forall i | 0 <= i < |orders'| :: orders'[i].orderNo == orders[i].orderNo;
  }

  /** No clamp ever bites: a reservation that ends was covered to the last seat. */
  lemma EndedKeeps(d: Domain, base: map<Row, int>, id: nat, ch: Change, status: Status, reg: PartStatus)
    requires Inv(d, base) && id < |d.orders| && d.orders[id].status == PendingPayment
    requires (ch.Consume? || ch.Release?) && To(ch) == HoldOf(status) && reg == RegOf(status)
    ensures Allowed(d.table, Seats(d.orders[id].parts), ch)
    ensures Ended(d, id, ch, status, reg).table == ApplyAll(d.table, Seats(d.orders[id].parts), ch)
    ensures Inv(Ended(d, id, ch, status, reg), base)
  {
    hide OrdersOk, Conserved, Allowed, ClampAll, ApplyAll;
    OrderFacts(d, base, id);
    ChangeKeeps(d.table, Holdings(d.orders), base, id, ch);
    ReservedNotNegative(d, base);
    NoClampBites(d.table, Seats(d.orders[id].parts), ch);
    MoveHoldings(d.orders, id, Ended(d, id, ch, status, reg).orders[id], Pending, reg);
  }

  lemma OrderFacts(d: Domain, base: map<Row, int>, id: nat)
    requires Inv(d, base) && id < |d.orders|
    ensures OrderOk(d.orders[id])
  {
  }

  lemma ReservedNotNegative(d: Domain, base: map<Row, int>)
    requires Inv(d, base)
    ensures forall r <- d.table :: d.table[r].reserved >= 0 && d.table[r].used >= 0
  {
  }

  lemma CreateKeeps(d: Domain, base: map<Row, int>, orderNo: string, open: bool, lines: seq<Line>, deadline: int)
    requires Inv(d, base)
    ensures Inv(AfterCreate(d, orderNo, open, lines, deadline).0, base)
  {
    hide Conserved, Allowed, ClampAll, ApplyAll, Seats;
    var parts := Fresh(lines);
    if AfterCreate(d, orderNo, open, lines, deadline).1.Done? {
      ReserveIsApply(d.table, Seats(parts));
      ReserveKeeps(d.table, Holdings(d.orders), base, Seats(parts));
      var o := RunOrder(orderNo, parts, PendingPayment, Reserved, deadline);
      assert Holdings(d.orders + [o]) == Holdings(d.orders) + [Holding(Seats(parts), Reserved)];
      NewNumber(d.orders, o);
    }
  }

  lemma NewNumber(orders: seq<RunOrder>, o: RunOrder)
    requires NumbersDistinct(orders) && !NumberTaken(orders, o.orderNo)
    ensures NumbersDistinct(orders + [o])
  {
  }

  /** The restored seats go straight to `used`; the whole expired order is what comes back. */
  lemma RestoreKeeps(d: Domain, base: map<Row, int>, id: nat)
    requires Inv(d, base)
    ensures Inv(AfterRestore(d, id).0, base)
    ensures AfterRestore(d, id).1.Done? <==>
            id < |d.orders| && d.orders[id].status == Expired && Allowed(d.table, Seats(d.orders[id].parts), Occupy)
  {
    hide OrdersOk, Conserved, Allowed, ApplyAll, Seats, Targets;
    if id < |d.orders| && d.orders[id].status == Expired {
      OrderFacts(d, base, id);
      AllAreTargets(d.orders[id].parts);
      if Restorable(d, id) {
        ChangeKeeps(d.table, Holdings(d.orders), base, id, Occupy);
        MoveHoldings(d.orders, id, AfterRestore(d, id).0.orders[id], ExpiredOut, Confirmed);
      }
    }
  }

  datatype Command =
    | Create(orderNo: string, open: bool, lines: seq<Line>, deadline: int)
    | Confirm(id: nat, authorised: bool, now: int)
    | Expire(id: nat)
    | Cancel(id: nat, now: int)
    | Restore(id: nat)

  ghost function After(d: Domain, c: Command): (Domain, Outcome)
  {
    match c
    case Create(orderNo, open, lines, deadline) => AfterCreate(d, orderNo, open, lines, deadline)
    case Confirm(id, authorised, now) => AfterConfirm(d, id, authorised, now)
    case Expire(id) => AfterExpire(d, id)
    case Cancel(id, now) => AfterCancel(d, id, now)
    case Restore(id) => AfterRestore(d, id)
  }

  lemma ExpireKeeps(d: Domain, base: map<Row, int>, id: nat)
    requires Inv(d, base)
    ensures Inv(AfterExpire(d, id).0, base)
  {
    hide Inv, Ended;
    if id < |d.orders| {
      OrderFacts(d, base, id);
      if d.orders[id].status == PendingPayment { EndedKeeps(d, base, id, Release, Expired, ExpiredOut); }
    }
  }

  lemma StepKeeps(d: Domain, base: map<Row, int>, c: Command)
    requires Inv(d, base)
    ensures Inv(After(d, c).0, base)
  {
    hide Inv, Ended, AfterExpire, AfterCreate, AfterRestore;
    match c
    case Create(orderNo, open, lines, deadline) => CreateKeeps(d, base, orderNo, open, lines, deadline);
    case Confirm(id, _, _) =>
      ExpireKeeps(d, base, id);
      if id < |d.orders| && d.orders[id].status == PendingPayment { EndedKeeps(d, base, id, Consume, Paid, Confirmed); }
    case Expire(id) => ExpireKeeps(d, base, id);
    case Cancel(id, _) =>
      ExpireKeeps(d, base, id);
      if id < |d.orders| && d.orders[id].status == PendingPayment {
        EndedKeeps(d, base, id, Release, Cancelled, CancelledOut);
      }
    case Restore(id) => RestoreKeeps(d, base, id);
  }

  /** The state after a run. */
  ghost function Run(d: Domain, run: seq<Command>): Domain
  {
    if run == [] then d else After(Run(d, run[..|run| - 1]), run[|run| - 1]).0
  }

  /** A ledger to start from: nothing reserved, nobody over his limit; `base` is what is in use already. */
  ghost predicate Opening(t: Table, base: map<Row, int>) { Conserved(t, [], base) }

  lemma {:induction false} RunKeeps(t: Table, base: map<Row, int>, run: seq<Command>)
    requires Opening(t, base)
    ensures Inv(Run(Domain(t, []), run), base)
  {
    if run != [] {
      hide Inv;
      RunKeeps(t, base, run[..|run| - 1]);
      StepKeeps(Run(Domain(t, []), run[..|run| - 1]), base, run[|run| - 1]);
    }
  }

  /** In every reachable state the counters say who holds what, and nothing is oversold -- restored orders included. */
  lemma SeatsAreConserved(t: Table, base: map<Row, int>, run: seq<Command>, r: Row)
    requires Opening(t, base) && r in Run(Domain(t, []), run).table
    ensures var d := Run(Domain(t, []), run);
            var c := d.table[r];
            c.reserved == SumBy(Holdings(d.orders), ReservedBy(r)) &&
            c.used == BaseOf(base, r) + SumBy(Holdings(d.orders), ConsumedBy(r)) && Within(c)
  {
    RunKeeps(t, base, run);
    var d := Run(Domain(t, []), run);
    assert RowConserved(d.table[r], r, Holdings(d.orders), base);
  }

  /** How an order moves: confirmed only before its deadline, and back to life only through a restore. */
  lemma OneArrow(d: Domain, c: Command, id: nat)
    requires id < |d.orders|
    ensures id < |After(d, c).0.orders| && Arrow(d.orders[id], c, After(d, c).0.orders[id].status)
  {
    hide Allowed, ClampAll, ApplyAll, Seats, NumberTaken, Targets;
  }

  ghost predicate Arrow(o: RunOrder, c: Command, to: Status)
  {
    to == o.status ||
    (o.status == PendingPayment && to == Paid && c.Confirm? && c.authorised && c.now < o.deadline) ||
    (o.status == PendingPayment && to == Expired &&
      (c.Expire? || ((c.Confirm? || c.Cancel?) && o.deadline <= c.now))) ||
    (o.status == PendingPayment && to == Cancelled && c.Cancel? && c.now < o.deadline) ||
    (o.status == Expired && to == Paid && c.Restore?)
  }

  // ---------------------------------------------------------------- when an operation is carried out

  ghost function HowMany(parts: seq<Part>, f: Part -> bool): nat
  {
    if parts == [] then 0
    else HowMany(parts[..|parts| - 1], f) + if f(parts[|parts| - 1]) then 1 else 0
  }

  function InCategory(id: int): Part -> bool { (p: Part) => p.cat == id }

  function InTier(id: int): Part -> bool { (p: Part) => p.rule == id }

  lemma SeatsOfLast(parts: seq<Part>, r: Row)
    requires parts != []
    ensures var last := parts[|parts| - 1];
            Seats(parts)[r] ==
            Seats(parts[..|parts| - 1])[r] + (if r == Category(last.cat) then 1 else 0) +
            (if r == PriceRule(last.rule) then 1 else 0)
  {
    var n := |parts| - 1;
    LastRows(parts, n);
    assert parts[..n + 1] == parts;
    hide Seats, RowsOf;
  }

  lemma {:induction false} RowsAre(parts: seq<Part>, id: int)
    ensures Seats(parts)[Category(id)] == HowMany(parts, InCategory(id))
    ensures Seats(parts)[PriceRule(id)] == HowMany(parts, InTier(id)) && Seats(parts)[Coupon(id)] == 0
  {
    if parts != [] {
      hide Seats;
      RowsAre(parts[..|parts| - 1], id);
      SeatsOfLast(parts, Category(id));
      SeatsOfLast(parts, PriceRule(id));
      SeatsOfLast(parts, Coupon(id));
    }
  }

  /** A participant takes one seat of his category and one of his tier, and no coupon. */
  lemma SeatsAre(parts: seq<Part>, id: int)
    ensures Seats(parts)[Category(id)] == HowMany(parts, (p: Part) => p.cat == id)
    ensures Seats(parts)[PriceRule(id)] == HowMany(parts, (p: Part) => p.rule == id)
    ensures Seats(parts)[Coupon(id)] == 0
  {
    RowsAre(parts, id);
  }

  /** As the sums of the orders have it: reserved and used seats, and what was in use before. */
  ghost function SeatsTaken(d: Domain, base: map<Row, int>, r: Row): int
  {
    SumBy(Holdings(d.orders), ReservedBy(r)) + SumBy(Holdings(d.orders), ConsumedBy(r)) + BaseOf(base, r)
  }

  ghost predicate RoomFor(d: Domain, base: map<Row, int>, need: multiset<Row>)
  {
    forall r <- need ::
      r in d.table && d.table[r].active &&
      (d.table[r].limit.Some? ==> SeatsTaken(d, base, r) + need[r] <= d.table[r].limit.value)
  }

  lemma RoomIff(d: Domain, base: map<Row, int>, need: multiset<Row>, ch: Change)
    requires Inv(d, base) && (ch.Reserve? || ch.Occupy?)
    ensures Allowed(d.table, need, ch) <==> RoomFor(d, base, need)
  {
    forall r | r in d.table ensures d.table[r].used + d.table[r].reserved == SeatsTaken(d, base, r) {
      assert RowConserved(d.table[r], r, Holdings(d.orders), base);
    }
  }

  /** An order is placed exactly for somebody, while registration is open and all its seats fit together. */
  lemma CreateIff(d: Domain, base: map<Row, int>, orderNo: string, open: bool, lines: seq<Line>, deadline: int)
    requires Inv(d, base)
    ensures var (d', out) := AfterCreate(d, orderNo, open, lines, deadline);
            (out.Already? <==> orderNo != "" && exists i :: 0 <= i < |d.orders| && d.orders[i].orderNo == orderNo) &&
            (out.Done? <==>
              !out.Already? && open && lines != [] && RoomFor(d, base, Seats(Fresh(lines)))) &&
            (!out.Done? ==> d' == d)
  {
    hide Seats, ClampAll, Inv;
    RoomIff(d, base, Seats(Fresh(lines)), Reserve);
    assert forall i | 0 <= i < |d.orders| :: d.orders[i] in d.orders;
  }

  /** The order waits for its money with all its participants. */
  lemma PlacedAs(d: Domain, orderNo: string, open: bool, lines: seq<Line>, deadline: int)
    requires AfterCreate(d, orderNo, open, lines, deadline).1.Done?
    ensures var d' := AfterCreate(d, orderNo, open, lines, deadline).0;
            |d'.orders| == |d.orders| + 1 && d'.orders[..|d.orders|] == d.orders &&
            var o := d'.orders[|d.orders|];
            o.orderNo == orderNo && o.deadline == deadline && o.status.PendingPayment? && |o.parts| == |lines| &&
            forall i | 0 <= i < |lines| :: o.parts[i] == Part(lines[i].cat, lines[i].rule, Pending)
  {
    hide Allowed, ClampAll, Seats, NumberTaken;
  }

  ghost predicate Waits(d: Domain, id: nat) { id < |d.orders| && d.orders[id].status.PendingPayment? }

  /** What became of order id, with reservation and registrations to match, and of the others nothing. */
  ghost predicate Became(d: Domain, d': Domain, id: nat, status: Status)
  {
    id < |d.orders| == |d'.orders| && d'.orders[id].status == status && OrderOk(d'.orders[id]) &&
    d'.orders[id].deadline == d.orders[id].deadline && d'.orders[id].orderNo == d.orders[id].orderNo &&
    forall k | 0 <= k < |d.orders| && k != id :: d'.orders[k] == d.orders[k]
  }

  lemma EndedAs(d: Domain, base: map<Row, int>, id: nat, ch: Change, status: Status, reg: PartStatus)
    requires Inv(d, base) && Waits(d, id) && reg == RegOf(status) && To(ch) == HoldOf(status)
    ensures Became(d, Ended(d, id, ch, status, reg), id, status)
  {
    hide Conserved, Allowed, ClampAll, Seats;
    OrderFacts(d, base, id);
  }

  /** Only a waiting order expires. */
  lemma ExpireIff(d: Domain, base: map<Row, int>, id: nat)
    requires Inv(d, base)
    ensures var (d', out) := AfterExpire(d, id);
            (out.Done? <==> Waits(d, id)) && (out.Done? ==> Became(d, d', id, Expired)) &&
            (out.Already? <==> id < |d.orders| && d.orders[id].status.Expired?) && (!out.Done? ==> d' == d)
  {
    hide Inv, Ended, Became;
    if id < |d.orders| { OrderFacts(d, base, id); }
    if Waits(d, id) { EndedAs(d, base, id, Release, Expired, ExpiredOut); }
  }

  /** A waiting order is paid exactly with authority and before its deadline; from then on money makes it expire. */
  lemma ConfirmIff(d: Domain, base: map<Row, int>, id: nat, authorised: bool, now: int)
    requires Inv(d, base)
    ensures var (d', out) := AfterConfirm(d, id, authorised, now);
            (out.Done? <==> authorised && Waits(d, id) && now < d.orders[id].deadline) &&
            (out.Already? <==> authorised && id < |d.orders| && d.orders[id].status.Paid?) &&
            (out.Done? ==> Became(d, d', id, Paid)) &&
            (authorised && Waits(d, id) && d.orders[id].deadline <= now ==> Became(d, d', id, Expired)) &&
            (!out.Done? && !(authorised && Waits(d, id)) ==> d' == d)
  {
    hide Inv, Ended, Became, AfterExpire;
    ExpireIff(d, base, id);
    if id < |d.orders| { OrderFacts(d, base, id); }
    if Waits(d, id) { EndedAs(d, base, id, Consume, Paid, Confirmed); }
  }

  /** A waiting order is cancelled exactly before its deadline; from then on it expires instead. */
  lemma CancelIff(d: Domain, base: map<Row, int>, id: nat, now: int)
    requires Inv(d, base)
    ensures var (d', out) := AfterCancel(d, id, now);
            (out.Done? <==> Waits(d, id) && now < d.orders[id].deadline) &&
            (out.Already? <==> id < |d.orders| && d.orders[id].status.Cancelled?) &&
            (out.Done? ==> Became(d, d', id, Cancelled)) &&
            (Waits(d, id) && d.orders[id].deadline <= now ==> Became(d, d', id, Expired)) &&
            (!out.Done? && !Waits(d, id) ==> d' == d)
  {
    hide Inv, Ended, Became, AfterExpire;
    ExpireIff(d, base, id);
    if id < |d.orders| { OrderFacts(d, base, id); }
    if Waits(d, id) { EndedAs(d, base, id, Release, Cancelled, CancelledOut); }
  }

  /** An expired order comes back exactly when all its seats fit again, and then it is paid, with everybody. */
  lemma RestoreIff(d: Domain, base: map<Row, int>, id: nat)
    requires Inv(d, base)
    ensures var (d', out) := AfterRestore(d, id);
            (out.Done? <==>
              id < |d.orders| && d.orders[id].status.Expired? && RoomFor(d, base, Seats(d.orders[id].parts))) &&
            (out.Done? ==> Became(d, d', id, Paid)) && (!out.Done? ==> d' == d)
  {
    hide Inv, Allowed, ApplyAll, Seats, RoomFor, Targets;
    RestoreKeeps(d, base, id);
    if id < |d.orders| {
      RoomIff(d, base, Seats(d.orders[id].parts), Occupy);
      OrderFacts(d, base, id);
    }
  }
}
