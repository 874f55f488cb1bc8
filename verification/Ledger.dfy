/**
  The seat ledger: counter rows for categories, price tiers and coupons, the orders that hold seats in them,
  and the conservation law that ties the two together.
*/
module Ledger {
  import opened Common

  datatype Row = Category(id: int) | PriceRule(id: int) | Coupon(id: int)

  /** `active` is the coupon status; category and price-tier rows are always active. */
  datatype Counter = Counter(limit: Option<int>, used: int, reserved: int, active: bool)

  type Table = map<Row, Counter>

  /** The four conditional UPDATEs on a counter row. */
  datatype Change =
    | Reserve   // reserved += n, if it still fits
    | Consume   // reserved -= n and used += n, if that much is reserved
    | Release   // reserved -= n, if that much is reserved
    | Occupy    // used += n, if it still fits

  predicate Room(c: Counter, n: int)
  {
    c.active && (c.limit.Some? ==> c.used + c.reserved + n <= c.limit.value)
  }

  predicate Guard(c: Counter, n: int, ch: Change)
  {
    if ch.Reserve? || ch.Occupy? then Room(c, n) else c.reserved >= n
  }

  function Apply(c: Counter, n: int, ch: Change): Counter
  {
    match ch
    case Reserve => c.(reserved := c.reserved + n)
    case Consume => c.(reserved := c.reserved - n, used := c.used + n)
    case Release => c.(reserved := c.reserved - n)
    case Occupy => c.(used := c.used + n)
  }

  /** Every row of the demand exists and passes the guard. */
  ghost predicate Allowed(t: Table, d: multiset<Row>, ch: Change)
  {
    forall r <- d :: r in t && Guard(t[r], d[r], ch)
  }

  /** The whole demand at once: the declarative meaning of the row-by-row updates. */
  function ApplyAll(t: Table, d: multiset<Row>, ch: Change): Table
  {
    map r <- t :: Apply(t[r], d[r], ch)
  }

  // ---------------------------------------------------------------- who holds the seats

  datatype HoldState = Reserved | Consumed | Released

  /** One order's claim on the counters. */
  datatype Holding = Holding(seats: multiset<Row>, state: HoldState)

  function ReservedBy(r: Row): Holding -> int
  {
    (h: Holding) => if h.state == Reserved then h.seats[r] else 0
  }

  function ConsumedBy(r: Row): Holding -> int
  {
    (h: Holding) => if h.state == Consumed then h.seats[r] else 0
  }

  function BaseOf(base: map<Row, int>, r: Row): int { if r in base then base[r] else 0 }

  ghost predicate Within(c: Counter)
  {
    c.used >= 0 && c.reserved >= 0 && (c.limit.Some? ==> c.used + c.reserved <= c.limit.value)
  }

  /** `reserved` and `used` of a row say exactly who holds its seats; `base` is what was in use before. */
  ghost predicate RowConserved(c: Counter, r: Row, hs: seq<Holding>, base: map<Row, int>)
  {
    c.reserved == SumBy(hs, ReservedBy(r)) &&
    c.used == BaseOf(base, r) + SumBy(hs, ConsumedBy(r)) &&
    Within(c) && (!r.Coupon? ==> c.active)
  }

  ghost predicate Conserved(t: Table, hs: seq<Holding>, base: map<Row, int>)
  {
    (forall r <- t :: RowConserved(t[r], r, hs, base)) &&
    (forall i, r | 0 <= i < |hs| && r in hs[i].seats :: r in t)
  }

  /** Taking seats that fit keeps the books, whatever the order. */
  lemma ReserveKeeps(t: Table, hs: seq<Holding>, base: map<Row, int>, d: multiset<Row>)
    requires Conserved(t, hs, base) && Allowed(t, d, Reserve)
    ensures Conserved(ApplyAll(t, d, Reserve), hs + [Holding(d, Reserved)], base)
  {
  }

  /** The "fewer than reserved" errors cannot happen: a reserved claim is always covered. */
  lemma ReservedIsCovered(t: Table, hs: seq<Holding>, base: map<Row, int>, i: nat, ch: Change)
    requires Conserved(t, hs, base) && i < |hs| && hs[i].state == Reserved
    requires ch.Consume? || ch.Release?
    ensures Allowed(t, hs[i].seats, ch)
  {
    forall r <- hs[i].seats ensures r in t && t[r].reserved >= hs[i].seats[r] {
      assert RowConserved(t[r], r, hs, base);
      SumByNonNegative(hs, ReservedBy(r));
      assert ReservedBy(r)(hs[i]) <= SumBy(hs, ReservedBy(r));
    }
  }

  /** Where an order's claim has to be for a change, and where it goes. */
  function From(ch: Change): HoldState { if ch.Occupy? then Released else Reserved }

  function To(ch: Change): HoldState { if ch.Release? then Released else if ch.Reserve? then Reserved else Consumed }

  /**
    Moving one order's whole claim -- confirming it, releasing it, or restoring a released one -- keeps the books.
    Only the restore needs room; the other two can never fail.
  */
  lemma ChangeKeeps(t: Table, hs: seq<Holding>, base: map<Row, int>, i: nat, ch: Change)
    requires Conserved(t, hs, base) && i < |hs| && !ch.Reserve? && hs[i].state == From(ch)
    requires ch.Occupy? ==> Allowed(t, hs[i].seats, ch)
    ensures Allowed(t, hs[i].seats, ch)
    ensures Conserved(ApplyAll(t, hs[i].seats, ch), hs[i := hs[i].(state := To(ch))], base)
  {
    if !ch.Occupy? { ReservedIsCovered(t, hs, base, i, ch); }
    var t', hs' := ApplyAll(t, hs[i].seats, ch), hs[i := hs[i].(state := To(ch))];
    forall r <- t ensures RowConserved(t'[r], r, hs', base) {
      assert RowConserved(t[r], r, hs, base);
      SumByUpdate(hs, i, hs[i].(state := To(ch)), ReservedBy(r));
      SumByUpdate(hs, i, hs[i].(state := To(ch)), ConsumedBy(r));
    }
    assert forall k | 0 <= k < |hs'| :: hs'[k].seats == hs[k].seats;
  }

  /** Seats taken outside any order (free sign-ups) count towards the base. */
  lemma DirectUseKeeps(t: Table, hs: seq<Holding>, base: map<Row, int>, r: Row)
    requires Conserved(t, hs, base) && Allowed(t, multiset{r}, Occupy)
    ensures Conserved(ApplyAll(t, multiset{r}, Occupy), hs, base[r := BaseOf(base, r) + 1])
  {
    assert r in multiset{r};
    forall q <- t ensures RowConserved(ApplyAll(t, multiset{r}, Occupy)[q], q, hs, base[r := BaseOf(base, r) + 1]) {
      assert RowConserved(t[q], q, hs, base);
      assert q in multiset{r} ==> q == r;
    }
  }
}
