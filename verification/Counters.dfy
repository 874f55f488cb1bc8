/**
  The pricing service's counter updates: reserving, consuming and releasing an order's seats row by row.
*/
module Counters {
  import opened Common
  import opened Ledger
  import opened Sorting

  /** `seats` of one row, as merged over the participants of an order. */
  datatype Need = Need(row: Row, seats: int)

  datatype ReserveError = CategorySoldOut | PriceTierSoldOut | CouponExhausted

  datatype Redemption = Redemption(couponId: int, discountCents: int, state: HoldState)

  function CategoryRows(ids: seq<int>): seq<Row> { seq(|ids|, i requires 0 <= i < |ids| => Category(ids[i])) }

  function RuleRows(ids: seq<int>): seq<Row> { seq(|ids|, i requires 0 <= i < |ids| => PriceRule(ids[i])) }

  function CouponRows(coupon: Option<int>): seq<Row> { if coupon.Some? then [Coupon(coupon.value)] else [] }

  /** All the seats an order takes: one per participant in his category and his tier, and one coupon use. */
  function SeatsOf(categories: seq<int>, rules: seq<int>, coupon: Option<int>): multiset<Row>
  {
    multiset(CategoryRows(categories)) + multiset(RuleRows(rules)) + multiset(CouponRows(coupon))
  }

  // ---------------------------------------------------------------- merging per row

  ghost predicate Distinct(ns: seq<Need>)
  {
    (forall i | 0 <= i < |ns| :: ns[i].seats > 0) &&
    (forall i, j | 0 <= i < j < |ns| :: ns[i].row != ns[j].row)
  }

  ghost predicate Ascending(ns: seq<Need>)
  {
    forall i, j | 0 <= i < j < |ns| :: ns[i].row.id < ns[j].row.id
  }

  ghost function Bag(ns: seq<Need>): multiset<Row>
  {
    if ns == [] then multiset{}
    else Bag(ns[..|ns| - 1])[ns[|ns| - 1].row := Max(ns[|ns| - 1].seats, 0)]
  }

  lemma {:induction false} BagCounts(ns: seq<Need>)
    requires Distinct(ns)
    ensures forall i | 0 <= i < |ns| :: Bag(ns)[ns[i].row] == ns[i].seats
    ensures forall r <- Bag(ns) :: exists i | 0 <= i < |ns| :: ns[i].row == r
  {
    if ns != [] {
      var n := |ns| - 1;
      BagCounts(ns[..n]);
      forall r <- Bag(ns) ensures exists i | 0 <= i < |ns| :: ns[i].row == r {
        if r == ns[n].row {
          assert ns[n].row == r;
        } else {
          var i :| 0 <= i < |ns[..n]| && ns[..n][i].row == r;
          assert ns[i].row == r;
        }
      }
    }
  }

  /** The merged list is exactly the multiset of the participants' rows. */
  lemma BagIs(ns: seq<Need>, d: multiset<Row>)
    requires Distinct(ns) && forall i | 0 <= i < |ns| :: ns[i].seats == d[ns[i].row] > 0
    requires forall r <- d :: exists i | 0 <= i < |ns| :: ns[i].row == r
    ensures Bag(ns) == d
  {
    BagCounts(ns);
    forall r ensures Bag(ns)[r] == d[r] {
      if r in Bag(ns) || r in d {
        var i :| 0 <= i < |ns| && ns[i].row == r;
      }
    }
  }

  predicate LowerId(a: Need, b: Need) { a.row.id < b.row.id }

  /** The library sort by ascending id. */
  function SortById(ns: seq<Need>): seq<Need> { SortBy(ns, LowerId) }

  lemma SortByIdSorts(ns: seq<Need>)
    requires forall i, j | 0 <= i < j < |ns| :: ns[i].row.id != ns[j].row.id
    ensures Ascending(SortById(ns)) && multiset(SortById(ns)) == multiset(ns)
  {
    SortByKeeps(ns, LowerId);
    SortBySorts(ns, LowerId, LowerId);
    assert InOrder(SortById(ns), LowerId);
  }

  ghost predicate OneKind(keys: seq<Row>)
  {
    (forall k <- keys :: k.Category?) || (forall k <- keys :: k.PriceRule?) || (forall k <- keys :: k.Coupon?)
  }

  /** Counts the participants per row and lists the rows by ascending id, the order in which they are updated. */
  method GroupSeats(keys: seq<Row>) returns (out: seq<Need>)
    requires OneKind(keys)
    ensures Ascending(out) && Distinct(out) && Bag(out) == multiset(keys)
  {
    var counts: map<Row, int> := map[];
    for i := 0 to |keys|
      invariant forall k :: k in counts <==> k in multiset(keys[..i])
      invariant forall k <- counts :: counts[k] == multiset(keys[..i])[k]
    {
      assert keys[..i + 1] == keys[..i] + [keys[i]];
      counts := counts[keys[i] := (if keys[i] in counts then counts[keys[i]] else 0) + 1];
    }
    assert keys[..|keys|] == keys;
    var listed := ListEntries(counts);
    forall i, j | 0 <= i < j < |listed| ensures listed[i].row.id != listed[j].row.id {
      assert listed[i].row in multiset(keys) && listed[j].row in multiset(keys);
      assert listed[i].row in keys && listed[j].row in keys;
    }
    out := SortById(listed);
    SortByIdSorts(listed);
    SortedBag(listed, out, multiset(keys));
  }

  /** The entries of the count map, in whatever order the map yields them. */
  method ListEntries(counts: map<Row, int>) returns (listed: seq<Need>)
    ensures forall i | 0 <= i < |listed| :: listed[i].row in counts && listed[i].seats == counts[listed[i].row]
    ensures forall i, j | 0 <= i < j < |listed| :: listed[i].row != listed[j].row
    ensures forall k <- counts :: Need(k, counts[k]) in listed
  {
    var left := counts.Keys;
    listed := [];
    while left != {}
      invariant left <= counts.Keys
      invariant forall i | 0 <= i < |listed| ::
        listed[i].row in counts && listed[i].row !in left && listed[i].seats == counts[listed[i].row]
      invariant forall k <- counts :: k in left || Need(k, counts[k]) in listed
      invariant forall i, j | 0 <= i < j < |listed| :: listed[i].row != listed[j].row
      decreases left
    {
      var k :| k in left;
      listed := listed + [Need(k, counts[k])];
      left := left - {k};
    }
  }

  lemma SortedBag(listed: seq<Need>, out: seq<Need>, d: multiset<Row>)
    requires multiset(listed) == multiset(out) && Ascending(out)
    requires forall i | 0 <= i < |listed| :: listed[i].seats == d[listed[i].row] > 0
    requires forall r <- d :: Need(r, d[r]) in listed
    ensures Distinct(out) && Bag(out) == d
  {
    forall i | 0 <= i < |out| ensures out[i].seats == d[out[i].row] > 0 {
      assert out[i] in multiset(out);
      assert out[i] in listed;
    }
    forall r <- d ensures exists i | 0 <= i < |out| :: out[i].row == r {
      assert Need(r, d[r]) in multiset(listed);
      assert Need(r, d[r]) in out;
    }
    BagIs(out, d);
  }

  // ---------------------------------------------------------------- rows and the whole

  ghost predicate RowsAllowed(t: Table, ns: seq<Need>, ch: Change)
  {
    forall i | 0 <= i < |ns| :: ns[i].row in t && Guard(t[ns[i].row], ns[i].seats, ch)
  }

  /** Row by row and as a whole are the same question. */
  lemma RowsAreBag(t: Table, ns: seq<Need>, ch: Change)
    requires Distinct(ns)
    ensures RowsAllowed(t, ns, ch) <==> Allowed(t, Bag(ns), ch)
  {
    BagCounts(ns);
    assert forall i | 0 <= i < |ns| :: ns[i].row in Bag(ns);
  }

  /** The updates one after the other. */
  ghost function Fold(t: Table, ns: seq<Need>, ch: Change): Table
  {
    if ns == [] then t
    else
      var u, n := Fold(t, ns[..|ns| - 1], ch), ns[|ns| - 1];
      if n.row in u then u[n.row := Apply(u[n.row], n.seats, ch)] else u
  }

  lemma {:induction false} FoldAt(t: Table, ns: seq<Need>, ch: Change, r: Row)
    requires Distinct(ns)
    ensures Fold(t, ns, ch).Keys == t.Keys
    ensures r in t ==> Fold(t, ns, ch)[r] == Apply(t[r], Bag(ns)[r], ch)
  {
    if ns != [] {
      var k := |ns| - 1;
      FoldAt(t, ns[..k], ch, r);
      BagMisses(ns, k);
    }
  }

  lemma BagMisses(ns: seq<Need>, k: nat)
    requires Distinct(ns) && k < |ns|
    ensures Bag(ns[..k])[ns[k].row] == 0
  {
    BagCounts(ns[..k]);
    assert ns[k].row in Bag(ns[..k]) <==> Bag(ns[..k])[ns[k].row] > 0;
  }

  lemma FoldIsApplyAll(t: Table, ns: seq<Need>, ch: Change)
    requires Distinct(ns)
    ensures Fold(t, ns, ch) == ApplyAll(t, Bag(ns), ch)
  {
    assert Fold(t, ns, ch).Keys == t.Keys by {
      FoldAt(t, ns, ch, Category(0));
    }
    forall r <- t ensures Fold(t, ns, ch)[r] == Apply(t[r], Bag(ns)[r], ch) {
      FoldAt(t, ns, ch, r);
    }
  }

  /** A row that is still to come has not been touched. */
  lemma NotYet(t: Table, ns: seq<Need>, k: nat, ch: Change)
    requires Distinct(ns) && k < |ns|
    ensures ns[k].row in t <==> ns[k].row in Fold(t, ns[..k], ch)
    ensures ns[k].row in t ==> Fold(t, ns[..k], ch)[ns[k].row] == t[ns[k].row]
  {
    FoldAt(t, ns[..k], ch, ns[k].row);
    BagMisses(ns, k);
  }

  ghost predicate Disjoint(a: multiset<Row>, b: multiset<Row>)
  {
    forall r :: r in a ==> r !in b
  }

  lemma ApplyInParts(t: Table, a: multiset<Row>, b: multiset<Row>, ch: Change)
    requires Disjoint(a, b)
    ensures ApplyAll(ApplyAll(t, a, ch), b, ch) == ApplyAll(t, a + b, ch)
    ensures Allowed(ApplyAll(t, a, ch), b, ch) <==> Allowed(t, b, ch)
  {
    forall r | r in a ensures b[r] == 0 {
      assert r in b <==> b[r] > 0;
    }
    forall r <- t ensures ApplyAll(ApplyAll(t, a, ch), b, ch)[r] == ApplyAll(t, a + b, ch)[r] {
      assert r in a <==> a[r] > 0;
    }
  }

  lemma AllowedInParts(t: Table, a: multiset<Row>, b: multiset<Row>, ch: Change)
    requires Disjoint(a, b)
    ensures Allowed(t, a + b, ch) <==> Allowed(t, a, ch) && Allowed(t, b, ch)
  {
  }

  /** Updating categories, then tiers, then the coupon is updating the order's seats as a whole. */
  lemma ThreeKinds(t: Table, categories: seq<int>, rules: seq<int>, coupon: Option<int>, ch: Change)
    ensures OneKind(CategoryRows(categories)) && OneKind(RuleRows(rules)) && OneKind(CouponRows(coupon))
    ensures var cs, rs := multiset(CategoryRows(categories)), multiset(RuleRows(rules));
            var us := multiset(CouponRows(coupon));
            var t1 := ApplyAll(t, cs, ch);
            var t2 := ApplyAll(t1, rs, ch);
            var d := SeatsOf(categories, rules, coupon);
            ApplyAll(t, d, ch) == ApplyAll(t2, us, ch) &&
            (Allowed(t, d, ch) <==> Allowed(t, cs, ch) && Allowed(t1, rs, ch) && Allowed(t2, us, ch)) &&
            (Allowed(t1, rs, ch) <==> Allowed(t, rs, ch)) &&
            (coupon.None? ==> Allowed(t2, us, ch) && ApplyAll(t2, us, ch) == t2)
  {
    forall r | r in multiset(CategoryRows(categories)) ensures r.Category? { assert r in CategoryRows(categories); }
    forall r | r in multiset(RuleRows(rules)) ensures r.PriceRule? { assert r in RuleRows(rules); }
    forall r | r in multiset(CouponRows(coupon)) ensures r.Coupon? { assert r in CouponRows(coupon); }
    var cs, rs, us := multiset(CategoryRows(categories)), multiset(RuleRows(rules)), multiset(CouponRows(coupon));
    ApplyInParts(t, cs, rs, ch);
    ApplyInParts(t, cs + rs, us, ch);
    AllowedInParts(t, cs, rs, ch);
    AllowedInParts(t, cs + rs, us, ch);
    if coupon.None? { ApplyNothing(ApplyAll(t, cs + rs, ch), us, ch); }
  }

  lemma AllowedByKind(t: Table, categories: seq<int>, rules: seq<int>, coupon: Option<int>, ch: Change)
    ensures Allowed(t, SeatsOf(categories, rules, coupon), ch) <==>
            Allowed(t, multiset(CategoryRows(categories)), ch) && Allowed(t, multiset(RuleRows(rules)), ch) &&
            Allowed(t, multiset(CouponRows(coupon)), ch)
  {
    forall r | r in multiset(CategoryRows(categories)) ensures r.Category? { assert r in CategoryRows(categories); }
    forall r | r in multiset(RuleRows(rules)) ensures r.PriceRule? { assert r in RuleRows(rules); }
    forall r | r in multiset(CouponRows(coupon)) ensures r.Coupon? { assert r in CouponRows(coupon); }
    var cs, rs, us := multiset(CategoryRows(categories)), multiset(RuleRows(rules)), multiset(CouponRows(coupon));
    AllowedInParts(t, cs, rs, ch);
    AllowedInParts(t, cs + rs, us, ch);
  }

  lemma ApplyNothing(t: Table, d: multiset<Row>, ch: Change)
    requires d == multiset{}
    ensures Allowed(t, d, ch) && ApplyAll(t, d, ch) == t
  {
  }

  // ---------------------------------------------------------------- the store

  class PricingStore {
    var table: Table
    var redemptions: map<nat, Redemption>

    constructor (t: Table)
      ensures table == t && redemptions == map[]
    {
      table, redemptions := t, map[];
    }

    /** One conditional UPDATE per merged row, by ascending id; stops at the first that affects no row. */
    method UpdateRows(ns: seq<Need>, ch: Change) returns (ok: bool)
      requires Distinct(ns)
      modifies this`table
      ensures ok <==> RowsAllowed(old(table), ns, ch)
      ensures ok ==> table == Fold(old(table), ns, ch)
    {
      var k := 0;
      while k < |ns|
        invariant 0 <= k <= |ns|
        invariant table == Fold(old(table), ns[..k], ch)
        invariant RowsAllowed(old(table), ns[..k], ch)
      {
        var n := ns[k];
        NotYet(old(table), ns, k, ch);
        if n.row !in table || !Guard(table[n.row], n.seats, ch) { return false; }
        table := table[n.row := Apply(table[n.row], n.seats, ch)];
        assert ns[..k + 1][..k] == ns[..k];
        k := k + 1;
      }
      assert ns[..k] == ns;
      ok := true;
    }

    /** The rows of one kind, merged and updated. */
    method UpdateKind(keys: seq<Row>, ch: Change) returns (ok: bool)
      requires OneKind(keys)
      modifies this`table
      ensures ok <==> Allowed(old(table), multiset(keys), ch)
      ensures ok ==> table == ApplyAll(old(table), multiset(keys), ch)
    {
      var ns := GroupSeats(keys);
      RowsAreBag(table, ns, ch);
      FoldIsApplyAll(table, ns, ch);
      ok := UpdateRows(ns, ch);
    }

    /** Reserves categories, then tiers, then the coupon; on an error the caller rolls the transaction back. */
    method Reserve(categories: seq<int>, rules: seq<int>, coupon: Option<int>) returns (err: Option<ReserveError>)
      modifies this`table
      ensures err.None? <==> Allowed(old(table), SeatsOf(categories, rules, coupon), Change.Reserve)
      ensures err.None? ==> table == ApplyAll(old(table), SeatsOf(categories, rules, coupon), Change.Reserve)
      ensures err == Some(CategorySoldOut) <==>
              !Allowed(old(table), multiset(CategoryRows(categories)), Change.Reserve)
      ensures err == Some(PriceTierSoldOut) <==>
              Allowed(old(table), multiset(CategoryRows(categories)), Change.Reserve) &&
              !Allowed(old(table), multiset(RuleRows(rules)), Change.Reserve)
    {
      ThreeKinds(table, categories, rules, coupon, Change.Reserve);
      var ok := UpdateKind(CategoryRows(categories), Change.Reserve);
      if !ok { return Some(CategorySoldOut); }
      ok := UpdateKind(RuleRows(rules), Change.Reserve);
      if !ok { return Some(PriceTierSoldOut); }
      if coupon.Some? {
        ok := UpdateKind(CouponRows(coupon), Change.Reserve);
        if !ok { return Some(CouponExhausted); }
      }
      err := None;
    }

    /** Records the coupon use of a freshly written order; without a coupon it does nothing. */
    method RecordRedemption(orderId: nat, coupon: Option<int>, discountCents: int)
      modifies this`redemptions
      ensures redemptions ==
              if coupon.Some? then old(redemptions)[orderId := Redemption(coupon.value, discountCents, Reserved)]
              else old(redemptions)
    {
      if coupon.Some? {
        redemptions := redemptions[orderId := Redemption(coupon.value, discountCents, Reserved)];
      }
    }

    /** Consume and Release: categories, tiers, then the redemption and its coupon row. */
    method Move(orderId: nat, categories: seq<int>, rules: seq<int>, ch: Change) returns (ok: bool)
      requires ch.Consume? || ch.Release?
      modifies this
      ensures var d := SeatsOf(categories, rules, OpenCoupon(old(redemptions), orderId));
              (ok <==> Allowed(old(table), d, ch)) && (ok ==> table == ApplyAll(old(table), d, ch))
      ensures ok ==> redemptions == MarkRedemption(old(redemptions), orderId, To(ch))
    {
      hide Allowed, ApplyAll, SeatsOf, OneKind;
      var coupon := OpenCoupon(redemptions, orderId);
      ThreeKinds(table, categories, rules, coupon, ch);
      ok := UpdateKind(CategoryRows(categories), ch);
      if !ok { return; }
      ok := UpdateKind(RuleRows(rules), ch);
      if !ok || coupon.None? { return; }
      redemptions := redemptions[orderId := redemptions[orderId].(state := To(ch))];
      ok := UpdateKind(CouponRows(coupon), ch);
    }
  }

  /** The coupon use that an order still holds. */
  function OpenCoupon(redemptions: map<nat, Redemption>, orderId: nat): Option<int>
  {
    if orderId in redemptions && redemptions[orderId].state == Reserved
    then Some(redemptions[orderId].couponId) else None
  }

  function MarkRedemption(redemptions: map<nat, Redemption>, orderId: nat, state: HoldState): map<nat, Redemption>
  {
    if OpenCoupon(redemptions, orderId).Some? then redemptions[orderId := redemptions[orderId].(state := state)]
    else redemptions
  }
}
