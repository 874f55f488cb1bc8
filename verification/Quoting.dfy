/**
  Pricing an order: tier selection with in-order quota use, coupon discount, the identifying cents,
  and the split of the discount over the participants.
*/
module Quoting {
  import opened Common
  import opened Ledger
  import Counters
  import Allocation

  const IDENT_OFFSET_CAP_CENTS := 50

  datatype Audience = All | Local | UnknownAudience

  datatype Tier = Tier(ruleId: int, audience: Audience, price: int, quota: Option<int>, used: int, reserved: int,
                       startsAt: Option<int>, endsAt: Option<int>, sortOrder: int)

  // ---------------------------------------------------------------- tier selection

  /** Audience, sale window and quota, the quota counting what this order has already taken. */
  predicate Eligible(c: Tier, local: bool, now: int, taken: multiset<int>)
  {
    (c.audience.All? || (c.audience.Local? && local)) &&
    (c.startsAt.Some? ==> c.startsAt.value <= now) &&
    (c.endsAt.Some? ==> c.endsAt.value > now) &&
    (c.quota.Some? ==> c.used + c.reserved + taken[c.ruleId] < c.quota.value)
  }

  predicate TierLess(a: Tier, b: Tier)
  {
    if a.price != b.price then a.price < b.price
    else if a.sortOrder != b.sortOrder then a.sortOrder < b.sortOrder
    else a.ruleId < b.ruleId
  }

  /** The cheapest eligible candidate, ties by sort order and then id; None when nothing is eligible. */
  ghost predicate IsBest(cands: seq<Tier>, local: bool, now: int, taken: multiset<int>, best: Option<Tier>)
  {
    if best.Some? then
      best.value in cands && Eligible(best.value, local, now, taken) &&
      forall c <- cands | Eligible(c, local, now, taken) :: !TierLess(c, best.value)
    else
      forall c <- cands :: !Eligible(c, local, now, taken)
  }

  method SelectTier(cands: seq<Tier>, local: bool, now: int, taken: multiset<int>) returns (best: Option<Tier>)
    ensures IsBest(cands, local, now, taken, best)
  {
    best := None;
    for i := 0 to |cands|
      invariant IsBest(cands[..i], local, now, taken, best)
    {
      var c := cands[i];
      assert cands[..i + 1] == cands[..i] + [c];
      if Eligible(c, local, now, taken) && (best.None? || TierLess(c, best.value)) {
        best := Some(c);
      }
    }
    assert cands[..|cands|] == cands;
  }

  /** A tier that may be sold to this runner at this moment: for him, on sale, and with a seat left. */
  ghost predicate OnOffer(c: Tier, local: bool, now: int, taken: multiset<int>)
  {
    !c.audience.UnknownAudience? && !(c.audience.Local? && !local) &&
    !(c.startsAt.Some? && now < c.startsAt.value) && !(c.endsAt.Some? && now >= c.endsAt.value) &&
    !(c.quota.Some? && c.used + c.reserved + taken[c.ruleId] >= c.quota.value)
  }

  /** The selected tier is on offer, none on offer is cheaper, and one is selected whenever any is on offer. */
  lemma SelectionIsCheapest(cands: seq<Tier>, local: bool, now: int, taken: multiset<int>, best: Option<Tier>)
    requires IsBest(cands, local, now, taken, best)
    ensures best.Some? <==> exists c <- cands :: OnOffer(c, local, now, taken)
    ensures best.Some? ==> best.value in cands && OnOffer(best.value, local, now, taken)
    ensures forall c <- cands | best.Some? && OnOffer(c, local, now, taken) ::
              best.value.price < c.price ||
              (best.value.price == c.price &&
               (best.value.sortOrder < c.sortOrder ||
                (best.value.sortOrder == c.sortOrder && best.value.ruleId <= c.ruleId)))
  {
    assert forall c: Tier :: OnOffer(c, local, now, taken) <==> Eligible(c, local, now, taken);
  }

  ghost predicate SameRuleSameTier(cands: seq<Tier>)
  {
    forall a, b | a in cands && b in cands && a.ruleId == b.ruleId :: a == b
  }

  /** The choice depends on which tiers are offered, not on the order in which the query returns them. */
  lemma SelectionIsOrderFree(x: seq<Tier>, y: seq<Tier>, local: bool, now: int, taken: multiset<int>,
                             ox: Option<Tier>, oy: Option<Tier>)
    requires (forall c :: c in x <==> c in y) && SameRuleSameTier(x)
    requires IsBest(x, local, now, taken, ox) && IsBest(y, local, now, taken, oy)
    ensures ox == oy
  {
  }

  // ---------------------------------------------------------------- coupons

  datatype CouponRule = Percent(value: int) | Amount(value: int) | Waiver | UnknownType

  datatype CouponRow = CouponRow(id: int, active: bool, eventId: Option<int>, rule: CouponRule, quota: int, used: int,
                                 reserved: int, minRunners: Option<int>, validFrom: Option<int>,
                                 validUntil: Option<int>)

  datatype QuoteError = Invalid(fields: seq<FieldError>) | CouponInvalid | CouponExhausted

  datatype FieldError = CategoryUnavailable(participant: nat) | TooYoung(participant: nat)

  /** A percentage of the list amount, rounded down. */
  function Percentage(value: int, listAmount: int): (d: int)
    requires listAmount >= 0
    ensures 0 <= d <= listAmount
    ensures 0 <= value <= 100 ==> listAmount * value - 100 < 100 * d <= listAmount * value
  {
    var p := Min(Max(value, 0), 100);
    assert 0 <= listAmount * p <= listAmount * 100;
    listAmount * p / 100
  }

  /**
    Never negative, and never more than the list amount: a waiver takes all of it, an amount what it says, a percentage
    what it says rounded down.
  */
  function CouponDiscount(c: CouponRule, listAmount: int): (d: int)
    ensures 0 <= d <= Max(listAmount, 0)
    ensures listAmount >= 0 && c.Waiver? ==> d == listAmount
    ensures listAmount >= 0 && c.Amount? && 0 <= c.value ==> d == if c.value <= listAmount then c.value else listAmount
    ensures c.UnknownType? || (c.Amount? && c.value < 0) ==> d == 0
    ensures c.Percent? && 0 <= c.value <= 100 && listAmount >= 0 ==>
            listAmount * c.value - 100 < 100 * d <= listAmount * c.value
  {
    if listAmount <= 0 then 0
    else match c
      case Percent(v) => Percentage(v, listAmount)
      case Amount(v) => Min(Max(v, 0), listAmount)
      case Waiver => listAmount
      case UnknownType => 0
  }

  /** More than a hundred percent is a hundred, less than nothing is nothing. */
  lemma PercentageIsCapped(value: int, listAmount: int)
    requires listAmount >= 0
    ensures value > 100 ==> CouponDiscount(Percent(value), listAmount) == listAmount
    ensures value < 0 ==> CouponDiscount(Percent(value), listAmount) == 0
  {
    if value > 100 { assert listAmount * 100 / 100 == listAmount; }
  }

  function UsesLeft(c: CouponRow): int { c.quota - c.used - c.reserved }

  /** Active, for this event or any, within its window [from, until), and enough runners on the order. */
  predicate ValidFor(c: CouponRow, eventId: int, now: int, runners: int)
  {
    c.active && c.eventId in {None, Some(eventId)} && InWindow(now, c.validFrom, c.validUntil) &&
    runners >= if c.minRunners.Some? then c.minRunners.value else runners
  }

  predicate InWindow(now: int, from: Option<int>, until: Option<int>)
  {
    (from.Some? ==> from.value <= now) && (until.Some? ==> now < until.value)
  }

  function CheckCoupon(coupons: map<string, CouponRow>, code: string, eventId: int, now: int, runners: int)
    : (r: Result<CouponRow, QuoteError>)
    ensures r.Ok? <==> code in coupons && ValidFor(coupons[code], eventId, now, runners) && UsesLeft(coupons[code]) > 0
    ensures r.Ok? ==> r.value == coupons[code]
    ensures r == Err(CouponExhausted) <==>
            code in coupons && ValidFor(coupons[code], eventId, now, runners) && UsesLeft(coupons[code]) <= 0
    ensures r.Err? ==> r.error.CouponInvalid? || r.error.CouponExhausted?
  {
    if code !in coupons then Err(CouponInvalid)
    else
      var c := coupons[code];
      if !c.active || (c.eventId.Some? && c.eventId.value != eventId) ||
         (c.validFrom.Some? && c.validFrom.value > now) ||
         (c.validUntil.Some? && c.validUntil.value <= now) ||
         (c.minRunners.Some? && c.minRunners.value > runners) then Err(CouponInvalid)
      else if c.used + c.reserved >= c.quota then Err(CouponExhausted)
      else Ok(c)
  }

  // ---------------------------------------------------------------- identifying cents

  function OffsetLimit(amount: int, maxCents: int): int { Min(Min(maxCents, IDENT_OFFSET_CAP_CENTS), amount - 1) }

  /** n is the least offset whose payable amount is free, or 0 when every candidate amount is taken. */
  ghost predicate LeastFree(amount: int, taken: set<int>, maxCents: int, n: int)
  {
    var limit := OffsetLimit(amount, maxCents);
    if n == 0 then forall x | amount - limit <= x < amount :: x in taken
    else 1 <= n <= limit && amount - n !in taken && forall x | amount - n < x < amount :: x in taken
  }

  method PickIdentOffset(amount: int, taken: set<int>, maxCents: int) returns (r: int)
    ensures LeastFree(amount, taken, maxCents, r)
    ensures r > 0 ==> r <= 50 && r <= maxCents && r < amount && amount - r !in taken
    ensures r == 0 ==> forall x | 1 <= x < amount && amount - x <= 50 && amount - x <= maxCents :: x in taken
    ensures forall x | amount - r < x < amount :: x in taken
  {
    var limit := OffsetLimit(amount, maxCents);
    var n := 1;
    while n <= limit
      invariant 1 <= n && (n <= limit + 1 || n == 1)
      invariant forall x | amount - n < x < amount :: x in taken
    {
      if amount - n !in taken { return n; }
      n := n + 1;
    }
    return 0;
  }

  /** The candidate amounts amount-1 .. amount-limit. */
  ghost function Candidates(amount: int, limit: nat): (s: set<int>)
    ensures |s| == limit
    ensures forall x :: x in s <==> amount - limit <= x < amount
  {
    if limit == 0 then {} else Candidates(amount, limit - 1) + {amount - limit}
  }

  lemma SubsetSize(a: set<int>, b: set<int>)
    requires a <= b
    ensures |a| <= |b|
  {
    assert b == a + (b - a);
  }

  /** With fewer open amounts than candidates an offset is always found. */
  lemma OffsetFoundIfRoom(amount: int, taken: set<int>, maxCents: int, n: int)
    requires LeastFree(amount, taken, maxCents, n) && |taken| < OffsetLimit(amount, maxCents)
    ensures n > 0
  {
    if n == 0 {
      var limit := OffsetLimit(amount, maxCents);
      SubsetSize(Candidates(amount, limit), taken);
    }
  }

  // ---------------------------------------------------------------- the quote

  datatype Participant = Participant(category: int, local: bool, age: int)

  datatype Priced = Priced(category: int, ruleId: int, audience: Audience, list: int, paid: int)

  /** What the quote reads: minimum ages, the tier rows and which category offers which, and coupons by code. */
  datatype Catalog = Catalog(minAge: map<int, int>, rules: map<int, Tier>, tiers: map<int, seq<Tier>>,
                             coupons: map<string, CouponRow>)

  datatype QuoteInput = QuoteInput(eventId: int, now: int, couponCode: string, participants: seq<Participant>)

  /** The open payable amounts of the account and its configured maximum offset; None for a preview. */
  datatype Account = Account(open: set<int>, maxCents: int)

  datatype Quote = Quote(parts: seq<Priced>, list: int, coupon: Option<int>, couponDiscount: int, offset: int,
                         discount: int, amount: int)

  function TiersOf(cat: Catalog, category: int): seq<Tier>
  {
    if category in cat.tiers then cat.tiers[category] else []
  }

  function RuleIds(parts: seq<Priced>): seq<int>
  {
    seq(|parts|, i requires 0 <= i < |parts| => parts[i].ruleId)
  }

  function CategoryIds(parts: seq<Priced>): seq<int>
  {
    seq(|parts|, i requires 0 <= i < |parts| => parts[i].category)
  }

  function ListPrices(parts: seq<Priced>): seq<int>
  {
    seq(|parts|, i requires 0 <= i < |parts| => parts[i].list)
  }

  function PaidCents(parts: seq<Priced>): seq<int>
  {
    seq(|parts|, i requires 0 <= i < |parts| => parts[i].paid)
  }

  /** Every candidate is the row of its rule, the same in every category that offers it; no price is negative. */
  ghost predicate WellFormed(cat: Catalog)
  {
    forall a, x | x in TiersOf(cat, a) :: x.ruleId in cat.rules && cat.rules[x.ruleId] == x && x.price >= 0
  }

  ghost predicate OldEnough(cat: Catalog, p: Participant)
  {
    p.category in cat.minAge && p.age >= cat.minAge[p.category]
  }

  /** Participant p can be added behind the already priced ones, and x is how. */
  ghost predicate PickedAs(cat: Catalog, now: int, before: seq<Priced>, p: Participant, x: Priced)
  {
    OldEnough(cat, p) && x.category == p.category &&
    exists t :: PickedTier(cat, now, before, p, x, t)
  }

  ghost predicate PickedTier(cat: Catalog, now: int, before: seq<Priced>, p: Participant, x: Priced, t: Tier)
  {
    IsBest(TiersOf(cat, p.category), p.local, now, multiset(RuleIds(before)), Some(t)) &&
    x.ruleId == t.ruleId && x.audience == t.audience && x.list == t.price
  }

  ghost predicate PickedUpTo(cat: Catalog, inp: QuoteInput, parts: seq<Priced>)
  {
    |parts| <= |inp.participants| &&
    forall i | 0 <= i < |parts| :: PickedAs(cat, inp.now, parts[..i], inp.participants[i], parts[i])
  }

  /** Nobody can be priced at this position: no such category, too young, or no tier left. */
  ghost predicate Stuck(cat: Catalog, inp: QuoteInput, before: seq<Priced>)
  {
    PickedUpTo(cat, inp, before) && |before| < |inp.participants| &&
    forall x :: !PickedAs(cat, inp.now, before, inp.participants[|before|], x)
  }

  ghost predicate IsOffset(account: Option<Account>, afterCoupon: int, n: int)
  {
    if account.Some? && afterCoupon > 0
    then LeastFree(afterCoupon, account.value.open, account.value.maxCents, n)
    else n == 0
  }

  ghost predicate IsQuote(cat: Catalog, inp: QuoteInput, account: Option<Account>, q: Quote)
  {
    PickedUpTo(cat, inp, q.parts) && |q.parts| == |inp.participants| &&
    q.list == Allocation.Sum(ListPrices(q.parts)) &&
    (if inp.couponCode == "" then q.coupon == None && q.couponDiscount == 0
     else
       var c := CheckCoupon(cat.coupons, inp.couponCode, inp.eventId, inp.now, |inp.participants|);
       c.Ok? && q.coupon == Some(c.value.id) && q.couponDiscount == CouponDiscount(c.value.rule, q.list)) &&
    IsOffset(account, q.list - q.couponDiscount, q.offset) &&
    q.discount == q.couponDiscount + q.offset &&
    q.amount == q.list - q.discount &&
    Allocation.Allocated(ListPrices(q.parts), q.discount, PaidCents(q.parts))
  }

  predicate Young(cat: Catalog, p: Participant) { p.category in cat.minAge && p.age < cat.minAge[p.category] }

  /** Everybody below n who is too young is reported as such, and nobody else; so is a missing category. */
  ghost predicate Reported(cat: Catalog, inp: QuoteInput, n: nat, errs: seq<FieldError>)
    requires n <= |inp.participants|
  {
    (forall i: nat | i < n :: TooYoung(i) in errs <==> Young(cat, inp.participants[i])) &&
    (forall i: nat | i < n && inp.participants[i].category !in cat.minAge :: CategoryUnavailable(i) in errs) &&
    forall e <- errs :: e.participant < n
  }

  /** The first loop: every participant in turn, carrying on after a failure to report them all. */
  method PickTiers(cat: Catalog, inp: QuoteInput) returns (parts: seq<Priced>, errs: seq<FieldError>)
    ensures errs == [] ==> PickedUpTo(cat, inp, parts) && |parts| == |inp.participants|
    ensures errs != [] ==> exists before :: Stuck(cat, inp, before)
    ensures Reported(cat, inp, |inp.participants|, errs)
  {
    parts, errs := [], [];
    var taken: multiset<int> := multiset{};
    ghost var stuck: seq<Priced> := [];
    for i := 0 to |inp.participants|
      invariant taken == multiset(RuleIds(parts))
      invariant errs == [] ==> |parts| == i && PickedUpTo(cat, inp, parts)
      invariant errs != [] ==> Stuck(cat, inp, stuck)
      invariant Reported(cat, inp, i, errs)
    {
      var p := inp.participants[i];
      if errs == [] { stuck := parts; }
      if p.category !in cat.minAge {
        errs := errs + [CategoryUnavailable(i)];
      } else {
        if p.age < cat.minAge[p.category] {
          errs := errs + [TooYoung(i)];
        }
        var best := SelectTier(TiersOf(cat, p.category), p.local, inp.now, taken);
        if best.None? {
          errs := errs + [CategoryUnavailable(i)];
        } else {
          var t := best.value;
          var x := Priced(p.category, t.ruleId, t.audience, t.price, 0);
          if errs == [] { PickOne(cat, inp, parts, x, t); }
          assert RuleIds(parts + [x]) == RuleIds(parts) + [t.ruleId];
          taken := taken + multiset{t.ruleId};
          parts := parts + [x];
        }
      }
    }
  }

  lemma PickOne(cat: Catalog, inp: QuoteInput, parts: seq<Priced>, x: Priced, t: Tier)
    requires PickedUpTo(cat, inp, parts) && |parts| < |inp.participants|
    requires var p := inp.participants[|parts|];
             OldEnough(cat, p) && x.category == p.category && PickedTier(cat, inp.now, parts, p, x, t)
    ensures PickedUpTo(cat, inp, parts + [x])
  {
    var p := inp.participants[|parts|];
    assert PickedAs(cat, inp.now, parts, p, x);
    forall i | 0 <= i < |parts| + 1
      ensures PickedAs(cat, inp.now, (parts + [x])[..i], inp.participants[i], (parts + [x])[i])
    {
      assert (parts + [x])[..i] == parts[..i];
      assert parts[..|parts|] == parts;
    }
  }

  /** Somebody cannot be priced, or the coupon cannot be used. */
  ghost predicate Unquotable(cat: Catalog, inp: QuoteInput, e: QuoteError)
  {
    if e.Invalid? then exists before :: Stuck(cat, inp, before)
    else inp.couponCode != "" &&
         CheckCoupon(cat.coupons, inp.couponCode, inp.eventId, inp.now, |inp.participants|) == Err(e)
  }

  method MakeQuote(cat: Catalog, inp: QuoteInput, account: Option<Account>) returns (res: Result<Quote, QuoteError>)
    requires WellFormed(cat)
    ensures res.Ok? ==> IsQuote(cat, inp, account, res.value)
    ensures res.Err? ==> Unquotable(cat, inp, res.error)
    ensures res.Err? && res.error.Invalid? ==> Reported(cat, inp, |inp.participants|, res.error.fields)
  {
    hide PickedUpTo, Stuck, WellFormed, LeastFree, CouponDiscount;
    hide Allocation.Allocated, Allocation.NonNegative, Allocation.Sum;
    var parts, errs := PickTiers(cat, inp);
    if errs != [] { return Err(Invalid(errs)); }
    var prices := ListPrices(parts);
    PricesNotNegative(cat, inp, parts);
    var list := Allocation.Total(prices);
    var coupon, couponDiscount := None, 0;
    if inp.couponCode != "" {
      var c := CheckCoupon(cat.coupons, inp.couponCode, inp.eventId, inp.now, |inp.participants|);
      if c.Err? { return Err(c.error); }
      coupon, couponDiscount := Some(c.value.id), CouponDiscount(c.value.rule, list);
    }
    var offset := 0;
    if account.Some? && list - couponDiscount > 0 {
      offset := PickIdentOffset(list - couponDiscount, account.value.open, account.value.maxCents);
    }
    var discount := couponDiscount + offset;
    var paid := Allocation.Allocate(prices, discount);
    var priced := seq(|parts|, i requires 0 <= i < |parts| reads paid requires paid.Length == |parts| =>
      parts[i].(paid := paid[i]));
    SamePicks(cat, inp, parts, priced);
    assert ListPrices(priced) == prices && PaidCents(priced) == paid[..];
    res := Ok(Quote(priced, list, coupon, couponDiscount, offset, discount, list - discount));
  }

  lemma PricesNotNegative(cat: Catalog, inp: QuoteInput, parts: seq<Priced>)
    requires WellFormed(cat) && PickedUpTo(cat, inp, parts)
    ensures Allocation.NonNegative(ListPrices(parts))
  {
  }

  lemma SamePicks(cat: Catalog, inp: QuoteInput, parts: seq<Priced>, priced: seq<Priced>)
    requires PickedUpTo(cat, inp, parts) && |priced| == |parts|
    requires forall i | 0 <= i < |parts| :: priced[i] == parts[i].(paid := priced[i].paid)
    ensures PickedUpTo(cat, inp, priced)
  {
    forall i | 0 <= i < |parts| ensures PickedAs(cat, inp.now, priced[..i], inp.participants[i], priced[i]) {
      assert RuleIds(priced[..i]) == RuleIds(parts[..i]);
      assert PickedAs(cat, inp.now, parts[..i], inp.participants[i], parts[i]);
      var t :| PickedTier(cat, inp.now, parts[..i], inp.participants[i], parts[i], t);
      assert PickedTier(cat, inp.now, priced[..i], inp.participants[i], priced[i], t);
    }
  }

  // ---------------------------------------------------------------- what a quote promises

  /** A waiver makes the order free, whatever it costs. */
  lemma WaiverIsFree(cat: Catalog, inp: QuoteInput, account: Option<Account>, q: Quote)
    requires WellFormed(cat) && IsQuote(cat, inp, account, q)
    requires inp.couponCode != "" && inp.couponCode in cat.coupons && cat.coupons[inp.couponCode].rule.Waiver?
    ensures q.amount == 0 && q.couponDiscount == q.list && q.offset == 0
    ensures forall i | 0 <= i < |q.parts| :: q.parts[i].paid == 0
  {
    hide Allocation.Allocated, Allocation.Sum, PickedUpTo;
    PricesNotNegative(cat, inp, q.parts);
    Allocation.PricesBoundSum(ListPrices(q.parts));
    QuoteMoney(cat, inp, account, q);
    forall i | 0 <= i < |q.parts| ensures PaidCents(q.parts)[i] == q.parts[i].paid >= 0 {
    }
    Allocation.PricesBoundSum(PaidCents(q.parts));
  }

  /** Everybody on a quote is old enough for his category and gets, at its price, the cheapest tier on offer to him. */
  lemma EveryoneFits(cat: Catalog, inp: QuoteInput, account: Option<Account>, q: Quote, i: nat)
    requires WellFormed(cat) && IsQuote(cat, inp, account, q) && i < |inp.participants|
    ensures i < |q.parts| &&
            var p, x := inp.participants[i], q.parts[i];
            x.category == p.category && p.category in cat.minAge && p.age >= cat.minAge[p.category] &&
            p.category in cat.tiers && x.ruleId in cat.rules &&
            var t := cat.rules[x.ruleId];
            t in cat.tiers[p.category] && x.audience == t.audience && x.list == t.price &&
            OnOffer(t, p.local, inp.now, multiset(RuleIds(q.parts[..i]))) &&
            forall c <- cat.tiers[p.category] | OnOffer(c, p.local, inp.now, multiset(RuleIds(q.parts[..i]))) ::
              t.price <= c.price
  {
    assert PickedAs(cat, inp.now, q.parts[..i], inp.participants[i], q.parts[i]);
    hide IsQuote, IsBest, PickedUpTo;
    var p, x := inp.participants[i], q.parts[i];
    PickedRow(cat, inp.now, q.parts[..i], p, x);
    SelectionIsCheapest(TiersOf(cat, p.category), p.local, inp.now, multiset(RuleIds(q.parts[..i])),
                        Some(cat.rules[x.ruleId]));
  }

  /** The tier a priced participant got is the row of its rule, and it had a seat left. */
  lemma PickedRow(cat: Catalog, now: int, before: seq<Priced>, p: Participant, x: Priced)
    requires WellFormed(cat) && PickedAs(cat, now, before, p, x)
    ensures x.ruleId in cat.rules && cat.rules[x.ruleId] in TiersOf(cat, p.category)
    ensures cat.rules[x.ruleId].ruleId == x.ruleId && x.list == cat.rules[x.ruleId].price >= 0
    ensures Eligible(cat.rules[x.ruleId], p.local, now, multiset(RuleIds(before)))
    ensures PickedTier(cat, now, before, p, x, cat.rules[x.ruleId])
  {
  }

  lemma SamePick(cat: Catalog, now: int, bx: seq<Priced>, cy: seq<Priced>, p: Participant, x: Priced, y: Priced)
    requires WellFormed(cat) && PickedAs(cat, now, bx, p, x) && PickedAs(cat, now, cy, p, y)
    requires RuleIds(bx) == RuleIds(cy)
    ensures x.ruleId == y.ruleId
  {
  }

  lemma LastRuleId(parts: seq<Priced>, n: nat)
    requires n < |parts|
    ensures RuleIds(parts[..n + 1]) == RuleIds(parts[..n]) + [parts[n].ruleId]
  {
  }

  /** Pricing an order is deterministic: two ways of pricing the same people pick the same tiers. */
  lemma {:induction false} PicksAreUnique(cat: Catalog, inp: QuoteInput, x: seq<Priced>, y: seq<Priced>, n: nat)
    requires WellFormed(cat) && PickedUpTo(cat, inp, x) && PickedUpTo(cat, inp, y) && n <= |x| && n <= |y|
    ensures RuleIds(x[..n]) == RuleIds(y[..n])
  {
    if n > 0 {
      PicksAreUnique(cat, inp, x, y, n - 1);
      SamePick(cat, inp.now, x[..n - 1], y[..n - 1], inp.participants[n - 1], x[n - 1], y[n - 1]);
      LastRuleId(x, n - 1);
      LastRuleId(y, n - 1);
    }
  }

  /** The offset of a quote is the least one within the limits that leads to a free amount, if there is one. */
  lemma OffsetIsLeast(cat: Catalog, inp: QuoteInput, account: Account, q: Quote)
    requires WellFormed(cat) && IsQuote(cat, inp, Some(account), q)
    ensures var due := q.list - q.couponDiscount;
            (q.offset > 0 ==> q.offset <= 50 && q.offset <= account.maxCents && q.offset < due &&
                              q.amount == due - q.offset && q.amount !in account.open) &&
            (q.offset == 0 ==>
              forall x | 1 <= x < due && due - x <= 50 && due - x <= account.maxCents :: x in account.open) &&
            forall x | due - q.offset < x < due :: x in account.open
  {
    hide PickedUpTo, Allocation.Allocated, Allocation.Sum, CheckCoupon, CouponDiscount;
  }

  /** Why somebody cannot be priced: no such category, too young for it, or no tier on offer to him any more. */
  lemma StuckBecause(cat: Catalog, inp: QuoteInput, before: seq<Priced>)
    requires Stuck(cat, inp, before)
    ensures |before| < |inp.participants| &&
            var p := inp.participants[|before|];
            p.category !in cat.minAge || p.age < cat.minAge[p.category] || p.category !in cat.tiers ||
            forall c <- cat.tiers[p.category] :: !OnOffer(c, p.local, inp.now, multiset(RuleIds(before)))
  {
    var p := inp.participants[|before|];
    var cands, taken := TiersOf(cat, p.category), multiset(RuleIds(before));
    if OldEnough(cat, p) && exists c <- cands :: OnOffer(c, p.local, inp.now, taken) {
      var t := BestExists(cands, p.local, inp.now, taken);
      var x := Priced(p.category, t.ruleId, t.audience, t.price, 0);
      assert PickedTier(cat, inp.now, before, p, x, t);
      assert PickedAs(cat, inp.now, before, p, x);
    }
  }

  /** Among tiers on offer there is a best one. */
  lemma {:induction false} BestExists(cands: seq<Tier>, local: bool, now: int, taken: multiset<int>) returns (t: Tier)
    requires exists c <- cands :: OnOffer(c, local, now, taken)
    ensures IsBest(cands, local, now, taken, Some(t))
  {
    var front, last := cands[..|cands| - 1], cands[|cands| - 1];
    assert cands == front + [last];
    t := last;
    if exists c <- front :: OnOffer(c, local, now, taken) {
      var u := BestExists(front, local, now, taken);
      if !(OnOffer(last, local, now, taken) && TierLess(last, u)) { t := u; }
    }
  }

  /** So an error is final: no way of pricing the whole order exists. */
  lemma UnquotableMeansNoQuote(cat: Catalog, inp: QuoteInput, e: QuoteError, account: Option<Account>, q: Quote)
    requires WellFormed(cat) && Unquotable(cat, inp, e)
    ensures !IsQuote(cat, inp, account, q)
  {
    if e.Invalid? {
      var before :| Stuck(cat, inp, before);
      StuckMeansNoQuote(cat, inp, before, account, q);
    }
  }

  lemma StuckMeansNoQuote(cat: Catalog, inp: QuoteInput, before: seq<Priced>, account: Option<Account>, q: Quote)
    requires WellFormed(cat) && Stuck(cat, inp, before)
    ensures !IsQuote(cat, inp, account, q)
  {
    if IsQuote(cat, inp, account, q) {
      var n := |before|;
      PicksAreUnique(cat, inp, q.parts, before, n);
      assert before[..n] == before;
      PickedRow(cat, inp.now, q.parts[..n], inp.participants[n], q.parts[n]);
      var t := cat.rules[q.parts[n].ruleId];
      assert PickedTier(cat, inp.now, before, inp.participants[n], q.parts[n], t)
          ==> PickedAs(cat, inp.now, before, inp.participants[n], q.parts[n]);
    }
  }

  /** Counting as it goes, the order never takes more of a tier than its quota leaves. */
  lemma {:induction false} WithinQuota(cat: Catalog, inp: QuoteInput, parts: seq<Priced>, n: nat, id: int)
    requires WellFormed(cat) && PickedUpTo(cat, inp, parts) && n <= |parts|
    ensures var k := multiset(RuleIds(parts[..n]))[id];
            k > 0 ==>
              (id in cat.rules &&
               var t := cat.rules[id];
               t.ruleId == id && (t.quota.Some? ==> t.used + t.reserved + k <= t.quota.value))
  {
    if n > 0 {
      WithinQuota(cat, inp, parts, n - 1, id);
      LastRuleId(parts, n - 1);
      PickedRow(cat, inp.now, parts[..n - 1], inp.participants[n - 1], parts[n - 1]);
    }
  }

  /** The counters the catalog was read from. */
  ghost predicate ReadFrom(cat: Catalog, t: Table)
  {
    (forall a, x | x in TiersOf(cat, a) ::
      PriceRule(x.ruleId) in t && t[PriceRule(x.ruleId)] == Counter(x.quota, x.used, x.reserved, true)) &&
    (forall code <- cat.coupons :: var c := cat.coupons[code];
      Coupon(c.id) in t && t[Coupon(c.id)] == Counter(Some(c.quota), c.used, c.reserved, c.active))
  }

  /** On unchanged counters a quoted order can fail only on category seats, never on its tiers or its coupon. */
  lemma QuoteFitsReserve(cat: Catalog, inp: QuoteInput, account: Option<Account>, q: Quote, t: Table)
    requires WellFormed(cat) && ReadFrom(cat, t) && IsQuote(cat, inp, account, q)
    ensures Allowed(t, multiset(Counters.RuleRows(RuleIds(q.parts))), Reserve)
    ensures Allowed(t, multiset(Counters.CouponRows(q.coupon)), Reserve)
  {
    var rows := Counters.RuleRows(RuleIds(q.parts));
    forall r | r in multiset(rows) ensures r in t && Guard(t[r], multiset(rows)[r], Reserve) {
      assert r in rows;
      var i :| 0 <= i < |rows| && rows[i] == r;
      TierFits(cat, inp, q.parts, i, t);
    }
    forall r | r in multiset(Counters.CouponRows(q.coupon))
      ensures r in t && Guard(t[r], multiset(Counters.CouponRows(q.coupon))[r], Reserve)
    {
      assert r in Counters.CouponRows(q.coupon);
    }
  }

  lemma TierFits(cat: Catalog, inp: QuoteInput, parts: seq<Priced>, i: nat, t: Table)
    requires WellFormed(cat) && ReadFrom(cat, t) && PickedUpTo(cat, inp, parts) && i < |parts|
    ensures var r := PriceRule(parts[i].ruleId);
            r in t && Guard(t[r], multiset(Counters.RuleRows(RuleIds(parts)))[r], Reserve)
  {
    var id := parts[i].ruleId;
    PickedRow(cat, inp.now, parts[..i], inp.participants[i], parts[i]);
    WithinQuota(cat, inp, parts, |parts|, id);
    assert parts[..|parts|] == parts;
    SameCount(RuleIds(parts), id);
    assert RuleIds(parts)[i] in multiset(RuleIds(parts));
  }

  lemma {:induction false} SameCount(ids: seq<int>, id: int)
    ensures multiset(Counters.RuleRows(ids))[PriceRule(id)] == multiset(ids)[id]
  {
    if ids != [] {
      var k := |ids| - 1;
      SameCount(ids[..k], id);
      assert ids == ids[..k] + [ids[k]];
      assert Counters.RuleRows(ids) == Counters.RuleRows(ids[..k]) + [PriceRule(ids[k])];
    }
  }

  /** The money adds up; only a coupon that covers everything makes the order free. */
  lemma QuoteMoney(cat: Catalog, inp: QuoteInput, account: Option<Account>, q: Quote)
    requires WellFormed(cat) && IsQuote(cat, inp, account, q)
    ensures 0 <= q.couponDiscount <= q.list && 0 <= q.offset <= IDENT_OFFSET_CAP_CENTS
    ensures q.amount == q.list - q.couponDiscount - q.offset == Allocation.Sum(PaidCents(q.parts)) >= 0
    ensures q.amount == 0 <==> q.couponDiscount == q.list
    ensures forall i | 0 <= i < |q.parts| :: 0 <= q.parts[i].paid <= q.parts[i].list
  {
    PricesNotNegative(cat, inp, q.parts);
    Allocation.PricesBoundSum(ListPrices(q.parts));
    forall i | 0 <= i < |q.parts| ensures 0 <= q.parts[i].paid <= q.parts[i].list {
      assert PaidCents(q.parts)[i] == q.parts[i].paid && ListPrices(q.parts)[i] == q.parts[i].list;
    }
  }
}
