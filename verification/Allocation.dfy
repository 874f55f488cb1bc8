/**
  Largest-remainder allocation of an order's discount over its participants, in whole cents.
*/
module Allocation {
  import opened Common
  import opened Sorting

  function Sum(s: seq<int>): int
  {
    if s == [] then 0 else Sum(s[..|s| - 1]) + s[|s| - 1]
  }

  /** The discount that is actually given: never negative and never more than the list total. */
  function Given(discount: int, total: int): int { Min(Max(discount, 0), total) }

  function Share(d: int, price: int, total: int): int
    requires total > 0
  {
    d * price / total
  }

  function Rem(d: int, price: int, total: int): int
    requires total > 0
  {
    d * price % total
  }

  lemma Times(t: int, a: int, b: int)
    requires 0 <= t && a <= b
    ensures t * a <= t * b
  {
  }

  /** Dividing what is at most price * total by total. */
  lemma QuotientBound(m: int, price: int, total: int, q: int, r: int)
    requires m == total * q + r && 0 <= r < total && 0 <= m <= total * price
    ensures 0 <= q <= price && (r > 0 ==> q < price)
  {
    if q < 0 { Times(total, q, -1); }
    if q >= price { Times(total, price, q); }
    if q > price { Times(total, price + 1, q); }
  }

  lemma ShareAndRem(d: int, price: int, total: int)
    requires 0 <= d <= total && 0 <= price && total > 0
    ensures d * price == total * Share(d, price, total) + Rem(d, price, total)
    ensures 0 <= Rem(d, price, total) < total
    ensures 0 <= Share(d, price, total) <= price
    ensures Rem(d, price, total) > 0 ==> Share(d, price, total) < price
  {
    Times(price, 0, d);
    Times(price, d, total);
    QuotientBound(d * price, price, total, Share(d, price, total), Rem(d, price, total));
  }

  /** i comes before j in the order in which left-over cents are handed out. */
  ghost predicate Before(prices: seq<int>, d: int, total: int, i: nat, j: nat)
    requires total > 0 && i < |prices| && j < |prices|
  {
    var ri, rj := Rem(d, prices[i], total), Rem(d, prices[j], total);
    ri > rj || (ri == rj && i < j)
  }

  /** The discount of participant i is his rounded-down share, plus one cent for the chosen ones. */
  ghost predicate Extra(prices: seq<int>, d: int, total: int, paid: seq<int>, i: nat)
    requires total > 0 && i < |prices| == |paid|
  {
    prices[i] - paid[i] == Share(d, prices[i], total) + 1
  }

  /**
    What an allocation has to be: it adds up to the cent, stays within every price, is within one cent of
    the exact proportion, and gives the left-over cents to the largest remainders, ties to the earlier.
  */
  ghost predicate Allocated(prices: seq<int>, discount: int, paid: seq<int>)
  {
    var total := Sum(prices);
    var d := Given(discount, total);
    |paid| == |prices| &&
    Sum(paid) == total - d &&
    (forall i | 0 <= i < |prices| :: 0 <= paid[i] <= prices[i]) &&
    (total > 0 ==>
      (forall i | 0 <= i < |prices| :: -total < (prices[i] - paid[i]) * total - d * prices[i] < total) &&
      (forall i | 0 <= i < |prices| ::
        Extra(prices, d, total, paid, i) || prices[i] - paid[i] == Share(d, prices[i], total)) &&
      (forall i, j | 0 <= i < |prices| && 0 <= j < |prices| &&
        Extra(prices, d, total, paid, i) && !Extra(prices, d, total, paid, j) ::
        Before(prices, d, total, i, j)))
  }

  // ---------------------------------------------------------------- sums

  lemma {:induction false} SumUpdate(s: seq<int>, i: nat, x: int)
    requires i < |s|
    ensures Sum(s[i := x]) == Sum(s) - s[i] + x
  {
    var n := |s| - 1;
    if i == n {
      assert s[i := x][..n] == s[..n];
    } else {
      SumUpdate(s[..n], i, x);
      assert s[i := x][..n] == s[..n][i := x];
    }
  }

  lemma {:induction false} SumLess(x: seq<int>, y: seq<int>, i: nat)
    requires |x| == |y| && i < |x| && x[i] < y[i]
    requires forall j | 0 <= j < |x| :: x[j] <= y[j]
    ensures Sum(x) < Sum(y)
  {
    var n := |x| - 1;
    if i < n { SumLess(x[..n], y[..n], i); } else { SumAtMost(x[..n], y[..n]); }
  }

  lemma {:induction false} SumAtMost(x: seq<int>, y: seq<int>)
    requires |x| == |y|
    requires forall j | 0 <= j < |x| :: x[j] <= y[j]
    ensures Sum(x) <= Sum(y)
  {
    if x != [] { SumAtMost(x[..|x| - 1], y[..|y| - 1]); }
  }

  ghost predicate NonNegative(s: seq<int>) { forall i | 0 <= i < |s| :: s[i] >= 0 }

  lemma {:induction false} PricesBoundSum(prices: seq<int>)
    requires NonNegative(prices)
    ensures Sum(prices) >= 0
    ensures Sum(prices) == 0 ==> forall i | 0 <= i < |prices| :: prices[i] == 0
  {
    if prices != [] {
      var n := |prices| - 1;
      PricesBoundSum(prices[..n]);
      assert forall i | 0 <= i < n :: prices[..n][i] == prices[i];
    }
  }

  // ---------------------------------------------------------------- remainders

  datatype Remainder = Remainder(idx: nat, rem: int)

  function RemOf(r: Remainder): int { r.rem }

  ghost function RemSum(rs: seq<Remainder>): int { SumBy(rs, RemOf) }

  predicate Ahead(a: Remainder, b: Remainder) { a.rem > b.rem || (a.rem == b.rem && a.idx < b.idx) }

  ghost predicate Sorted(rs: seq<Remainder>) { forall i, j | 0 <= i < j < |rs| :: Ahead(rs[i], rs[j]) }

  predicate Larger(a: Remainder, b: Remainder) { a.rem > b.rem }

  /** The library's stable sort by descending remainder. */
  function StableSort(rs: seq<Remainder>): seq<Remainder> { SortBy(rs, Larger) }

  lemma SortKeeps(rs: seq<Remainder>)
    requires forall i | 0 <= i < |rs| :: rs[i].idx == i
    ensures Sorted(StableSort(rs)) && RemSum(StableSort(rs)) == RemSum(rs)
    ensures multiset(StableSort(rs)) == multiset(rs) && |StableSort(rs)| == |rs|
  {
    SortByKeeps(rs, Larger);
    SumByPermutation(StableSort(rs), rs, RemOf);
    SortBySorts(rs, Larger, Ahead);
    var sorted := StableSort(rs);
    assert InOrder(sorted, Ahead);
  }

  /** If nothing is left from position k on, at most k whole totals are left over. */
  lemma {:induction false} FewLeft(rs: seq<Remainder>, k: nat, total: int)
    requires forall i | 0 <= i < |rs| :: 0 <= rs[i].rem <= total
    requires forall i | k <= i < |rs| :: rs[i].rem == 0
    ensures RemSum(rs) <= Min(k, |rs|) * total
  {
    if rs != [] {
      var n := |rs| - 1;
      FewLeft(rs[..n], k, total);
      if k > n { assert (n + 1) * total == n * total + total; }
    }
  }

  // ---------------------------------------------------------------- the allocation

  /** What participant i is left with in the list of cut-off remainders. */
  function RemAt(prices: seq<int>, d: int, total: int, i: nat): Remainder
    requires total > 0 && i < |prices|
  {
    Remainder(i, Rem(d, prices[i], total))
  }

  ghost function Floor(prices: seq<int>, d: int, total: int, i: nat): int
    requires total > 0 && i < |prices|
  {
    prices[i] - Share(d, prices[i], total)
  }

  /** A valid instance: a positive total and a discount within it. */
  ghost predicate Divisible(prices: seq<int>, d: int, total: int)
  {
    NonNegative(prices) && total == Sum(prices) > 0 && 0 <= d <= total
  }

  /**
    `paid` starts as every price less its rounded-down share; the missing cents are then taken off one by one.
    Prices are not negative (rules.go rejects a negative one), so every index `rems[k]` exists.
  */
  method Allocate(listPrices: seq<int>, discount: int) returns (paid: array<int>)
    requires NonNegative(listPrices)
    ensures Allocated(listPrices, discount, paid[..])
    ensures var total := Sum(listPrices);
            Sum(paid[..]) ==
            if discount <= 0 then total else if discount <= total then total - discount else 0
  {
    paid := new int[|listPrices|](_ => 0);
    var total := Total(listPrices);
    PricesBoundSum(listPrices);
    if total <= 0 {
      NothingToPay(listPrices, discount, paid[..]);
      return;
    }
    var d := Given(discount, total);
    var rems, handed := RoundDown(listPrices, d, total, paid);
    TopUp(listPrices, discount, d, total, rems, handed, paid);
  }

  /** Sorts the remainders and hands out what is still missing. */
  method TopUp(prices: seq<int>, discount: int, d: int, total: int, rems: seq<Remainder>, handed: int,
               paid: array<int>)
    requires Divisible(prices, d, total) && d == Given(discount, total) && paid.Length == |prices| == |rems|
    requires forall i | 0 <= i < |rems| :: rems[i] == RemAt(prices, d, total, i)
    requires forall i | 0 <= i < |prices| :: paid[i] == Floor(prices, d, total, i)
    requires Sum(paid[..]) == total - handed
    requires Accounted(d, total, total, handed, RemSum(rems))
    modifies paid
    ensures Allocated(prices, discount, paid[..])
  {
    var sorted := StableSort(rems);
    RankAll(prices, d, total, rems, handed);
    TakeCents(prices, discount, d, total, handed, sorted, paid);
  }

  method Total(prices: seq<int>) returns (total: int)
    ensures total == Sum(prices)
  {
    total := 0;
    for i := 0 to |prices|
      invariant total == Sum(prices[..i])
    {
      assert prices[..i + 1][..i] == prices[..i];
      total := total + prices[i];
    }
    assert prices[..|prices|] == prices;
  }

  /** The first loop: rounded-down shares, the sum handed out, and the remainders cut off. */
  method RoundDown(prices: seq<int>, d: int, total: int, paid: array<int>) returns (rems: seq<Remainder>, handed: int)
    requires Divisible(prices, d, total) && paid.Length == |prices|
    modifies paid
    ensures |rems| == |prices| && forall i | 0 <= i < |rems| :: rems[i] == RemAt(prices, d, total, i)
    ensures forall i | 0 <= i < |prices| :: paid[i] == Floor(prices, d, total, i)
    ensures Sum(paid[..]) == total - handed
    ensures Accounted(d, total, total, handed, RemSum(rems))
  {
    hide Sum, SumBy, Accounted, Share, Rem;
    rems, handed := [], 0;
    NothingYet(d, total);
    for i := 0 to |prices|
      invariant |rems| == i && forall j | 0 <= j < i :: rems[j] == RemAt(prices, d, total, j)
      invariant forall j | 0 <= j < i :: paid[j] == Floor(prices, d, total, j)
      invariant Sum(paid[..i]) == Sum(prices[..i]) - handed
      invariant Accounted(d, Sum(prices[..i]), total, handed, RemSum(rems))
    {
      var p := prices[i];
      var share := Share(d, p, total);
      ghost var before, rest := paid[..i], rems;
      paid[i] := p - share;
      assert paid[..i] == before;
      SumNext(paid[..], i);
      SumNext(prices, i);
      AccountNext(d, total, Sum(prices[..i]), p, handed, RemSum(rest));
      handed := handed + share;
      rems := rems + [Remainder(i, Rem(d, p, total))];
      SumByAppend(rest, Remainder(i, Rem(d, p, total)), RemOf);
    }
    assert paid[..|prices|] == paid[..] && prices[..|prices|] == prices;
  }

  lemma SumNext(s: seq<int>, i: nat)
    requires i < |s|
    ensures s[..i + 1] == s[..i] + [s[i]] && Sum(s[..i + 1]) == Sum(s[..i]) + s[i]
  {
    assert s[..i + 1][..i] == s[..i];
  }

  lemma NothingYet(d: int, total: int)
    ensures Sum([]) == 0 && Accounted(d, 0, total, 0, RemSum([]))
  {
  }

  lemma AccountNext(d: int, total: int, sum: int, p: int, handed: int, rem: int)
    requires Accounted(d, sum, total, handed, rem) && total > 0
    ensures Accounted(d, sum + p, total, handed + Share(d, p, total), rem + Rem(d, p, total))
  {
    Distribute(d, total, sum, p, handed, Share(d, p, total));
  }

  /** The last loop: the cents still missing come off the participants at the head of the line. */
  method TakeCents(prices: seq<int>, ghost discount: int, d: int, total: int, handed: int, rems: seq<Remainder>,
                   paid: array<int>)
    requires Divisible(prices, d, total) && d == Given(discount, total) && paid.Length == |prices|
    requires Ranked(prices, d, total, rems) && RemSum(rems) == total * (d - handed) && d >= handed
    requires forall i | 0 <= i < |prices| :: paid[i] == Floor(prices, d, total, i)
    requires Sum(paid[..]) == total - handed
    modifies paid
    ensures Allocated(prices, discount, paid[..])
  {
    hide Sum, SumBy;
    var k := 0;
    while k < d - handed
      invariant 0 <= k <= d - handed
      invariant Taken(prices, d, total, paid[..], rems, k)
      invariant Sum(paid[..]) == total - handed - k
    {
      StillLeft(prices, d, total, handed, rems, k);
      var at := rems[k].idx;
      ghost var before := paid[..];
      SumUpdate(before, at, before[at] - 1);
      paid[at] := paid[at] - 1;
      assert paid[..] == before[at := before[at] - 1];
      NextTaken(prices, d, total, before, rems, k);
      k := k + 1;
    }
    Settle(prices, discount, paid[..], rems, k);
  }

  lemma {:induction false} Zeros(s: seq<int>)
    requires forall i | 0 <= i < |s| :: s[i] == 0
    ensures Sum(s) == 0
  {
    if s != [] { Zeros(s[..|s| - 1]); }
  }

  lemma NothingToPay(prices: seq<int>, discount: int, paid: seq<int>)
    requires NonNegative(prices) && Sum(prices) <= 0 && |paid| == |prices|
    requires forall i | 0 <= i < |paid| :: paid[i] == 0
    ensures Allocated(prices, discount, paid)
  {
    Zeros(paid);
    PricesBoundSum(prices);
  }

  lemma Distribute(d: int, t: int, s: int, p: int, a: int, share: int)
    ensures d * (s + p) == d * s + d * p
    ensures t * (a + share) == t * a + t * share
  {
  }

  /** What the discount takes of `sum`, in units of 1/total cent, is the shares handed out and the remainders. */
  ghost predicate Accounted(d: int, sum: int, total: int, handed: int, rem: int)
  {
    d * sum == total * handed + rem
  }

  lemma RankAll(prices: seq<int>, d: int, total: int, rems: seq<Remainder>, handed: int)
    requires Divisible(prices, d, total) && |rems| == |prices|
    requires forall i | 0 <= i < |rems| :: rems[i] == RemAt(prices, d, total, i)
    requires Accounted(d, total, total, handed, RemSum(rems))
    ensures Ranked(prices, d, total, StableSort(rems)) && d >= handed
    ensures RemSum(StableSort(rems)) == total * (d - handed)
  {
    SortKeeps(rems);
    SortedIsRanked(prices, d, total, rems, StableSort(rems));
    LeftOver(prices, d, total, handed, StableSort(rems));
  }

  /** Every participant has exactly one place in the line for left-over cents. */
  ghost predicate Ranked(prices: seq<int>, d: int, total: int, sorted: seq<Remainder>)
  {
    total > 0 && Sorted(sorted) && |sorted| == |prices| &&
    (forall k | 0 <= k < |sorted| ::
      sorted[k].idx < |prices| && sorted[k] == RemAt(prices, d, total, sorted[k].idx)) &&
    (forall i | 0 <= i < |prices| :: RemAt(prices, d, total, i) in sorted)
  }

  lemma SortedIsRanked(prices: seq<int>, d: int, total: int, rems: seq<Remainder>, sorted: seq<Remainder>)
    requires total > 0 && |rems| == |prices|
    requires forall i | 0 <= i < |rems| :: rems[i] == RemAt(prices, d, total, i)
    requires Sorted(sorted) && multiset(sorted) == multiset(rems) && |sorted| == |rems|
    ensures Ranked(prices, d, total, sorted)
  {
    forall k | 0 <= k < |sorted|
      ensures sorted[k].idx < |prices| && sorted[k] == RemAt(prices, d, total, sorted[k].idx)
    {
      assert sorted[k] in multiset(rems);
      assert sorted[k] in rems;
    }
    forall i | 0 <= i < |prices|
      ensures RemAt(prices, d, total, i) in sorted
    {
      assert rems[i] in multiset(rems);
    }
  }

  /** The rounded-down shares never exceed the discount, and the shortfall is what the remainders add up to. */
  lemma LeftOver(prices: seq<int>, d: int, total: int, handed: int, sorted: seq<Remainder>)
    requires Divisible(prices, d, total) && Ranked(prices, d, total, sorted)
    requires Accounted(d, total, total, handed, RemSum(sorted))
    ensures RemSum(sorted) == total * (d - handed) && d >= handed
  {
    assert total * (d - handed) == d * total - total * handed;
    NotNegative(sorted);
  }

  lemma {:induction false} NotNegative(rs: seq<Remainder>)
    requires forall i | 0 <= i < |rs| :: 0 <= rs[i].rem
    ensures RemSum(rs) >= 0
  {
    if rs != [] { NotNegative(rs[..|rs| - 1]); }
  }

  /** As long as a cent is missing there is a next participant in line, and his share was really cut. */
  lemma StillLeft(prices: seq<int>, d: int, total: int, handed: int, sorted: seq<Remainder>, k: nat)
    requires Ranked(prices, d, total, sorted)
    requires RemSum(sorted) == total * (d - handed) && k < d - handed
    ensures k < |sorted| && sorted[k].rem > 0
  {
    MoreThan(d - handed, k, total);
    if k < |sorted| && sorted[k].rem == 0 {
      forall i | k <= i < |sorted| ensures sorted[i].rem == 0 {
        assert i == k || Ahead(sorted[k], sorted[i]);
      }
    }
    if k >= |sorted| || sorted[k].rem == 0 {
      FewLeft(sorted, k, total);
    }
  }

  lemma MoreThan(left: int, k: int, total: int)
    requires k < left && total > 0
    ensures forall m | m <= k :: m * total < total * left
  {
  }

  /** After k left-over cents: exactly the first k in line pay one cent less than their floor. */
  ghost predicate Taken(prices: seq<int>, d: int, total: int, paid: seq<int>, sorted: seq<Remainder>, k: nat)
    requires Ranked(prices, d, total, sorted)
  {
    |paid| == |prices| && k <= |sorted| &&
    forall i | 0 <= i < |sorted| ::
      paid[sorted[i].idx] == Floor(prices, d, total, sorted[i].idx) - if i < k then 1 else 0
  }

  lemma NextTaken(prices: seq<int>, d: int, total: int, paid: seq<int>, sorted: seq<Remainder>, k: nat)
    requires Ranked(prices, d, total, sorted) && Taken(prices, d, total, paid, sorted, k) && k < |sorted|
    ensures Taken(prices, d, total, paid[sorted[k].idx := paid[sorted[k].idx] - 1], sorted, k + 1)
  {
  }

  lemma Settle(prices: seq<int>, discount: int, paid: seq<int>, sorted: seq<Remainder>, k: nat)
    requires Divisible(prices, Given(discount, Sum(prices)), Sum(prices))
    requires Ranked(prices, Given(discount, Sum(prices)), Sum(prices), sorted)
    requires Taken(prices, Given(discount, Sum(prices)), Sum(prices), paid, sorted, k)
    requires RemSum(sorted) == Sum(prices) * k
    requires Sum(paid) == Sum(prices) - Given(discount, Sum(prices))
    ensures Allocated(prices, discount, paid)
  {
    var total := Sum(prices);
    var d := Given(discount, total);
    forall i | 0 <= i < |prices|
      ensures 0 <= paid[i] <= prices[i]
      ensures Extra(prices, d, total, paid, i) || prices[i] - paid[i] == Share(d, prices[i], total)
      ensures -total < (prices[i] - paid[i]) * total - d * prices[i] < total
    {
      SettleOne(prices, d, total, paid, sorted, k, i);
    }
    forall i, j | 0 <= i < |prices| && 0 <= j < |prices| &&
      Extra(prices, d, total, paid, i) && !Extra(prices, d, total, paid, j)
      ensures Before(prices, d, total, i, j)
    {
      assert RemAt(prices, d, total, i) in sorted && RemAt(prices, d, total, j) in sorted;
      var ai :| 0 <= ai < |sorted| && sorted[ai] == RemAt(prices, d, total, i);
      var aj :| 0 <= aj < |sorted| && sorted[aj] == RemAt(prices, d, total, j);
      assert ai < k <= aj;
      assert Ahead(sorted[ai], sorted[aj]);
    }
  }

  lemma SettleOne(prices: seq<int>, d: int, total: int, paid: seq<int>, sorted: seq<Remainder>, k: nat, i: nat)
    requires Divisible(prices, d, total) && Ranked(prices, d, total, sorted)
    requires Taken(prices, d, total, paid, sorted, k) && RemSum(sorted) == total * k && i < |prices|
    ensures 0 <= paid[i] <= prices[i]
    ensures Extra(prices, d, total, paid, i) || prices[i] - paid[i] == Share(d, prices[i], total)
    ensures -total < (prices[i] - paid[i]) * total - d * prices[i] < total
  {
    assert RemAt(prices, d, total, i) in sorted;
    var at :| 0 <= at < |sorted| && sorted[at] == RemAt(prices, d, total, i);
    ShareAndRem(d, prices[i], total);
    if at < k { StillLeft(prices, d, total, d - k, sorted, at); }
    WithinACent(d, prices[i], total, prices[i] - paid[i]);
  }

  lemma WithinACent(d: int, price: int, total: int, got: int)
    requires 0 <= d <= total && 0 <= price && total > 0
    requires got == Share(d, price, total) ||
             (got == Share(d, price, total) + 1 && Rem(d, price, total) > 0)
    ensures -total < got * total - d * price < total
  {
  }

  /** The four conditions leave no choice: there is exactly one such allocation. */
  lemma AllocationIsUnique(prices: seq<int>, discount: int, x: seq<int>, y: seq<int>)
    requires NonNegative(prices)
    requires Allocated(prices, discount, x) && Allocated(prices, discount, y)
    ensures x == y
  {
    PricesBoundSum(prices);
    if Sum(prices) > 0 {
      NoneAhead(prices, discount, x, y);
      NoneAhead(prices, discount, y, x);
    } else {
      assert forall i | 0 <= i < |prices| :: prices[i] in prices;
    }
  }

  lemma NoneAhead(prices: seq<int>, discount: int, x: seq<int>, y: seq<int>)
    requires Sum(prices) > 0
    requires Allocated(prices, discount, x) && Allocated(prices, discount, y)
    ensures forall i | 0 <= i < |x| :: x[i] >= y[i]
  {
    var total := Sum(prices);
    var d := Given(discount, total);
    if i: nat :| i < |x| && x[i] < y[i] {
      assert Extra(prices, d, total, x, i) && !Extra(prices, d, total, y, i);
      forall j | 0 <= j < |x| ensures x[j] <= y[j] {
        OneWay(prices, d, total, i, j);
        assert x[j] > y[j] ==> Extra(prices, d, total, y, j) && !Extra(prices, d, total, x, j);
      }
      SumLess(x, y, i);
    }
  }

  lemma OneWay(prices: seq<int>, d: int, total: int, i: nat, j: nat)
    requires total > 0 && i < |prices| && j < |prices|
    ensures !(Before(prices, d, total, i, j) && Before(prices, d, total, j, i))
  {
  }
}
