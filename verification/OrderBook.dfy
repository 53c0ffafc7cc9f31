/** Depth of an order book: the average price of a market order, its worst price, and its
    impact.

    Amounts and prices are reals. An order counts as filled when no more than `slack` of it
    is left; the code's slack is a fraction 1e-12 of the amount.
 */
module OrderBook {
  import opened Basics

  const EPS: real := 1e-12
  const MAX_BOOK_AGE := 5_000
  const MAX_BOOK_SKEW := 2_000
  const MAX_LEVELS := 50

  datatype Level = Level(price: real, quantity: real)

  // ----- products of reals

  /** A product, named so that proofs can treat it as one term. */
  function Times(a: real, b: real): real { a * b }

  lemma Scale(a: real, b: real)
    requires (a >= 0.0 && b >= 0.0) || (a <= 0.0 && b <= 0.0)
    ensures Times(a, b) >= 0.0
  {
  }

  lemma Spread(a: real, b: real, c: real)
    ensures Times(a, b + c) == Times(a, b) + Times(a, c)
    ensures Times(a, b - c) == Times(a, b) - Times(a, c)
  {
  }

  lemma Swap(a: real, b: real)
    ensures Times(a, b) == Times(b, a)
  {
  }

  lemma Regroup(a: real, b: real, c: real)
    ensures Times(Times(a, b), c) == Times(a, Times(b, c))
  {
  }

  lemma Negate(a: real, b: real)
    ensures Times(-a, b) == -Times(a, b) && Times(a, -b) == -Times(a, b)
  {
  }

  lemma Ratio(cost: real, amount: real)
    requires amount > 0.0
    ensures Times(cost / amount, amount) == cost
  {
  }

  lemma Cancel(a: real, b: real, c: real)
    requires c > 0.0 && Times(a, c) <= Times(b, c)
    ensures a <= b
  {
    if a > b {
      AbovePositive(a - b, c);
    }
  }

  lemma AbovePositive(a: real, b: real)
    requires a > 0.0 && b > 0.0
    ensures a * b > 0.0
  {
  }

  lemma Divide(low: real, cost: real, high: real, amount: real)
    requires amount > 0.0 && Times(low, amount) <= cost <= Times(high, amount)
    ensures low <= cost / amount <= high
  {
    hide Times;
    Ratio(cost, amount);
    Cancel(low, cost / amount, amount);
    Cancel(cost / amount, high, amount);
  }

  /** Moving the second factor up does not lower the product. */
  lemma AtMost(a: real, b: real, c: real)
    requires a >= 0.0 && b <= c
    ensures Times(a, b) <= Times(a, c)
  {
    Scale(a, c - b);
  }

  /** One level of the exchange argument. */
  lemma ExchangeStep(other: real, taken: real, price: real, worst: real,
                     restOther: real, restTaken: real, unitsOther: real, unitsTaken: real)
    requires (other <= taken && price <= worst) || price == worst
    requires restOther - restTaken >= Times(worst, unitsOther - unitsTaken)
    ensures (Times(other, price) + restOther) - (Times(taken, price) + restTaken)
            >= Times(worst, (other + unitsOther) - (taken + unitsTaken))
  {
    hide Times;
    Scale(taken - other, worst - price);
    Spread(taken - other, worst, price);
    Swap(taken - other, worst);
    Swap(taken - other, price);
    Spread(price, taken, other);
    Swap(price, taken);
    Swap(price, other);
    Negate(worst, taken - other);
    Spread(worst, other - taken, unitsOther - unitsTaken);
    assert other - taken == -(taken - other);
    assert (other + unitsOther) - (taken + unitsTaken) == (other - taken) + (unitsOther - unitsTaken);
  }

  // ----- sides and allocations

  predicate Positive(side: seq<Level>) {
    forall l :: l in side ==> l.price > 0.0 && l.quantity > 0.0
  }

  /** Asks rise, bids fall. */
  predicate Sorted(side: seq<Level>, bids: bool) {
    forall i, j :: 0 <= i < j < |side| ==>
      if bids then side[i].price > side[j].price else side[i].price < side[j].price
  }

  predicate Valid(side: seq<Level>, bids: bool) {
    0 < |side| <= MAX_LEVELS && Positive(side) && Sorted(side, bids)
  }

  function Quantity(side: seq<Level>): real {
    if side == [] then 0.0 else side[0].quantity + Quantity(side[1..])
  }

  function Total(parts: seq<real>): real {
    if parts == [] then 0.0 else parts[0] + Total(parts[1..])
  }

  /** What taking `parts` of the levels costs. */
  function Cost(side: seq<Level>, parts: seq<real>): real
    requires |parts| == |side|
  {
    if side == [] then 0.0 else Times(parts[0], side[0].price) + Cost(side[1..], parts[1..])
  }

  /** Parts that the levels can give. */
  predicate Feasible(side: seq<Level>, parts: seq<real>) {
    |parts| == |side| && forall i :: 0 <= i < |side| ==> 0.0 <= parts[i] <= side[i].quantity
  }

  // ----- the order walks the levels

  /** What the walk takes from each level. */
  function Fill(side: seq<Level>, left: real, slack: real): (parts: seq<real>)
    ensures |parts| == |side|
  {
    if side == [] then []
    else
      var taken := Min(left, side[0].quantity);
      if left - taken <= slack then [taken] + ZeroParts(|side| - 1)
      else [taken] + Fill(side[1..], left - taken, slack)
  }

  function ZeroParts(n: nat): (parts: seq<real>)
    ensures |parts| == n
  {
    seq(n, _ => 0.0)
  }

  /** The walk stops before running out of levels. */
  predicate Filled(side: seq<Level>, left: real, slack: real) {
    side != []
    && var rest := left - Min(left, side[0].quantity);
       rest <= slack || Filled(side[1..], rest, slack)
  }

  /** The price of the level where it stops. */
  function Worst(side: seq<Level>, left: real, slack: real): real
    requires side != []
  {
    var rest := left - side[0].quantity;
    if rest <= slack || |side| == 1 then side[0].price else Worst(side[1..], rest, slack)
  }

  lemma {:induction false} ZeroCost(side: seq<Level>, n: nat)
    requires n == |side|
    ensures Cost(side, ZeroParts(n)) == 0.0 && Total(ZeroParts(n)) == 0.0
  {
    if n > 0 {
      TimesZero(side[0].price);
      assert ZeroParts(n)[1..] == ZeroParts(n - 1);
      ZeroCost(side[1..], n - 1);
    }
  }

  /** The parts taken are feasible and leave at most the slack. */
  lemma {:induction false} FillIsFeasible(side: seq<Level>, left: real, slack: real)
    requires Positive(side) && left >= 0.0 && slack >= 0.0
    ensures Feasible(side, Fill(side, left, slack))
    ensures Total(Fill(side, left, slack)) <= left
    ensures Filled(side, left, slack) ==> left - slack <= Total(Fill(side, left, slack))
  {
    if side != [] {
      assert side[0] in side;
      var taken := Min(left, side[0].quantity);
      var parts := Fill(side, left, slack);
      if left - taken <= slack {
        ZeroCost(side[1..], |side| - 1);
        assert parts[1..] == ZeroParts(|side| - 1);
      } else {
        FillIsFeasible(side[1..], left - taken, slack);
        assert parts[1..] == Fill(side[1..], left - taken, slack);
        forall i | 0 <= i < |side|
          ensures 0.0 <= parts[i] <= side[i].quantity
        {
          assert i > 0 ==> parts[i] == parts[1..][i - 1] && side[i] == side[1..][i - 1];
        }
      }
    }
  }

  /** An order no larger than the quantity on the side is filled, and an order larger than
      it by more than the slack is not. */
  lemma {:induction false} FilledIffEnough(side: seq<Level>, left: real, slack: real)
    requires Positive(side) && left > slack >= 0.0
    ensures Filled(side, left, slack) <==> left <= Quantity(side) + slack
  {
    if side != [] {
      assert side[0] in side;
      var rest := left - Min(left, side[0].quantity);
      QuantityIsPositive(side[1..]);
      if rest > slack {
        FilledIffEnough(side[1..], rest, slack);
      }
    }
  }

  lemma {:induction false} QuantityIsPositive(side: seq<Level>)
    requires Positive(side)
    ensures Quantity(side) >= 0.0
  {
    if side != [] {
      assert side[0] in side;
      QuantityIsPositive(side[1..]);
    }
  }

  // ----- the walk is the cheapest way to fill

  lemma FeasibleLength(side: seq<Level>, parts: seq<real>)
    requires Feasible(side, parts)
    ensures |parts| == |side|
  {
  }

  lemma FeasibleRest(side: seq<Level>, parts: seq<real>)
    requires Feasible(side, parts) && side != []
    ensures |parts| == |side| && Feasible(side[1..], parts[1..]) && 0.0 <= parts[0] <= side[0].quantity
  {
    forall i | 0 <= i < |side| - 1
      ensures 0.0 <= parts[1..][i] <= side[1..][i].quantity
    {
      assert parts[1..][i] == parts[i + 1] && side[1..][i] == side[i + 1];
    }
  }

  /** Parts at prices of at least `price` cost at least that. */
  lemma {:induction false} CostAtLeast(side: seq<Level>, parts: seq<real>, price: real)
    requires Feasible(side, parts) && forall l :: l in side ==> l.price >= price
    ensures Cost(side, parts) >= Times(price, Total(parts))
  {
    hide Times;
    TimesZero(price);
    if side != [] {
      assert side[0] in side;
      FeasibleRest(side, parts);
      CostAtLeast(side[1..], parts[1..], price);
      AtLeastStep(parts[0], side[0].price, price, Cost(side[1..], parts[1..]), Total(parts[1..]));
    }
  }

  lemma TimesZero(a: real)
    ensures Times(a, 0.0) == 0.0 && Times(0.0, a) == 0.0
  {
  }

  lemma AtLeastStep(part: real, price: real, least: real, cost: real, total: real)
    requires part >= 0.0 && price >= least && cost >= Times(least, total)
    ensures Times(part, price) + cost >= Times(least, part + total)
  {
    hide Times;
    AtMost(part, least, price);
    Swap(part, least);
    Spread(least, part, total);
  }

  /** The worst price is one of the side's, and none before the stop is beyond it. */
  lemma {:induction false} WorstIsBeyondFirst(side: seq<Level>, left: real, slack: real)
    requires side != [] && Sorted(side, false)
    ensures side[0].price <= Worst(side, left, slack) <= side[|side| - 1].price
    ensures exists l :: l in side && l.price == Worst(side, left, slack)
  {
    if |side| > 1 && left - side[0].quantity > slack {
      WorstIsBeyondFirst(side[1..], left - side[0].quantity, slack);
      assert side[1..][0] == side[1];
    } else {
      assert side[0] in side;
    }
  }

  /** Exchange argument: against any other parts, the walk saves at least the worst price
      for every unit of the difference. Prices may have any sign here. */
  lemma {:induction false} WalkSaves(side: seq<Level>, left: real, slack: real, other: seq<real>)
    requires Sorted(side, false) && (forall l :: l in side ==> l.quantity > 0.0)
    requires left >= 0.0 && slack >= 0.0 && Filled(side, left, slack) && Feasible(side, other)
    ensures var parts := Fill(side, left, slack);
            Cost(side, other) - Cost(side, parts) >= Times(Worst(side, left, slack), Total(other) - Total(parts))
  {
    FeasibleRest(side, other);
    hide Feasible, Sorted, Times;
    var parts := Fill(side, left, slack);
    var worst := Worst(side, left, slack);
    SortedRest(side);
    SortedAbove(side);
    if left - Min(left, side[0].quantity) <= slack {
      ZeroCost(side[1..], |side| - 1);
      assert parts[1..] == ZeroParts(|side| - 1);
      CostAtLeast(side[1..], other[1..], side[0].price);
      ExchangeStep(other[0], parts[0], side[0].price, worst, Cost(side[1..], other[1..]), 0.0, Total(other[1..]), 0.0);
    } else {
      assert parts[1..] == Fill(side[1..], left - parts[0], slack);
      WalkSaves(side[1..], left - parts[0], slack, other[1..]);
      WorstIsBeyondFirst(side, left, slack);
      ExchangeStep(other[0], parts[0], side[0].price, worst, Cost(side[1..], other[1..]), Cost(side[1..], parts[1..]),
                   Total(other[1..]), Total(parts[1..]));
    }
  }

  lemma SortedRest(side: seq<Level>)
    requires Sorted(side, false) && side != []
    ensures Sorted(side[1..], false)
  {
  }

  lemma SortedAbove(side: seq<Level>)
    requires Sorted(side, false) && side != []
    ensures forall l :: l in side[1..] ==> l.price >= side[0].price
  {
  }

  // ----- bids mirror asks

  function Mirror(side: seq<Level>): (m: seq<Level>)
    ensures |m| == |side|
  {
    seq(|side|, i requires 0 <= i < |side| => side[i].(price := -side[i].price))
  }

  lemma {:induction false} MirrorKeeps(side: seq<Level>, left: real, slack: real, parts: seq<real>)
    requires |parts| == |side|
    ensures Fill(Mirror(side), left, slack) == Fill(side, left, slack)
    ensures Filled(Mirror(side), left, slack) == Filled(side, left, slack)
    ensures Cost(Mirror(side), parts) == -Cost(side, parts)
    ensures side != [] ==> Worst(Mirror(side), left, slack) == -Worst(side, left, slack)
  {
    hide Times;
    if side != [] {
      Negate(parts[0], side[0].price);
      assert Mirror(side)[1..] == Mirror(side[1..]);
      MirrorKeeps(side[1..], left - Min(left, side[0].quantity), slack, parts[1..]);
      MirrorKeeps(side[1..], left - side[0].quantity, slack, parts[1..]);
    }
  }

  lemma MirrorSorted(side: seq<Level>)
    requires Sorted(side, true)
    ensures Sorted(Mirror(side), false)
  {
  }

  lemma SellingSaves(side: seq<Level>, left: real, slack: real, other: seq<real>)
    requires Sorted(side, true) && (forall l :: l in side ==> l.quantity > 0.0)
    requires left >= 0.0 && slack >= 0.0 && Filled(side, left, slack) && Feasible(side, other)
    ensures var parts := Fill(side, left, slack);
            Cost(side, other) - Cost(side, parts) <= Times(Worst(side, left, slack), Total(other) - Total(parts))
  {
    MirrorSorted(side);
    MirrorFeasible(side, other);
    FeasibleLength(side, other);
    hide Sorted, Feasible, Mirror, Cost, Fill, Total, Worst, Filled, Times;
    MirrorKeeps(side, left, slack, other);
    MirrorKeeps(side, left, slack, Fill(side, left, slack));
    WalkSaves(Mirror(side), left, slack, other);
    Negate(Worst(side, left, slack), Total(other) - Total(Fill(side, left, slack)));
  }

  lemma MirrorFeasible(side: seq<Level>, parts: seq<real>)
    requires Feasible(side, parts) && (forall l :: l in side ==> l.quantity > 0.0)
    ensures Feasible(Mirror(side), parts) && forall l :: l in Mirror(side) ==> l.quantity > 0.0
  {
    forall l | l in Mirror(side)
      ensures l.quantity > 0.0
    {
      var i :| 0 <= i < |side| && Mirror(side)[i] == l;
      assert side[i] in side;
    }
  }

  // ----- the average price

  /** `None` stands for the infinite price of an order beyond the visible levels. */
  function Vwap(side: seq<Level>, amount: real, slack: real): Option<real>
    requires amount > 0.0
  {
    if Filled(side, amount, slack) then Some(Cost(side, Fill(side, amount, slack)) / amount) else None
  }

  lemma VwapTimesAmount(side: seq<Level>, amount: real, slack: real)
    requires amount > 0.0 && Filled(side, amount, slack)
    ensures Vwap(side, amount, slack).Some?
    ensures Times(Vwap(side, amount, slack).value, amount) == Cost(side, Fill(side, amount, slack))
  {
    Ratio(Cost(side, Fill(side, amount, slack)), amount);
  }

  lemma SideFacts(side: seq<Level>, bids: bool)
    requires Valid(side, bids)
    ensures side != [] && Sorted(side, bids) && Positive(side) && side[0].price > 0.0
    ensures forall l :: l in side ==>
              l.quantity > 0.0 && (bids || l.price >= side[0].price) && (!bids || l.price <= side[0].price)
  {
    assert side[0] in side;
  }

  /** No other way to buy at least the amount costs less. */
  lemma BuyingIsCheapest(side: seq<Level>, amount: real, slack: real, other: seq<real>)
    requires Valid(side, false) && amount > 0.0 && slack >= 0.0 && Filled(side, amount, slack)
    requires Feasible(side, other) && Total(other) >= amount
    ensures Vwap(side, amount, slack).Some? && Cost(side, other) >= Times(Vwap(side, amount, slack).value, amount)
  {
    hide Valid, Sorted, Positive, Feasible, Fill, Filled, Worst, Cost, Total, Vwap, Times;
    SideFacts(side, false);
    VwapTimesAmount(side, amount, slack);
    WalkSaves(side, amount, slack, other);
    FillIsFeasible(side, amount, slack);
    WorstIsBeyondFirst(side, amount, slack);
    Scale(Worst(side, amount, slack), Total(other) - Total(Fill(side, amount, slack)));
  }

  /** No other way to sell at most the amount brings more, but for the price of the slack. */
  lemma SellingBringsMost(side: seq<Level>, amount: real, slack: real, other: seq<real>)
    requires Valid(side, true) && amount > 0.0 && slack >= 0.0 && Filled(side, amount, slack)
    requires Feasible(side, other) && Total(other) <= amount
    ensures Vwap(side, amount, slack).Some?
    ensures Cost(side, other)
            <= Times(Vwap(side, amount, slack).value, amount) + Times(Worst(side, amount, slack), slack)
  {
    hide Valid, Sorted, Positive, Feasible, Fill, Filled, Worst, Cost, Total, Vwap, Times;
    SideFacts(side, true);
    VwapTimesAmount(side, amount, slack);
    SellingSaves(side, amount, slack, other);
    FillIsFeasible(side, amount, slack);
    WorstIsPositive(side, amount, slack);
    AtMost(Worst(side, amount, slack), Total(other) - Total(Fill(side, amount, slack)), slack);
  }

  lemma {:induction false} WorstIsPositive(side: seq<Level>, left: real, slack: real)
    requires side != [] && Positive(side)
    ensures Worst(side, left, slack) > 0.0
  {
    assert side[0] in side;
    if |side| > 1 && left - side[0].quantity > slack {
      WorstIsPositive(side[1..], left - side[0].quantity, slack);
    }
  }

  lemma NothingTaken(side: seq<Level>)
    requires Positive(side)
    ensures Feasible(side, ZeroParts(|side|)) && Cost(side, ZeroParts(|side|)) == 0.0 && Total(ZeroParts(|side|)) == 0.0
  {
    ZeroCost(side, |side|);
    forall i | 0 <= i < |side|
      ensures ZeroParts(|side|)[i] <= side[i].quantity
    {
      assert side[i] in side;
    }
  }

  /** An ask average lies between the best price, less the slack's share, and the worst. */
  lemma BuyingPriceBounds(side: seq<Level>, amount: real, eps: real)
    requires Valid(side, false) && amount > 0.0 && 0.0 <= eps < 1.0 && Filled(side, amount, Times(amount, eps))
    ensures Vwap(side, amount, Times(amount, eps)).Some?
    ensures (1.0 - eps) * side[0].price <= Vwap(side, amount, Times(amount, eps)).value
            <= Worst(side, amount, Times(amount, eps))
  {
    hide Valid, Sorted, Positive, Feasible, Fill, Filled, Worst, Cost, Total, Times, Vwap;
    var slack := Times(amount, eps);
    var parts := Fill(side, amount, slack);
    SideFacts(side, false);
    VwapIs(side, amount, slack);
    Scale(amount, eps);
    FillIsFeasible(side, amount, slack);
    CostAtLeast(side, parts, side[0].price);
    NothingTaken(side);
    WalkSaves(side, amount, slack, ZeroParts(|side|));
    WorstIsBeyondFirst(side, amount, slack);
    Negate(Worst(side, amount, slack), Total(parts));
    Enclosed(side[0].price, Worst(side, amount, slack), Cost(side, parts), Total(parts), amount, eps);
  }

  /** Cost between two prices times a total that misses at most the slack. */
  lemma Enclosed(low: real, high: real, cost: real, total: real, amount: real, eps: real)
    requires low >= 0.0 && high >= 0.0 && amount > 0.0 && amount - Times(amount, eps) <= total <= amount
    requires Times(low, total) <= cost <= Times(high, total)
    ensures (1.0 - eps) * low <= cost / amount <= high
  {
    AtMost(low, amount - Times(amount, eps), total);
    AtMost(high, total, amount);
    assert (1.0 - eps) * low * amount == low * (amount - amount * eps);
    Divide((1.0 - eps) * low, cost, high, amount);
  }

  /** A bid average lies between the worst price, less the slack's share, and the best. */
  lemma SellingPriceBounds(side: seq<Level>, amount: real, eps: real)
    requires Valid(side, true) && amount > 0.0 && 0.0 <= eps < 1.0 && Filled(side, amount, Times(amount, eps))
    ensures Vwap(side, amount, Times(amount, eps)).Some?
    ensures (1.0 - eps) * Worst(side, amount, Times(amount, eps)) <= Vwap(side, amount, Times(amount, eps)).value
            <= side[0].price
  {
    hide Valid, Sorted, Positive, Feasible, Fill, Filled, Worst, Cost, Total, Times, Vwap;
    var slack := Times(amount, eps);
    var parts := Fill(side, amount, slack);
    SideFacts(side, true);
    VwapIs(side, amount, slack);
    Scale(amount, eps);
    FillIsFeasible(side, amount, slack);
    CostAtMost(side, parts, side[0].price);
    NothingTaken(side);
    SellingSaves(side, amount, slack, ZeroParts(|side|));
    WorstIsPositive(side, amount, slack);
    Negate(Worst(side, amount, slack), Total(parts));
    Enclosed(Worst(side, amount, slack), side[0].price, Cost(side, parts), Total(parts), amount, eps);
  }

  lemma CostAtMost(side: seq<Level>, parts: seq<real>, price: real)
    requires Feasible(side, parts) && Positive(side) && forall l :: l in side ==> l.price <= price
    ensures Cost(side, parts) <= Times(price, Total(parts))
  {
    MirrorFeasible(side, parts);
    MirrorAbove(side, price);
    FeasibleLength(side, parts);
    hide Feasible, Positive, Mirror, Cost, Total, Times, Fill, Filled, Worst;
    MirrorKeeps(side, 0.0, 0.0, parts);
    CostAtLeast(Mirror(side), parts, -price);
    Negate(price, Total(parts));
  }

  lemma MirrorAbove(side: seq<Level>, price: real)
    requires forall l :: l in side ==> l.price <= price
    ensures forall l :: l in Mirror(side) ==> l.price >= -price
  {
    forall l | l in Mirror(side)
      ensures l.price >= -price
    {
      var i :| 0 <= i < |side| && Mirror(side)[i] == l;
      assert side[i] in side;
    }
  }

  // ----- larger orders

  function Scaled(parts: seq<real>, factor: real): (s: seq<real>)
    ensures |s| == |parts|
  {
    seq(|parts|, i requires 0 <= i < |parts| => Times(parts[i], factor))
  }

  lemma ScaledFeasible(side: seq<Level>, parts: seq<real>, factor: real)
    requires Feasible(side, parts) && 0.0 <= factor <= 1.0
    ensures Feasible(side, Scaled(parts, factor))
  {
    forall i | 0 <= i < |side|
      ensures 0.0 <= Scaled(parts, factor)[i] <= side[i].quantity
    {
      Scale(parts[i], factor);
      Scale(parts[i], 1.0 - factor);
    }
  }

  lemma {:induction false} ScaledCost(side: seq<Level>, parts: seq<real>, factor: real)
    requires |parts| == |side|
    ensures Cost(side, Scaled(parts, factor)) == Times(Cost(side, parts), factor)
    ensures Total(Scaled(parts, factor)) == Times(Total(parts), factor)
  {
    hide Times;
    TimesZero(factor);
    if side != [] {
      assert Scaled(parts, factor)[1..] == Scaled(parts[1..], factor);
      ScaledCost(side[1..], parts[1..], factor);
      Distribute(parts[0], side[0].price, Cost(side[1..], parts[1..]), factor);
      Swap(Total(parts), factor);
      Spread(factor, parts[0], Total(parts[1..]));
      Swap(parts[0], factor);
      Swap(Total(parts[1..]), factor);
    }
  }

  lemma Distribute(part: real, price: real, rest: real, factor: real)
    ensures Times(Times(part, factor), price) + Times(rest, factor) == Times(Times(part, price) + rest, factor)
  {
  }

  lemma VwapIs(side: seq<Level>, amount: real, slack: real)
    requires amount > 0.0 && Filled(side, amount, slack)
    ensures Vwap(side, amount, slack) == Some(Cost(side, Fill(side, amount, slack)) / amount)
  {
  }

  /** A larger buy order has no better average price, but for the price of the slack; with
      no slack the average rises with the amount. */
  lemma BuyingPriceRises(side: seq<Level>, small: real, large: real, eps: real)
    requires Valid(side, false) && 0.0 < small <= large && 0.0 <= eps < 1.0
    requires Filled(side, small, Times(small, eps)) && Filled(side, large, Times(large, eps))
    ensures Vwap(side, small, Times(small, eps)).Some? && Vwap(side, large, Times(large, eps)).Some?
    ensures Vwap(side, small, Times(small, eps)).value
            <= Vwap(side, large, Times(large, eps)).value + Times(eps, Worst(side, small, Times(small, eps)))
  {
    hide Valid, Sorted, Positive, Feasible, Fill, Filled, Worst, Cost, Total, Times, Vwap, Scaled;
    var slack, slackMore := Times(small, eps), Times(large, eps);
    var parts, more := Fill(side, small, slack), Fill(side, large, slackMore);
    SideFacts(side, false);
    VwapIs(side, small, slack);
    VwapIs(side, large, slackMore);
    Scale(small, eps);
    Scale(large, eps);
    FillIsFeasible(side, small, slack);
    FillIsFeasible(side, large, slackMore);
    Share(small, large);
    ScaledFeasible(side, more, small / large);
    ScaledCost(side, more, small / large);
    WalkSaves(side, small, slack, Scaled(more, small / large));
    WorstIsBeyondFirst(side, small, slack);
    PriceOfScaled(Cost(side, parts), Cost(side, more), Total(parts), Total(more), small, large, eps,
      Worst(side, small, slack));
  }

  /** A larger sell order brings no better average price, but for the price of the slack. */
  lemma SellingPriceFalls(side: seq<Level>, small: real, large: real, eps: real)
    requires Valid(side, true) && 0.0 < small <= large && 0.0 <= eps < 1.0
    requires Filled(side, small, Times(small, eps)) && Filled(side, large, Times(large, eps))
    ensures Vwap(side, small, Times(small, eps)).Some? && Vwap(side, large, Times(large, eps)).Some?
    ensures Vwap(side, large, Times(large, eps)).value
            <= Vwap(side, small, Times(small, eps)).value + Times(eps, Worst(side, small, Times(small, eps)))
  {
    hide Valid, Sorted, Positive, Feasible, Fill, Filled, Worst, Cost, Total, Times, Vwap, Scaled;
    var slack, slackMore := Times(small, eps), Times(large, eps);
    var parts, more := Fill(side, small, slack), Fill(side, large, slackMore);
    SideFacts(side, true);
    var worst := Worst(side, small, slack);
    VwapIs(side, small, slack);
    VwapIs(side, large, slackMore);
    Scale(small, eps);
    Scale(large, eps);
    FillIsFeasible(side, small, slack);
    FillIsFeasible(side, large, slackMore);
    Share(small, large);
    ScaledFeasible(side, more, small / large);
    ScaledCost(side, more, small / large);
    SellingSaves(side, small, slack, Scaled(more, small / large));
    WorstIsPositive(side, small, slack);
    ProceedsOfScaled(Cost(side, parts), Cost(side, more), Total(parts), Total(more), small, large, eps, worst);
  }

  lemma Share(small: real, large: real)
    requires 0.0 < small <= large
    ensures 0.0 <= small / large <= 1.0 && Times(small / large, large) == small
  {
    Ratio(small, large);
    Divide(0.0, small, 1.0, large);
  }

  /** The arithmetic of the comparisons. */
  lemma PriceOfScaled(
    cost: real, costMore: real, total: real, totalMore: real, small: real, large: real, eps: real, worst: real)
    requires 0.0 < small <= large && worst >= 0.0
    requires total <= small && totalMore >= large - Times(large, eps)
    requires Times(costMore, small / large) - cost >= Times(worst, Times(totalMore, small / large) - total)
    ensures cost / small <= costMore / large + Times(eps, worst)
  {
    hide Times;
    var factor, slack := small / large, Times(small, eps);
    Share(small, large);
    ScaledShort(totalMore, large, small, factor, eps);
    AtMost(worst, -slack, Times(totalMore, factor) - total);
    Negate(worst, slack);
    ScaledAverage(costMore, small, large);
    Bound(cost, costMore / large, small, eps, worst);
  }

  lemma ProceedsOfScaled(
    cost: real, costMore: real, total: real, totalMore: real, small: real, large: real, eps: real, worst: real)
    requires 0.0 < small <= large && worst >= 0.0
    requires total >= small - Times(small, eps) && totalMore <= large
    requires Times(costMore, small / large) - cost <= Times(worst, Times(totalMore, small / large) - total)
    ensures costMore / large <= cost / small + Times(eps, worst)
  {
    hide Times;
    var factor, slack := small / large, Times(small, eps);
    Share(small, large);
    AtMost(factor, totalMore, large);
    Swap(factor, totalMore);
    AtMost(worst, Times(totalMore, factor) - total, slack);
    ScaledAverage(costMore, small, large);
    BoundBelow(cost, costMore / large, small, eps, worst);
  }

  lemma ScaledShort(totalMore: real, large: real, small: real, factor: real, eps: real)
    requires factor >= 0.0 && Times(factor, large) == small && totalMore >= large - Times(large, eps)
    ensures Times(totalMore, factor) >= small - Times(small, eps)
  {
    hide Times;
    AtMost(factor, large - Times(large, eps), totalMore);
    Spread(factor, large, Times(large, eps));
    Regroup(factor, large, eps);
    Swap(factor, totalMore);
  }

  lemma ScaledAverage(costMore: real, small: real, large: real)
    requires 0.0 < small <= large
    ensures Times(costMore, small / large) == Times(costMore / large, small)
  {
    hide Times;
    Ratio(costMore, large);
    Ratio(small, large);
    Regroup(costMore / large, large, small / large);
    Swap(large, small / large);
  }

  lemma Bound(cost: real, average: real, small: real, eps: real, worst: real)
    requires small > 0.0 && cost <= Times(average, small) + Times(worst, Times(small, eps))
    ensures cost / small <= average + Times(eps, worst)
  {
    assert Times(average + Times(eps, worst), small) == Times(average, small) + Times(worst, Times(small, eps));
    hide Times;
    Ratio(cost, small);
    Cancel(cost / small, average + Times(eps, worst), small);
  }

  lemma BoundBelow(cost: real, average: real, small: real, eps: real, worst: real)
    requires small > 0.0 && Times(average, small) <= cost + Times(worst, Times(small, eps))
    ensures average <= cost / small + Times(eps, worst)
  {
    Ratio(cost, small);
    assert Times(cost / small + Times(eps, worst), small)
           == Times(cost / small, small) + Times(worst, Times(small, eps));
    hide Times;
    Cancel(average, cost / small + Times(eps, worst), small);
  }

  // ----- the computations

  method ValidSide(side: seq<Level>, bids: bool) returns (ok: bool)
    ensures ok == Valid(side, bids)
  {
    ok := 0 < |side| <= MAX_LEVELS;
    var i := 0;
    while i < |side| && ok
      invariant 0 <= i <= |side|
      invariant ok ==> 0 < |side| <= MAX_LEVELS && Positive(side[..i]) && Sorted(side[..i], bids)
      invariant !ok ==> !Valid(side, bids)
    {
      ok := side[i].price > 0.0 && side[i].quantity > 0.0
            && (i > 0 ==> if bids then side[i].price < side[i - 1].price else side[i].price > side[i - 1].price);
      assert side[i] in side;
      assert side[..i + 1] == side[..i] + [side[i]];
      assert i > 0 ==> side[..i][i - 1] == side[i - 1];
      i := i + 1;
    }
    assert side[..|side|] == side;
  }

  method SideQuantity(side: seq<Level>) returns (total: real)
    ensures total == Quantity(side)
  {
    total := 0.0;
    for i := 0 to |side|
      invariant Quantity(side) == total + Quantity(side[i..])
    {
      total := total + side[i].quantity;
      assert side[i..][1..] == side[i + 1..];
    }
  }

  /** Walks the levels, adding up the cost, until no more than 1e-12 of the amount is left. */
  method AveragePrice(side: seq<Level>, amount: real) returns (price: Option<real>)
    requires amount > 0.0
    ensures price == Vwap(side, amount, Times(amount, EPS))
  {
    hide Times;
    var slack := Times(amount, EPS);
    var left, cost := amount, 0.0;
    var done := false;
    var i := 0;
    while i < |side| && !done
      invariant 0 <= i <= |side|
      invariant !done ==> Filled(side, amount, slack) == Filled(side[i..], left, slack)
      invariant !done ==> Cost(side, Fill(side, amount, slack)) == cost + Cost(side[i..], Fill(side[i..], left, slack))
      invariant done ==> Filled(side, amount, slack) && Cost(side, Fill(side, amount, slack)) == cost
    {
      var rest := side[i..];
      assert rest[1..] == side[i + 1..] && rest[0] == side[i];
      var taken := Min(left, side[i].quantity);
      if left - taken <= slack {
        ZeroCost(rest[1..], |rest| - 1);
        assert Fill(rest, left, slack)[1..] == ZeroParts(|rest| - 1);
      } else {
        assert Fill(rest, left, slack)[1..] == Fill(rest[1..], left - taken, slack);
      }
      cost := cost + Times(taken, side[i].price);
      left := left - taken;
      done := left <= slack;
      i := i + 1;
    }
    price := if done then Some(cost / amount) else None;
  }

  /** The price of the level where the order ends, or the last one. */
  method WorstPrice(side: seq<Level>, amount: real) returns (price: real)
    requires side != []
    ensures price == Worst(side, amount, Times(amount, EPS))
  {
    hide Times;
    var slack := Times(amount, EPS);
    var left := amount;
    var done := false;
    price := side[|side| - 1].price;
    var i := 0;
    while i < |side| && !done
      invariant 0 <= i <= |side|
      invariant !done && i < |side| ==> Worst(side, amount, slack) == Worst(side[i..], left, slack)
      invariant !done ==> price == side[|side| - 1].price
      invariant !done && i == |side| ==> Worst(side, amount, slack) == price
      invariant done ==> price == Worst(side, amount, slack)
    {
      var rest := side[i..];
      assert rest[1..] == side[i + 1..] && rest[0] == side[i];
      left := left - side[i].quantity;
      done := left <= slack;
      if done {
        price := side[i].price;
      }
      i := i + 1;
    }
  }

  /** Times in milliseconds; `None` for a book never filled. */
  datatype Book = Book(bids: seq<Level>, asks: seq<Level>, at: Option<int>)

  datatype Quote = Quote(
    amount: real, sufficient: bool, longPrice: real, shortPrice: real,
    longImpact: real, shortImpact: real, longWorst: real, shortWorst: real, observedAt: int)

  predicate Fresh(b: Book, now: int) {
    b.at.Some? && b.at.value <= now + 1_000 && now - b.at.value <= MAX_BOOK_AGE
  }

  predicate Usable(b: Book, now: int) {
    Fresh(b, now) && Valid(b.bids, true) && Valid(b.asks, false) && b.bids[0].price < b.asks[0].price
  }

  predicate Quotable(long: Book, short: Book, amount: real, now: int) {
    && amount > 0.0 && Usable(long, now) && Usable(short, now)
    && -MAX_BOOK_SKEW <= long.at.value - short.at.value <= MAX_BOOK_SKEW
  }

  method ValidBook(b: Book, now: int) returns (ok: bool)
    ensures ok == Usable(b, now)
  {
    hide Valid;
    var bids := ValidSide(b.bids, true);
    var asks := ValidSide(b.asks, false);
    ok := false;
    if Fresh(b, now) && bids && asks {
      SideFacts(b.bids, true);
      SideFacts(b.asks, false);
      ok := b.bids[0].price < b.asks[0].price;
    }
  }

  /** Books can be quoted exactly when both were read in the last five seconds, at most a second ahead
      of the clock and two seconds apart, hold well-formed sides, and do not cross. */
  lemma QuotableExactly(long: Book, short: Book, amount: real, now: int)
    ensures Quotable(long, short, amount, now) <==>
              && amount > 0.0 && long.at.Some? && short.at.Some?
              && (forall b :: b in [long, short] ==>
                    && b.at.value - now <= 1_000 && now - b.at.value <= 5_000
                    && Valid(b.bids, true) && Valid(b.asks, false) && b.asks[0].price > b.bids[0].price)
              && long.at.value - short.at.value <= 2_000 && short.at.value - long.at.value <= 2_000
  {
    assert long in [long, short] && short in [long, short];
  }

  /** Quotes an order on both books; `None` when they cannot be relied on. A quote within the
      visible depth always has a finite impact, at most that of the worst price. */
  method QuoteOrder(long: Book, short: Book, amount: real, now: int) returns (quote: Option<Quote>)
    ensures quote.Some? <==> Quotable(long, short, amount, now)
    ensures quote.Some? ==>
              && quote.value.amount == amount
              && (quote.value.sufficient <==> amount <= Quantity(long.asks) && amount <= Quantity(short.bids))
              && quote.value.observedAt == (if long.at.value < short.at.value then long.at.value else short.at.value)
    ensures quote.Some? && quote.value.sufficient ==>
              var q := quote.value;
              && q.longPrice == long.asks[0].price && q.shortPrice == short.bids[0].price
              && var slack := Times(amount, EPS);
              && var buy, sell := Vwap(long.asks, amount, slack), Vwap(short.bids, amount, slack);
              && buy.Some? && q.longImpact == Max(0.0, buy.value / q.longPrice - 1.0)
              && sell.Some? && q.shortImpact == Max(0.0, 1.0 - sell.value / q.shortPrice)
              && q.longWorst == Worst(long.asks, amount, Times(amount, EPS))
              && q.shortWorst == Worst(short.bids, amount, Times(amount, EPS))
              && 0.0 <= q.longImpact <= q.longWorst / q.longPrice - 1.0
              && 0.0 <= q.shortImpact <= 1.0 - (1.0 - EPS) * q.shortWorst / q.shortPrice
  {
    hide Valid, Filled, Fill, Cost, Worst, Vwap, Times, Quantity;
    quote := None;
    var longOk := ValidBook(long, now);
    var shortOk := ValidBook(short, now);
    if amount > 0.0 && longOk && shortOk && -MAX_BOOK_SKEW <= long.at.value - short.at.value <= MAX_BOOK_SKEW {
      var observedAt := if long.at.value < short.at.value then long.at.value else short.at.value;
      SideFacts(long.asks, false);
      SideFacts(short.bids, true);
      var asks := SideQuantity(long.asks);
      var bids := SideQuantity(short.bids);
      if amount > Min(asks, bids) {
        quote := Some(Quote(amount, false, 0.0, 0.0, 0.0, 0.0, 0.0, 0.0, observedAt));
      } else {
        WithinDepth(long.asks, false, amount);
        WithinDepth(short.bids, true, amount);
        var buy := AveragePrice(long.asks, amount);
        var sell := AveragePrice(short.bids, amount);
        var longWorst := WorstPrice(long.asks, amount);
        var shortWorst := WorstPrice(short.bids, amount);
        ImpactBound(long.asks, amount);
        SellImpactBound(short.bids, amount);
        var longImpact := Max(0.0, buy.value / long.asks[0].price - 1.0);
        var shortImpact := Max(0.0, 1.0 - sell.value / short.bids[0].price);
        quote := Some(Quote(amount, true, long.asks[0].price, short.bids[0].price,
                            longImpact, shortImpact, longWorst, shortWorst, observedAt));
      }
    }
  }

  lemma WithinDepth(side: seq<Level>, bids: bool, amount: real)
    requires Valid(side, bids) && 0.0 < amount <= Quantity(side)
    ensures Vwap(side, amount, Times(amount, EPS)).Some?
  {
    Slack(amount);
    FilledIffEnough(side, amount, Times(amount, EPS));
  }

  lemma Slack(amount: real)
    requires amount > 0.0
    ensures 0.0 <= Times(amount, EPS) < amount
  {
  }

  lemma ImpactBound(side: seq<Level>, amount: real)
    requires Valid(side, false) && 0.0 < amount <= Quantity(side)
    ensures Vwap(side, amount, Times(amount, EPS)).Some? && side[0].price > 0.0
    ensures Max(0.0, Vwap(side, amount, Times(amount, EPS)).value / side[0].price - 1.0)
            <= Worst(side, amount, Times(amount, EPS)) / side[0].price - 1.0
  {
    hide Valid, Filled, Fill, Cost, Worst, Times;
    SideFacts(side, false);
    WithinDepth(side, false, amount);
    BuyingPriceBounds(side, amount, EPS);
    WorstIsBeyondFirst(side, amount, Times(amount, EPS));
    DivideMonotone(Vwap(side, amount, Times(amount, EPS)).value, Worst(side, amount, Times(amount, EPS)),
      side[0].price);
    DivideMonotone(side[0].price, Worst(side, amount, Times(amount, EPS)), side[0].price);
  }

  lemma SellImpactBound(side: seq<Level>, amount: real)
    requires Valid(side, true) && 0.0 < amount <= Quantity(side)
    ensures Vwap(side, amount, Times(amount, EPS)).Some? && side[0].price > 0.0
    ensures Max(0.0, 1.0 - Vwap(side, amount, Times(amount, EPS)).value / side[0].price)
            <= 1.0 - (1.0 - EPS) * Worst(side, amount, Times(amount, EPS)) / side[0].price
  {
    hide Valid, Filled, Fill, Cost, Worst, Times;
    SideFacts(side, true);
    WithinDepth(side, true, amount);
    SellingPriceBounds(side, amount, EPS);
    var worst := Worst(side, amount, Times(amount, EPS));
    DivideMonotone((1.0 - EPS) * worst, Vwap(side, amount, Times(amount, EPS)).value, side[0].price);
    DivideMonotone((1.0 - EPS) * worst, side[0].price, side[0].price);
  }

  lemma DivideMonotone(a: real, b: real, c: real)
    requires c > 0.0 && a <= b
    ensures a / c <= b / c && c / c == 1.0
  {
    Ratio(a, c);
    Ratio(b, c);
    Cancel(a / c, b / c, c);
  }

  /** Without slack a larger sell order has no smaller impact. */
  lemma SellImpactRises(side: seq<Level>, small: real, large: real)
    requires Valid(side, true) && 0.0 < small <= large && Filled(side, small, 0.0) && Filled(side, large, 0.0)
    ensures Vwap(side, small, 0.0).Some? && Vwap(side, large, 0.0).Some? && side[0].price > 0.0
    ensures Max(0.0, 1.0 - Vwap(side, small, 0.0).value / side[0].price)
            <= Max(0.0, 1.0 - Vwap(side, large, 0.0).value / side[0].price)
  {
    SideFacts(side, true);
    TimesZero(small);
    TimesZero(large);
    hide Valid, Filled, Fill, Cost, Worst, Times, Vwap;
    SellingPriceFalls(side, small, large, 0.0);
    TimesZero(Worst(side, small, 0.0));
    DivideMonotone(Vwap(side, large, 0.0).value, Vwap(side, small, 0.0).value, side[0].price);
  }

  /** Without slack a larger buy order has no smaller impact. */
  lemma ImpactRises(side: seq<Level>, small: real, large: real)
    requires Valid(side, false) && 0.0 < small <= large && Filled(side, small, 0.0) && Filled(side, large, 0.0)
    ensures Vwap(side, small, 0.0).Some? && Vwap(side, large, 0.0).Some? && side[0].price > 0.0
    ensures Max(0.0, Vwap(side, small, 0.0).value / side[0].price - 1.0)
            <= Max(0.0, Vwap(side, large, 0.0).value / side[0].price - 1.0)
  {
    SideFacts(side, false);
    TimesZero(small);
    TimesZero(large);
    hide Valid, Filled, Fill, Cost, Worst, Times, Vwap;
    BuyingPriceRises(side, small, large, 0.0);
    TimesZero(Worst(side, small, 0.0));
    DivideMonotone(Vwap(side, small, 0.0).value, Vwap(side, large, 0.0).value, side[0].price);
  }
}
