/** The greedy walk over the ask side that prices a market buy. */
module AskWalk {
  import opened Domain

  /** An ask as loaded from the book. */
  datatype Ask = Ask(price: real, quantity: real, visible: real, iceberg: bool)

  function Offered(a: Ask): real {
    if a.iceberg then a.visible else a.quantity
  }

  datatype Walk = Walk(cost: real, remaining: real)

  /** Take as much as possible from each ask in turn until `quantity` is covered. */
  function WalkFrom(asks: seq<Ask>, quantity: real): Walk {
    if asks == [] || quantity <= 0.0 then Walk(0.0, quantity)
    else
      var fill := Min(quantity, Offered(asks[0]));
      var rest := WalkFrom(asks[1..], quantity - fill);
      Walk(Value(asks[0].price, fill) + rest.cost, rest.remaining)
  }

  const BUFFER := 1.001

  function MarketBuyLock(asks: seq<Ask>, quantity: real): Result<real> {
    if asks == [] || WalkFrom(asks, quantity).remaining > 0.0 then Err(Validation)
    else Ok(WalkFrom(asks, quantity).cost * BUFFER)
  }

  /** The loop shared by order placement and by the stop monitor. */
  method ComputeMarketBuyLock(asks: seq<Ask>, quantity: real) returns (lock: Result<real>)
    ensures lock == MarketBuyLock(asks, quantity)
  {
    hide Value;
    if asks == [] {
      return Err(Validation);
    }
    var remaining, cost := quantity, 0.0;
    var i := 0;
    while i < |asks| && remaining > 0.0
      invariant 0 <= i <= |asks|
      invariant WalkFrom(asks, quantity).cost == cost + WalkFrom(asks[i..], remaining).cost
      invariant WalkFrom(asks, quantity).remaining == WalkFrom(asks[i..], remaining).remaining
    {
      var fill := Min(remaining, Offered(asks[i]));
      assert asks[i..][1..] == asks[i + 1..];
      cost := cost + Value(asks[i].price, fill);
      remaining := remaining - fill;
      i := i + 1;
    }
    if remaining > 0.0 {
      return Err(Validation);
    }
    return Ok(cost * BUFFER);
  }

  // ---------- Reference definitions: any way of buying from the asks ----------

  /** What the iceberg asks show. */
  function ShownByIcebergs(asks: seq<Ask>): real {
    if asks == [] then 0.0 else (if asks[0].iceberg then asks[0].visible else 0.0) + ShownByIcebergs(asks[1..])
  }

  /** What the other asks hold in full. */
  function HeldByOthers(asks: seq<Ask>): real {
    if asks == [] then 0.0 else (if asks[0].iceberg then 0.0 else asks[0].quantity) + HeldByOthers(asks[1..])
  }

  /** What can be bought: of an iceberg only the part that shows. */
  function Volume(asks: seq<Ask>): real {
    ShownByIcebergs(asks) + HeldByOthers(asks)
  }

  /** Can `take` be bought from the ask? */
  predicate CanTake(a: Ask, take: real) {
    0.0 <= take && if a.iceberg then take <= a.visible else take <= a.quantity
  }

  predicate Offers(asks: seq<Ask>) {
    forall i :: 0 <= i < |asks| ==> if asks[i].iceberg then 0.0 <= asks[i].visible else 0.0 <= asks[i].quantity
  }

  predicate SortedByPrice(asks: seq<Ask>) {
    forall i, j :: 0 <= i < j < |asks| ==> asks[i].price <= asks[j].price
  }

  function Sum(xs: seq<real>): real {
    if xs == [] then 0.0 else xs[0] + Sum(xs[1..])
  }

  function CostOf(asks: seq<Ask>, takes: seq<real>): real
    requires |asks| == |takes|
  {
    if asks == [] then 0.0 else Value(asks[0].price, takes[0]) + CostOf(asks[1..], takes[1..])
  }

  /** Taking takes[i] from asks[i] buys exactly `quantity`. */
  predicate Buys(asks: seq<Ask>, takes: seq<real>, quantity: real) {
    |takes| == |asks| &&
    (forall i :: 0 <= i < |asks| ==> CanTake(asks[i], takes[i])) &&
    Sum(takes) == quantity
  }

  function GreedyTakes(asks: seq<Ask>, quantity: real): (takes: seq<real>)
    ensures |takes| == |asks|
  {
    if asks == [] then []
    else
      var fill := if quantity <= 0.0 then 0.0 else Min(quantity, Offered(asks[0]));
      [fill] + GreedyTakes(asks[1..], quantity - fill)
  }

  // ---------- Theorems ----------

  /** The walk leaves nothing over exactly when the loaded volume covers the quantity. */
  lemma {:induction false} WalkRemaining(asks: seq<Ask>, quantity: real)
    requires Offers(asks) && 0.0 <= quantity
    ensures WalkFrom(asks, quantity).remaining == Max(0.0, quantity - Volume(asks))
    ensures 0.0 <= Volume(asks)
  {
    if asks != [] {
      VolumeNonNegative(asks[1..]);
      if quantity > 0.0 {
        WalkRemaining(asks[1..], quantity - Min(quantity, Offered(asks[0])));
      }
    }
  }

  lemma {:induction false} VolumeNonNegative(asks: seq<Ask>)
    requires Offers(asks)
    ensures 0.0 <= Volume(asks)
  {
    if asks != [] { VolumeNonNegative(asks[1..]); }
  }

  /** The walk succeeds if and only if the quantity is covered by what the iceberg asks show and the
      others hold. */
  lemma LockSucceedsIffCovered(asks: seq<Ask>, quantity: real)
    requires Offers(asks) && 0.0 < quantity
    ensures MarketBuyLock(asks, quantity).Ok? <==> quantity <= ShownByIcebergs(asks) + HeldByOthers(asks)
  {
    WalkRemaining(asks, quantity);
  }

  predicate PositivePrices(asks: seq<Ask>) {
    forall i :: 0 <= i < |asks| ==> 0.0 < asks[i].price
  }

  /** With positive prices a market buy always locks something. */
  lemma LockIsPositive(asks: seq<Ask>, quantity: real)
    requires Offers(asks) && PositivePrices(asks) && 0.0 < quantity && MarketBuyLock(asks, quantity).Ok?
    ensures 0.0 < MarketBuyLock(asks, quantity).value
  {
    WalkCost(asks, quantity);
  }

  lemma {:induction false} WalkCost(asks: seq<Ask>, quantity: real)
    requires Offers(asks) && PositivePrices(asks)
    ensures 0.0 <= WalkFrom(asks, quantity).cost
    ensures 0.0 < quantity && WalkFrom(asks, quantity).remaining <= 0.0 ==> 0.0 < WalkFrom(asks, quantity).cost
  {
    hide Value;
    if asks != [] && 0.0 < quantity {
      var fill := Min(quantity, Offered(asks[0]));
      ValuePositive(asks[0].price, fill);
      WalkCost(asks[1..], quantity - fill);
    }
  }

  /** The walk is one of the ways of buying, and its cost is what that way costs. */
  lemma {:induction false} GreedyIsAWay(asks: seq<Ask>, quantity: real)
    requires Offers(asks) && 0.0 <= quantity <= Volume(asks)
    ensures Buys(asks, GreedyTakes(asks, quantity), quantity)
    ensures CostOf(asks, GreedyTakes(asks, quantity)) == WalkFrom(asks, quantity).cost
  {
    hide Value;
    if asks != [] {
      var fill := if quantity <= 0.0 then 0.0 else Min(quantity, Offered(asks[0]));
      VolumeNonNegative(asks[1..]);
      GreedyIsAWay(asks[1..], quantity - fill);
      BuysCons(asks, fill, GreedyTakes(asks[1..], quantity - fill), quantity);
      WalkCons(asks, quantity, fill);
    }
  }

  lemma WalkCons(asks: seq<Ask>, quantity: real, fill: real)
    requires asks != [] && 0.0 <= quantity
    requires fill == if quantity <= 0.0 then 0.0 else Min(quantity, Offered(asks[0]))
    ensures WalkFrom(asks, quantity).cost == Value(asks[0].price, fill) + WalkFrom(asks[1..], quantity - fill).cost
  {
    hide Value;
    ValueZero(asks[0].price);
    WalkOfNothing(asks[1..]);
  }

  lemma BuysCons(asks: seq<Ask>, take: real, rest: seq<real>, quantity: real)
    requires asks != [] && CanTake(asks[0], take) && Buys(asks[1..], rest, quantity - take)
    ensures Buys(asks, [take] + rest, quantity)
    ensures CostOf(asks, [take] + rest) == Value(asks[0].price, take) + CostOf(asks[1..], rest)
  {
    var takes := [take] + rest;
    assert takes[1..] == rest;
    forall i | 0 <= i < |asks| ensures CanTake(asks[i], takes[i]) {
      if i > 0 { assert takes[i] == rest[i - 1] && asks[i] == asks[1..][i - 1]; }
    }
  }

  lemma WalkOfNothing(asks: seq<Ask>)
    ensures WalkFrom(asks, 0.0) == Walk(0.0, 0.0)
  {
  }

  /** No way of buying the quantity from price-sorted asks is cheaper than the walk. */
  lemma {:induction false} WalkIsCheapest(asks: seq<Ask>, takes: seq<real>, quantity: real)
    requires Offers(asks) && SortedByPrice(asks) && Buys(asks, takes, quantity)
    ensures WalkFrom(asks, quantity).cost <= CostOf(asks, takes)
  {
    hide Value;
    if asks != [] {
      var rest, left := asks[1..], quantity - takes[0];
      SumBound(rest, takes[1..]);
      WalkIsCheapest(rest, takes[1..], left);
      var fill := if quantity <= 0.0 then 0.0 else Min(quantity, Offered(asks[0]));
      // the walk takes fill >= takes[0] here and saves that much at the dearer asks
      var saved := fill - takes[0];
      Marginal(rest, asks[0].price, quantity - fill, saved);
      assert quantity - fill + saved == left;
      WalkCons(asks, quantity, fill);
      ValueAdd(asks[0].price, takes[0], saved);
      assert takes[0] + saved == fill;
    }
  }

  /** What a market buy locks: 1.001 times what some way of buying it costs, and, from asks sorted by
      price, no way of buying it costs less. */
  lemma LockIsLeastCost(asks: seq<Ask>, quantity: real)
    requires Offers(asks) && SortedByPrice(asks) && 0.0 < quantity && MarketBuyLock(asks, quantity).Ok?
    ensures exists takes ::
      Buys(asks, takes, quantity) && MarketBuyLock(asks, quantity).value == CostOf(asks, takes) * 1.001
    ensures forall takes :: Buys(asks, takes, quantity) ==>
      MarketBuyLock(asks, quantity).value <= CostOf(asks, takes) * 1.001
  {
    LockSucceedsIffCovered(asks, quantity);
    GreedyIsAWay(asks, quantity);
    forall takes | Buys(asks, takes, quantity)
      ensures MarketBuyLock(asks, quantity).value <= CostOf(asks, takes) * 1.001
    {
      WalkIsCheapest(asks, takes, quantity);
    }
  }

  /** Three from an iceberg that shows 1 of 5 at 10 and from a plain ask at 20. */
  lemma IcebergShowsItsPart()
    ensures MarketBuyLock([Ask(10.0, 5.0, 1.0, true), Ask(20.0, 5.0, 0.0, false)], 3.0) == Ok(50.05)
  {
    var asks := [Ask(10.0, 5.0, 1.0, true), Ask(20.0, 5.0, 0.0, false)];
    assert asks[1..] == [Ask(20.0, 5.0, 0.0, false)] && asks[1..][1..] == [];
    assert Value(10.0, 1.0) == 10.0 && Value(20.0, 2.0) == 40.0;
    assert WalkFrom(asks[1..], 2.0) == Walk(40.0, 0.0);
  }

  lemma {:induction false} SumBound(asks: seq<Ask>, takes: seq<real>)
    requires |asks| == |takes|
    requires forall i :: 0 <= i < |asks| ==> CanTake(asks[i], takes[i])
    ensures 0.0 <= Sum(takes) <= Volume(asks)
  {
    if asks != [] { SumBound(asks[1..], takes[1..]); }
  }

  /** Buying `extra` more from asks priced at least `floor` costs at least floor * extra more. */
  lemma {:induction false} Marginal(asks: seq<Ask>, floor: real, quantity: real, extra: real)
    requires Offers(asks) && 0.0 <= quantity && 0.0 <= extra && quantity + extra <= Volume(asks)
    requires forall i :: 0 <= i < |asks| ==> floor <= asks[i].price
    ensures WalkFrom(asks, quantity).cost + Value(floor, extra) <= WalkFrom(asks, quantity + extra).cost
  {
    hide Value;
    if quantity + extra <= 0.0 {
      ValueZero(floor);
    } else if asks != [] {
      var price := asks[0].price;
      var more := Min(quantity + extra, Offered(asks[0]));
      var less := if quantity <= 0.0 then 0.0 else Min(quantity, Offered(asks[0]));
      var here, left, right := more - less, quantity - less, quantity + extra - more;
      var later := right - left;
      VolumeNonNegative(asks[1..]);
      assert left + later == right && here + later == extra && less + here == more;
      Marginal(asks[1..], floor, left, later);
      WalkCons(asks, quantity, less);
      WalkCons(asks, quantity + extra, more);
      ValueMono(floor, price, here, here);
      ValueAdd(price, less, here);
      ValueAdd(floor, here, later);
    }
  }

  /** The lock covers any execution that follows the walk, in whole or in part, even when every
      execution price is up to 0.1% above the price that was quoted. */
  lemma LockCoversFill(asks: seq<Ask>, quantity: real, prices: seq<real>, takes: seq<real>)
    requires Offers(asks) && 0.0 <= quantity <= Volume(asks)
    requires |prices| == |takes| == |asks|
    requires forall i :: 0 <= i < |asks| ==>
      0.0 <= asks[i].price && 0.0 <= prices[i] <= asks[i].price * BUFFER &&
      0.0 <= takes[i] <= GreedyTakes(asks, quantity)[i]
    ensures Spend(prices, takes) <= WalkFrom(asks, quantity).cost * BUFFER
  {
    GreedyIsAWay(asks, quantity);
    SpendBound(asks, prices, takes, GreedyTakes(asks, quantity));
  }

  function Spend(prices: seq<real>, takes: seq<real>): real
    requires |prices| == |takes|
  {
    if prices == [] then 0.0 else Value(prices[0], takes[0]) + Spend(prices[1..], takes[1..])
  }

  lemma {:induction false} SpendBound(asks: seq<Ask>, prices: seq<real>, takes: seq<real>, plan: seq<real>)
    requires |prices| == |takes| == |asks| == |plan|
    requires forall i :: 0 <= i < |asks| ==>
      0.0 <= asks[i].price && 0.0 <= prices[i] <= asks[i].price * BUFFER && 0.0 <= takes[i] <= plan[i]
    ensures Spend(prices, takes) <= CostOf(asks, plan) * BUFFER
  {
    hide Value;
    if asks != [] {
      SpendBound(asks[1..], prices[1..], takes[1..], plan[1..]);
      ValueMono(prices[0], asks[0].price * BUFFER, takes[0], plan[0]);
      ValueBuffer(asks[0].price, plan[0]);
    }
  }

  lemma ValueBuffer(price: real, qty: real)
    ensures Value(price * BUFFER, qty) == Value(price, qty) * BUFFER
  {
  }
}
