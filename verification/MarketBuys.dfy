/** A market buy that is matched as its ask walk foresaw settles out of what the walk locked. */
module MarketBuys {
  import opened Domain
  import opened AskWalk
  import opened Ledger
  import opened Soundness
  import opened Claims
  import opened BaseLocks

  // ---------- What executions along the walk cost ----------

  /** How much the executions take from ask a; `from[j]` is the ask that execution j fills. */
  function TakenAt(execs: seq<Exec>, from: seq<nat>, a: nat): real
    requires |from| == |execs|
  {
    if execs == [] then 0.0
    else
      var n := |execs| - 1;
      TakenAt(execs[..n], from[..n], a) + if from[n] == a then execs[n].qty else 0.0
  }

  /** The executions take no more from any ask than the walk did, at prices up to 0.1% above it. */
  ghost predicate FollowsWalk(execs: seq<Exec>, from: seq<nat>, asks: seq<Ask>, quantity: real) {
    |from| == |execs| &&
    (forall j :: 0 <= j < |execs| ==> from[j] < |asks| && execs[j].price <= asks[from[j]].price * BUFFER) &&
    forall a :: 0 <= a < |asks| ==> TakenAt(execs, from, a) <= GreedyTakes(asks, quantity)[a]
  }

  lemma {:induction false} SpendMore(prices: seq<real>, takes: seq<real>, a: nat, qty: real)
    requires |prices| == |takes| && a < |prices|
    ensures Spend(prices, takes[a := takes[a] + qty]) == Spend(prices, takes) + Value(prices[a], qty)
  {
    hide Value;
    var more := takes[a := takes[a] + qty];
    if a == 0 {
      assert more[1..] == takes[1..];
      ValueAdd(prices[0], takes[0], qty);
    } else {
      assert more[1..] == takes[1..][a - 1 := takes[1..][a - 1] + qty];
      SpendMore(prices[1..], takes[1..], a - 1, qty);
    }
  }

  lemma {:induction false} SpendNothing(prices: seq<real>, takes: seq<real>)
    requires |prices| == |takes| && forall i :: 0 <= i < |takes| ==> takes[i] == 0.0
    ensures Spend(prices, takes) == 0.0
  {
    if prices != [] {
      ValueZero(prices[0]);
      SpendNothing(prices[1..], takes[1..]);
    }
  }

  function Taken(execs: seq<Exec>, from: seq<nat>, n: nat): seq<real>
    requires |from| == |execs|
  {
    seq(n, a requires 0 <= a < n => TakenAt(execs, from, a))
  }

  /** The executions cost at most what the asks they fill would cost at the highest price allowed. */
  lemma {:induction false} QuoteIsSpent(execs: seq<Exec>, from: seq<nat>, prices: seq<real>)
    requires |from| == |execs| && Positive(execs)
    requires forall j :: 0 <= j < |execs| ==> from[j] < |prices| && execs[j].price <= prices[from[j]]
    ensures TotalQuote(execs) <= Spend(prices, Taken(execs, from, |prices|))
    ensures forall a :: 0 <= a < |prices| ==> 0.0 <= TakenAt(execs, from, a)
  {
    hide Value;
    if execs == [] {
      SpendNothing(prices, Taken(execs, from, |prices|));
    } else {
      var n := |execs| - 1;
      var e, at, before := execs[n], from[n], Taken(execs[..n], from[..n], |prices|);
      QuoteIsSpent(execs[..n], from[..n], prices);
      assert Taken(execs, from, |prices|) == before[at := before[at] + e.qty];
      SpendMore(prices, before, at, e.qty);
      ValueMono(e.price, prices[at], e.qty, e.qty);
    }
  }

  /** The walk's lock covers all that the executions cost. */
  lemma LockCoversQuote(execs: seq<Exec>, from: seq<nat>, asks: seq<Ask>, quantity: real)
    requires Offers(asks) && 0.0 < quantity && MarketBuyLock(asks, quantity).Ok?
    requires forall i :: 0 <= i < |asks| ==> 0.0 <= asks[i].price
    requires Positive(execs) && FollowsWalk(execs, from, asks, quantity)
    ensures TotalQuote(execs) <= MarketBuyLock(asks, quantity).value
  {
    hide Value;
    var prices := seq(|asks|, i requires 0 <= i < |asks| => asks[i].price * BUFFER);
    LockSucceedsIffCovered(asks, quantity);
    QuoteIsSpent(execs, from, prices);
    LockCoversFill(asks, quantity, prices, Taken(execs, from, |prices|));
  }

  // ---------- The batch ----------

  ghost predicate AllSales(fills: seq<Fill>) {
    forall i :: 0 <= i < |fills| ==> fills[i].side == Sell
  }

  /** Sales within live orders always settle, and leave everybody's locked quote as it was. */
  lemma {:induction false} SalesCommit(s: State, fills: seq<Fill>, pair: Pair)
    requires RowsSound(s.balances) && OrdersOk(s.orders) && pair.base != pair.quote && Exact(s, pair.base)
    requires Known(s, fills) && FillsOk(fills) && DistinctOrders(fills) && AllSales(fills)
    requires forall i :: 0 <= i < |fills| ==> Fits(s.orders[fills[i].order], fills[i], pair)
    ensures ApplyFills(s, fills, pair).Ok?
    ensures var after := ApplyFills(s, fills, pair).value;
      RowsSound(after.balances) && |after.orders| == |s.orders| &&
      (forall i :: 0 <= i < |s.orders| ==> after.orders[i].user == s.orders[i].user) &&
      forall u: nat :: LockedOf(after.balances, Account(u, pair.quote)) == LockedOf(s.balances, Account(u, pair.quote))
    decreases |fills|
  {
    hide Value;
    if fills != [] {
      var f, rest := fills[0], fills[1..];
      var o := s.orders[f.order];
      assert Fits(o, f, pair) && OrderOk(o) && OrderOk(FillOrder(o, f));
      SaleIsFunded(s, f, pair, pair.base);
      var s1 := ApplyFill(s, f, pair).value;
      SoundSettle(s.balances, o.user, f, pair);
      forall u: nat ensures Gap(s1, OnBase(u, pair.base)) == 0.0 {
        assert Gap(s, OnBase(u, pair.base)) == 0.0;
        FillLeak(s, f, pair, pair.base, u);
      }
      forall i | 0 <= i < |rest|
        ensures rest[i] == fills[i + 1] && Fits(s1.orders[rest[i].order], rest[i], pair)
      {
        assert rest[i].order != f.order;
      }
      SalesCommit(s1, rest, pair);
    }
  }

  lemma {:induction false} ApplyFillsAppend(s: State, fills: seq<Fill>, f: Fill, pair: Pair)
    requires Known(s, fills) && f.order < |s.orders| && ApplyFills(s, fills, pair).Ok?
    ensures Known(s, fills + [f]) && f.order < |ApplyFills(s, fills, pair).value.orders|
    ensures ApplyFills(s, fills + [f], pair) == ApplyFill(ApplyFills(s, fills, pair).value, f, pair)
    decreases |fills|
  {
    hide ApplyFill;
    if fills == [] {
      assert fills + [f] == [f] && [f][1..] == [];
    } else {
      ApplyFillKeepsCount(s, fills[0], pair);
      assert (fills + [f])[1..] == fills[1..] + [f] && (fills + [f])[0] == fills[0];
      assert forall i :: 0 <= i < |fills[1..]| ==> fills[1..][i] == fills[i + 1];
      ApplyFillsAppend(ApplyFill(s, fills[0], pair).value, fills[1..], f, pair);
    }
  }

  lemma ApplyFillKeepsCount(s: State, f: Fill, pair: Pair)
    requires f.order < |s.orders| && ApplyFill(s, f, pair).Ok?
    ensures |ApplyFill(s, f, pair).value.orders| == |s.orders|
  {
  }

  /** A market buy within the matcher's contract settles if its executions follow the walk that priced
      it and its account still holds what the walk locked. */
  lemma MarketBuyCommits(s: State, taker: nat, m: Outcome, asks: seq<Ask>, from: seq<nat>)
    requires Sound(s) && MatcherContract(s, taker, m) && !m.rejected && m.execs != []
    requires s.orders[taker].side == Buy && s.orders[taker].kind == Market
    requires s.orders[taker].pair.base != s.orders[taker].pair.quote && Exact(s, s.orders[taker].pair.base)
    requires Offers(asks) && forall i :: 0 <= i < |asks| ==> 0.0 <= asks[i].price
    requires var o := s.orders[taker];
      MarketBuyLock(asks, o.quantity).Ok? && FollowsWalk(m.execs, from, asks, o.quantity) &&
      MarketBuyLock(asks, o.quantity).value <= LockedOf(s.balances, PayAccount(o))
    ensures PersistBatch(s, taker, m.execs).Ok?
  {
    hide Value;
    var o := s.orders[taker];
    assert OrderOk(o);
    var s0 := s.(trades := s.trades + TradesOf(s.orders, taker, m.execs));
    var makers := Aggregate(m.execs, Sell);
    var last := Fill(taker, Buy, TotalQty(m.execs), TotalQuote(m.execs), true);
    BatchShape(s, taker, m);
    AggregateShape(m.execs, Sell);
    MakersPart(s0.orders, makers, last, o.pair);
    forall u: nat ensures Gap(s0, OnBase(u, o.pair.base)) == 0.0 {
      assert Gap(s, OnBase(u, o.pair.base)) == 0.0;
      GapIgnoresTrades(s, s0.trades, OnBase(u, o.pair.base));
    }
    SalesCommit(s0, makers, o.pair);
    ApplyFillsAppend(s0, makers, last, o.pair);
    LockCoversQuote(m.execs, from, asks, o.quantity);
    TotalsPositive(m.execs);
    PurchaseSettles(ApplyFills(s0, makers, o.pair).value, last, o.pair);
  }

  lemma MakersPart(orders: seq<Order>, makers: seq<Fill>, last: Fill, pair: Pair)
    requires var fills := makers + [last];
      forall i :: 0 <= i < |fills| ==> fills[i].order < |orders| && Fits(orders[fills[i].order], fills[i], pair)
    ensures forall i :: 0 <= i < |makers| ==>
      makers[i].order < |orders| && Fits(orders[makers[i].order], makers[i], pair)
  {
    forall i | 0 <= i < |makers|
      ensures makers[i].order < |orders| && Fits(orders[makers[i].order], makers[i], pair)
    {
      assert (makers + [last])[i] == makers[i];
    }
  }

  lemma PurchaseSettles(s: State, f: Fill, pair: Pair)
    requires RowsSound(s.balances) && f.order < |s.orders| && f.side == Buy && 0.0 < f.qty && 0.0 < f.quote
    requires pair.base != pair.quote && f.quote <= LockedOf(s.balances, Account(s.orders[f.order].user, pair.quote))
    ensures ApplyFill(s, f, pair).Ok?
  {
  }
}
