/** When a match commits, and what it conserves. */
module Settlement {
  import opened Domain
  import opened Rows
  import opened AskWalk
  import opened Ledger
  import opened Soundness
  import opened Claims
  import opened FillBooks
  import opened BaseLocks
  import opened QuoteLocks

  // ---------- A match within its limits always commits ----------

  /** The buyer of a live priced order has at least the cost of a fill within its limit locked. */
  lemma PurchaseIsFunded(s: State, f: Fill, pair: Pair)
    requires RowsSound(s.balances) && OrdersOk(s.orders)
    requires f.order < |s.orders| && 0.0 < f.qty && 0.0 < f.quote && f.side == Buy && Fits(s.orders[f.order], f, pair)
    requires Gap(s, OnQuote(s.orders[f.order].user, pair.quote)) <= 0.0
    requires PaidWithinLimit(OnQuote(s.orders[f.order].user, pair.quote), s.orders[f.order], f)
    ensures Account(s.orders[f.order].user, pair.quote) in s.balances
    ensures f.quote <= s.balances[Account(s.orders[f.order].user, pair.quote)].locked
  {
    hide Value;
    var o := s.orders[f.order];
    OwedAtLeast(OnQuote(o.user, pair.quote), s.orders, f.order);
    assert OrderOk(o);
    ValueMono(o.price.value, o.price.value, f.qty, Remaining(o));
  }

  lemma {:induction false} FillsCommit(s: State, fills: seq<Fill>, pair: Pair)
    requires RowsSound(s.balances) && OrdersOk(s.orders) && pair.base != pair.quote
    requires Exact(s, pair.base) && Covered(s, pair.quote)
    requires Known(s, fills) && FillsOk(fills) && DistinctOrders(fills)
    requires forall i :: 0 <= i < |fills| ==>
      Fits(s.orders[fills[i].order], fills[i], pair) &&
      PaidWithinLimit(OnQuote(s.orders[fills[i].order].user, pair.quote), s.orders[fills[i].order], fills[i])
    ensures ApplyFills(s, fills, pair).Ok?
    decreases |fills|
  {
    hide Value;
    if fills != [] {
      var f, rest := fills[0], fills[1..];
      var o := s.orders[f.order];
      assert Fits(o, f, pair) && OrderOk(o) && OrderOk(FillOrder(o, f));
      if f.side == Sell {
        SaleIsFunded(s, f, pair, pair.base);
      } else {
        assert Gap(s, OnQuote(o.user, pair.quote)) <= 0.0;
        PurchaseIsFunded(s, f, pair);
      }
      var s1 := ApplyFill(s, f, pair).value;
      SoundSettle(s.balances, o.user, f, pair);
      forall u: nat ensures Gap(s1, OnBase(u, pair.base)) == 0.0 && Gap(s1, OnQuote(u, pair.quote)) <= 0.0 {
        assert Gap(s, OnBase(u, pair.base)) == 0.0 && Gap(s, OnQuote(u, pair.quote)) <= 0.0;
        if f.side == Sell { assert Account(o.user, pair.base) in s.balances; }
        FillLeak(s, f, pair, pair.base, u);
        BuyFillCovered(s, f, pair, OnQuote(u, pair.quote));
      }
      forall i | 0 <= i < |rest|
        ensures rest[i] == fills[i + 1] && Fits(s1.orders[rest[i].order], rest[i], pair) &&
          PaidWithinLimit(OnQuote(s1.orders[rest[i].order].user, pair.quote), s1.orders[rest[i].order], rest[i])
      {
        assert rest[i].order != f.order;
      }
      FillsCommit(s1, rest, pair);
    }
  }

  /** With exact sell locks and covered buy locks, a batch that the matcher formed within live orders
      and limits always settles; only a market buy can run out of locked funds. */
  lemma BatchCommits(s: State, taker: nat, m: Outcome)
    requires Sound(s) && MatcherContract(s, taker, m) && PriceContract(s, taker, m) && !m.rejected && m.execs != []
    requires s.orders[taker].side == Sell || s.orders[taker].kind != Market
    requires var pair := s.orders[taker].pair;
      pair.base != pair.quote && Exact(s, pair.base) && Covered(s, pair.quote)
    ensures PersistBatch(s, taker, m.execs).Ok?
  {
    hide Value;
    var o := s.orders[taker];
    var fills := FillsOf(taker, o.side, m.execs);
    var s0 := s.(trades := s.trades + TradesOf(s.orders, taker, m.execs));
    BatchShape(s, taker, m);
    forall u: nat ensures Gap(s0, OnBase(u, o.pair.base)) == 0.0 && Gap(s0, OnQuote(u, o.pair.quote)) <= 0.0 {
      assert Gap(s, OnBase(u, o.pair.base)) == 0.0 && Gap(s, OnQuote(u, o.pair.quote)) <= 0.0;
      GapIgnoresTrades(s, s0.trades, OnBase(u, o.pair.base));
      GapIgnoresTrades(s, s0.trades, OnQuote(u, o.pair.quote));
    }
    forall i | 0 <= i < |fills|
      ensures PaidWithinLimit(OnQuote(s.orders[fills[i].order].user, o.pair.quote), s.orders[fills[i].order], fills[i])
    {
      BatchWithinLimitsUnlessMarket(s, taker, m, OnQuote(s.orders[fills[i].order].user, o.pair.quote));
    }
    FillsCommit(s0, fills, o.pair);
  }

  /** After any run of single buys in a pair's quote asset no match of a priced or a selling taker
      within the contract fails: neither its settlement nor its refund. */
  lemma RunMatchesCommit(s: State, steps: seq<Step>, taker: nat, m: Outcome)
    requires Sound(s) && RunContract(s, steps)
    requires taker < |Run(s, steps).orders|
    requires var pair := Run(s, steps).orders[taker].pair;
      pair.base != pair.quote && pair.base != "" && pair.quote != "" &&
      Exact(s, pair.base) && AllSeparate(OnBase(0, pair.base), s.orders) &&
      (forall i :: 0 <= i < |steps| ==> StepSeparate(OnBase(0, pair.base), steps[i])) &&
      Covered(s, pair.quote) && AllSeparate(OnQuote(0, pair.quote), s.orders) && SingleBuyRun(s, steps, pair.quote)
    requires MatcherContract(Run(s, steps), taker, m) && PriceContract(Run(s, steps), taker, m)
    requires Run(s, steps).orders[taker].side == Sell || Run(s, steps).orders[taker].kind != Market
    ensures Match(Run(s, steps), taker, m).Ok?
  {
    hide Run, MatcherContract, PriceContract, Exact, Covered, SingleBuyRun, AllSeparate, PersistBatch, Lineage;
    var after := Run(s, steps);
    var pair := after.orders[taker].pair;
    RunKeepsSound(s, steps);
    RunKeepsExact(s, steps, pair.base);
    RunOfSingleBuysKeepsCovered(s, steps, pair.quote);
    if !m.rejected {
      if m.execs != [] { BatchCommits(after, taker, m); } else { NothingToSettle(after, taker); }
      SoundBatch(after, taker, m);
    }
  }

  lemma NothingToSettle(s: State, taker: nat)
    ensures PersistBatch(s, taker, []) == Ok(s)
  {
  }

  /** The error that names the row from which a fill cannot be paid. */
  predicate IsShort(orders: seq<Order>, f: Fill, pair: Pair, e: Error) {
    f.order < |orders| && e == LockedShort(Account(orders[f.order].user, PaidAsset(f.side, pair)))
  }

  lemma {:induction false} FillsFailShort(s: State, fills: seq<Fill>, pair: Pair)
    requires RowsSound(s.balances) && Known(s, fills) && FillsOk(fills) && ApplyFills(s, fills, pair).Err?
    ensures exists i :: 0 <= i < |fills| && IsShort(s.orders, fills[i], pair, ApplyFills(s, fills, pair).error)
    decreases |fills|
  {
    hide FillOrder;
    var f, rest := fills[0], fills[1..];
    assert forall i :: 0 <= i < |rest| ==> rest[i] == fills[i + 1];
    if ApplyFill(s, f, pair).Ok? {
      var s1 := ApplyFill(s, f, pair).value;
      SoundSettle(s.balances, s.orders[f.order].user, f, pair);
      FillKeepsUsers(s, f, pair);
      FillsFailShort(s1, rest, pair);
      var i :| 0 <= i < |rest| && IsShort(s1.orders, rest[i], pair, ApplyFills(s1, rest, pair).error);
      assert IsShort(s.orders, fills[i + 1], pair, ApplyFills(s, fills, pair).error);
    } else {
      FillFailsShort(s, f, pair);
      assert IsShort(s.orders, fills[0], pair, ApplyFills(s, fills, pair).error);
    }
  }

  lemma FillFailsShort(s: State, f: Fill, pair: Pair)
    requires RowsSound(s.balances) && f.order < |s.orders| && 0.0 < f.qty && 0.0 < f.quote
    requires ApplyFill(s, f, pair).Err?
    ensures IsShort(s.orders, f, pair, ApplyFill(s, f, pair).error)
    ensures LockedOf(s.balances, PayRow(s.orders, f, pair)) < PaidAmount(f)
  {
  }

  lemma FillKeepsUsers(s: State, f: Fill, pair: Pair)
    requires f.order < |s.orders| && ApplyFill(s, f, pair).Ok?
    ensures var after := ApplyFill(s, f, pair).value.orders;
      |after| == |s.orders| && forall i :: 0 <= i < |after| ==> after[i].user == s.orders[i].user
  {
  }

  /** Why a batch fails: one of its orders is unknown, or a party has less locked than it must pay, and
      then the error names that party's row. */
  lemma BatchFailsFor(s: State, taker: nat, execs: seq<Exec>)
    requires RowsSound(s.balances) && Positive(execs) && PersistBatch(s, taker, execs).Err?
    ensures var known := taker < |s.orders| && AllMakersKnown(s.orders, execs);
      if !known then PersistBatch(s, taker, execs).error == MissingOrder
      else
        var fills := FillsOf(taker, s.orders[taker].side, execs);
        exists i :: 0 <= i < |fills| &&
          IsShort(s.orders, fills[i], s.orders[taker].pair, PersistBatch(s, taker, execs).error)
  {
    hide ApplyFills;
    if execs != [] && taker < |s.orders| && AllMakersKnown(s.orders, execs) {
      var o := s.orders[taker];
      AggregateKnown(execs, Opposite(o.side), |s.orders|);
      AggregateShape(execs, Opposite(o.side));
      TotalsPositive(execs);
      FillsFailShort(s.(trades := s.trades + TradesOf(s.orders, taker, execs)), FillsOf(taker, o.side, execs), o.pair);
    }
  }

  // ---------- Conservation ----------

  /** All holdings of one asset. */
  ghost function TotalOf(b: Balances, asset: string): real
    decreases |b|
  {
    if b == map[] then 0.0
    else
      var k :| k in b;
      (if k.asset == asset then b[k].total else 0.0) + TotalOf(b - {k}, asset)
  }

  function Held(b: Balances, k: Account, asset: string): real {
    if k in b && k.asset == asset then b[k].total else 0.0
  }

  /** The sum does not depend on the order of summation. */
  lemma {:induction false} TotalSplit(b: Balances, k: Account, asset: string)
    requires k in b
    ensures TotalOf(b, asset) == Held(b, k, asset) + TotalOf(b - {k}, asset)
    decreases |b|
  {
    var j :| j in b && TotalOf(b, asset) == Held(b, j, asset) + TotalOf(b - {j}, asset);
    if j != k {
      TotalSplit(b - {j}, k, asset);
      TotalSplit(b - {k}, j, asset);
      assert b - {j} - {k} == b - {k} - {j};
      assert Held(b - {j}, k, asset) == Held(b, k, asset);
      assert Held(b - {k}, j, asset) == Held(b, j, asset);
      assert TotalOf(b - {j}, asset) == Held(b, k, asset) + TotalOf(b - {j} - {k}, asset);
      assert TotalOf(b - {k}, asset) == Held(b, j, asset) + TotalOf(b - {k} - {j}, asset);
      assert TotalOf(b - {j} - {k}, asset) == TotalOf(b - {k} - {j}, asset);
    }
  }

  lemma TotalSet(b: Balances, k: Account, r: Row, asset: string)
    ensures TotalOf(b[k := r], asset) ==
      TotalOf(b, asset) - Held(b, k, asset) + (if k.asset == asset then r.total else 0.0)
  {
    TotalSplit(b[k := r], k, asset);
    if k in b {
      TotalSplit(b, k, asset);
      assert b[k := r] - {k} == b - {k};
    } else {
      assert b[k := r] - {k} == b;
    }
  }

  /** What one fill adds to the holdings of an asset: the credit, if its row exists, less the
      settlement, if its row exists. */
  function NetOf(b: Balances, user: nat, f: Fill, pair: Pair, asset: string): real {
    var pay, receive := Account(user, PaidAsset(f.side, pair)), Account(user, PaidAsset(Opposite(f.side), pair));
    (if receive in b && receive.asset == asset then ReceivedAmount(f) else 0.0) -
    (if pay in b && pay.asset == asset then PaidAmount(f) else 0.0)
  }

  lemma SettleNet(b: Balances, user: nat, f: Fill, pair: Pair, asset: string)
    requires SettleBalances(b, user, f, pair).Ok?
    ensures TotalOf(SettleBalances(b, user, f, pair).value, asset) == TotalOf(b, asset) + NetOf(b, user, f, pair, asset)
    ensures SettleBalances(b, user, f, pair).value.Keys == b.Keys
  {
    var pay, receive := Account(user, PaidAsset(f.side, pair)), Account(user, PaidAsset(Opposite(f.side), pair));
    var b1 := b;
    if pay in b {
      var r := Settle(b[pay], PaidAmount(f)).value;
      TotalSet(b, pay, r, asset);
      b1 := b[pay := r];
    }
    if receive in b1 {
      TotalSet(b1, receive, Credit(b1[receive], ReceivedAmount(f)).value, asset);
    }
  }

  /** The net effect of all fills, with the rows that exist beforehand. */
  function NetOfAll(b: Balances, orders: seq<Order>, fills: seq<Fill>, pair: Pair, asset: string): real
    requires forall i :: 0 <= i < |fills| ==> fills[i].order < |orders|
  {
    if fills == [] then 0.0
    else
      assert forall i :: 0 <= i < |fills[1..]| ==> fills[1..][i] == fills[i + 1];
      NetOf(b, orders[fills[0].order].user, fills[0], pair, asset) + NetOfAll(b, orders, fills[1..], pair, asset)
  }

  lemma {:induction false} NetOfAllStable(b: Balances, b': Balances, orders: seq<Order>, orders': seq<Order>,
                                          fills: seq<Fill>, pair: Pair, asset: string)
    requires b.Keys == b'.Keys && |orders| == |orders'|
    requires forall i :: 0 <= i < |orders| ==> orders[i].user == orders'[i].user
    requires forall i :: 0 <= i < |fills| ==> fills[i].order < |orders|
    ensures NetOfAll(b, orders, fills, pair, asset) == NetOfAll(b', orders', fills, pair, asset)
  {
    if fills != [] {
      assert forall i :: 0 <= i < |fills[1..]| ==> fills[1..][i] == fills[i + 1];
      NetOfAllStable(b, b', orders, orders', fills[1..], pair, asset);
    }
  }

  lemma {:induction false} FillsNet(s: State, fills: seq<Fill>, pair: Pair, asset: string)
    requires Known(s, fills) && ApplyFills(s, fills, pair).Ok?
    ensures TotalOf(ApplyFills(s, fills, pair).value.balances, asset) ==
      TotalOf(s.balances, asset) + NetOfAll(s.balances, s.orders, fills, pair, asset)
    ensures ApplyFills(s, fills, pair).value.balances.Keys == s.balances.Keys
    decreases |fills|
  {
    if fills != [] {
      assert forall i :: 0 <= i < |fills[1..]| ==> fills[1..][i] == fills[i + 1];
      var s1 := ApplyFill(s, fills[0], pair).value;
      SettleNet(s.balances, s.orders[fills[0].order].user, fills[0], pair, asset);
      FillsNet(s1, fills[1..], pair, asset);
      NetOfAllStable(s.balances, s1.balances, s.orders, s1.orders, fills[1..], pair, asset);
    }
  }

  function PayRow(orders: seq<Order>, f: Fill, pair: Pair): Account
    requires f.order < |orders|
  {
    Account(orders[f.order].user, PaidAsset(f.side, pair))
  }

  function ReceiveRow(orders: seq<Order>, f: Fill, pair: Pair): Account
    requires f.order < |orders|
  {
    Account(orders[f.order].user, PaidAsset(Opposite(f.side), pair))
  }

  /** What is due to parties that have no row to receive it. */
  function Unreceived(b: Balances, orders: seq<Order>, fills: seq<Fill>, pair: Pair, asset: string): real
    requires forall i :: 0 <= i < |fills| ==> fills[i].order < |orders|
  {
    if fills == [] then 0.0
    else
      assert forall i :: 0 <= i < |fills[1..]| ==> fills[1..][i] == fills[i + 1];
      var row := ReceiveRow(orders, fills[0], pair);
      (if row !in b && row.asset == asset then ReceivedAmount(fills[0]) else 0.0) +
      Unreceived(b, orders, fills[1..], pair, asset)
  }

  /** What is due from parties that have no row to pay it from. */
  function Unpaid(b: Balances, orders: seq<Order>, fills: seq<Fill>, pair: Pair, asset: string): real
    requires forall i :: 0 <= i < |fills| ==> fills[i].order < |orders|
  {
    if fills == [] then 0.0
    else
      assert forall i :: 0 <= i < |fills[1..]| ==> fills[1..][i] == fills[i + 1];
      var row := PayRow(orders, fills[0], pair);
      (if row !in b && row.asset == asset then PaidAmount(fills[0]) else 0.0) +
      Unpaid(b, orders, fills[1..], pair, asset)
  }

  /** The signed flow of an asset through the fills if every row existed. */
  function Flow(fills: seq<Fill>, pair: Pair, asset: string): real {
    if fills == [] then 0.0
    else
      var f := fills[0];
      (if PaidAsset(Opposite(f.side), pair) == asset then ReceivedAmount(f) else 0.0) -
      (if PaidAsset(f.side, pair) == asset then PaidAmount(f) else 0.0) + Flow(fills[1..], pair, asset)
  }

  lemma {:induction false} NetIsFlow(s: State, fills: seq<Fill>, pair: Pair, asset: string)
    requires Known(s, fills)
    ensures NetOfAll(s.balances, s.orders, fills, pair, asset) ==
      Flow(fills, pair, asset) - Unreceived(s.balances, s.orders, fills, pair, asset) +
      Unpaid(s.balances, s.orders, fills, pair, asset)
  {
    if fills != [] {
      assert forall i :: 0 <= i < |fills[1..]| ==> fills[1..][i] == fills[i + 1];
      NetIsFlow(s, fills[1..], pair, asset);
    }
  }

  lemma {:induction false} FlowOneSide(fills: seq<Fill>, side: Side, pair: Pair, asset: string)
    requires forall i :: 0 <= i < |fills| ==> fills[i].side == side
    ensures Flow(fills, pair, asset) ==
      (if PaidAsset(Opposite(side), pair) == asset
       then AllFills(if side == Buy then Quantity else QuoteValue, fills) else 0.0) -
      (if PaidAsset(side, pair) == asset then AllFills(if side == Buy then QuoteValue else Quantity, fills) else 0.0)
  {
    if fills != [] { FlowOneSide(fills[1..], side, pair, asset); }
  }

  lemma {:induction false} FlowAppend(fills: seq<Fill>, f: Fill, pair: Pair, asset: string)
    ensures Flow(fills + [f], pair, asset) == Flow(fills, pair, asset) + Flow([f], pair, asset)
  {
    if fills != [] {
      assert (fills + [f])[1..] == fills[1..] + [f];
      FlowAppend(fills[1..], f, pair, asset);
    } else {
      assert fills + [f] == [f];
    }
  }

  /** What the makers give, the taker gets, and the other way round. */
  lemma BatchFlowIsZero(taker: nat, side: Side, execs: seq<Exec>, pair: Pair, asset: string)
    requires Positive(execs)
    ensures Flow(FillsOf(taker, side, execs), pair, asset) == 0.0
  {
    hide Value;
    var makers := Aggregate(execs, Opposite(side));
    var last := Fill(taker, side, TotalQty(execs), TotalQuote(execs), true);
    AggregateShape(execs, Opposite(side));
    AggregateIsGroupBy(Quantity, execs, Opposite(side), taker);
    AggregateIsGroupBy(QuoteValue, execs, Opposite(side), taker);
    FlowOneSide(makers, Opposite(side), pair, asset);
    FlowAppend(makers, last, pair, asset);
    assert [last][1..] == [];
  }

  /** Every party that is due some of the asset has a row to receive it. */
  ghost predicate PayeesHaveRows(s: State, fills: seq<Fill>, pair: Pair, asset: string) {
    forall i :: 0 <= i < |fills| && PaidAsset(Opposite(fills[i].side), pair) == asset ==>
      fills[i].order < |s.orders| && ReceiveRow(s.orders, fills[i], pair) in s.balances
  }

  /** Every party that owes some of the asset has a row to pay it from. */
  ghost predicate PayersHaveRows(s: State, fills: seq<Fill>, pair: Pair, asset: string) {
    forall i :: 0 <= i < |fills| && PaidAsset(fills[i].side, pair) == asset ==>
      fills[i].order < |s.orders| && PayRow(s.orders, fills[i], pair) in s.balances
  }

  lemma {:induction false} UnreceivedZeroIff(s: State, fills: seq<Fill>, pair: Pair, asset: string)
    requires Known(s, fills) && FillsOk(fills)
    ensures 0.0 <= Unreceived(s.balances, s.orders, fills, pair, asset)
    ensures Unreceived(s.balances, s.orders, fills, pair, asset) == 0.0 <==> PayeesHaveRows(s, fills, pair, asset)
  {
    if fills != [] {
      var rest := fills[1..];
      assert forall i :: 0 <= i < |rest| ==> rest[i] == fills[i + 1];
      UnreceivedZeroIff(s, rest, pair, asset);
      assert PayeesHaveRows(s, fills, pair, asset) <==>
        (PaidAsset(Opposite(fills[0].side), pair) == asset ==> ReceiveRow(s.orders, fills[0], pair) in s.balances) &&
        PayeesHaveRows(s, rest, pair, asset);
    }
  }

  lemma {:induction false} UnpaidZeroIff(s: State, fills: seq<Fill>, pair: Pair, asset: string)
    requires Known(s, fills) && FillsOk(fills)
    ensures 0.0 <= Unpaid(s.balances, s.orders, fills, pair, asset)
    ensures Unpaid(s.balances, s.orders, fills, pair, asset) == 0.0 <==> PayersHaveRows(s, fills, pair, asset)
  {
    if fills != [] {
      var rest := fills[1..];
      assert forall i :: 0 <= i < |rest| ==> rest[i] == fills[i + 1];
      UnpaidZeroIff(s, rest, pair, asset);
      assert PayersHaveRows(s, fills, pair, asset) <==>
        (PaidAsset(fills[0].side, pair) == asset ==> PayRow(s.orders, fills[0], pair) in s.balances) &&
        PayersHaveRows(s, rest, pair, asset);
    }
  }

  /** What a batch takes out of the total of an asset: what is due to parties without a row less
      what is due from parties without one. */
  function Lost(s: State, taker: nat, execs: seq<Exec>, asset: string): real
    requires taker < |s.orders| && AllMakersKnown(s.orders, execs)
  {
    AggregateKnown(execs, Opposite(s.orders[taker].side), |s.orders|);
    var o := s.orders[taker];
    var fills := FillsOf(taker, o.side, execs);
    Unreceived(s.balances, s.orders, fills, o.pair, asset) - Unpaid(s.balances, s.orders, fills, o.pair, asset)
  }

  /** The total after any committed batch, whoever lacks a row. */
  lemma BatchTotal(s: State, taker: nat, execs: seq<Exec>, asset: string)
    requires execs != [] && Positive(execs) && PersistBatch(s, taker, execs).Ok?
    ensures TotalOf(PersistBatch(s, taker, execs).value.balances, asset) ==
      TotalOf(s.balances, asset) - Lost(s, taker, execs, asset)
  {
    hide Value;
    var o := s.orders[taker];
    var fills := FillsOf(taker, o.side, execs);
    var s0 := s.(trades := s.trades + TradesOf(s.orders, taker, execs));
    AggregateKnown(execs, Opposite(o.side), |s.orders|);
    FillsNet(s0, fills, o.pair, asset);
    NetIsFlow(s0, fills, o.pair, asset);
    BatchFlowIsZero(taker, o.side, execs, o.pair, asset);
  }

  /** A committed batch conserves an asset if and only if as much of it is due to parties without a
      row as from parties without one.  When every payer has a row nothing is created, and the
      asset is conserved if and only if every payee has one, too. */
  lemma BatchConservesIff(s: State, taker: nat, execs: seq<Exec>, asset: string)
    requires execs != [] && Positive(execs) && PersistBatch(s, taker, execs).Ok?
    ensures var o, fills := s.orders[taker], FillsOf(taker, s.orders[taker].side, execs);
      var before, after := TotalOf(s.balances, asset), TotalOf(PersistBatch(s, taker, execs).value.balances, asset);
      Known(s, fills) &&
      (after == before <==>
         Unreceived(s.balances, s.orders, fills, o.pair, asset) ==
         Unpaid(s.balances, s.orders, fills, o.pair, asset)) &&
      (PayersHaveRows(s, fills, o.pair, asset) ==>
         after <= before && (after == before <==> PayeesHaveRows(s, fills, o.pair, asset))) &&
      (PayeesHaveRows(s, fills, o.pair, asset) ==>
         before <= after && (after == before <==> PayersHaveRows(s, fills, o.pair, asset)))
  {
    var o, fills := s.orders[taker], FillsOf(taker, s.orders[taker].side, execs);
    AggregateKnown(execs, Opposite(o.side), |s.orders|);
    AggregateShape(execs, Opposite(o.side));
    TotalsPositive(execs);
    BatchTotal(s, taker, execs, asset);
    UnreceivedZeroIff(s, fills, o.pair, asset);
    UnpaidZeroIff(s, fills, o.pair, asset);
  }

  // ---------- Conservation over runs ----------

  lemma LockConserves(b: Balances, k: Account, amount: real, asset: string)
    ensures LockFunds(b, k, amount).Ok? ==> TotalOf(LockFunds(b, k, amount).value, asset) == TotalOf(b, asset)
    ensures UnlockFunds(b, k, amount).Ok? ==> TotalOf(UnlockFunds(b, k, amount).value, asset) == TotalOf(b, asset)
  {
    if LockFunds(b, k, amount).Ok? { TotalSet(b, k, LockFunds(b, k, amount).value[k], asset); }
    if UnlockFunds(b, k, amount).Ok? { TotalSet(b, k, UnlockFunds(b, k, amount).value[k], asset); }
  }

  lemma ReleaseConserves(b: Balances, k: Account, amount: real, asset: string)
    requires RowsSound(b)
    ensures Release(b, k, amount).Ok? ==> TotalOf(Release(b, k, amount).value, asset) == TotalOf(b, asset)
  {
    if Release(b, k, amount).Ok? && k in b && 0.0 < Min(amount, b[k].locked) {
      TotalSet(b, k, Unlock(b[k], Min(amount, b[k].locked)).value, asset);
    }
  }

  lemma {:induction false} LockAllConserves(
      b: Balances, user: nat, needs: map<string, real>, order: seq<string>, asset: string)
    requires forall a :: a in order ==> a in needs
    ensures LockAll(b, user, needs, order).1 == None ==>
      TotalOf(LockAll(b, user, needs, order).0, asset) == TotalOf(b, asset)
  {
    if order != [] {
      var front, last := order[..|order| - 1], order[|order| - 1];
      LockAllConserves(b, user, needs, front, asset);
      LockConserves(LockAll(b, user, needs, front).0, Account(user, last), needs[last], asset);
    }
  }

  lemma ModifyConserves(s: State, user: nat, id: nat, price: real, quantity: real, asset: string)
    requires Modify(s, user, id, price, quantity).error == None
    ensures TotalOf(Modify(s, user, id, price, quantity).state.balances, asset) == TotalOf(s.balances, asset)
  {
    var o := s.orders[id];
    var b1 := if OldLock(o) > 0.0 then UnlockFunds(s.balances, PayAccount(o), OldLock(o)).value else s.balances;
    LockConserves(s.balances, PayAccount(o), OldLock(o), asset);
    LockConserves(b1, PayAccount(o), NewLock(o, price, quantity), asset);
  }

  /** Does the step commit a batch? */
  predicate CommitsBatch(s: State, step: Step) {
    step.MatchStep? && !step.outcome.rejected && step.outcome.execs != [] && Match(s, step.taker, step.outcome).Ok?
  }

  function StepLost(s: State, step: Step, asset: string): real {
    if CommitsBatch(s, step) then Lost(s, step.taker, step.outcome.execs, asset) else 0.0
  }

  /** What an administrator's step adds to the asset. */
  function Granted(s: State, step: Step, asset: string): real {
    if step.AdminStep? && step.account.asset == asset && Administer(s, step.account, step.delta).Ok?
    then step.delta else 0.0
  }

  lemma MatchConserves(s: State, step: Step, asset: string)
    requires Sound(s) && StepContract(s, step) && step.MatchStep? && Match(s, step.taker, step.outcome).Ok?
    ensures TotalOf(Match(s, step.taker, step.outcome).value.balances, asset) ==
      TotalOf(s.balances, asset) - StepLost(s, step, asset)
  {
    hide Value, Lineage, Lost, ApplyFills;
    var taker, m := step.taker, step.outcome;
    if !m.rejected {
      if m.execs != [] { BatchTotal(s, taker, m.execs, asset); }
      var s1 := PersistBatch(s, taker, m.execs).value;
      var k := Account(s.orders[taker].user, s.orders[taker].pair.quote);
      SoundBatch(s, taker, m);
      if Refunds(s.orders[taker], m) && k in s1.balances && 0.0 < s1.balances[k].locked {
        TotalSet(s1.balances, k, Unlock(s1.balances[k], s1.balances[k].locked).value, asset);
      }
    }
  }

  lemma TriggerConserves(s: State, id: nat, asks: seq<Ask>, asset: string)
    ensures TotalOf(Trigger(s, id, asks).balances, asset) == TotalOf(s.balances, asset)
  {
    hide ChildLock, LockFunds;
    if id < |s.orders| && ChildLock(s.orders[id], asks).Ok? {
      LockConserves(s.balances, PayAccount(s.orders[id]), ChildLock(s.orders[id], asks).value, asset);
      TotalSet(s.balances, PayAccount(s.orders[id]), EMPTY_ROW, asset);
    }
  }

  lemma AdminConserves(s: State, k: Account, delta: real, asset: string)
    requires Administer(s, k, delta).Ok?
    ensures TotalOf(Administer(s, k, delta).value.balances, asset) ==
      TotalOf(s.balances, asset) + if k.asset == asset then delta else 0.0
  {
    TotalSet(s.balances, k, EMPTY_ROW, asset);
    TotalSet(EnsureRow(s.balances, k), k, Administer(s, k, delta).value.balances[k], asset);
  }

  lemma StepConserves(s: State, step: Step, asset: string)
    requires Sound(s) && StepContract(s, step)
    ensures TotalOf(Apply(s, step).balances, asset) ==
      TotalOf(s.balances, asset) + Granted(s, step, asset) - StepLost(s, step, asset)
  {
    hide Value, TotalOf, LockFunds, UnlockFunds, LockAll, Modify, Match, Trigger, Administer, MatcherContract;
    match step
    case PlaceStep(user, t, asks) =>
      if Admit(t, asks).Ok? {
        var (pair, needed, amount) := Admit(t, asks).value;
        LockConserves(s.balances, Account(user, needed), amount, asset);
      }
    case BulkStep(user, requests, lockOrder) =>
      if Needs(requests).Ok? { LockAllConserves(s.balances, user, Needs(requests).value, lockOrder, asset); }
    case CancelStep(user, id) =>
      if id < |s.orders| { ReleaseConserves(s.balances, PayAccount(s.orders[id]), UnlockDue(s.orders[id]), asset); }
    case ModifyStep(user, id, price, quantity) =>
      if Modify(s, user, id, price, quantity).error == None { ModifyConserves(s, user, id, price, quantity, asset); }
    case MatchStep(taker, m) => if Match(s, taker, m).Ok? { MatchConserves(s, step, asset); }
    case TriggerStep(id, asks) => TriggerConserves(s, id, asks, asset);
    case AdminStep(k, delta) => if Administer(s, k, delta).Ok? { AdminConserves(s, k, delta, asset); }
  }

  /** All that administrators granted in a run, withdrawals counted negative. */
  ghost function GrantedAlong(s: State, steps: seq<Step>, asset: string): real
    requires CanRunAll(steps)
  {
    if steps == [] then 0.0
    else
      GrantedAlong(s, steps[..|steps| - 1], asset) +
      Granted(Run(s, steps[..|steps| - 1]), steps[|steps| - 1], asset)
  }

  /** All that was lost to missing rows in a run. */
  ghost function LostAlong(s: State, steps: seq<Step>, asset: string): real
    requires CanRunAll(steps)
  {
    if steps == [] then 0.0
    else
      LostAlong(s, steps[..|steps| - 1], asset) +
      StepLost(Run(s, steps[..|steps| - 1]), steps[|steps| - 1], asset)
  }

  /** Over any run the users' total holdings of an asset change by what administrators grant and by
      what batches lose to missing rows, and by nothing else. */
  lemma {:induction false} RunConserves(s: State, steps: seq<Step>, asset: string)
    requires Sound(s) && RunContract(s, steps)
    ensures TotalOf(Run(s, steps).balances, asset) ==
      TotalOf(s.balances, asset) + GrantedAlong(s, steps, asset) - LostAlong(s, steps, asset)
  {
    if steps != [] {
      var front := steps[..|steps| - 1];
      RunPrefix(s, steps);
      RunConserves(s, front, asset);
      RunKeepsSound(s, front);
      StepConserves(Run(s, front), steps[|steps| - 1], asset);
    }
  }
}
