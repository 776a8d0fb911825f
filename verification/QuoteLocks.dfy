/** Priced buy orders and the locked funds behind them.

    A refund gives back everything a user has locked in the quote asset, so a buyer's locks are
    exact neither before nor after it.  What can hold is coverage: the locked amount is at least
    what the live priced buys may still have to pay. */
module QuoteLocks {
  import opened Domain
  import opened Ledger
  import opened Soundness
  import opened Claims
  import opened FillBooks
  import opened BaseLocks

  ghost predicate Covered(s: State, asset: string) {
    forall u: nat :: Gap(s, OnQuote(u, asset)) <= 0.0
  }

  // ---------- Conditions on a step ----------

  /** A live order that pays for its fills out of a locked limit price. */
  predicate IsPricedBuy(o: Order, user: nat, asset: string) {
    IsLive(o) && o.side == Buy && IsPriced(o.kind) && o.user == user && o.pair.quote == asset
  }

  /** No live priced buy of the user in the asset, other than order `but`. */
  ghost predicate NoPricedBuyBut(orders: seq<Order>, user: nat, asset: string, but: nat) {
    forall i :: 0 <= i < |orders| && i != but ==> !IsPricedBuy(orders[i], user, asset)
  }

  /** An execution price within the limit of a buy. */
  predicate WithinLimit(o: Order, price: real) {
    o.side == Buy && IsPriced(o.kind) ==> o.price.Some? && price <= o.price.value
  }

  /** The matcher respects the limits on both sides, resting buys are priced, and the remainder it
      reports is what the batch leaves of the taker. */
  ghost predicate PriceContract(s: State, taker: nat, m: Outcome) {
    m.rejected || taker >= |s.orders| || !AllMakersKnown(s.orders, m.execs) ||
    (m.remaining == Remaining(s.orders[taker]) - TotalQty(m.execs) &&
     forall i :: 0 <= i < |m.execs| ==>
       WithinLimit(s.orders[taker], m.execs[i].price) && WithinLimit(s.orders[m.execs[i].maker], m.execs[i].price) &&
       (s.orders[m.execs[i].maker].side == Buy ==> IsPriced(s.orders[m.execs[i].maker].kind)))
  }

  /** A market buy, or a refund, in the asset must not find other priced buys of the same user. */
  ghost predicate Alone(s: State, taker: nat, m: Outcome, asset: string) {
    m.rejected || taker >= |s.orders| || s.orders[taker].side == Sell || s.orders[taker].pair.quote != asset ||
    (s.orders[taker].kind != Market && !Refunds(s.orders[taker], m)) ||
    NoPricedBuyBut(s.orders, s.orders[taker].user, asset, taker)
  }

  ghost predicate BuyContract(s: State, step: Step, asset: string) {
    match step
    case MatchStep(taker, m) => PriceContract(s, taker, m) && Alone(s, taker, m, asset)
    case CancelStep(user, id) =>
      id < |s.orders| && IsPricedMarketBuy(s.orders[id]) && IsLiveBuy(s.orders[id], asset) ==>
        NoPricedBuyBut(s.orders, s.orders[id].user, asset, id)
    case _ => true
  }

  /** At most one live buy, market or priced, per user in the asset. */
  ghost predicate OneActiveBuy(orders: seq<Order>, asset: string) {
    forall i, j :: 0 <= i < j < |orders| && IsLiveBuy(orders[i], asset) && IsLiveBuy(orders[j], asset) ==>
      orders[i].user != orders[j].user
  }

  predicate IsLiveBuy(o: Order, asset: string) {
    IsLive(o) && o.side == Buy && o.pair.quote == asset
  }

  /** The matcher is given live takers only. */
  predicate TakesLive(s: State, step: Step) {
    step.MatchStep? && !step.outcome.rejected && step.taker < |s.orders| ==> IsLive(s.orders[step.taker])
  }

  /** One active buy per user is enough for a step to find no other priced buy. */
  lemma OneActiveBuyIsEnough(s: State, step: Step, asset: string)
    requires OneActiveBuy(s.orders, asset) && TakesLive(s, step)
    requires step.MatchStep? ==> PriceContract(s, step.taker, step.outcome)
    ensures BuyContract(s, step, asset)
  {
    match step
    case MatchStep(taker, m) => if !m.rejected && taker < |s.orders| { OnlyBuyIsAlone(s.orders, taker, asset); }
    case CancelStep(user, id) => if id < |s.orders| { OnlyBuyIsAlone(s.orders, id, asset); }
    case _ =>
  }

  lemma OnlyBuyIsAlone(orders: seq<Order>, id: nat, asset: string)
    requires OneActiveBuy(orders, asset) && id < |orders|
    ensures IsLiveBuy(orders[id], asset) ==> NoPricedBuyBut(orders, orders[id].user, asset, id)
  {
    if IsLiveBuy(orders[id], asset) {
      forall i | 0 <= i < |orders| && i != id ensures !IsPricedBuy(orders[i], orders[id].user, asset) {
        var low, high := if i < id then i else id, if i < id then id else i;
        assert 0 <= low < high < |orders|;
      }
    }
  }

  // ---------- Refunds: the exact condition ----------

  /** Nothing is owed in an asset exactly when the user has no live priced buy in it. */
  lemma OwedIffPricedBuy(orders: seq<Order>, u: nat, asset: string)
    requires OrdersOk(orders)
    ensures Owed(OnQuote(u, asset), orders) == 0.0 <==>
      forall i :: 0 <= i < |orders| ==> !IsPricedBuy(orders[i], u, asset)
  {
    var c := OnQuote(u, asset);
    OwedZero(c, orders);
    forall i | 0 <= i < |orders| ensures Due(c, orders[i]) == 0.0 <==> !IsPricedBuy(orders[i], u, asset) {
      assert OrderOk(orders[i]);
      if IsPricedBuy(orders[i], u, asset) { ValuePositive(orders[i].price.value, Remaining(orders[i])); }
    }
  }

  /** A refund keeps a covered user covered if and only if the user has no live priced buy left. */
  lemma RefundKeepsCoverIff(s: State, u: nat, asset: string)
    requires RowsSound(s.balances) && OrdersOk(s.orders) && Refund(s, Account(u, asset)).Ok?
    ensures Gap(Refund(s, Account(u, asset)).value, OnQuote(u, asset)) <= 0.0 <==>
      forall i :: 0 <= i < |s.orders| ==> !IsPricedBuy(s.orders[i], u, asset)
  {
    RefundGap(s, Account(u, asset), OnQuote(u, asset));
    OwedNonNegative(OnQuote(u, asset), s.orders);
    OwedIffPricedBuy(s.orders, u, asset);
  }

  // ---------- Batches ----------

  /** A fill paid out of the claim's account is of a priced buy and costs at most its limit. */
  predicate PaidWithinLimit(c: Claim, o: Order, f: Fill) {
    f.side == Buy && o.user == c.user && o.pair.quote == c.asset ==>
      IsPriced(o.kind) && o.price.Some? && f.quote <= Value(o.price.value, f.qty)
  }

  /** Filling a priced buy releases at least what the fill costs. */
  lemma BuyFillCovered(s: State, f: Fill, pair: Pair, c: Claim)
    requires c.OnQuote? && f.order < |s.orders| && OrderOk(s.orders[f.order]) && 0.0 < f.qty
    requires Fits(s.orders[f.order], f, pair) && Separate(c, pair) && ApplyFill(s, f, pair).Ok?
    requires PaidWithinLimit(c, s.orders[f.order], f)
    ensures Gap(ApplyFill(s, f, pair).value, c) <= Gap(s, c)
  {
    hide Value;
    var o := s.orders[f.order];
    FillGap(s, f, pair, c);
    if f.side == Buy && o.user == c.user && pair.quote == c.asset {
      ValueAdd(o.price.value, Remaining(o) - f.qty, f.qty);
      assert Remaining(o) - f.qty + f.qty == Remaining(o);
      assert Remaining(FillOrder(o, f)) == Remaining(o) - f.qty;
      ValuePositive(o.price.value, Remaining(o) - f.qty);
      ValuePositive(o.price.value, f.qty);
    }
  }

  lemma {:induction false} FillsCovered(s: State, fills: seq<Fill>, pair: Pair, c: Claim)
    requires c.OnQuote? && OrdersOk(s.orders) && Known(s, fills) && FillsOk(fills) && DistinctOrders(fills)
    requires Separate(c, pair) && ApplyFills(s, fills, pair).Ok?
    requires forall i :: 0 <= i < |fills| ==>
      Fits(s.orders[fills[i].order], fills[i], pair) && PaidWithinLimit(c, s.orders[fills[i].order], fills[i])
    ensures Gap(ApplyFills(s, fills, pair).value, c) <= Gap(s, c)
    decreases |fills|
  {
    hide Value;
    if fills != [] {
      var f, rest := fills[0], fills[1..];
      var s1 := ApplyFill(s, f, pair).value;
      BuyFillCovered(s, f, pair, c);
      assert OrderOk(s.orders[f.order]) && OrderOk(FillOrder(s.orders[f.order], f));
      forall i | 0 <= i < |rest|
        ensures rest[i] == fills[i + 1] && Fits(s1.orders[rest[i].order], rest[i], pair) &&
          PaidWithinLimit(c, s1.orders[rest[i].order], rest[i])
      {
        assert rest[i].order != f.order;
      }
      FillsCovered(s1, rest, pair, c);
    }
  }

  /** The executions against a maker never cost more than its limit allows. */
  lemma {:induction false} ExecSumWithin(execs: seq<Exec>, maker: nat, limit: real)
    requires Positive(execs)
    requires forall i :: 0 <= i < |execs| && execs[i].maker == maker ==> execs[i].price <= limit
    ensures ExecSum(QuoteValue, execs, maker) <= Value(limit, ExecSum(Quantity, execs, maker))
    ensures 0.0 <= ExecSum(Quantity, execs, maker)
  {
    hide Value;
    if execs == [] {
      ValueZero(limit);
    } else {
      var front, e := execs[..|execs| - 1], execs[|execs| - 1];
      ExecSumWithin(front, maker, limit);
      if e.maker == maker {
        ValueMono(e.price, limit, e.qty, e.qty);
        ValueAdd(limit, ExecSum(Quantity, front, maker), e.qty);
      }
    }
  }

  lemma {:induction false} TotalWithin(execs: seq<Exec>, limit: real)
    requires Positive(execs)
    requires forall i :: 0 <= i < |execs| ==> execs[i].price <= limit
    ensures TotalQuote(execs) <= Value(limit, TotalQty(execs))
  {
    hide Value;
    if execs == [] {
      ValueZero(limit);
    } else {
      var front, e := execs[..|execs| - 1], execs[|execs| - 1];
      TotalWithin(front, limit);
      ValueMono(e.price, limit, e.qty, e.qty);
      ValueAdd(limit, TotalQty(front), e.qty);
    }
  }

  /** A buy paid out of the claim's account. */
  predicate PaysFrom(o: Order, c: Claim) {
    o.side == Buy && Account(o.user, o.pair.quote) == AccountOf(c)
  }

  /** Every fill of a batch that the claim's account pays for is within the limit, provided the
      taker is not a market buy of that account. */
  lemma BatchWithinLimits(s: State, taker: nat, m: Outcome, c: Claim)
    requires MatcherContract(s, taker, m) && PriceContract(s, taker, m) && !m.rejected && m.execs != []
    requires c.OnQuote?
    requires PaysFrom(s.orders[taker], c) ==> IsPriced(s.orders[taker].kind)
    ensures var fills := FillsOf(taker, s.orders[taker].side, m.execs);
      forall i :: 0 <= i < |fills| ==>
        fills[i].order < |s.orders| && PaidWithinLimit(c, s.orders[fills[i].order], fills[i])
  {
    hide Value;
    var o := s.orders[taker];
    BatchShape(s, taker, m);
    var makers := Aggregate(m.execs, Opposite(o.side));
    var fills := FillsOf(taker, o.side, m.execs);
    forall i | 0 <= i < |fills| ensures PaidWithinLimit(c, s.orders[fills[i].order], fills[i]) {
      assert Fits(s.orders[fills[i].order], fills[i], o.pair);
      if i < |makers| {
        AggregateShape(m.execs, Opposite(o.side));
        MakerWithinLimit(s, taker, m, i);
      } else if o.side == Buy && IsPriced(o.kind) {
        assert fills[i] == Fill(taker, o.side, TotalQty(m.execs), TotalQuote(m.execs), true);
        assert WithinLimit(o, m.execs[0].price);
        TotalWithin(m.execs, o.price.value);
      }
    }
  }

  lemma MakerWithinLimit(s: State, taker: nat, m: Outcome, i: nat)
    requires MatcherContract(s, taker, m) && PriceContract(s, taker, m) && !m.rejected && m.execs != []
    requires i < |Aggregate(m.execs, Opposite(s.orders[taker].side))|
    ensures var f := Aggregate(m.execs, Opposite(s.orders[taker].side))[i];
      f.order < |s.orders| && (s.orders[f.order].side == Buy ==>
        IsPriced(s.orders[f.order].kind) && s.orders[f.order].price.Some? &&
        f.quote <= Value(s.orders[f.order].price.value, f.qty))
  {
    hide Value;
    var side := Opposite(s.orders[taker].side);
    var makers := Aggregate(m.execs, side);
    var f := makers[i];
    AggregateKnown(m.execs, side, |s.orders|);
    AggregateShape(m.execs, side);
    DistinctFillSum(Quantity, makers, i);
    DistinctFillSum(QuoteValue, makers, i);
    AggregateIsGroupBy(Quantity, m.execs, side, f.order);
    AggregateIsGroupBy(QuoteValue, m.execs, side, f.order);
    if s.orders[f.order].side == Buy {
      MakerHasExec(m.execs, f.order);
      var j :| 0 <= j < |m.execs| && m.execs[j].maker == f.order;
      assert IsPriced(s.orders[m.execs[j].maker].kind) && WithinLimit(s.orders[m.execs[j].maker], m.execs[j].price);
      ExecSumWithin(m.execs, f.order, s.orders[f.order].price.value);
    }
  }

  lemma {:induction false} MakerHasExec(execs: seq<Exec>, maker: nat)
    requires ExecSum(Quantity, execs, maker) != 0.0
    ensures exists j :: 0 <= j < |execs| && execs[j].maker == maker
  {
    var e := execs[|execs| - 1];
    if e.maker != maker { MakerHasExec(execs[..|execs| - 1], maker); }
  }

  /** If the only claimed order a batch may fill is the taker, and the user has no other priced buy,
      then what is owed after the batch is the taker's own claim. */
  lemma LoneTakerOwed(s: State, taker: nat, m: Outcome, c: Claim)
    requires Sound(s) && MatcherContract(s, taker, m) && !m.rejected
    requires taker < |s.orders| && s.orders[taker].side == Buy && c.OnQuote?
    requires NoPricedBuyBut(s.orders, c.user, c.asset, taker)
    requires PersistBatch(s, taker, m.execs).Ok?
    requires |PersistBatch(s, taker, m.execs).value.orders| == |s.orders|
    requires Due(c, PersistBatch(s, taker, m.execs).value.orders[taker]) == 0.0
    ensures Owed(c, PersistBatch(s, taker, m.execs).value.orders) == 0.0
  {
    hide Value;
    var after := PersistBatch(s, taker, m.execs).value;
    SoundBatch(s, taker, m);
    OwedZero(c, after.orders);
    if m.execs != [] {
      var o := s.orders[taker];
      var fills := FillsOf(taker, o.side, m.execs);
      BatchShape(s, taker, m);
      FillsReplace(s.(trades := s.trades + TradesOf(s.orders, taker, m.execs)), fills, o.pair);
      AggregateShape(m.execs, Opposite(o.side));
      forall i | 0 <= i < |after.orders| ensures Due(c, after.orders[i]) == 0.0 {
        if i != taker {
          assert !IsPricedBuy(s.orders[i], c.user, c.asset);
          if j :| 0 <= j < |fills| && fills[j].order == i {
            assert Fits(s.orders[i], fills[j], o.pair);
            assert after.orders[i] == FillOrder(s.orders[i], fills[j]);
          } else {
            assert after.orders[i] == s.orders[i];
          }
        }
      }
    } else {
      forall i | 0 <= i < |after.orders| ensures Due(c, after.orders[i]) == 0.0 {
        if i != taker { assert !IsPricedBuy(s.orders[i], c.user, c.asset); }
      }
    }
  }

  /** What the batch leaves of the taker. */
  lemma TakerAfter(s: State, taker: nat, m: Outcome)
    requires Sound(s) && MatcherContract(s, taker, m) && !m.rejected && taker < |s.orders|
    requires PersistBatch(s, taker, m.execs).Ok?
    ensures var o, after := s.orders[taker], PersistBatch(s, taker, m.execs).value.orders;
      |after| == |s.orders| && after[taker].kind == o.kind && after[taker].side == o.side &&
      Remaining(after[taker]) == Remaining(o) - TotalQty(m.execs)
  {
    if m.execs != [] {
      var o := s.orders[taker];
      var fills := FillsOf(taker, o.side, m.execs);
      BatchShape(s, taker, m);
      FillsReplace(s.(trades := s.trades + TradesOf(s.orders, taker, m.execs)), fills, o.pair);
      assert fills[|fills| - 1] == Fill(taker, o.side, TotalQty(m.execs), TotalQuote(m.execs), true);
    }
  }

  /** A match keeps every claim covered. */
  lemma MatchKeepsCovered(s: State, taker: nat, m: Outcome, c: Claim)
    requires Sound(s) && MatcherContract(s, taker, m) && BuyContract(s, MatchStep(taker, m), c.asset) && c.OnQuote?
    requires taker < |s.orders| && Separate(c, s.orders[taker].pair) && Gap(s, c) <= 0.0
    ensures Match(s, taker, m).Ok? ==> Gap(Match(s, taker, m).value, c) <= 0.0
  {
    hide Value;
    if Match(s, taker, m).Ok? && !m.rejected {
      var o := s.orders[taker];
      var k := Account(o.user, o.pair.quote);
      var s1 := PersistBatch(s, taker, m.execs).value;
      SoundBatch(s, taker, m);
      TakerAfter(s, taker, m);
      if o.side == Buy && k == AccountOf(c) && (o.kind == Market || Refunds(o, m)) {
        LoneTakerSettled(s, taker, m, c);
        RefundGap(s1, k, c);
      } else {
        if m.execs != [] {
          BatchShape(s, taker, m);
          BatchWithinLimitsUnlessMarket(s, taker, m, c);
          var s0 := s.(trades := s.trades + TradesOf(s.orders, taker, m.execs));
          GapIgnoresTrades(s, s0.trades, c);
          FillsCovered(s0, FillsOf(taker, o.side, m.execs), o.pair, c);
        }
        if Refunds(o, m) { RefundGap(s1, k, c); }
      }
    }
  }

  lemma BatchWithinLimitsUnlessMarket(s: State, taker: nat, m: Outcome, c: Claim)
    requires MatcherContract(s, taker, m) && PriceContract(s, taker, m) && !m.rejected && m.execs != []
    requires c.OnQuote?
    requires PaysFrom(s.orders[taker], c) ==> s.orders[taker].kind != Market
    ensures var fills := FillsOf(taker, s.orders[taker].side, m.execs);
      forall i :: 0 <= i < |fills| ==>
        fills[i].order < |s.orders| && PaidWithinLimit(c, s.orders[fills[i].order], fills[i])
  {
    var fills := FillsOf(taker, s.orders[taker].side, m.execs);
    BatchShape(s, taker, m);
    assert fills[|fills| - 1].order == taker;
    assert Fits(s.orders[taker], fills[|fills| - 1], s.orders[taker].pair);
    BatchWithinLimits(s, taker, m, c);
  }

  /** After a market buy, or a fully filled limit buy, of a user without other priced buys, the user
      owes nothing. */
  lemma LoneTakerSettled(s: State, taker: nat, m: Outcome, c: Claim)
    requires Sound(s) && MatcherContract(s, taker, m) && BuyContract(s, MatchStep(taker, m), c.asset)
    requires c.OnQuote? && !m.rejected
    requires taker < |s.orders| && s.orders[taker].side == Buy
    requires Account(s.orders[taker].user, s.orders[taker].pair.quote) == AccountOf(c)
    requires s.orders[taker].kind == Market || Refunds(s.orders[taker], m)
    requires PersistBatch(s, taker, m.execs).Ok?
    ensures Owed(c, PersistBatch(s, taker, m.execs).value.orders) == 0.0
    ensures Gap(PersistBatch(s, taker, m.execs).value, c) <= 0.0
  {
    hide Value;
    var s1 := PersistBatch(s, taker, m.execs).value;
    SoundBatch(s, taker, m);
    TakerAfter(s, taker, m);
    var o1 := s1.orders[taker];
    assert OrderOk(o1);
    if s.orders[taker].kind != Market {
      assert AllMakersKnown(s.orders, m.execs);
      assert Remaining(o1) == m.remaining == 0.0;
      assert !IsLive(o1);
    }
    LoneTakerOwed(s, taker, m, c);
  }

  // ---------- Runs ----------

  lemma CancelKeepsCovered(s: State, user: nat, id: nat, c: Claim)
    requires Sound(s) && Cancel(s, user, id).Ok? && c.OnQuote? && Gap(s, c) <= 0.0
    requires Separate(c, s.orders[id].pair) && BuyContract(s, CancelStep(user, id), c.asset)
    ensures Gap(Cancel(s, user, id).value, c) <= 0.0
  {
    hide Value;
    var o := s.orders[id];
    if !IsPricedMarketBuy(o) || PayAccount(o) != AccountOf(c) {
      if IsPricedMarketBuy(o) { ForeignCancel(s, user, id, c); } else { CancelGap(s, user, id, c); }
    } else {
      SoundCancel(s, user, id);
      var after := Cancel(s, user, id).value;
      NoChildrenAfter(s, id);
      forall i | 0 <= i < |after.orders| ensures !IsPricedBuy(after.orders[i], c.user, c.asset) {
      }
      OwedIffPricedBuy(after.orders, c.user, c.asset);
    }
  }

  lemma NoChildrenAfter(s: State, id: nat)
    requires Sound(s) && id < |s.orders| && IsActive(s.orders[id])
    ensures CancelChildren(s.orders[id := WithStatus(s.orders[id], Canceled)], id) ==
      s.orders[id := WithStatus(s.orders[id], Canceled)]
  {
    assert OrderOk(s.orders[id]);
    LineageUpdate(s.orders, id, WithStatus(s.orders[id], Canceled));
    NoChildrenToCancel(s.orders[id := WithStatus(s.orders[id], Canceled)], id);
  }

  lemma ForeignCancel(s: State, user: nat, id: nat, c: Claim)
    requires Sound(s) && Cancel(s, user, id).Ok? && c.OnQuote? && IsPricedMarketBuy(s.orders[id])
    requires PayAccount(s.orders[id]) != AccountOf(c)
    ensures Gap(Cancel(s, user, id).value, c) == Gap(s, c)
  {
    hide Value;
    var o := s.orders[id];
    NoChildrenAfter(s, id);
    OwedUpdate(c, s.orders, id, WithStatus(o, Canceled));
    ReleaseLocked(s.balances, PayAccount(o), UnlockDue(o), AccountOf(c));
  }

  lemma StepKeepsCovered(s: State, step: Step, asset: string)
    requires Sound(s) && StepContract(s, step) && BuyContract(s, step, asset) && Covered(s, asset) && asset != ""
    requires AllSeparate(OnQuote(0, asset), s.orders) && StepSeparate(OnQuote(0, asset), step)
    ensures Covered(Apply(s, step), asset)
  {
    hide Value, IsValidTicket, Requirement, LockFunds, UnlockFunds, Release, LockAll, ChildLock, Owed, Lineage;
    forall u: nat ensures Gap(Apply(s, step), OnQuote(u, asset)) <= 0.0 {
      var c := OnQuote(u, asset);
      assert Gap(s, c) <= 0.0;
      match step
      case PlaceStep(user, t, asks) => if Place(s, user, t, asks).Ok? { PlaceGap(s, user, t, asks, c); }
      case BulkStep(user, requests, lockOrder) =>
        if PlaceBulk(s, user, requests, lockOrder).error == None { BulkGap(s, user, requests, lockOrder, c); }
      case CancelStep(user, id) => if Cancel(s, user, id).Ok? { CancelKeepsCovered(s, user, id, c); }
      case ModifyStep(user, id, price, quantity) =>
        if Modify(s, user, id, price, quantity).error == None { ModifyGap(s, user, id, price, quantity, c); }
      case MatchStep(taker, m) => if taker < |s.orders| { MatchKeepsCovered(s, taker, m, c); }
      case TriggerStep(id, asks) => TriggerGap(s, id, asks, c);
      case AdminStep(k, delta) => if Administer(s, k, delta).Ok? { AdminGap(s, k, delta, c); }
    }
  }

  /** Over any run in which a market buy is matched and a refund is made only for users without
      another live priced buy in that quote asset, every user's locked amount of the asset covers
      what the live priced buys may still pay. */
  lemma {:induction false} RunKeepsCovered(s: State, steps: seq<Step>, asset: string)
    requires Sound(s) && RunContract(s, steps) && Covered(s, asset) && asset != ""
    requires AllSeparate(OnQuote(0, asset), s.orders)
    requires forall i :: 0 <= i < |steps| ==>
      StepSeparate(OnQuote(0, asset), steps[i]) && BuyContract(Run(s, steps[..i]), steps[i], asset)
    ensures Covered(Run(s, steps), asset) && AllSeparate(OnQuote(0, asset), Run(s, steps).orders)
  {
    if steps != [] {
      var front, last := steps[..|steps| - 1], steps[|steps| - 1];
      RunPrefix(s, steps);
      forall i | 0 <= i < |front| ensures BuyContract(Run(s, front[..i]), front[i], asset) {
        assert front[..i] == steps[..i];
      }
      RunKeepsCovered(s, front, asset);
      RunKeepsSound(s, front);
      StepKeepsCovered(Run(s, front), last, asset);
      SeparateStep(OnQuote(0, asset), Run(s, front), last);
    }
  }

  /** The step's tickets keep the asset a quote asset, no user has two active buys in it, and a match is
      of a live taker within the limits. */
  ghost predicate SingleBuyStep(s: State, step: Step, asset: string) {
    StepSeparate(OnQuote(0, asset), step) && OneActiveBuy(s.orders, asset) && TakesLive(s, step) &&
    (step.MatchStep? ==> PriceContract(s, step.taker, step.outcome))
  }

  ghost predicate SingleBuyRun(s: State, steps: seq<Step>, asset: string)
    requires CanRunAll(steps)
  {
    forall i :: 0 <= i < |steps| ==> SingleBuyStep(Run(s, steps[..i]), steps[i], asset)
  }

  /** The same for any run in which no user ever has two active buys in the asset. */
  lemma RunOfSingleBuysKeepsCovered(s: State, steps: seq<Step>, asset: string)
    requires Sound(s) && RunContract(s, steps) && Covered(s, asset) && asset != ""
    requires AllSeparate(OnQuote(0, asset), s.orders) && SingleBuyRun(s, steps, asset)
    ensures Covered(Run(s, steps), asset)
  {
    hide Run, OneActiveBuy, PriceContract, BuyContract;
    forall i | 0 <= i < |steps|
      ensures BuyContract(Run(s, steps[..i]), steps[i], asset) && StepSeparate(OnQuote(0, asset), steps[i])
    {
      assert SingleBuyStep(Run(s, steps[..i]), steps[i], asset);
      OneActiveBuyIsEnough(Run(s, steps[..i]), steps[i], asset);
    }
    RunKeepsCovered(s, steps, asset);
  }
}
