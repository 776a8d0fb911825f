/** Sell orders and the locked funds behind them.

    For an asset that is only ever a base asset, what a user has locked is exactly what remains of
    the user's live sell orders. */
module BaseLocks {
  import opened Domain
  import opened Rows
  import opened Ledger
  import opened Soundness
  import opened Claims

  ghost predicate Exact(s: State, asset: string) {
    forall u: nat :: Gap(s, OnBase(u, asset)) == 0.0
  }

  // ---------- Keeping the asset on one side ----------

  ghost predicate AllSeparate(c: Claim, orders: seq<Order>) {
    forall i :: 0 <= i < |orders| ==> Separate(c, orders[i].pair)
  }

  /** The tickets of a step keep the claim's asset on its side. */
  ghost predicate StepSeparate(c: Claim, step: Step) {
    match step
    case PlaceStep(_, t, _) => t.pair.Some? ==> Separate(c, t.pair.value)
    case BulkStep(_, requests, _) =>
      forall r :: r in requests && r.ticket.pair.Some? ==> Separate(c, r.ticket.pair.value)
    case _ => true
  }

  lemma {:induction false} OrdersForSeparate(c: Claim, user: nat, requests: seq<Request>)
    requires forall r :: r in requests ==> r.ticket.pair.Some? && Separate(c, r.ticket.pair.value)
    ensures AllSeparate(c, OrdersFor(user, requests))
  {
    if requests != [] { OrdersForSeparate(c, user, requests[..|requests| - 1]); }
  }

  lemma {:induction false} FillsKeepPairs(s: State, fills: seq<Fill>, pair: Pair)
    requires Known(s, fills) && ApplyFills(s, fills, pair).Ok?
    ensures var after := ApplyFills(s, fills, pair).value;
      |after.orders| == |s.orders| && forall i :: 0 <= i < |s.orders| ==> after.orders[i].pair == s.orders[i].pair
    decreases |fills|
  {
    if fills != [] {
      assert forall j :: 0 <= j < |fills[1..]| ==> fills[1..][j] == fills[j + 1];
      FillsKeepPairs(ApplyFill(s, fills[0], pair).value, fills[1..], pair);
    }
  }

  lemma MatchKeepsPairs(s: State, taker: nat, m: Outcome)
    requires Match(s, taker, m).Ok?
    ensures var after := Match(s, taker, m).value.orders;
      |after| == |s.orders| && forall i :: 0 <= i < |s.orders| ==> after[i].pair == s.orders[i].pair
  {
    if !m.rejected && m.execs != [] {
      var o := s.orders[taker];
      AggregateKnown(m.execs, Opposite(o.side), |s.orders|);
      var s0 := s.(trades := s.trades + TradesOf(s.orders, taker, m.execs));
      FillsKeepPairs(s0, FillsOf(taker, o.side, m.execs), o.pair);
    }
  }

  lemma SeparateStep(c: Claim, s: State, step: Step)
    requires CanRun(step) && AllSeparate(c, s.orders) && StepSeparate(c, step)
    ensures AllSeparate(c, Apply(s, step).orders)
  {
    hide Value, LockFunds, UnlockFunds, Adjust, ChildLock, LockAll, Release, Requirement, IsValidTicket, Match;
    match step
    case BulkStep(user, requests, lockOrder) =>
      if PlaceBulk(s, user, requests, lockOrder).error == None {
        AdmittedHavePairs(requests);
        OrdersForSeparate(c, user, requests);
      }
    case MatchStep(taker, m) => if Match(s, taker, m).Ok? { MatchKeepsPairs(s, taker, m); }
    case _ =>
  }

  // ---------- The exact condition under which a batch keeps the locks exact ----------

  /** Does the fill settle a sale of the asset? */
  predicate SellsAsset(f: Fill, pair: Pair, asset: string) {
    f.side == Sell && pair.base == asset
  }

  predicate WithinLive(o: Order, f: Fill) {
    IsLive(o) && f.qty <= Remaining(o)
  }

  /** Does settling the sale leave locked funds and claims in step?  With a row to settle from, the
      order must be live with that much left; a seller without a row, who pays nothing, must not
      end up with a live order. */
  predicate SaleKeeps(b: Balances, o: Order, f: Fill, asset: string) {
    if Account(o.user, asset) in b then WithinLive(o, f) else IsStop(o.kind) || o.quantity <= o.filledQty + f.qty
  }

  /** Filling one order never closes the gap, and opens it exactly when a sale of the asset is settled
      that does not keep funds and claims in step. */
  lemma FillLeak(s: State, f: Fill, pair: Pair, asset: string, u: nat)
    requires f.order < |s.orders| && OrderOk(s.orders[f.order]) && 0.0 < f.qty
    requires s.orders[f.order].side == f.side && s.orders[f.order].pair == pair && pair.quote != asset
    requires ApplyFill(s, f, pair).Ok? && HasRowIfLive(s, f, pair, asset)
    ensures Gap(s, OnBase(u, asset)) <= Gap(ApplyFill(s, f, pair).value, OnBase(u, asset))
    ensures Gap(s, OnBase(u, asset)) < Gap(ApplyFill(s, f, pair).value, OnBase(u, asset)) <==>
      SellsAsset(f, pair, asset) && s.orders[f.order].user == u && !SaleKeeps(s.balances, s.orders[f.order], f, asset)
  {
    FillGap(s, f, pair, OnBase(u, asset));
  }

  /** The seller of a live order has a row of the asset. */
  predicate HasRowIfLive(s: State, f: Fill, pair: Pair, asset: string) {
    f.order < |s.orders| &&
    (SellsAsset(f, pair, asset) && IsLive(s.orders[f.order]) ==> Account(s.orders[f.order].user, asset) in s.balances)
  }

  /** Every sale of the asset in the batch keeps funds and claims in step. */
  ghost predicate SalesKeep(s: State, fills: seq<Fill>, pair: Pair, asset: string) {
    forall i :: 0 <= i < |fills| && SellsAsset(fills[i], pair, asset) ==>
      fills[i].order < |s.orders| && SaleKeeps(s.balances, s.orders[fills[i].order], fills[i], asset)
  }

  /** Each fill agrees with its order on side and pair. */
  ghost predicate Aligned(orders: seq<Order>, fills: seq<Fill>, pair: Pair) {
    forall i :: 0 <= i < |fills| ==>
      fills[i].order < |orders| && orders[fills[i].order].side == fills[i].side && orders[fills[i].order].pair == pair
  }

  ghost predicate LiveSellersHaveRows(s: State, fills: seq<Fill>, pair: Pair, asset: string) {
    forall i :: 0 <= i < |fills| ==> HasRowIfLive(s, fills[i], pair, asset)
  }

  lemma {:induction false} FillsLeak(s: State, fills: seq<Fill>, pair: Pair, asset: string)
    requires Known(s, fills) && FillsOk(fills) && DistinctOrders(fills) && OrdersOk(s.orders)
    requires Aligned(s.orders, fills, pair) && LiveSellersHaveRows(s, fills, pair, asset) && pair.quote != asset
    requires ApplyFills(s, fills, pair).Ok?
    ensures var after := ApplyFills(s, fills, pair).value;
      (forall u: nat :: Gap(s, OnBase(u, asset)) <= Gap(after, OnBase(u, asset))) &&
      ((forall u: nat :: Gap(s, OnBase(u, asset)) == Gap(after, OnBase(u, asset))) <==>
         SalesKeep(s, fills, pair, asset))
    decreases |fills|
  {
    hide SaleKeeps;
    if fills != [] {
      var f, rest := fills[0], fills[1..];
      var s1 := ApplyFill(s, f, pair).value;
      var after := ApplyFills(s, fills, pair).value;
      FirstFill(s, fills, pair, asset);
      FillsLeak(s1, rest, pair, asset);
      forall u: nat
        ensures Gap(s, OnBase(u, asset)) <= Gap(s1, OnBase(u, asset)) <= Gap(after, OnBase(u, asset))
        ensures Gap(s, OnBase(u, asset)) < Gap(s1, OnBase(u, asset)) <==>
          SellsAsset(f, pair, asset) && s.orders[f.order].user == u &&
          !SaleKeeps(s.balances, s.orders[f.order], f, asset)
      {
        assert HasRowIfLive(s, f, pair, asset);
        FillLeak(s, f, pair, asset, u);
      }
      SalesSplit(s, s1, fills, pair, asset);
      var seller := s.orders[f.order].user;
      if SellsAsset(f, pair, asset) && !SaleKeeps(s.balances, s.orders[f.order], f, asset) {
        assert Gap(s, OnBase(seller, asset)) < Gap(after, OnBase(seller, asset));
      } else {
        assert forall u: nat :: Gap(s, OnBase(u, asset)) == Gap(s1, OnBase(u, asset));
      }
    }
  }

  /** The first fill leaves the later ones as they were. */
  lemma FirstFill(s: State, fills: seq<Fill>, pair: Pair, asset: string)
    requires fills != [] && Known(s, fills) && FillsOk(fills) && DistinctOrders(fills) && OrdersOk(s.orders)
    requires Aligned(s.orders, fills, pair) && LiveSellersHaveRows(s, fills, pair, asset)
    requires ApplyFill(s, fills[0], pair).Ok?
    ensures var s1 := ApplyFill(s, fills[0], pair).value;
      s1.balances.Keys == s.balances.Keys &&
      Known(s1, fills[1..]) && FillsOk(fills[1..]) && DistinctOrders(fills[1..]) &&
      OrdersOk(s1.orders) && Aligned(s1.orders, fills[1..], pair) && LiveSellersHaveRows(s1, fills[1..], pair, asset)
  {
    hide Settle, Credit;
    var f, rest, s1 := fills[0], fills[1..], ApplyFill(s, fills[0], pair).value;
    assert OrderOk(s.orders[f.order]) && OrderOk(FillOrder(s.orders[f.order], f));
    forall i | 0 <= i < |rest|
      ensures rest[i] == fills[i + 1] && rest[i].order != f.order && HasRowIfLive(s1, rest[i], pair, asset)
    {
      assert HasRowIfLive(s, fills[i + 1], pair, asset);
    }
  }

  /** The first fill touches no order of the later ones. */
  lemma SalesSplit(before: State, after: State, fills: seq<Fill>, pair: Pair, asset: string)
    requires fills != [] && DistinctOrders(fills) && |after.orders| == |before.orders|
    requires after.balances.Keys == before.balances.Keys && Known(before, fills)
    requires forall i :: 0 <= i < |before.orders| && i != fills[0].order ==> after.orders[i] == before.orders[i]
    ensures SalesKeep(before, fills, pair, asset) <==>
      (SellsAsset(fills[0], pair, asset) ==>
         SaleKeeps(before.balances, before.orders[fills[0].order], fills[0], asset)) &&
      SalesKeep(after, fills[1..], pair, asset)
  {
    var rest := fills[1..];
    assert forall i :: 0 <= i < |rest| ==> rest[i] == fills[i + 1];
    if SalesKeep(before, fills, pair, asset) {
      forall i | 0 <= i < |rest| && SellsAsset(rest[i], pair, asset)
        ensures SaleKeeps(after.balances, after.orders[rest[i].order], rest[i], asset)
      {
        assert rest[i] == fills[i + 1];
      }
    }
    if SalesKeep(after, rest, pair, asset) {
      forall i | 1 <= i < |fills| && SellsAsset(fills[i], pair, asset)
        ensures SaleKeeps(before.balances, before.orders[fills[i].order], fills[i], asset)
      {
        assert fills[i] == rest[i - 1];
      }
    }
  }

  lemma GapIgnoresTrades(s: State, trades: seq<Trade>, c: Claim)
    ensures Gap(s.(trades := trades), c) == Gap(s, c)
  {
  }

  /** With exact locks, the seller of a live order has a row. */
  lemma ExactSellersHaveRows(s: State, fills: seq<Fill>, pair: Pair, asset: string)
    requires Exact(s, asset) && OrdersOk(s.orders) && Aligned(s.orders, fills, pair)
    ensures LiveSellersHaveRows(s, fills, pair, asset)
  {
    forall i | 0 <= i < |fills| ensures HasRowIfLive(s, fills[i], pair, asset) {
      var o := s.orders[fills[i].order];
      if SellsAsset(fills[i], pair, asset) && IsLive(o) {
        assert OrderOk(o) && Gap(s, OnBase(o.user, asset)) == 0.0;
        OwedAtLeast(OnBase(o.user, asset), s.orders, fills[i].order);
      }
    }
  }

  /** A committed batch keeps the sell-side locks exact if and only if every sale in it is settled
      for a live order that has that much left or, when the seller has no row to pay from, for an
      order that it completes. */
  lemma BatchKeepsExactIff(s: State, taker: nat, execs: seq<Exec>, asset: string)
    requires OrdersOk(s.orders) && Exact(s, asset) && execs != [] && Positive(execs)
    requires PersistBatch(s, taker, execs).Ok?
    requires s.orders[taker].pair.quote != asset
    requires Aligned(s.orders, FillsOf(taker, s.orders[taker].side, execs), s.orders[taker].pair)
    ensures Exact(PersistBatch(s, taker, execs).value, asset) <==>
      SalesKeep(s, FillsOf(taker, s.orders[taker].side, execs), s.orders[taker].pair, asset)
  {
    var o := s.orders[taker];
    var fills := FillsOf(taker, o.side, execs);
    var s0 := s.(trades := s.trades + TradesOf(s.orders, taker, execs));
    AggregateKnown(execs, Opposite(o.side), |s.orders|);
    AggregateShape(execs, Opposite(o.side));
    TotalsPositive(execs);
    var makers := Aggregate(execs, Opposite(o.side));
    forall i | 0 <= i < |makers| ensures makers[i].order != taker {
      assert fills[i] == makers[i];
    }
    forall u: nat ensures Gap(s0, OnBase(u, asset)) == 0.0 {
      GapIgnoresTrades(s, s0.trades, OnBase(u, asset));
    }
    ExactSellersHaveRows(s0, fills, o.pair, asset);
    FillsLeak(s0, fills, o.pair, asset);
  }

  // ---------- Settling a sale never lacks funds ----------

  /** The seller of a live order has at least what remains of it locked. */
  lemma SaleIsFunded(s: State, f: Fill, pair: Pair, asset: string)
    requires RowsSound(s.balances) && OrdersOk(s.orders) && Exact(s, asset)
    requires f.order < |s.orders| && 0.0 < f.qty && Fits(s.orders[f.order], f, pair) && SellsAsset(f, pair, asset)
    ensures Account(s.orders[f.order].user, asset) in s.balances
    ensures f.qty <= s.balances[Account(s.orders[f.order].user, asset)].locked
  {
    var c := OnBase(s.orders[f.order].user, asset);
    assert Gap(s, c) == 0.0;
    OwedAtLeast(c, s.orders, f.order);
  }

  lemma {:induction false} FillsFunded(s: State, fills: seq<Fill>, pair: Pair, asset: string)
    requires RowsSound(s.balances) && OrdersOk(s.orders) && Exact(s, asset) && pair.quote != asset
    requires Known(s, fills) && FillsOk(fills) && DistinctOrders(fills)
    requires forall i :: 0 <= i < |fills| ==> Fits(s.orders[fills[i].order], fills[i], pair)
    ensures ApplyFills(s, fills, pair).Ok? ==> Exact(ApplyFills(s, fills, pair).value, asset)
    ensures ApplyFills(s, fills, pair).Err? ==>
      forall u: nat :: ApplyFills(s, fills, pair).error != LockedShort(Account(u, asset))
    decreases |fills|
  {
    if fills != [] {
      var f, rest := fills[0], fills[1..];
      var o := s.orders[f.order];
      assert Fits(o, f, pair) && OrderOk(o) && OrderOk(FillOrder(o, f));
      if SellsAsset(f, pair, asset) { SaleIsFunded(s, f, pair, asset); }
      var r := ApplyFill(s, f, pair);
      if r.Ok? {
        forall u: nat ensures Gap(r.value, OnBase(u, asset)) == 0.0 {
          assert Gap(s, OnBase(u, asset)) == 0.0;
          FillLeak(s, f, pair, asset, u);
        }
        SoundSettle(s.balances, o.user, f, pair);
        forall i | 0 <= i < |rest|
          ensures rest[i] == fills[i + 1] && rest[i].order != f.order
          ensures Fits(r.value.orders[rest[i].order], rest[i], pair)
        {
        }
        FillsFunded(r.value, rest, pair, asset);
      }
    }
  }

  /** Under the matcher's contract a batch keeps the locks exact, and if it fails, it is not for
      want of locked base funds. */
  lemma BatchFunded(s: State, taker: nat, m: Outcome, asset: string)
    requires Sound(s) && Exact(s, asset) && MatcherContract(s, taker, m) && !m.rejected
    requires taker < |s.orders| && s.orders[taker].pair.quote != asset
    ensures PersistBatch(s, taker, m.execs).Ok? ==> Exact(PersistBatch(s, taker, m.execs).value, asset)
    ensures PersistBatch(s, taker, m.execs).Err? ==>
      forall u: nat :: PersistBatch(s, taker, m.execs).error != LockedShort(Account(u, asset))
  {
    if m.execs != [] {
      BatchShape(s, taker, m);
      var o := s.orders[taker];
      var s0 := s.(trades := s.trades + TradesOf(s.orders, taker, m.execs));
      forall u: nat ensures Gap(s0, OnBase(u, asset)) == 0.0 {
        assert Gap(s, OnBase(u, asset)) == 0.0;
        GapIgnoresTrades(s, s0.trades, OnBase(u, asset));
      }
      FillsFunded(s0, FillsOf(taker, o.side, m.execs), o.pair, asset);
    }
  }

  /** Cancelling a sell gives back all that remains of it: the cap at what is locked never bites. */
  lemma CancelNeverClipsSell(s: State, user: nat, id: nat)
    requires Sound(s) && Cancel(s, user, id).Ok? && s.orders[id].side == Sell && !IsStop(s.orders[id].kind)
    requires s.orders[id].pair.quote != s.orders[id].pair.base && Exact(s, s.orders[id].pair.base)
    ensures Remaining(s.orders[id]) <= LockedOf(s.balances, PayAccount(s.orders[id]))
    ensures AvailableOf(Cancel(s, user, id).value.balances, PayAccount(s.orders[id])) ==
      AvailableOf(s.balances, PayAccount(s.orders[id])) + Remaining(s.orders[id])
  {
    var o := s.orders[id];
    assert OrderOk(o);
    assert Gap(s, OnBase(user, o.pair.base)) == 0.0;
    CancelGap(s, user, id, OnBase(user, o.pair.base));
    DueBounds(OnBase(user, o.pair.base), o);
  }

  // ---------- Runs ----------

  lemma StepKeepsExact(s: State, step: Step, asset: string)
    requires Sound(s) && StepContract(s, step) && Exact(s, asset) && asset != ""
    requires AllSeparate(OnBase(0, asset), s.orders) && StepSeparate(OnBase(0, asset), step)
    ensures Exact(Apply(s, step), asset)
  {
    hide Value, IsValidTicket, Requirement, LockFunds, UnlockFunds, Release, LockAll, ChildLock, Owed, Lineage;
    if step.MatchStep? && !step.outcome.rejected && step.taker < |s.orders| {
      BatchFunded(s, step.taker, step.outcome, asset);
    }
    forall u: nat ensures Gap(Apply(s, step), OnBase(u, asset)) == 0.0 {
      var c := OnBase(u, asset);
      assert Gap(s, c) == 0.0;
      match step
      case PlaceStep(user, t, asks) => if Place(s, user, t, asks).Ok? { PlaceGap(s, user, t, asks, c); }
      case BulkStep(user, requests, lockOrder) =>
        if PlaceBulk(s, user, requests, lockOrder).error == None { BulkGap(s, user, requests, lockOrder, c); }
      case CancelStep(user, id) => if Cancel(s, user, id).Ok? { CancelGap(s, user, id, c); }
      case ModifyStep(user, id, price, quantity) =>
        if Modify(s, user, id, price, quantity).error == None { ModifyGap(s, user, id, price, quantity, c); }
      case MatchStep(taker, m) =>
        if !m.rejected && taker < |s.orders| && PersistBatch(s, taker, m.execs).Ok? {
          var s1 := PersistBatch(s, taker, m.execs).value;
          assert Gap(s1, c) == 0.0;
          var k := Account(s.orders[taker].user, s.orders[taker].pair.quote);
          if Refund(s1, k).Ok? { RefundGap(s1, k, c); }
        }
      case TriggerStep(id, asks) => TriggerGap(s, id, asks, c);
      case AdminStep(k, delta) => if Administer(s, k, delta).Ok? { AdminGap(s, k, delta, c); }
    }
  }

  /** Over any run of placements, bulk placements, matches, cancels, Cancel-Replaces, stop triggers,
      refunds and adjustments, each user's locked amount of a base asset is exactly what remains
      of the user's live sell orders of it. */
  lemma {:induction false} RunKeepsExact(s: State, steps: seq<Step>, asset: string)
    requires Sound(s) && RunContract(s, steps) && Exact(s, asset) && asset != ""
    requires AllSeparate(OnBase(0, asset), s.orders)
    requires forall i :: 0 <= i < |steps| ==> StepSeparate(OnBase(0, asset), steps[i])
    ensures Exact(Run(s, steps), asset) && AllSeparate(OnBase(0, asset), Run(s, steps).orders)
  {
    if steps != [] {
      var front, last := steps[..|steps| - 1], steps[|steps| - 1];
      RunPrefix(s, steps);
      RunKeepsExact(s, front, asset);
      RunKeepsSound(s, front);
      StepKeepsExact(Run(s, front), last, asset);
      SeparateStep(OnBase(0, asset), Run(s, front), last);
    }
  }
}
