/** Reachable states of the exchange in which a promise of the ledger fails.

    The exact conditions are in QuoteLocks, BaseLocks, Settlement, RoundTrips and AllOrNothing. */
module Shortfalls {
  import opened Domain
  import opened Rows
  import opened AskWalk
  import opened Ledger
  import opened Soundness
  import opened Claims
  import opened BaseLocks
  import opened QuoteLocks
  import opened Settlement
  import opened AllOrNothing
  import opened RoundTrips
  import opened StopLifecycle
  import opened PrintPath
  import TrailingStops

  const EMPTY := State(map[], [], [])

  /** A run from the empty exchange ends in s, with the matcher keeping its contract throughout. */
  ghost predicate Reachable(s: State) {
    exists steps :: RunContract(EMPTY, steps) && Run(EMPTY, steps) == s
  }

  lemma EmptyIsReachable()
    ensures Reachable(EMPTY) && Sound(EMPTY)
  {
    assert RunContract(EMPTY, []) && Run(EMPTY, []) == EMPTY;
  }

  lemma StepIsReachable(s: State, step: Step)
    requires Reachable(s) && StepContract(s, step)
    ensures Reachable(Apply(s, step))
  {
    hide MatcherContract, Apply, Enumerates, Needs;
    var steps :| RunContract(EMPTY, steps) && Run(EMPTY, steps) == s;
    var more := steps + [step];
    assert more[..|steps|] == steps;
    forall i | 0 <= i < |more| ensures StepContract(Run(EMPTY, more[..i]), more[i]) {
      if i < |steps| { assert more[..i] == steps[..i] && more[i] == steps[i]; }
    }
    assert RunContract(EMPTY, more) && Run(EMPTY, more) == Apply(s, step);
  }

  lemma ReachableIsSound(s: State)
    requires Reachable(s)
    ensures Sound(s)
  {
    var steps :| RunContract(EMPTY, steps) && Run(EMPTY, steps) == s;
    EmptyIsReachable();
    RunKeepsSound(EMPTY, steps);
  }

  // ---------- A buyer and a seller ----------

  const PAIR := Pair("BTC", "USDT", 1.0, 100.0, 0.0, true)
  const QUOTE_OF_BUYER := Account(1, "USDT")
  const BASE_OF_SELLER := Account(2, "BTC")

  /** An administrator has granted the buyer 100 USDT and the seller 2 BTC. */
  const FUNDED := State(
    map[QUOTE_OF_BUYER := Row(100.0, 0.0, 100.0, 2), BASE_OF_SELLER := Row(2.0, 0.0, 2.0, 2)], [], [])

  lemma GrantIsReachable(s: State, k: Account, amount: real)
    requires Reachable(s) && k !in s.balances && 0.0 <= amount
    ensures Reachable(State(s.balances[k := Row(amount, 0.0, amount, 2)], s.orders, s.trades))
  {
    hide Reachable, Place, PlaceBulk, Cancel, Modify, Match, Trigger, MatcherContract;
    StepIsReachable(s, AdminStep(k, amount));
    assert s.balances[k := EMPTY_ROW][k := Row(amount, 0.0, amount, 2)] == s.balances[k := Row(amount, 0.0, amount, 2)];
  }

  lemma FundedIsReachable()
    ensures Reachable(FUNDED)
  {
    hide Reachable;
    EmptyIsReachable();
    GrantIsReachable(EMPTY, QUOTE_OF_BUYER, 100.0);
    var granted := State(map[QUOTE_OF_BUYER := Row(100.0, 0.0, 100.0, 2)], [], []);
    GrantIsReachable(granted, BASE_OF_SELLER, 2.0);
    assert granted.balances[BASE_OF_SELLER := Row(2.0, 0.0, 2.0, 2)] == FUNDED.balances;
  }

  function LimitTicket(side: Side, price: real): Ticket {
    Ticket(Some(PAIR), side, Limit, Some(price), None, None, 1.0, None, None)
  }

  function LimitOrder(user: nat, side: Side, price: real): Order {
    Order(user, PAIR, side, Limit, New, Some(price), None, 1.0, 0.0, 0.0, None, None, 0, None, 1)
  }

  /** A limit order of one BTC locks its base or its quote and joins last. */
  lemma LimitStep(s: State, user: nat, side: Side, price: real)
    requires Reachable(s) && 0.0 < price
    requires var k := Account(user, if side == Sell then "BTC" else "USDT");
      k in s.balances && (if side == Sell then 1.0 else price) <= s.balances[k].available
    ensures var amount, k := if side == Sell then 1.0 else price, Account(user, if side == Sell then "BTC" else "USDT");
      var r := s.balances[k];
      var after := State(s.balances[k := Row(r.total, r.locked + amount, r.available - amount, r.version + 1)],
                         s.orders + [LimitOrder(user, side, price)], s.trades);
      Reachable(after)
  {
    hide Reachable, PlaceBulk, Cancel, Modify, Match, Trigger, Administer, MatcherContract, MarketBuyLock, IsMultiple;
    assert Value(price, 1.0) == price;
    StepIsReachable(s, PlaceStep(user, LimitTicket(side, price), []));
  }

  // ---------- The refund ----------

  const MARKET_TICKET := Ticket(Some(PAIR), Buy, Market, None, None, None, 1.0, None, None)
  const MARKET_ORDER := Order(1, PAIR, Buy, Market, New, None, None, 1.0, 0.0, 0.0, None, None, 0, None, 1)
  const ASKS := [Ask(20.0, 1.0, 0.0, false)]

  /** The buyer bids 10 for one BTC, the seller asks 20, and the buyer also buys at the market. */
  const BID_AND_MARKET_BUY := State(
    map[QUOTE_OF_BUYER := Row(100.0, 30.02, 69.98, 4), BASE_OF_SELLER := Row(2.0, 1.0, 1.0, 3)],
    [LimitOrder(1, Buy, 10.0), LimitOrder(2, Sell, 20.0), MARKET_ORDER], [])

  const ASK_FILLED := Outcome(false, [Exec(1, 20.0, 1.0)], 0.0)

  function FilledAt20(o: Order): Order {
    o.(filledQty := 1.0, filledQuote := 20.0, status := Filled, version := 2)
  }

  /** The market buy has been matched and refunded. */
  const REFUNDED := State(
    map[QUOTE_OF_BUYER := Row(80.0, 0.0, 80.0, 6), BASE_OF_SELLER := Row(1.0, 0.0, 1.0, 4)],
    [LimitOrder(1, Buy, 10.0),
     FilledAt20(LimitOrder(2, Sell, 20.0)), FilledAt20(MARKET_ORDER)],
    [Trade(2, 1, 20.0, 1.0, 20.0, Buy, 1, 2)])

  lemma MarketBuyLocks()
    ensures MarketBuyLock(ASKS, 1.0) == Ok(20.02)
  {
    assert ASKS[1..] == [];
    assert Value(20.0, 1.0) == 20.0;
  }

  lemma MarketStep(s: State)
    requires Reachable(s) && QUOTE_OF_BUYER in s.balances && 20.02 <= s.balances[QUOTE_OF_BUYER].available
    ensures var r := s.balances[QUOTE_OF_BUYER];
      Reachable(State(s.balances[QUOTE_OF_BUYER := Row(r.total, r.locked + 20.02, r.available - 20.02, r.version + 1)],
                      s.orders + [MARKET_ORDER], s.trades))
  {
    hide Reachable, PlaceBulk, Cancel, Modify, Match, Trigger, Administer, MatcherContract, MarketBuyLock, IsMultiple;
    MarketBuyLocks();
    StepIsReachable(s, PlaceStep(1, MARKET_TICKET, ASKS));
  }

  lemma BidAndMarketBuyAreReachable()
    ensures Reachable(BID_AND_MARKET_BUY)
  {
    hide Reachable;
    FundedIsReachable();
    LimitStep(FUNDED, 1, Buy, 10.0);
    var bid := State(FUNDED.balances[QUOTE_OF_BUYER := Row(100.0, 10.0, 90.0, 3)], [LimitOrder(1, Buy, 10.0)], []);
    assert FUNDED.orders + [LimitOrder(1, Buy, 10.0)] == bid.orders;
    LimitStep(bid, 2, Sell, 20.0);
    var both := State(bid.balances[BASE_OF_SELLER := Row(2.0, 1.0, 1.0, 3)],
                      bid.orders + [LimitOrder(2, Sell, 20.0)], []);
    MarketStep(both);
    assert both.orders + [MARKET_ORDER] == BID_AND_MARKET_BUY.orders;
    assert both.balances[QUOTE_OF_BUYER := Row(100.0, 30.02, 69.98, 4)] == BID_AND_MARKET_BUY.balances;
  }

  /** After the refund nothing is locked for the bid that is still live. */
  lemma RefundUncovers()
    ensures Reachable(REFUNDED) && !Covered(REFUNDED, "USDT")
  {
    hide Reachable, Covered, Apply, StepContract;
    BidAndMarketBuyAreReachable();
    AskIsFilled();
    StepIsReachable(BID_AND_MARKET_BUY, MatchStep(2, ASK_FILLED));
    BidIsUncovered();
  }

  lemma BidIsUncovered()
    ensures !Covered(REFUNDED, "USDT")
  {
    hide Owed;
    assert forall i :: 0 <= i < |REFUNDED.orders| ==> OrderOk(REFUNDED.orders[i]);
    assert Value(10.0, 1.0) == 10.0;
    OwedAtLeast(OnQuote(1, "USDT"), REFUNDED.orders, 0);
    assert 0.0 < Gap(REFUNDED, OnQuote(1, "USDT"));
  }

  const SALE := Fill(1, Sell, 1.0, 20.0, false)
  const PURCHASE := Fill(2, Buy, 1.0, 20.0, true)

  /** The seller has been settled, and then the buyer, too. */
  const SOLD := State(
    BID_AND_MARKET_BUY.balances[BASE_OF_SELLER := Row(1.0, 0.0, 1.0, 4)],
    BID_AND_MARKET_BUY.orders[1 := REFUNDED.orders[1]], REFUNDED.trades)
  const BOUGHT := State(
    SOLD.balances[QUOTE_OF_BUYER := Row(80.0, 10.02, 69.98, 5)], SOLD.orders[2 := REFUNDED.orders[2]], REFUNDED.trades)

  lemma AskIsFilled()
    ensures StepContract(BID_AND_MARKET_BUY, MatchStep(2, ASK_FILLED))
    ensures Apply(BID_AND_MARKET_BUY, MatchStep(2, ASK_FILLED)) == REFUNDED
  {
    hide PersistBatch, MatcherContract, Match, Place, PlaceBulk, Cancel, Modify, Trigger, Administer;
    AskSettles();
    AskFits();
    BuyerIsRefunded(BID_AND_MARKET_BUY, 2, ASK_FILLED, BOUGHT);
    assert BOUGHT.balances[QUOTE_OF_BUYER := Row(80.0, 0.0, 80.0, 6)] == REFUNDED.balances;
    assert BOUGHT.orders == REFUNDED.orders;
  }

  /** After the buyer's market buy all of the locked USDT is released. */
  lemma BuyerIsRefunded(s: State, taker: nat, m: Outcome, settled: State)
    requires taker < |s.orders| && s.orders[taker] == MARKET_ORDER && !m.rejected
    requires PersistBatch(s, taker, m.execs) == Ok(settled) && QUOTE_OF_BUYER in settled.balances
    requires var r := settled.balances[QUOTE_OF_BUYER]; r.Balanced() && 0.0 < r.locked
    ensures var r := settled.balances[QUOTE_OF_BUYER];
      Match(s, taker, m) ==
        Ok(settled.(balances := settled.balances[QUOTE_OF_BUYER := Row(r.total, 0.0, r.total, r.version + 1)]))
  {
    hide PersistBatch;
  }

  lemma AskFits()
    ensures MatcherContract(BID_AND_MARKET_BUY, 2, ASK_FILLED)
  {
    hide FillsOf, TradesOf;
    MatchOfOne(BID_AND_MARKET_BUY, 2, 1, 20.0);
  }

  lemma AskSettles()
    ensures PersistBatch(BID_AND_MARKET_BUY, 2, ASK_FILLED.execs) == Ok(BOUGHT)
  {
    hide ApplyFill;
    SaleSettles();
    PurchaseSettles();
    assert BID_AND_MARKET_BUY.trades + REFUNDED.trades == REFUNDED.trades;
    BatchOfOne(BID_AND_MARKET_BUY, 2, 1, 20.0, SOLD, BOUGHT);
  }

  /** A batch of one execution settles the seller and then the buyer. */
  lemma BatchOfOne(s: State, taker: nat, maker: nat, price: real, sold: State, bought: State)
    requires taker < |s.orders| && maker < |s.orders| && s.orders[taker].side == Buy && s.orders[taker].pair == PAIR
    requires var trade := Trade(taker, maker, price, 1.0, price, Buy, s.orders[taker].user, s.orders[maker].user);
      ApplyFill(s.(trades := s.trades + [trade]), Fill(maker, Sell, 1.0, price, false), PAIR) == Ok(sold) &&
      |sold.orders| == |s.orders| && ApplyFill(sold, Fill(taker, Buy, 1.0, price, true), PAIR) == Ok(bought)
    ensures PersistBatch(s, taker, [Exec(maker, price, 1.0)]) == Ok(bought)
  {
    hide FillsOf, TradesOf, ApplyFill;
    MatchOfOne(s, taker, maker, price);
    var sale, purchase := Fill(maker, Sell, 1.0, price, false), Fill(taker, Buy, 1.0, price, true);
    assert [sale, purchase][1..] == [purchase] && [purchase][1..] == [];
    assert ApplyFills(bought, [], PAIR) == Ok(bought);
    assert ApplyFills(sold, [purchase], PAIR) == Ok(bought);
  }

  /** What settling one BTC at 20 does to a seller without a USDT row. */
  lemma SellerSettles(s: State, id: nat)
    requires id < |s.orders| && s.orders[id].user == 2 && Account(2, "USDT") !in s.balances
    requires BASE_OF_SELLER in s.balances && s.balances[BASE_OF_SELLER].Balanced()
    requires 1.0 <= s.balances[BASE_OF_SELLER].locked
    ensures var f, r := Fill(id, Sell, 1.0, 20.0, false), s.balances[BASE_OF_SELLER];
      ApplyFill(s, f, PAIR) ==
        Ok(State(s.balances[BASE_OF_SELLER := Row(r.total - 1.0, r.locked - 1.0, r.available, r.version + 1)],
                 s.orders[id := FillOrder(s.orders[id], f)], s.trades))
  {
    hide FillOrder;
  }

  /** What it does to a buyer without a BTC row. */
  lemma BuyerSettles(s: State, id: nat)
    requires id < |s.orders| && s.orders[id].user == 1 && Account(1, "BTC") !in s.balances
    requires QUOTE_OF_BUYER in s.balances && s.balances[QUOTE_OF_BUYER].Balanced()
    requires 20.0 <= s.balances[QUOTE_OF_BUYER].locked
    ensures var f, r := Fill(id, Buy, 1.0, 20.0, true), s.balances[QUOTE_OF_BUYER];
      ApplyFill(s, f, PAIR) ==
        Ok(State(s.balances[QUOTE_OF_BUYER := Row(r.total - 20.0, r.locked - 20.0, r.available, r.version + 1)],
                 s.orders[id := FillOrder(s.orders[id], f)], s.trades))
  {
    hide FillOrder;
  }

  lemma SaleSettles()
    ensures ApplyFill(BID_AND_MARKET_BUY.(trades := REFUNDED.trades), SALE, PAIR) == Ok(SOLD)
  {
    hide ApplyFill;
    SellerSettles(BID_AND_MARKET_BUY.(trades := REFUNDED.trades), 1);
    assert FillOrder(BID_AND_MARKET_BUY.orders[1], SALE) == REFUNDED.orders[1];
  }

  lemma PurchaseSettles()
    ensures ApplyFill(SOLD, PURCHASE, PAIR) == Ok(BOUGHT)
  {
    hide ApplyFill;
    BuyerSettles(SOLD, 2);
    assert FillOrder(SOLD.orders[2], PURCHASE) == REFUNDED.orders[2];
  }

  /** What one execution amounts to. */
  lemma MatchOfOne(s: State, taker: nat, maker: nat, price: real)
    requires taker < |s.orders| && maker < |s.orders| && s.orders[taker].side == Buy
    ensures var execs := [Exec(maker, price, 1.0)];
      AllMakersKnown(s.orders, execs) &&
      FillsOf(taker, Buy, execs) == [Fill(maker, Sell, 1.0, price, false), Fill(taker, Buy, 1.0, price, true)] &&
      TradesOf(s.orders, taker, execs) ==
        [Trade(taker, maker, price, 1.0, price, Buy, s.orders[taker].user, s.orders[maker].user)]
  {
    var e := Exec(maker, price, 1.0);
    var execs := [e];
    assert execs[..0] == [] && Value(price, 1.0) == price;
    assert Aggregate([], Sell) == [] && TotalQty([]) == 0.0 && TotalQuote([]) == 0.0;
    assert AddDelta([], Sell, e) == [Fill(maker, Sell, 1.0, price, false)];
    assert TotalQty(execs) == 1.0 && TotalQuote(execs) == price;
    assert Aggregate(execs, Sell) == [Fill(maker, Sell, 1.0, price, false)];
  }

  // ---------- An iceberg ask ----------

  const ICEBERG_ASKS := [Ask(10.0, 5.0, 1.0, true), Ask(20.0, 5.0, 0.0, false)]

  /** The buyer buys three at the market, of which the iceberg shows one: that locks 50.05. */
  lemma IcebergLocksShownPart()
    ensures Reachable(FUNDED)
    ensures var placed := Place(FUNDED, 1, MARKET_TICKET.(quantity := 3.0), ICEBERG_ASKS);
      placed.Ok? && LockedOf(placed.value.balances, QUOTE_OF_BUYER) == 50.05
  {
    hide Reachable, MarketBuyLock, IsMultiple;
    FundedIsReachable();
    IcebergShowsItsPart();
  }

  // ---------- A seller without a row ----------

  /** The seller of the same match has no USDT row, and what the buyer paid is gone. */
  lemma BatchLosesFunds()
    ensures Reachable(BID_AND_MARKET_BUY) && PersistBatch(BID_AND_MARKET_BUY, 2, ASK_FILLED.execs) == Ok(BOUGHT)
    ensures TotalOf(BOUGHT.balances, "USDT") < TotalOf(BID_AND_MARKET_BUY.balances, "USDT")
  {
    hide Reachable, PersistBatch, FillsOf, TotalOf, Unreceived, Unpaid;
    var s := BID_AND_MARKET_BUY;
    BidAndMarketBuyAreReachable();
    AskSettles();
    MatchOfOne(s, 2, 1, 20.0);
    BatchConservesIff(s, 2, ASK_FILLED.execs, "USDT");
    var fills := FillsOf(2, Buy, ASK_FILLED.execs);
    assert fills[0] == SALE && ReceiveRow(s.orders, SALE, PAIR) !in s.balances;
    assert PayersHaveRows(s, fills, PAIR, "USDT") && !PayeesHaveRows(s, fills, PAIR, "USDT");
  }

  // ---------- A market buy that is cancelled ----------

  /** A market buy without a price of its own is cancelled before it is matched, and its lock stays. */
  lemma CancelKeepsMarketLock()
    ensures Reachable(FUNDED) && Place(FUNDED, 1, MARKET_TICKET, ASKS).Ok?
    ensures var placed := Place(FUNDED, 1, MARKET_TICKET, ASKS).value;
      Cancel(placed, 1, 0).Ok? && !SameFunds(FUNDED.balances, Cancel(placed, 1, 0).value.balances)
  {
    hide Reachable, Cancel, Place, LockOf, SameFunds, Sound;
    FundedIsReachable();
    ReachableIsSound(FUNDED);
    MarketIsPlaced();
    assert Value(0.0, 1.0) == 0.0;
    PlaceThenCancelRestoresIff(FUNDED, 1, MARKET_TICKET, ASKS);
  }

  lemma MarketIsPlaced()
    ensures Place(FUNDED, 1, MARKET_TICKET, ASKS).Ok?
    ensures Admit(MARKET_TICKET, ASKS).Ok? && LockOf(MARKET_TICKET, ASKS) == 20.02
  {
    hide MarketBuyLock, IsMultiple;
    MarketBuyLocks();
  }

  // ---------- A Cancel-Replace with invalid terms ----------

  const BID := State(FUNDED.balances[QUOTE_OF_BUYER := Row(100.0, 10.0, 90.0, 3)], [LimitOrder(1, Buy, 10.0)], [])

  lemma BidIsReachable()
    ensures Reachable(BID)
  {
    hide Reachable;
    FundedIsReachable();
    LimitStep(FUNDED, 1, Buy, 10.0);
    assert FUNDED.orders + [LimitOrder(1, Buy, 10.0)] == BID.orders;
  }

  /** At a price of zero the replacement is refused after the old lock has been released. */
  lemma InvalidTermsReleaseLock()
    ensures Reachable(BID)
    ensures var session := Modify(BID, 1, 0, 0.0, 1.0);
      session.error == Some(Validation) && !SameFunds(BID.balances, session.state.balances)
  {
    hide Reachable;
    BidIsReachable();
    ReachableIsSound(BID);
    assert Value(10.0, 1.0) == 10.0;
    ModifyFailureRestoresIff(BID, 1, 0, 0.0, 1.0);
  }

  /** The same bid can be replaced by one for 200, twice the largest lot. */
  lemma ReplacementExceedsLot()
    ensures Reachable(BID) && PAIR.maxLot == 100.0
    ensures var session := Modify(BID, 1, 0, 0.05, 200.0);
      session.error == None && |session.state.orders| == 2 && session.state.orders[1].quantity == 200.0
  {
    hide Reachable, Modify, Sound;
    BidIsReachable();
    ReachableIsSound(BID);
    assert Value(10.0, 1.0) == 10.0 && Value(0.05, 200.0) == 10.0;
    ModifyAnswers(BID, 1, 0, 0.05, 200.0);
    ModifyExactly(BID, 1, 0, 0.05, 200.0);
  }

  // ---------- A cancelled order that is filled ----------

  /** The seller asks 20 twice and cancels the first ask; the buyer bids 20. */
  const ONE_CANCELLED := State(
    map[QUOTE_OF_BUYER := Row(100.0, 20.0, 80.0, 3), BASE_OF_SELLER := Row(2.0, 1.0, 1.0, 5)],
    [LimitOrder(2, Sell, 20.0).(status := Canceled, version := 2), LimitOrder(2, Sell, 20.0), LimitOrder(1, Buy, 20.0)],
    [])

  const TWO_ASKS := State(
    FUNDED.balances[BASE_OF_SELLER := Row(2.0, 2.0, 0.0, 4)],
    [LimitOrder(2, Sell, 20.0), LimitOrder(2, Sell, 20.0)], [])

  lemma TwoAsksAreReachable()
    ensures Reachable(TWO_ASKS)
  {
    hide Reachable;
    var ask := LimitOrder(2, Sell, 20.0);
    FundedIsReachable();
    LimitStep(FUNDED, 2, Sell, 20.0);
    var first := State(FUNDED.balances[BASE_OF_SELLER := Row(2.0, 1.0, 1.0, 3)], [ask], []);
    assert FUNDED.orders + [ask] == first.orders;
    LimitStep(first, 2, Sell, 20.0);
    assert first.orders + [ask] == TWO_ASKS.orders;
    assert first.balances[BASE_OF_SELLER := Row(2.0, 2.0, 0.0, 4)] == TWO_ASKS.balances;
  }

  lemma OneCancelledIsReachable()
    ensures Reachable(ONE_CANCELLED)
  {
    hide Reachable;
    var ask, bid := LimitOrder(2, Sell, 20.0), LimitOrder(1, Buy, 20.0);
    TwoAsksAreReachable();
    LimitStep(TWO_ASKS, 1, Buy, 20.0);
    var bidden := State(TWO_ASKS.balances[QUOTE_OF_BUYER := Row(100.0, 20.0, 80.0, 3)], [ask, ask, bid], []);
    assert TWO_ASKS.orders + [bid] == bidden.orders;
    CancelFirst(bidden);
    assert bidden.balances[BASE_OF_SELLER := Row(2.0, 1.0, 1.0, 5)] == ONE_CANCELLED.balances;
    assert bidden.orders[0 := ask.(status := Canceled, version := 2)] == ONE_CANCELLED.orders;
  }

  lemma CancelFirst(s: State)
    requires Reachable(s) && s.orders != [] && s.orders[0] == LimitOrder(2, Sell, 20.0)
    requires BASE_OF_SELLER in s.balances && s.balances[BASE_OF_SELLER] == Row(2.0, 2.0, 0.0, 4)
    ensures Reachable(State(s.balances[BASE_OF_SELLER := Row(2.0, 1.0, 1.0, 5)],
                            s.orders[0 := s.orders[0].(status := Canceled, version := 2)], s.trades))
  {
    hide Reachable, Sound, Lineage, MatcherContract, CancelChildren;
    hide Place, PlaceBulk, Modify, Match, Trigger, Administer;
    ReachableIsSound(s);
    SoundCancelsAlone(s);
    StepIsReachable(s, CancelStep(2, 0));
  }

  lemma SoundCancelsAlone(s: State)
    requires Sound(s) && s.orders != [] && s.orders[0] == LimitOrder(2, Sell, 20.0)
    ensures var orders := s.orders[0 := WithStatus(s.orders[0], Canceled)]; CancelChildren(orders, 0) == orders
  {
    LineageUpdate(s.orders, 0, WithStatus(s.orders[0], Canceled));
    NoChildrenToCancel(s.orders[0 := WithStatus(s.orders[0], Canceled)], 0);
  }

  const CANCELLED_SOLD := State(
    ONE_CANCELLED.balances[BASE_OF_SELLER := Row(1.0, 0.0, 1.0, 6)],
    ONE_CANCELLED.orders[0 := FilledAt20(LimitOrder(2, Sell, 20.0)).(version := 3)],
    [Trade(2, 0, 20.0, 1.0, 20.0, Buy, 1, 2)])
  const CANCELLED_BOUGHT := State(
    CANCELLED_SOLD.balances[QUOTE_OF_BUYER := Row(80.0, 0.0, 80.0, 4)],
    CANCELLED_SOLD.orders[2 := FilledAt20(LimitOrder(1, Buy, 20.0))],
    CANCELLED_SOLD.trades)

  /** If the cancelled ask is then filled all the same, nothing is locked for the other one. */
  lemma FillingCancelledUnlocks()
    ensures Reachable(ONE_CANCELLED) && PersistBatch(ONE_CANCELLED, 2, [Exec(0, 20.0, 1.0)]) == Ok(CANCELLED_BOUGHT)
    ensures !Exact(CANCELLED_BOUGHT, "BTC")
  {
    hide Reachable, ApplyFill, PersistBatch, Exact;
    OneCancelledIsReachable();
    CancelledSettles();
    BatchOfOne(ONE_CANCELLED, 2, 0, 20.0, CANCELLED_SOLD, CANCELLED_BOUGHT);
    OtherAskIsUnlocked();
  }

  lemma OtherAskIsUnlocked()
    ensures !Exact(CANCELLED_BOUGHT, "BTC")
  {
    hide Owed;
    assert forall i :: 0 <= i < |CANCELLED_BOUGHT.orders| ==> OrderOk(CANCELLED_BOUGHT.orders[i]);
    OwedAtLeast(OnBase(2, "BTC"), CANCELLED_BOUGHT.orders, 1);
    assert 0.0 < Gap(CANCELLED_BOUGHT, OnBase(2, "BTC"));
  }

  lemma CancelledSettles()
    ensures ApplyFill(ONE_CANCELLED.(trades := ONE_CANCELLED.trades + CANCELLED_SOLD.trades),
                      Fill(0, Sell, 1.0, 20.0, false), PAIR) == Ok(CANCELLED_SOLD)
    ensures ApplyFill(CANCELLED_SOLD, Fill(2, Buy, 1.0, 20.0, true), PAIR) == Ok(CANCELLED_BOUGHT)
  {
    hide ApplyFill;
    var s0 := ONE_CANCELLED.(trades := ONE_CANCELLED.trades + CANCELLED_SOLD.trades);
    assert s0.trades == CANCELLED_SOLD.trades;
    SellerSettles(s0, 0);
    assert FillOrder(s0.orders[0], Fill(0, Sell, 1.0, 20.0, false)) == CANCELLED_SOLD.orders[0];
    BuyerSettles(CANCELLED_SOLD, 2);
    assert FillOrder(CANCELLED_SOLD.orders[2], Fill(2, Buy, 1.0, 20.0, true)) == CANCELLED_BOUGHT.orders[2];
  }

  // ---------- A stop that no price has crossed ----------

  const STOP_TICKET := Ticket(Some(PAIR), Sell, StopMarket, None, Some(90.0), None, 1.0, None, None)
  const STOP_ORDER := Order(2, PAIR, Sell, StopMarket, Pending, None, Some(90.0), 1.0, 0.0, 0.0, None, None, 0, None, 1)

  /** The seller has placed a stop at 90. */
  const STOP_PENDING := State(FUNDED.balances, [STOP_ORDER], [])
  const STOP_SCORES: map<nat, real> := map[0 := 90.0 * TrailingStops.SCORE_SCALE]

  lemma StopIsReachable()
    ensures Reachable(STOP_PENDING)
  {
    hide Reachable, PlaceBulk, Cancel, Modify, Match, Trigger, Administer, MatcherContract, IsMultiple;
    FundedIsReachable();
    StepIsReachable(FUNDED, PlaceStep(2, STOP_TICKET, []));
    assert FUNDED.orders + [STOP_ORDER] == STOP_PENDING.orders;
  }

  /** A print of 100 fires the sell stop at 90 all the same. */
  lemma PrintFiresUncrossedStop()
    ensures Reachable(STOP_PENDING) && IsPendingStop(STOP_ORDER, PAIR) && !Crossed(STOP_ORDER, 100.0)
    ensures IsQueued(STOP_SCORES, STOP_PENDING.orders, 0) && 0 in TrailingStops.Candidates(STOP_SCORES, 100.0)
    ensures Fires(STOP_PENDING.orders, Trigger(STOP_PENDING, 0, []).orders, 0)
  {
    hide Reachable, Trigger, Fires, Sound;
    StopIsReachable();
    ReachableIsSound(STOP_PENDING);
    PrintFiresIff(STOP_SCORES, STOP_PENDING, 0, 100.0, []);
  }
}
