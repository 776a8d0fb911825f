/** Which tickets are admitted, what each must lock, and what a batch of them must lock in all. */
module Admission {
  import opened Domain
  import opened AskWalk
  import opened Ledger
  import opened Soundness
  import opened AllOrNothing
  import opened RoundTrips
  import opened OrderTerms

  // ---------- One ticket ----------

  predicate IsTicks(price: real, tick: real, n: int) {
    price == n as real * tick
  }

  /** The price is a whole number of ticks; a pair without a tick accepts any price. */
  ghost predicate OnTick(price: real, tick: real) {
    0.0 < tick ==> exists n: int :: IsTicks(price, tick, n)
  }

  lemma MultipleIffOnTick(price: real, tick: real)
    requires 0.0 < tick
    ensures IsMultiple(price, tick) <==> OnTick(price, tick)
  {
    if IsMultiple(price, tick) {
      assert IsTicks(price, tick, (price / tick).Floor);
    }
    if n: int :| IsTicks(price, tick, n) {
      QuotientOf(n as real, tick);
      assert price / tick == n as real;
      assert (n as real).Floor == n;
    }
  }

  lemma QuotientOf(x: real, y: real)
    requires y != 0.0
    ensures x * y / y == x
  {
  }

  /** The rules on quantity and price. */
  ghost predicate WithinRules(pair: Pair, quantity: real, price: Option<real>) {
    0.0 < quantity && pair.minLot <= quantity <= pair.maxLot &&
    (price.Some? ==> 0.0 < price.value && OnTick(price.value, pair.tick))
  }

  /** The fields that a ticket of its kind must have. */
  predicate HasFields(t: Ticket) {
    match t.kind
    case Market => true
    case StopMarket => t.stopPrice.Some?
    case StopLimit => t.stopPrice.Some? && t.price.Some?
    case TrailingStop => t.trailingDelta.Some?
    case Iceberg =>
      t.price.Some? && t.visible.Some? && t.hidden.Some? &&
      0.0 < t.visible.value && t.visible.value + t.hidden.value == t.quantity
    case _ => t.price.Some?
  }

  /** A ticket is admitted if and only if its pair trades, it has the fields of its kind, its quantity and
      price are within the pair's rules and, for a market buy, the asks cover it. */
  lemma AdmitsIff(t: Ticket, asks: seq<Ask>)
    ensures Admit(t, asks).Ok? <==>
      t.pair.Some? && t.pair.value.active && HasFields(t) && WithinRules(t.pair.value, t.quantity, t.price) &&
      (t.kind == Market && t.side == Buy ==> MarketBuyLock(asks, t.quantity).Ok?)
    ensures Admit(t, asks).Err? ==> Admit(t, asks).error == Validation
  {
    hide WalkFrom, IsMultiple, OnTick;
    if t.pair.Some? && t.price.Some? {
      if 0.0 < t.pair.value.tick { MultipleIffOnTick(t.price.value, t.pair.value.tick); }
      else { NoTick(t.price.value, t.pair.value.tick); }
    }
  }

  lemma NoTick(price: real, tick: real)
    requires tick <= 0.0
    ensures OnTick(price, tick)
  {
  }

  /** What an admitted ticket locks, and in which asset: a stop nothing, a sell its quantity of the base,
      a priced buy its value in the quote and a market buy what the ask walk computes. */
  lemma LocksExactly(user: nat, t: Ticket, asks: seq<Ask>)
    requires Admit(t, asks).Ok? && RealTicketAsks(t, asks)
    ensures PayAccount(OrderFor(user, t, t.pair.value)) ==
      Account(user, if t.side == Sell then t.pair.value.base else t.pair.value.quote)
    ensures LockOf(t, asks) ==
      if t.kind in {StopMarket, StopLimit, TrailingStop} then 0.0
      else if t.side == Sell then t.quantity
      else if t.kind == Market then MarketBuyLock(asks, t.quantity).value
      else Value(t.price.value, t.quantity)
  {
    hide WalkFrom, IsMultiple, Value;
    if t.price.Some? { ValuePositive(t.price.value, t.quantity); }
    if t.kind == Market && t.side == Buy { LockIsPositive(asks, t.quantity); }
  }

  /** The asks that price a market buy have positive prices and no negative quantities. */
  ghost predicate RealTicketAsks(t: Ticket, asks: seq<Ask>) {
    t.kind == Market && t.side == Buy ==> Offers(asks) && PositivePrices(asks)
  }

  // ---------- A batch of tickets ----------

  /** What one request must lock of the asset. */
  function ShareOfRequest(r: Request, asset: string): real
    requires Admit(r.ticket, r.asks).Ok?
  {
    if asset == PayAccount(OrderFor(0, r.ticket, r.ticket.pair.value)).asset then LockOf(r.ticket, r.asks) else 0.0
  }

  predicate AllAdmitted(requests: seq<Request>) {
    forall i :: 0 <= i < |requests| ==> Admit(requests[i].ticket, requests[i].asks).Ok?
  }

  function SumOfLocks(requests: seq<Request>, asset: string): real
    requires AllAdmitted(requests)
  {
    if requests == [] then 0.0
    else SumOfLocks(requests[..|requests| - 1], asset) + ShareOfRequest(requests[|requests| - 1], asset)
  }

  /** The needs of a batch can be summed if and only if every ticket is admitted, and for each named asset
      they are the sum of what the tickets must lock. */
  lemma {:induction false} NeedsAreSums(requests: seq<Request>, asset: string)
    requires asset != ""
    ensures Needs(requests).Ok? <==> AllAdmitted(requests)
    ensures Needs(requests).Err? ==> Needs(requests).error == Validation
    ensures AllAdmitted(requests) ==>
      0.0 <= SumOfLocks(requests, asset) &&
      (asset in Needs(requests).value <==> 0.0 < SumOfLocks(requests, asset)) &&
      (asset in Needs(requests).value ==> Needs(requests).value[asset] == SumOfLocks(requests, asset))
  {
    hide Admit, LockOf, PayAccount, OrderFor;
    if requests != [] {
      var front, r := requests[..|requests| - 1], requests[|requests| - 1];
      NeedsAreSums(front, asset);
      AdmittedSplit(requests);
      if Admit(r.ticket, r.asks).Ok? { ShareIsNeed(r); } else { AdmitFails(r); }
    }
  }

  lemma AdmittedSplit(requests: seq<Request>)
    requires requests != []
    ensures var n := |requests| - 1;
      AllAdmitted(requests) <==>
      AllAdmitted(requests[..n]) && Admit(requests[n].ticket, requests[n].asks).Ok?
  {
    hide Admit;
    var front := requests[..|requests| - 1];
    assert forall i :: 0 <= i < |front| ==> front[i] == requests[i];
    if AllAdmitted(front) && Admit(requests[|front|].ticket, requests[|front|].asks).Ok? {
      forall i | 0 <= i < |requests| ensures Admit(requests[i].ticket, requests[i].asks).Ok? {
        if i < |front| { assert Admit(front[i].ticket, front[i].asks).Ok?; }
      }
    }
  }

  lemma AdmitFails(r: Request)
    requires Admit(r.ticket, r.asks).Err?
    ensures Admit(r.ticket, r.asks).error == Validation
  {
    AdmitsIff(r.ticket, r.asks);
  }

  lemma ShareIsNeed(r: Request)
    requires Admit(r.ticket, r.asks).Ok?
    ensures var (pair, asset, amount) := Admit(r.ticket, r.asks).value;
      forall other :: other != "" ==>
        ShareOfRequest(r, other) == if other == asset && 0.0 < amount then amount else 0.0
  {
    hide MarketBuyLock, IsValidTicket, Value;
  }

  function SumAt(requests: seq<Request>, user: nat, k: Account): real
    requires AllAdmitted(requests)
  {
    if k.user == user && k.asset != "" then SumOfLocks(requests, k.asset) else 0.0
  }

  ghost predicate AllAffordable(requests: seq<Request>, user: nat, b: Balances)
    requires AllAdmitted(requests)
  {
    forall asset :: asset != "" ==> SumOfLocks(requests, asset) <= AvailableOf(b, Account(user, asset))
  }

  /** A bulk placement succeeds if and only if every ticket is admitted and, for every asset, what they
      must lock in all is available.  Then exactly that is locked.  Otherwise every amount and order
      is as before, and the error tells which of the two it was. */
  lemma BulkExactly(s: State, user: nat, requests: seq<Request>, lockOrder: seq<string>)
    requires RowsSound(s.balances) && CanRun(BulkStep(user, requests, lockOrder))
    ensures var session := PlaceBulk(s, user, requests, lockOrder);
      (session.error == Some(Validation) <==> !AllAdmitted(requests)) &&
      (session.error == None <==> AllAdmitted(requests) && AllAffordable(requests, user, s.balances)) &&
      (session.error in {None, Some(Validation), Some(InsufficientBalance)}) &&
      (session.error == None ==>
         IsBulkOf(s.orders, session.state.orders, user, requests) &&
         forall k: Account :: MovedAt(s.balances, session.state.balances, k, SumAt(requests, user, k))) &&
      (session.error != None ==> session.state.orders == s.orders && SameFunds(s.balances, session.state.balances))
  {
    hide LockAll, AllAdmitted, OrdersFor, IsBulkOf, SumOfLocks, Needs, MovedAt;
    NeedsAreSums(requests, "any");
    if Needs(requests).Ok? {
      BulkIsAllOrNothing(s, user, requests, lockOrder);
      NeedsAffordableIff(requests, user, s.balances);
      NeedsAtSum(requests, lockOrder, user);
    } else {
      SameAsBefore(s.balances);
    }
  }

  lemma SameAsBefore(b: Balances)
    ensures SameFunds(b, b)
  {
  }

  lemma NeedsAffordableIff(requests: seq<Request>, user: nat, b: Balances)
    requires RowsSound(b) && Needs(requests).Ok? && AllAdmitted(requests)
    ensures AllAffordable(requests, user, b) <==>
      forall asset :: asset in Needs(requests).value ==>
        Needs(requests).value[asset] <= AvailableOf(b, Account(user, asset))
  {
    hide Needs, SumOfLocks, AllAdmitted;
    var needs := Needs(requests).value;
    forall asset | asset != ""
      ensures SumOfLocks(requests, asset) <= AvailableOf(b, Account(user, asset)) <==>
        (asset in needs ==> needs[asset] <= AvailableOf(b, Account(user, asset)))
    {
      NeedsAreSums(requests, asset);
    }
    NeedsAreNamed(requests);
  }

  lemma NeedsAtSum(requests: seq<Request>, lockOrder: seq<string>, user: nat)
    requires Needs(requests).Ok? && AllAdmitted(requests) && Enumerates(lockOrder, Needs(requests).value)
    ensures forall k: Account :: NeedAt(Needs(requests).value, lockOrder, user, k) == SumAt(requests, user, k)
  {
    hide Needs, SumOfLocks, AllAdmitted;
    NeedsAreNamed(requests);
    forall k: Account ensures NeedAt(Needs(requests).value, lockOrder, user, k) == SumAt(requests, user, k) {
      if k.asset != "" { NeedsAreSums(requests, k.asset); }
    }
  }

  lemma {:induction false} NeedsAreNamed(requests: seq<Request>)
    requires Needs(requests).Ok?
    ensures "" !in Needs(requests).value
  {
    hide Admit;
    if requests != [] { NeedsAreNamed(requests[..|requests| - 1]); }
  }

  // ---------- Orders over runs ----------

  /** The order is at least a smallest lot and, unless it replaced another, within all the rules. */
  ghost predicate KeepsRules(o: Order) {
    o.pair.minLot <= o.quantity && (o.replaceCount == 0 ==> WithinRules(o.pair, o.quantity, o.price)) &&
    (o.kind in {StopMarket, StopLimit, TrailingStop} ==> o.replaceCount == 0)
  }

  ghost predicate AllKeepRules(orders: seq<Order>) {
    forall i :: 0 <= i < |orders| ==> KeepsRules(orders[i])
  }

  lemma FreshKeepsRules(user: nat, t: Ticket, asks: seq<Ask>)
    requires Admit(t, asks).Ok?
    ensures KeepsRules(OrderFor(user, t, t.pair.value))
  {
    hide Requirement, IsValidTicket, OnTick;
    AdmitsIff(t, asks);
  }

  lemma {:induction false} BulkKeepsRules(user: nat, requests: seq<Request>)
    requires Needs(requests).Ok? && forall r :: r in requests ==> r.ticket.pair.Some?
    ensures AllKeepRules(OrdersFor(user, requests))
  {
    hide KeepsRules;
    if requests != [] {
      var r := requests[|requests| - 1];
      BulkKeepsRules(user, requests[..|requests| - 1]);
      FreshKeepsRules(user, r.ticket, r.asks);
    }
  }

  /** What a step adds keeps the rules. */
  lemma NewOrdersKeepRules(s: State, step: Step, i: nat)
    requires Sound(s) && CanRun(step) && AllKeepRules(s.orders) && |s.orders| <= i < |Apply(s, step).orders|
    ensures KeepsRules(Apply(s, step).orders[i])
  {
    hide Value, LockFunds, UnlockFunds, ChildLock, LockAll, Release, Match, Enumerates, Lineage, RowsSound, OnTick;
    hide IsValidTicket, Requirement, OrderFor;
    match step
    case PlaceStep(user, t, asks) => if Place(s, user, t, asks).Ok? { FreshKeepsRules(user, t, asks); }
    case BulkStep(user, requests, _) =>
      if Needs(requests).Ok? {
        AdmittedHavePairs(requests);
        BulkKeepsRules(user, requests);
      }
    case MatchStep(taker, m) => if Match(s, taker, m).Ok? { MatchKeepsTerms(s, taker, m); }
    case TriggerStep(id, _) => if id < |s.orders| { assert OrderOk(s.orders[id]) && KeepsRules(s.orders[id]); }
    case _ =>
  }

  lemma StepKeepsRules(s: State, step: Step)
    requires Sound(s) && CanRun(step) && AllKeepRules(s.orders)
    ensures AllKeepRules(Apply(s, step).orders)
  {
    hide Apply, Sound, OnTick;
    var after := Apply(s, step).orders;
    StepKeepsTerms(s, step);
    forall i | 0 <= i < |after| ensures KeepsRules(after[i]) {
      if i < |s.orders| {
        assert SameTerms(s.orders[i], after[i]) && KeepsRules(s.orders[i]);
      } else {
        NewOrdersKeepRules(s, step, i);
      }
    }
  }

  /** Over any run every order is at least a smallest lot, and every order that did not replace another is
      within the largest lot and on the pair's tick. */
  lemma {:induction false} RunKeepsRules(s: State, steps: seq<Step>)
    requires Sound(s) && RunContract(s, steps) && AllKeepRules(s.orders)
    ensures AllKeepRules(Run(s, steps).orders)
  {
    if steps != [] {
      var front := steps[..|steps| - 1];
      RunPrefix(s, steps);
      RunKeepsRules(s, front);
      RunKeepsSound(s, front);
      StepKeepsRules(Run(s, front), steps[|steps| - 1]);
    }
  }
}
