/** Stop orders: each becomes at most one child order, and a restart attempts exactly the stops
    whose price has been crossed. */
module StopLifecycle {
  import opened Domain
  import opened Rows
  import opened AskWalk
  import opened Ledger
  import opened Soundness
  import opened AllOrNothing
  import opened OrderTerms

  // ---------- Triggering ----------

  /** What a child takes over from its stop: a stop-limit becomes a limit order at its own price, any
      other stop a market order without one. */
  predicate Inherits(p: Order, c: Order) {
    c.user == p.user && c.pair == p.pair && c.side == p.side && c.quantity == p.quantity && c.stopPrice == None &&
    if p.kind == StopLimit then c.kind == Limit && c.price == p.price else c.kind == Market && c.price == None
  }

  /** The child of stop p, new and with nothing filled. */
  predicate IsFreshChild(orders: seq<Order>, p: nat, c: Order) {
    p < |orders| && Inherits(orders[p], c) && c.parent == Some(p) && c.status == New &&
    c.filledQty == 0.0 && c.filledQuote == 0.0 && c.replacesId == None && c.replacedBy == None && c.replaceCount == 0
  }

  /** Stop p is completed and its child joins last; no other order changes. */
  predicate Fires(before: seq<Order>, after: seq<Order>, p: nat) {
    p < |before| && |after| == |before| + 1 && IsFreshChild(before, p, after[|before|]) &&
    after[..|before|] == before[p := before[p].(status := Filled, version := before[p].version + 1)]
  }

  /** A pending stop fires if and only if its child's requirement can be computed, is positive and is
      available.  Firing locks exactly that requirement in the paying account and nothing
      anywhere else, completes the stop and adds its child; otherwise no order and no amount
      changes. */
  lemma TriggerExactly(s: State, id: nat, asks: seq<Ask>)
    requires Sound(s) && id < |s.orders| && s.orders[id].status == Pending
    ensures var o := s.orders[id];
      var after := Trigger(s, id, asks);
      var fires := ChildLock(o, asks).Ok? && 0.0 < ChildLock(o, asks).value <= AvailableOf(s.balances, PayAccount(o));
      after.trades == s.trades &&
      (fires ==>
         Fires(s.orders, after.orders, id) &&
         OnlyMoved(s.balances, after.balances, PayAccount(o), ChildLock(o, asks).value)) &&
      (!fires ==> after.orders == s.orders && SameFunds(s.balances, after.balances))
  {
    hide ChildLock;
    assert OrderOk(s.orders[id]);
  }

  /** The ticket that a client would have sent for the child. */
  function TicketOf(o: Order): Ticket {
    Ticket(Some(o.pair), o.side, if o.kind == StopLimit then Limit else Market,
           if o.kind == StopLimit then o.price else None, None, None, o.quantity, None, None)
  }

  /** A trigger requires what placing the child by hand would. */
  lemma ChildLocksLikeTicket(o: Order, asks: seq<Ask>)
    requires OrderOk(o) && o.status == Pending
    ensures match Requirement(TicketOf(o), o.pair, asks)
      case Ok((asset, amount)) => Account(o.user, asset) == PayAccount(o) && ChildLock(o, asks) == Ok(amount)
      case Err(e) => ChildLock(o, asks) == Err(e)
  {
    hide MarketBuyLock, Value;
  }

  // ---------- Children over runs ----------

  ghost predicate ChildrenInherit(orders: seq<Order>) {
    forall p: nat, i: nat :: IsChild(orders, p, i) ==> Inherits(orders[p], orders[i])
  }

  /** An order that a step adds has no parent, unless the step fired its stop. */
  lemma NewOrdersAreFresh(s: State, step: Step, i: nat)
    requires Sound(s) && CanRun(step) && |s.orders| <= i < |Apply(s, step).orders|
    ensures var o := Apply(s, step).orders[i];
      o.parent == None || (step.TriggerStep? && IsFreshChild(s.orders, step.id, o))
  {
    hide Value, Admit, LockFunds, UnlockFunds, ChildLock, LockAll, Release, Match, Enumerates, Lineage, RowsSound;
    match step
    case BulkStep(user, requests, _) =>
      if Needs(requests).Ok? {
        AdmittedHavePairs(requests);
        OneOrderPerRequest(user, requests);
      }
    case MatchStep(taker, m) => if Match(s, taker, m).Ok? { MatchKeepsTerms(s, taker, m); }
    case TriggerStep(id, _) => if id < |s.orders| { assert OrderOk(s.orders[id]); }
    case _ =>
  }

  lemma StepKeepsInheritance(s: State, step: Step)
    requires Sound(s) && StepContract(s, step) && ChildrenInherit(s.orders)
    ensures ChildrenInherit(Apply(s, step).orders)
  {
    hide Apply, Sound, MatcherContract;
    var after := Apply(s, step).orders;
    StepKeepsTerms(s, step);
    forall p: nat, i: nat | IsChild(after, p, i) ensures Inherits(after[p], after[i]) {
      if i < |s.orders| {
        assert SameTerms(s.orders[i], after[i]) && SameTerms(s.orders[p], after[p]) && IsChild(s.orders, p, i);
      } else {
        NewOrdersAreFresh(s, step, i);
        assert SameTerms(s.orders[p], after[p]);
      }
    }
  }

  /** Over any run every child has its stop's user, pair, side and quantity, and is a limit order at the
      stop's price if that is a stop-limit, a market order without a price otherwise. */
  lemma {:induction false} RunChildrenInherit(s: State, steps: seq<Step>)
    requires Sound(s) && RunContract(s, steps) && ChildrenInherit(s.orders)
    ensures ChildrenInherit(Run(s, steps).orders)
  {
    if steps != [] {
      var front := steps[..|steps| - 1];
      RunPrefix(s, steps);
      RunChildrenInherit(s, front);
      RunKeepsSound(s, front);
      StepKeepsInheritance(Run(s, front), steps[|steps| - 1]);
    }
  }

  // ---------- At most once ----------

  /** Once a stop has been triggered or cancelled no step changes its status. */
  lemma StepKeepsDoneStop(s: State, step: Step, p: nat)
    requires Sound(s) && StepContract(s, step)
    requires p < |s.orders| && IsStop(s.orders[p].kind) && s.orders[p].status != Pending
    ensures var after := Apply(s, step).orders;
      |s.orders| <= |after| && IsStop(after[p].kind) && after[p].status == s.orders[p].status
  {
    hide Value, Admit, LockFunds, UnlockFunds, Adjust, ChildLock, LockAll, Release, Match, Sound, MatcherContract;
    DoneStopIsInactive(s, p);
    if step.MatchStep? && Match(s, step.taker, step.outcome).Ok? { MatchKeepsStops(s, step.taker, step.outcome, p); }
  }

  lemma DoneStopIsInactive(s: State, p: nat)
    requires Sound(s) && p < |s.orders| && IsStop(s.orders[p].kind) && s.orders[p].status != Pending
    ensures !IsActive(s.orders[p])
  {
  }

  lemma MatchKeepsStops(s: State, taker: nat, m: Outcome, p: nat)
    requires MatcherContract(s, taker, m) && Match(s, taker, m).Ok?
    requires p < |s.orders| && IsStop(s.orders[p].kind)
    ensures var after := Match(s, taker, m).value.orders; |after| == |s.orders| && after[p] == s.orders[p]
  {
    if !m.rejected && m.execs != [] {
      BatchShape(s, taker, m);
      var o := s.orders[taker];
      var s0 := s.(trades := s.trades + TradesOf(s.orders, taker, m.execs));
      FillsKeepOthers(s0, FillsOf(taker, o.side, m.execs), o.pair, p);
    }
  }

  lemma {:induction false} FillsKeepOthers(s: State, fills: seq<Fill>, pair: Pair, p: nat)
    requires Known(s, fills) && ApplyFills(s, fills, pair).Ok? && p < |s.orders| && IsStop(s.orders[p].kind)
    requires forall i :: 0 <= i < |fills| ==> IsLive(s.orders[fills[i].order])
    requires DistinctOrders(fills)
    ensures |ApplyFills(s, fills, pair).value.orders| == |s.orders|
    ensures ApplyFills(s, fills, pair).value.orders[p] == s.orders[p]
    decreases |fills|
  {
    if fills != [] {
      var s1 := ApplyFill(s, fills[0], pair).value;
      forall i | 0 <= i < |fills[1..]| ensures fills[1..][i] == fills[i + 1] && IsLive(s1.orders[fills[1..][i].order]) {
        assert fills[i + 1].order != fills[0].order;
      }
      FillsKeepOthers(s1, fills[1..], pair, p);
    }
  }

  ghost predicate HasChild(orders: seq<Order>, p: nat) {
    exists i: nat :: IsChild(orders, p, i)
  }

  /** Over any run a stop order has at most one child; it has one exactly when it is FILLED, so never
      while pending and never after a cancel; and its final status is final. */
  lemma {:induction false} StopSpawnsAtMostOnce(s: State, steps: seq<Step>, p: nat)
    requires Sound(s) && RunContract(s, steps) && p < |s.orders| && IsStop(s.orders[p].kind)
    ensures var after := Run(s, steps).orders;
      |s.orders| <= |after| && IsStop(after[p].kind) &&
      (forall i: nat, j: nat :: IsChild(after, p, i) && IsChild(after, p, j) ==> i == j) &&
      (HasChild(after, p) <==> after[p].status == Filled) &&
      (s.orders[p].status != Pending ==> after[p].status == s.orders[p].status)
  {
    RunKeepsSound(s, steps);
    if steps != [] {
      var front := steps[..|steps| - 1];
      RunPrefix(s, steps);
      StopSpawnsAtMostOnce(s, front, p);
      RunKeepsSound(s, front);
      if Run(s, front).orders[p].status != Pending {
        StepKeepsDoneStop(Run(s, front), steps[|steps| - 1], p);
      } else {
        StepKeepsKinds(Run(s, front), steps[|steps| - 1], p);
      }
    }
  }

  lemma StepKeepsKinds(s: State, step: Step, p: nat)
    requires Sound(s) && StepContract(s, step) && p < |s.orders| && IsStop(s.orders[p].kind)
    ensures |s.orders| <= |Apply(s, step).orders| && Apply(s, step).orders[p].kind == s.orders[p].kind
  {
    hide Value, Admit, LockFunds, UnlockFunds, Adjust, ChildLock, LockAll, Release, Match, Sound, MatcherContract;
    if step.MatchStep? && Match(s, step.taker, step.outcome).Ok? {
      MatchKeepsStops(s, step.taker, step.outcome, p);
    }
  }

  // ---------- Rescan ----------

  /** Has the last price crossed the stop for its side?  A missing or zero stop price never counts. */
  predicate Crossed(o: Order, last: real) {
    o.stopPrice.Some? && o.stopPrice.value != 0.0 &&
    (if o.side == Sell then last <= o.stopPrice.value else o.stopPrice.value <= last)
  }

  predicate IsPendingStop(o: Order, pair: Pair) {
    o.pair == pair && IsStop(o.kind) && o.status == Pending
  }

  /** The pending stops among the first n orders that a rescan attempts, oldest first. */
  function Attempts(orders: seq<Order>, pair: Pair, last: real, n: nat): seq<nat>
    requires n <= |orders|
  {
    if n == 0 then []
    else
      var before := Attempts(orders, pair, last, n - 1);
      if IsPendingStop(orders[n - 1], pair) && Crossed(orders[n - 1], last) then before + [n - 1] else before
  }

  /** Trigger one stop after the other, each with the asks loaded for it. */
  function TriggerAll(s: State, ids: seq<nat>, asks: nat -> seq<Ask>): State {
    if ids == [] then s
    else Trigger(TriggerAll(s, ids[..|ids| - 1], asks), ids[|ids| - 1], asks(ids[|ids| - 1]))
  }

  function Rescan(s: State, pair: Pair, last: real, asks: nat -> seq<Ask>): State {
    TriggerAll(s, Attempts(s.orders, pair, last, |s.orders|), asks)
  }

  lemma NothingTriggered(s: State, pair: Pair, last: real, asks: nat -> seq<Ask>)
    ensures TriggerAll(s, Attempts(s.orders, pair, last, 0), asks) == s
  {
  }

  /** One order of the rescan: attempted after the earlier ones, or skipped. */
  lemma TriggerNext(s: State, pair: Pair, last: real, i: nat, asks: nat -> seq<Ask>)
    requires i < |s.orders|
    ensures var before := TriggerAll(s, Attempts(s.orders, pair, last, i), asks);
      TriggerAll(s, Attempts(s.orders, pair, last, i + 1), asks) ==
        if IsPendingStop(s.orders[i], pair) && Crossed(s.orders[i], last) then Trigger(before, i, asks(i)) else before
  {
    hide Trigger;
    var ids := Attempts(s.orders, pair, last, i);
    assert (ids + [i])[..|ids|] == ids;
  }

  /** The attempted stops are exactly the pending ones whose price is crossed, each once. */
  lemma {:induction false} AttemptsExactly(orders: seq<Order>, pair: Pair, last: real, n: nat)
    requires n <= |orders|
    ensures forall id: nat :: id in Attempts(orders, pair, last, n) <==>
      id < n && orders[id].status == Pending && orders[id].pair == pair &&
      orders[id].kind in {StopMarket, StopLimit, TrailingStop} &&
      orders[id].stopPrice.Some? && orders[id].stopPrice.value != 0.0 &&
      if orders[id].side == Sell then last <= orders[id].stopPrice.value else orders[id].stopPrice.value <= last
    ensures forall i, j :: 0 <= i < j < |Attempts(orders, pair, last, n)| ==>
      Attempts(orders, pair, last, n)[i] < Attempts(orders, pair, last, n)[j]
  {
    if n > 0 {
      AttemptsExactly(orders, pair, last, n - 1);
      var before := Attempts(orders, pair, last, n - 1);
      assert forall i :: 0 <= i < |before| ==> before[i] in before;
    }
  }

  lemma {:induction false} TriggerAllScope(s: State, ids: seq<nat>, asks: nat -> seq<Ask>, i: nat)
    requires i < |s.orders|
    ensures |s.orders| <= |TriggerAll(s, ids, asks).orders|
    ensures i !in ids ==> TriggerAll(s, ids, asks).orders[i] == s.orders[i]
    ensures TriggerAll(s, ids, asks).orders[i] in {s.orders[i], WithStatus(s.orders[i], Filled)}
  {
    if ids != [] {
      assert forall x :: x in ids <==> x in ids[..|ids| - 1] || x == ids[|ids| - 1];
      TriggerAllScope(s, ids[..|ids| - 1], asks, i);
    }
  }

  /** A rescan leaves every order alone that is not a pending crossed stop, and turns the others at
      most into completed ones. */
  lemma RescanTouchesOnlyCrossed(s: State, pair: Pair, last: real, asks: nat -> seq<Ask>, i: nat)
    requires i < |s.orders|
    ensures |s.orders| <= |Rescan(s, pair, last, asks).orders|
    ensures Rescan(s, pair, last, asks).orders[i] != s.orders[i] ==>
      IsPendingStop(s.orders[i], pair) && Crossed(s.orders[i], last) &&
      Rescan(s, pair, last, asks).orders[i] == WithStatus(s.orders[i], Filled)
  {
    AttemptsExactly(s.orders, pair, last, |s.orders|);
    TriggerAllScope(s, Attempts(s.orders, pair, last, |s.orders|), asks, i);
  }
}
