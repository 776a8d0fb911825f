/** What every reachable state satisfies: consistent rows, consistent orders, and stop orders that
    have exactly one child once triggered and none otherwise. */
module Soundness {
  import opened Domain
  import opened AskWalk
  import opened Ledger

  predicate OrderOk(o: Order) {
    && 0.0 < o.quantity
    && 0.0 <= o.filledQty
    && (IsLive(o) ==> o.filledQty < o.quantity)
    && (IsPriced(o.kind) || o.kind == StopLimit ==> o.price.Some? && 0.0 < o.price.value)
    && (o.status == Pending ==> IsStop(o.kind))
  }

  ghost predicate RowsSound(b: Balances) {
    forall k :: k in b ==> b[k].Sound()
  }

  ghost predicate OrdersOk(orders: seq<Order>) {
    forall i :: 0 <= i < |orders| ==> OrderOk(orders[i])
  }

  /** Order i is the child that stop order p became. */
  predicate IsChild(orders: seq<Order>, p: nat, i: nat) {
    p < i < |orders| && orders[i].parent == Some(p)
  }

  ghost predicate Lineage(orders: seq<Order>) {
    && (forall i :: 0 <= i < |orders| && orders[i].parent.Some? ==>
          IsChild(orders, orders[i].parent.value, i) && IsStop(orders[orders[i].parent.value].kind))
    && (forall p: nat, i: nat :: IsChild(orders, p, i) ==> orders[p].status == Filled)
    && (forall p: nat, i: nat, j: nat :: IsChild(orders, p, i) && IsChild(orders, p, j) ==> i == j)
    && (forall p: nat :: p < |orders| && IsStop(orders[p].kind) ==>
          orders[p].status in {Pending, Filled, Canceled} &&
          (orders[p].status == Filled ==> exists i: nat :: IsChild(orders, p, i)))
  }

  ghost predicate Sound(s: State) {
    RowsSound(s.balances) && OrdersOk(s.orders) && Lineage(s.orders)
  }

  // ---------- The matcher's contract ----------

  /** The fill is within a live order of the same side and pair. */
  predicate Fits(o: Order, f: Fill, pair: Pair) {
    IsLive(o) && o.side == f.side && o.pair == pair && f.qty <= Remaining(o)
  }

  ghost predicate Positive(execs: seq<Exec>) {
    forall i :: 0 <= i < |execs| ==> 0.0 < execs[i].qty && 0.0 < execs[i].price
  }

  /** What is assumed of the matcher: positive executions against known orders, every maker and the
      taker filled within what remains of it, and the remainder reported correctly. */
  ghost predicate MatcherContract(s: State, taker: nat, m: Outcome) {
    m.rejected || m.execs == [] ||
    (taker < |s.orders| && AllMakersKnown(s.orders, m.execs) && Positive(m.execs) &&
     (AggregateKnown(m.execs, Opposite(s.orders[taker].side), |s.orders|);
      forall i :: 0 <= i < |FillsOf(taker, s.orders[taker].side, m.execs)| ==>
        var f := FillsOf(taker, s.orders[taker].side, m.execs)[i];
        Fits(s.orders[f.order], f, s.orders[taker].pair)))
  }

  ghost predicate StepContract(s: State, step: Step) {
    CanRun(step) && (step.MatchStep? ==> MatcherContract(s, step.taker, step.outcome))
  }

  /** Every step of the run meets its contract in the state it starts from. */
  ghost predicate RunContract(s: State, steps: seq<Step>) {
    CanRunAll(steps) &&
    forall i :: 0 <= i < |steps| ==> StepContract(Run(s, steps[..i]), steps[i])
  }

  lemma RunPrefix(s: State, steps: seq<Step>)
    requires RunContract(s, steps) && steps != []
    ensures RunContract(s, steps[..|steps| - 1])
    ensures StepContract(Run(s, steps[..|steps| - 1]), steps[|steps| - 1])
    ensures Run(s, steps) == Apply(Run(s, steps[..|steps| - 1]), steps[|steps| - 1])
  {
    hide MatcherContract, Apply, Enumerates, Needs;
    var front := steps[..|steps| - 1];
    forall i | 0 <= i < |front| ensures StepContract(Run(s, front[..i]), front[i]) {
      assert front[..i] == steps[..i];
    }
  }

  // ---------- Aggregation ----------

  ghost predicate FillsOk(fills: seq<Fill>) {
    forall i :: 0 <= i < |fills| ==> 0.0 < fills[i].qty && 0.0 < fills[i].quote
  }

  ghost predicate DistinctOrders(fills: seq<Fill>) {
    forall i, j :: 0 <= i < j < |fills| ==> fills[i].order != fills[j].order
  }

  lemma {:induction false} AddDeltaShape(deltas: seq<Fill>, side: Side, e: Exec)
    requires FillsOk(deltas) && DistinctOrders(deltas) && 0.0 < e.qty && 0.0 < e.price
    requires forall i :: 0 <= i < |deltas| ==> deltas[i].side == side && !deltas[i].isTaker
    ensures FillsOk(AddDelta(deltas, side, e)) && DistinctOrders(AddDelta(deltas, side, e))
    ensures forall i :: 0 <= i < |AddDelta(deltas, side, e)| ==>
      AddDelta(deltas, side, e)[i].side == side && !AddDelta(deltas, side, e)[i].isTaker
    ensures forall i :: 0 <= i < |AddDelta(deltas, side, e)| ==>
      AddDelta(deltas, side, e)[i].order == e.maker ||
      exists j :: 0 <= j < |deltas| && deltas[j].order == AddDelta(deltas, side, e)[i].order
  {
    ValuePositive(e.price, e.qty);
    if deltas != [] && deltas[0].order != e.maker {
      AddDeltaShape(deltas[1..], side, e);
    }
  }

  lemma {:induction false} AggregateShape(execs: seq<Exec>, side: Side)
    requires Positive(execs)
    ensures FillsOk(Aggregate(execs, side)) && DistinctOrders(Aggregate(execs, side))
    ensures forall i :: 0 <= i < |Aggregate(execs, side)| ==>
      Aggregate(execs, side)[i].side == side && !Aggregate(execs, side)[i].isTaker
  {
    if execs != [] {
      AggregateShape(execs[..|execs| - 1], side);
      AddDeltaShape(Aggregate(execs[..|execs| - 1], side), side, execs[|execs| - 1]);
    }
  }

  lemma {:induction false} TotalsPositive(execs: seq<Exec>)
    requires Positive(execs)
    ensures 0.0 <= TotalQty(execs) && 0.0 <= TotalQuote(execs)
    ensures execs != [] ==> 0.0 < TotalQty(execs) && 0.0 < TotalQuote(execs)
  {
    if execs != [] {
      TotalsPositive(execs[..|execs| - 1]);
      var e := execs[|execs| - 1];
      ValuePositive(e.price, e.qty);
    }
  }

  /** The taker is never one of its own makers, because their sides differ. */
  lemma BatchShape(s: State, taker: nat, m: Outcome)
    requires MatcherContract(s, taker, m) && !m.rejected && m.execs != []
    ensures var fills := FillsOf(taker, s.orders[taker].side, m.execs);
      Known(s, fills) && FillsOk(fills) && DistinctOrders(fills) &&
      forall i :: 0 <= i < |fills| ==> Fits(s.orders[fills[i].order], fills[i], s.orders[taker].pair)
  {
    var side := s.orders[taker].side;
    AggregateKnown(m.execs, Opposite(side), |s.orders|);
    AggregateShape(m.execs, Opposite(side));
    TotalsPositive(m.execs);
    var fills := FillsOf(taker, side, m.execs);
    assert fills[|fills| - 1] == Fill(taker, side, TotalQty(m.execs), TotalQuote(m.execs), true);
    forall i | 0 <= i < |fills| - 1 ensures fills[i].order != taker {
      assert Fits(s.orders[fills[i].order], fills[i], s.orders[taker].pair);
      assert fills[i].side == Opposite(side);
      assert Fits(s.orders[taker], fills[|fills| - 1], s.orders[taker].pair);
    }
  }

  // ---------- Lineage under updates ----------

  lemma LineageUpdate(orders: seq<Order>, i: nat, o: Order)
    requires Lineage(orders) && i < |orders|
    requires o.parent == orders[i].parent && o.kind == orders[i].kind
    requires IsStop(o.kind) ==> o.status == orders[i].status || (orders[i].status == Pending && o.status == Canceled)
    ensures Lineage(orders[i := o])
  {
    var after := orders[i := o];
    forall p: nat, j: nat ensures IsChild(after, p, j) <==> IsChild(orders, p, j) {
    }
    forall p: nat | p < |after| && IsStop(after[p].kind) && after[p].status == Filled
      ensures exists j: nat :: IsChild(after, p, j)
    {
      var j: nat :| IsChild(orders, p, j);
      assert IsChild(after, p, j);
    }
  }

  lemma LineageAppend(orders: seq<Order>, o: Order)
    requires Lineage(orders) && o.parent == None && (IsStop(o.kind) ==> o.status == Pending)
    ensures Lineage(orders + [o])
  {
    var after := orders + [o];
    forall p: nat, j: nat ensures IsChild(after, p, j) <==> IsChild(orders, p, j) {
    }
    forall p: nat | p < |after| && IsStop(after[p].kind) && after[p].status == Filled
      ensures exists j: nat :: IsChild(after, p, j)
    {
      var j: nat :| IsChild(orders, p, j);
      assert IsChild(after, p, j);
    }
  }

  lemma LineageTrigger(orders: seq<Order>, p: nat)
    requires Lineage(orders) && OrdersOk(orders) && p < |orders| && orders[p].status == Pending
    ensures Lineage(orders[p := WithStatus(orders[p], Filled)] + [ChildOf(orders[p], p)])
  {
    assert OrderOk(orders[p]);
    var n := |orders|;
    var after := orders[p := WithStatus(orders[p], Filled)] + [ChildOf(orders[p], p)];
    forall q: nat, j: nat ensures IsChild(after, q, j) <==> IsChild(orders, q, j) || (q == p && j == n) {
    }
    forall q: nat | q < |after| && IsStop(after[q].kind) && after[q].status == Filled
      ensures exists j: nat :: IsChild(after, q, j)
    {
      if q == p {
        assert IsChild(after, p, n);
      } else {
        var j: nat :| IsChild(orders, q, j);
        assert IsChild(after, q, j);
      }
    }
  }

  /** An active order has no active child, so cancelling it cancels nothing else. */
  lemma NoChildrenToCancel(orders: seq<Order>, id: nat)
    requires Lineage(orders) && id < |orders| && orders[id].status != Filled
    ensures CancelChildren(orders, id) == orders
  {
    forall i | 0 <= i < |orders| ensures orders[i].parent != Some(id) {
      assert orders[i].parent.Some? ==> IsChild(orders, orders[i].parent.value, i);
    }
  }

  // ---------- Every step keeps a state sound ----------

  lemma SoundOrderFor(user: nat, t: Ticket, asks: seq<Ask>)
    requires Admit(t, asks).Ok?
    ensures OrderOk(OrderFor(user, t, t.pair.value))
  {
  }

  lemma SoundCancel(s: State, user: nat, id: nat)
    requires Sound(s) && Cancel(s, user, id).Ok?
    ensures Sound(Cancel(s, user, id).value)
  {
    var o := s.orders[id];
    assert OrderOk(o);
    LineageUpdate(s.orders, id, WithStatus(o, Canceled));
    NoChildrenToCancel(s.orders[id := WithStatus(o, Canceled)], id);
  }

  lemma SoundModify(s: State, user: nat, id: nat, price: real, quantity: real)
    requires Sound(s)
    ensures Sound(Commit(s, Modify(s, user, id, price, quantity)))
  {
    if Modify(s, user, id, price, quantity).error == None {
      var o := s.orders[id];
      assert OrderOk(o);
      LineageUpdate(s.orders, id, LinkedOld(o, |s.orders|));
      LineageAppend(s.orders[id := LinkedOld(o, |s.orders|)], Replacement(o, id, price, quantity));
    }
  }

  lemma {:induction false} SoundLockAll(b: Balances, user: nat, needs: map<string, real>, order: seq<string>)
    requires RowsSound(b) && forall asset :: asset in order ==> asset in needs
    ensures RowsSound(LockAll(b, user, needs, order).0)
  {
    if order != [] {
      SoundLockAll(b, user, needs, order[..|order| - 1]);
      SoundUnlockAll(LockAll(b, user, needs, order[..|order| - 1]).0, user, needs, order[..|order| - 1]);
    }
  }

  lemma {:induction false} SoundUnlockAll(b: Balances, user: nat, needs: map<string, real>, order: seq<string>)
    requires RowsSound(b) && forall asset :: asset in order ==> asset in needs
    ensures RowsSound(UnlockAll(b, user, needs, order))
    decreases |order|
  {
    if order != [] {
      var r := UnlockFunds(b, Account(user, order[0]), needs[order[0]]);
      SoundUnlockAll(if r.Ok? then r.value else b, user, needs, order[1..]);
    }
  }

  lemma {:induction false} SoundOrdersFor(orders: seq<Order>, user: nat, requests: seq<Request>)
    requires OrdersOk(orders) && Lineage(orders) && Needs(requests).Ok?
    requires forall r :: r in requests ==> r.ticket.pair.Some?
    ensures OrdersOk(orders + OrdersFor(user, requests)) && Lineage(orders + OrdersFor(user, requests))
  {
    if requests == [] {
      assert orders + [] == orders;
    } else {
      var front, r := requests[..|requests| - 1], requests[|requests| - 1];
      SoundOrdersFor(orders, user, front);
      var o := OrderFor(user, r.ticket, r.ticket.pair.value);
      SoundOrderFor(user, r.ticket, r.asks);
      LineageAppend(orders + OrdersFor(user, front), o);
      assert orders + OrdersFor(user, front) + [o] == orders + OrdersFor(user, requests);
    }
  }

  lemma SoundBulk(s: State, user: nat, requests: seq<Request>, lockOrder: seq<string>)
    requires Sound(s) && CanRun(BulkStep(user, requests, lockOrder))
    ensures Sound(Commit(s, PlaceBulk(s, user, requests, lockOrder)))
  {
    if Needs(requests).Ok? {
      SoundLockAll(s.balances, user, Needs(requests).value, lockOrder);
      AdmittedHavePairs(requests);
      SoundOrdersFor(s.orders, user, requests);
    }
  }

  lemma SoundSettle(b: Balances, user: nat, f: Fill, pair: Pair)
    requires RowsSound(b)
    ensures SettleBalances(b, user, f, pair).Ok? ==> RowsSound(SettleBalances(b, user, f, pair).value)
  {
  }

  lemma SoundFill(s: State, f: Fill, pair: Pair)
    requires Sound(s) && f.order < |s.orders| && !IsStop(s.orders[f.order].kind) && 0.0 < f.qty
    ensures ApplyFill(s, f, pair).Ok? ==> Sound(ApplyFill(s, f, pair).value)
  {
    var o := s.orders[f.order];
    assert OrderOk(o) && OrderOk(FillOrder(o, f));
    SoundSettle(s.balances, o.user, f, pair);
    LineageUpdate(s.orders, f.order, FillOrder(o, f));
  }

  lemma {:induction false} SoundFills(s: State, fills: seq<Fill>, pair: Pair)
    requires Sound(s) && Known(s, fills) && FillsOk(fills)
    requires forall i :: 0 <= i < |fills| ==> !IsStop(s.orders[fills[i].order].kind)
    ensures ApplyFills(s, fills, pair).Ok? ==> Sound(ApplyFills(s, fills, pair).value)
    decreases |fills|
  {
    if fills != [] {
      SoundFill(s, fills[0], pair);
      var r := ApplyFill(s, fills[0], pair);
      if r.Ok? {
        forall i | 0 <= i < |fills[1..]|
          ensures fills[1..][i] == fills[i + 1] && !IsStop(r.value.orders[fills[1..][i].order].kind) {
        }
        SoundFills(r.value, fills[1..], pair);
      }
    }
  }

  lemma SoundBatch(s: State, taker: nat, m: Outcome)
    requires Sound(s) && MatcherContract(s, taker, m) && !m.rejected
    ensures PersistBatch(s, taker, m.execs).Ok? ==> Sound(PersistBatch(s, taker, m.execs).value)
  {
    if m.execs != [] {
      BatchShape(s, taker, m);
      var o := s.orders[taker];
      SoundFills(s.(trades := s.trades + TradesOf(s.orders, taker, m.execs)), FillsOf(taker, o.side, m.execs), o.pair);
    }
  }

  lemma SoundPlace(s: State, user: nat, t: Ticket, asks: seq<Ask>)
    requires Sound(s) && Place(s, user, t, asks).Ok?
    ensures Sound(Place(s, user, t, asks).value)
  {
    SoundOrderFor(user, t, asks);
    LineageAppend(s.orders, OrderFor(user, t, t.pair.value));
  }

  lemma SoundTrigger(s: State, id: nat, asks: seq<Ask>)
    requires Sound(s)
    ensures Sound(Trigger(s, id, asks))
  {
    if id < |s.orders| && s.orders[id].status == Pending {
      assert OrderOk(s.orders[id]);
      LineageTrigger(s.orders, id);
    }
  }

  lemma SoundStep(s: State, step: Step)
    requires Sound(s) && StepContract(s, step)
    ensures Sound(Apply(s, step))
  {
    hide Place, PlaceBulk, Cancel, Modify, PersistBatch, Trigger, Lineage, OrdersOk;
    match step
    case PlaceStep(user, t, asks) => if Place(s, user, t, asks).Ok? { SoundPlace(s, user, t, asks); }
    case BulkStep(user, requests, lockOrder) => SoundBulk(s, user, requests, lockOrder);
    case CancelStep(user, id) => if Cancel(s, user, id).Ok? { SoundCancel(s, user, id); }
    case ModifyStep(user, id, price, quantity) => SoundModify(s, user, id, price, quantity);
    case MatchStep(taker, m) => if !m.rejected { SoundBatch(s, taker, m); }
    case TriggerStep(id, asks) => SoundTrigger(s, id, asks);
    case AdminStep(k, delta) =>
  }

  /** In every run total == locked + available with both parts non-negative, live orders have
      something left to fill, and stops and children stay paired. */
  lemma {:induction false} RunKeepsSound(s: State, steps: seq<Step>)
    requires Sound(s) && RunContract(s, steps)
    ensures Sound(Run(s, steps))
  {
    if steps != [] {
      RunPrefix(s, steps);
      RunKeepsSound(s, steps[..|steps| - 1]);
      SoundStep(Run(s, steps[..|steps| - 1]), steps[|steps| - 1]);
    }
  }
}
