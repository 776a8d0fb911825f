/** What never changes about an order, what its status says about its fills, and what the trade log
    says about its parties. */
module OrderTerms {
  import opened Domain
  import opened AskWalk
  import opened Ledger
  import opened Soundness
  import opened FillBooks

  // ---------- Terms ----------

  /** The terms of an order are fixed when it is created. */
  predicate SameTerms(o: Order, o': Order) {
    o'.user == o.user && o'.pair == o.pair && o'.side == o.side && o'.kind == o.kind &&
    o'.price == o.price && o'.stopPrice == o.stopPrice && o'.quantity == o.quantity &&
    o'.replacesId == o.replacesId && o'.replaceCount == o.replaceCount && o'.parent == o.parent
  }

  ghost predicate KeepsTerms(before: seq<Order>, after: seq<Order>) {
    |before| <= |after| && forall i :: 0 <= i < |before| ==> SameTerms(before[i], after[i])
  }

  lemma {:induction false} FillsKeepTerms(s: State, fills: seq<Fill>, pair: Pair)
    requires Known(s, fills) && ApplyFills(s, fills, pair).Ok?
    ensures KeepsTerms(s.orders, ApplyFills(s, fills, pair).value.orders)
    ensures |ApplyFills(s, fills, pair).value.orders| == |s.orders|
    ensures ApplyFills(s, fills, pair).value.trades == s.trades
    decreases |fills|
  {
    hide ApplyFill, FillOrder;
    if fills != [] {
      assert forall j :: 0 <= j < |fills[1..]| ==> fills[1..][j] == fills[j + 1];
      var s1 := ApplyFill(s, fills[0], pair).value;
      FillReplaces(s, fills[0], pair);
      FillKeepsTerms(s.orders[fills[0].order], fills[0]);
      FillsKeepTerms(s1, fills[1..], pair);
    }
  }

  lemma FillKeepsTerms(o: Order, f: Fill)
    ensures SameTerms(o, FillOrder(o, f))
  {
  }

  lemma MatchKeepsTerms(s: State, taker: nat, m: Outcome)
    requires Match(s, taker, m).Ok?
    ensures KeepsTerms(s.orders, Match(s, taker, m).value.orders)
    ensures |Match(s, taker, m).value.orders| == |s.orders|
  {
    hide FillsOf, TradesOf, ApplyFills;
    if !m.rejected && m.execs != [] {
      var o := s.orders[taker];
      AggregateKnown(m.execs, Opposite(o.side), |s.orders|);
      KnownFills(s, taker, m.execs);
      var s0 := s.(trades := s.trades + TradesOf(s.orders, taker, m.execs));
      FillsKeepTerms(s0, FillsOf(taker, o.side, m.execs), o.pair);
    }
  }

  lemma KnownFills(s: State, taker: nat, execs: seq<Exec>)
    requires taker < |s.orders| && AllMakersKnown(s.orders, execs)
    ensures Known(s, FillsOf(taker, s.orders[taker].side, execs))
  {
    AggregateKnown(execs, Opposite(s.orders[taker].side), |s.orders|);
  }

  /** No step changes the terms of an existing order. */
  lemma StepKeepsTerms(s: State, step: Step)
    requires CanRun(step)
    ensures KeepsTerms(s.orders, Apply(s, step).orders)
  {
    hide Value, Admit, LockFunds, UnlockFunds, ChildLock, LockAll, Release, Match, Enumerates;
    hide OrdersFor, ChildOf, OrderFor;
    if step.MatchStep? && Match(s, step.taker, step.outcome).Ok? { MatchKeepsTerms(s, step.taker, step.outcome); }
  }

  lemma {:induction false} RunKeepsTerms(s: State, steps: seq<Step>)
    requires CanRunAll(steps)
    ensures KeepsTerms(s.orders, Run(s, steps).orders)
  {
    if steps != [] {
      RunKeepsTerms(s, steps[..|steps| - 1]);
      StepKeepsTerms(Run(s, steps[..|steps| - 1]), steps[|steps| - 1]);
    }
  }

  // ---------- What a status tells ----------

  /** An untouched order is NEW, one with some fills PARTIALLY_FILLED, and one is FILLED exactly when
      nothing remains.  A stop is never filled itself: FILLED means that it was triggered. */
  predicate StatusTells(o: Order) {
    if o.kind in {StopMarket, StopLimit, TrailingStop} then
      o.filledQty == 0.0 && o.status in {Pending, Filled, Canceled}
    else
      o.status in {New, PartiallyFilled, Filled, Canceled} && 0.0 <= o.filledQty <= o.quantity &&
      (o.status == New ==> o.filledQty == 0.0) &&
      (o.status == PartiallyFilled ==> 0.0 < o.filledQty < o.quantity) &&
      (o.status == Filled <==> o.filledQty == o.quantity)
  }

  ghost predicate StatusesTell(orders: seq<Order>) {
    forall i :: 0 <= i < |orders| ==> StatusTells(orders[i])
  }

  lemma FillTells(o: Order, f: Fill, pair: Pair)
    requires StatusTells(o) && OrderOk(o) && Fits(o, f, pair) && 0.0 < f.qty
    ensures StatusTells(FillOrder(o, f)) && OrderOk(FillOrder(o, f))
  {
  }

  lemma {:induction false} FillsTell(s: State, fills: seq<Fill>, pair: Pair)
    requires StatusesTell(s.orders) && OrdersOk(s.orders) && Known(s, fills) && FillsOk(fills) && DistinctOrders(fills)
    requires forall i :: 0 <= i < |fills| ==> Fits(s.orders[fills[i].order], fills[i], pair)
    ensures ApplyFills(s, fills, pair).Ok? ==> StatusesTell(ApplyFills(s, fills, pair).value.orders)
    decreases |fills|
  {
    hide StatusTells, OrderOk, Fits, FillOrder, ApplyFill;
    if fills != [] && ApplyFill(s, fills[0], pair).Ok? {
      var f, rest, s1 := fills[0], fills[1..], ApplyFill(s, fills[0], pair).value;
      FillReplaces(s, f, pair);
      FillTells(s.orders[f.order], f, pair);
      forall i | 0 <= i < |rest|
        ensures rest[i] == fills[i + 1] && rest[i].order != f.order && Fits(s1.orders[rest[i].order], rest[i], pair)
      {
      }
      FillsTell(s1, rest, pair);
    }
  }

  lemma MatchTells(s: State, taker: nat, m: Outcome)
    requires Sound(s) && MatcherContract(s, taker, m) && StatusesTell(s.orders) && Match(s, taker, m).Ok?
    ensures StatusesTell(Match(s, taker, m).value.orders)
  {
    hide FillsOf, TradesOf, ApplyFills, StatusTells, Fits, Lineage;
    if !m.rejected && m.execs != [] {
      BatchShape(s, taker, m);
      var o := s.orders[taker];
      FillsTell(s.(trades := s.trades + TradesOf(s.orders, taker, m.execs)), FillsOf(taker, o.side, m.execs), o.pair);
    }
  }

  lemma {:induction false} FreshTell(user: nat, requests: seq<Request>)
    requires Needs(requests).Ok? && forall r :: r in requests ==> r.ticket.pair.Some?
    ensures StatusesTell(OrdersFor(user, requests))
  {
    if requests != [] {
      var r := requests[|requests| - 1];
      FreshTell(user, requests[..|requests| - 1]);
      FreshTells(user, r.ticket, r.asks);
    }
  }

  lemma FreshTells(user: nat, t: Ticket, asks: seq<Ask>)
    requires Admit(t, asks).Ok?
    ensures StatusTells(OrderFor(user, t, t.pair.value))
  {
    SoundOrderFor(user, t, asks);
  }

  lemma CancelTells(s: State, user: nat, id: nat)
    requires Sound(s) && StatusesTell(s.orders) && Cancel(s, user, id).Ok?
    ensures StatusesTell(Cancel(s, user, id).value.orders)
  {
    hide Release, Lineage, RowsSound;
    assert forall i :: 0 <= i < |s.orders| ==> OrderOk(s.orders[i]) && StatusTells(s.orders[i]);
  }

  lemma ModifyTells(s: State, user: nat, id: nat, price: real, quantity: real)
    requires Sound(s) && StatusesTell(s.orders) && Modify(s, user, id, price, quantity).error == None
    ensures StatusesTell(Modify(s, user, id, price, quantity).state.orders)
  {
    hide LockFunds, UnlockFunds, OldLock, NewLock, Lineage, RowsSound;
    assert OrderOk(s.orders[id]) && StatusTells(s.orders[id]);
  }

  lemma TriggerTells(s: State, id: nat, asks: seq<Ask>)
    requires Sound(s) && StatusesTell(s.orders)
    ensures StatusesTell(Trigger(s, id, asks).orders)
  {
    hide LockFunds, ChildLock, Lineage, RowsSound;
    if id < |s.orders| { assert OrderOk(s.orders[id]) && StatusTells(s.orders[id]); }
  }

  lemma StepTells(s: State, step: Step)
    requires Sound(s) && StepContract(s, step) && StatusesTell(s.orders)
    ensures StatusesTell(Apply(s, step).orders)
  {
    hide Sound, StatusTells, Cancel, Modify, Match, Trigger, LockFunds, LockAll, MatcherContract, OrderFor;
    hide IsValidTicket, Requirement;
    match step
    case PlaceStep(user, t, asks) => if Place(s, user, t, asks).Ok? { FreshTells(user, t, asks); }
    case BulkStep(user, requests, lockOrder) =>
      if Needs(requests).Ok? {
        AdmittedHavePairs(requests);
        FreshTell(user, requests);
      }
    case CancelStep(user, id) => if Cancel(s, user, id).Ok? { CancelTells(s, user, id); }
    case ModifyStep(user, id, price, quantity) =>
      if Modify(s, user, id, price, quantity).error == None { ModifyTells(s, user, id, price, quantity); }
    case MatchStep(taker, m) => if Match(s, taker, m).Ok? { MatchTells(s, taker, m); }
    case TriggerStep(id, asks) => TriggerTells(s, id, asks);
    case AdminStep(_, _) =>
  }

  /** Over any run within the matcher's contract every order's status tells its fills: in particular a
      live order is NEW exactly when nothing of it is filled, and PARTIALLY_FILLED exactly when some
      but not all of it is. */
  lemma {:induction false} RunStatusesTell(s: State, steps: seq<Step>)
    requires Sound(s) && RunContract(s, steps) && StatusesTell(s.orders)
    ensures StatusesTell(Run(s, steps).orders)
    ensures forall i :: 0 <= i < |Run(s, steps).orders| && IsLive(Run(s, steps).orders[i]) ==>
      var o := Run(s, steps).orders[i];
      (o.status == New <==> o.filledQty == 0.0) && (o.status == PartiallyFilled <==> 0.0 < o.filledQty < o.quantity)
  {
    if steps != [] {
      var front := steps[..|steps| - 1];
      RunPrefix(s, steps);
      RunStatusesTell(s, front);
      RunKeepsSound(s, front);
      StepTells(Run(s, front), steps[|steps| - 1]);
    }
    forall i | 0 <= i < |Run(s, steps).orders| && IsLive(Run(s, steps).orders[i])
      ensures StatusTells(Run(s, steps).orders[i])
    {
    }
  }

  // ---------- What a batch does to a status, contract or not ----------

  predicate TakesPart(execs: seq<Exec>, taker: nat, i: nat) {
    i == taker || exists j :: 0 <= j < |execs| && execs[j].maker == i
  }

  predicate HasFill(fills: seq<Fill>, i: nat) {
    exists j :: 0 <= j < |fills| && fills[j].order == i
  }

  lemma {:induction false} AddDeltaHas(deltas: seq<Fill>, side: Side, e: Exec, i: nat)
    ensures HasFill(AddDelta(deltas, side, e), i) <==> HasFill(deltas, i) || i == e.maker
  {
    var after := AddDelta(deltas, side, e);
    if deltas == [] || deltas[0].order == e.maker {
      assert after[0].order == e.maker;
      forall j | 1 <= j < |deltas| ensures after[j] == deltas[j] {
      }
    } else {
      AddDeltaHas(deltas[1..], side, e, i);
      HasFillSplit(deltas, i);
      HasFillSplit(after, i);
      assert after[1..] == AddDelta(deltas[1..], side, e);
    }
    if HasFill(deltas, i) {
      var j :| 0 <= j < |deltas| && deltas[j].order == i;
      if deltas[0].order == e.maker { assert after[j].order == i; }
    }
    if deltas != [] && deltas[0].order == e.maker && HasFill(after, i) {
      var j :| 0 <= j < |after| && after[j].order == i;
      assert j == 0 || deltas[j].order == i;
    }
  }

  lemma HasFillSplit(fills: seq<Fill>, i: nat)
    requires fills != []
    ensures HasFill(fills, i) <==> fills[0].order == i || HasFill(fills[1..], i)
  {
    if HasFill(fills, i) {
      var j :| 0 <= j < |fills| && fills[j].order == i;
      if j > 0 { assert fills[1..][j - 1].order == i; }
    }
    if HasFill(fills[1..], i) {
      var j :| 0 <= j < |fills[1..]| && fills[1..][j].order == i;
      assert fills[j + 1].order == i;
    }
  }

  lemma {:induction false} AggregateHas(execs: seq<Exec>, side: Side, i: nat)
    ensures HasFill(Aggregate(execs, side), i) <==> exists j :: 0 <= j < |execs| && execs[j].maker == i
  {
    if execs != [] {
      var n := |execs| - 1;
      AggregateHas(execs[..n], side, i);
      AddDeltaHas(Aggregate(execs[..n], side), side, execs[n], i);
      assert (exists j :: 0 <= j < |execs| && execs[j].maker == i) <==>
        (exists j :: 0 <= j < n && execs[..n][j].maker == i) || execs[n].maker == i by {
        assert forall j :: 0 <= j < n ==> execs[..n][j] == execs[j];
      }
    }
  }

  ghost predicate FilledNonNegative(orders: seq<Order>) {
    forall i :: 0 <= i < |orders| ==> 0.0 <= orders[i].filledQty
  }

  predicate StatusByFills(o: Order) {
    o.status == if o.quantity <= o.filledQty then Filled else PartiallyFilled
  }

  lemma FillSetsStatus(o: Order, f: Fill)
    requires 0.0 <= o.filledQty && 0.0 < f.qty
    ensures StatusByFills(FillOrder(o, f)) && 0.0 <= FillOrder(o, f).filledQty
  {
  }

  lemma {:induction false} FillsSetStatus(s: State, fills: seq<Fill>, pair: Pair, i: nat)
    requires Known(s, fills) && FillsOk(fills) && FilledNonNegative(s.orders) && i < |s.orders|
    requires ApplyFills(s, fills, pair).Ok?
    ensures var after := ApplyFills(s, fills, pair).value.orders;
      |after| == |s.orders| &&
      (if HasFill(fills, i) || StatusByFills(s.orders[i]) then StatusByFills(after[i]) else after[i] == s.orders[i]) &&
      (!HasFill(fills, i) ==> after[i] == s.orders[i])
    decreases |fills|
  {
    hide ApplyFill, FillOrder, StatusByFills, HasFill;
    if fills != [] {
      var f, rest, s1 := fills[0], fills[1..], ApplyFill(s, fills[0], pair).value;
      assert forall j :: 0 <= j < |rest| ==> rest[j] == fills[j + 1];
      FillReplaces(s, f, pair);
      FillSetsStatus(s.orders[f.order], f);
      HasFillSplit(fills, i);
      FillsSetStatus(s1, rest, pair, i);
    } else {
      NoFills(i);
    }
  }

  lemma NoFills(i: nat)
    ensures !HasFill([], i)
  {
  }

  /** A committed batch leaves every order that took part FILLED if and only if all of it is filled, and
      PARTIALLY_FILLED otherwise, whatever its status was.  No other order changes. */
  lemma BatchSetsStatus(s: State, taker: nat, execs: seq<Exec>, i: nat)
    requires execs != [] && Positive(execs) && FilledNonNegative(s.orders) && i < |s.orders|
    requires PersistBatch(s, taker, execs).Ok?
    ensures var after := PersistBatch(s, taker, execs).value.orders;
      |after| == |s.orders| &&
      if TakesPart(execs, taker, i) then
        (after[i].status == Filled <==> after[i].quantity <= after[i].filledQty) &&
        (after[i].status == PartiallyFilled <==> after[i].filledQty < after[i].quantity)
      else after[i] == s.orders[i]
  {
    hide ApplyFills, HasFill, Value;
    var o := s.orders[taker];
    var makers := Aggregate(execs, Opposite(o.side));
    var last := Fill(taker, o.side, TotalQty(execs), TotalQuote(execs), true);
    KnownFills(s, taker, execs);
    AggregateShape(execs, Opposite(o.side));
    TotalsPositive(execs);
    AggregateHas(execs, Opposite(o.side), i);
    HasFillAppend(makers, last, i);
    FillsSetStatus(s.(trades := s.trades + TradesOf(s.orders, taker, execs)), makers + [last], o.pair, i);
  }

  lemma HasFillAppend(fills: seq<Fill>, f: Fill, i: nat)
    ensures HasFill(fills + [f], i) <==> HasFill(fills, i) || f.order == i
  {
    if HasFill(fills, i) {
      var j :| 0 <= j < |fills| && fills[j].order == i;
      assert (fills + [f])[j].order == i;
    }
    assert (fills + [f])[|fills|] == f;
  }
}
