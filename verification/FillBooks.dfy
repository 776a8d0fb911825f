/** Grouping the executions of a batch by maker, and the fill totals kept on each order. */
module FillBooks {
  import opened Domain
  import opened Ledger
  import opened Soundness

  datatype Measure = Quantity | QuoteValue

  function ExecValue(m: Measure, e: Exec): real {
    if m == Quantity then e.qty else Value(e.price, e.qty)
  }

  /** The executions against one maker, summed. */
  function ExecSum(m: Measure, execs: seq<Exec>, maker: nat): real {
    if execs == [] then 0.0
    else
      var e := execs[|execs| - 1];
      ExecSum(m, execs[..|execs| - 1], maker) + if e.maker == maker then ExecValue(m, e) else 0.0
  }

  function FillValue(m: Measure, f: Fill): real {
    if m == Quantity then f.qty else f.quote
  }

  function FillSum(m: Measure, fills: seq<Fill>, order: nat): real {
    if fills == [] then 0.0
    else (if fills[0].order == order then FillValue(m, fills[0]) else 0.0) + FillSum(m, fills[1..], order)
  }

  /** All fills of a batch, summed over all orders. */
  function AllFills(m: Measure, fills: seq<Fill>): real {
    if fills == [] then 0.0 else FillValue(m, fills[0]) + AllFills(m, fills[1..])
  }

  // ---------- Grouping by maker ----------

  lemma {:induction false} AddDeltaSum(m: Measure, deltas: seq<Fill>, side: Side, e: Exec, order: nat)
    ensures FillSum(m, AddDelta(deltas, side, e), order) ==
      FillSum(m, deltas, order) + if e.maker == order then ExecValue(m, e) else 0.0
    ensures AllFills(m, AddDelta(deltas, side, e)) == AllFills(m, deltas) + ExecValue(m, e)
  {
    if deltas != [] && deltas[0].order != e.maker {
      AddDeltaSum(m, deltas[1..], side, e, order);
    }
  }

  /** Each maker's aggregate is the sum of its executions, and all aggregates together are the sum
      of all executions. */
  lemma {:induction false} AggregateIsGroupBy(m: Measure, execs: seq<Exec>, side: Side, order: nat)
    ensures FillSum(m, Aggregate(execs, side), order) == ExecSum(m, execs, order)
    ensures AllFills(m, Aggregate(execs, side)) == if m == Quantity then TotalQty(execs) else TotalQuote(execs)
  {
    if execs != [] {
      AggregateIsGroupBy(m, execs[..|execs| - 1], side, order);
      AddDeltaSum(m, Aggregate(execs[..|execs| - 1], side), side, execs[|execs| - 1], order);
    }
  }

  /** With one fill per order, the sum for an order is its fill. */
  lemma {:induction false} DistinctFillSum(m: Measure, fills: seq<Fill>, i: nat)
    requires DistinctOrders(fills) && i < |fills|
    ensures FillSum(m, fills, fills[i].order) == FillValue(m, fills[i])
  {
    if i == 0 {
      AbsentFillSum(m, fills[1..], fills[0].order);
    } else {
      DistinctFillSum(m, fills[1..], i - 1);
    }
  }

  lemma {:induction false} AbsentFillSum(m: Measure, fills: seq<Fill>, order: nat)
    requires forall i :: 0 <= i < |fills| ==> fills[i].order != order
    ensures FillSum(m, fills, order) == 0.0
  {
    if fills != [] { AbsentFillSum(m, fills[1..], order); }
  }

  lemma {:induction false} FillSumAppend(m: Measure, fills: seq<Fill>, f: Fill, order: nat)
    ensures FillSum(m, fills + [f], order) ==
      FillSum(m, fills, order) + if f.order == order then FillValue(m, f) else 0.0
  {
    if fills != [] {
      assert (fills + [f])[1..] == fills[1..] + [f];
      FillSumAppend(m, fills[1..], f, order);
    }
  }

  // ---------- What a batch does to the order table ----------

  /** Every order ends up with its fills added, one after the other. */
  lemma {:induction false} FillsAddUp(s: State, fills: seq<Fill>, pair: Pair, i: nat)
    requires Known(s, fills) && ApplyFills(s, fills, pair).Ok? && i < |s.orders|
    ensures var after := ApplyFills(s, fills, pair).value;
      |after.orders| == |s.orders| && after.trades == s.trades &&
      after.orders[i].filledQty == s.orders[i].filledQty + FillSum(Quantity, fills, i) &&
      after.orders[i].filledQuote == s.orders[i].filledQuote + FillSum(QuoteValue, fills, i)
    decreases |fills|
  {
    if fills != [] {
      assert forall j :: 0 <= j < |fills[1..]| ==> fills[1..][j] == fills[j + 1];
      FillsAddUp(ApplyFill(s, fills[0], pair).value, fills[1..], pair, i);
    }
  }

  /** With one fill per order: an order that is filled is replaced by its filled form, any other
      order is untouched. */
  lemma {:induction false} FillsReplace(s: State, fills: seq<Fill>, pair: Pair)
    requires Known(s, fills) && DistinctOrders(fills) && ApplyFills(s, fills, pair).Ok?
    ensures var after := ApplyFills(s, fills, pair).value;
      |after.orders| == |s.orders| && after.trades == s.trades &&
      (forall j :: 0 <= j < |fills| ==>
         after.orders[fills[j].order] == FillOrder(s.orders[fills[j].order], fills[j])) &&
      (forall i :: 0 <= i < |s.orders| && (forall j :: 0 <= j < |fills| ==> fills[j].order != i) ==>
         after.orders[i] == s.orders[i])
    decreases |fills|
  {
    hide ApplyFill, FillOrder;
    if fills != [] {
      var rest := fills[1..];
      assert forall j :: 0 <= j < |rest| ==> rest[j] == fills[j + 1];
      var s1 := ApplyFill(s, fills[0], pair).value;
      FillReplaces(s, fills[0], pair);
      FillsReplace(s1, rest, pair);
      var after := ApplyFills(s, fills, pair).value;
      assert after == ApplyFills(s1, rest, pair).value;
      forall j | 0 <= j < |fills|
        ensures after.orders[fills[j].order] == FillOrder(s.orders[fills[j].order], fills[j])
      {
        if j > 0 {
          assert rest[j - 1] == fills[j] && fills[j].order != fills[0].order;
        } else {
          assert forall i :: 0 <= i < |rest| ==> rest[i].order != fills[0].order;
        }
      }
      forall i | 0 <= i < |s.orders| && (forall j :: 0 <= j < |fills| ==> fills[j].order != i)
        ensures after.orders[i] == s.orders[i]
      {
        assert fills[0].order != i;
        assert forall j :: 0 <= j < |rest| ==> rest[j].order != i;
      }
    }
  }

  lemma FillReplaces(s: State, f: Fill, pair: Pair)
    requires f.order < |s.orders| && ApplyFill(s, f, pair).Ok?
    ensures var after := ApplyFill(s, f, pair).value;
      after.orders == s.orders[f.order := FillOrder(s.orders[f.order], f)] && after.trades == s.trades
  {
    hide SettleBalances, FillOrder;
  }

  // ---------- Fill totals and the trade log ----------

  function TradeValue(m: Measure, t: Trade): real {
    if m == Quantity then t.qty else t.quote
  }

  /** What the log says about an order, as maker and as taker. */
  function TradeShare(m: Measure, t: Trade, order: nat): real {
    (if t.maker == order then TradeValue(m, t) else 0.0) + (if t.taker == order then TradeValue(m, t) else 0.0)
  }

  function Logged(m: Measure, trades: seq<Trade>, order: nat): real {
    if trades == [] then 0.0
    else Logged(m, trades[..|trades| - 1], order) + TradeShare(m, trades[|trades| - 1], order)
  }

  predicate IsPricedTrade(t: Trade) {
    t.quote == Value(t.price, t.qty)
  }

  /** Each order's fill totals are what the trade log adds up to, and the log names known orders
      and values every trade at its price. */
  ghost predicate BooksAgree(s: State) {
    (forall i :: 0 <= i < |s.orders| ==>
       s.orders[i].filledQty == Logged(Quantity, s.trades, i) &&
       s.orders[i].filledQuote == Logged(QuoteValue, s.trades, i)) &&
    (forall j :: 0 <= j < |s.trades| ==>
       s.trades[j].maker < |s.orders| && s.trades[j].taker < |s.orders| && IsPricedTrade(s.trades[j]))
  }

  lemma {:induction false} LoggedAppend(m: Measure, trades: seq<Trade>, more: seq<Trade>, order: nat)
    ensures Logged(m, trades + more, order) == Logged(m, trades, order) + Logged(m, more, order)
  {
    if more == [] {
      assert trades + more == trades;
    } else {
      assert (trades + more)[..|trades + more| - 1] == trades + more[..|more| - 1];
      LoggedAppend(m, trades, more[..|more| - 1], order);
    }
  }

  lemma {:induction false} LoggedAbsent(m: Measure, trades: seq<Trade>, order: nat)
    requires forall j :: 0 <= j < |trades| ==> trades[j].maker != order && trades[j].taker != order
    ensures Logged(m, trades, order) == 0.0
  {
    if trades != [] { LoggedAbsent(m, trades[..|trades| - 1], order); }
  }

  lemma {:induction false} LoggedBatch(m: Measure, orders: seq<Order>, taker: nat, execs: seq<Exec>, order: nat)
    requires taker < |orders| && AllMakersKnown(orders, execs)
    ensures Logged(m, TradesOf(orders, taker, execs), order) ==
      ExecSum(m, execs, order) +
      (if taker == order then (if m == Quantity then TotalQty(execs) else TotalQuote(execs)) else 0.0)
  {
    if execs != [] {
      var front := execs[..|execs| - 1];
      var trades := TradesOf(orders, taker, execs);
      assert trades[..|trades| - 1] == TradesOf(orders, taker, front) by {
        forall i | 0 <= i < |front| ensures trades[i] == TradesOf(orders, taker, front)[i] {
          assert front[i] == execs[i];
        }
      }
      LoggedBatch(m, orders, taker, front, order);
    }
  }

  lemma BatchKeepsBooks(s: State, taker: nat, execs: seq<Exec>)
    requires BooksAgree(s) && PersistBatch(s, taker, execs).Ok?
    ensures BooksAgree(PersistBatch(s, taker, execs).value)
    ensures |PersistBatch(s, taker, execs).value.orders| == |s.orders|
  {
    if execs != [] {
      var o := s.orders[taker];
      var more := TradesOf(s.orders, taker, execs);
      var s0 := s.(trades := s.trades + more);
      var makers := Aggregate(execs, Opposite(o.side));
      var last := Fill(taker, o.side, TotalQty(execs), TotalQuote(execs), true);
      AggregateKnown(execs, Opposite(o.side), |s.orders|);
      FillsAddUp(s0, makers + [last], o.pair, taker);
      forall i, m: Measure | 0 <= i < |s.orders|
        ensures FillSum(m, makers + [last], i) == Logged(m, more, i)
      {
        FillSumAppend(m, makers, last, i);
        AggregateIsGroupBy(m, execs, Opposite(o.side), i);
        LoggedBatch(m, s.orders, taker, execs, i);
      }
      forall i | 0 <= i < |s.orders|
        ensures var after := ApplyFills(s0, makers + [last], o.pair).value;
          after.orders[i].filledQty == Logged(Quantity, s0.trades, i) &&
          after.orders[i].filledQuote == Logged(QuoteValue, s0.trades, i)
      {
        FillsAddUp(s0, makers + [last], o.pair, i);
        LoggedAppend(Quantity, s.trades, more, i);
        LoggedAppend(QuoteValue, s.trades, more, i);
      }
    }
  }

  /** Steps that add orders add them unfilled, and the log does not mention them. */
  lemma FreshOrdersKeepBooks(before: State, after: State)
    requires BooksAgree(before) && after.trades == before.trades && |before.orders| <= |after.orders|
    requires forall i :: 0 <= i < |before.orders| ==>
      after.orders[i].filledQty == before.orders[i].filledQty &&
      after.orders[i].filledQuote == before.orders[i].filledQuote
    requires forall i :: |before.orders| <= i < |after.orders| ==>
      after.orders[i].filledQty == 0.0 && after.orders[i].filledQuote == 0.0
    ensures BooksAgree(after)
  {
    forall i | |before.orders| <= i < |after.orders|
      ensures Logged(Quantity, after.trades, i) == 0.0 && Logged(QuoteValue, after.trades, i) == 0.0
    {
      LoggedAbsent(Quantity, after.trades, i);
      LoggedAbsent(QuoteValue, after.trades, i);
    }
  }

  lemma {:induction false} OrdersForUnfilled(user: nat, requests: seq<Request>)
    requires forall r :: r in requests ==> r.ticket.pair.Some?
    ensures forall i :: 0 <= i < |OrdersFor(user, requests)| ==>
      OrdersFor(user, requests)[i].filledQty == 0.0 && OrdersFor(user, requests)[i].filledQuote == 0.0
  {
    if requests != [] { OrdersForUnfilled(user, requests[..|requests| - 1]); }
  }

  lemma MatchKeepsBooks(s: State, taker: nat, m: Outcome)
    requires BooksAgree(s) && Match(s, taker, m).Ok?
    ensures BooksAgree(Match(s, taker, m).value)
  {
    hide PersistBatch, Logged;
    if !m.rejected {
      BatchKeepsBooks(s, taker, m.execs);
    }
  }

  lemma StepKeepsBooks(s: State, step: Step)
    requires BooksAgree(s) && CanRun(step)
    ensures BooksAgree(Apply(s, step))
  {
    hide Value, Requirement, IsValidTicket, LockFunds, UnlockFunds, ChildLock, LockAll, Release, Enumerates;
    hide BooksAgree, Match;
    match step
    case MatchStep(taker, m) => if Match(s, taker, m).Ok? { MatchKeepsBooks(s, taker, m); }
    case BulkStep(user, requests, lockOrder) =>
      if PlaceBulk(s, user, requests, lockOrder).error == None {
        AdmittedHavePairs(requests);
        OrdersForUnfilled(user, requests);
        FreshOrdersKeepBooks(s, Apply(s, step));
      }
    case _ => FreshOrdersKeepBooks(s, Apply(s, step));
  }

  /** Over any run whatsoever, every order's filled quantity and quote value equal the sums over
      the trades it took part in. */
  lemma {:induction false} RunKeepsBooks(s: State, steps: seq<Step>)
    requires BooksAgree(s) && CanRunAll(steps)
    ensures BooksAgree(Run(s, steps))
  {
    if steps != [] {
      RunKeepsBooks(s, steps[..|steps| - 1]);
      StepKeepsBooks(Run(s, steps[..|steps| - 1]), steps[|steps| - 1]);
    }
  }

  // ---------- Average price ----------

  predicate TradeWithin(t: Trade, low: real, high: real) {
    0.0 < t.qty && low <= t.price <= high
  }

  ghost predicate PricedWithin(trades: seq<Trade>, order: nat, low: real, high: real) {
    forall j :: 0 <= j < |trades| && (trades[j].maker == order || trades[j].taker == order) ==>
      TradeWithin(trades[j], low, high)
  }

  /** The order's logged quantity, valued at one price throughout. */
  function LoggedAt(price: real, trades: seq<Trade>, order: nat): real {
    if trades == [] then 0.0
    else
      LoggedAt(price, trades[..|trades| - 1], order) + Value(price, TradeShare(Quantity, trades[|trades| - 1], order))
  }

  lemma {:induction false} LoggedAtIsValue(price: real, trades: seq<Trade>, order: nat)
    ensures LoggedAt(price, trades, order) == Value(price, Logged(Quantity, trades, order))
  {
    hide Value;
    if trades == [] {
      ValueZero(price);
    } else {
      var front := trades[..|trades| - 1];
      LoggedAtIsValue(price, front, order);
      ValueAdd(price, Logged(Quantity, front, order), TradeShare(Quantity, trades[|trades| - 1], order));
    }
  }

  lemma {:induction false} LoggedWithin(trades: seq<Trade>, order: nat, low: real, high: real)
    requires PricedWithin(trades, order, low, high)
    requires forall j :: 0 <= j < |trades| ==> IsPricedTrade(trades[j])
    ensures LoggedAt(low, trades, order) <= Logged(QuoteValue, trades, order) <= LoggedAt(high, trades, order)
    ensures 0.0 <= Logged(Quantity, trades, order)
  {
    hide Value;
    if trades != [] {
      LoggedWithin(trades[..|trades| - 1], order, low, high);
      ShareWithin(trades[|trades| - 1], order, low, high);
    }
  }

  lemma ShareWithin(t: Trade, order: nat, low: real, high: real)
    requires t.maker == order || t.taker == order ==> TradeWithin(t, low, high) && IsPricedTrade(t)
    ensures Value(low, TradeShare(Quantity, t, order)) <= TradeShare(QuoteValue, t, order)
    ensures TradeShare(QuoteValue, t, order) <= Value(high, TradeShare(Quantity, t, order))
    ensures 0.0 <= TradeShare(Quantity, t, order)
  {
    hide Value;
    ValueZero(low);
    ValueZero(high);
    if t.maker == order || t.taker == order {
      ValueMono(low, t.price, t.qty, t.qty);
      ValueMono(t.price, high, t.qty, t.qty);
      ValueAdd(low, t.qty, t.qty);
      ValueAdd(high, t.qty, t.qty);
    }
  }

  /** An order has an average fill price once it has fills: the price at which its filled quantity is
      worth what was traded.  It lies between the lowest and the highest execution price. */
  lemma AvgPriceWithin(s: State, i: nat, low: real, high: real)
    requires BooksAgree(s) && i < |s.orders| && PricedWithin(s.trades, i, low, high)
    ensures AvgFillPrice(s.orders[i]).Some? <==> s.orders[i].filledQty != 0.0
    ensures AvgFillPrice(s.orders[i]).Some? ==>
      var avg := AvgFillPrice(s.orders[i]).value;
      low <= avg <= high && Value(avg, s.orders[i].filledQty) == s.orders[i].filledQuote
  {
    hide Value;
    var qty, quote := s.orders[i].filledQty, s.orders[i].filledQuote;
    LoggedWithin(s.trades, i, low, high);
    LoggedAtIsValue(low, s.trades, i);
    LoggedAtIsValue(high, s.trades, i);
    if qty != 0.0 {
      QuotientValue(quote, qty);
      ValueCancel(low, quote / qty, qty);
      ValueCancel(quote / qty, high, qty);
    }
  }

  lemma QuotientValue(quote: real, qty: real)
    requires qty != 0.0
    ensures Value(quote / qty, qty) == quote
  {
  }
}
