/** The services that carry out the steps of module Ledger, with the tables as mutable state.

    A method that can raise either commits the state its step prescribes or restores the tables it
    found; PlaceBulkOrders and ModifyOrder, which undo their own locks, leave their session as is. */
module Exchange {
  import opened Domain
  import opened Rows
  import opened AskWalk
  import opened Ledger
  import opened StopLifecycle

  class Services {
    var balances: Balances
    var orders: seq<Order>
    var trades: seq<Trade>

    constructor ()
      ensures View() == State(map[], [], [])
    {
      balances, orders, trades := map[], [], [];
    }

    function View(): State
      reads this
    {
      State(balances, orders, trades)
    }

    // ---------- Orders ----------

    method PlaceOrder(user: nat, t: Ticket, asks: seq<Ask>) returns (error: Option<Error>)
      modifies this
      ensures View() == Settled(old(View()), Place(old(View()), user, t, asks))
      ensures error == None <==> Place(old(View()), user, t, asks).Ok?
    {
      if t.pair == None || !t.pair.value.active || !IsValidTicket(t, t.pair.value) {
        return Some(Validation);
      }
      var pair := t.pair.value;
      if !IsStop(t.kind) {
        var account, amount := Account(user, if t.side == Sell then pair.base else pair.quote), t.quantity;
        if t.kind == Market && t.side == Buy {
          var lock := ComputeMarketBuyLock(asks, t.quantity);
          if lock.Err? {
            return Some(lock.error);
          }
          amount := lock.value;
        } else if t.side == Buy {
          amount := Value(GetOr(t.price, 0.0), t.quantity);
        }
        if amount > 0.0 {
          match LockFunds(balances, account, amount) {
            case Ok(b) => balances := b;
            case Err(e) => return Some(e);
          }
        }
      }
      orders := orders + [OrderFor(user, t, pair)];
      error := None;
    }

    method CancelOrder(user: nat, id: nat) returns (error: Option<Error>)
      modifies this
      ensures View() == Settled(old(View()), Cancel(old(View()), user, id))
      ensures error == None <==> Cancel(old(View()), user, id).Ok?
    {
      if id >= |orders| || orders[id].user != user {
        return Some(NotFound);
      }
      var o := orders[id];
      if !IsActive(o) {
        return Some(NotActive);
      }
      var account := PayAccount(o);
      if !IsStop(o.kind) && account in balances {
        var release := Min(UnlockDue(o), balances[account].locked);
        if release > 0.0 {
          var row := new BalanceRow(balances[account]);
          var ok := row.UnlockPessimistic(release);
          if !ok {
            return Some(BadAmount);
          }
          balances := balances[account := row.View()];
        }
      }
      orders := CancelChildren(orders[id := WithStatus(o, Canceled)], id);
      error := None;
    }

    method ModifyOrder(user: nat, id: nat, price: real, quantity: real) returns (error: Option<Error>)
      modifies this
      ensures Session(View(), error) == Modify(old(View()), user, id, price, quantity)
    {
      if id >= |orders| || orders[id].user != user {
        return Some(NotFound);
      }
      var o := orders[id];
      if !IsActive(o) {
        return Some(NotActive);
      }
      if o.kind != Limit && o.kind != PostOnly && o.kind != Iceberg {
        return Some(NotModifiable);
      }
      var account, oldLock := PayAccount(o), OldLock(o);
      if oldLock > 0.0 {
        match UnlockFunds(balances, account, oldLock) {
          case Ok(b) => balances := b;
          case Err(e) => return Some(e);
        }
      }
      if price <= 0.0 || quantity <= 0.0 || quantity < o.pair.minLot {
        return Some(Validation);
      }
      match LockFunds(balances, account, NewLock(o, price, quantity)) {
        case Ok(b) => balances := b;
        case Err(InsufficientBalance) =>
          match LockFunds(balances, account, oldLock) {
            case Ok(b) => balances := b;
            case Err(e) => return Some(e);
          }
          return Some(InsufficientBalance);
        case Err(e) => return Some(e);
      }
      var newId := |orders|;
      orders := orders[id := LinkedOld(o, newId)] + [Replacement(o, id, price, quantity)];
      error := None;
    }

    /** Sum the requirements of all tickets, lock asset by asset, then insert the orders. */
    method PlaceBulkOrders(user: nat, requests: seq<Request>, lockOrder: seq<string>) returns (error: Option<Error>)
      requires Needs(requests).Ok? ==> Enumerates(lockOrder, Needs(requests).value)
      modifies this
      ensures Session(View(), error) == PlaceBulk(old(View()), user, requests, lockOrder)
    {
      var needs := SumNeeds(requests);
      if needs.Err? {
        return Some(needs.error);
      }
      error := LockNeeds(user, needs.value, lockOrder);
      if error == None {
        AdmittedHavePairs(requests);
        InsertOrders(user, requests);
      }
    }

    static method SumNeeds(requests: seq<Request>) returns (r: Result<map<string, real>>)
      ensures r == Needs(requests)
    {
      var needs: map<string, real> := map[];
      for i := 0 to |requests|
        invariant Needs(requests[..i]) == Ok(needs)
      {
        assert requests[..i + 1][..i] == requests[..i];
        match Admit(requests[i].ticket, requests[i].asks) {
          case Ok((pair, asset, amount)) =>
            needs := AddNeed(needs, asset, amount);
          case Err(e) =>
            NeedsFailEarly(requests, i + 1, e);
            return Err(e);
        }
      }
      assert requests[..|requests|] == requests;
      return Ok(needs);
    }

    method LockNeeds(user: nat, needs: map<string, real>, lockOrder: seq<string>) returns (error: Option<Error>)
      requires forall asset :: asset in lockOrder ==> asset in needs
      modifies this`balances
      ensures (balances, error) == LockAll(old(balances), user, needs, lockOrder)
    {
      for i := 0 to |lockOrder|
        invariant LockAll(old(balances), user, needs, lockOrder[..i]) == (balances, None)
      {
        assert lockOrder[..i + 1][..i] == lockOrder[..i];
        match LockFunds(balances, Account(user, lockOrder[i]), needs[lockOrder[i]]) {
          case Ok(b) => balances := b;
          case Err(e) =>
            UnlockPrefix(user, needs, lockOrder, i);
            LockFailEarly(old(balances), user, needs, lockOrder, i + 1);
            return Some(e);
        }
      }
      assert lockOrder[..|lockOrder|] == lockOrder;
      error := None;
    }

    method InsertOrders(user: nat, requests: seq<Request>)
      requires forall r :: r in requests ==> r.ticket.pair.Some?
      modifies this`orders
      ensures orders == old(orders) + OrdersFor(user, requests)
    {
      for i := 0 to |requests|
        invariant orders == old(orders) + OrdersFor(user, requests[..i])
      {
        assert requests[..i + 1][..i] == requests[..i];
        orders := orders + [OrderFor(user, requests[i].ticket, requests[i].ticket.pair.value)];
      }
      assert requests[..|requests|] == requests;
    }

    /** Give back what was locked for the assets before position n. */
    method UnlockPrefix(user: nat, needs: map<string, real>, lockOrder: seq<string>, n: nat)
      requires n <= |lockOrder| && forall asset :: asset in lockOrder ==> asset in needs
      modifies this`balances
      ensures balances == UnlockAll(old(balances), user, needs, lockOrder[..n])
    {
      for i := 0 to n
        invariant UnlockAll(old(balances), user, needs, lockOrder[..n]) ==
          UnlockAll(balances, user, needs, lockOrder[..n][i..])
      {
        assert lockOrder[..n][i..][1..] == lockOrder[..n][i + 1..];
        match UnlockFunds(balances, Account(user, lockOrder[i]), needs[lockOrder[i]]) {
          case Ok(b) => balances := b;
          case Err(_) =>
        }
      }
    }

    // ---------- Settlement ----------

    /** Settle one side of a trade on the rows of one user. */
    method SettleTradeBalances(user: nat, f: Fill, pair: Pair) returns (error: Option<Error>)
      modifies this`balances
      ensures error == None <==> SettleBalances(old(balances), user, f, pair).Ok?
      ensures error == None ==> balances == SettleBalances(old(balances), user, f, pair).value
    {
      var pay, receive := Account(user, PaidAsset(f.side, pair)), Account(user, PaidAsset(Opposite(f.side), pair));
      if pay in balances {
        var row := new BalanceRow(balances[pay]);
        var ok := row.SettlePessimistic(PaidAmount(f));
        if !ok {
          return Some(LockedShort(pay));
        }
        balances := balances[pay := row.View()];
      }
      if receive in balances {
        var row := new BalanceRow(balances[receive]);
        var ok := row.CreditPessimistic(ReceivedAmount(f));
        if !ok {
          return Some(BadAmount);
        }
        balances := balances[receive := row.View()];
      }
      error := None;
    }

    /** Fill and settle one order after another, up to the first that fails. */
    method SettleFills(fills: seq<Fill>, pair: Pair) returns (error: Option<Error>)
      requires Known(View(), fills)
      modifies this`balances, this`orders
      ensures error == None <==> ApplyFills(old(View()), fills, pair).Ok?
      ensures error == None ==> View() == ApplyFills(old(View()), fills, pair).value
    {
      hide SettleBalances, FillOrder;
      ghost var begun := View();
      for i := 0 to |fills|
        invariant |orders| == |begun.orders| && trades == begun.trades
        invariant ApplyFills(begun, fills, pair) == ApplyFills(View(), fills[i..], pair)
      {
        var f := fills[i];
        assert fills[i..][0] == f && fills[i..][1..] == fills[i + 1..];
        ghost var current := View();
        error := SettleTradeBalances(orders[f.order].user, f, pair);
        if error != None {
          assert ApplyFill(current, f, pair).Err?;
          return;
        }
        orders := orders[f.order := FillOrder(orders[f.order], f)];
      }
      error := None;
    }

    /** Log the trades, add up each maker's fills, fill and settle the makers, then the taker. */
    method PersistTradeBatch(taker: nat, execs: seq<Exec>) returns (error: Option<Error>)
      modifies this
      ensures View() == Settled(old(View()), PersistBatch(old(View()), taker, execs))
      ensures error == None <==> PersistBatch(old(View()), taker, execs).Ok?
    {
      hide ApplyFills, AddDelta, Value;
      if execs == [] {
        return None;
      }
      if taker >= |orders| || exists i :: 0 <= i < |execs| && execs[i].maker >= |orders| {
        return Some(MissingOrder);
      }
      var savedBalances, savedOrders, savedTrades := balances, orders, trades;
      var o := orders[taker];
      var deltas: seq<Fill>, qty, quote := [], 0.0, 0.0;
      for i := 0 to |execs|
        invariant deltas == Aggregate(execs[..i], Opposite(o.side))
        invariant qty == TotalQty(execs[..i]) && quote == TotalQuote(execs[..i])
        invariant trades == savedTrades + TradesOf(savedOrders, taker, execs)[..i]
        invariant balances == savedBalances && orders == savedOrders
      {
        var e := execs[i];
        assert execs[..i + 1][..i] == execs[..i];
        trades := trades +
          [Trade(taker, e.maker, e.price, e.qty, Value(e.price, e.qty), o.side, o.user, orders[e.maker].user)];
        deltas := AddDelta(deltas, Opposite(o.side), e);
        qty, quote := qty + e.qty, quote + Value(e.price, e.qty);
      }
      assert execs[..|execs|] == execs;
      AggregateKnown(execs, Opposite(o.side), |orders|);
      var fills := deltas + [Fill(taker, o.side, qty, quote, true)];
      assert fills == FillsOf(taker, o.side, execs);
      assert View() == old(View()).(trades := savedTrades + TradesOf(savedOrders, taker, execs));
      error := SettleFills(fills, o.pair);
      if error != None {
        balances, orders, trades := savedBalances, savedOrders, savedTrades;
      }
    }

    method RefundLeftover(account: Account) returns (error: Option<Error>)
      modifies this`balances
      ensures View() == Settled(old(View()), Refund(old(View()), account))
      ensures error == None <==> Refund(old(View()), account).Ok?
    {
      error := None;
      if account in balances && balances[account].locked > 0.0 {
        var row := new BalanceRow(balances[account]);
        var ok := row.UnlockPessimistic(row.locked);
        if !ok {
          return Some(BadAmount);
        }
        balances := balances[account := row.View()];
      }
    }

    /** The worker's place step, with settlement and refund taken as one transaction. */
    method HandlePlace(taker: nat, m: Outcome) returns (error: Option<Error>)
      modifies this
      ensures View() == Settled(old(View()), Match(old(View()), taker, m))
      ensures error == None <==> Match(old(View()), taker, m).Ok?
    {
      if taker >= |orders| {
        return Some(MissingOrder);
      }
      if m.rejected {
        return None;
      }
      var savedBalances, savedOrders, savedTrades := balances, orders, trades;
      var o := orders[taker];
      error := PersistTradeBatch(taker, m.execs);
      if error == None && Refunds(o, m) {
        error := RefundLeftover(Account(o.user, o.pair.quote));
        if error != None {
          balances, orders, trades := savedBalances, savedOrders, savedTrades;
        }
      }
    }

    // ---------- Stops and administration ----------

    method TriggerStopOrder(id: nat, asks: seq<Ask>)
      modifies this
      ensures View() == Trigger(old(View()), id, asks)
    {
      if id >= |orders| || orders[id].status != Pending {
        return;
      }
      var o := orders[id];
      var account := PayAccount(o);
      var amount := o.quantity;
      if o.side == Buy {
        if o.kind != StopMarket && o.kind != TrailingStop && o.price.Some? {
          amount := Value(o.price.value, o.quantity);
        } else {
          var lock := ComputeMarketBuyLock(asks, o.quantity);
          if lock.Err? {
            return;
          }
          amount := lock.value;
        }
      }
      if amount <= 0.0 {
        return;
      }
      balances := EnsureRow(balances, account);
      match LockFunds(balances, account, amount) {
        case Ok(b) => balances := b;
        case Err(_) => return;
      }
      orders := orders[id := WithStatus(o, Filled)];
      orders := orders + [ChildOf(o, id)];
    }

    /** On a restart, attempt every pending stop whose price has been crossed.  `asks(i)` are
        the asks loaded when stop i is triggered. */
    method RescanPendingStops(pair: Pair, last: real, asks: nat -> seq<Ask>)
      modifies this
      ensures View() == Rescan(old(View()), pair, last, asks)
    {
      hide Trigger, TriggerAll, Attempts;
      var loaded := orders;
      NothingTriggered(View(), pair, last, asks);
      for i := 0 to |loaded|
        invariant View() == TriggerAll(old(View()), Attempts(loaded, pair, last, i), asks)
      {
        var o := loaded[i];
        TriggerNext(old(View()), pair, last, i, asks);
        if IsPendingStop(o, pair) {
          var shouldTrigger := false;
          if o.side == Sell {
            if o.stopPrice.Some? && o.stopPrice.value != 0.0 && last <= o.stopPrice.value {
              shouldTrigger := true;
            }
          } else {
            if o.stopPrice.Some? && o.stopPrice.value != 0.0 && last >= o.stopPrice.value {
              shouldTrigger := true;
            }
          }
          if shouldTrigger {
            TriggerStopOrder(i, asks(i));
          }
        }
      }
    }

    method AdminAdjust(account: Account, delta: real) returns (error: Option<Error>)
      modifies this`balances
      ensures View() == Settled(old(View()), Administer(old(View()), account, delta))
      ensures error == None <==> Administer(old(View()), account, delta).Ok?
    {
      var b := EnsureRow(balances, account);
      var row := new BalanceRow(b[account]);
      var ok := row.AdminAdjust(delta);
      if !ok {
        return Some(InsufficientBalance);
      }
      balances := b[account := row.View()];
      error := None;
    }
  }

  lemma {:induction false} NeedsFailEarly(requests: seq<Request>, n: nat, e: Error)
    requires n <= |requests| && Needs(requests[..n]) == Err(e)
    ensures Needs(requests) == Err(e)
    decreases |requests| - n
  {
    if n == |requests| {
      assert requests[..n] == requests;
    } else {
      assert requests[..n + 1][..n] == requests[..n];
      NeedsFailEarly(requests, n + 1, e);
    }
  }

  lemma {:induction false} LockFailEarly(b: Balances, user: nat, needs: map<string, real>, order: seq<string>, n: nat)
    requires n <= |order| && (forall asset :: asset in order ==> asset in needs)
    requires LockAll(b, user, needs, order[..n]).1.Some?
    ensures LockAll(b, user, needs, order) == LockAll(b, user, needs, order[..n])
    decreases |order| - n
  {
    if n == |order| {
      assert order[..n] == order;
    } else {
      assert order[..n + 1][..n] == order[..n];
      LockFailEarly(b, user, needs, order, n + 1);
    }
  }
}
