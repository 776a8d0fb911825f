/** What open orders claim from locked funds, and how each step moves the gap between the two. */
module Claims {
  import opened Domain
  import opened AskWalk
  import opened Ledger
  import opened Soundness

  /** The claims on one account: by sells of the asset, or by priced buys paid in it. */
  datatype Claim = OnBase(user: nat, asset: string) | OnQuote(user: nat, asset: string)

  function AccountOf(c: Claim): Account {
    Account(c.user, c.asset)
  }

  function Due(c: Claim, o: Order): real {
    if !IsLive(o) || o.user != c.user then 0.0
    else if c.OnBase? then
      if o.side == Sell && o.pair.base == c.asset then Remaining(o) else 0.0
    else
      if o.side == Buy && o.pair.quote == c.asset && IsPriced(o.kind) && o.price.Some?
      then Value(o.price.value, Remaining(o)) else 0.0
  }

  function Owed(c: Claim, orders: seq<Order>): real {
    if orders == [] then 0.0
    else Owed(c, orders[..|orders| - 1]) + Due(c, orders[|orders| - 1])
  }

  /** How much more the open orders claim than is locked. */
  function Gap(s: State, c: Claim): real {
    Owed(c, s.orders) - LockedOf(s.balances, AccountOf(c))
  }

  /** The pair never locks the claim's asset for the other side. */
  predicate Separate(c: Claim, pair: Pair) {
    if c.OnBase? then pair.quote != c.asset else pair.base != c.asset
  }

  // ---------- Sums ----------

  lemma {:induction false} OwedUpdate(c: Claim, orders: seq<Order>, i: nat, o: Order)
    requires i < |orders|
    ensures Owed(c, orders[i := o]) == Owed(c, orders) - Due(c, orders[i]) + Due(c, o)
  {
    var front := orders[..|orders| - 1];
    if i == |orders| - 1 {
      assert orders[i := o][..|orders| - 1] == front;
    } else {
      assert orders[i := o][..|orders| - 1] == front[i := o];
      OwedUpdate(c, front, i, o);
    }
  }

  lemma OwedAppend(c: Claim, orders: seq<Order>, o: Order)
    ensures Owed(c, orders + [o]) == Owed(c, orders) + Due(c, o)
  {
    assert (orders + [o])[..|orders|] == orders;
  }

  lemma DueBounds(c: Claim, o: Order)
    requires OrderOk(o)
    ensures 0.0 <= Due(c, o)
    ensures Due(c, o) == 0.0 || IsLive(o)
  {
    if Due(c, o) != 0.0 && c.OnQuote? { ValuePositive(o.price.value, Remaining(o)); }
  }

  lemma {:induction false} OwedAtLeast(c: Claim, orders: seq<Order>, i: nat)
    requires OrdersOk(orders) && i < |orders|
    ensures Due(c, orders[i]) <= Owed(c, orders)
  {
    var front := orders[..|orders| - 1];
    DueBounds(c, orders[|orders| - 1]);
    OwedNonNegative(c, front);
    if i < |orders| - 1 { OwedAtLeast(c, front, i); }
  }

  lemma {:induction false} OwedNonNegative(c: Claim, orders: seq<Order>)
    requires OrdersOk(orders)
    ensures 0.0 <= Owed(c, orders)
  {
    if orders != [] {
      OwedNonNegative(c, orders[..|orders| - 1]);
      DueBounds(c, orders[|orders| - 1]);
    }
  }

  /** Nothing is owed exactly when no live order of the claim is left. */
  lemma {:induction false} OwedZero(c: Claim, orders: seq<Order>)
    requires OrdersOk(orders)
    ensures Owed(c, orders) == 0.0 <==> forall i :: 0 <= i < |orders| ==> Due(c, orders[i]) == 0.0
  {
    if orders != [] {
      var front := orders[..|orders| - 1];
      OwedZero(c, front);
      OwedNonNegative(c, front);
      DueBounds(c, orders[|orders| - 1]);
      forall i | 0 <= i < |front| ensures front[i] == orders[i] {
      }
    }
  }

  // ---------- How each operation moves the gap ----------

  /** A ticket locks exactly what its order will claim, except that a market buy, whose lock is not
      a claim of the order, locks more. */
  lemma TicketCovers(c: Claim, user: nat, t: Ticket, asks: seq<Ask>)
    requires Admit(t, asks).Ok? && Separate(c, t.pair.value)
    ensures var (pair, asset, amount) := Admit(t, asks).value;
      var locked := if !IsStop(t.kind) && 0.0 < amount && Account(user, asset) == AccountOf(c) then amount else 0.0;
      Due(c, OrderFor(user, t, pair)) <= locked &&
      (c.OnBase? || t.kind != Market ==> Due(c, OrderFor(user, t, pair)) == locked)
  {
    if !IsStop(t.kind) && t.price.Some? { ValuePositive(t.price.value, t.quantity); }
  }

  lemma PlaceGap(s: State, user: nat, t: Ticket, asks: seq<Ask>, c: Claim)
    requires Place(s, user, t, asks).Ok? && Separate(c, t.pair.value)
    ensures Gap(Place(s, user, t, asks).value, c) <= Gap(s, c)
    ensures c.OnBase? ==> Gap(Place(s, user, t, asks).value, c) == Gap(s, c)
  {
    hide Value, Requirement, IsValidTicket, Due;
    TicketCovers(c, user, t, asks);
    OwedAppend(c, s.orders, OrderFor(user, t, t.pair.value));
  }

  /** A market buy that was given a price or a stop price: its cancel may release other orders'
      funds, because what it locked is not what its cancel computes. */
  predicate IsPricedMarketBuy(o: Order) {
    o.kind == Market && o.side == Buy && (o.price.Some? || o.stopPrice.Some?)
  }

  lemma ReleaseLocked(b: Balances, k: Account, amount: real, other: Account)
    requires RowsSound(b) && Release(b, k, amount).Ok?
    ensures LockedOf(Release(b, k, amount).value, other) ==
      LockedOf(b, other) - (if other == k then Max(0.0, Min(amount, LockedOf(b, k))) else 0.0)
  {
  }

  lemma ValueZeroPrice(qty: real)
    ensures Value(0.0, qty) == 0.0
  {
  }

  /** What a cancel asks back is the order's claim. */
  lemma UnlockIsDue(c: Claim, o: Order)
    requires OrderOk(o) && IsActive(o) && Separate(c, o.pair)
    requires c.OnQuote? ==> !IsPricedMarketBuy(o)
    ensures Due(c, o) == if !IsStop(o.kind) && PayAccount(o) == AccountOf(c) then UnlockDue(o) else 0.0
    ensures 0.0 <= Due(c, o)
  {
    DueBounds(c, o);
    ValueZeroPrice(Remaining(o));
  }

  lemma CancelGap(s: State, user: nat, id: nat, c: Claim)
    requires Sound(s) && Cancel(s, user, id).Ok? && Separate(c, s.orders[id].pair)
    requires Gap(s, c) <= 0.0
    requires c.OnQuote? ==> !IsPricedMarketBuy(s.orders[id])
    ensures Gap(Cancel(s, user, id).value, c) == Gap(s, c)
    ensures !IsStop(s.orders[id].kind) && PayAccount(s.orders[id]) == AccountOf(c) ==>
      UnlockDue(s.orders[id]) <= LockedOf(s.balances, AccountOf(c))
  {
    var o := s.orders[id];
    assert OrderOk(o);
    var orders := s.orders[id := WithStatus(o, Canceled)];
    assert CancelChildren(orders, id) == orders by {
      LineageUpdate(s.orders, id, WithStatus(o, Canceled));
      NoChildrenToCancel(orders, id);
    }
    OwedUpdate(c, s.orders, id, WithStatus(o, Canceled));
    OwedAtLeast(c, s.orders, id);
    UnlockIsDue(c, o);
    if !IsStop(o.kind) { ReleaseLocked(s.balances, PayAccount(o), UnlockDue(o), AccountOf(c)); }
  }

  lemma ModifyLocked(s: State, user: nat, id: nat, price: real, quantity: real, k: Account)
    requires OrdersOk(s.orders) && Modify(s, user, id, price, quantity).error == None
    ensures var o := s.orders[id];
      0.0 < OldLock(o) && 0.0 < NewLock(o, price, quantity) &&
      LockedOf(Modify(s, user, id, price, quantity).state.balances, k) ==
        LockedOf(s.balances, k) + (if k == PayAccount(o) then NewLock(o, price, quantity) - OldLock(o) else 0.0)
  {
    var o := s.orders[id];
    assert OrderOk(o);
    if o.side == Buy {
      ValuePositive(o.price.value, Remaining(o));
      ValuePositive(price, quantity);
    }
  }

  lemma ReplacementDue(c: Claim, o: Order, id: nat, price: real, quantity: real)
    requires OrderOk(o) && IsActive(o) && o.kind in {Limit, PostOnly, Iceberg} && Separate(c, o.pair)
    ensures Due(c, Replacement(o, id, price, quantity)) - Due(c, o) ==
      if AccountOf(c) == PayAccount(o) then NewLock(o, price, quantity) - OldLock(o) else 0.0
  {
  }

  lemma ModifyGap(s: State, user: nat, id: nat, price: real, quantity: real, c: Claim)
    requires Sound(s) && Modify(s, user, id, price, quantity).error == None && Separate(c, s.orders[id].pair)
    ensures Gap(Modify(s, user, id, price, quantity).state, c) == Gap(s, c)
  {
    var o := s.orders[id];
    var after := Modify(s, user, id, price, quantity).state;
    var linked := s.orders[id := LinkedOld(o, |s.orders|)];
    assert OrderOk(o);
    assert after.orders == linked + [Replacement(o, id, price, quantity)];
    OwedUpdate(c, s.orders, id, LinkedOld(o, |s.orders|));
    OwedAppend(c, linked, Replacement(o, id, price, quantity));
    ModifyLocked(s, user, id, price, quantity, AccountOf(c));
    ReplacementDue(c, o, id, price, quantity);
  }

  lemma ChildCovered(c: Claim, o: Order, id: nat, asks: seq<Ask>)
    requires OrderOk(o) && o.status == Pending && Separate(c, o.pair) && ChildLock(o, asks).Ok?
    requires 0.0 < ChildLock(o, asks).value
    ensures var locked := if AccountOf(c) == PayAccount(o) then ChildLock(o, asks).value else 0.0;
      Due(c, ChildOf(o, id)) <= locked && (c.OnBase? ==> Due(c, ChildOf(o, id)) == locked)
  {
  }

  lemma TriggerGap(s: State, id: nat, asks: seq<Ask>, c: Claim)
    requires Sound(s) && (id < |s.orders| ==> Separate(c, s.orders[id].pair))
    ensures Gap(Trigger(s, id, asks), c) <= Gap(s, c)
    ensures c.OnBase? ==> Gap(Trigger(s, id, asks), c) == Gap(s, c)
  {
    if id < |s.orders| && s.orders[id].status == Pending && ChildLock(s.orders[id], asks).Ok? {
      var o := s.orders[id];
      var amount := ChildLock(o, asks).value;
      assert OrderOk(o);
      if LockFunds(s.balances, PayAccount(o), amount).Ok? {
        OwedUpdate(c, s.orders, id, WithStatus(o, Filled));
        OwedAppend(c, s.orders[id := WithStatus(o, Filled)], ChildOf(o, id));
        ChildCovered(c, o, id, asks);
      }
    }
  }

  /** Filling one order: the claim drops with what remains, the lock with what is settled. */
  lemma FillGap(s: State, f: Fill, pair: Pair, c: Claim)
    requires f.order < |s.orders| && ApplyFill(s, f, pair).Ok?
    ensures var o := s.orders[f.order];
      var pay := Account(o.user, PaidAsset(f.side, pair));
      Gap(ApplyFill(s, f, pair).value, c) ==
        Gap(s, c) + Due(c, FillOrder(o, f)) - Due(c, o) +
        (if pay == AccountOf(c) && pay in s.balances then PaidAmount(f) else 0.0)
  {
    OwedUpdate(c, s.orders, f.order, FillOrder(s.orders[f.order], f));
  }

  lemma RefundGap(s: State, k: Account, c: Claim)
    requires Refund(s, k).Ok?
    ensures k != AccountOf(c) ==> Gap(Refund(s, k).value, c) == Gap(s, c)
    ensures k == AccountOf(c) && RowsSound(s.balances) ==> Gap(Refund(s, k).value, c) == Owed(c, s.orders)
  {
  }

  lemma AdminGap(s: State, k: Account, delta: real, c: Claim)
    requires Administer(s, k, delta).Ok?
    ensures Gap(Administer(s, k, delta).value, c) == Gap(s, c)
  {
  }

  // ---------- Bulk placement ----------

  lemma {:induction false} LockAllLocked(
      b: Balances, user: nat, needs: map<string, real>, order: seq<string>, k: Account)
    requires forall asset :: asset in order ==> asset in needs
    requires forall i, j :: 0 <= i < j < |order| ==> order[i] != order[j]
    requires LockAll(b, user, needs, order).1 == None
    ensures LockedOf(LockAll(b, user, needs, order).0, k) ==
      LockedOf(b, k) + (if k.user == user && k.asset in order then needs[k.asset] else 0.0)
  {
    if order != [] {
      LockAllLocked(b, user, needs, order[..|order| - 1], k);
    }
  }

  /** The summed needs cover the summed claims of the batch's orders. */
  lemma {:induction false} NeedsCover(c: Claim, user: nat, requests: seq<Request>, orders: seq<Order>)
    requires Needs(requests).Ok? && c.asset != ""
    requires forall r :: r in requests ==> r.ticket.pair.Some? && Separate(c, r.ticket.pair.value)
    ensures var needs := Needs(requests).value;
      var locked := if user == c.user && c.asset in needs then needs[c.asset] else 0.0;
      Owed(c, orders + OrdersFor(user, requests)) <= Owed(c, orders) + locked &&
      (c.OnBase? ==> Owed(c, orders + OrdersFor(user, requests)) == Owed(c, orders) + locked)
  {
    hide Value, IsValidTicket, Due, Owed;
    if requests == [] {
      assert orders + [] == orders;
    } else {
      var front, r := requests[..|requests| - 1], requests[|requests| - 1];
      NeedsCover(c, user, front, orders);
      var o := OrderFor(user, r.ticket, r.ticket.pair.value);
      TicketCovers(c, user, r.ticket, r.asks);
      OwedAppend(c, orders + OrdersFor(user, front), o);
      assert orders + OrdersFor(user, front) + [o] == orders + OrdersFor(user, requests);
    }
  }

  lemma BulkGap(s: State, user: nat, requests: seq<Request>, lockOrder: seq<string>, c: Claim)
    requires CanRun(BulkStep(user, requests, lockOrder)) && c.asset != ""
    requires PlaceBulk(s, user, requests, lockOrder).error == None
    requires forall r :: r in requests && r.ticket.pair.Some? ==> Separate(c, r.ticket.pair.value)
    ensures Gap(PlaceBulk(s, user, requests, lockOrder).state, c) <= Gap(s, c)
    ensures c.OnBase? ==> Gap(PlaceBulk(s, user, requests, lockOrder).state, c) == Gap(s, c)
  {
    AdmittedHavePairs(requests);
    NeedsCover(c, user, requests, s.orders);
    LockAllLocked(s.balances, user, Needs(requests).value, lockOrder, AccountOf(c));
  }
}
