/** What one request does, another undoes: cancelling a fresh order, and replacing a replacement. */
module RoundTrips {
  import opened Domain
  import opened AskWalk
  import opened Ledger
  import opened Soundness
  import opened AllOrNothing

  /** What a ticket must lock in its paying account: nothing for a stop. */
  function LockOf(t: Ticket, asks: seq<Ask>): real
    requires Admit(t, asks).Ok?
  {
    var (pair, asset, amount) := Admit(t, asks).value;
    if IsStop(t.kind) then 0.0 else Max(0.0, amount)
  }

  /** The order has the ticket's terms, is pending if it is a stop and new otherwise, and has no
      history. */
  predicate IsOrderOf(o: Order, user: nat, t: Ticket) {
    o.user == user && Some(o.pair) == t.pair && o.side == t.side && o.kind == t.kind && o.quantity == t.quantity &&
    o.price == t.price && o.stopPrice == t.stopPrice &&
    o.status == (if t.kind in {StopMarket, StopLimit, TrailingStop} then Pending else New) &&
    o.filledQty == 0.0 && o.filledQuote == 0.0 && o.replacesId == None && o.replacedBy == None &&
    o.replaceCount == 0 && o.parent == None
  }

  /** A ticket is taken if and only if it is admissible and what it must lock is available.  Then
      exactly that is locked, in the account that its order pays from, and its order is the last of
      all.  The error tells which condition failed. */
  lemma PlaceExactly(s: State, user: nat, t: Ticket, asks: seq<Ask>)
    requires RowsSound(s.balances)
    ensures Place(s, user, t, asks).Ok? <==>
      Admit(t, asks).Ok? &&
      LockOf(t, asks) <= AvailableOf(s.balances, PayAccount(OrderFor(user, t, t.pair.value)))
    ensures Place(s, user, t, asks).Ok? ==>
      var after := Place(s, user, t, asks).value;
      var o := after.orders[|s.orders|];
      |after.orders| == |s.orders| + 1 && after.orders[..|s.orders|] == s.orders && after.trades == s.trades &&
      IsOrderOf(o, user, t) && OnlyMoved(s.balances, after.balances, PayAccount(o), LockOf(t, asks))
    ensures Place(s, user, t, asks).Err? ==>
      Place(s, user, t, asks).error == if Admit(t, asks).Err? then Admit(t, asks).error else InsufficientBalance
  {
    hide Value, IsValidTicket;
  }

  /** What cancelling the order would give back, out of `locked`. */
  function Returned(o: Order, locked: real): real {
    if IsStop(o.kind) then 0.0 else Max(0.0, Min(UnlockDue(o), locked))
  }

  /** Only the owner can cancel, and only an order that is NEW, PARTIALLY_FILLED or PENDING. */
  lemma CancelAnswers(s: State, user: nat, id: nat)
    requires RowsSound(s.balances)
    ensures Cancel(s, user, id).Ok? <==>
      id < |s.orders| && s.orders[id].user == user && s.orders[id].status in {New, PartiallyFilled, Pending}
    ensures Cancel(s, user, id).Err? ==>
      Cancel(s, user, id).error == if id < |s.orders| && s.orders[id].user == user then NotActive else NotFound
  {
    hide UnlockDue;
  }

  /** Whatever the state, a cancel cancels the order and its active children and leaves every other order
      alone. */
  lemma CancelTakesChildren(s: State, user: nat, id: nat, i: nat)
    requires Cancel(s, user, id).Ok? && i < |s.orders|
    ensures var o, after := s.orders[i], Cancel(s, user, id).value.orders;
      |after| == |s.orders| &&
      after[i] ==
        if i == id || (o.parent == Some(id) && o.status in {New, PartiallyFilled, Pending})
        then o.(status := Canceled, version := o.version + 1) else o
  {
    hide UnlockDue, Release;
  }

  lemma CancelExactly(s: State, user: nat, id: nat)
    requires Sound(s) && id < |s.orders| && s.orders[id].user == user && IsActive(s.orders[id])
    ensures Cancel(s, user, id).Ok?
    ensures var o, after := s.orders[id], Cancel(s, user, id).value;
      after.orders == s.orders[id := WithStatus(o, Canceled)] && after.trades == s.trades &&
      OnlyMoved(s.balances, after.balances, PayAccount(o), -Returned(o, LockedOf(s.balances, PayAccount(o))))
  {
    hide Value, UnlockDue;
    var o := s.orders[id];
    assert OrderOk(o);
    LockedNonNegative(s.balances, PayAccount(o));
    LineageUpdate(s.orders, id, WithStatus(o, Canceled));
    NoChildrenToCancel(s.orders[id := WithStatus(o, Canceled)], id);
  }

  /** What a cancel of the ticket's fresh order computes: for a market buy, from a price that its
      placement did not use. */
  function CancelValue(t: Ticket): real {
    if t.side == Sell then t.quantity else Value(GetOr(t.price, GetOr(t.stopPrice, 0.0)), t.quantity)
  }

  /** A fresh order can be cancelled, and unless it is a market buy that puts every amount back where
      it was.  A market buy's amounts are back if and only if its own price, or else its stop price,
      values it at what was locked, or at more when the user had nothing else locked in the asset;
      or if nothing was locked and there is nothing to give back. */
  lemma PlaceThenCancelRestoresIff(s: State, user: nat, t: Ticket, asks: seq<Ask>)
    requires Sound(s) && Place(s, user, t, asks).Ok?
    ensures Cancel(Place(s, user, t, asks).value, user, |s.orders|).Ok?
    ensures var after := Cancel(Place(s, user, t, asks).value, user, |s.orders|).value;
      var locked, before := LockOf(t, asks), LockedOf(s.balances, Account(user, t.pair.value.quote));
      SameFunds(s.balances, after.balances) <==>
        !(t.kind == Market && t.side == Buy) || CancelValue(t) == locked ||
        (before == 0.0 && locked <= CancelValue(t)) || (locked == 0.0 && CancelValue(t) <= 0.0)
  {
    hide Value, IsValidTicket;
    var placed := Place(s, user, t, asks).value;
    var o := placed.orders[|s.orders|];
    var k := PayAccount(o);
    SoundPlace(s, user, t, asks);
    PlaceExactly(s, user, t, asks);
    CancelExactly(placed, user, |s.orders|);
    var after := Cancel(placed, user, |s.orders|).value;
    assert MovedAt(s.balances, placed.balances, k, ShareOf(k, k, LockOf(t, asks)));
    LockedNonNegative(s.balances, k);
    TicketReturned(user, t, asks, LockedOf(s.balances, k));
    MovesAddUp(s.balances, placed.balances, after.balances, k, LockOf(t, asks),
               -Returned(o, LockedOf(placed.balances, k)));
  }

  lemma LockedNonNegative(b: Balances, k: Account)
    requires RowsSound(b)
    ensures 0.0 <= LockedOf(b, k)
  {
  }

  /** Except for a market buy, a cancel gives back what the placement locked. */
  lemma TicketReturned(user: nat, t: Ticket, asks: seq<Ask>, before: real)
    requires Admit(t, asks).Ok? && 0.0 <= before
    ensures var locked := LockOf(t, asks);
      Returned(OrderFor(user, t, t.pair.value), before + locked) == locked <==>
        !(t.kind == Market && t.side == Buy) || CancelValue(t) == locked ||
        (before == 0.0 && locked <= CancelValue(t)) || (locked == 0.0 && CancelValue(t) <= 0.0)
  {
    hide MarketBuyLock, Value;
    assert UnlockDue(OrderFor(user, t, t.pair.value)) == CancelValue(t);
    if !IsStop(t.kind) && t.price.Some? { ValuePositive(t.price.value, t.quantity); }
  }

  /** Two moves in one account restore every amount if and only if they cancel out. */
  lemma MovesAddUp(b: Balances, b1: Balances, b2: Balances, payer: Account, first: real, second: real)
    requires OnlyMoved(b, b1, payer, first) && OnlyMoved(b1, b2, payer, second)
    ensures SameFunds(b, b2) <==> first + second == 0.0
  {
    forall k: Account
      ensures SameAt(b, b2, k) <==> ShareOf(k, payer, first) + ShareOf(k, payer, second) == 0.0
    {
      assert MovedAt(b, b1, k, ShareOf(k, payer, first)) && MovedAt(b1, b2, k, ShareOf(k, payer, second));
    }
    assert SameAt(b, b2, payer) <==> first + second == 0.0;
  }

  lemma PayerMoved(b: Balances, b': Balances, payer: Account, amount: real)
    requires OnlyMoved(b, b', payer, amount)
    ensures MovedAt(b, b', payer, amount)
  {
    assert MovedAt(b, b', payer, ShareOf(payer, payer, amount));
  }

  /** The replacement has the old order's user, pair, side and kind and the new terms, and continues the
      chain. */
  predicate IsReplacementOf(o: Order, id: nat, price: real, quantity: real, r: Order) {
    r.user == o.user && r.pair == o.pair && r.side == o.side && r.kind == o.kind &&
    r.price == Some(price) && r.stopPrice == None && r.quantity == quantity &&
    r.status == New && r.filledQty == 0.0 && r.filledQuote == 0.0 &&
    r.replacesId == Some(id) && r.replacedBy == None && r.replaceCount == o.replaceCount + 1 && r.parent == None
  }

  /** A successful Cancel-Replace moves the difference of the locks in one account, cancels the old order
      with a link forward, and adds its replacement with a link back. */
  lemma ModifyExactly(s: State, user: nat, id: nat, price: real, quantity: real)
    requires Sound(s) && Modify(s, user, id, price, quantity).error == None
    ensures var o, after := s.orders[id], Modify(s, user, id, price, quantity).state;
      var n := |s.orders|;
      0.0 < OldLock(o) && after.trades == s.trades &&
      OnlyMoved(s.balances, after.balances, PayAccount(o), NewLock(o, price, quantity) - OldLock(o)) &&
      |after.orders| == n + 1 && IsReplacementOf(o, id, price, quantity, after.orders[n]) &&
      after.orders[..n] == s.orders[id := o.(status := Canceled, version := o.version + 1, replacedBy := Some(n))]
  {
    hide Value;
    OldLockPositive(s, id);
  }

  /** What a Cancel-Replace answers, in the order of its checks: the order must be the user's own, active,
      of a kind that rests in the book, with its lock behind it, the new terms valid, and the new lock
      covered by what is available together with the old one.  Neither the largest lot nor the tick
      of the pair is checked. */
  lemma ModifyAnswers(s: State, user: nat, id: nat, price: real, quantity: real)
    requires Sound(s)
    ensures Modify(s, user, id, price, quantity).error ==
      if |s.orders| <= id || s.orders[id].user != user then Some(NotFound)
      else if s.orders[id].status !in {New, PartiallyFilled, Pending} then Some(NotActive)
      else if s.orders[id].kind !in {Limit, PostOnly, Iceberg} then Some(NotModifiable)
      else
        var o := s.orders[id];
        var account := Account(user, if o.side == Sell then o.pair.base else o.pair.quote);
        var lock := if o.side == Sell then quantity else Value(price, quantity);
        var freed := if o.side == Sell then Remaining(o) else Value(GetOr(o.price, 0.0), Remaining(o));
        if account !in s.balances then Some(MissingBalance)
        else if s.balances[account].locked < freed then Some(VersionConflict)
        else if price <= 0.0 || quantity <= 0.0 || quantity < o.pair.minLot then Some(Validation)
        else if s.balances[account].available + freed < lock then Some(InsufficientBalance)
        else None
  {
    hide Value;
    if id < |s.orders| && IsActive(s.orders[id]) && s.orders[id].kind in {Limit, PostOnly, Iceberg} {
      assert OrderOk(s.orders[id]);
      OldLockPositive(s, id);
      if 0.0 < price && 0.0 < quantity { ValuePositive(price, quantity); }
    }
  }

  /** A Cancel-Replace can be undone: replacing the replacement by what remained of the original
      succeeds whenever that is a whole lot, and puts every amount back. */
  lemma ModifyBackRestores(s: State, user: nat, id: nat, price: real, quantity: real)
    requires Sound(s) && Modify(s, user, id, price, quantity).error == None
    requires s.orders[id].pair.minLot <= Remaining(s.orders[id])
    ensures var o, s1 := s.orders[id], Modify(s, user, id, price, quantity).state;
      var back := Modify(s1, user, |s.orders|, o.price.value, Remaining(o));
      back.error == None && SameFunds(s.balances, back.state.balances) &&
      back.state.orders[|s.orders| + 1].replacesId == Some(|s.orders|) && s1.orders[|s.orders|].replacesId == Some(id)
  {
    hide Value, OnlyMoved;
    var o, s1 := s.orders[id], Modify(s, user, id, price, quantity).state;
    var k := PayAccount(o);
    assert OrderOk(o);
    SoundModify(s, user, id, price, quantity);
    ModifyExactly(s, user, id, price, quantity);
    PayerMoved(s.balances, s1.balances, k, NewLock(o, price, quantity) - OldLock(o));
    var kept, spare := LockedOf(s.balances, k) - OldLock(o), AvailableOf(s.balances, k);
    assert 0.0 <= kept && 0.0 <= spare;
    ModifyRefusedIff(s1, user, |s.orders|, o.price.value, Remaining(o));
    ModifyExactly(s1, user, |s.orders|, o.price.value, Remaining(o));
    var back := Modify(s1, user, |s.orders|, o.price.value, Remaining(o));
    MovesAddUp(s.balances, s1.balances, back.state.balances, k, NewLock(o, price, quantity) - OldLock(o),
               OldLock(o) - NewLock(o, price, quantity));
  }
}
