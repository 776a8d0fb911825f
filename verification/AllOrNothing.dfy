/** Bulk placement and Cancel-Replace: what they lock when they succeed, and what they leave in the
    session when they fail. */
module AllOrNothing {
  import opened Domain
  import opened Ledger
  import opened Soundness

  /** Every total, locked and available amount is the same; a missing row counts as empty. */
  ghost predicate SameFunds(b: Balances, b': Balances) {
    forall k: Account :: SameAt(b, b', k)
  }

  predicate SameAt(b: Balances, b': Balances, k: Account) {
    TotalAt(b, k) == TotalAt(b', k) && LockedOf(b, k) == LockedOf(b', k) && AvailableOf(b, k) == AvailableOf(b', k)
  }

  /** Account k holds what it held before, with `amount` moved from available to locked. */
  predicate MovedAt(b: Balances, b': Balances, k: Account, amount: real) {
    TotalAt(b', k) == TotalAt(b, k) && LockedOf(b', k) == LockedOf(b, k) + amount &&
    AvailableOf(b', k) == AvailableOf(b, k) - amount
  }

  function ShareOf(k: Account, payer: Account, amount: real): real {
    if k == payer then amount else 0.0
  }

  /** `amount` moved from available to locked in one account, and nothing moved in any other. */
  ghost predicate OnlyMoved(b: Balances, b': Balances, payer: Account, amount: real) {
    forall k: Account :: MovedAt(b, b', k, ShareOf(k, payer, amount))
  }

  /** What account k must lock for the assets listed in `order`. */
  function NeedAt(needs: map<string, real>, order: seq<string>, user: nat, k: Account): real
    requires forall asset :: asset in order ==> asset in needs
  {
    if k.user == user && k.asset in order then needs[k.asset] else 0.0
  }

  ghost predicate Lockable(needs: map<string, real>, order: seq<string>) {
    (forall asset :: asset in order ==> asset in needs && 0.0 < needs[asset]) &&
    (forall i, j :: 0 <= i < j < |order| ==> order[i] != order[j])
  }

  lemma {:induction false} NeedsPositive(requests: seq<Request>)
    requires Needs(requests).Ok?
    ensures forall asset :: asset in Needs(requests).value ==> 0.0 < Needs(requests).value[asset]
  {
    if requests != [] { NeedsPositive(requests[..|requests| - 1]); }
  }

  // ---------- Locking all assets, or none ----------

  /** Unlocking in turn takes back exactly what was locked. */
  lemma {:induction false} UnlockAllReturns(b: Balances, user: nat, needs: map<string, real>, order: seq<string>)
    requires Lockable(needs, order)
    requires forall asset :: asset in order ==> needs[asset] <= LockedOf(b, Account(user, asset))
    ensures forall k: Account :: MovedAt(b, UnlockAll(b, user, needs, order), k, -NeedAt(needs, order, user, k))
    decreases |order|
  {
    if order != [] {
      var rest := order[1..];
      var first := Account(user, order[0]);
      assert order[0] in order;
      var b1 := UnlockFunds(b, first, needs[order[0]]).value;
      assert forall asset :: asset in rest ==> asset in order;
      assert order[0] !in rest;
      UnlockAllReturns(b1, user, needs, rest);
      forall k: Account ensures MovedAt(b, UnlockAll(b, user, needs, order), k, -NeedAt(needs, order, user, k)) {
        assert MovedAt(b1, UnlockAll(b1, user, needs, rest), k, -NeedAt(needs, rest, user, k));
        assert k.asset in order <==> k.asset == order[0] || k.asset in rest;
      }
    }
  }

  /** The locks succeed if and only if every summed need fits what is available of its asset; then
      exactly those sums are locked, and otherwise nothing is. */
  lemma {:induction false} LockAllIff(b: Balances, user: nat, needs: map<string, real>, order: seq<string>)
    requires RowsSound(b) && Lockable(needs, order)
    ensures LockAll(b, user, needs, order).1 == None <==>
      forall asset :: asset in order ==> needs[asset] <= AvailableOf(b, Account(user, asset))
    ensures LockAll(b, user, needs, order).1 == None ==>
      forall k: Account :: MovedAt(b, LockAll(b, user, needs, order).0, k, NeedAt(needs, order, user, k))
    ensures LockAll(b, user, needs, order).1 != None ==>
      LockAll(b, user, needs, order).1 == Some(InsufficientBalance) && SameFunds(b, LockAll(b, user, needs, order).0)
    decreases |order|
  {
    if order != [] {
      var front, last := order[..|order| - 1], order[|order| - 1];
      assert forall asset :: asset in order <==> asset in front || asset == last;
      assert last !in front;
      LockAllIff(b, user, needs, front);
      var (b1, failed) := LockAll(b, user, needs, front);
      if failed == None {
        var k := Account(user, last);
        assert MovedAt(b, b1, k, NeedAt(needs, front, user, k));
        var r := LockFunds(b1, k, needs[last]);
        if r.Ok? {
          forall j: Account ensures MovedAt(b, r.value, j, NeedAt(needs, order, user, j)) {
            assert MovedAt(b, b1, j, NeedAt(needs, front, user, j));
          }
        } else {
          RollbackLocks(b, b1, user, needs, front);
        }
      }
    }
  }

  lemma RollbackLocks(b: Balances, b1: Balances, user: nat, needs: map<string, real>, order: seq<string>)
    requires Lockable(needs, order)
    requires forall k: Account :: MovedAt(b, b1, k, NeedAt(needs, order, user, k))
    requires forall asset :: asset in order ==> 0.0 <= LockedOf(b, Account(user, asset))
    ensures SameFunds(b, UnlockAll(b1, user, needs, order))
  {
    forall asset | asset in order ensures needs[asset] <= LockedOf(b1, Account(user, asset)) {
      assert MovedAt(b, b1, Account(user, asset), NeedAt(needs, order, user, Account(user, asset)));
    }
    UnlockAllReturns(b1, user, needs, order);
    forall k: Account ensures SameAt(b, UnlockAll(b1, user, needs, order), k) {
      assert MovedAt(b, b1, k, NeedAt(needs, order, user, k));
      assert MovedAt(b1, UnlockAll(b1, user, needs, order), k, -NeedAt(needs, order, user, k));
    }
  }

  /** The old orders, followed by a fresh order for each request in turn. */
  ghost predicate IsBulkOf(before: seq<Order>, after: seq<Order>, user: nat, requests: seq<Request>) {
    |after| == |before| + |requests| && after[..|before|] == before &&
    forall i :: 0 <= i < |requests| ==>
      requests[i].ticket.pair.Some? &&
      after[|before| + i] == OrderFor(user, requests[i].ticket, requests[i].ticket.pair.value)
  }

  /** Bulk placement of admissible tickets succeeds if and only if every asset's summed requirement
      is available.  On success exactly those sums are locked and each ticket's order is added, in
      the order of the tickets; on failure no order is added and every amount is back where it was,
      without any rollback. */
  lemma BulkIsAllOrNothing(s: State, user: nat, requests: seq<Request>, lockOrder: seq<string>)
    requires RowsSound(s.balances) && Needs(requests).Ok? && Enumerates(lockOrder, Needs(requests).value)
    ensures var needs := Needs(requests).value;
      var session := PlaceBulk(s, user, requests, lockOrder);
      (session.error == None <==>
         forall asset :: asset in needs ==> needs[asset] <= AvailableOf(s.balances, Account(user, asset))) &&
      (session.error == None ==>
         (forall k: Account :: MovedAt(s.balances, session.state.balances, k, NeedAt(needs, lockOrder, user, k))) &&
         IsBulkOf(s.orders, session.state.orders, user, requests)) &&
      (session.error != None ==>
         session.error == Some(InsufficientBalance) && SameFunds(s.balances, session.state.balances) &&
         session.state.orders == s.orders && session.state.trades == s.trades)
  {
    var needs := Needs(requests).value;
    NeedsPositive(requests);
    assert Lockable(needs, lockOrder);
    LockAllIff(s.balances, user, needs, lockOrder);
    AdmittedHavePairs(requests);
    OneOrderPerRequest(user, requests);
  }

  lemma {:induction false} OneOrderPerRequest(user: nat, requests: seq<Request>)
    requires forall r :: r in requests ==> r.ticket.pair.Some?
    ensures |OrdersFor(user, requests)| == |requests|
    ensures forall i :: 0 <= i < |requests| ==>
      OrdersFor(user, requests)[i] == OrderFor(user, requests[i].ticket, requests[i].ticket.pair.value)
  {
    if requests != [] { OneOrderPerRequest(user, requests[..|requests| - 1]); }
  }

  // ---------- Cancel-Replace ----------

  lemma OldLockPositive(s: State, id: nat)
    requires OrdersOk(s.orders) && id < |s.orders| && IsActive(s.orders[id])
    requires s.orders[id].kind in {Limit, PostOnly, Iceberg}
    ensures 0.0 < OldLock(s.orders[id])
  {
    var o := s.orders[id];
    assert OrderOk(o);
    if o.side == Buy { ValuePositive(o.price.value, Remaining(o)); }
  }

  /** A Cancel-Replace with valid new terms is refused for lack of funds if and only if the new lock
      exceeds what is available once the old lock is returned. */
  lemma ModifyRefusedIff(s: State, user: nat, id: nat, price: real, quantity: real)
    requires RowsSound(s.balances) && OrdersOk(s.orders) && id < |s.orders| && s.orders[id].user == user
    requires IsActive(s.orders[id]) && s.orders[id].kind in {Limit, PostOnly, Iceberg}
    requires 0.0 < price && 0.0 < quantity && s.orders[id].pair.minLot <= quantity
    requires OldLock(s.orders[id]) <= LockedOf(s.balances, PayAccount(s.orders[id]))
    ensures var o := s.orders[id];
      Modify(s, user, id, price, quantity).error ==
        (if NewLock(o, price, quantity) <= AvailableOf(s.balances, PayAccount(o)) + OldLock(o)
         then None else Some(InsufficientBalance))
  {
    hide Value;
    OldLockPositive(s, id);
    ValuePositive(price, quantity);
  }

  /** An order that its owner may replace, with its lock still behind it. */
  predicate IsReplaceable(s: State, user: nat, id: nat) {
    id < |s.orders| && s.orders[id].user == user && IsActive(s.orders[id]) &&
    s.orders[id].kind in {Limit, PostOnly, Iceberg} &&
    OldLock(s.orders[id]) <= LockedOf(s.balances, PayAccount(s.orders[id]))
  }

  predicate AreValidTerms(o: Order, price: real, quantity: real) {
    0.0 < price && 0.0 < quantity && o.pair.minLot <= quantity
  }

  /** When a Cancel-Replace fails, its own compensation has put every amount back, except when a
      replaceable order was given invalid terms: then the old lock is already released, and only
      the rollback of the transaction restores it. */
  lemma ModifyFailureRestoresIff(s: State, user: nat, id: nat, price: real, quantity: real)
    requires Sound(s) && Modify(s, user, id, price, quantity).error.Some?
    ensures SameFunds(s.balances, Modify(s, user, id, price, quantity).state.balances) <==>
      !(IsReplaceable(s, user, id) && !AreValidTerms(s.orders[id], price, quantity))
    ensures Modify(s, user, id, price, quantity).state.orders == s.orders
    ensures Commit(s, Modify(s, user, id, price, quantity)) == s
  {
    hide Value;
    var session := Modify(s, user, id, price, quantity);
    if IsReplaceable(s, user, id) {
      var o := s.orders[id];
      var k := PayAccount(o);
      OldLockPositive(s, id);
      var unlocked := UnlockFunds(s.balances, k, OldLock(o));
      if !AreValidTerms(o, price, quantity) {
        assert !SameAt(s.balances, unlocked.value, k);
      } else {
        ValuePositive(price, quantity);
        assert forall j: Account :: SameAt(s.balances, session.state.balances, j);
      }
    } else if id < |s.orders| && IsActive(s.orders[id]) && s.orders[id].kind in {Limit, PostOnly, Iceberg} {
      OldLockPositive(s, id);
    }
  }
}
