/** A balance row and the four pessimistic operations on it. */
module Rows {
  import opened Domain

  datatype Row = Row(total: real, locked: real, available: real, version: int) {
    predicate Balanced() { total == locked + available }

    predicate Sound() { Balanced() && 0.0 <= locked && 0.0 <= available }
  }

  /** The consistency check that ends every operation. */
  function Checked(r: Row): Option<Row> {
    if r.Balanced() then Some(r) else None
  }

  function Lock(r: Row, amount: real): (after: Option<Row>)
    ensures r.Sound() && after.Some? ==> after.value.Sound() && after.value.total == r.total
    ensures r.Sound() ==> (after.Some? <==> 0.0 <= amount <= r.available)
  {
    if amount < 0.0 || r.available < amount then None
    else Checked(r.(available := r.available - amount, locked := r.locked + amount, version := r.version + 1))
  }

  function Unlock(r: Row, amount: real): (after: Option<Row>)
    ensures r.Sound() && after.Some? ==> after.value.Sound() && after.value.total == r.total
    ensures r.Sound() ==> (after.Some? <==> 0.0 <= amount <= r.locked)
  {
    if amount < 0.0 || r.locked < amount then None
    else Checked(r.(locked := r.locked - amount, available := r.available + amount, version := r.version + 1))
  }

  function Settle(r: Row, amount: real): (after: Option<Row>)
    ensures r.Sound() && after.Some? ==> after.value.Sound() && after.value.available == r.available
    ensures r.Sound() ==> (after.Some? <==> 0.0 <= amount <= r.locked)
  {
    if amount < 0.0 || r.locked < amount then None
    else Checked(r.(locked := r.locked - amount, total := r.total - amount, version := r.version + 1))
  }

  function Credit(r: Row, amount: real): (after: Option<Row>)
    ensures r.Sound() && after.Some? ==> after.value.Sound() && after.value.locked == r.locked
    ensures r.Sound() ==> (after.Some? <==> 0.0 <= amount)
  {
    if amount < 0.0 then None
    else Checked(r.(total := r.total + amount, available := r.available + amount, version := r.version + 1))
  }

  /** The administrator's signed adjustment. */
  function Adjust(r: Row, delta: real): (after: Option<Row>)
    ensures r.Sound() && after.Some? ==> after.value.Sound() && after.value.locked == r.locked
    ensures r.Sound() ==> (after.Some? <==> 0.0 <= r.available + delta)
  {
    if delta < 0.0 && r.available < -delta then None
    else Checked(r.(total := r.total + delta, available := r.available + delta, version := r.version + 1))
  }

  /** `after` is the next version of r with its amounts changed as given. */
  predicate IsNext(r: Row, after: Option<Row>, total: real, locked: real, available: real) {
    after == Some(Row(r.total + total, r.locked + locked, r.available + available, r.version + 1))
  }

  /** Which amounts each operation moves on a balanced row, when it raises nothing.  On a row that is out
      of balance every operation raises. */
  lemma AmountsMoved(r: Row, amount: real)
    ensures r.Balanced() ==>
      (0.0 <= amount <= r.available ==> IsNext(r, Lock(r, amount), 0.0, amount, -amount)) &&
      (0.0 <= amount <= r.locked ==> IsNext(r, Unlock(r, amount), 0.0, -amount, amount)) &&
      (0.0 <= amount <= r.locked ==> IsNext(r, Settle(r, amount), -amount, -amount, 0.0)) &&
      (0.0 <= amount ==> IsNext(r, Credit(r, amount), amount, 0.0, amount)) &&
      (0.0 <= amount || 0.0 <= r.available + amount ==> IsNext(r, Adjust(r, amount), amount, 0.0, amount))
    ensures !r.Balanced() ==>
      Lock(r, amount) == Unlock(r, amount) == Settle(r, amount) == Credit(r, amount) == Adjust(r, amount) == None
  {
  }

  /** The row object that the repository mutates in place.  A false `ok` is the raised error; a row
      that was consistent before the call is then untouched. */
  class BalanceRow {
    var total: real
    var locked: real
    var available: real
    var version: int

    constructor (r: Row)
      ensures View() == r
    {
      total, locked, available, version := r.total, r.locked, r.available, r.version;
    }

    function View(): Row
      reads this
    {
      Row(total, locked, available, version)
    }

    method LockPessimistic(amount: real) returns (ok: bool)
      modifies this
      ensures ok <==> Lock(old(View()), amount).Some?
      ensures ok ==> View() == Lock(old(View()), amount).value
      ensures !ok && old(View()).Balanced() ==> View() == old(View())
    {
      if amount < 0.0 || available < amount {
        return false;
      }
      available := available - amount;
      locked := locked + amount;
      version := version + 1;
      ok := total == locked + available;
    }

    method UnlockPessimistic(amount: real) returns (ok: bool)
      modifies this
      ensures ok <==> Unlock(old(View()), amount).Some?
      ensures ok ==> View() == Unlock(old(View()), amount).value
      ensures !ok && old(View()).Balanced() ==> View() == old(View())
    {
      if amount < 0.0 || locked < amount {
        return false;
      }
      locked := locked - amount;
      available := available + amount;
      version := version + 1;
      ok := total == locked + available;
    }

    method SettlePessimistic(amount: real) returns (ok: bool)
      modifies this
      ensures ok <==> Settle(old(View()), amount).Some?
      ensures ok ==> View() == Settle(old(View()), amount).value
      ensures !ok && old(View()).Balanced() ==> View() == old(View())
    {
      if amount < 0.0 || locked < amount {
        return false;
      }
      locked := locked - amount;
      total := total - amount;
      version := version + 1;
      ok := total == locked + available;
    }

    method CreditPessimistic(amount: real) returns (ok: bool)
      modifies this
      ensures ok <==> Credit(old(View()), amount).Some?
      ensures ok ==> View() == Credit(old(View()), amount).value
      ensures !ok && old(View()).Balanced() ==> View() == old(View())
    {
      if amount < 0.0 {
        return false;
      }
      total := total + amount;
      available := available + amount;
      version := version + 1;
      ok := total == locked + available;
    }

    method AdminAdjust(delta: real) returns (ok: bool)
      modifies this
      ensures ok <==> Adjust(old(View()), delta).Some?
      ensures ok ==> View() == Adjust(old(View()), delta).value
      ensures !ok && old(View()).Balanced() ==> View() == old(View())
    {
      if delta >= 0.0 {
        total := total + delta;
        available := available + delta;
      } else {
        var debit := -delta;
        if available < debit {
          return false;
        }
        total := total - debit;
        available := available - debit;
      }
      version := version + 1;
      ok := total == locked + available;
    }
  }

  /** Move `amount` from the payer's locked funds to the receiver's available funds: nothing is
      created or lost, whether or not the two rows are the same object. */
  method SettleTradePessimistic(payer: BalanceRow, receiver: BalanceRow, amount: real) returns (ok: bool)
    requires payer.View().Sound() && receiver.View().Sound()
    modifies payer, receiver
    ensures ok <==> 0.0 <= amount <= old(payer.locked)
    ensures payer.View().Sound() && receiver.View().Sound()
    ensures ok ==> payer.locked == old(payer.locked) - amount
    ensures ok ==> receiver.available == old(receiver.available) + amount
    ensures payer.total + receiver.total == old(payer.total + receiver.total)
    ensures !ok ==> payer.View() == old(payer.View()) && receiver.View() == old(receiver.View())
  {
    ok := payer.SettlePessimistic(amount);
    if ok {
      ok := receiver.CreditPessimistic(amount);
    }
  }
}
