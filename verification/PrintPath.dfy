/** What one trade print does to the stops of its symbol: it attempts them all. */
module PrintPath {
  import opened Domain
  import opened AskWalk
  import opened Ledger
  import opened Soundness
  import opened AllOrNothing
  import opened StopLifecycle
  import TrailingStops

  /** The sorted set scores each pending stop by its stop price. */
  predicate IsQueued(scores: map<nat, real>, orders: seq<Order>, id: nat) {
    id < |orders| && orders[id].status == Pending && orders[id].stopPrice.Some? &&
    0.0 <= orders[id].stopPrice.value && id in scores &&
    scores[id] == orders[id].stopPrice.value * TrailingStops.SCORE_SCALE
  }

  /** Every queued stop, crossed or not, is a candidate of a print at any price, and attempting it
      fires it if and only if its requirement is computable, positive and available.  So a print
      fires an uncrossed stop exactly when its owner can pay. */
  lemma PrintFiresIff(scores: map<nat, real>, s: State, id: nat, price: real, asks: seq<Ask>)
    requires Sound(s) && IsQueued(scores, s.orders, id) && 0.0 <= price
    ensures id in TrailingStops.Candidates(scores, price)
    ensures var o, after := s.orders[id], Trigger(s, id, asks);
      (Fires(s.orders, after.orders, id) <==>
         ChildLock(o, asks).Ok? && 0.0 < ChildLock(o, asks).value <= AvailableOf(s.balances, PayAccount(o))) &&
      (!Fires(s.orders, after.orders, id) ==> after.orders == s.orders && SameFunds(s.balances, after.balances))
  {
    hide Trigger, ChildLock, Sound, SameFunds, OnlyMoved;
    TrailingStops.CandidatesAreAll(scores, price);
    TriggerExactly(s, id, asks);
  }
}
