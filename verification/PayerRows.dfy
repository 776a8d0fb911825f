/** Whoever owes funds on a live order has a row to pay them from, so a run can only lose funds to
    missing rows, never create them. */
module PayerRows {
  import opened Domain
  import opened AskWalk
  import opened Ledger
  import opened Soundness
  import opened FillBooks
  import opened AllOrNothing
  import opened Settlement

  ghost predicate PayersReady(s: State) {
    forall i :: 0 <= i < |s.orders| && IsLive(s.orders[i]) ==> PayAccount(s.orders[i]) in s.balances
  }

  /** Both assets of a pair have names: the empty name stands for no asset. */
  predicate IsNamed(pair: Pair) {
    pair.base != "" && pair.quote != ""
  }

  /** Asks come from resting orders: their prices are positive and their quantities not negative. */
  ghost predicate RealAsks(asks: seq<Ask>) {
    Offers(asks) && PositivePrices(asks)
  }

  ghost predicate RealRequest(r: Request) {
    RealAsks(r.asks) && (r.ticket.pair.Some? ==> IsNamed(r.ticket.pair.value))
  }

  /** The step's asks and pairs are real ones. */
  ghost predicate RealStep(step: Step) {
    match step
    case PlaceStep(_, _, asks) => RealAsks(asks)
    case BulkStep(_, requests, _) => forall r :: r in requests ==> RealRequest(r)
    case _ => true
  }

  // ---------- New orders ----------

  /** A ticket that is not a stop locks something in the account that its order pays from. */
  lemma TicketLocks(user: nat, t: Ticket, asks: seq<Ask>)
    requires Admit(t, asks).Ok? && !IsStop(t.kind) && RealAsks(asks)
    ensures var (pair, asset, amount) := Admit(t, asks).value;
      0.0 < amount && PayAccount(OrderFor(user, t, pair)) == Account(user, asset)
  {
    if t.kind == Market && t.side == Buy {
      LockIsPositive(asks, t.quantity);
    } else if t.side == Buy {
      ValuePositive(t.price.value, t.quantity);
    }
  }

  lemma PlaceKeepsPayers(s: State, user: nat, t: Ticket, asks: seq<Ask>)
    requires PayersReady(s) && RealAsks(asks) && Place(s, user, t, asks).Ok?
    ensures PayersReady(Place(s, user, t, asks).value)
  {
    hide Value, MarketBuyLock, IsValidTicket, Requirement;
    if !IsStop(t.kind) { TicketLocks(user, t, asks); }
  }

  /** What each request must lock is part of the summed needs. */
  lemma {:induction false} RequestInNeeds(requests: seq<Request>, i: nat)
    requires Needs(requests).Ok? && i < |requests|
    ensures Admit(requests[i].ticket, requests[i].asks).Ok?
    ensures var (pair, asset, amount) := Admit(requests[i].ticket, requests[i].asks).value;
      asset != "" && 0.0 < amount ==> asset in Needs(requests).value
  {
    if i < |requests| - 1 { RequestInNeeds(requests[..|requests| - 1], i); }
  }

  /** After a successful bulk lock every needed asset has a row. */
  lemma {:induction false} LockedRowsExist(b: Balances, user: nat, needs: map<string, real>, order: seq<string>)
    requires (forall asset :: asset in order ==> asset in needs) && LockAll(b, user, needs, order).1 == None
    ensures b.Keys <= LockAll(b, user, needs, order).0.Keys
    ensures forall asset :: asset in order ==> Account(user, asset) in LockAll(b, user, needs, order).0
  {
    if order != [] {
      LockedRowsExist(b, user, needs, order[..|order| - 1]);
      assert forall asset :: asset in order ==> asset in order[..|order| - 1] || asset == order[|order| - 1];
    }
  }

  /** The owner of a request's live order has a row, once every needed asset has one. */
  lemma RequestHasRow(user: nat, requests: seq<Request>, b: Balances, i: nat)
    requires Needs(requests).Ok? && i < |requests| && RealRequest(requests[i]) && requests[i].ticket.pair.Some?
    requires forall asset :: asset in Needs(requests).value ==> Account(user, asset) in b
    ensures var o := OrderFor(user, requests[i].ticket, requests[i].ticket.pair.value);
      IsLive(o) ==> PayAccount(o) in b
  {
    hide Value, MarketBuyLock, IsValidTicket, Requirement, Needs;
    var r := requests[i];
    RequestInNeeds(requests, i);
    if !IsStop(r.ticket.kind) { TicketLocks(user, r.ticket, r.asks); }
  }

  lemma BulkKeepsPayers(s: State, user: nat, requests: seq<Request>, lockOrder: seq<string>)
    requires PayersReady(s) && (forall r :: r in requests ==> RealRequest(r))
    requires CanRun(BulkStep(user, requests, lockOrder)) && PlaceBulk(s, user, requests, lockOrder).error == None
    ensures PayersReady(PlaceBulk(s, user, requests, lockOrder).state)
  {
    hide Needs, LockAll, OrderFor, RealRequest, OrdersFor;
    var after := PlaceBulk(s, user, requests, lockOrder).state;
    AdmittedHavePairs(requests);
    OneOrderPerRequest(user, requests);
    LockedRowsExist(s.balances, user, Needs(requests).value, lockOrder);
    forall i | 0 <= i < |after.orders| && IsLive(after.orders[i])
      ensures PayAccount(after.orders[i]) in after.balances
    {
      if |s.orders| <= i {
        assert requests[i - |s.orders|] in requests;
        RequestHasRow(user, requests, after.balances, i - |s.orders|);
      } else {
        assert after.orders[i] == s.orders[i];
      }
    }
  }

  // ---------- Existing orders ----------

  lemma CancelKeepsPayers(s: State, user: nat, id: nat)
    requires Sound(s) && PayersReady(s) && Cancel(s, user, id).Ok?
    ensures PayersReady(Cancel(s, user, id).value)
  {
    hide UnlockDue;
  }

  lemma ModifyKeepsPayers(s: State, user: nat, id: nat, price: real, quantity: real)
    requires PayersReady(s) && Modify(s, user, id, price, quantity).error == None
    ensures PayersReady(Modify(s, user, id, price, quantity).state)
  {
    hide OldLock, NewLock;
  }

  lemma TriggerKeepsPayers(s: State, id: nat, asks: seq<Ask>)
    requires PayersReady(s)
    ensures PayersReady(Trigger(s, id, asks))
  {
    hide ChildLock;
  }

  /** Settlement deletes no row and fills only live orders. */
  lemma MatchKeepsPayers(s: State, taker: nat, m: Outcome)
    requires MatcherContract(s, taker, m) && PayersReady(s) && Match(s, taker, m).Ok?
    ensures PayersReady(Match(s, taker, m).value)
  {
    hide Value, SettleBalances, FillsOf;
    if !m.rejected && m.execs != [] {
      BatchShape(s, taker, m);
      var o := s.orders[taker];
      var fills, s0 := FillsOf(taker, o.side, m.execs), s.(trades := s.trades + TradesOf(s.orders, taker, m.execs));
      var s1 := PersistBatch(s, taker, m.execs).value;
      FillsNet(s0, fills, o.pair, "");
      FillsReplace(s0, fills, o.pair);
      forall i | 0 <= i < |s1.orders| && IsLive(s1.orders[i]) ensures PayAccount(s1.orders[i]) in s.balances {
        if j :| 0 <= j < |fills| && fills[j].order == i {
          assert Fits(s.orders[i], fills[j], o.pair);
        } else {
          assert s1.orders[i] == s.orders[i];
        }
      }
    }
  }

  lemma StepKeepsPayers(s: State, step: Step)
    requires Sound(s) && StepContract(s, step) && RealStep(step) && PayersReady(s)
    ensures PayersReady(Apply(s, step))
  {
    hide PayersReady, Place, PlaceBulk, Cancel, Modify, Match, Trigger, MatcherContract;
    match step
    case PlaceStep(user, t, asks) => if Place(s, user, t, asks).Ok? { PlaceKeepsPayers(s, user, t, asks); }
    case BulkStep(user, requests, lockOrder) =>
      if PlaceBulk(s, user, requests, lockOrder).error == None { BulkKeepsPayers(s, user, requests, lockOrder); }
    case CancelStep(user, id) => if Cancel(s, user, id).Ok? { CancelKeepsPayers(s, user, id); }
    case ModifyStep(user, id, price, quantity) =>
      if Modify(s, user, id, price, quantity).error == None { ModifyKeepsPayers(s, user, id, price, quantity); }
    case MatchStep(taker, m) => if Match(s, taker, m).Ok? { MatchKeepsPayers(s, taker, m); }
    case TriggerStep(id, asks) => TriggerKeepsPayers(s, id, asks);
    case AdminStep(k, delta) => AdminKeepsPayers(s, k, delta);
  }

  lemma AdminKeepsPayers(s: State, k: Account, delta: real)
    requires PayersReady(s)
    ensures PayersReady(Settled(s, Administer(s, k, delta)))
  {
  }

  /** Over any run the owner of every live order has a row of the asset it pays with. */
  lemma {:induction false} RunKeepsPayers(s: State, steps: seq<Step>)
    requires Sound(s) && RunContract(s, steps) && PayersReady(s)
    requires forall i :: 0 <= i < |steps| ==> RealStep(steps[i])
    ensures PayersReady(Run(s, steps))
  {
    if steps != [] {
      var front := steps[..|steps| - 1];
      RunPrefix(s, steps);
      RunKeepsPayers(s, front);
      RunKeepsSound(s, front);
      StepKeepsPayers(Run(s, front), steps[|steps| - 1]);
    }
  }

  // ---------- What a run can lose ----------

  /** If the step commits a batch, everyone who is due some of the asset has a row to receive it. */
  ghost predicate PaidInFull(s: State, step: Step, asset: string) {
    CommitsBatch(s, step) ==>
      PayeesHaveRows(s, FillsOf(step.taker, s.orders[step.taker].side, step.outcome.execs), s.orders[step.taker].pair,
                     asset)
  }

  ghost predicate AllPaidInFull(s: State, steps: seq<Step>, asset: string)
    requires CanRunAll(steps)
  {
    forall i :: 0 <= i < |steps| ==> PaidInFull(Run(s, steps[..i]), steps[i], asset)
  }

  lemma StepLosesIff(s: State, step: Step, asset: string)
    requires StepContract(s, step) && PayersReady(s)
    ensures 0.0 <= StepLost(s, step, asset)
    ensures StepLost(s, step, asset) == 0.0 <==> PaidInFull(s, step, asset)
  {
    if CommitsBatch(s, step) {
      var taker, execs := step.taker, step.outcome.execs;
      var o := s.orders[taker];
      var fills := FillsOf(taker, o.side, execs);
      BatchShape(s, taker, step.outcome);
      forall i | 0 <= i < |fills| ensures PayRow(s.orders, fills[i], o.pair) in s.balances {
        assert Fits(s.orders[fills[i].order], fills[i], o.pair);
      }
      UnreceivedZeroIff(s, fills, o.pair, asset);
      UnpaidZeroIff(s, fills, o.pair, asset);
    }
  }

  /** From a state whose payers have rows, as the empty exchange, no run creates funds beyond what
      administrators grant, and it conserves an asset if and only if every batch it commits pays
      that asset only into rows that exist. */
  lemma RunConservesIff(s: State, steps: seq<Step>, asset: string)
    requires Sound(s) && RunContract(s, steps) && PayersReady(s)
    requires forall i :: 0 <= i < |steps| ==> RealStep(steps[i])
    ensures TotalOf(Run(s, steps).balances, asset) <= TotalOf(s.balances, asset) + GrantedAlong(s, steps, asset)
    ensures TotalOf(Run(s, steps).balances, asset) == TotalOf(s.balances, asset) + GrantedAlong(s, steps, asset) <==>
      AllPaidInFull(s, steps, asset)
  {
    RunConserves(s, steps, asset);
    LostIff(s, steps, asset);
  }

  lemma {:induction false} LostIff(s: State, steps: seq<Step>, asset: string)
    requires Sound(s) && RunContract(s, steps) && PayersReady(s)
    requires forall i :: 0 <= i < |steps| ==> RealStep(steps[i])
    ensures 0.0 <= LostAlong(s, steps, asset)
    ensures LostAlong(s, steps, asset) == 0.0 <==> AllPaidInFull(s, steps, asset)
  {
    hide PaidInFull, StepLost, AllPaidInFull;
    AllPaidSplit(s, steps, asset);
    if steps != [] {
      var front := steps[..|steps| - 1];
      RunPrefix(s, steps);
      LostIff(s, front, asset);
      RunKeepsSound(s, front);
      RunKeepsPayers(s, front);
      StepLosesIff(Run(s, front), steps[|steps| - 1], asset);
    }
  }

  lemma AllPaidSplit(s: State, steps: seq<Step>, asset: string)
    requires CanRunAll(steps)
    ensures AllPaidInFull(s, steps, asset) <==>
      steps == [] ||
      (AllPaidInFull(s, steps[..|steps| - 1], asset) &&
       PaidInFull(Run(s, steps[..|steps| - 1]), steps[|steps| - 1], asset))
  {
    hide PaidInFull, Run;
    if steps != [] {
      var front := steps[..|steps| - 1];
      assert forall i :: 0 <= i < |front| ==> front[..i] == steps[..i] && front[i] == steps[i];
      if AllPaidInFull(s, front, asset) && PaidInFull(Run(s, front), steps[|front|], asset) {
        forall i | 0 <= i < |steps| ensures PaidInFull(Run(s, steps[..i]), steps[i], asset) {
          if i < |front| { assert PaidInFull(Run(s, front[..i]), front[i], asset); }
        }
      }
      if AllPaidInFull(s, steps, asset) {
        assert PaidInFull(Run(s, steps[..|front|]), steps[|front|], asset);
        forall i | 0 <= i < |front| ensures PaidInFull(Run(s, front[..i]), front[i], asset) {
          assert PaidInFull(Run(s, steps[..i]), steps[i], asset);
        }
      }
    }
  }
}
