/** What the worker's place step adds to settlement: the refund, and the parties named in the log. */
module Matches {
  import opened Domain
  import opened Ledger
  import opened Soundness
  import opened AllOrNothing
  import opened OrderTerms

  // ---------- The refund ----------

  /** Is the taker a market buy, or a limit or stop-limit buy of which nothing remains? */
  predicate IsDoneBuy(o: Order, remaining: real) {
    o.side == Buy && (o.kind == Market || ((o.kind == Limit || o.kind == StopLimit) && remaining == 0.0))
  }

  /** An accepted match ends with what settlement leaves, except that a buy that is done has all of the
      buyer's locked quote made available.  A rejected match changes nothing. */
  lemma MatchRefundsExactly(s: State, taker: nat, m: Outcome)
    requires Sound(s) && MatcherContract(s, taker, m) && taker < |s.orders|
    ensures m.rejected ==> Match(s, taker, m) == Ok(s)
    ensures !m.rejected && PersistBatch(s, taker, m.execs).Err? ==>
      Match(s, taker, m) == Err(PersistBatch(s, taker, m.execs).error)
    ensures !m.rejected && PersistBatch(s, taker, m.execs).Ok? ==>
      var o, settled := s.orders[taker], PersistBatch(s, taker, m.execs).value;
      var account := Account(o.user, o.pair.quote);
      Match(s, taker, m).Ok? &&
      var after := Match(s, taker, m).value;
      after.orders == settled.orders && after.trades == settled.trades &&
      if IsDoneBuy(o, m.remaining) then
        OnlyMoved(settled.balances, after.balances, account, -LockedOf(settled.balances, account)) &&
        LockedOf(after.balances, account) == 0.0
      else after == settled
  {
    hide PersistBatch, Lineage, OrdersOk;
    if !m.rejected && PersistBatch(s, taker, m.execs).Ok? {
      SoundBatch(s, taker, m);
    }
  }

  // ---------- The log ----------

  /** A logged trade is between an order and a resting one of the other side and the same pair, and names
      their users and the taker's side. */
  predicate NamesParties(t: Trade, orders: seq<Order>) {
    t.taker < |orders| && t.maker < |orders| &&
    t.takerUser == orders[t.taker].user && t.makerUser == orders[t.maker].user &&
    t.side == orders[t.taker].side && orders[t.maker].side != t.side && orders[t.maker].pair == orders[t.taker].pair
  }

  ghost predicate LogNamesParties(s: State) {
    forall j :: 0 <= j < |s.trades| ==> NamesParties(s.trades[j], s.orders)
  }

  lemma TermsKeepParties(t: Trade, before: seq<Order>, after: seq<Order>)
    requires NamesParties(t, before) && KeepsTerms(before, after)
    ensures NamesParties(t, after)
  {
    assert SameTerms(before[t.taker], after[t.taker]) && SameTerms(before[t.maker], after[t.maker]);
  }

  /** Every maker of a batch within the contract rests on the other side of the same pair. */
  lemma MakersAreOpposite(s: State, taker: nat, m: Outcome, j: nat)
    requires MatcherContract(s, taker, m) && !m.rejected && j < |m.execs|
    ensures m.execs[j].maker < |s.orders|
    ensures s.orders[m.execs[j].maker].side != s.orders[taker].side
    ensures s.orders[m.execs[j].maker].pair == s.orders[taker].pair
  {
    hide Aggregate;
    var o := s.orders[taker];
    var makers := Aggregate(m.execs, Opposite(o.side));
    var fills := FillsOf(taker, o.side, m.execs);
    BatchShape(s, taker, m);
    AggregateShape(m.execs, Opposite(o.side));
    AggregateHas(m.execs, Opposite(o.side), m.execs[j].maker);
    var i :| 0 <= i < |makers| && makers[i].order == m.execs[j].maker;
    assert fills[i] == makers[i] && Fits(s.orders[fills[i].order], fills[i], o.pair);
  }

  lemma MatchNamesParties(s: State, taker: nat, m: Outcome)
    requires LogNamesParties(s) && MatcherContract(s, taker, m) && Match(s, taker, m).Ok?
    ensures LogNamesParties(Match(s, taker, m).value)
  {
    hide NamesParties, MatcherContract, KeepsTerms, FillsOf;
    var after := Match(s, taker, m).value;
    MatchKeepsTerms(s, taker, m);
    MatchLogs(s, taker, m);
    forall j | 0 <= j < |after.trades| ensures NamesParties(after.trades[j], after.orders) {
      if |s.trades| <= j { TradeNamesParties(s, taker, m, j - |s.trades|); }
      TermsKeepParties(after.trades[j], s.orders, after.orders);
    }
  }

  lemma TradeNamesParties(s: State, taker: nat, m: Outcome, j: nat)
    requires MatcherContract(s, taker, m) && !m.rejected && j < |m.execs|
    ensures NamesParties(TradesOf(s.orders, taker, m.execs)[j], s.orders)
  {
    hide FillsOf;
    MakersAreOpposite(s, taker, m, j);
  }

  /** An accepted match appends one trade per execution, in order. */
  lemma MatchLogs(s: State, taker: nat, m: Outcome)
    requires Match(s, taker, m).Ok?
    ensures var more := if m.rejected || m.execs == [] then [] else TradesOf(s.orders, taker, m.execs);
      Match(s, taker, m).value.trades == s.trades + more
  {
    hide FillsOf, ApplyFills;
    if !m.rejected && m.execs != [] {
      var o := s.orders[taker];
      KnownFills(s, taker, m.execs);
      var s0 := s.(trades := s.trades + TradesOf(s.orders, taker, m.execs));
      FillsKeepTerms(s0, FillsOf(taker, o.side, m.execs), o.pair);
    } else {
      assert s.trades + [] == s.trades;
    }
  }

  lemma StepNamesParties(s: State, step: Step)
    requires StepContract(s, step) && LogNamesParties(s)
    ensures LogNamesParties(Apply(s, step))
  {
    hide Match, MatcherContract, NamesParties, Admit, LockFunds, UnlockFunds, LockAll, Release, ChildLock, Value;
    if step.MatchStep? {
      if Match(s, step.taker, step.outcome).Ok? { MatchNamesParties(s, step.taker, step.outcome); }
    } else {
      StepKeepsTerms(s, step);
      assert Apply(s, step).trades == s.trades;
      forall j | 0 <= j < |s.trades| ensures NamesParties(s.trades[j], Apply(s, step).orders) {
        TermsKeepParties(s.trades[j], s.orders, Apply(s, step).orders);
      }
    }
  }

  /** Over any run within the contract every trade in the log names its two orders' users and the
      taker's side, whichever side took. */
  lemma {:induction false} RunNamesParties(s: State, steps: seq<Step>)
    requires RunContract(s, steps) && LogNamesParties(s)
    ensures LogNamesParties(Run(s, steps))
  {
    if steps != [] {
      RunPrefix(s, steps);
      RunNamesParties(s, steps[..|steps| - 1]);
      StepNamesParties(Run(s, steps[..|steps| - 1]), steps[|steps| - 1]);
    }
  }
}
