/** The committed state of the exchange and what each transaction does to it.

    Every step is a function from one committed state to the next; the imperative services that
    carry the steps out are in module Exchange. */
module Ledger {
  import opened Domain
  import opened Rows
  import opened AskWalk

  type Balances = map<Account, Row>

  datatype State = State(balances: Balances, orders: seq<Order>, trades: seq<Trade>)

  /** What a service leaves in its session: the state so far and the error it raised, if any.
      The caller keeps the state when there is no error and rolls back otherwise. */
  datatype Session = Session(state: State, error: Option<Error>)

  function Commit(before: State, session: Session): State {
    if session.error == None then session.state else before
  }

  function LockedOf(b: Balances, k: Account): real {
    if k in b then b[k].locked else 0.0
  }

  function AvailableOf(b: Balances, k: Account): real {
    if k in b then b[k].available else 0.0
  }

  function TotalAt(b: Balances, k: Account): real {
    if k in b then b[k].total else 0.0
  }

  const EMPTY_ROW := Row(0.0, 0.0, 0.0, 1)

  function EnsureRow(b: Balances, k: Account): Balances {
    if k in b then b else b[k := EMPTY_ROW]
  }

  // ---------- Uncontended optimistic operations ----------

  /** Move funds from available to locked.  A missing row counts as empty. */
  function LockFunds(b: Balances, k: Account, amount: real): Result<Balances> {
    if amount <= 0.0 then Err(BadAmount)
    else if k !in b || b[k].available < amount then Err(InsufficientBalance)
    else Ok(b[k := b[k].(locked := b[k].locked + amount, available := b[k].available - amount,
                         version := b[k].version + 1)])
  }

  /** Move funds from locked to available.  Too little locked is reported as a conflict. */
  function UnlockFunds(b: Balances, k: Account, amount: real): Result<Balances> {
    if amount <= 0.0 then Err(BadAmount)
    else if k !in b then Err(MissingBalance)
    else if b[k].locked < amount then Err(VersionConflict)
    else Ok(b[k := b[k].(locked := b[k].locked - amount, available := b[k].available + amount,
                         version := b[k].version + 1)])
  }

  // ---------- Placement ----------

  predicate IsMultiple(price: real, tick: real)
    requires tick > 0.0
  {
    (price / tick).Floor as real * tick == price
  }

  predicate IsValidTicket(t: Ticket, pair: Pair) {
    && 0.0 < t.quantity
    && pair.minLot <= t.quantity <= pair.maxLot
    && (IsPriced(t.kind) || t.kind == StopLimit ==> t.price.Some?)
    && (t.price.Some? ==> 0.0 < t.price.value)
    && (t.kind == StopMarket || t.kind == StopLimit ==> t.stopPrice.Some?)
    && (t.kind == TrailingStop ==> t.trailingDelta.Some?)
    && (t.kind == Iceberg ==>
          t.visible.Some? && t.hidden.Some? && t.visible.value + t.hidden.value == t.quantity && 0.0 < t.visible.value)
    && (t.price.Some? && 0.0 < pair.tick ==> IsMultiple(t.price.value, pair.tick))
  }

  /** The asset and the amount that a ticket must lock. */
  function Requirement(t: Ticket, pair: Pair, asks: seq<Ask>): Result<(string, real)> {
    if IsStop(t.kind) then Ok(("", 0.0))
    else if t.kind == Market && t.side == Buy then
      match MarketBuyLock(asks, t.quantity)
      case Ok(amount) => Ok((pair.quote, amount))
      case Err(e) => Err(e)
    else if t.side == Sell then Ok((pair.base, t.quantity))
    else Ok((pair.quote, Value(GetOr(t.price, 0.0), t.quantity)))
  }

  function OrderFor(user: nat, t: Ticket, pair: Pair): Order {
    Order(user, pair, t.side, t.kind, if IsStop(t.kind) then Pending else New, t.price, t.stopPrice,
          t.quantity, 0.0, 0.0, None, None, 0, None, 1)
  }

  /** Validation of a ticket together with what it must lock. */
  function Admit(t: Ticket, asks: seq<Ask>): Result<(Pair, string, real)> {
    if t.pair == None || !t.pair.value.active || !IsValidTicket(t, t.pair.value) then Err(Validation)
    else
      match Requirement(t, t.pair.value, asks)
      case Ok(need) => Ok((t.pair.value, need.0, need.1))
      case Err(e) => Err(e)
  }

  function Place(s: State, user: nat, t: Ticket, asks: seq<Ask>): Result<State> {
    match Admit(t, asks)
    case Err(e) => Err(e)
    case Ok((pair, asset, amount)) =>
      var placed := s.(orders := s.orders + [OrderFor(user, t, pair)]);
      if IsStop(t.kind) || amount <= 0.0 then Ok(placed)
      else
        match LockFunds(s.balances, Account(user, asset), amount)
        case Ok(b) => Ok(placed.(balances := b))
        case Err(e) => Err(e)
  }

  // ---------- Cancel ----------

  function PayAccount(o: Order): Account {
    Account(o.user, if o.side == Sell then o.pair.base else o.pair.quote)
  }

  /** What a cancel gives back: a market buy's own lock is not recorded on the order. */
  function UnlockDue(o: Order): real {
    if o.side == Sell then Remaining(o)
    else if o.price.Some? then Value(o.price.value, Remaining(o))
    else Value(GetOr(o.stopPrice, 0.0), Remaining(o))
  }

  function WithStatus(o: Order, status: Status): Order {
    o.(status := status, version := o.version + 1)
  }

  function CancelChildren(orders: seq<Order>, parent: nat): (after: seq<Order>)
    ensures |after| == |orders|
  {
    seq(|orders|, i requires 0 <= i < |orders| =>
      if orders[i].parent == Some(parent) && IsActive(orders[i]) then WithStatus(orders[i], Canceled) else orders[i])
  }

  /** Unlock at most what is locked. */
  function Release(b: Balances, k: Account, amount: real): Result<Balances> {
    if k !in b || Min(amount, b[k].locked) <= 0.0 then Ok(b)
    else
      match Unlock(b[k], Min(amount, b[k].locked))
      case Some(r) => Ok(b[k := r])
      case None => Err(BadAmount)
  }

  function Cancel(s: State, user: nat, id: nat): Result<State> {
    if id >= |s.orders| || s.orders[id].user != user then Err(NotFound)
    else if !IsActive(s.orders[id]) then Err(NotActive)
    else
      var o := s.orders[id];
      var release := if IsStop(o.kind) then Ok(s.balances) else Release(s.balances, PayAccount(o), UnlockDue(o));
      match release
      case Err(e) => Err(e)
      case Ok(b) =>
        Ok(s.(balances := b, orders := CancelChildren(s.orders[id := WithStatus(o, Canceled)], id)))
  }

  // ---------- Cancel-Replace ----------

  function Replacement(o: Order, id: nat, price: real, quantity: real): Order {
    Order(o.user, o.pair, o.side, o.kind, New, Some(price), None,
          quantity, 0.0, 0.0, Some(id), None, o.replaceCount + 1, None, 1)
  }

  function LinkedOld(o: Order, newId: nat): Order {
    WithStatus(o, Canceled).(replacedBy := Some(newId))
  }

  function OldLock(o: Order): real {
    if o.side == Sell then Remaining(o) else Value(GetOr(o.price, 0.0), Remaining(o))
  }

  function NewLock(o: Order, price: real, quantity: real): real {
    if o.side == Sell then quantity else Value(price, quantity)
  }

  function Modify(s: State, user: nat, id: nat, price: real, quantity: real): Session {
    if id >= |s.orders| || s.orders[id].user != user then Session(s, Some(NotFound))
    else if !IsActive(s.orders[id]) then Session(s, Some(NotActive))
    else if s.orders[id].kind !in {Limit, PostOnly, Iceberg} then Session(s, Some(NotModifiable))
    else
      var o := s.orders[id];
      var k := PayAccount(o);
      var unlocked := if OldLock(o) > 0.0 then UnlockFunds(s.balances, k, OldLock(o)) else Ok(s.balances);
      match unlocked
      case Err(e) => Session(s, Some(e))
      case Ok(b1) =>
        if price <= 0.0 || quantity <= 0.0 || quantity < o.pair.minLot then
          Session(s.(balances := b1), Some(Validation))
        else
          match LockFunds(b1, k, NewLock(o, price, quantity))
          case Ok(b2) =>
            var orders := s.orders[id := LinkedOld(o, |s.orders|)] + [Replacement(o, id, price, quantity)];
            Session(State(b2, orders, s.trades), None)
          case Err(InsufficientBalance) =>
            (match LockFunds(b1, k, OldLock(o))
             case Ok(b3) => Session(s.(balances := b3), Some(InsufficientBalance))
             case Err(e) => Session(s.(balances := b1), Some(e)))
          case Err(e) => Session(s.(balances := b1), Some(e))
  }

  // ---------- Bulk placement ----------

  datatype Request = Request(ticket: Ticket, asks: seq<Ask>)

  function AddNeed(needs: map<string, real>, asset: string, amount: real): map<string, real> {
    if asset == "" || amount <= 0.0 then needs
    else needs[asset := (if asset in needs then needs[asset] else 0.0) + amount]
  }

  /** The summed lock requirement per asset of a batch of tickets. */
  function Needs(requests: seq<Request>): Result<map<string, real>> {
    if requests == [] then Ok(map[])
    else
      match Needs(requests[..|requests| - 1])
      case Err(e) => Err(e)
      case Ok(needs) =>
        var r := requests[|requests| - 1];
        match Admit(r.ticket, r.asks)
        case Err(e) => Err(e)
        case Ok((pair, asset, amount)) => Ok(AddNeed(needs, asset, amount))
  }

  /** `order` lists each asset of `needs` once. */
  ghost predicate Enumerates(order: seq<string>, needs: map<string, real>) {
    (forall asset :: asset in order <==> asset in needs) &&
    (forall i, j :: 0 <= i < j < |order| ==> order[i] != order[j])
  }

  /** Lock the needs one asset after the other; at the first failure unlock those already locked. */
  function LockAll(b: Balances, user: nat, needs: map<string, real>, order: seq<string>): (Balances, Option<Error>)
    requires forall asset :: asset in order ==> asset in needs
  {
    if order == [] then (b, None)
    else
      var last := order[|order| - 1];
      var (b1, failed) := LockAll(b, user, needs, order[..|order| - 1]);
      if failed.Some? then (b1, failed)
      else
        match LockFunds(b1, Account(user, last), needs[last])
        case Ok(b2) => (b2, None)
        case Err(e) => (UnlockAll(b1, user, needs, order[..|order| - 1]), Some(e))
  }

  function UnlockAll(b: Balances, user: nat, needs: map<string, real>, order: seq<string>): Balances
    requires forall asset :: asset in order ==> asset in needs
  {
    if order == [] then b
    else
      var b1 := match UnlockFunds(b, Account(user, order[0]), needs[order[0]])
                case Ok(b1) => b1
                case Err(_) => b;
      UnlockAll(b1, user, needs, order[1..])
  }

  function OrdersFor(user: nat, requests: seq<Request>): seq<Order>
    requires forall r :: r in requests ==> r.ticket.pair.Some?
  {
    if requests == [] then []
    else
      var r := requests[|requests| - 1];
      OrdersFor(user, requests[..|requests| - 1]) + [OrderFor(user, r.ticket, r.ticket.pair.value)]
  }

  lemma AdmittedHavePairs(requests: seq<Request>)
    requires Needs(requests).Ok?
    ensures forall r :: r in requests ==> r.ticket.pair.Some?
  {
    if requests != [] {
      AdmittedHavePairs(requests[..|requests| - 1]);
    }
  }

  /** `lockOrder` is the order in which the assets are locked; the service sorts them by name. */
  function PlaceBulk(s: State, user: nat, requests: seq<Request>, lockOrder: seq<string>): Session
    requires Needs(requests).Ok? ==> Enumerates(lockOrder, Needs(requests).value)
  {
    match Needs(requests)
    case Err(e) => Session(s, Some(e))
    case Ok(needs) =>
      var (b, failed) := LockAll(s.balances, user, needs, lockOrder);
      if failed.Some? then Session(s.(balances := b), failed)
      else
        AdmittedHavePairs(requests);
        Session(s.(balances := b, orders := s.orders + OrdersFor(user, requests)), None)
  }

  // ---------- Settlement of a match ----------

  /** The aggregated fill of one order in a batch.  `side` is the side settled for it. */
  datatype Fill = Fill(order: nat, side: Side, qty: real, quote: real, isTaker: bool)

  function FillOrder(o: Order, f: Fill): Order {
    var qty := o.filledQty + f.qty;
    o.(filledQty := qty, filledQuote := o.filledQuote + f.quote, version := o.version + 1,
       status := if qty >= o.quantity then Filled
                 else if !f.isTaker || qty > 0.0 then PartiallyFilled
                 else o.status)
  }

  function PaidAsset(side: Side, pair: Pair): string {
    if side == Buy then pair.quote else pair.base
  }

  function PaidAmount(f: Fill): real {
    if f.side == Buy then f.quote else f.qty
  }

  function ReceivedAmount(f: Fill): real {
    if f.side == Buy then f.qty else f.quote
  }

  /** Settle the paid asset and credit the received one, skipping a row that does not exist. */
  function SettleBalances(b: Balances, user: nat, f: Fill, pair: Pair): Result<Balances> {
    var pay, receive := Account(user, PaidAsset(f.side, pair)), Account(user, PaidAsset(Opposite(f.side), pair));
    var settled :=
      if pay !in b then Ok(b)
      else match Settle(b[pay], PaidAmount(f))
           case Some(r) => Ok(b[pay := r])
           case None => Err(LockedShort(pay));
    match settled
    case Err(e) => Err(e)
    case Ok(b1) =>
      if receive !in b1 then Ok(b1)
      else match Credit(b1[receive], ReceivedAmount(f))
           case Some(r) => Ok(b1[receive := r])
           case None => Err(BadAmount)
  }

  function ApplyFill(s: State, f: Fill, pair: Pair): Result<State>
    requires f.order < |s.orders|
  {
    var o := s.orders[f.order];
    match SettleBalances(s.balances, o.user, f, pair)
    case Ok(b) => Ok(s.(balances := b, orders := s.orders[f.order := FillOrder(o, f)]))
    case Err(e) => Err(e)
  }

  predicate Known(s: State, fills: seq<Fill>) {
    forall i :: 0 <= i < |fills| ==> fills[i].order < |s.orders|
  }

  function ApplyFills(s: State, fills: seq<Fill>, pair: Pair): Result<State>
    requires Known(s, fills)
    decreases |fills|
  {
    if fills == [] then Ok(s)
    else
      match ApplyFill(s, fills[0], pair)
      case Err(e) => Err(e)
      case Ok(s1) =>
        assert forall i :: 0 <= i < |fills[1..]| ==> fills[1..][i] == fills[i + 1];
        ApplyFills(s1, fills[1..], pair)
  }

  /** Add one execution to the per-maker totals, keeping the order of first appearance. */
  function AddDelta(deltas: seq<Fill>, side: Side, e: Exec): seq<Fill> {
    if deltas == [] then [Fill(e.maker, side, e.qty, Value(e.price, e.qty), false)]
    else if deltas[0].order == e.maker then
      [deltas[0].(qty := deltas[0].qty + e.qty, quote := deltas[0].quote + Value(e.price, e.qty))] + deltas[1..]
    else [deltas[0]] + AddDelta(deltas[1..], side, e)
  }

  /** Group the executions by maker. */
  function Aggregate(execs: seq<Exec>, side: Side): seq<Fill> {
    if execs == [] then []
    else AddDelta(Aggregate(execs[..|execs| - 1], side), side, execs[|execs| - 1])
  }

  function TotalQty(execs: seq<Exec>): real {
    if execs == [] then 0.0 else TotalQty(execs[..|execs| - 1]) + execs[|execs| - 1].qty
  }

  function TotalQuote(execs: seq<Exec>): real {
    if execs == [] then 0.0
    else TotalQuote(execs[..|execs| - 1]) + Value(execs[|execs| - 1].price, execs[|execs| - 1].qty)
  }

  /** The makers in order of first appearance, then the taker. */
  function FillsOf(taker: nat, side: Side, execs: seq<Exec>): seq<Fill> {
    Aggregate(execs, Opposite(side)) + [Fill(taker, side, TotalQty(execs), TotalQuote(execs), true)]
  }

  predicate AllMakersKnown(orders: seq<Order>, execs: seq<Exec>) {
    forall i :: 0 <= i < |execs| ==> execs[i].maker < |orders|
  }

  function TradesOf(orders: seq<Order>, taker: nat, execs: seq<Exec>): seq<Trade>
    requires taker < |orders| && AllMakersKnown(orders, execs)
  {
    seq(|execs|, i requires 0 <= i < |execs| =>
      Trade(taker, execs[i].maker, execs[i].price, execs[i].qty, Value(execs[i].price, execs[i].qty),
            orders[taker].side, orders[taker].user, orders[execs[i].maker].user))
  }

  lemma {:induction false} AggregateKnown(execs: seq<Exec>, side: Side, n: nat)
    requires forall i :: 0 <= i < |execs| ==> execs[i].maker < n
    ensures forall i :: 0 <= i < |Aggregate(execs, side)| ==> Aggregate(execs, side)[i].order < n
  {
    if execs != [] {
      AggregateKnown(execs[..|execs| - 1], side, n);
      AddDeltaKnown(Aggregate(execs[..|execs| - 1], side), side, execs[|execs| - 1], n);
    }
  }

  lemma {:induction false} AddDeltaKnown(deltas: seq<Fill>, side: Side, e: Exec, n: nat)
    requires e.maker < n && forall i :: 0 <= i < |deltas| ==> deltas[i].order < n
    ensures forall i :: 0 <= i < |AddDelta(deltas, side, e)| ==> AddDelta(deltas, side, e)[i].order < n
  {
    if deltas != [] && deltas[0].order != e.maker {
      AddDeltaKnown(deltas[1..], side, e, n);
    }
  }

  /** One match: trades are logged, then makers and taker are filled and settled, all or nothing.
      The log's foreign keys reject a trade whose orders do not exist. */
  function PersistBatch(s: State, taker: nat, execs: seq<Exec>): Result<State> {
    if execs == [] then Ok(s)
    else if taker >= |s.orders| || !AllMakersKnown(s.orders, execs) then Err(MissingOrder)
    else
      var o := s.orders[taker];
      AggregateKnown(execs, Opposite(o.side), |s.orders|);
      ApplyFills(s.(trades := s.trades + TradesOf(s.orders, taker, execs)), FillsOf(taker, o.side, execs), o.pair)
  }

  /** Give back everything the user has locked in the quote asset. */
  function Refund(s: State, k: Account): Result<State> {
    if k !in s.balances || s.balances[k].locked <= 0.0 then Ok(s)
    else
      match Unlock(s.balances[k], s.balances[k].locked)
      case Some(r) => Ok(s.(balances := s.balances[k := r]))
      case None => Err(BadAmount)
  }

  /** The matcher's verdict on one taker. */
  datatype Outcome = Outcome(rejected: bool, execs: seq<Exec>, remaining: real)

  predicate Refunds(o: Order, m: Outcome) {
    !m.rejected && o.side == Buy &&
    !(m.remaining > 0.0 && o.kind in {Limit, PostOnly, Iceberg}) &&
    (o.kind == Market || (m.remaining == 0.0 && o.kind in {Limit, StopLimit}))
  }

  /** The worker's place step.  A rejected order keeps its status and its lock. */
  function Match(s: State, taker: nat, m: Outcome): Result<State> {
    if taker >= |s.orders| then Err(MissingOrder)
    else if m.rejected then Ok(s)
    else
      match PersistBatch(s, taker, m.execs)
      case Err(e) => Err(e)
      case Ok(s1) =>
        var o := s.orders[taker];
        if Refunds(o, m) then Refund(s1, Account(o.user, o.pair.quote)) else Ok(s1)
  }

  // ---------- Stop trigger ----------

  function ChildOf(o: Order, id: nat): Order {
    var isMarket := o.kind == StopMarket || o.kind == TrailingStop;
    Order(o.user, o.pair, o.side, if isMarket then Market else Limit, New,
          if isMarket then None else o.price, None, o.quantity, 0.0, 0.0, None, None, 0, Some(id), 1)
  }

  function ChildLock(o: Order, asks: seq<Ask>): Result<real> {
    if o.side == Sell then Ok(o.quantity)
    else if o.kind != StopMarket && o.kind != TrailingStop && o.price.Some? then Ok(Value(o.price.value, o.quantity))
    else MarketBuyLock(asks, o.quantity)
  }

  /** Turn a pending stop into its child order.  Failures are logged, not raised; a failed lock on
      a missing row leaves the empty row that the attempt created. */
  function Trigger(s: State, id: nat, asks: seq<Ask>): State {
    if id >= |s.orders| || s.orders[id].status != Pending then s
    else
      var o := s.orders[id];
      match ChildLock(o, asks)
      case Err(_) => s
      case Ok(amount) =>
        match LockFunds(s.balances, PayAccount(o), amount)
        case Ok(b) => State(b, s.orders[id := WithStatus(o, Filled)] + [ChildOf(o, id)], s.trades)
        case Err(_) => if amount <= 0.0 then s else s.(balances := EnsureRow(s.balances, PayAccount(o)))
  }

  // ---------- Administration ----------

  function Administer(s: State, k: Account, delta: real): Result<State> {
    var b := EnsureRow(s.balances, k);
    match Adjust(b[k], delta)
    case Some(r) => Ok(s.(balances := b[k := r]))
    case None => Err(InsufficientBalance)
  }

  // ---------- Runs ----------

  datatype Step =
    | PlaceStep(user: nat, ticket: Ticket, asks: seq<Ask>)
    | BulkStep(user: nat, requests: seq<Request>, lockOrder: seq<string>)
    | CancelStep(user: nat, id: nat)
    | ModifyStep(user: nat, id: nat, price: real, quantity: real)
    | MatchStep(taker: nat, outcome: Outcome)
    | TriggerStep(id: nat, asks: seq<Ask>)
    | AdminStep(account: Account, delta: real)

  function Settled(before: State, r: Result<State>): State {
    if r.Ok? then r.value else before
  }

  ghost predicate CanRun(step: Step) {
    step.BulkStep? && Needs(step.requests).Ok? ==> Enumerates(step.lockOrder, Needs(step.requests).value)
  }

  /** One transaction: committed when it succeeds, rolled back when it raises. */
  function Apply(s: State, step: Step): State
    requires CanRun(step)
  {
    match step
    case PlaceStep(user, t, asks) => Settled(s, Place(s, user, t, asks))
    case BulkStep(user, requests, lockOrder) => Commit(s, PlaceBulk(s, user, requests, lockOrder))
    case CancelStep(user, id) => Settled(s, Cancel(s, user, id))
    case ModifyStep(user, id, price, quantity) => Commit(s, Modify(s, user, id, price, quantity))
    case MatchStep(taker, m) => Settled(s, Match(s, taker, m))
    case TriggerStep(id, asks) => Trigger(s, id, asks)
    case AdminStep(k, delta) => Settled(s, Administer(s, k, delta))
  }

  ghost predicate CanRunAll(steps: seq<Step>) {
    forall i :: 0 <= i < |steps| ==> CanRun(steps[i])
  }

  function Run(s: State, steps: seq<Step>): State
    requires CanRunAll(steps)
  {
    if steps == [] then s
    else Apply(Run(s, steps[..|steps| - 1]), steps[|steps| - 1])
  }
}
