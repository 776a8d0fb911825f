/** Trailing stops: their state, its mirror in a sorted set, and the monitor that moves them. */
module TrailingStops {
  import opened Domain

  datatype Trail = Trail(side: Side, isPct: bool, delta: real, extreme: real, trigger: real)

  /** `scores` is the sorted set; `high` and `low` are the extremes the monitor has seen. */
  datatype Monitor = Monitor(scores: map<nat, real>, states: map<nat, Trail>, high: Option<real>, low: Option<real>)

  const SCORE_SCALE := 1000000.0

  /** The factor of a percentage offset: below the market for a sell, above it for a buy. */
  function Factor(t: Trail): real {
    if t.side == Sell then 1.0 - t.delta / 100.0 else 1.0 + t.delta / 100.0
  }

  /** The trigger that belongs to an extreme. */
  function Offset(t: Trail, extreme: real): real {
    if t.isPct then extreme * Factor(t)
    else if t.side == Sell then extreme - t.delta
    else extreme + t.delta
  }

  /** Does a new extreme of the market move this stop? */
  predicate Moves(t: Trail, newHigh: Option<real>, newLow: Option<real>) {
    if t.side == Sell then newHigh.Some? && newHigh.value > t.extreme else newLow.Some? && newLow.value < t.extreme
  }

  function Updated(t: Trail, newHigh: Option<real>, newLow: Option<real>): Trail {
    if !Moves(t, newHigh, newLow) then t
    else
      var extreme := if t.side == Sell then newHigh.value else newLow.value;
      t.(extreme := extreme, trigger := Offset(t, extreme))
  }

  function Register(m: Monitor, id: nat, t: Trail): Monitor {
    m.(scores := m.scores[id := t.trigger * SCORE_SCALE], states := m.states[id := t])
  }

  function Unregister(m: Monitor, id: nat): Monitor {
    m.(scores := m.scores - {id}, states := m.states - {id})
  }

  /** Move those stops among `ids` that are in the sorted set and have a state. */
  function MoveAmong(m: Monitor, ids: set<nat>, newHigh: Option<real>, newLow: Option<real>): Monitor {
    m.(states := map id | id in m.states ::
         if id in ids && id in m.scores then Updated(m.states[id], newHigh, newLow) else m.states[id],
       scores := map id | id in m.scores ::
         if id in ids && id in m.states && Moves(m.states[id], newHigh, newLow)
         then Updated(m.states[id], newHigh, newLow).trigger * SCORE_SCALE else m.scores[id])
  }

  /** Which stops among `ids` move. */
  function Moved(m: Monitor, ids: set<nat>, newHigh: Option<real>, newLow: Option<real>): set<nat> {
    set id | id in ids && id in m.states && Moves(m.states[id], newHigh, newLow)
  }

  function UpdateExtremes(m: Monitor, newHigh: Option<real>, newLow: Option<real>): Monitor {
    MoveAmong(m, m.scores.Keys, newHigh, newLow)
  }

  function NewHigh(m: Monitor, price: real): Option<real> {
    if m.high == None || price > m.high.value then Some(price) else None
  }

  function NewLow(m: Monitor, price: real): Option<real> {
    if m.low == None || price < m.low.value then Some(price) else None
  }

  /** A zero extreme is not passed on. */
  function Passed(extreme: Option<real>): Option<real> {
    if extreme == Some(0.0) then None else extreme
  }

  /** The trailing part of processing one trade print. */
  function OnPrint(m: Monitor, price: real): Monitor {
    var high, low := NewHigh(m, price), NewLow(m, price);
    var seen := m.(high := if high.Some? then high else m.high, low := if low.Some? then low else m.low);
    if high == None && low == None then seen else UpdateExtremes(seen, Passed(high), Passed(low))
  }

  const NO_STOPS := Monitor(map[], map[], None, None)

  class MonitorStore {
    var scores: map<nat, real>
    var states: map<nat, Trail>
    var high: Option<real>
    var low: Option<real>

    constructor ()
      ensures View() == NO_STOPS
    {
      scores, states, high, low := map[], map[], None, None;
    }

    function View(): Monitor
      reads this
    {
      Monitor(scores, states, high, low)
    }

    method RegisterTrailingStop(id: nat, t: Trail)
      modifies this
      ensures View() == Register(old(View()), id, t)
    {
      scores := scores[id := t.trigger * SCORE_SCALE];
      states := states[id := t];
    }

    method RemoveTrailingStop(id: nat) returns (removed: bool)
      modifies this
      ensures View() == Unregister(old(View()), id)
      ensures removed <==> id in old(scores)
    {
      removed := id in scores;
      scores := scores - {id};
      states := states - {id};
    }

    /** Rewrite one stop's state and score if the new extremes move it. */
    method MoveStop(id: nat, newHigh: Option<real>, newLow: Option<real>) returns (moved: bool)
      requires id in scores
      modifies this`scores, this`states
      ensures View() == MoveAmong(old(View()), {id}, newHigh, newLow)
      ensures moved <==> id in old(states) && Moves(old(states)[id], newHigh, newLow)
    {
      hide Offset, MoveAmong;
      MovesOne(View(), id, newHigh, newLow);
      moved := false;
      if id in states {
        var t := states[id];
        if t.side == Sell {
          if newHigh.Some? && newHigh.value > t.extreme {
            var trigger := Offset(t, newHigh.value);
            scores := scores[id := trigger * SCORE_SCALE];
            states := states[id := t.(extreme := newHigh.value, trigger := trigger)];
            moved := true;
          }
        } else {
          if newLow.Some? && newLow.value < t.extreme {
            var trigger := Offset(t, newLow.value);
            scores := scores[id := trigger * SCORE_SCALE];
            states := states[id := t.(extreme := newLow.value, trigger := trigger)];
            moved := true;
          }
        }
      }
    }

    /** Walk the members of the sorted set, in any order, and rewrite those that move. */
    method UpdateTrailingExtremes(newHigh: Option<real>, newLow: Option<real>) returns (updated: set<nat>)
      modifies this`scores, this`states
      ensures View() == UpdateExtremes(old(View()), newHigh, newLow)
      ensures updated == Moved(old(View()), old(scores).Keys, newHigh, newLow)
    {
      hide MoveAmong, Moves, Moved;
      var members := scores.Keys;
      ghost var done: set<nat> := {};
      updated := {};
      NothingMoves(View(), newHigh, newLow);
      while members != {}
        invariant members + done == old(scores).Keys && members !! done
        invariant View() == MoveAmong(old(View()), done, newHigh, newLow)
        invariant updated == Moved(old(View()), done, newHigh, newLow)
        decreases |members|
      {
        var id :| id in members;
        members := members - {id};
        MoveOneMore(old(View()), done, id, newHigh, newLow);
        MovedOneMore(old(View()), done, id, newHigh, newLow);
        done := done + {id};
        var moved := MoveStop(id, newHigh, newLow);
        if moved {
          updated := updated + {id};
        }
      }
      assert done == old(scores).Keys;
    }

    method ProcessPrint(price: real)
      modifies this
      ensures View() == OnPrint(old(View()), price)
    {
      var newHigh := if high == None || price > high.value then Some(price) else None;
      var newLow := if low == None || price < low.value then Some(price) else None;
      if newHigh.Some? {
        high := newHigh;
      }
      if newLow.Some? {
        low := newLow;
      }
      if newHigh.Some? || newLow.Some? {
        var passedHigh := if newHigh == Some(0.0) then None else newHigh;
        var passedLow := if newLow == Some(0.0) then None else newLow;
        var updated := UpdateTrailingExtremes(passedHigh, passedLow);
      }
    }
  }

  lemma NothingMoves(m: Monitor, newHigh: Option<real>, newLow: Option<real>)
    ensures MoveAmong(m, {}, newHigh, newLow) == m
    ensures Moved(m, {}, newHigh, newLow) == {}
  {
    hide Updated, Moves;
  }

  lemma MovesOne(m: Monitor, id: nat, newHigh: Option<real>, newLow: Option<real>)
    requires id in m.scores
    ensures MoveAmong(m, {id}, newHigh, newLow) ==
      if id in m.states && Moves(m.states[id], newHigh, newLow)
      then Register(m, id, Updated(m.states[id], newHigh, newLow))
      else m
  {
    hide Moves, Offset;
  }

  lemma MoveOneMore(m: Monitor, ids: set<nat>, id: nat, newHigh: Option<real>, newLow: Option<real>)
    requires id !in ids
    ensures var among := MoveAmong(m, ids, newHigh, newLow);
      MoveAmong(among, {id}, newHigh, newLow) == MoveAmong(m, ids + {id}, newHigh, newLow) &&
      (id in among.scores <==> id in m.scores) && (id in among.states <==> id in m.states) &&
      (id in m.states ==> among.states[id] == m.states[id])
  {
    hide Updated, Moves;
  }

  lemma MovedOneMore(m: Monitor, ids: set<nat>, id: nat, newHigh: Option<real>, newLow: Option<real>)
    ensures Moved(m, ids + {id}, newHigh, newLow) ==
      if id in m.states && Moves(m.states[id], newHigh, newLow) then Moved(m, ids, newHigh, newLow) + {id}
      else Moved(m, ids, newHigh, newLow)
  {
    hide Moves;
  }

  // ---------- Runs ----------

  datatype TrailOp = RegisterOp(id: nat, trail: Trail) | RemoveOp(id: nat) | PrintOp(price: real)

  function Perform(m: Monitor, op: TrailOp): Monitor {
    match op
    case RegisterOp(id, t) => Register(m, id, t)
    case RemoveOp(id) => Unregister(m, id)
    case PrintOp(price) => OnPrint(m, price)
  }

  function Run(m: Monitor, ops: seq<TrailOp>): Monitor {
    if ops == [] then m else Perform(Run(m, ops[..|ops| - 1]), ops[|ops| - 1])
  }

  /** The sorted set mirrors the triggers. */
  ghost predicate Mirrors(m: Monitor) {
    m.scores.Keys == m.states.Keys && forall id :: id in m.states ==> m.scores[id] == m.states[id].trigger * 1_000_000.0
  }

  /** Over any run the score of every trailing stop mirrors its trigger. */
  lemma {:induction false} RunKeepsMirror(m: Monitor, ops: seq<TrailOp>)
    requires Mirrors(m)
    ensures Mirrors(Run(m, ops))
  {
    if ops != [] { RunKeepsMirror(m, ops[..|ops| - 1]); }
  }

  /** Is the stop registered after the operations, and not removed since? */
  predicate IsRegistered(ops: seq<TrailOp>, id: nat) {
    if ops == [] then false
    else
      match ops[|ops| - 1]
      case RegisterOp(i, _) => i == id || IsRegistered(ops[..|ops| - 1], id)
      case RemoveOp(i) => i != id && IsRegistered(ops[..|ops| - 1], id)
      case PrintOp(_) => IsRegistered(ops[..|ops| - 1], id)
  }

  /** Over any run exactly the stops registered and not removed since have a state and a score. */
  lemma {:induction false} RunHoldsRegistered(ops: seq<TrailOp>, id: nat)
    ensures id in Run(NO_STOPS, ops).states <==> IsRegistered(ops, id)
    ensures id in Run(NO_STOPS, ops).scores <==> IsRegistered(ops, id)
  {
    hide Offset;
    if ops != [] { RunHoldsRegistered(ops[..|ops| - 1], id); }
  }

  /** A print of zero moves nothing as a high or as a low. */
  lemma ZeroMovesNothing(m: Monitor)
    ensures OnPrint(m, 0.0).states == m.states && OnPrint(m, 0.0).scores == m.scores
  {
    hide Offset;
  }

  // ---------- The ratchet ----------

  predicate ValidDelta(t: Trail) {
    t.isPct ==> 0.0 <= t.delta <= 100.0
  }

  /** The trigger lies delta below the extreme for a sell and delta above it for a buy, delta counted
      in price or in hundredths of the extreme. */
  predicate Attached(t: Trail) {
    var distance := if t.side == Sell then t.extreme - t.trigger else t.trigger - t.extreme;
    if t.isPct then distance * 100.0 == t.delta * t.extreme else distance == t.delta
  }

  lemma OffsetAttaches(t: Trail)
    ensures Attached(t) <==> t.trigger == Offset(t, t.extreme)
  {
    if t.isPct {
      OffsetIsScaled(t, t.extreme);
      PartOf(t.extreme, t.delta);
      assert Offset(t, t.extreme) ==
        if t.side == Sell then t.extreme - t.extreme * (t.delta / 100.0) else t.extreme + t.extreme * (t.delta / 100.0);
    }
  }

  lemma PartOf(extreme: real, delta: real)
    ensures extreme * (delta / 100.0) * 100.0 == delta * extreme
    ensures extreme * (1.0 - delta / 100.0) == extreme - extreme * (delta / 100.0)
    ensures extreme * (1.0 + delta / 100.0) == extreme + extreme * (delta / 100.0)
  {
  }

  /** The stop's protection never loosens between two states. */
  predicate Ratchets(before: Trail, after: Trail) {
    after.side == before.side &&
    (if before.side == Sell then before.extreme <= after.extreme && before.trigger <= after.trigger
     else after.extreme <= before.extreme && after.trigger <= before.trigger)
  }

  lemma OffsetMonotone(t: Trail, x: real, y: real)
    requires ValidDelta(t) && x <= y
    ensures Offset(t, x) <= Offset(t, y)
  {
    hide Offset, Factor;
    if t.isPct {
      OffsetIsScaled(t, x);
      OffsetIsScaled(t, y);
      FactorIsPositive(t);
      ScaleMonotone(x, y, Factor(t));
    } else {
      OffsetIsShifted(t, x, y);
    }
  }

  lemma OffsetIsShifted(t: Trail, x: real, y: real)
    requires !t.isPct
    ensures Offset(t, y) - Offset(t, x) == y - x
  {
  }

  lemma OffsetIsScaled(t: Trail, x: real)
    requires t.isPct
    ensures Offset(t, x) == x * Factor(t)
  {
  }

  lemma FactorIsPositive(t: Trail)
    requires ValidDelta(t) && t.isPct
    ensures 0.0 <= Factor(t)
  {
  }

  lemma ScaleMonotone(x: real, y: real, factor: real)
    requires x <= y && 0.0 <= factor
    ensures x * factor <= y * factor
  {
  }

  /** A print moves no extreme the wrong way, attaches the trigger of every stop it moves, and only
      tightens a stop that is attached. */
  lemma PrintRatchets(m: Monitor, price: real, id: nat)
    requires Mirrors(m) && id in m.states && ValidDelta(m.states[id])
    ensures id in OnPrint(m, price).states
    ensures var before, after := m.states[id], OnPrint(m, price).states[id];
      (if before.side == Sell then before.extreme <= after.extreme else after.extreme <= before.extreme) &&
      (after == before || Attached(after)) &&
      (Attached(before) ==> Attached(after) && Ratchets(before, after)) &&
      after.(extreme := 0.0, trigger := 0.0) == before.(extreme := 0.0, trigger := 0.0)
  {
    hide Offset, Attached;
    var before, after := m.states[id], OnPrint(m, price).states[id];
    OffsetAttaches(before);
    OffsetAttaches(after);
    if after != before {
      OffsetSame(before, after);
      if before.side == Sell { OffsetMonotone(before, before.extreme, after.extreme); }
      else { OffsetMonotone(before, after.extreme, before.extreme); }
    }
  }

  lemma OffsetSame(t: Trail, u: Trail)
    requires t.side == u.side && t.isPct == u.isPct && t.delta == u.delta
    ensures Offset(t, u.extreme) == Offset(u, u.extreme)
  {
  }

  ghost predicate LeavesAlone(ops: seq<TrailOp>, id: nat) {
    forall i :: 0 <= i < |ops| ==> !(ops[i].RegisterOp? && ops[i].id == id) && !(ops[i].RemoveOp? && ops[i].id == id)
  }

  /** From its first move on, as long as it stays registered, a trailing stop's trigger lies delta from
      its extreme, and it only ratchets, whatever else is registered, removed or printed. */
  lemma {:induction false} RunRatchets(m: Monitor, ops: seq<TrailOp>, id: nat)
    requires Mirrors(m) && id in m.states && ValidDelta(m.states[id]) && Attached(m.states[id]) && LeavesAlone(ops, id)
    ensures id in Run(m, ops).states && ValidDelta(Run(m, ops).states[id])
    ensures Attached(Run(m, ops).states[id]) && Ratchets(m.states[id], Run(m, ops).states[id])
  {
    hide Offset;
    if ops != [] {
      var front, op := ops[..|ops| - 1], ops[|ops| - 1];
      RunRatchets(m, front, id);
      RunKeepsMirror(m, front);
      if op.PrintOp? { PrintRatchets(Run(m, front), op.price, id); }
    }
  }

  /** Before the first move the promise can fail: a stop is registered with its trigger at its extreme,
      and the first move lowers a sell's trigger if and only if the market rose by less than
      delta. */
  lemma FirstMoveLowersIff(m: Monitor, id: nat, price: real)
    requires Mirrors(m) && id in m.states && 0.0 < price
    requires var t := m.states[id]; t.side == Sell && !t.isPct && t.trigger == t.extreme
    requires Moves(m.states[id], NewHigh(m, price), None)
    ensures OnPrint(m, price).states[id].trigger < m.states[id].trigger <==>
      price - m.states[id].extreme < m.states[id].delta
  {
  }

  /** Likewise a buy's first move raises its trigger if and only if the market fell by less than
      delta. */
  lemma FirstMoveRaisesIff(m: Monitor, id: nat, price: real)
    requires Mirrors(m) && id in m.states && 0.0 < price
    requires var t := m.states[id]; t.side == Buy && !t.isPct && t.trigger == t.extreme
    requires Moves(m.states[id], None, NewLow(m, price))
    ensures m.states[id].trigger < OnPrint(m, price).states[id].trigger <==>
      m.states[id].extreme - price < m.states[id].delta
  {
  }

  // ---------- Which extreme a stop ends up with ----------

  function Prints(prices: seq<real>): seq<TrailOp> {
    seq(|prices|, i requires 0 <= i < |prices| => PrintOp(prices[i]))
  }

  lemma PrintsStep(m: Monitor, prices: seq<real>)
    requires prices != []
    ensures Run(m, Prints(prices)) == OnPrint(Run(m, Prints(prices[..|prices| - 1])), prices[|prices| - 1])
  {
    assert Prints(prices)[..|prices| - 1] == Prints(prices[..|prices| - 1]);
  }

  lemma SellPrint(m: Monitor, price: real, id: nat)
    requires Mirrors(m) && id in m.states && m.states[id].side == Sell && 0.0 < price
    ensures var after := OnPrint(m, price);
      id in after.states && after.states[id].side == Sell &&
      after.high == Some(if m.high == None then price else Max(m.high.value, price)) &&
      after.states[id].extreme ==
        if m.high == None || price > m.high.value then Max(m.states[id].extreme, price) else m.states[id].extreme
  {
    hide Offset;
  }

  lemma BuyPrint(m: Monitor, price: real, id: nat)
    requires Mirrors(m) && id in m.states && m.states[id].side == Buy && 0.0 < price
    ensures var after := OnPrint(m, price);
      id in after.states && after.states[id].side == Buy &&
      after.low == Some(if m.low == None then price else Min(m.low.value, price)) &&
      after.states[id].extreme ==
        if m.low == None || price < m.low.value then Min(m.states[id].extreme, price) else m.states[id].extreme
  {
    hide Offset;
  }

  /** The extreme of a sell after any positive prints: the highest print counts exactly when it
      exceeds what the monitor had already seen. */
  lemma {:induction false} SellExtreme(m: Monitor, prices: seq<real>, id: nat)
    requires Mirrors(m) && id in m.states && m.states[id].side == Sell && prices != []
    requires forall i :: 0 <= i < |prices| ==> 0.0 < prices[i]
    ensures var after, top := Run(m, Prints(prices)), Highest(prices);
      Mirrors(after) && id in after.states && after.states[id].side == Sell &&
      after.high == Some(if m.high == None then top else Max(m.high.value, top)) &&
      after.states[id].extreme ==
        if m.high == None || top > m.high.value then Max(m.states[id].extreme, top) else m.states[id].extreme
  {
    hide OnPrint, Mirrors, Run;
    var front, price := prices[..|prices| - 1], prices[|prices| - 1];
    PrintsStep(m, prices);
    RunKeepsMirror(m, Prints(prices));
    if |prices| > 1 {
      SellExtreme(m, front, id);
    } else {
      NoPrints(m);
    }
    SellPrint(Run(m, Prints(front)), price, id);
  }

  lemma {:induction false} BuyExtreme(m: Monitor, prices: seq<real>, id: nat)
    requires Mirrors(m) && id in m.states && m.states[id].side == Buy && prices != []
    requires forall i :: 0 <= i < |prices| ==> 0.0 < prices[i]
    ensures var after, bottom := Run(m, Prints(prices)), Lowest(prices);
      Mirrors(after) && id in after.states && after.states[id].side == Buy &&
      after.low == Some(if m.low == None then bottom else Min(m.low.value, bottom)) &&
      after.states[id].extreme ==
        if m.low == None || bottom < m.low.value then Min(m.states[id].extreme, bottom) else m.states[id].extreme
  {
    hide OnPrint, Mirrors, Run;
    var front, price := prices[..|prices| - 1], prices[|prices| - 1];
    PrintsStep(m, prices);
    RunKeepsMirror(m, Prints(prices));
    if |prices| > 1 {
      BuyExtreme(m, front, id);
    } else {
      NoPrints(m);
    }
    BuyPrint(Run(m, Prints(front)), price, id);
  }

  lemma NoPrints(m: Monitor)
    ensures Run(m, Prints([])) == m
  {
    assert Prints([]) == [];
  }

  /** A sell stop tracks the highest price since its registration if and only if the monitor had seen
      nothing before, or is beaten by a later print, or no later print exceeds the stop's own
      initial extreme.  Registered before the first print, it always does. */
  lemma SellTracksHighestIff(m: Monitor, prices: seq<real>, id: nat)
    requires Mirrors(m) && id in m.states && m.states[id].side == Sell && prices != []
    requires forall i :: 0 <= i < |prices| ==> 0.0 < prices[i]
    ensures id in Run(m, Prints(prices)).states
    ensures Run(m, Prints(prices)).states[id].extreme == Max(m.states[id].extreme, Highest(prices)) <==>
      m.high == None || m.high.value < Highest(prices) || Highest(prices) <= m.states[id].extreme
  {
    SellExtreme(m, prices, id);
  }

  /** Likewise for a buy stop and the lowest price. */
  lemma BuyTracksLowestIff(m: Monitor, prices: seq<real>, id: nat)
    requires Mirrors(m) && id in m.states && m.states[id].side == Buy && prices != []
    requires forall i :: 0 <= i < |prices| ==> 0.0 < prices[i]
    ensures id in Run(m, Prints(prices)).states
    ensures Run(m, Prints(prices)).states[id].extreme == Min(m.states[id].extreme, Lowest(prices)) <==>
      m.low == None || Lowest(prices) < m.low.value || m.states[id].extreme <= Lowest(prices)
  {
    BuyExtreme(m, prices, id);
  }

  // ---------- Runs from the empty monitor that disappoint ----------

  /** A sell stop 10 below the market, registered at 100. */
  const SELL_AT_100 := Trail(Sell, false, 10.0, 100.0, 100.0)

  /** Registered at 100, a print of 105 lowers its trigger to 95. */
  lemma FirstMoveLowers()
    ensures var ops := [RegisterOp(1, SELL_AT_100), PrintOp(105.0)];
      1 in Run(NO_STOPS, ops).states && Run(NO_STOPS, ops).states[1].trigger == 95.0 < SELL_AT_100.trigger
  {
    var ops := [RegisterOp(1, SELL_AT_100), PrintOp(105.0)];
    assert ops[..1] == [RegisterOp(1, SELL_AT_100)] && ops[..1][..0] == [];
    var m := Register(NO_STOPS, 1, SELL_AT_100);
    assert Run(NO_STOPS, ops[..1]) == m && Run(NO_STOPS, ops) == OnPrint(m, 105.0);
  }

  /** After a print of 200 a stop registered at 100 does not see a print of 150. */
  lemma LateStopMissesHigh()
    ensures var ops := [PrintOp(200.0), RegisterOp(1, SELL_AT_100), PrintOp(150.0)];
      1 in Run(NO_STOPS, ops).states && Run(NO_STOPS, ops).states[1].extreme == 100.0
  {
    var ops := [PrintOp(200.0), RegisterOp(1, SELL_AT_100), PrintOp(150.0)];
    assert ops[..2] == [PrintOp(200.0), RegisterOp(1, SELL_AT_100)];
    assert ops[..2][..1] == [PrintOp(200.0)] && ops[..2][..1][..0] == [];
    var m := OnPrint(NO_STOPS, 200.0);
    assert Run(NO_STOPS, ops[..2][..1]) == m && Run(NO_STOPS, ops[..2]) == Register(m, 1, SELL_AT_100);
    assert Run(NO_STOPS, ops) == OnPrint(Register(m, 1, SELL_AT_100), 150.0);
  }

  // ---------- Candidates of a print ----------

  /** The two range queries of the print path, over either sorted set. */
  function Candidates(scores: map<nat, real>, price: real): set<nat> {
    (set id | id in scores && 0.0 <= scores[id] <= price * SCORE_SCALE) +
    (set id | id in scores && price * SCORE_SCALE <= scores[id])
  }

  /** At any price the print path attempts every registered stop with a non-negative score: the price
      and the side of the stop play no part. */
  lemma CandidatesAreAll(scores: map<nat, real>, price: real)
    requires 0.0 <= price
    ensures forall id :: id in Candidates(scores, price) <==> id in scores && 0.0 <= scores[id]
  {
  }

  /** Where the id first appears. */
  function FirstAt(members: seq<nat>, id: nat): nat {
    if members == [] || members[0] == id then 0 else 1 + FirstAt(members[1..], id)
  }

  lemma {:induction false} FirstAtIs(members: seq<nat>, i: nat)
    requires i < |members|
    ensures FirstAt(members, members[i]) <= i
    ensures members[i] !in members[..i] ==> FirstAt(members, members[i]) == i
  {
    if i > 0 && members[0] != members[i] {
      assert members[..i] == [members[0]] + members[1..][..i - 1];
      FirstAtIs(members[1..], i - 1);
    }
  }

  /** The joined query results, each id once, in order of first appearance. */
  method Deduplicate(members: seq<nat>) returns (result: seq<nat>)
    ensures forall id :: id in result <==> id in members
    ensures forall i, j :: 0 <= i < j < |result| ==> FirstAt(members, result[i]) < FirstAt(members, result[j])
  {
    var seen: set<nat> := {};
    result := [];
    for i := 0 to |members|
      invariant forall id :: id in seen <==> id in members[..i]
      invariant forall id :: id in result <==> id in seen
      invariant forall id :: id in result ==> FirstAt(members, id) < i
      invariant forall j, k :: 0 <= j < k < |result| ==> FirstAt(members, result[j]) < FirstAt(members, result[k])
    {
      FirstAtIs(members, i);
      if members[i] !in seen {
        seen := seen + {members[i]};
        result := result + [members[i]];
      }
    }
    assert members[..|members|] == members;
  }
}
