/** The resting-order book of one symbol: two sorted sets of order ids keyed by score. */
module OrderBook {
  import opened Domain
  import opened ScoreCodec

  datatype Entry = Entry(score: nat, id: nat)

  // ---------- Sorted sets ----------

  function Digits(n: nat): seq<nat> {
    if n < 10 then [n] else Digits(n / 10) + [n % 10]
  }

  predicate DigitsBefore(a: seq<nat>, b: seq<nat>) {
    b != [] && (a == [] || a[0] < b[0] || (a[0] == b[0] && DigitsBefore(a[1..], b[1..])))
  }

  /** Members of equal score are ordered as strings. */
  predicate Before(e: Entry, f: Entry) {
    e.score < f.score || (e.score == f.score && DigitsBefore(Digits(e.id), Digits(f.id)))
  }

  function Insert(z: seq<Entry>, e: Entry): seq<Entry> {
    if z == [] || Before(e, z[0]) then [e] + z else [z[0]] + Insert(z[1..], e)
  }

  function ZRem(z: seq<Entry>, id: nat): seq<Entry> {
    if z == [] then []
    else if z[0].id == id then ZRem(z[1..], id)
    else [z[0]] + ZRem(z[1..], id)
  }

  /** ZADD replaces the score of a member that is already present. */
  function ZAdd(z: seq<Entry>, e: Entry): seq<Entry> {
    Insert(ZRem(z, e.id), e)
  }

  // ---------- The book ----------

  datatype Book = Book(bids: seq<Entry>, asks: seq<Entry>, counter: nat)

  datatype BookOp = Add(id: nat, side: Side, ticks: nat) | Remove(id: nat, side: Side)

  function SideOf(b: Book, side: Side): seq<Entry> {
    if side == Buy then b.bids else b.asks
  }

  /** The counter is spent even when the score cannot be encoded. */
  function Perform(b: Book, op: BookOp): Book {
    match op
    case Add(id, side, ticks) =>
      var counted := b.(counter := b.counter + 1);
      (match EncodeScore(ticks, counted.counter % SCORE_MULTIPLIER)
       case Err(_) => counted
       case Ok(score) =>
         if side == Buy then counted.(bids := ZAdd(b.bids, Entry(score, id)))
         else counted.(asks := ZAdd(b.asks, Entry(score, id))))
    case Remove(id, side) =>
      if side == Buy then b.(bids := ZRem(b.bids, id)) else b.(asks := ZRem(b.asks, id))
  }

  class BookStore {
    var bids: seq<Entry>
    var asks: seq<Entry>
    var counter: nat

    constructor ()
      ensures View() == Book([], [], 0)
    {
      bids, asks, counter := [], [], 0;
    }

    function View(): Book
      reads this
    {
      Book(bids, asks, counter)
    }

    method NextSeq() returns (seqNo: nat)
      modifies this`counter
      ensures counter == old(counter) + 1 && seqNo == counter % 1_000_000
    {
      counter := counter + 1;
      seqNo := counter % SCORE_MULTIPLIER;
    }

    method AddRestingOrder(id: nat, side: Side, ticks: nat) returns (seqNo: Result<nat>)
      modifies this
      ensures View() == Perform(old(View()), Add(id, side, ticks))
      ensures seqNo.Ok? <==> ticks <= MAX_TICKS
      ensures seqNo.Ok? ==> seqNo.value == (old(counter) + 1) % SCORE_MULTIPLIER
    {
      var next := NextSeq();
      var score := EncodeScore(ticks, next);
      if score.Err? {
        return Err(score.error);
      }
      if side == Buy {
        bids := ZAdd(bids, Entry(score.value, id));
      } else {
        asks := ZAdd(asks, Entry(score.value, id));
      }
      return Ok(next);
    }

    method RemoveRestingOrder(id: nat, side: Side) returns (removed: bool)
      modifies this
      ensures View() == Perform(old(View()), Remove(id, side))
      ensures removed <==> |SideOf(View(), side)| < |SideOf(old(View()), side)|
    {
      ZRemShorter(SideOf(View(), side), id);
      var before := |SideOf(View(), side)|;
      if side == Buy {
        bids := ZRem(bids, id);
      } else {
        asks := ZRem(asks, id);
      }
      removed := |SideOf(View(), side)| < before;
    }

    /** The price and id of the lowest ask. */
    method BestAsk() returns (best: Option<(nat, nat)>)
      ensures best == if asks == [] then None else Some((DecodeScore(asks[0].score).0, asks[0].id))
    {
      if asks == [] {
        return None;
      }
      return Some((DecodeScore(asks[0].score).0, asks[0].id));
    }

    /** The price and id of the highest bid. */
    method BestBid() returns (best: Option<(nat, nat)>)
      ensures best == if bids == [] then None
        else Some((DecodeScore(bids[|bids| - 1].score).0, bids[|bids| - 1].id))
    {
      if bids == [] {
        return None;
      }
      return Some((DecodeScore(bids[|bids| - 1].score).0, bids[|bids| - 1].id));
    }

    /** Up to `limit` orders opposite to the taker, best first, without those whose hash is gone. */
    method OppositeOrders(taker: Side, limit: nat, hashes: set<nat>) returns (loaded: seq<Entry>)
      ensures loaded == WithHash(FirstOf(ServiceView(View(), taker), limit), hashes)
    {
      var raw := FirstOf(ServiceView(View(), taker), limit);
      loaded := [];
      for i := 0 to |raw|
        invariant loaded == WithHash(raw[..i], hashes)
      {
        assert raw[..i + 1][..i] == raw[..i];
        if raw[i].id in hashes {
          loaded := loaded + [raw[i]];
        }
      }
      assert raw[..|raw|] == raw;
    }
  }

  function FirstOf(z: seq<Entry>, limit: nat): seq<Entry> {
    if |z| <= limit then z else z[..limit]
  }

  function Reversed(z: seq<Entry>): seq<Entry> {
    if z == [] then [] else Reversed(z[1..]) + [z[0]]
  }

  function WithHash(z: seq<Entry>, hashes: set<nat>): seq<Entry> {
    if z == [] then []
    else WithHash(z[..|z| - 1], hashes) + (if z[|z| - 1].id in hashes then [z[|z| - 1]] else [])
  }

  // ---------- Sorted-set lemmas ----------

  ghost predicate Sorted(z: seq<Entry>) {
    forall i, j :: 0 <= i < j < |z| ==> z[i].score < z[j].score
  }

  /** The head of a sorted set is below everything after it. */
  lemma HeadIsLeast(z: seq<Entry>, f: Entry)
    requires Sorted(z) && z != [] && f in z[1..]
    ensures z[0].score < f.score
  {
    var k :| 0 <= k < |z| - 1 && z[1..][k] == f;
    assert z[k + 1] == f;
  }

  lemma SortedCons(head: Entry, rest: seq<Entry>)
    requires Sorted(rest) && forall f :: f in rest ==> head.score < f.score
    ensures Sorted([head] + rest)
  {
    forall j | 0 <= j < |rest| ensures head.score < rest[j].score {
      assert rest[j] in rest;
    }
  }

  lemma {:induction false} InsertKeeps(z: seq<Entry>, e: Entry)
    requires Sorted(z) && forall f :: f in z ==> f.score != e.score
    ensures Sorted(Insert(z, e)) && |Insert(z, e)| == |z| + 1
    ensures forall f :: f in Insert(z, e) <==> f == e || f in z
  {
    hide Digits, DigitsBefore;
    if z != [] {
      forall f | f in z[1..] ensures z[0].score < f.score { HeadIsLeast(z, f); }
      assert forall f :: f in z <==> f == z[0] || f in z[1..];
      assert z[0] in z;
      if Before(e, z[0]) {
        SortedCons(e, z);
      } else {
        InsertKeeps(z[1..], e);
        SortedCons(z[0], Insert(z[1..], e));
      }
    }
  }

  lemma {:induction false} ZRemKeeps(z: seq<Entry>, id: nat)
    requires Sorted(z)
    ensures Sorted(ZRem(z, id))
    ensures forall f :: f in ZRem(z, id) <==> f in z && f.id != id
  {
    if z != [] {
      ZRemKeeps(z[1..], id);
      assert forall f :: f in z <==> f == z[0] || f in z[1..];
      forall f | f in z[1..] ensures z[0].score < f.score { HeadIsLeast(z, f); }
      if z[0].id != id { SortedCons(z[0], ZRem(z[1..], id)); }
    }
  }

  lemma {:induction false} ZRemShorter(z: seq<Entry>, id: nat)
    ensures |ZRem(z, id)| <= |z|
  {
    if z != [] { ZRemShorter(z[1..], id); }
  }

  // ---------- The ideal book ----------

  /** An order at rest: its price and its place in the order of arrival. */
  datatype Rest = Rest(id: nat, ticks: nat, arrival: nat)

  function Run(ops: seq<BookOp>): Book {
    if ops == [] then Book([], [], 0) else Perform(Run(ops[..|ops| - 1]), ops[|ops| - 1])
  }

  function Arrivals(ops: seq<BookOp>): nat {
    if ops == [] then 0 else Arrivals(ops[..|ops| - 1]) + if ops[|ops| - 1].Add? then 1 else 0
  }

  /** The orders resting on a side after the operations; adding an id again moves it to the back. */
  function RestingOn(ops: seq<BookOp>, side: Side): set<Rest> {
    if ops == [] then {}
    else
      var before, op := RestingOn(ops[..|ops| - 1], side), ops[|ops| - 1];
      if op.side != side then before
      else
        var kept := set r | r in before && r.id != op.id;
        if op.Add? then kept + {Rest(op.id, op.ticks, Arrivals(ops))} else kept
  }

  /** Every score of the run is exact and the counter does not wrap. */
  ghost predicate InExactRange(ops: seq<BookOp>) {
    Arrivals(ops) < SCORE_MULTIPLIER &&
    forall i :: 0 <= i < |ops| && ops[i].Add? ==> Pack(ops[i].ticks, SCORE_MULTIPLIER - 1) <= EXACT
  }

  function EntryOf(r: Rest): Entry {
    Entry(Pack(r.ticks, r.arrival), r.id)
  }

  function RestOf(e: Entry): Rest {
    Rest(e.id, DecodeScore(e.score).0, DecodeScore(e.score).1)
  }

  /** The sorted set holds exactly the resting orders. */
  ghost predicate Holds(z: seq<Entry>, resting: set<Rest>) {
    (forall r :: r in resting ==> r.arrival < SCORE_MULTIPLIER && EntryOf(r) in z) &&
    (forall e :: e in z ==> RestOf(e) in resting && EntryOf(RestOf(e)) == e)
  }

  lemma EntryRest(r: Rest)
    requires r.arrival < SCORE_MULTIPLIER
    ensures RestOf(EntryOf(r)) == r
  {
    PackSplits(r.ticks, r.arrival);
  }

  lemma HoldsRem(z: seq<Entry>, resting: set<Rest>, id: nat)
    requires Sorted(z) && Holds(z, resting)
    ensures Sorted(ZRem(z, id)) && Holds(ZRem(z, id), set r | r in resting && r.id != id)
  {
    ZRemKeeps(z, id);
  }

  lemma HoldsAdd(z: seq<Entry>, resting: set<Rest>, r: Rest)
    requires Sorted(z) && Holds(z, resting) && r.arrival < SCORE_MULTIPLIER
    requires forall q :: q in resting ==> q.arrival < r.arrival
    ensures Sorted(ZAdd(z, EntryOf(r)))
    ensures Holds(ZAdd(z, EntryOf(r)), (set q | q in resting && q.id != r.id) + {r})
  {
    HoldsRem(z, resting, r.id);
    EntryRest(r);
    forall e | e in ZRem(z, r.id) ensures e.score != EntryOf(r).score {
      ZRemKeeps(z, r.id);
      assert RestOf(e) in resting;
    }
    InsertKeeps(ZRem(z, r.id), EntryOf(r));
  }

  /** In the exact range an add inserts the packed score itself. */
  lemma AddIsExact(b: Book, id: nat, side: Side, ticks: nat)
    requires b.counter + 1 < SCORE_MULTIPLIER && Pack(ticks, SCORE_MULTIPLIER - 1) <= EXACT
    ensures var e := EntryOf(Rest(id, ticks, b.counter + 1));
      Perform(b, Add(id, side, ticks)) ==
        if side == Buy then Book(ZAdd(b.bids, e), b.asks, b.counter + 1)
        else Book(b.bids, ZAdd(b.asks, e), b.counter + 1)
  {
    hide ToDouble;
    ExactBelow(Pack(ticks, b.counter + 1));
  }

  lemma {:induction false} RunHoldsResting(ops: seq<BookOp>, side: Side)
    requires InExactRange(ops)
    ensures Run(ops).counter == Arrivals(ops)
    ensures Sorted(SideOf(Run(ops), side)) && Holds(SideOf(Run(ops), side), RestingOn(ops, side))
    ensures forall r :: r in RestingOn(ops, side) ==> r.arrival <= Arrivals(ops)
  {
    hide ToDouble, EncodeScore, ZAdd, ZRem, Pack;
    if ops != [] {
      var front, op := ops[..|ops| - 1], ops[|ops| - 1];
      RunHoldsResting(front, side);
      var z, resting := SideOf(Run(front), side), RestingOn(front, side);
      if op.Add? {
        AddIsExact(Run(front), op.id, op.side, op.ticks);
        if op.side == side { HoldsAdd(z, resting, Rest(op.id, op.ticks, Arrivals(ops))); }
      } else if op.side == side {
        HoldsRem(z, resting, op.id);
      }
    }
  }

  // ---------- Theorems ----------

  predicate ServedBefore(r: Rest, q: Rest) {
    r.ticks < q.ticks || (r.ticks == q.ticks && r.arrival < q.arrival)
  }

  lemma ScoreOrder(x: nat, y: nat)
    requires x < y
    ensures var (p, m) := DecodeScore(x); var (q, n) := DecodeScore(y); p < q || (p == q && m < n)
  {
  }

  /** The set lists exactly the resting orders, each once, in increasing (price, arrival). */
  lemma HeldInOrder(z: seq<Entry>, resting: set<Rest>)
    requires Sorted(z) && Holds(z, resting)
    ensures forall r :: r in resting <==> exists i :: 0 <= i < |z| && RestOf(z[i]) == r
    ensures forall i, j :: 0 <= i < j < |z| ==> ServedBefore(RestOf(z[i]), RestOf(z[j]))
  {
    forall r | r in resting ensures exists i :: 0 <= i < |z| && RestOf(z[i]) == r {
      EntryRest(r);
      var i :| 0 <= i < |z| && z[i] == EntryOf(r);
    }
    forall i | 0 <= i < |z| ensures RestOf(z[i]) in resting {
      assert z[i] in z;
    }
    forall i, j | 0 <= i < j < |z| ensures ServedBefore(RestOf(z[i]), RestOf(z[j])) {
      ScoreOrder(z[i].score, z[j].score);
    }
  }

  lemma EndsAreExtreme(z: seq<Entry>, resting: set<Rest>)
    requires Sorted(z) && Holds(z, resting)
    ensures z == [] <==> resting == {}
    ensures z != [] ==> RestOf(z[0]) in resting && RestOf(z[|z| - 1]) in resting
    ensures z != [] ==> forall r :: r in resting && r != RestOf(z[0]) ==> ServedBefore(RestOf(z[0]), r)
    ensures z != [] ==> forall r :: r in resting && r != RestOf(z[|z| - 1]) ==> ServedBefore(r, RestOf(z[|z| - 1]))
  {
    hide DecodeScore, Pack;
    HeldInOrder(z, resting);
    if z != [] {
      assert z[0] in z && z[|z| - 1] in z;
      forall r | r in resting
        ensures r != RestOf(z[0]) ==> ServedBefore(RestOf(z[0]), r)
        ensures r != RestOf(z[|z| - 1]) ==> ServedBefore(r, RestOf(z[|z| - 1]))
      {
        var i :| 0 <= i < |z| && RestOf(z[i]) == r;
        if 0 < i { assert ServedBefore(RestOf(z[0]), RestOf(z[i])); }
        if i < |z| - 1 { assert ServedBefore(RestOf(z[i]), RestOf(z[|z| - 1])); }
      }
    } else {
      assert forall r :: r in resting ==> EntryOf(r) in z;
    }
  }

  /** After any run of adds and removes with exact scores and no wrap of the counter, the ask view
      lists exactly the resting sells, each once, by price and then by arrival. */
  lemma AsksByPriceThenTime(ops: seq<BookOp>)
    requires InExactRange(ops)
    ensures var asks := Run(ops).asks;
      (forall r :: r in RestingOn(ops, Sell) <==> exists i :: 0 <= i < |asks| && RestOf(asks[i]) == r) &&
      forall i, j :: 0 <= i < j < |asks| ==> ServedBefore(RestOf(asks[i]), RestOf(asks[j]))
  {
    RunHoldsResting(ops, Sell);
    HeldInOrder(Run(ops).asks, RestingOn(ops, Sell));
  }

  /** The best ask is the resting sell with the lowest price, and the oldest at that price. */
  lemma BestAskIsLowest(ops: seq<BookOp>)
    requires InExactRange(ops)
    ensures Run(ops).asks == [] <==> RestingOn(ops, Sell) == {}
    ensures Run(ops).asks != [] ==>
      var best := RestOf(Run(ops).asks[0]);
      best in RestingOn(ops, Sell) && forall r :: r in RestingOn(ops, Sell) && r != best ==> ServedBefore(best, r)
  {
    RunHoldsResting(ops, Sell);
    EndsAreExtreme(Run(ops).asks, RestingOn(ops, Sell));
  }

  /** The best bid is the resting buy with the highest price, but the newest at that price: bids of
      one price are served last in, first out. */
  lemma BestBidIsHighestNewest(ops: seq<BookOp>)
    requires InExactRange(ops)
    ensures Run(ops).bids == [] <==> RestingOn(ops, Buy) == {}
    ensures Run(ops).bids != [] ==>
      var best := RestOf(Run(ops).bids[|Run(ops).bids| - 1]);
      best in RestingOn(ops, Buy) && forall r :: r in RestingOn(ops, Buy) && r != best ==> ServedBefore(r, best)
  {
    RunHoldsResting(ops, Buy);
    EndsAreExtreme(Run(ops).bids, RestingOn(ops, Buy));
  }

  // ---------- The list loaded for the matcher ----------

  lemma {:induction false} ReversedAt(z: seq<Entry>)
    ensures |Reversed(z)| == |z| && forall i :: 0 <= i < |z| ==> Reversed(z)[i] == z[|z| - 1 - i]
  {
    if z != [] { ReversedAt(z[1..]); }
  }

  /** What the matcher loads from: the other side, best price first. */
  function ServiceView(b: Book, taker: Side): seq<Entry> {
    if taker == Buy then b.asks else Reversed(b.bids)
  }

  /** A buyer is served by the cheapest and oldest ask, a seller by the dearest and newest bid. */
  predicate ServesFirst(taker: Side, r: Rest, q: Rest) {
    if taker == Buy then ServedBefore(r, q) else ServedBefore(q, r)
  }

  ghost predicate InServiceOrder(taker: Side, z: seq<Entry>) {
    forall i, j :: 0 <= i < j < |z| ==> ServesFirst(taker, RestOf(z[i]), RestOf(z[j]))
  }

  /** Dropping the orders whose hash is gone keeps exactly the others, in their order. */
  lemma {:induction false} WithHashKeeps(taker: Side, z: seq<Entry>, hashes: set<nat>)
    ensures forall e :: e in WithHash(z, hashes) <==> e in z && e.id in hashes
    ensures InServiceOrder(taker, z) ==> InServiceOrder(taker, WithHash(z, hashes))
  {
    hide RestOf, ServesFirst;
    if z != [] {
      var front, last := z[..|z| - 1], z[|z| - 1];
      WithHashKeeps(taker, front, hashes);
      if InServiceOrder(taker, z) {
        var kept := WithHash(front, hashes);
        forall i | 0 <= i < |kept| ensures ServesFirst(taker, RestOf(kept[i]), RestOf(last)) {
          assert kept[i] in front;
          var j :| 0 <= j < |front| && front[j] == kept[i];
          assert ServesFirst(taker, RestOf(z[j]), RestOf(z[|z| - 1]));
        }
      }
    }
  }

  ghost predicate ListsAll(z: seq<Entry>, resting: set<Rest>) {
    forall r :: r in resting <==> exists i :: 0 <= i < |z| && RestOf(z[i]) == r
  }

  lemma BidsReversed(z: seq<Entry>, resting: set<Rest>)
    requires InServiceOrder(Buy, z) && ListsAll(z, resting)
    ensures InServiceOrder(Sell, Reversed(z)) && ListsAll(Reversed(z), resting)
  {
    hide RestOf, ServesFirst;
    var view := Reversed(z);
    ReversedAt(z);
    forall i, j | 0 <= i < j < |view| ensures ServesFirst(Sell, RestOf(view[i]), RestOf(view[j])) {
      assert ServesFirst(Buy, RestOf(z[|z| - 1 - j]), RestOf(z[|z| - 1 - i]));
      ServesBackwards(RestOf(view[i]), RestOf(view[j]));
    }
    forall r | r in resting ensures exists i :: 0 <= i < |view| && RestOf(view[i]) == r {
      var i :| 0 <= i < |z| && RestOf(z[i]) == r;
      assert RestOf(view[|z| - 1 - i]) == r;
    }
    forall i | 0 <= i < |view| ensures RestOf(view[i]) in resting {
      assert RestOf(view[i]) == RestOf(z[|z| - 1 - i]);
    }
  }

  lemma ServesBackwards(r: Rest, q: Rest)
    ensures ServesFirst(Sell, r, q) <==> ServesFirst(Buy, q, r)
  {
  }

  lemma ViewInOrder(ops: seq<BookOp>, taker: Side)
    requires InExactRange(ops)
    ensures InServiceOrder(taker, ServiceView(Run(ops), taker))
    ensures ListsAll(ServiceView(Run(ops), taker), RestingOn(ops, Opposite(taker)))
  {
    hide RestOf, Run, RestingOn, Holds, Sorted, ListsAll;
    var z, resting := SideOf(Run(ops), Opposite(taker)), RestingOn(ops, Opposite(taker));
    RunHoldsResting(ops, Opposite(taker));
    HeldInService(z, resting);
    if taker == Sell { BidsReversed(z, resting); }
  }

  lemma HeldInService(z: seq<Entry>, resting: set<Rest>)
    requires Sorted(z) && Holds(z, resting)
    ensures InServiceOrder(Buy, z) && ListsAll(z, resting)
  {
    hide RestOf, Sorted, Holds;
    HeldInOrder(z, resting);
  }

  /** After any run with exact scores and no wrap the matcher loads the best orders of the other side
      in service order, asks oldest first and bids newest first within a price, up to the limit and
      without those whose hash is gone: whatever rests beyond the limit is served later. */
  lemma LoadedAreBest(ops: seq<BookOp>, taker: Side, limit: nat, hashes: set<nat>)
    requires InExactRange(ops)
    ensures var raw := FirstOf(ServiceView(Run(ops), taker), limit);
      var loaded := WithHash(raw, hashes);
      InServiceOrder(taker, loaded) && |raw| <= limit &&
      (forall e :: e in loaded <==> e in raw && e.id in hashes) &&
      (forall e :: e in raw ==> RestOf(e) in RestingOn(ops, Opposite(taker))) &&
      (forall r, e :: r in RestingOn(ops, Opposite(taker)) && e in raw ==>
         ServesFirst(taker, RestOf(e), r) || exists i :: 0 <= i < |raw| && RestOf(raw[i]) == r) &&
      (|raw| < limit ==> forall r :: r in RestingOn(ops, Opposite(taker)) ==>
         exists i :: 0 <= i < |raw| && RestOf(raw[i]) == r)
  {
    hide RestOf, ServesFirst, Run, RestingOn;
    var view := ServiceView(Run(ops), taker);
    var raw := FirstOf(view, limit);
    ViewInOrder(ops, taker);
    WithHashKeeps(taker, raw, hashes);
    forall r, e | r in RestingOn(ops, Opposite(taker)) && e in raw
      ensures ServesFirst(taker, RestOf(e), r) || exists i :: 0 <= i < |raw| && RestOf(raw[i]) == r
    {
      var i :| 0 <= i < |view| && RestOf(view[i]) == r;
      var j :| 0 <= j < |raw| && raw[j] == e;
      if i < |raw| {
        assert RestOf(raw[i]) == r;
      } else {
        assert ServesFirst(taker, RestOf(view[j]), RestOf(view[i]));
      }
    }
    forall e | e in raw ensures RestOf(e) in RestingOn(ops, Opposite(taker)) {
      var j :| 0 <= j < |raw| && raw[j] == e;
      assert RestOf(view[j]) == RestOf(e);
    }
  }

  /** Two bids of one price: the second is the best. */
  lemma NewestBidIsBest()
    ensures var bids := Run([Add(1, Buy, 100), Add(2, Buy, 100)]).bids;
      bids != [] && bids[|bids| - 1].id == 2
  {
    hide ToDouble, ZAdd, Insert;
    var ops := [Add(1, Buy, 100), Add(2, Buy, 100)];
    BestBidIsHighestNewest(ops);
    TwoBidsRest(ops);
    assert Rest(2, 100, 2) in RestingOn(ops, Buy);
  }

  lemma TwoBidsRest(ops: seq<BookOp>)
    requires ops == [Add(1, Buy, 100), Add(2, Buy, 100)]
    ensures RestingOn(ops, Buy) == {Rest(1, 100, 1), Rest(2, 100, 2)} && Arrivals(ops) == 2
  {
    assert ops[..1] == [Add(1, Buy, 100)] && ops[..1][..0] == [];
    assert RestingOn([], Buy) == {} && Arrivals([]) == 0;
    assert Arrivals(ops[..1]) == 1;
    assert RestingOn(ops[..1], Buy) == {Rest(1, 100, 1)};
  }

  // ---------- Any run, exact scores or not ----------

  lemma {:induction false} DigitsTotal(a: seq<nat>, b: seq<nat>)
    ensures a != b ==> DigitsBefore(a, b) || DigitsBefore(b, a)
    ensures !(DigitsBefore(a, b) && DigitsBefore(b, a)) && !DigitsBefore(a, a)
  {
    if a != [] && b != [] && a[0] == b[0] {
      assert a == [a[0]] + a[1..] && b == [b[0]] + b[1..];
      DigitsTotal(a[1..], b[1..]);
    }
    if a != [] { DigitsTotal(a[1..], a[1..]); }
  }

  lemma {:induction false} DigitsTransitive(a: seq<nat>, b: seq<nat>, c: seq<nat>)
    requires DigitsBefore(a, b) && DigitsBefore(b, c)
    ensures DigitsBefore(a, c)
  {
    if a != [] && a[0] == b[0] == c[0] { DigitsTransitive(a[1..], b[1..], c[1..]); }
  }

  lemma {:induction false} DigitsInjective(m: nat, n: nat)
    requires Digits(m) == Digits(n)
    ensures m == n
  {
    DigitsNonEmpty(m / 10);
    DigitsNonEmpty(n / 10);
    if m >= 10 && n >= 10 {
      assert Digits(m)[..|Digits(m)| - 1] == Digits(m / 10) && Digits(n)[..|Digits(n)| - 1] == Digits(n / 10);
      DigitsInjective(m / 10, n / 10);
      assert Digits(m)[|Digits(m)| - 1] == m % 10 && Digits(n)[|Digits(n)| - 1] == n % 10;
    }
  }

  lemma DigitsNonEmpty(n: nat)
    ensures Digits(n) != []
  {
  }

  /** Entries of different ids are ordered one way or the other. */
  lemma BeforeTotal(e: Entry, f: Entry)
    requires e.id != f.id
    ensures Before(e, f) <==> !Before(f, e)
  {
    if Digits(e.id) == Digits(f.id) { DigitsInjective(e.id, f.id); }
    DigitsTotal(Digits(e.id), Digits(f.id));
  }

  lemma BeforeTransitive(e: Entry, f: Entry, g: Entry)
    requires Before(e, f) && Before(f, g)
    ensures Before(e, g)
  {
    if e.score == f.score == g.score { DigitsTransitive(Digits(e.id), Digits(f.id), Digits(g.id)); }
  }

  /** Strictly ordered by score and then by the string of the id, each id once. */
  ghost predicate InOrder(z: seq<Entry>) {
    forall i, j :: 0 <= i < j < |z| ==> Before(z[i], z[j]) && z[i].id != z[j].id
  }

  lemma InOrderCons(head: Entry, rest: seq<Entry>)
    requires InOrder(rest) && forall f :: f in rest ==> Before(head, f) && head.id != f.id
    ensures InOrder([head] + rest)
  {
    hide Before;
    forall j | 0 <= j < |rest| ensures Before(head, rest[j]) && head.id != rest[j].id {
      assert rest[j] in rest;
    }
  }

  lemma HeadIsFirst(z: seq<Entry>, f: Entry)
    requires InOrder(z) && z != [] && f in z[1..]
    ensures Before(z[0], f) && z[0].id != f.id && InOrder(z[1..])
  {
    hide Before;
    var k :| 0 <= k < |z| - 1 && z[1..][k] == f;
    assert z[k + 1] == f;
  }

  lemma {:induction false} InsertInOrder(z: seq<Entry>, e: Entry)
    requires InOrder(z) && forall f :: f in z ==> f.id != e.id
    ensures InOrder(Insert(z, e)) && forall f :: f in Insert(z, e) <==> f == e || f in z
  {
    hide Before;
    if z != [] {
      forall f | f in z[1..] ensures Before(z[0], f) && z[0].id != f.id { HeadIsFirst(z, f); }
      assert forall f :: f in z <==> f == z[0] || f in z[1..];
      assert z[0] in z;
      if Before(e, z[0]) {
        forall f | f in z[1..] ensures Before(e, f) { BeforeTransitive(e, z[0], f); }
        InOrderCons(e, z);
      } else {
        BeforeTotal(e, z[0]);
        InsertInOrder(z[1..], e);
        InOrderCons(z[0], Insert(z[1..], e));
      }
    } else {
      InOrderCons(e, []);
    }
  }

  lemma {:induction false} ZRemInOrder(z: seq<Entry>, id: nat)
    requires InOrder(z)
    ensures InOrder(ZRem(z, id)) && forall f :: f in ZRem(z, id) <==> f in z && f.id != id
  {
    hide Before;
    if z != [] {
      forall f | f in z[1..] ensures Before(z[0], f) && z[0].id != f.id { HeadIsFirst(z, f); }
      assert forall f :: f in z <==> f == z[0] || f in z[1..];
      ZRemInOrder(z[1..], id);
      if z[0].id != id { InOrderCons(z[0], ZRem(z[1..], id)); }
    }
  }

  /** After any run whatever, each side is ordered by score, equal scores by the string of the id, with each
      id once; so the decoded prices never fall along the asks or rise along the bids read backwards. */
  lemma {:induction false} RunIsInOrder(ops: seq<BookOp>, side: Side)
    ensures InOrder(SideOf(Run(ops), side))
    ensures var z := SideOf(Run(ops), side);
      forall i, j :: 0 <= i < j < |z| ==>
        z[i].score <= z[j].score && DecodeScore(z[i].score).0 <= DecodeScore(z[j].score).0
  {
    hide EncodeScore, Before, Insert, ZRem;
    if ops != [] {
      var front, op := ops[..|ops| - 1], ops[|ops| - 1];
      RunIsInOrder(front, side);
      var z := SideOf(Run(front), side);
      ZRemInOrder(z, op.id);
      var encoded := EncodeScore(if op.Add? then op.ticks else 0, (Run(front).counter + 1) % SCORE_MULTIPLIER);
      if encoded.Ok? { InsertInOrder(ZRem(z, op.id), Entry(encoded.value, op.id)); }
    }
    var after := SideOf(Run(ops), side);
    forall i, j | 0 <= i < j < |after|
      ensures after[i].score <= after[j].score && DecodeScore(after[i].score).0 <= DecodeScore(after[j].score).0
    {
      BeforeByScore(after[i], after[j]);
    }
  }

  lemma BeforeByScore(e: Entry, f: Entry)
    requires Before(e, f)
    ensures e.score <= f.score && DecodeScore(e.score).0 <= DecodeScore(f.score).0
  {
  }

  /** Equal scores are ordered as strings: order 10 comes before order 9. */
  lemma TenBeforeNine(score: nat)
    ensures Before(Entry(score, 10), Entry(score, 9))
  {
    assert Digits(1) == [1] && Digits(10) == [1, 0] && Digits(9) == [9];
  }
}
