/** The three redundant indexes of open orders: per user, per user and symbol, and per symbol. */
module OpenOrderIndex {

  datatype Slot = Slot(user: nat, symbol: string)

  datatype Index = Index(byUser: map<nat, set<nat>>, bySlot: map<Slot, set<nat>>, bySymbol: map<string, set<nat>>)

  /** A missing key is an empty set. */
  function Members<K>(m: map<K, set<nat>>, k: K): set<nat> {
    if k in m then m[k] else {}
  }

  ghost predicate StrictlyIncreasing(ids: seq<nat>) {
    forall i, j :: 0 <= i < j < |ids| ==> ids[i] < ids[j]
  }

  /** `ids` lists the set in increasing order. */
  ghost predicate Lists(ids: seq<nat>, members: set<nat>) {
    StrictlyIncreasing(ids) && forall id :: id in ids <==> id in members
  }

  function InsertSorted(ids: seq<nat>, id: nat): seq<nat> {
    if ids == [] || id < ids[0] then [id] + ids
    else if id == ids[0] then ids
    else [ids[0]] + InsertSorted(ids[1..], id)
  }

  lemma HeadIsLeast(ids: seq<nat>, id: nat)
    requires StrictlyIncreasing(ids) && ids != [] && id in ids[1..]
    ensures ids[0] < id
  {
    var k :| 0 <= k < |ids| - 1 && ids[1..][k] == id;
    assert ids[k + 1] == id;
  }

  lemma IncreasingCons(head: nat, rest: seq<nat>)
    requires StrictlyIncreasing(rest) && forall id :: id in rest ==> head < id
    ensures StrictlyIncreasing([head] + rest)
  {
    forall j | 0 <= j < |rest| ensures head < rest[j] {
      assert rest[j] in rest;
    }
  }

  lemma {:induction false} InsertSortedLists(ids: seq<nat>, id: nat)
    requires StrictlyIncreasing(ids)
    ensures StrictlyIncreasing(InsertSorted(ids, id))
    ensures forall x :: x in InsertSorted(ids, id) <==> x in ids || x == id
  {
    if ids != [] {
      forall x | x in ids[1..] ensures ids[0] < x { HeadIsLeast(ids, x); }
      assert forall x :: x in ids <==> x == ids[0] || x in ids[1..];
      if id < ids[0] {
        IncreasingCons(id, ids);
      } else if ids[0] < id {
        InsertSortedLists(ids[1..], id);
        IncreasingCons(ids[0], InsertSorted(ids[1..], id));
      }
    }
  }

  // ---------- Membership in the three families ----------

  predicate InUser(ix: Index, u: nat, id: nat) {
    id in Members(ix.byUser, u)
  }

  predicate InSlot(ix: Index, t: Slot, id: nat) {
    id in Members(ix.bySlot, t)
  }

  predicate InSymbol(ix: Index, x: string, id: nat) {
    id in Members(ix.bySymbol, x)
  }

  // ---------- What the operations do, order by order ----------

  /** One order joins the three sets of its owner. */
  ghost predicate Added(before: Index, after: Index, s: Slot, id: nat) {
    (forall u, i :: InUser(after, u, i) <==> InUser(before, u, i) || (u == s.user && i == id)) &&
    (forall t, i :: InSlot(after, t, i) <==> InSlot(before, t, i) || (t == s && i == id)) &&
    (forall x, i :: InSymbol(after, x, i) <==> InSymbol(before, x, i) || (x == s.symbol && i == id))
  }

  ghost predicate Removed(before: Index, after: Index, s: Slot, id: nat) {
    (forall u, i :: InUser(after, u, i) <==> InUser(before, u, i) && !(u == s.user && i == id)) &&
    (forall t, i :: InSlot(after, t, i) <==> InSlot(before, t, i) && !(t == s && i == id)) &&
    (forall x, i :: InSymbol(after, x, i) <==> InSymbol(before, x, i) && !(x == s.symbol && i == id))
  }

  /** Draining one symbol of a user. */
  ghost predicate DrainedSlot(before: Index, after: Index, s: Slot) {
    (forall u, i :: InUser(after, u, i) <==> InUser(before, u, i) && !(u == s.user && InSlot(before, s, i))) &&
    (forall t, i :: InSlot(after, t, i) <==> InSlot(before, t, i) && t != s) &&
    (forall x, i :: InSymbol(after, x, i) <==> InSymbol(before, x, i) && !(x == s.symbol && InSlot(before, s, i)))
  }

  predicate HasSymbol(hashes: map<nat, string>, id: nat, symbol: string) {
    id in hashes && hashes[id] == symbol
  }

  /** Draining a user: the order hashes say from which symbol each drained order is removed. */
  ghost predicate DrainedUser(before: Index, after: Index, user: nat, hashes: map<nat, string>) {
    (forall u, i :: InUser(after, u, i) <==> InUser(before, u, i) && u != user) &&
    (forall t, i :: InSlot(after, t, i) <==>
       InSlot(before, t, i) && !(t.user == user && InUser(before, user, i) && HasSymbol(hashes, i, t.symbol))) &&
    (forall x, i :: InSymbol(after, x, i) <==>
       InSymbol(before, x, i) && !(InUser(before, user, i) && HasSymbol(hashes, i, x)))
  }

  class IndexStore {
    var byUser: map<nat, set<nat>>
    var bySlot: map<Slot, set<nat>>
    var bySymbol: map<string, set<nat>>

    constructor ()
      ensures View() == Index(map[], map[], map[])
    {
      byUser, bySlot, bySymbol := map[], map[], map[];
    }

    function View(): Index
      reads this
    {
      Index(byUser, bySlot, bySymbol)
    }

    method AddOpenOrder(s: Slot, id: nat)
      modifies this
      ensures Added(old(View()), View(), s, id)
    {
      byUser := byUser[s.user := Members(byUser, s.user) + {id}];
      bySlot := bySlot[s := Members(bySlot, s) + {id}];
      bySymbol := bySymbol[s.symbol := Members(bySymbol, s.symbol) + {id}];
    }

    method RemoveOpenOrder(s: Slot, id: nat)
      modifies this
      ensures Removed(old(View()), View(), s, id)
    {
      byUser := byUser[s.user := Members(byUser, s.user) - {id}];
      bySlot := bySlot[s := Members(bySlot, s) - {id}];
      bySymbol := bySymbol[s.symbol := Members(bySymbol, s.symbol) - {id}];
    }

    static method Sorted(members: set<nat>) returns (ids: seq<nat>)
      ensures Lists(ids, members)
    {
      var todo := members;
      ids := [];
      while todo != {}
        invariant todo <= members && StrictlyIncreasing(ids)
        invariant forall id :: id in ids <==> id in members && id !in todo
        decreases |todo|
      {
        var id :| id in todo;
        InsertSortedLists(ids, id);
        ids := InsertSorted(ids, id);
        todo := todo - {id};
      }
    }

    /** Drain one symbol's orders of the user. */
    method CancelAllOfSymbol(s: Slot) returns (ids: seq<nat>)
      modifies this
      ensures DrainedSlot(old(View()), View(), s)
      ensures Lists(ids, Members(old(bySlot), s))
    {
      var members := Members(bySlot, s);
      bySlot := bySlot - {s};
      var todo := members;
      while todo != {}
        invariant todo <= members && bySlot == old(bySlot) - {s}
        invariant forall u, i :: InUser(View(), u, i) <==>
          InUser(old(View()), u, i) && !(u == s.user && i in members && i !in todo)
        invariant forall x, i :: InSymbol(View(), x, i) <==>
          InSymbol(old(View()), x, i) && !(x == s.symbol && i in members && i !in todo)
        decreases |todo|
      {
        var id :| id in todo;
        todo := todo - {id};
        ghost var before := View();
        byUser := byUser[s.user := Members(byUser, s.user) - {id}];
        bySymbol := bySymbol[s.symbol := Members(bySymbol, s.symbol) - {id}];
        assert forall u, i :: InUser(View(), u, i) <==> InUser(before, u, i) && !(u == s.user && i == id);
        assert forall x, i :: InSymbol(View(), x, i) <==> InSymbol(before, x, i) && !(x == s.symbol && i == id);
      }
      ids := Sorted(members);
    }

    /** Take one order out of its symbol's two sets. */
    method RemoveFromSymbol(s: Slot, id: nat)
      modifies this`bySlot, this`bySymbol
      ensures forall t, i :: InSlot(View(), t, i) <==> InSlot(old(View()), t, i) && !(t == s && i == id)
      ensures forall x, i :: InSymbol(View(), x, i) <==> InSymbol(old(View()), x, i) && !(x == s.symbol && i == id)
    {
      bySlot := bySlot[s := Members(bySlot, s) - {id}];
      bySymbol := bySymbol[s.symbol := Members(bySymbol, s.symbol) - {id}];
    }

    /** Drain all orders of the user; an order without a hash stays in its symbol's sets. */
    method CancelAll(user: nat, hashes: map<nat, string>) returns (ids: seq<nat>)
      modifies this
      ensures DrainedUser(old(View()), View(), user, hashes)
      ensures Lists(ids, Members(old(byUser), user))
    {
      var members := Members(byUser, user);
      byUser := byUser - {user};
      var todo := members;
      while todo != {}
        invariant todo <= members && byUser == old(byUser) - {user}
        invariant forall t, i :: InSlot(View(), t, i) <==>
          InSlot(old(View()), t, i) && !(t.user == user && i in members && i !in todo && HasSymbol(hashes, i, t.symbol))
        invariant forall x, i :: InSymbol(View(), x, i) <==>
          InSymbol(old(View()), x, i) && !(i in members && i !in todo && HasSymbol(hashes, i, x))
        decreases |todo|
      {
        var id :| id in todo;
        todo := todo - {id};
        if id in hashes {
          RemoveFromSymbol(Slot(user, hashes[id]), id);
        }
      }
      ids := Sorted(members);
    }
  }

  // ---------- Consistency ----------

  /** Each order has one owner: its user and symbol. */
  type Owners = map<nat, Slot>

  /** Order id belongs to slot t and is open there. */
  predicate IsOpen(ix: Index, owners: Owners, id: nat) {
    id in owners && InSlot(ix, owners[id], id)
  }

  predicate Owns(owners: Owners, t: Slot, id: nat) {
    id in owners && owners[id] == t
  }

  predicate OwnsAsUser(owners: Owners, u: nat, id: nat) {
    id in owners && owners[id].user == u
  }

  predicate OwnsAsSymbol(owners: Owners, x: string, id: nat) {
    id in owners && owners[id].symbol == x
  }

  /** The three indexes tell the same set of open orders, each filed under its owner. */
  ghost predicate Consistent(ix: Index, owners: Owners) {
    (forall t, id :: InSlot(ix, t, id) <==> IsOpen(ix, owners, id) && Owns(owners, t, id)) &&
    (forall u, id :: InUser(ix, u, id) <==> IsOpen(ix, owners, id) && OwnsAsUser(owners, u, id)) &&
    (forall x, id :: InSymbol(ix, x, id) <==> IsOpen(ix, owners, id) && OwnsAsSymbol(owners, x, id))
  }

  /** In consistent indexes a user's set is the union of the user's per-symbol sets, and a symbol's
      set is the union over all users. */
  lemma ConsistentUnions(ix: Index, owners: Owners)
    requires Consistent(ix, owners)
    ensures forall u, id :: InUser(ix, u, id) <==> exists t: Slot :: t.user == u && InSlot(ix, t, id)
    ensures forall x, id :: InSymbol(ix, x, id) <==> exists t: Slot :: t.symbol == x && InSlot(ix, t, id)
  {
    forall u, id | InUser(ix, u, id) ensures exists t: Slot :: t.user == u && InSlot(ix, t, id) {
      assert InSlot(ix, owners[id], id);
    }
    forall x, id | InSymbol(ix, x, id) ensures exists t: Slot :: t.symbol == x && InSlot(ix, t, id) {
      assert InSlot(ix, owners[id], id);
    }
  }

  datatype IndexOp =
    | AddOp(slot: Slot, id: nat)
    | RemoveOp(slot: Slot, id: nat)
    | DrainSlotOp(slot: Slot)
    | DrainUserOp(user: nat, hashes: map<nat, string>)

  /** What the operation may do to the indexes. */
  ghost predicate Step(before: Index, op: IndexOp, after: Index) {
    match op
    case AddOp(s, id) => Added(before, after, s, id)
    case RemoveOp(s, id) => Removed(before, after, s, id)
    case DrainSlotOp(s) => DrainedSlot(before, after, s)
    case DrainUserOp(user, hashes) => DrainedUser(before, after, user, hashes)
  }

  /** Every hash names the symbol of its order's owner. */
  ghost predicate HashesAgree(hashes: map<nat, string>, owners: Owners) {
    forall id :: id in hashes && id in owners ==> hashes[id] == owners[id].symbol
  }

  ghost predicate AllHashed(ix: Index, user: nat, hashes: map<nat, string>) {
    forall id :: InUser(ix, user, id) ==> id in hashes
  }

  /** Orders are added and removed under their owner, and every open order of a drained user has a
      hash naming its symbol. */
  ghost predicate Legal(before: Index, op: IndexOp, owners: Owners) {
    match op
    case AddOp(s, id) => Owns(owners, s, id)
    case RemoveOp(s, id) => Owns(owners, s, id)
    case DrainSlotOp(_) => true
    case DrainUserOp(user, hashes) => HashesAgree(hashes, owners) && AllHashed(before, user, hashes)
  }

  /** What is open after a legal operation. */
  predicate OpenAfter(before: Index, op: IndexOp, owners: Owners, id: nat) {
    match op
    case AddOp(_, x) => IsOpen(before, owners, id) || id == x
    case RemoveOp(_, x) => IsOpen(before, owners, id) && id != x
    case DrainSlotOp(s) => IsOpen(before, owners, id) && !Owns(owners, s, id)
    case DrainUserOp(user, _) => IsOpen(before, owners, id) && !OwnsAsUser(owners, user, id)
  }

  /** A legal operation keeps the indexes consistent and opens or closes exactly the orders it names:
      a cancel-all closes exactly the selected slice. */
  lemma StepKeepsConsistent(before: Index, op: IndexOp, after: Index, owners: Owners)
    requires Consistent(before, owners) && Legal(before, op, owners) && Step(before, op, after)
    ensures Consistent(after, owners)
    ensures forall id :: IsOpen(after, owners, id) <==> OpenAfter(before, op, owners, id)
  {
    hide Members, InUser, InSlot, InSymbol;
    forall id ensures IsOpen(after, owners, id) <==> OpenAfter(before, op, owners, id) {
      if id in owners {
        assert InUser(before, owners[id].user, id) <==> IsOpen(before, owners, id);
        assert InSlot(after, owners[id], id) || !InSlot(after, owners[id], id);
      }
    }
  }

  /** The states of a run, one operation after the other. */
  ghost predicate IsRun(states: seq<Index>, ops: seq<IndexOp>, owners: Owners) {
    |states| == |ops| + 1 &&
    forall i :: 0 <= i < |ops| ==> Legal(states[i], ops[i], owners) && Step(states[i], ops[i], states[i + 1])
  }

  /** Over any run of adds, removes and cancel-alls the indexes stay consistent. */
  lemma {:induction false} RunKeepsConsistent(states: seq<Index>, ops: seq<IndexOp>, owners: Owners, n: nat)
    requires IsRun(states, ops, owners) && n < |states| && Consistent(states[0], owners)
    ensures Consistent(states[n], owners)
  {
    if n > 0 {
      RunKeepsConsistent(states, ops, owners, n - 1);
      StepKeepsConsistent(states[n - 1], ops[n - 1], states[n], owners);
    }
  }

  /** Draining all orders of a user keeps the indexes consistent if and only if every drained order
      still has its hash: an order without one disappears from the user's set only. */
  lemma DrainConsistentIff(before: Index, user: nat, hashes: map<nat, string>, after: Index, owners: Owners)
    requires Consistent(before, owners) && HashesAgree(hashes, owners) && DrainedUser(before, after, user, hashes)
    ensures Consistent(after, owners) <==> AllHashed(before, user, hashes)
  {
    hide Members, InUser, InSlot, InSymbol;
    if AllHashed(before, user, hashes) {
      StepKeepsConsistent(before, DrainUserOp(user, hashes), after, owners);
    } else {
      var id :| InUser(before, user, id) && id !in hashes;
      assert IsOpen(before, owners, id) && OwnsAsUser(owners, user, id);
      assert InSlot(after, owners[id], id);
      assert IsOpen(after, owners, id) && !InUser(after, user, id);
    }
  }

  const NO_ORDERS := Index(map[], map[], map[])
  const ONE_ORDER := Index(map[1 := {7}], map[Slot(1, "BTC") := {7}], map["BTC" := {7}])
  const HALF_DRAINED := Index(map[], map[Slot(1, "BTC") := {7}], map["BTC" := {7}])

  /** One order is added, its hash is lost, and its user is drained: it stays in two of the sets. */
  lemma LostHashLeavesOrder()
    ensures Added(NO_ORDERS, ONE_ORDER, Slot(1, "BTC"), 7) && DrainedUser(ONE_ORDER, HALF_DRAINED, 1, map[])
    ensures Consistent(ONE_ORDER, map[7 := Slot(1, "BTC")]) && !Consistent(HALF_DRAINED, map[7 := Slot(1, "BTC")])
  {
    var owners: Owners := map[7 := Slot(1, "BTC")];
    StepKeepsConsistent(NO_ORDERS, AddOp(Slot(1, "BTC"), 7), ONE_ORDER, owners);
    assert InUser(ONE_ORDER, 1, 7);
    DrainConsistentIff(ONE_ORDER, 1, map[], HALF_DRAINED, owners);
  }
}
