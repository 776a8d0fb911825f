/** One balance row under concurrent use: clients that read it and then update it on condition that
    its version is unchanged, and writers that hold its row lock. */
module OptimisticRow {
  import opened Domain
  import opened Rows

  /** DebitOp is an administrator's withdrawal, made under the row lock only. */
  datatype Op = LockOp | UnlockOp | SettleOp | CreditOp | DebitOp

  /** The amount condition of the guarded UPDATE, beside its version check. */
  predicate Guard(r: Row, op: Op, amount: real) {
    match op
    case LockOp => amount <= r.available
    case UnlockOp => amount <= r.locked
    case SettleOp => amount <= r.locked
    case CreditOp => true
    case DebitOp => amount <= r.available
  }

  function Perform(r: Row, op: Op, amount: real): Row {
    match op
    case LockOp => r.(locked := r.locked + amount, available := r.available - amount, version := r.version + 1)
    case UnlockOp => r.(locked := r.locked - amount, available := r.available + amount, version := r.version + 1)
    case SettleOp => r.(locked := r.locked - amount, total := r.total - amount, version := r.version + 1)
    case CreditOp => r.(total := r.total + amount, available := r.available + amount, version := r.version + 1)
    case DebitOp => r.(total := r.total - amount, available := r.available - amount, version := r.version + 1)
  }

  /** A committed update; `author` is None for a writer holding the row lock. */
  datatype Update = Update(author: Option<nat>, op: Op, amount: real)

  datatype Phase =
    | Ready                 // about to read
    | Holding(seen: Row)    // has read, about to update
    | Succeeded
    | Refused               // saw too little available
    | Conflicted            // retries exhausted

  /** A call in progress; `since` is how many updates had committed when it began. */
  datatype Call = Call(op: Op, amount: real, phase: Phase, failures: nat, since: nat)

  datatype World = World(row: Row, calls: map<nat, Call>, log: seq<Update>)

  datatype Event =
    | Begin(id: nat, op: Op, amount: real)
    | Read(id: nat)
    | TryUpdate(id: nat)
    | Locked(op: Op, amount: real)   // a writer with the row lock

  const MAX_RETRIES: nat := 3

  function Failed(call: Call): Call {
    call.(failures := call.failures + 1, phase := if call.failures + 1 >= MAX_RETRIES then Conflicted else Ready)
  }

  /** One event; an event that cannot happen changes nothing. */
  function Next(w: World, e: Event): World {
    match e
    case Begin(id, op, amount) =>
      if id in w.calls || amount <= 0.0 || op == DebitOp then w
      else w.(calls := w.calls[id := Call(op, amount, Ready, 0, |w.log|)])
    case Read(id) =>
      if id !in w.calls || w.calls[id].phase != Ready then w
      else
        var call := w.calls[id];
        var refused := call.op == LockOp && w.row.available < call.amount;
        w.(calls := w.calls[id := call.(phase := if refused then Refused else Holding(w.row))])
    case TryUpdate(id) =>
      if id !in w.calls || !w.calls[id].phase.Holding? then w
      else
        var call := w.calls[id];
        if w.row.version == call.phase.seen.version && Guard(w.row, call.op, call.amount) then
          World(Perform(w.row, call.op, call.amount), w.calls[id := call.(phase := Succeeded)],
                w.log + [Update(Some(id), call.op, call.amount)])
        else w.(calls := w.calls[id := Failed(call)])
    case Locked(op, amount) =>
      if amount < 0.0 || !Guard(w.row, op, amount) then w
      else w.(row := Perform(w.row, op, amount), log := w.log + [Update(None, op, amount)])
  }

  function Run(w: World, events: seq<Event>): World {
    if events == [] then w else Next(Run(w, events[..|events| - 1]), events[|events| - 1])
  }

  // ---------- The invariant ----------

  /** The row after the first updates of the log, one after the other. */
  function Replay(r: Row, log: seq<Update>): Row {
    if log == [] then r
    else Perform(Replay(r, log[..|log| - 1]), log[|log| - 1].op, log[|log| - 1].amount)
  }

  /** Entry i of the log is what the call, begun after `since` updates, was to do. */
  predicate IsCommit(log: seq<Update>, id: nat, call: Call, i: nat) {
    call.since <= i < |log| && log[i] == Update(Some(id), call.op, call.amount)
  }

  /** The log holds what the call was to do, and nothing else by the same author. */
  ghost predicate CommittedOnce(log: seq<Update>, id: nat, call: Call) {
    exists i: nat :: IsCommit(log, id, call, i) && OnlyEntry(log, id, i)
  }

  ghost predicate OnlyEntry(log: seq<Update>, id: nat, i: nat) {
    forall j :: 0 <= j < |log| && log[j].author == Some(id) ==> j == i
  }

  ghost predicate NotCommitted(log: seq<Update>, id: nat) {
    forall j :: 0 <= j < |log| ==> log[j].author != Some(id)
  }

  /** What a call reports is what the log says. */
  ghost predicate ReportsTruly(log: seq<Update>, id: nat, call: Call) {
    if call.phase == Succeeded then CommittedOnce(log, id, call) else NotCommitted(log, id)
  }

  ghost predicate CallOk(start: Row, row: Row, log: seq<Update>, id: nat, call: Call) {
    && 0.0 < call.amount
    && call.since <= |log|
    && (call.phase.Holding? ==>
          call.phase.seen.version <= row.version &&
          (call.phase.seen.version == row.version ==> call.phase.seen == row) &&
          (call.op == LockOp ==> call.amount <= call.phase.seen.available))
    && ReportsTruly(log, id, call)
    // each failed attempt of a lock saw another update commit
    && (call.op == LockOp ==>
          call.since + call.failures <= if call.phase.Holding? then call.phase.seen.version - start.version else |log|)
    && (call.phase.Holding? ==> call.since <= call.phase.seen.version - start.version)
    && (if call.phase == Conflicted then call.failures == MAX_RETRIES else call.failures < MAX_RETRIES)
  }

  ghost predicate Inv(start: Row, w: World) {
    && w.row.Sound()
    && w.row == Replay(start, w.log)
    && w.row.version == start.version + |w.log|
    && (forall i :: 0 <= i < |w.log| && w.log[i].author.Some? ==> w.log[i].author.value in w.calls)
    && forall id :: id in w.calls ==> CallOk(start, w.row, w.log, id, w.calls[id])
  }

  lemma LogGrows(start: Row, w: World, u: Update)
    requires Inv(start, w) && 0.0 <= u.amount && Guard(w.row, u.op, u.amount)
    ensures var w' := w.(row := Perform(w.row, u.op, u.amount), log := w.log + [u]);
      w'.row.Sound() && w'.row == Replay(start, w'.log) && w'.row.version == start.version + |w'.log| &&
      forall id :: id in w.calls && u.author != Some(id) ==> CallOk(start, w'.row, w'.log, id, w.calls[id])
  {
    assert (w.log + [u])[..|w.log|] == w.log;
    var w' := w.(row := Perform(w.row, u.op, u.amount), log := w.log + [u]);
    forall id | id in w.calls && u.author != Some(id) ensures CallOk(start, w'.row, w'.log, id, w.calls[id]) {
      assert CallOk(start, w.row, w.log, id, w.calls[id]);
      OthersReport(w.log, u, id, w.calls[id]);
    }
  }

  /** An update by somebody else changes nothing about what a call reports. */
  lemma OthersReport(log: seq<Update>, u: Update, id: nat, call: Call)
    requires ReportsTruly(log, id, call) && u.author != Some(id)
    ensures ReportsTruly(log + [u], id, call)
  {
    if call.phase == Succeeded {
      var i: nat :| IsCommit(log, id, call, i) && OnlyEntry(log, id, i);
      assert IsCommit(log + [u], id, call, i) && OnlyEntry(log + [u], id, i);
    }
  }

  /** The call's own update, appended once, makes its success true. */
  lemma CommitReports(log: seq<Update>, id: nat, call: Call)
    requires NotCommitted(log, id) && call.since <= |log|
    ensures CommittedOnce(log + [Update(Some(id), call.op, call.amount)], id, call)
  {
    var longer := log + [Update(Some(id), call.op, call.amount)];
    assert IsCommit(longer, id, call, |log|) && OnlyEntry(longer, id, |log|);
  }

  lemma TryUpdateKeepsInv(start: Row, w: World, id: nat)
    requires Inv(start, w)
    ensures Inv(start, Next(w, TryUpdate(id)))
  {
    hide CommittedOnce, Perform;
    if id !in w.calls || !w.calls[id].phase.Holding? {
      return;
    }
    var call, w' := w.calls[id], Next(w, TryUpdate(id));
    assert CallOk(start, w.row, w.log, id, call);
    if w.row.version == call.phase.seen.version && Guard(w.row, call.op, call.amount) {
      LogGrows(start, w, Update(Some(id), call.op, call.amount));
      CommitReports(w.log, id, call.(phase := Succeeded));
      forall j | j in w'.calls ensures CallOk(start, w'.row, w'.log, j, w'.calls[j]) {
        assert j != id ==> w'.calls[j] == w.calls[j];
      }
    }
  }

  lemma BeginKeepsInv(start: Row, w: World, id: nat, op: Op, amount: real)
    requires Inv(start, w)
    ensures Inv(start, Next(w, Begin(id, op, amount)))
  {
    hide CommittedOnce, Perform, Replay;
    if id !in w.calls && 0.0 < amount && op != DebitOp {
      var w' := Next(w, Begin(id, op, amount));
      assert CallOk(start, w.row, w.log, id, w'.calls[id]);
    }
  }

  lemma ReadKeepsInv(start: Row, w: World, id: nat)
    requires Inv(start, w)
    ensures Inv(start, Next(w, Read(id)))
  {
    hide CommittedOnce, Perform, Replay;
    if id in w.calls && w.calls[id].phase == Ready {
      assert CallOk(start, w.row, w.log, id, w.calls[id]);
    }
  }

  lemma LockedKeepsInv(start: Row, w: World, op: Op, amount: real)
    requires Inv(start, w)
    ensures Inv(start, Next(w, Locked(op, amount)))
  {
    hide CallOk, Perform;
    if 0.0 <= amount && Guard(w.row, op, amount) { LogGrows(start, w, Update(None, op, amount)); }
  }

  lemma NextKeepsInv(start: Row, w: World, e: Event)
    requires Inv(start, w)
    ensures Inv(start, Next(w, e))
  {
    hide Inv, Next;
    match e
    case Begin(id, op, amount) => BeginKeepsInv(start, w, id, op, amount);
    case Read(id) => ReadKeepsInv(start, w, id);
    case TryUpdate(id) => TryUpdateKeepsInv(start, w, id);
    case Locked(op, amount) => LockedKeepsInv(start, w, op, amount);
  }

  lemma {:induction false} RunKeepsInv(start: Row, w: World, events: seq<Event>)
    requires Inv(start, w)
    ensures Inv(start, Run(w, events))
  {
    if events != [] {
      RunKeepsInv(start, w, events[..|events| - 1]);
      NextKeepsInv(start, Run(w, events[..|events| - 1]), events[|events| - 1]);
    }
  }

  // ---------- Theorems ----------

  datatype Change = Change(total: real, locked: real, available: real)

  function ChangeOf(u: Update): Change {
    match u.op
    case LockOp => Change(0.0, u.amount, -u.amount)
    case UnlockOp => Change(0.0, -u.amount, u.amount)
    case SettleOp => Change(-u.amount, -u.amount, 0.0)
    case CreditOp => Change(u.amount, 0.0, u.amount)
    case DebitOp => Change(-u.amount, 0.0, -u.amount)
  }

  function Changes(log: seq<Update>): Change {
    if log == [] then Change(0.0, 0.0, 0.0)
    else
      var before, last := Changes(log[..|log| - 1]), ChangeOf(log[|log| - 1]);
      Change(before.total + last.total, before.locked + last.locked, before.available + last.available)
  }

  lemma {:induction false} ReplayAddsUp(r: Row, log: seq<Update>)
    ensures var after, sum := Replay(r, log), Changes(log);
      after == Row(r.total + sum.total, r.locked + sum.locked, r.available + sum.available, r.version + |log|)
  {
    if log != [] { ReplayAddsUp(r, log[..|log| - 1]); }
  }

  /** Starting with no calls in progress, any interleaving keeps total == locked + available with
      both parts non-negative, counts the committed updates in the version, and ends with exactly
      the committed updates applied.  Every call that reports success has committed its own
      operation and amount exactly once, and every other call has committed nothing. */
  lemma NoLostUpdate(start: Row, events: seq<Event>)
    requires start.Sound()
    ensures var w := Run(World(start, map[], []), events);
      var sum := Changes(w.log);
      w.row.Sound() &&
      w.row == Row(start.total + sum.total, start.locked + sum.locked, start.available + sum.available,
                   start.version + |w.log|) &&
      (forall id :: id in w.calls ==> ReportsTruly(w.log, id, w.calls[id])) &&
      forall i :: 0 <= i < |w.log| && w.log[i].author.Some? ==>
        w.log[i].author.value in w.calls && w.calls[w.log[i].author.value].phase == Succeeded
  {
    RunKeepsInv(start, World(start, map[], []), events);
    var w := Run(World(start, map[], []), events);
    ReplayAddsUp(start, w.log);
    forall id | id in w.calls ensures ReportsTruly(w.log, id, w.calls[id]) {
      assert CallOk(start, w.row, w.log, id, w.calls[id]);
    }
    forall i | 0 <= i < |w.log| && w.log[i].author.Some?
      ensures w.log[i].author.value in w.calls && w.calls[w.log[i].author.value].phase == Succeeded
    {
      var id := w.log[i].author.value;
      assert ReportsTruly(w.log, id, w.calls[id]);
    }
  }

  /** A lock that ends in a version conflict was overtaken: at least three updates, all by others,
      committed since it began. */
  lemma LockConflictNeedsThreeOthers(start: Row, events: seq<Event>, id: nat)
    requires start.Sound()
    requires var w := Run(World(start, map[], []), events);
      id in w.calls && w.calls[id].op == LockOp && w.calls[id].phase == Conflicted
    ensures var w := Run(World(start, map[], []), events);
      w.calls[id].since + 3 <= |w.log| &&
      forall i :: w.calls[id].since <= i < |w.log| ==> w.log[i].author != Some(id)
  {
    RunKeepsInv(start, World(start, map[], []), events);
    var w := Run(World(start, map[], []), events);
    assert CallOk(start, w.row, w.log, id, w.calls[id]);
  }

  /** The UPDATE's own overdraft condition is implied by the version check, for a lock. */
  lemma LockGuardIsImplied(start: Row, w: World, id: nat)
    requires Inv(start, w) && id in w.calls && w.calls[id].op == LockOp && w.calls[id].phase.Holding?
    requires w.calls[id].phase.seen.version == w.row.version
    ensures Next(w, TryUpdate(id)).calls[id].phase == Succeeded
  {
    assert CallOk(start, w.row, w.log, id, w.calls[id]);
  }

  /** The attempts of one call with nobody else active. */
  function Alone(id: nat, attempts: nat): seq<Event> {
    if attempts == 0 then [] else Alone(id, attempts - 1) + [Read(id), TryUpdate(id)]
  }

  lemma RunTwo(w: World, events: seq<Event>, e: Event, f: Event)
    ensures Run(w, events + [e, f]) == Next(Next(Run(w, events), e), f)
  {
    assert (events + [e, f])[..|events| + 1] == events + [e];
    assert (events + [e])[..|events|] == events;
  }

  /** A call that is about to make its first attempt. */
  predicate IsFirstAttempt(w: World, id: nat) {
    id in w.calls && w.calls[id].phase == Ready && w.calls[id].failures == 0 && 0.0 < w.calls[id].amount &&
    w.calls[id].op != DebitOp
  }

  lemma {:induction false} AloneEnds(w: World, id: nat, attempts: nat)
    requires IsFirstAttempt(w, id) && attempts <= MAX_RETRIES
    ensures var after, call := Run(w, Alone(id, attempts)), w.calls[id];
      id in after.calls &&
      if attempts == 0 then after == w
      else if call.op == LockOp && w.row.available < call.amount then
        after.row == w.row && after.log == w.log && after.calls[id].phase == Refused
      else if Guard(w.row, call.op, call.amount) then
        after.row == Perform(w.row, call.op, call.amount) && after.calls[id].phase == Succeeded &&
        after.log == w.log + [Update(Some(id), call.op, call.amount)]
      else
        after.row == w.row && after.log == w.log &&
        after.calls[id] == call.(failures := attempts, phase := if attempts == MAX_RETRIES then Conflicted else Ready)
  {
    hide Perform;
    if attempts > 0 {
      AloneEnds(w, id, attempts - 1);
      RunTwo(w, Alone(id, attempts - 1), Read(id), TryUpdate(id));
    }
  }

  /** How a call ends that nobody interferes with.  A lock succeeds if the amount is available and is
      refused otherwise; an unlock or a settlement succeeds if the amount is locked, all of it included,
      and otherwise reports a version conflict; a credit always succeeds.  Success moves exactly the
      amount, anything else moves nothing. */
  lemma LoneCallEnds(w: World, id: nat)
    requires IsFirstAttempt(w, id)
    ensures var after, call, r := Run(w, Alone(id, 3)), w.calls[id], w.row;
      id in after.calls &&
      match call.op
      case LockOp =>
        if call.amount <= r.available
        then after.calls[id].phase == Succeeded &&
             after.row == Row(r.total, r.locked + call.amount, r.available - call.amount, r.version + 1)
        else after.calls[id].phase == Refused && after.row == r
      case UnlockOp =>
        if call.amount <= r.locked
        then after.calls[id].phase == Succeeded &&
             after.row == Row(r.total, r.locked - call.amount, r.available + call.amount, r.version + 1)
        else after.calls[id].phase == Conflicted && after.row == r
      case SettleOp =>
        if call.amount <= r.locked
        then after.calls[id].phase == Succeeded &&
             after.row == Row(r.total - call.amount, r.locked - call.amount, r.available, r.version + 1)
        else after.calls[id].phase == Conflicted && after.row == r
      case CreditOp =>
        after.calls[id].phase == Succeeded &&
        after.row == Row(r.total + call.amount, r.locked, r.available + call.amount, r.version + 1)
      case DebitOp => true
  {
    hide Run, Alone;
    AloneEnds(w, id, 3);
  }

  /** When a writer that holds the row lock takes effect, and what it moves. */
  lemma LockedEndsAt(w: World, op: Op, amount: real)
    ensures var after := Next(w, Locked(op, amount));
      var fits := if op in {LockOp, DebitOp} then amount <= w.row.available
                  else op in {UnlockOp, SettleOp} ==> amount <= w.row.locked;
      if 0.0 <= amount && fits then
        var sum := ChangeOf(Update(None, op, amount));
        after.log == w.log + [Update(None, op, amount)] && after.calls == w.calls &&
        after.row == Row(w.row.total + sum.total, w.row.locked + sum.locked, w.row.available + sum.available,
                         w.row.version + 1)
      else after == w
  {
  }

  /** An unlock that nobody interferes with still ends in a version conflict, if and only if more is
      asked back than is locked: its error does not mean that another update happened. */
  lemma LoneUnlockConflictsIff(w: World, id: nat)
    requires IsFirstAttempt(w, id) && w.calls[id].op == UnlockOp
    ensures id in Run(w, Alone(id, 3)).calls
    ensures Run(w, Alone(id, 3)).calls[id].phase == Conflicted <==> w.row.locked < w.calls[id].amount
    ensures w.row.locked < w.calls[id].amount ==> Run(w, Alone(id, 3)).log == w.log
  {
    hide Run, Alone;
    AloneEnds(w, id, 3);
  }

  lemma {:induction false} RunAppend(w: World, first: seq<Event>, more: seq<Event>)
    ensures Run(w, first + more) == Run(Run(w, first), more)
  {
    hide Next;
    if more == [] {
      assert first + more == first;
    } else {
      var n := |more| - 1;
      assert (first + more)[..|first| + n] == first + more[..n];
      RunAppend(w, first, more[..n]);
    }
  }

  /** Asked to unlock 5 of a row with nothing locked, with nobody else about, the call reports a version
      conflict although nothing was ever committed. */
  lemma UnlockOfNothingConflicts()
    ensures var w := Run(World(Row(10.0, 0.0, 10.0, 1), map[], []), [Begin(1, UnlockOp, 5.0)] + Alone(1, 3));
      1 in w.calls && w.calls[1].phase == Conflicted && w.log == [] && w.row == Row(10.0, 0.0, 10.0, 1)
  {
    hide Alone;
    var w0, begin := World(Row(10.0, 0.0, 10.0, 1), map[], []), [Begin(1, UnlockOp, 5.0)];
    assert begin[..0] == [] && Run(w0, begin) == Next(w0, begin[0]);
    RunAppend(w0, begin, Alone(1, MAX_RETRIES));
    AloneEnds(Run(w0, begin), 1, MAX_RETRIES);
  }

  // ---------- The retry loop ----------

  /** What a lock call returns. */
  datatype Verdict = LockTaken | LockRefused | LockConflict | LockInvalid

  class SharedRow {
    var row: Row

    constructor (r: Row)
      ensures row == r
    {
      row := r;
    }

    /** UPDATE ... WHERE version = expected AND available >= amount. */
    method OptimisticLock(amount: real, expected: int) returns (ok: bool)
      modifies this
      ensures ok <==> old(row).version == expected && Guard(old(row), LockOp, amount)
      ensures row == if ok then Perform(old(row), LockOp, amount) else old(row)
    {
      ok := row.version == expected && row.available >= amount;
      if ok {
        row := row.(locked := row.locked + amount, available := row.available - amount, version := row.version + 1);
      }
    }

    /** Other clients' committed updates. */
    method Interfere(updates: seq<Update>)
      modifies this
      ensures row == Replay(old(row), updates)
      ensures row.version == old(row).version + |updates|
    {
      for i := 0 to |updates|
        invariant row == Replay(old(row), updates[..i])
        invariant row.version == old(row).version + i
      {
        assert updates[..i + 1][..i] == updates[..i];
        row := Perform(row, updates[i].op, updates[i].amount);
      }
      assert updates[..|updates|] == updates;
    }

    /** Read, check, update on condition.  In attempt i `before[i]` commits ahead of the read and
        `between[i]` between read and update.  The call is overtaken in every attempt that it loses,
        and it takes its lock on top of whatever the others did. */
    method LockOptimistic(amount: real, before: seq<seq<Update>>, between: seq<seq<Update>>)
      returns (verdict: Verdict, attempts: nat)
      requires |before| == |between| == MAX_RETRIES
      modifies this
      ensures verdict == LockInvalid <==> amount <= 0.0
      ensures attempts <= MAX_RETRIES && (verdict == LockConflict ==> attempts == MAX_RETRIES)
      ensures verdict == LockInvalid ==> row == old(row)
      ensures verdict == LockConflict ==>
        row == After(old(row), before, between, MAX_RETRIES) && forall i :: 0 <= i < MAX_RETRIES ==> between[i] != []
      ensures verdict == LockTaken ==>
        attempts < MAX_RETRIES && between[attempts] == [] && (forall i :: 0 <= i < attempts ==> between[i] != []) &&
        var met := Replay(After(old(row), before, between, attempts), before[attempts]);
        amount <= met.available && row == Perform(met, LockOp, amount)
      ensures verdict == LockRefused ==>
        attempts < MAX_RETRIES && (forall i :: 0 <= i < attempts ==> between[i] != []) &&
        row == Replay(After(old(row), before, between, attempts), before[attempts]) && row.available < amount
    {
      attempts := 0;
      if amount <= 0.0 {
        return LockInvalid, 0;
      }
      while attempts < MAX_RETRIES
        invariant attempts <= MAX_RETRIES
        invariant row == After(old(row), before, between, attempts)
        invariant forall i :: 0 <= i < attempts ==> between[i] != []
      {
        Interfere(before[attempts]);
        var seen := row;
        if seen.available < amount {
          return LockRefused, attempts;
        }
        Interfere(between[attempts]);
        var ok := OptimisticLock(amount, seen.version);
        if ok {
          return LockTaken, attempts;
        }
        attempts := attempts + 1;
      }
      return LockConflict, attempts;
    }
  }

  /** The row after what the others did in the first n attempts. */
  function After(r: Row, before: seq<seq<Update>>, between: seq<seq<Update>>, n: nat): Row
    requires n <= |before| && n <= |between|
  {
    if n == 0 then r else Replay(Replay(After(r, before, between, n - 1), before[n - 1]), between[n - 1])
  }
}
