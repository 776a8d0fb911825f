/** The sliding-window rate limiter over one sorted set of request stamps.

    Time is in microseconds, the precision of a stamp; a stamp is both member and score, so two
    requests in the same microsecond are one entry. */
module RateLimiter {
  import opened Domain

  /** The window in microseconds, and how long a key lives after a call. */
  function Span(window: nat): nat {
    window * 1_000_000
  }

  function Lifetime(window: nat): nat {
    (window + 10) * 1_000_000
  }

  /** The key: its stamps in increasing order, and when the store drops it.  An empty key does not
      exist, so it has no expiry. */
  datatype Bucket = Bucket(stamps: seq<nat>, expiresAt: Option<nat>)

  const NO_KEY := Bucket([], None)

  datatype Verdict = Verdict(allowed: bool, count: nat, retryAfter: int)

  function KeepAfter(stamps: seq<nat>, cutoff: int): seq<nat> {
    if stamps == [] || stamps[0] > cutoff then stamps else KeepAfter(stamps[1..], cutoff)
  }

  /** ZADD of a stamp: a stamp already present is not added again. */
  function AddStamp(stamps: seq<nat>, now: nat): seq<nat> {
    if stamps == [] || stamps[|stamps| - 1] < now then stamps + [now]
    else if stamps[|stamps| - 1] == now then stamps
    else AddStamp(stamps[..|stamps| - 1], now) + [stamps[|stamps| - 1]]
  }

  /** The key as the store sees it at `now`, without the entries that left the window. */
  function Evicted(b: Bucket, now: nat, window: nat): Bucket {
    var live := if b.expiresAt.Some? && b.expiresAt.value <= now then NO_KEY else b;
    var kept := KeepAfter(live.stamps, now - Span(window));
    if kept == [] then NO_KEY else Bucket(kept, live.expiresAt)
  }

  function RetryAfter(oldest: nat, now: nat, window: nat): int {
    var wait := (oldest + Span(window) - now) / 1_000_000 + 1;
    if wait >= 1 then wait else 1
  }

  /** EXPIRE acts on an existing key only, and it runs before the stamp of this call is added. */
  function Check(b: Bucket, now: nat, limit: int, window: nat): (Bucket, Verdict) {
    var kept := Evicted(b, now, window);
    var timed := if kept.stamps == [] then kept else kept.(expiresAt := Some(now + Lifetime(window)));
    if |kept.stamps| < limit then
      (timed.(stamps := AddStamp(kept.stamps, now)), Verdict(true, |kept.stamps| + 1, 0))
    else
      (timed, Verdict(false, |kept.stamps|, if kept.stamps == [] then 1 else RetryAfter(kept.stamps[0], now, window)))
  }

  class Limiter {
    const window: nat
    var stamps: seq<nat>
    var expiresAt: Option<nat>

    constructor (window: nat)
      ensures this.window == window && View() == NO_KEY
    {
      this.window := window;
      stamps, expiresAt := [], None;
    }

    function View(): Bucket
      reads this
    {
      Bucket(stamps, expiresAt)
    }

    /** Drop an expired key and the entries up to the start of the window. */
    method Evict(now: nat)
      modifies this
      ensures View() == Evicted(old(View()), now, window)
    {
      if expiresAt.Some? && expiresAt.value <= now {
        stamps, expiresAt := [], None;
      }
      ghost var before := stamps;
      while stamps != [] && stamps[0] <= now - Span(window)
        invariant KeepAfter(before, now - Span(window)) == KeepAfter(stamps, now - Span(window))
        invariant expiresAt == (if old(expiresAt).Some? && old(expiresAt).value <= now then None else old(expiresAt))
        decreases |stamps|
      {
        stamps := stamps[1..];
      }
      if stamps == [] {
        expiresAt := None;
      }
    }

    method CheckAndConsume(now: nat, limit: int) returns (v: Verdict)
      modifies this
      ensures (View(), v) == Check(old(View()), now, limit, window)
    {
      Evict(now);
      var count := |stamps|;
      if count > 0 {
        expiresAt := Some(now + Lifetime(window));
      }
      if count < limit {
        stamps := AddStamp(stamps, now);
        return Verdict(true, count + 1, 0);
      }
      var retryAfter := 1;
      if count > 0 {
        retryAfter := (stamps[0] + Span(window) - now) / 1_000_000 + 1;
        if retryAfter < 1 {
          retryAfter := 1;
        }
      }
      return Verdict(false, count, retryAfter);
    }

    method GetCurrentCount(now: nat) returns (count: nat)
      modifies this
      ensures View() == Evicted(old(View()), now, window)
      ensures count == |Evicted(old(View()), now, window).stamps|
    {
      Evict(now);
      count := |stamps|;
    }
  }

  // ---------- Runs, and the history they are judged by ----------

  datatype Call = Consume(now: nat, limit: int) | Peek(now: nat)

  function BucketAfter(calls: seq<Call>, window: nat): Bucket {
    if calls == [] then NO_KEY
    else
      var b := BucketAfter(calls[..|calls| - 1], window);
      match calls[|calls| - 1]
      case Consume(now, limit) => Check(b, now, limit, window).0
      case Peek(now) => Evicted(b, now, window)
  }

  /** Was the last call a request that was allowed? */
  predicate LastAllowed(calls: seq<Call>, window: nat)
    requires calls != []
  {
    var last := calls[|calls| - 1];
    last.Consume? && Check(BucketAfter(calls[..|calls| - 1], window), last.now, last.limit, window).1.allowed
  }

  /** How many requests of the whole history were allowed at a time in (from, to]. */
  function AllowedIn(calls: seq<Call>, window: nat, from: int, to: int): nat {
    if calls == [] then 0
    else
      AllowedIn(calls[..|calls| - 1], window, from, to) +
      (if LastAllowed(calls, window) && from < calls[|calls| - 1].now <= to then 1 else 0)
  }

  /** The distinct microseconds after `from` in which a request was allowed, in order. */
  function DistinctStamps(calls: seq<Call>, window: nat, from: int): seq<nat> {
    if calls == [] then []
    else
      var before := DistinctStamps(calls[..|calls| - 1], window, from);
      var now := calls[|calls| - 1].now;
      if !LastAllowed(calls, window) || now <= from || (before != [] && before[|before| - 1] == now) then before
      else before + [now]
  }

  ghost predicate Ordered(calls: seq<Call>) {
    forall i, j :: 0 <= i < j < |calls| ==> calls[i].now <= calls[j].now
  }

  ghost predicate StrictlyOrdered(calls: seq<Call>) {
    forall i, j :: 0 <= i < j < |calls| ==> calls[i].now < calls[j].now
  }

  ghost predicate ConstantLimit(calls: seq<Call>, limit: int) {
    forall i :: 0 <= i < |calls| && calls[i].Consume? ==> calls[i].limit == limit
  }

  function LastTime(calls: seq<Call>): nat {
    if calls == [] then 0 else calls[|calls| - 1].now
  }

  ghost predicate Increasing(stamps: seq<nat>) {
    forall i, j :: 0 <= i < j < |stamps| ==> stamps[i] < stamps[j]
  }

  // ---------- The bucket refines the history ----------

  ghost predicate Within(stamps: seq<nat>, low: int, high: int) {
    forall i :: 0 <= i < |stamps| ==> low < stamps[i] <= high
  }

  lemma {:induction false} KeepAfterAppend(stamps: seq<nat>, t: nat, cutoff: int)
    requires Increasing(stamps + [t]) && cutoff < t
    ensures KeepAfter(stamps + [t], cutoff) == KeepAfter(stamps, cutoff) + [t]
  {
    if stamps != [] {
      assert (stamps + [t])[1..] == stamps[1..] + [t];
      KeepAfterAppend(stamps[1..], t, cutoff);
    }
  }

  lemma {:induction false} AllDropped(stamps: seq<nat>, low: int, cutoff: int)
    requires Within(stamps, low, cutoff)
    ensures KeepAfter(stamps, cutoff) == []
  {
    if stamps != [] { AllDropped(stamps[1..], low, cutoff); }
  }

  /** What is kept is the part after the cutoff, and its last stamp is the last stamp. */
  lemma {:induction false} Kept(stamps: seq<nat>, low: int, high: int, cutoff: int)
    requires Increasing(stamps) && Within(stamps, low, high)
    ensures Within(KeepAfter(stamps, cutoff), low, high) && |KeepAfter(stamps, cutoff)| <= |stamps|
    ensures forall i :: 0 <= i < |KeepAfter(stamps, cutoff)| ==> cutoff < KeepAfter(stamps, cutoff)[i]
    ensures KeepAfter(stamps, cutoff) == stamps[|stamps| - |KeepAfter(stamps, cutoff)|..]
    ensures stamps != [] && cutoff < stamps[|stamps| - 1] ==> KeepAfter(stamps, cutoff) != []
  {
    if stamps != [] && stamps[0] <= cutoff { Kept(stamps[1..], low, high, cutoff); }
  }

  /** The distinct stamps are increasing and lie within the history. */
  lemma {:induction false} DistinctShape(calls: seq<Call>, window: nat, from: int)
    requires Ordered(calls)
    ensures Increasing(DistinctStamps(calls, window, from))
    ensures Within(DistinctStamps(calls, window, from), from, LastTime(calls))
    decreases |calls|
  {
    hide LastAllowed, Ordered, Increasing, Within;
    if calls != [] {
      var front, now := calls[..|calls| - 1], LastTime(calls);
      OrderedFront(calls);
      DistinctShape(front, window, from);
      var before := DistinctStamps(front, window, from);
      WithinWider(before, from, LastTime(front), now);
      if from < now && (before == [] || before[|before| - 1] != now) { StampAppended(before, from, now); }
    } else {
      NoStamps(from);
    }
  }

  lemma OrderedFront(calls: seq<Call>)
    requires Ordered(calls) && calls != []
    ensures Ordered(calls[..|calls| - 1]) && LastTime(calls[..|calls| - 1]) <= LastTime(calls)
  {
  }

  lemma NoStamps(from: int)
    ensures Increasing([]) && Within([], from, 0)
  {
  }

  lemma StampAppended(stamps: seq<nat>, from: int, now: nat)
    requires Increasing(stamps) && Within(stamps, from, now) && from < now
    requires stamps == [] || stamps[|stamps| - 1] != now
    ensures Increasing(stamps + [now]) && Within(stamps + [now], from, now)
  {
    assert forall i :: 0 <= i < |stamps| ==> stamps[i] <= stamps[|stamps| - 1] < now;
  }

  /** Moving the start of the window forward drops the older stamps. */
  lemma {:induction false} DistinctNarrow(calls: seq<Call>, window: nat, low: int, high: int)
    requires Ordered(calls) && low <= high
    ensures KeepAfter(DistinctStamps(calls, window, low), high) == DistinctStamps(calls, window, high)
    decreases |calls|
  {
    hide LastAllowed, KeepAfter, Within;
    KeepNothing(high);
    if calls != [] {
      var front, now := calls[..|calls| - 1], calls[|calls| - 1].now;
      var before := DistinctStamps(front, window, low);
      DistinctNarrow(front, window, low, high);
      DistinctShape(front, window, low);
      DistinctShape(calls, window, low);
      assert front != [] ==> LastTime(front) <= now;
      if LastAllowed(calls, window) && low < now {
        if now <= high {
          WithinWider(before, low, LastTime(front), high);
          WithinWider(DistinctStamps(calls, window, low), low, now, high);
          AllDropped(before, low, high);
          AllDropped(DistinctStamps(calls, window, low), low, high);
        } else {
          Kept(before, low, LastTime(front), high);
          if before == [] || before[|before| - 1] != now { KeepAfterAppend(before, now, high); }
        }
      }
    }
  }

  lemma KeepNothing(cutoff: int)
    ensures KeepAfter([], cutoff) == []
  {
  }

  lemma WithinWider(stamps: seq<nat>, low: int, high: int, higher: int)
    requires Within(stamps, low, high) && high <= higher
    ensures Within(stamps, low, higher)
  {
  }

  /** An existing expiry lies at least the slack after the last of the stamps leaves the window. */
  ghost predicate ExpiryOk(b: Bucket, window: nat) {
    b.expiresAt.Some? ==> forall i :: 0 <= i < |b.stamps| ==> b.stamps[i] + Lifetime(window) <= b.expiresAt.value
  }

  /** The key holds exactly the distinct allowed stamps of the last window. */
  lemma {:induction false} BucketRefinesHistory(calls: seq<Call>, window: nat)
    requires Ordered(calls) && 1 <= window
    ensures BucketAfter(calls, window).stamps == DistinctStamps(calls, window, LastTime(calls) - Span(window))
    ensures ExpiryOk(BucketAfter(calls, window), window)
    decreases |calls|
  {
    hide BucketAfter, ExpiryOk, DistinctStamps, Evicted, Ordered, Increasing, Within;
    if calls != [] {
      var front, now := calls[..|calls| - 1], calls[|calls| - 1].now;
      OrderedFront(calls);
      BucketRefinesHistory(front, window);
      EvictionRefinesHistory(front, window, now);
      DistinctShape(front, window, now - Span(window));
      WithinWider(DistinctStamps(front, window, now - Span(window)), now - Span(window), LastTime(front), now);
      BucketStep(calls, window);
    } else {
      NoCalls(window);
    }
  }

  lemma NoCalls(window: nat)
    ensures BucketAfter([], window) == NO_KEY && ExpiryOk(NO_KEY, window)
    ensures DistinctStamps([], window, 0 - Span(window)) == []
  {
  }

  /** The last call, after the eviction that it begins with. */
  lemma BucketStep(calls: seq<Call>, window: nat)
    requires calls != [] && 1 <= window
    requires var front, now := calls[..|calls| - 1], calls[|calls| - 1].now;
      var kept := Evicted(BucketAfter(front, window), now, window);
      kept.stamps == DistinctStamps(front, window, now - Span(window)) && ExpiryOk(kept, window) &&
      Within(kept.stamps, now - Span(window), now)
    ensures BucketAfter(calls, window).stamps == DistinctStamps(calls, window, LastTime(calls) - Span(window))
    ensures ExpiryOk(BucketAfter(calls, window), window)
  {
    hide Evicted, Check, ExpiryOk, Within;
    var last := calls[|calls| - 1];
    if last.Consume? {
      CheckAddsStamp(BucketAfter(calls[..|calls| - 1], window), last.now, last.limit, window);
    }
  }

  lemma CheckAddsStamp(b: Bucket, now: nat, limit: int, window: nat)
    requires Within(Evicted(b, now, window).stamps, now - Span(window), now)
    ensures var kept := Evicted(b, now, window).stamps;
      Check(b, now, limit, window).0.stamps ==
        (if |kept| >= limit || (kept != [] && kept[|kept| - 1] == now) then kept else kept + [now]) &&
      (Check(b, now, limit, window).1.allowed <==> |kept| < limit) &&
      ExpiryOk(Check(b, now, limit, window).0, window)
  {
  }

  lemma EvictionRefinesHistory(calls: seq<Call>, window: nat, now: nat)
    requires Ordered(calls) && LastTime(calls) <= now && 1 <= window
    requires BucketAfter(calls, window).stamps == DistinctStamps(calls, window, LastTime(calls) - Span(window))
    requires ExpiryOk(BucketAfter(calls, window), window)
    ensures Evicted(BucketAfter(calls, window), now, window).stamps == DistinctStamps(calls, window, now - Span(window))
    ensures ExpiryOk(Evicted(BucketAfter(calls, window), now, window), window)
  {
    hide DistinctStamps, BucketAfter, Evicted;
    var low := LastTime(calls) - Span(window);
    DistinctShape(calls, window, low);
    DistinctNarrow(calls, window, low, now - Span(window));
    EvictedIsKept(BucketAfter(calls, window), now, window, low);
  }

  /** The expiry of the key removes nothing that the eviction would have kept. */
  lemma EvictedIsKept(b: Bucket, now: nat, window: nat, low: int)
    requires Increasing(b.stamps) && Within(b.stamps, low, now) && ExpiryOk(b, window)
    ensures Evicted(b, now, window).stamps == KeepAfter(b.stamps, now - Span(window))
    ensures ExpiryOk(Evicted(b, now, window), window)
  {
    hide Increasing, Within;
    var cutoff := now - Span(window);
    Kept(b.stamps, low, now, cutoff);
    if b.expiresAt.Some? && b.expiresAt.value <= now {
      AllBefore(b.stamps, low, now, cutoff);
      AllDropped(b.stamps, low, cutoff);
    }
  }

  lemma AllBefore(stamps: seq<nat>, low: int, high: int, cutoff: int)
    requires Within(stamps, low, high) && forall i :: 0 <= i < |stamps| ==> stamps[i] <= cutoff
    ensures Within(stamps, low, cutoff)
  {
  }

  // ---------- Theorems ----------

  /** What the limiter decides, for any calls in time order: a request is allowed if and only if
      fewer than `limit` distinct microseconds of the last window hold an allowed request. */
  lemma DecisionCountsDistinct(calls: seq<Call>, window: nat, now: nat, limit: int)
    requires Ordered(calls) && LastTime(calls) <= now && 1 <= window
    ensures var v := Check(BucketAfter(calls, window), now, limit, window).1;
      (v.allowed <==> |DistinctStamps(calls, window, now - Span(window))| < limit)
  {
    BucketRefinesHistory(calls, window);
    EvictionRefinesHistory(calls, window, now);
  }

  /** How many requests were allowed in a microsecond that already held an allowed request. */
  function Shared(calls: seq<Call>, window: nat, from: int): nat {
    if calls == [] then 0
    else
      var before := DistinctStamps(calls[..|calls| - 1], window, from);
      var now := calls[|calls| - 1].now;
      Shared(calls[..|calls| - 1], window, from) +
      (if LastAllowed(calls, window) && from < now && before != [] && before[|before| - 1] == now then 1 else 0)
  }

  lemma {:induction false} DistinctAndShared(calls: seq<Call>, window: nat, from: int)
    requires Ordered(calls)
    ensures AllowedIn(calls, window, from, LastTime(calls)) ==
      |DistinctStamps(calls, window, from)| + Shared(calls, window, from)
    ensures StrictlyOrdered(calls) ==> Shared(calls, window, from) == 0
    decreases |calls|
  {
    if calls != [] {
      var front := calls[..|calls| - 1];
      assert front != [] ==> LastTime(front) <= LastTime(calls);
      DistinctAndShared(front, window, from);
      DistinctShape(front, window, from);
      AllowedInLater(front, window, from, LastTime(front), LastTime(calls));
      if StrictlyOrdered(calls) && front != [] { assert LastTime(front) < LastTime(calls); }
    }
  }

  lemma {:induction false} AllowedInLater(calls: seq<Call>, window: nat, from: int, to: int, later: int)
    requires Ordered(calls) && LastTime(calls) <= to <= later
    ensures AllowedIn(calls, window, from, to) == AllowedIn(calls, window, from, later)
    decreases |calls|
  {
    if calls != [] {
      var front := calls[..|calls| - 1];
      assert front != [] ==> LastTime(front) <= LastTime(calls);
      AllowedInLater(front, window, from, to, later);
    }
  }

  lemma {:induction false} AllowedInShrinks(calls: seq<Call>, window: nat, low: int, high: int, to: int)
    requires low <= high
    ensures AllowedIn(calls, window, high, to) <= AllowedIn(calls, window, low, to)
  {
    if calls != [] { AllowedInShrinks(calls[..|calls| - 1], window, low, high, to); }
  }

  /** For strictly increasing times, a request is allowed if and only if fewer than `limit` requests
      of the whole history were allowed in the last window; peeking changes nothing. */
  lemma DecisionCountsHistory(calls: seq<Call>, window: nat, now: nat, limit: int)
    requires StrictlyOrdered(calls) && LastTime(calls) <= now && 1 <= window
    ensures Check(BucketAfter(calls, window), now, limit, window).1.allowed <==>
      AllowedIn(calls, window, now - window * 1_000_000, now) < limit
  {
    DecisionCountsDistinct(calls, window, now, limit);
    DistinctAndShared(calls, window, now - Span(window));
    AllowedInLater(calls, window, now - Span(window), LastTime(calls), now);
  }

  /** No window ever holds more than `limit` allowed requests. */
  lemma {:induction false} NoWindowOverLimit(calls: seq<Call>, window: nat, limit: int, from: int)
    requires StrictlyOrdered(calls) && ConstantLimit(calls, limit) && 0 <= limit && 1 <= window
    ensures AllowedIn(calls, window, from, from + window * 1_000_000) <= limit
    decreases |calls|
  {
    hide Check, BucketAfter, DistinctStamps;
    if calls != [] {
      var front, last := calls[..|calls| - 1], calls[|calls| - 1];
      var to := from + Span(window);
      NoWindowOverLimit(front, window, limit, from);
      if LastAllowed(calls, window) && from < last.now <= to {
        assert front != [] ==> LastTime(front) < last.now;
        DecisionCountsHistory(front, window, last.now, limit);
        AllowedInShrinks(front, window, last.now - Span(window), from, last.now);
        AllowedInLater(front, window, from, last.now, to);
      }
    }
  }

  /** With several requests per microsecond the promise can fail.  For any calls in time order, the
      decision is the promised one if and only if the requests that share a microsecond do not
      make up the difference to the limit. */
  lemma DecisionIsPromisedIff(calls: seq<Call>, window: nat, now: nat, limit: int)
    requires Ordered(calls) && LastTime(calls) <= now && 1 <= window
    ensures var from := now - Span(window);
      var promised := AllowedIn(calls, window, from, now);
      (Check(BucketAfter(calls, window), now, limit, window).1.allowed == (promised < limit)) <==>
      !(promised - Shared(calls, window, from) < limit <= promised)
  {
    hide BucketAfter, Shared;
    DecisionCountsDistinct(calls, window, now, limit);
    DistinctAndShared(calls, window, now - Span(window));
    AllowedInLater(calls, window, now - Span(window), LastTime(calls), now);
  }

  function Burst(now: nat, limit: int, n: nat): seq<Call> {
    if n == 0 then [] else Burst(now, limit, n - 1) + [Consume(now, limit)]
  }

  /** From a limit of two on, any number of requests in one microsecond is allowed. */
  lemma {:induction false} BurstIsUnlimited(now: nat, limit: int, n: nat, window: nat)
    requires 2 <= limit && 1 <= window
    ensures AllowedIn(Burst(now, limit, n), window, now - Span(window), now) == n
    ensures var b := BucketAfter(Burst(now, limit, n), window);
      if n == 0 then b == NO_KEY else b.stamps == [now] && (b.expiresAt.Some? ==> now < b.expiresAt.value)
  {
    hide Check, DistinctStamps;
    if n > 0 {
      var before := Burst(now, limit, n - 1);
      BurstIsUnlimited(now, limit, n - 1, window);
      assert Burst(now, limit, n) == before + [Consume(now, limit)];
      assert (before + [Consume(now, limit)])[..|before|] == before;
      CheckInBurst(BucketAfter(before, window), now, limit, window);
    }
  }

  lemma CheckInBurst(b: Bucket, now: nat, limit: int, window: nat)
    requires 2 <= limit && 1 <= window
    requires b == NO_KEY || (b.stamps == [now] && (b.expiresAt.Some? ==> now < b.expiresAt.value))
    ensures Check(b, now, limit, window).1.allowed && Check(b, now, limit, window).0.stamps == [now]
    ensures var e := Check(b, now, limit, window).0.expiresAt; e.Some? ==> now < e.value
  {
  }

  /** The count in the answer is the number of requests allowed in the window, this one included. */
  lemma CountIsReported(calls: seq<Call>, window: nat, now: nat, limit: int)
    requires StrictlyOrdered(calls) && 1 <= window
    requires calls != [] ==> LastTime(calls) < now
    ensures var v := Check(BucketAfter(calls, window), now, limit, window).1;
      v.count == AllowedIn(calls + [Consume(now, limit)], window, now - window * 1_000_000, now) &&
      (v.allowed ==> v.retryAfter == 0)
  {
    hide BucketAfter, DistinctStamps, Evicted, RetryAfter, AddStamp;
    var all, from := calls + [Consume(now, limit)], now - Span(window);
    assert all[..|calls|] == calls;
    BucketRefinesHistory(calls, window);
    EvictionRefinesHistory(calls, window, now);
    DistinctAndShared(calls, window, from);
    AllowedInLater(calls, window, from, LastTime(calls), now);
  }

  // ---------- Retry-After ----------

  lemma {:induction false} CountWithinLimit(calls: seq<Call>, window: nat, limit: int)
    requires Ordered(calls) && ConstantLimit(calls, limit) && 0 <= limit
    ensures |BucketAfter(calls, window).stamps| <= limit
    decreases |calls|
  {
    if calls != [] {
      var front, last := calls[..|calls| - 1], calls[|calls| - 1];
      CountWithinLimit(front, window, limit);
      KeepAfterShorter(BucketAfter(front, window).stamps, last.now - Span(window));
      AddStampLength(Evicted(BucketAfter(front, window), last.now, window).stamps, last.now);
    }
  }

  lemma {:induction false} KeepAfterShorter(stamps: seq<nat>, cutoff: int)
    ensures |KeepAfter(stamps, cutoff)| <= |stamps|
    ensures stamps != [] && stamps[0] <= cutoff ==> |KeepAfter(stamps, cutoff)| < |stamps|
  {
    if stamps != [] && stamps[0] <= cutoff { KeepAfterShorter(stamps[1..], cutoff); }
  }

  lemma {:induction false} AddStampLength(stamps: seq<nat>, now: nat)
    ensures |AddStamp(stamps, now)| <= |stamps| + 1
  {
    if stamps != [] && stamps[|stamps| - 1] > now { AddStampLength(stamps[..|stamps| - 1], now); }
  }

  /** Is call i a request that was allowed? */
  predicate AllowedAt(calls: seq<Call>, window: nat, i: nat)
    requires i < |calls|
  {
    LastAllowed(calls[..i + 1], window)
  }

  /** No call from position n on is a request that was allowed. */
  ghost predicate NoneAllowedFrom(calls: seq<Call>, window: nat, n: nat) {
    forall i :: n <= i < |calls| ==> !AllowedAt(calls, window, i)
  }

  lemma {:induction false} RejectedLeaveNoStamp(calls: seq<Call>, window: nat, n: nat, from: int)
    requires n <= |calls| && NoneAllowedFrom(calls, window, n)
    ensures DistinctStamps(calls, window, from) == DistinctStamps(calls[..n], window, from)
    decreases |calls|
  {
    hide LastAllowed;
    if n == |calls| {
      assert calls[..n] == calls;
    } else {
      var front := calls[..|calls| - 1];
      assert calls[..|calls| - 1 + 1] == calls && front[..n] == calls[..n];
      forall i | n <= i < |front| ensures !AllowedAt(front, window, i) {
        assert front[..i + 1] == calls[..i + 1] && !AllowedAt(calls, window, i);
      }
      assert !AllowedAt(calls, window, |front|);
      RejectedLeaveNoStamp(front, window, n, from);
    }
  }

  /** After a rejection, 1 <= retryAfter <= window, and a request made no earlier than that is allowed,
      whatever was rejected or only counted in between. */
  lemma RetryAfterSuffices(calls: seq<Call>, window: nat, now: nat, limit: int, more: seq<Call>, later: nat)
    requires StrictlyOrdered(calls) && ConstantLimit(calls, limit) && 1 <= limit && 1 <= window
    requires calls != [] ==> LastTime(calls) < now
    requires !Check(BucketAfter(calls, window), now, limit, window).1.allowed
    requires var all := calls + [Consume(now, limit)] + more;
      Ordered(all) && LastTime(all) <= later && NoneAllowedFrom(all, window, |calls| + 1)
    requires now + Check(BucketAfter(calls, window), now, limit, window).1.retryAfter * 1_000_000 <= later
    ensures 1 <= Check(BucketAfter(calls, window), now, limit, window).1.retryAfter <= window
    ensures Check(BucketAfter(calls + [Consume(now, limit)] + more, window), later, limit, window).1.allowed
  {
    hide BucketAfter, DistinctStamps, Evicted, RetryAfter, KeepAfter, NoneAllowedFrom;
    var all, from := calls + [Consume(now, limit)] + more, later - Span(window);
    var stamps := DistinctStamps(calls, window, now - Span(window));
    KeptAtLimit(calls, window, now, limit);
    BucketRefinesHistory(calls, window);
    EvictionRefinesHistory(calls, window, now);
    RetryBounds(stamps[0], now, window, later);
    RejectionIsNone(calls, window, now, limit, more);
    RejectedLeaveNoStamp(all, window, |calls|, from);
    assert all[..|calls|] == calls;
    DistinctNarrow(calls, window, now - Span(window), from);
    KeepAfterShorter(stamps, from);
    DecisionCountsDistinct(all, window, later, limit);
  }

  lemma RejectionIsNone(calls: seq<Call>, window: nat, now: nat, limit: int, more: seq<Call>)
    requires !Check(BucketAfter(calls, window), now, limit, window).1.allowed
    requires NoneAllowedFrom(calls + [Consume(now, limit)] + more, window, |calls| + 1)
    ensures NoneAllowedFrom(calls + [Consume(now, limit)] + more, window, |calls|)
  {
    hide Check, BucketAfter;
    var all := calls + [Consume(now, limit)] + more;
    forall i | |calls| <= i < |all| ensures !AllowedAt(all, window, i) {
      if i == |calls| {
        assert all[..i + 1] == calls + [Consume(now, limit)];
        assert (calls + [Consume(now, limit)])[..|calls|] == calls;
      }
    }
  }

  /** A rejection means that the window holds exactly `limit` stamps, all older than the request. */
  lemma KeptAtLimit(calls: seq<Call>, window: nat, now: nat, limit: int)
    requires StrictlyOrdered(calls) && ConstantLimit(calls, limit) && 1 <= limit && 1 <= window
    requires calls != [] ==> LastTime(calls) < now
    requires !Check(BucketAfter(calls, window), now, limit, window).1.allowed
    ensures var kept := Evicted(BucketAfter(calls, window), now, window).stamps;
      |kept| == limit && now - Span(window) < kept[0] < now
  {
    hide BucketAfter, Evicted, AddStamp, RetryAfter;
    BucketRefinesHistory(calls, window);
    EvictionRefinesHistory(calls, window, now);
    DistinctShape(calls, window, now - Span(window));
    CountWithinLimit(calls, window, limit);
    EvictionShrinks(BucketAfter(calls, window), now, window);
  }

  lemma EvictionShrinks(b: Bucket, now: nat, window: nat)
    ensures |Evicted(b, now, window).stamps| <= |b.stamps|
  {
    KeepAfterShorter(b.stamps, now - Span(window));
  }

  /** The wait is the least number of whole seconds that suffices, unless the oldest entry leaves the
      window after whole seconds exactly: with one second less, the next request is rejected if and
      only if it does not. */
  lemma RetryAfterIsLeastIff(calls: seq<Call>, window: nat, now: nat, limit: int)
    requires StrictlyOrdered(calls) && ConstantLimit(calls, limit) && 1 <= limit && 1 <= window
    requires calls != [] ==> LastTime(calls) < now
    requires !Check(BucketAfter(calls, window), now, limit, window).1.allowed
    ensures var (after, v) := Check(BucketAfter(calls, window), now, limit, window);
      var stamps := DistinctStamps(calls, window, now - Span(window));
      1 <= v.retryAfter && stamps != [] &&
      (!Check(after, now + (v.retryAfter - 1) * 1_000_000, limit, window).1.allowed <==>
         (stamps[0] + Span(window) - now) % 1_000_000 != 0)
  {
    hide BucketAfter, DistinctStamps;
    var b := BucketAfter(calls, window);
    KeptAtLimit(calls, window, now, limit);
    BucketRefinesHistory(calls, window);
    EvictionRefinesHistory(calls, window, now);
    RetryBounds(Evicted(b, now, window).stamps[0], now, window, now);
    OneSecondLess(b, now, limit, window);
  }

  lemma OneSecondLess(b: Bucket, now: nat, limit: int, window: nat)
    requires var kept := Evicted(b, now, window).stamps;
      1 <= |kept| == limit && now - Span(window) < kept[0] < now
    ensures var (after, v) := Check(b, now, limit, window);
      var oldest := Evicted(b, now, window).stamps[0];
      1 <= v.retryAfter <= window &&
      (!Check(after, now + (v.retryAfter - 1) * 1_000_000, limit, window).1.allowed <==>
         (oldest + Span(window) - now) % 1_000_000 != 0)
  {
    hide AddStamp;
    var kept := Evicted(b, now, window).stamps;
    var wait := RetryAfter(kept[0], now, window) - 1;
    RetryBounds(kept[0], now, window, now);
    SecondsLeft(kept[0], now, window);
    KeepAfterShorter(kept, now + wait * 1_000_000 - Span(window));
  }

  lemma SecondsLeft(oldest: nat, now: nat, window: nat)
    requires now - Span(window) < oldest < now
    ensures oldest <= now + (RetryAfter(oldest, now, window) - 1) * 1_000_000 - Span(window) <==>
      (oldest + Span(window) - now) % 1_000_000 == 0
  {
    var rest := oldest + Span(window) - now;
    assert rest == (rest / 1_000_000) * 1_000_000 + rest % 1_000_000;
  }

  lemma RetryBounds(oldest: nat, now: nat, window: nat, later: nat)
    requires now - Span(window) < oldest < now
    ensures 1 <= RetryAfter(oldest, now, window) <= window
    ensures now + RetryAfter(oldest, now, window) * 1_000_000 <= later ==> oldest <= later - Span(window)
  {
    var rest := oldest + Span(window) - now;
    assert rest == (rest / 1_000_000) * 1_000_000 + rest % 1_000_000;
  }

  // ---------- Expiry ----------

  /** The expiry of the key never drops an entry still inside the window. */
  lemma ExpiryIsHarmless(calls: seq<Call>, window: nat, now: nat)
    requires Ordered(calls) && LastTime(calls) <= now && 1 <= window
    requires BucketAfter(calls, window).expiresAt.Some? && BucketAfter(calls, window).expiresAt.value <= now
    ensures forall i :: 0 <= i < |BucketAfter(calls, window).stamps| ==>
      BucketAfter(calls, window).stamps[i] <= now - Span(window)
  {
    BucketRefinesHistory(calls, window);
  }

  /** A request leaves the key with an expiry if and only if an earlier entry was still in the window.
      Into an empty window it puts its own stamp alone, if it is allowed. */
  lemma ExpirySetIff(b: Bucket, now: nat, limit: int, window: nat)
    ensures var (after, v) := Check(b, now, limit, window);
      var kept := Evicted(b, now, window).stamps;
      (after.expiresAt.Some? <==> kept != []) && (kept != [] ==> after.stamps != []) &&
      (kept != [] ==> after.expiresAt == Some(now + (window + 10) * 1_000_000)) &&
      (kept == [] ==> after == if v.allowed then Bucket([now], None) else NO_KEY)
  {
    hide Evicted, RetryAfter;
    AddStampAdds(Evicted(b, now, window).stamps, now);
    EvictedIsNoKey(b, now, window);
  }

  lemma EvictedIsNoKey(b: Bucket, now: nat, window: nat)
    ensures Evicted(b, now, window).stamps == [] ==> Evicted(b, now, window) == NO_KEY
  {
  }

  lemma AddStampAdds(stamps: seq<nat>, now: nat)
    ensures AddStamp(stamps, now) != [] && (stamps == [] ==> AddStamp(stamps, now) == [now])
  {
  }

  /** Request i was allowed with no other allowed request in its window, and nothing has been requested
      since. */
  ghost predicate CreatedAt(calls: seq<Call>, window: nat, i: nat) {
    i < |calls| && calls[i].Consume? && LastAllowed(calls[..i + 1], window) &&
    DistinctStamps(calls[..i], window, calls[i].now - Span(window)) == [] &&
    forall j :: i < j < |calls| ==> calls[j].Peek?
  }

  ghost predicate CreatedInWindow(calls: seq<Call>, window: nat, i: nat) {
    CreatedAt(calls, window, i) && LastTime(calls) - Span(window) < calls[i].now
  }

  /** The key exists without an expiry if and only if a lone request created it. */
  ghost predicate LoneIffCreated(calls: seq<Call>, window: nat) {
    var b := BucketAfter(calls, window);
    (b.stamps == [] ==> b == NO_KEY) &&
    (b.stamps != [] && b.expiresAt == None <==> exists i: nat :: CreatedInWindow(calls, window, i)) &&
    forall i: nat :: CreatedInWindow(calls, window, i) ==> b.stamps == [calls[i].now]
  }

  /** After any calls in time order the key exists without an expiry if and only if its only entry is
      the last request so far, which found an empty window: without a further request such a key
      is never dropped.  An absent key has no expiry either. */
  lemma {:induction false} NeverExpiresIff(calls: seq<Call>, window: nat)
    requires Ordered(calls) && 1 <= window
    ensures LoneIffCreated(calls, window)
    decreases |calls|
  {
    hide LoneIffCreated, Ordered, BucketAfter, DistinctStamps, Evicted, ExpiryOk;
    if calls != [] {
      var front, last := calls[..|calls| - 1], calls[|calls| - 1];
      OrderedFront(calls);
      NeverExpiresIff(front, window);
      BucketRefinesHistory(front, window);
      EvictionRefinesHistory(front, window, last.now);
      if last.Consume? {
        ConsumeCreates(calls, window);
      } else {
        PeekKeeps(calls, window);
      }
    } else {
      NothingCreated(window);
    }
  }

  lemma NothingCreated(window: nat)
    ensures LoneIffCreated([], window)
  {
  }

  lemma ConsumeCreates(calls: seq<Call>, window: nat)
    requires calls != [] && calls[|calls| - 1].Consume? && 1 <= window
    requires var front, now := calls[..|calls| - 1], calls[|calls| - 1].now;
      Evicted(BucketAfter(front, window), now, window).stamps == DistinctStamps(front, window, now - Span(window))
    ensures LoneIffCreated(calls, window)
  {
    hide Check, Evicted, DistinctStamps;
    var n := |calls| - 1;
    assert calls[..n + 1] == calls;
    ExpirySetIff(BucketAfter(calls[..n], window), calls[n].now, calls[n].limit, window);
    forall i: nat ensures CreatedInWindow(calls, window, i) <==>
      i == n && LastAllowed(calls, window) && DistinctStamps(calls[..n], window, calls[n].now - Span(window)) == []
    {
    }
    var b := BucketAfter(calls, window);
    if b.stamps != [] && b.expiresAt == None {
      assert CreatedInWindow(calls, window, n);
    }
  }

  lemma PeekKeeps(calls: seq<Call>, window: nat)
    requires calls != [] && calls[|calls| - 1].Peek? && Ordered(calls) && 1 <= window
    requires LoneIffCreated(calls[..|calls| - 1], window)
    ensures LoneIffCreated(calls, window)
  {
    hide DistinctStamps, LastAllowed, CreatedInWindow, Evicted;
    var n := |calls| - 1;
    var front, now := calls[..n], calls[n].now;
    var b0 := BucketAfter(front, window);
    EvictOne(b0, now, window);
    forall i: nat
      ensures CreatedInWindow(calls, window, i) <==>
        i < n && CreatedInWindow(front, window, i) && now - Span(window) < calls[i].now
    {
      PeekCreates(calls, window, i);
    }
    if i: nat :| CreatedInWindow(front, window, i) {
      PeekCreates(calls, window, i);
      assert b0 == Bucket([front[i].now], None);
    }
  }

  /** A call that consumes nothing creates no key; it may outlive one. */
  lemma PeekCreates(calls: seq<Call>, window: nat, i: nat)
    requires calls != [] && calls[|calls| - 1].Peek? && Ordered(calls)
    ensures var n := |calls| - 1;
      CreatedInWindow(calls[..n], window, i) ==> i < n
    ensures var n := |calls| - 1;
      CreatedInWindow(calls, window, i) <==>
        i < n && CreatedInWindow(calls[..n], window, i) && calls[n].now - Span(window) < calls[i].now
  {
    hide DistinctStamps, LastAllowed;
    var front := calls[..|calls| - 1];
    if i < |front| {
      assert front[..i + 1] == calls[..i + 1] && front[..i] == calls[..i];
      assert LastTime(front) <= LastTime(calls);
    }
  }

  lemma EvictOne(b: Bucket, now: nat, window: nat)
    ensures Evicted(NO_KEY, now, window) == NO_KEY
    ensures b.expiresAt.Some? ==> Evicted(b, now, window) == NO_KEY || Evicted(b, now, window).expiresAt.Some?
    ensures |b.stamps| == 1 && b.expiresAt == None ==>
      Evicted(b, now, window) == if now - Span(window) < b.stamps[0] then b else NO_KEY
    ensures Evicted(b, now, window).stamps == [] ==> Evicted(b, now, window) == NO_KEY
  {
    KeepAfterShorter(b.stamps, now - Span(window));
  }

  /** The first request of all leaves a key that is never dropped on its own. */
  lemma FirstRequestNeverExpires(now: nat, window: nat)
    ensures BucketAfter([Consume(now, 1)], window) == Bucket([now], None)
  {
    assert [Consume(now, 1)][..0] == [];
    ExpirySetIff(NO_KEY, now, 1, window);
  }
}
