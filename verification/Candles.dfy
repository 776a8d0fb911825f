/** Price candles: the server's one-pass fold over logged trades, and the chart store that extends
    its result trade by trade. */
module Candles {
  import opened Domain
  import opened Division

  /** A logged trade, at whole seconds. */
  datatype Print = Print(ts: nat, price: real, qty: real)

  datatype Candle = Candle(time: nat, open: real, high: real, low: real, close: real, volume: real)

  function Bucket(ts: nat, tf: nat): nat
    requires 0 < tf
  {
    ts / tf * tf
  }

  function Opened(time: nat, t: Print): Candle {
    Candle(time, t.price, t.price, t.price, t.price, t.qty)
  }

  function Extended(c: Candle, t: Print): Candle {
    c.(high := Max(c.high, t.price), low := Min(c.low, t.price), close := t.price, volume := c.volume + t.qty)
  }

  /** One trade of the fold. */
  function Push(candles: seq<Candle>, t: Print, tf: nat): seq<Candle>
    requires 0 < tf
  {
    var bucket, n := Bucket(t.ts, tf), |candles|;
    if n > 0 && candles[n - 1].time == bucket then candles[..n - 1] + [Extended(candles[n - 1], t)]
    else candles + [Opened(bucket, t)]
  }

  function Fold(trades: seq<Print>, tf: nat): seq<Candle>
    requires 0 < tf
  {
    if trades == [] then [] else Push(Fold(trades[..|trades| - 1], tf), trades[|trades| - 1], tf)
  }

  function LastN<T>(xs: seq<T>, n: nat): seq<T> {
    if |xs| <= n then xs else xs[|xs| - n..]
  }

  /** The endpoint: a candle under construction is kept apart and appended when the bucket changes. */
  method GetCandles(trades: seq<Print>, tf: nat, limit: nat) returns (candles: seq<Candle>)
    requires 0 < tf
    ensures candles == LastN(Fold(trades, tf), limit)
  {
    candles := [];
    var current: Option<Candle> := None;
    for i := 0 to |trades|
      invariant (current == None) == (i == 0) && (current == None ==> candles == [])
      invariant Fold(trades[..i], tf) == if current == None then [] else candles + [current.value]
    {
      var trade := trades[i];
      var bucket := Bucket(trade.ts, tf);
      assert trades[..i + 1][..i] == trades[..i];
      if current == None || bucket != current.value.time {
        if current.Some? {
          candles := candles + [current.value];
        }
        current := Some(Opened(bucket, trade));
      } else {
        current := Some(Extended(current.value, trade));
      }
    }
    assert trades[..|trades|] == trades;
    if current.Some? {
      candles := candles + [current.value];
    }
    if |candles| > limit {
      candles := candles[|candles| - limit..];
    }
  }

  // ---------- Reference: group by bucket ----------

  ghost predicate TimeOrdered(trades: seq<Print>) {
    forall i, j :: 0 <= i < j < |trades| ==> trades[i].ts <= trades[j].ts
  }

  function Group(trades: seq<Print>, time: nat, tf: nat): seq<Print>
    requires 0 < tf
  {
    if trades == [] then []
    else
      var front, last := Group(trades[..|trades| - 1], time, tf), trades[|trades| - 1];
      if Bucket(last.ts, tf) == time then front + [last] else front
  }

  function Prices(trades: seq<Print>): (prices: seq<real>)
    ensures |prices| == |trades|
  {
    seq(|trades|, i requires 0 <= i < |trades| => trades[i].price)
  }

  function Traded(trades: seq<Print>): real {
    if trades == [] then 0.0 else Traded(trades[..|trades| - 1]) + trades[|trades| - 1].qty
  }

  /** The candle of a group: first, highest, lowest and last price, and the sum of quantities. */
  function Summary(time: nat, group: seq<Print>): Candle
    requires group != []
  {
    var prices := Prices(group);
    Candle(time, group[0].price, Highest(prices), Lowest(prices), group[|group| - 1].price, Traded(group))
  }

  ghost predicate TimesIncrease(candles: seq<Candle>) {
    forall i, j :: 0 <= i < j < |candles| ==> candles[i].time < candles[j].time
  }

  ghost predicate IsGroupBy(candles: seq<Candle>, trades: seq<Print>, tf: nat)
    requires 0 < tf
  {
    TimesIncrease(candles) && Summarizes(candles, trades, tf) && Covers(candles, trades, tf)
  }

  /** Each candle is the summary of the trades in its bucket. */
  ghost predicate Summarizes(candles: seq<Candle>, trades: seq<Print>, tf: nat)
    requires 0 < tf
  {
    forall i :: 0 <= i < |candles| ==>
      Group(trades, candles[i].time, tf) != [] &&
      candles[i] == Summary(candles[i].time, Group(trades, candles[i].time, tf))
  }

  /** Each trade's bucket has a candle. */
  ghost predicate Covers(candles: seq<Candle>, trades: seq<Print>, tf: nat)
    requires 0 < tf
  {
    forall k :: 0 <= k < |trades| ==> HasTime(candles, Bucket(trades[k].ts, tf))
  }

  ghost predicate HasTime(candles: seq<Candle>, time: nat) {
    exists i :: 0 <= i < |candles| && candles[i].time == time
  }

  lemma BucketMono(x: nat, y: nat, tf: nat)
    requires x <= y && 0 < tf
    ensures Bucket(x, tf) <= Bucket(y, tf)
  {
    DivLe(x, y, tf);
    MulLe(x / tf, y / tf, tf);
  }

  lemma {:induction false} GroupEmpty(trades: seq<Print>, time: nat, tf: nat)
    requires 0 < tf && forall k :: 0 <= k < |trades| ==> Bucket(trades[k].ts, tf) != time
    ensures Group(trades, time, tf) == []
  {
    if trades != [] { GroupEmpty(trades[..|trades| - 1], time, tf); }
  }

  lemma SummaryAppend(time: nat, group: seq<Print>, t: Print)
    ensures Summary(time, group + [t]) == if group == [] then Opened(time, t) else Extended(Summary(time, group), t)
  {
    var all := group + [t];
    assert all[..|all| - 1] == group && all[|all| - 1] == t;
    assert Traded(all) == Traded(group) + t.qty;
    if group == [] {
      assert all == [t];
      assert Prices(all) == [t.price];
      assert Summary(time, all) == Opened(time, t);
    } else {
      assert all[0] == group[0];
      assert Prices(all)[..|group|] == Prices(group) && Prices(all)[|group|] == t.price;
      assert Summary(time, all) == Extended(Summary(time, group), t);
    }
  }

  /** For time-ordered trades the fold is group-by-bucket: strictly increasing buckets, one for each
      bucket traded in, with the first and last price, the extremes and the exact volume. */
  lemma {:induction false} FoldIsGroupBy(trades: seq<Print>, tf: nat)
    requires 0 < tf && TimeOrdered(trades)
    ensures IsGroupBy(Fold(trades, tf), trades, tf)
    ensures Fold(trades, tf) == [] <==> trades == []
    ensures trades != [] ==> Fold(trades, tf)[|Fold(trades, tf)| - 1].time == Bucket(trades[|trades| - 1].ts, tf)
  {
    hide Bucket, IsGroupBy, TimeOrdered, Push;
    if trades == [] {
      NothingIsGroupBy(tf);
    } else {
      var front, t := trades[..|trades| - 1], trades[|trades| - 1];
      OrderedFront(trades);
      FoldIsGroupBy(front, tf);
      if front != [] { BucketMono(front[|front| - 1].ts, t.ts, tf); }
      PushIsGroupBy(Fold(front, tf), trades, tf);
      PushLastTime(Fold(front, tf), t, tf);
    }
  }

  lemma OrderedFront(trades: seq<Print>)
    requires TimeOrdered(trades) && trades != []
    ensures var front := trades[..|trades| - 1];
      TimeOrdered(front) && (front != [] ==> front[|front| - 1].ts <= trades[|trades| - 1].ts)
  {
  }

  lemma NothingIsGroupBy(tf: nat)
    requires 0 < tf
    ensures IsGroupBy([], [], tf)
  {
  }

  lemma PushLastTime(before: seq<Candle>, t: Print, tf: nat)
    requires 0 < tf
    ensures var after := Push(before, t, tf); after != [] && after[|after| - 1].time == Bucket(t.ts, tf)
  {
  }

  lemma PushIsGroupBy(before: seq<Candle>, trades: seq<Print>, tf: nat)
    requires 0 < tf && trades != [] && IsGroupBy(before, trades[..|trades| - 1], tf)
    requires before != [] ==> before[|before| - 1].time <= Bucket(trades[|trades| - 1].ts, tf)
    ensures IsGroupBy(Push(before, trades[|trades| - 1], tf), trades, tf)
  {
    hide Push, Summarizes, Covers, TimesIncrease;
    PushTimes(before, trades[|trades| - 1], tf);
    PushCovers(before, trades, tf);
    PushSummaries(before, trades, tf);
  }

  lemma PushTimes(before: seq<Candle>, t: Print, tf: nat)
    requires 0 < tf && TimesIncrease(before)
    requires before != [] ==> before[|before| - 1].time <= Bucket(t.ts, tf)
    ensures TimesIncrease(Push(before, t, tf))
  {
    hide Bucket;
    assert forall i :: 0 <= i < |before| - 1 ==> before[i].time < before[|before| - 1].time;
  }

  lemma PushSummaries(before: seq<Candle>, trades: seq<Print>, tf: nat)
    requires 0 < tf && trades != [] && IsGroupBy(before, trades[..|trades| - 1], tf)
    requires before != [] ==> before[|before| - 1].time <= Bucket(trades[|trades| - 1].ts, tf)
    ensures Summarizes(Push(before, trades[|trades| - 1], tf), trades, tf)
  {
    hide Bucket, Summary, Group, Push, IsGroupBy;
    var after := Push(before, trades[|trades| - 1], tf);
    forall i | 0 <= i < |after|
      ensures Group(trades, after[i].time, tf) != []
      ensures after[i] == Summary(after[i].time, Group(trades, after[i].time, tf))
    {
      PushSummary(before, trades, tf, i);
    }
  }

  lemma PushSummary(before: seq<Candle>, trades: seq<Print>, tf: nat, i: nat)
    requires 0 < tf && trades != [] && IsGroupBy(before, trades[..|trades| - 1], tf)
    requires before != [] ==> before[|before| - 1].time <= Bucket(trades[|trades| - 1].ts, tf)
    requires i < |Push(before, trades[|trades| - 1], tf)|
    ensures var c := Push(before, trades[|trades| - 1], tf)[i];
      Group(trades, c.time, tf) != [] && c == Summary(c.time, Group(trades, c.time, tf))
  {
    hide Bucket, Summary, Group;
    var front, t, n := trades[..|trades| - 1], trades[|trades| - 1], |before|;
    var c, b := Push(before, t, tf)[i], Bucket(t.ts, tf);
    GroupStep(trades, c.time, tf);
    if i < n - 1 { assert before[i].time < before[n - 1].time; }
    if c.time == b {
      SummaryAppend(b, Group(front, b, tf), t);
      if n == 0 || before[n - 1].time != b {
        assert forall j :: 0 <= j < n - 1 ==> before[j].time < before[n - 1].time;
        NotYetTraded(before, front, b, tf);
      }
    }
  }

  lemma PushCovers(before: seq<Candle>, trades: seq<Print>, tf: nat)
    requires 0 < tf && trades != [] && Covers(before, trades[..|trades| - 1], tf)
    ensures Covers(Push(before, trades[|trades| - 1], tf), trades, tf)
  {
    var after := Push(before, trades[|trades| - 1], tf);
    hide Bucket;
    forall k | 0 <= k < |trades| ensures HasTime(after, Bucket(trades[k].ts, tf)) {
      if k < |trades| - 1 {
        assert trades[..|trades| - 1][k] == trades[k];
        assert HasTime(before, Bucket(trades[k].ts, tf));
        var i :| 0 <= i < |before| && before[i].time == Bucket(trades[k].ts, tf);
        assert after[i].time == before[i].time;
      } else {
        assert after[|after| - 1].time == Bucket(trades[k].ts, tf);
      }
    }
  }

  lemma GroupStep(trades: seq<Print>, time: nat, tf: nat)
    requires 0 < tf && trades != []
    ensures var front, t := trades[..|trades| - 1], trades[|trades| - 1];
      Group(trades, time, tf) ==
        if Bucket(t.ts, tf) == time then Group(front, time, tf) + [t] else Group(front, time, tf)
  {
  }

  lemma NotYetTraded(candles: seq<Candle>, trades: seq<Print>, time: nat, tf: nat)
    requires 0 < tf && IsGroupBy(candles, trades, tf) && forall i :: 0 <= i < |candles| ==> candles[i].time != time
    ensures Group(trades, time, tf) == []
  {
    hide Bucket, Summary;
    forall k | 0 <= k < |trades| ensures Bucket(trades[k].ts, tf) != time {
      assert HasTime(candles, Bucket(trades[k].ts, tf));
    }
    GroupEmpty(trades, time, tf);
  }

  function Volume(candles: seq<Candle>): real {
    if candles == [] then 0.0 else Volume(candles[..|candles| - 1]) + candles[|candles| - 1].volume
  }

  /** Before truncation no volume is lost, in whatever order the trades come. */
  lemma {:induction false} FoldKeepsVolume(trades: seq<Print>, tf: nat)
    requires 0 < tf
    ensures Volume(Fold(trades, tf)) == Traded(trades)
  {
    if trades != [] {
      var before, t := Fold(trades[..|trades| - 1], tf), trades[|trades| - 1];
      FoldKeepsVolume(trades[..|trades| - 1], tf);
      var n := |before|;
      if n > 0 && before[n - 1].time == Bucket(t.ts, tf) {
        assert (before[..n - 1] + [Extended(before[n - 1], t)])[..n - 1] == before[..n - 1];
      } else {
        assert (before + [Opened(Bucket(t.ts, tf), t)])[..n] == before;
      }
    }
  }

  // ---------- The number of candles ----------

  lemma {:induction false} TimesAreMultiples(trades: seq<Print>, tf: nat)
    requires 0 < tf
    ensures forall i :: 0 <= i < |Fold(trades, tf)| ==> Fold(trades, tf)[i].time % tf == 0
  {
    if trades != [] {
      TimesAreMultiples(trades[..|trades| - 1], tf);
      BucketIsMultiple(trades[|trades| - 1].ts, tf);
    }
  }

  lemma BucketIsMultiple(ts: nat, tf: nat)
    requires 0 < tf
    ensures Bucket(ts, tf) % tf == 0
  {
    var b := Bucket(ts, tf);
    DivBounds(b, tf);
    if b / tf < ts / tf { MulLe(b / tf + 1, ts / tf, tf); NextMultiple(b / tf, tf); }
    NextMultiple(ts / tf, tf);
    if ts / tf < b / tf { MulLe(ts / tf + 1, b / tf, tf); }
  }

  /** Increasing multiples of the timeframe are at least that far apart. */
  lemma {:induction false} TimesSpread(candles: seq<Candle>, tf: nat, n: nat)
    requires 0 < tf && n < |candles| && TimesIncrease(candles)
    requires forall i :: 0 <= i < |candles| ==> candles[i].time % tf == 0
    ensures candles[0].time + n * tf <= candles[n].time
  {
    if n > 0 {
      TimesSpread(candles, tf, n - 1);
      MultiplesApart(candles[n - 1].time, candles[n].time, tf);
      NextMultiple(n - 1, tf);
    }
  }

  /** Trades of the last limit * timeframe seconds make at most limit + 1 candles. */
  lemma AtMostLimitPlusOne(trades: seq<Print>, tf: nat, limit: nat, now: nat)
    requires 0 < tf && TimeOrdered(trades)
    requires forall k :: 0 <= k < |trades| ==> now - limit * tf <= trades[k].ts <= now
    ensures |Fold(trades, tf)| <= limit + 1
  {
    hide Bucket;
    var candles := Fold(trades, tf);
    if trades != [] {
      FoldIsGroupBy(trades, tf);
      TimesAreMultiples(trades, tf);
      TimesSpread(candles, tf, |candles| - 1);
      FirstTime(trades, tf);
      BucketBounds(trades[0].ts, tf);
      BucketBounds(trades[|trades| - 1].ts, tf);
      NextMultiple(limit, tf);
      FewerMultiples(|candles| - 1, limit + 1, tf);
    }
  }

  lemma BucketBounds(ts: nat, tf: nat)
    requires 0 < tf
    ensures Bucket(ts, tf) <= ts < Bucket(ts, tf) + tf
  {
  }

  lemma {:induction false} FirstTime(trades: seq<Print>, tf: nat)
    requires 0 < tf && trades != []
    ensures Fold(trades, tf) != [] && Fold(trades, tf)[0].time == Bucket(trades[0].ts, tf)
  {
    if |trades| > 1 { FirstTime(trades[..|trades| - 1], tf); }
  }

  // ---------- The chart store ----------

  datatype Chart = Chart(candles: seq<Candle>, lastPrice: Option<real>)

  const CHART_SIZE: nat := 500

  function UpdateLastPrice(c: Chart, price: real, clock: nat, tf: nat): Chart
    requires 0 < tf
  {
    var n, bucket := |c.candles|, Bucket(clock, tf);
    if n == 0 then c.(lastPrice := Some(price))
    else
      var last := c.candles[n - 1];
      if last.time == bucket then
        var updated := last.(close := price, high := Max(last.high, price), low := Min(last.low, price));
        Chart(c.candles[..n - 1] + [updated], Some(price))
      else if bucket > last.time then
        Chart(LastN(c.candles + [Candle(bucket, price, price, price, price, 0.0)], CHART_SIZE), Some(price))
      else c.(lastPrice := Some(price))
  }

  function AddTradeToCandle(c: Chart, price: real, qty: real, clock: nat, tf: nat): Chart
    requires 0 < tf
  {
    var n, bucket := |c.candles|, Bucket(clock, tf);
    if n == 0 then c
    else
      var last := c.candles[n - 1];
      if last.time == bucket then
        var updated := last.(close := price, high := Max(last.high, price), low := Min(last.low, price),
                             volume := last.volume + qty);
        Chart(c.candles[..n - 1] + [updated], Some(price))
      else c
  }

  /** What the client's clock shows at each of the two updates of one trade. */
  datatype Clocks = Clocks(first: nat, second: nat)

  /** What the trade feed does with one message. */
  function OnTrade(c: Chart, t: Print, clocks: Clocks, tf: nat): Chart
    requires 0 < tf
  {
    AddTradeToCandle(UpdateLastPrice(c, t.price, clocks.first, tf), t.price, t.qty, clocks.second, tf)
  }

  /** Close, high and low of a candle, without the volume. */
  function Touched(c: Candle, price: real): Candle {
    c.(close := price, high := Max(c.high, price), low := Min(c.low, price))
  }

  /** The two updates of one trade, in one step. */
  lemma OnTradeEffect(c: Chart, t: Print, clocks: Clocks, tf: nat)
    requires 0 < tf && c.candles != []
    ensures var n, first, second := |c.candles|, Bucket(clocks.first, tf), Bucket(clocks.second, tf);
      var last := c.candles[n - 1];
      OnTrade(c, t, clocks, tf).candles ==
        if last.time < first then
          LastN(c.candles + [if first == second then Opened(first, t) else Opened(first, t.(qty := 0.0))], CHART_SIZE)
        else if last.time == second then c.candles[..n - 1] + [Extended(last, t)]
        else if last.time == first then c.candles[..n - 1] + [Touched(last, t.price)]
        else c.candles
  {
    hide Bucket;
    var n, first := |c.candles|, Bucket(clocks.first, tf);
    var last := c.candles[n - 1];
    if last.time == first {
      assert (c.candles[..n - 1] + [Touched(last, t.price)])[..n - 1] == c.candles[..n - 1];
    } else if last.time < first {
      LastNAppend(c.candles, Opened(first, t.(qty := 0.0)), Opened(first, t), CHART_SIZE);
    }
  }

  /** Whatever the clock shows, the trade's price becomes the last price; an empty chart stays empty. */
  lemma LastPriceIsShown(c: Chart, t: Print, clocks: Clocks, tf: nat)
    requires 0 < tf
    ensures OnTrade(c, t, clocks, tf).lastPrice == Some(t.price)
    ensures c.candles == [] ==> OnTrade(c, t, clocks, tf).candles == []
  {
    hide Bucket;
  }

  lemma LastNAppend<T>(xs: seq<T>, x: T, y: T, n: nat)
    requires 0 < n
    ensures var zs := LastN(xs + [x], n); zs != [] && zs[|zs| - 1] == x && zs[..|zs| - 1] + [y] == LastN(xs + [y], n)
    ensures LastN(LastN(xs, n) + [y], n) == LastN(xs + [y], n)
  {
  }

  lemma LastNUpdate<T>(xs: seq<T>, y: T, n: nat)
    requires 0 < n && xs != []
    ensures LastN(xs, n) != [] && LastN(xs, n)[|LastN(xs, n)| - 1] == xs[|xs| - 1]
    ensures LastN(xs[..|xs| - 1] + [y], n) == LastN(xs, n)[..|LastN(xs, n)| - 1] + [y]
  {
  }

  /** A chart that shows the last candles of the earlier trades shows, after the next trade, the last
      candles of all trades, if and only if the second update finds the clock in the trade's bucket,
      and so does the first, unless it is behind and the bucket has a candle already. */
  lemma ClientFollowsServerIff(c: Chart, prior: seq<Print>, t: Print, clocks: Clocks, tf: nat)
    requires 0 < tf && prior != [] && TimeOrdered(prior + [t]) && 0.0 < t.qty
    requires c.candles == LastN(Fold(prior, tf), CHART_SIZE)
    ensures OnTrade(c, t, clocks, tf).candles == LastN(Fold(prior + [t], tf), CHART_SIZE) <==>
      var bucket := Bucket(t.ts, tf);
      Bucket(clocks.second, tf) == bucket &&
      (Bucket(clocks.first, tf) == bucket ||
       (Bucket(clocks.first, tf) < bucket && Bucket(prior[|prior| - 1].ts, tf) == bucket))
  {
    hide Bucket;
    assert (prior + [t])[..|prior|] == prior && (prior + [t])[|prior|] == t;
    assert forall i :: 0 <= i < |prior| ==> (prior + [t])[i] == prior[i];
    FoldIsGroupBy(prior, tf);
    BucketMono(prior[|prior| - 1].ts, t.ts, tf);
    FollowsIff(c, Fold(prior, tf), t, clocks, tf);
  }

  /** A trade of second 60 that reaches the client while its clock shows 59 is added to the wrong
      minute. */
  lemma SlowClockMisplacesTrade()
    ensures var prior, t := [Print(0, 1.0, 1.0)], Print(60, 2.0, 1.0);
      var chart := Chart(Fold(prior, 60), None);
      OnTrade(chart, t, Clocks(59, 59), 60).candles != LastN(Fold(prior + [t], 60), CHART_SIZE)
  {
    hide Fold, OnTrade, Bucket;
    var prior, t := [Print(0, 1.0, 1.0)], Print(60, 2.0, 1.0);
    BucketBounds(59, 60);
    BucketIsMultiple(59, 60);
    BucketBounds(60, 60);
    BucketIsMultiple(60, 60);
    OneCandle(prior[0], 60);
    ClientFollowsServerIff(Chart(Fold(prior, 60), None), prior, t, Clocks(59, 59), 60);
  }

  lemma OneCandle(t: Print, tf: nat)
    requires 0 < tf
    ensures |Fold([t], tf)| == 1
  {
    assert [t][..0] == [];
    assert Fold([], tf) == [];
  }

  lemma FollowsIff(c: Chart, before: seq<Candle>, t: Print, clocks: Clocks, tf: nat)
    requires 0 < tf && before != [] && 0.0 < t.qty && before[|before| - 1].time <= Bucket(t.ts, tf)
    requires c.candles == LastN(before, CHART_SIZE)
    ensures OnTrade(c, t, clocks, tf).candles == LastN(Push(before, t, tf), CHART_SIZE) <==>
      var bucket := Bucket(t.ts, tf);
      Bucket(clocks.second, tf) == bucket &&
      (Bucket(clocks.first, tf) == bucket ||
       (Bucket(clocks.first, tf) < bucket && before[|before| - 1].time == bucket))
  {
    hide Bucket, OnTrade, LastN, Push;
    var first, second := Bucket(clocks.first, tf), Bucket(clocks.second, tf);
    var last := before[|before| - 1];
    LastNUpdate(before, last, CHART_SIZE);
    OnTradeEffect(c, t, clocks, tf);
    if last.time < first {
      ShowsAppendedIff(before, if first == second then Opened(first, t) else Opened(first, t.(qty := 0.0)), t, tf);
    } else if last.time == second {
      ShowsUpdatedIff(before, Extended(last, t), t, tf);
    } else if last.time == first {
      ShowsUpdatedIff(before, Touched(last, t.price), t, tf);
    } else {
      ShowsUpdatedIff(before, last, t, tf);
    }
  }

  /** A chart that appends a later candle shows what the fold does if and only if the fold opens that
      very candle. */
  lemma ShowsAppendedIff(before: seq<Candle>, x: Candle, t: Print, tf: nat)
    requires 0 < tf && before != [] && before[|before| - 1].time < x.time
    ensures LastN(LastN(before, CHART_SIZE) + [x], CHART_SIZE) == LastN(Push(before, t, tf), CHART_SIZE) <==>
      before[|before| - 1].time != Bucket(t.ts, tf) && x == Opened(Bucket(t.ts, tf), t)
  {
    hide Bucket, LastN;
    LastNAppend(before, x, x, CHART_SIZE);
    LastOfPush(before, t, tf);
  }

  /** A chart that rewrites its last candle shows what the fold does if and only if the fold extends
      that candle to the very same one. */
  lemma ShowsUpdatedIff(before: seq<Candle>, y: Candle, t: Print, tf: nat)
    requires 0 < tf && before != [] && y.time == before[|before| - 1].time && LastN(before, CHART_SIZE) != []
    ensures var shown := LastN(before, CHART_SIZE);
      shown[..|shown| - 1] + [y] == LastN(Push(before, t, tf), CHART_SIZE) <==>
      y.time == Bucket(t.ts, tf) && y == Extended(before[|before| - 1], t)
  {
    hide Bucket, LastN;
    var shown, wanted := LastN(before, CHART_SIZE), LastN(Push(before, t, tf), CHART_SIZE);
    LastNUpdate(before, Extended(before[|before| - 1], t), CHART_SIZE);
    LastOfPush(before, t, tf);
    assert (shown[..|shown| - 1] + [y])[|shown| - 1] == y;
  }

  lemma LastOfPush(before: seq<Candle>, t: Print, tf: nat)
    requires 0 < tf && before != []
    ensures var wanted, last := LastN(Push(before, t, tf), CHART_SIZE), before[|before| - 1];
      wanted != [] && wanted[|wanted| - 1] ==
        if last.time == Bucket(t.ts, tf) then Extended(last, t) else Opened(Bucket(t.ts, tf), t)
  {
    hide Bucket;
  }

  function OnTrades(c: Chart, trades: seq<Print>, clocks: seq<Clocks>, tf: nat): Chart
    requires 0 < tf && |trades| == |clocks|
  {
    if trades == [] then c
    else
      var n := |trades| - 1;
      OnTrade(OnTrades(c, trades[..n], clocks[..n], tf), trades[n], clocks[n], tf)
  }

  /** Both updates of the trade find the client's clock in the trade's bucket. */
  predicate BucketedAlike(t: Print, clocks: Clocks, tf: nat)
    requires 0 < tf
  {
    Bucket(clocks.first, tf) == Bucket(t.ts, tf) && Bucket(clocks.second, tf) == Bucket(t.ts, tf)
  }

  /** From a chart loaded from the server, any time-ordered trades, bucketed alike by both sides, lead
      to the last 500 candles of the server's fold over all trades. */
  lemma {:induction false} ClientEqualsServer(
      c: Chart, prior: seq<Print>, trades: seq<Print>, clocks: seq<Clocks>, tf: nat)
    requires 0 < tf && prior != [] && |trades| == |clocks| && TimeOrdered(prior + trades)
    requires c.candles == LastN(Fold(prior, tf), CHART_SIZE)
    requires forall k :: 0 <= k < |trades| ==> 0.0 < trades[k].qty && BucketedAlike(trades[k], clocks[k], tf)
    ensures OnTrades(c, trades, clocks, tf).candles == LastN(Fold(prior + trades, tf), 500)
    ensures trades != [] ==> OnTrades(c, trades, clocks, tf).lastPrice == Some(trades[|trades| - 1].price)
  {
    hide Bucket, Fold, OnTrade, LastN;
    if trades == [] {
      assert prior + trades == prior;
    } else {
      var n := |trades| - 1;
      assert TimeOrdered(prior + trades[..n]) by {
        assert forall i :: 0 <= i < |prior| + n ==> (prior + trades[..n])[i] == (prior + trades)[i];
      }
      ClientEqualsServer(c, prior, trades[..n], clocks[..n], tf);
      assert prior + trades[..n] + [trades[n]] == prior + trades;
      assert BucketedAlike(trades[n], clocks[n], tf);
      LastPriceIsShown(OnTrades(c, trades[..n], clocks[..n], tf), trades[n], clocks[n], tf);
      ClientFollowsServerIff(OnTrades(c, trades[..n], clocks[..n], tf), prior + trades[..n], trades[n], clocks[n], tf);
    }
  }
}
