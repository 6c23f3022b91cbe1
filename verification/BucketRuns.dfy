/** What holds over every run of submissions and flushes of the bucketed aggregator. */
module BucketRuns {
  import opened Wrappers
  import opened BucketMachine

  /** What a stored sample adds to its bucket and context. */
  datatype Credit = Credit(bucket: Time, ctx: Context, amount: real)

  /** The aggregator, the clock, and all that was accepted and reported so far. */
  datatype Ledger = Ledger(agg: Agg, clock: Time, credits: seq<Credit>, gauges: seq<Credit>, batches: seq<Batch>)

  datatype Event = Submission(x: Sample, now: Time, sampled: Time) | Flushing(now: Time, keys: seq<Time>)

  ghost predicate Enabled(l: Ledger, e: Event) {
    match e
    case Submission(_, now, sampled) => l.clock <= now <= sampled
    case Flushing(now, keys) => l.clock <= now && InOrder(keys, l.agg)
  }

  function CreditOf(cfg: Config, a: Agg, x: Sample, now: Time): seq<Credit> {
    var b, ctx := BucketStart(cfg, Stamp(x, now)), ContextOf(cfg, x);
    var cell := CellFor(CellsAt(a, b), ctx, x);
    if TooOld(cfg, x, now) || cell.None? || cell.value.kind != Counter || x.rate == 0.0 then []
    else [Credit(b, ctx, Weight(x))]
  }

  function GaugeOf(cfg: Config, a: Agg, x: Sample, now: Time): seq<Credit> {
    var b, ctx := BucketStart(cfg, Stamp(x, now)), ContextOf(cfg, x);
    var cell := CellFor(CellsAt(a, b), ctx, x);
    if TooOld(cfg, x, now) || cell.None? || cell.value.kind != Gauge then [] else [Credit(b, ctx, x.value)]
  }

  function Step(cfg: Config, l: Ledger, e: Event): Ledger {
    match e
    case Submission(x, now, sampled) =>
      Ledger(Submit(cfg, l.agg, x, now, sampled), sampled, l.credits + CreditOf(cfg, l.agg, x, now),
             l.gauges + GaugeOf(cfg, l.agg, x, now), l.batches)
    case Flushing(now, keys) =>
      var (a, batches) := Flush(cfg, l.agg, keys, now);
      Ledger(a, now, l.credits, l.gauges, l.batches + batches)
  }

  ghost predicate Reaches(cfg: Config, l: Ledger, events: seq<Event>, r: Ledger)
    decreases |events|
  {
    if events == [] then r == l
    else Enabled(l, events[0]) && Reaches(cfg, Step(cfg, l, events[0]), events[1..], r)
  }

  const Start := Ledger(Empty, 0, [], [], [])

  // ---- conservation ----

  function Accepted(credits: seq<Credit>, b: Time, c: Context): real {
    if credits == [] then 0.0
    else
      var last := credits[|credits| - 1];
      Accepted(credits[..|credits| - 1], b, c) + if last.bucket == b && last.ctx == c then last.amount else 0.0
  }

  /** What one batch reports of (or drops from) counter `c` in bucket `b`, times the interval. */
  function Share(cfg: Config, batch: Batch, b: Time, c: Context): real {
    var reported := if c in batch.rates then batch.rates[c] * cfg.interval as real else 0.0;
    var dropped := if c in batch.dropped then batch.dropped[c] else 0.0;
    if batch.ts == b then reported + dropped else 0.0
  }

  function Settled(cfg: Config, batches: seq<Batch>, b: Time, c: Context): real {
    if batches == [] then 0.0
    else Settled(cfg, batches[..|batches| - 1], b, c) + Share(cfg, batches[|batches| - 1], b, c)
  }

  function Pending(a: Agg, b: Time, c: Context): real {
    if c in CellsAt(a, b) && CellsAt(a, b)[c].kind == Counter then CellsAt(a, b)[c].Amount() else 0.0
  }

  ghost predicate Conserved(cfg: Config, l: Ledger) {
    forall b, c :: Accepted(l.credits, b, c) == Settled(cfg, l.batches, b, c) + Pending(l.agg, b, c)
  }

  lemma {:induction false} SettledAppend(cfg: Config, xs: seq<Batch>, ys: seq<Batch>, b: Time, c: Context)
    ensures Settled(cfg, xs + ys, b, c) == Settled(cfg, xs, b, c) + Settled(cfg, ys, b, c)
  {
    if ys == [] {
      assert xs + ys == xs;
    } else {
      var front := ys[..|ys| - 1];
      SettledAppend(cfg, xs, front, b, c);
      assert (xs + ys)[..|xs + ys| - 1] == xs + front;
    }
  }

  lemma Divides(v: real, n: int)
    requires n > 0
    ensures v / n as real * n as real == v
  {
  }

  lemma ShareOfBatch(cfg: Config, a: Agg, b: Time, limit: Time, c: Context)
    ensures Share(cfg, BatchOf(cfg, CellsAt(a, b), a.register, b, limit), b, c) == Pending(a, b, c)
  {
    if c in CellsAt(a, b) {
      Divides(CellsAt(a, b)[c].Amount(), cfg.interval);
    }
  }

  lemma BucketConserves(cfg: Config, a: Agg, key: Time, limit: Time, b: Time, c: Context)
    ensures Share(cfg, BatchOf(cfg, CellsAt(a, key), a.register, key, limit), b, c)
          + Pending(FlushBucket(cfg, a, key, limit), b, c)
         == Pending(a, b, c)
  {
    if key == b {
      ShareOfBatch(cfg, a, b, limit, c);
    } else {
      assert CellsAt(FlushBucket(cfg, a, key, limit), b) == CellsAt(a, b);
    }
  }

  lemma SettledOne(cfg: Config, batches: seq<Batch>, batch: Batch, b: Time, c: Context)
    ensures Settled(cfg, batches + [batch], b, c) == Settled(cfg, batches, b, c) + Share(cfg, batch, b, c)
  {
    assert (batches + [batch])[..|batches|] == batches;
  }

  lemma {:induction false} FlushKeysConserves(cfg: Config, a: Agg, keys: seq<Time>, cutoff: Time, limit: Time, b: Time,
                                              c: Context)
    ensures var (r, batches) := FlushKeys(cfg, a, keys, cutoff, limit);
      Settled(cfg, batches, b, c) + Pending(r, b, c) == Pending(a, b, c)
  {
    if keys != [] {
      var key, front := keys[|keys| - 1], keys[..|keys| - 1];
      FlushKeysConserves(cfg, a, front, cutoff, limit, b, c);
      if key < cutoff {
        var (a1, batches) := FlushKeys(cfg, a, front, cutoff, limit);
        BucketConserves(cfg, a1, key, limit, b, c);
        SettledOne(cfg, batches, BatchOf(cfg, CellsAt(a1, key), a1.register, key, limit), b, c);
      }
    }
  }

  lemma ZerosSettleNothing(cfg: Config, register: map<Context, Time>, ts: Time, limit: Time, b: Time, c: Context)
    ensures Settled(cfg, [BatchOf(cfg, map[], register, ts, limit)], b, c) == 0.0
  {
    var batch := BatchOf(cfg, map[], register, ts, limit);
    assert [batch][..0] == [];
    assert Share(cfg, batch, b, c) == 0.0;
  }

  lemma FlushConserves(cfg: Config, a: Agg, keys: seq<Time>, cutoff: Time, limit: Time, b: Time, c: Context)
    ensures var (r, batches) := FlushAt(cfg, a, keys, cutoff, limit);
      Settled(cfg, batches, b, c) + Pending(r, b, c) == Pending(a, b, c)
  {
    if a.buckets != map[] {
      FlushKeysConserves(cfg, a, keys, cutoff, limit, b, c);
    } else {
      ZerosSettleNothing(cfg, a.register, cutoff - cfg.interval, limit, b, c);
    }
  }

  lemma SubmitConserves(cfg: Config, a: Agg, x: Sample, now: Time, sampled: Time, credits: seq<Credit>, b: Time,
                        c: Context)
    ensures Accepted(credits + CreditOf(cfg, a, x, now), b, c) - Pending(Submit(cfg, a, x, now, sampled), b, c)
         == Accepted(credits, b, c) - Pending(a, b, c)
  {
    var more := CreditOf(cfg, a, x, now);
    if more == [] {
      assert credits + more == credits;
    } else {
      assert (credits + more)[..|credits|] == credits;
    }
  }

  lemma StepConserves(cfg: Config, l: Ledger, e: Event)
    requires Conserved(cfg, l)
    ensures Conserved(cfg, Step(cfg, l, e))
  {
    var r := Step(cfg, l, e);
    forall b, c ensures Accepted(r.credits, b, c) == Settled(cfg, r.batches, b, c) + Pending(r.agg, b, c) {
      match e
      case Submission(x, now, sampled) => SubmitConserves(cfg, l.agg, x, now, sampled, l.credits, b, c);
      case Flushing(now, keys) =>
        FlushConserves(cfg, l.agg, keys, BucketStart(cfg, now), now - cfg.expiry, b, c);
        SettledAppend(cfg, l.batches, Flush(cfg, l.agg, keys, now).1, b, c);
    }
  }

  lemma {:induction false} RunConserves(cfg: Config, l: Ledger, events: seq<Event>, r: Ledger)
    requires Conserved(cfg, l) && Reaches(cfg, l, events, r)
    ensures Conserved(cfg, r)
    decreases |events|
  {
    if events != [] {
      StepConserves(cfg, l, events[0]);
      RunConserves(cfg, Step(cfg, l, events[0]), events[1..], r);
    }
  }

  /** For every bucket and counter context, over any run at all: what was accepted is
      what was reported times the interval, plus what expiry dropped, plus what waits. */
  lemma CounterConservation(cfg: Config, events: seq<Event>, r: Ledger, b: Time, c: Context)
    requires Reaches(cfg, Start, events, r)
    ensures Accepted(r.credits, b, c) == Settled(cfg, r.batches, b, c) + Pending(r.agg, b, c)
  {
    StartIsOrdered(cfg);
    RunConserves(cfg, Start, events, r);
  }

  // ---- submissions ----

  /** A bucket that a submission makes is no older than the threshold allows. */
  lemma StoredIsRecent(cfg: Config, a: Agg, x: Sample, now: Time, sampled: Time, b: Time)
    requires cfg.recent >= 0 && b !in a.buckets && b in Submit(cfg, a, x, now, sampled).buckets
    ensures now - cfg.recent < b + cfg.interval
  {
  }

  function ValueAt(a: Agg, b: Time, c: Context): Option<real> {
    if c in CellsAt(a, b) then CellsAt(a, b)[c].value else None
  }

  /** What the verdict says: a stored sample has added its weight to a counter, or is the
      value of a gauge, and no other metric changed; any other verdict means that no
      value changed, though an empty metric may have come to be. */
  lemma VerdictTellsEffect(cfg: Config, a: Agg, x: Sample, now: Time, sampled: Time, b: Time, c: Context)
    ensures var r := Submit(cfg, a, x, now, sampled);
      var here := b == BucketStart(cfg, Stamp(x, now)) && c == ContextOf(cfg, x);
      if SubmitVerdict(cfg, a, x, now) == Stored && here then
        && c in CellsAt(r, b) && CellsAt(r, b)[c].last == Some(sampled)
        && (c in CellsAt(a, b) ==> CellsAt(r, b)[c].kind == CellsAt(a, b)[c].kind)
        && (c !in CellsAt(a, b) ==> x.mtype == Typed(CellsAt(r, b)[c].kind))
        && (if CellsAt(r, b)[c].kind == Gauge then ValueAt(r, b, c) == Some(x.value)
            else x.rate != 0.0 && Pending(r, b, c) == Pending(a, b, c) + Weight(x))
      else
        ValueAt(r, b, c) == ValueAt(a, b, c) || (here && ValueAt(r, b, c) == Some(0.0) && c !in CellsAt(a, b))
  {
  }

  // ---- gauges ----

  function Latest(credits: seq<Credit>, b: Time, c: Context): Option<real> {
    if credits == [] then None
    else
      var last := credits[|credits| - 1];
      if last.bucket == b && last.ctx == c then Some(last.amount) else Latest(credits[..|credits| - 1], b, c)
  }

  /** Every gauge that waits has the value last sampled. */
  ghost predicate GaugesAreLatest(a: Agg, samples: seq<Credit>) {
    forall b, c :: c in CellsAt(a, b) && CellsAt(a, b)[c].kind == Gauge ==>
      CellsAt(a, b)[c].value == Latest(samples, b, c)
  }

  lemma SubmitGauge(cfg: Config, a: Agg, x: Sample, now: Time, sampled: Time, samples: seq<Credit>)
    requires GaugesAreLatest(a, samples)
    ensures GaugesAreLatest(Submit(cfg, a, x, now, sampled), samples + GaugeOf(cfg, a, x, now))
  {
    var r, more := Submit(cfg, a, x, now, sampled), GaugeOf(cfg, a, x, now);
    forall b, c | c in CellsAt(r, b) && CellsAt(r, b)[c].kind == Gauge
      ensures CellsAt(r, b)[c].value == Latest(samples + more, b, c)
    {
      if more == [] {
        assert samples + more == samples;
      } else {
        assert (samples + more)[..|samples|] == samples;
      }
    }
  }

  lemma {:induction false} FlushKeysGauges(cfg: Config, a: Agg, keys: seq<Time>, cutoff: Time, limit: Time,
                                           samples: seq<Credit>)
    requires GaugesAreLatest(a, samples)
    ensures GaugesAreLatest(FlushKeys(cfg, a, keys, cutoff, limit).0, samples)
  {
    if keys != [] {
      FlushKeysGauges(cfg, a, keys[..|keys| - 1], cutoff, limit, samples);
      FlushKeysBuckets(cfg, a, keys[..|keys| - 1], cutoff, limit);
    }
  }

  lemma {:induction false} GaugesStayLatest(cfg: Config, l: Ledger, events: seq<Event>, r: Ledger)
    requires GaugesAreLatest(l.agg, l.gauges) && Reaches(cfg, l, events, r)
    ensures GaugesAreLatest(r.agg, r.gauges)
    decreases |events|
  {
    if events != [] {
      match events[0] {
        case Submission(x, now, sampled) => SubmitGauge(cfg, l.agg, x, now, sampled, l.gauges);
        case Flushing(now, keys) =>
          FlushKeysGauges(cfg, l.agg, keys, BucketStart(cfg, now), now - cfg.expiry, l.gauges);
      }
      GaugesStayLatest(cfg, Step(cfg, l, events[0]), events[1..], r);
    }
  }

  /** In every run a flush reports of a gauge the last value sampled for its bucket. */
  lemma GaugesReportLatest(cfg: Config, events: seq<Event>, r: Ledger, keys: seq<Time>, now: Time, i: nat, c: Context)
    requires Reaches(cfg, Start, events, r) && InOrder(keys, r.agg)
    requires i < |Flush(cfg, r.agg, keys, now).1| && c in Flush(cfg, r.agg, keys, now).1[i].gauges
    ensures var batch := Flush(cfg, r.agg, keys, now).1[i]; Some(batch.gauges[c]) == Latest(r.gauges, batch.ts, c)
  {
    GaugesStayLatest(cfg, Start, events, r);
    TellsItsBucket(cfg, r.agg, keys, now, i);
  }

  // ---- windows ----

  /** A sample that is stored goes to a bucket from the last cutoff on. */
  predicate OnTime(cfg: Config, a: Agg, e: Event) {
    e.Submission? ==> TooOld(cfg, e.x, e.now) || a.cutoff <= BucketStart(cfg, Stamp(e.x, e.now))
  }

  ghost predicate OnTimeRun(cfg: Config, l: Ledger, events: seq<Event>)
    decreases |events|
  {
    events != [] ==> OnTime(cfg, l.agg, events[0]) && OnTimeRun(cfg, Step(cfg, l, events[0]), events[1..])
  }

  ghost predicate Windowed(batches: seq<Batch>, from: Time, to: Time) {
    && (forall i :: 0 <= i < |batches| ==> from <= batches[i].ts < to)
    && (forall i, j :: 0 <= i < j < |batches| ==> batches[i].ts < batches[j].ts)
  }

  /** All that waits belongs to buckets from the last cutoff on. */
  ghost predicate Timely(a: Agg, clock: Time) {
    0 <= a.cutoff <= clock && forall b :: b in a.buckets ==> a.cutoff <= b
  }

  lemma {:induction false} StartMonotone(cfg: Config, s: Time, t: Time)
    requires s <= t
    ensures BucketStart(cfg, s) <= BucketStart(cfg, t)
    decreases if s < 0 then cfg.interval - s else 0, t
  {
    var n := cfg.interval;
    if s < 0 {
      StartShifts(cfg, t);
      StartMonotone(cfg, s + n, t + n);
    } else if n <= t {
      StartMonotone(cfg, if s < n then 0 else s - n, t - n);
    }
  }

  lemma {:induction false} StartShifts(cfg: Config, t: Time)
    ensures BucketStart(cfg, t + cfg.interval) == BucketStart(cfg, t) + cfg.interval
  {
  }

  lemma {:induction false} FlushKeysBuckets(cfg: Config, a: Agg, keys: seq<Time>, cutoff: Time, limit: Time)
    ensures var r := FlushKeys(cfg, a, keys, cutoff, limit).0;
      && r.cutoff == a.cutoff
      && (forall b :: b in r.buckets <==> b in a.buckets && !(b in keys && b < cutoff))
      && (forall b :: b in r.buckets ==> r.buckets[b] == a.buckets[b])
  {
    if keys != [] {
      FlushKeysBuckets(cfg, a, keys[..|keys| - 1], cutoff, limit);
      assert keys == keys[..|keys| - 1] + [keys[|keys| - 1]];
    }
  }

  ghost predicate Stamped(batches: seq<Batch>, keys: seq<Time>, cutoff: Time) {
    forall i :: 0 <= i < |batches| ==> batches[i].ts in keys && batches[i].ts < cutoff
  }

  lemma {:induction false} FlushKeysStamps(cfg: Config, a: Agg, keys: seq<Time>, cutoff: Time, limit: Time)
    ensures Stamped(FlushKeys(cfg, a, keys, cutoff, limit).1, keys, cutoff)
  {
    if keys != [] {
      FlushKeysStamps(cfg, a, keys[..|keys| - 1], cutoff, limit);
    }
  }

  lemma {:induction false} FlushKeysWindow(cfg: Config, a: Agg, keys: seq<Time>, from: Time, cutoff: Time, limit: Time)
    requires forall i, j :: 0 <= i < j < |keys| ==> keys[i] < keys[j]
    requires forall i :: 0 <= i < |keys| ==> from <= keys[i]
    ensures Windowed(FlushKeys(cfg, a, keys, cutoff, limit).1, from, cutoff)
  {
    if keys != [] {
      var key, front := keys[|keys| - 1], keys[..|keys| - 1];
      FlushKeysWindow(cfg, a, front, from, cutoff, limit);
      FlushKeysStamps(cfg, a, front, cutoff, limit);
      forall t | t in front ensures t < key {
        var i :| 0 <= i < |front| && front[i] == t;
        assert keys[i] == t;
      }
    }
  }

  lemma FlushAtWindow(cfg: Config, a: Agg, keys: seq<Time>, clock: Time, now: Time, cutoff: Time, limit: Time)
    requires InOrder(keys, a) && Timely(a, clock) && clock <= now && a.cutoff <= cutoff <= now < cutoff + cfg.interval
    ensures Timely(FlushAt(cfg, a, keys, cutoff, limit).0, now)
    ensures Windowed(FlushAt(cfg, a, keys, cutoff, limit).1, a.cutoff, cutoff)
  {
    if a.buckets != map[] {
      FlushKeysBuckets(cfg, a, keys, cutoff, limit);
      forall i | 0 <= i < |keys| ensures a.cutoff <= keys[i] {
        assert keys[i] in keys;
      }
      FlushKeysWindow(cfg, a, keys, a.cutoff, cutoff, limit);
    }
  }

  lemma FlushIsTimely(cfg: Config, a: Agg, keys: seq<Time>, clock: Time, now: Time)
    requires InOrder(keys, a) && Timely(a, clock) && clock <= now
    requires a.cutoff == BucketStart(cfg, a.cutoff)
    ensures var (r, batches) := Flush(cfg, a, keys, now);
      && Timely(r, now) && r.cutoff == BucketStart(cfg, now) == BucketStart(cfg, r.cutoff)
      && Windowed(batches, a.cutoff, r.cutoff)
  {
    StartMonotone(cfg, a.cutoff, now);
    StartIsFixed(cfg, now);
    FlushAtWindow(cfg, a, keys, clock, now, BucketStart(cfg, now), now - cfg.expiry);
  }

  lemma {:induction false} StartIsFixed(cfg: Config, t: Time)
    ensures BucketStart(cfg, BucketStart(cfg, t)) == BucketStart(cfg, t)
    decreases if t < 0 then cfg.interval - t else t
  {
    if t < 0 {
      StartIsFixed(cfg, t + cfg.interval);
      StartShifts(cfg, BucketStart(cfg, t));
    } else if t >= cfg.interval {
      StartIsFixed(cfg, t - cfg.interval);
      StartShifts(cfg, BucketStart(cfg, t - cfg.interval));
    }
  }

  ghost predicate Ordered(cfg: Config, l: Ledger) {
    && Timely(l.agg, l.clock) && l.agg.cutoff == BucketStart(cfg, l.agg.cutoff)
    && Windowed(l.batches, 0, l.agg.cutoff)
  }

  lemma WindowsJoin(xs: seq<Batch>, ys: seq<Batch>, from: Time, mid: Time, to: Time)
    requires from <= mid <= to && Windowed(xs, from, mid) && Windowed(ys, mid, to)
    ensures Windowed(xs + ys, from, to)
  {
  }

  lemma StepOrdered(cfg: Config, l: Ledger, e: Event)
    requires Ordered(cfg, l) && Enabled(l, e) && OnTime(cfg, l.agg, e)
    ensures Ordered(cfg, Step(cfg, l, e))
  {
    match e
    case Submission(x, now, sampled) =>
    case Flushing(now, keys) =>
      FlushIsTimely(cfg, l.agg, keys, l.clock, now);
      StartMonotone(cfg, l.agg.cutoff, now);
      WindowsJoin(l.batches, Flush(cfg, l.agg, keys, now).1, 0, l.agg.cutoff, BucketStart(cfg, now));
  }

  lemma {:induction false} RunOrdered(cfg: Config, l: Ledger, events: seq<Event>, r: Ledger)
    requires Ordered(cfg, l) && Reaches(cfg, l, events, r) && OnTimeRun(cfg, l, events)
    ensures Ordered(cfg, r)
    decreases |events|
  {
    if events != [] {
      StepOrdered(cfg, l, events[0]);
      RunOrdered(cfg, Step(cfg, l, events[0]), events[1..], r);
    }
  }

  /** With no sample stored late, whatever the stamps, the batches of a whole run are in
      strictly increasing time order, so no bucket is ever reported twice; and a batch has
      at most one value for a counter, be it real or a zero. */
  lemma NoBucketTwice(cfg: Config, events: seq<Event>, r: Ledger)
    requires Reaches(cfg, Start, events, r) && OnTimeRun(cfg, Start, events)
    ensures forall i, j :: 0 <= i < j < |r.batches| ==> r.batches[i].ts < r.batches[j].ts
    ensures forall i :: 0 <= i < |r.batches| ==> 0 <= r.batches[i].ts < r.agg.cutoff
    ensures forall b :: b in r.agg.buckets ==> r.agg.cutoff <= b
  {
    StartIsOrdered(cfg);
    RunOrdered(cfg, Start, events, r);
  }

  /** In such a run a flush reports only buckets from the previous cutoff to this one, in
      order. */
  lemma FlushWindow(cfg: Config, events: seq<Event>, r: Ledger, now: Time, keys: seq<Time>)
    requires Reaches(cfg, Start, events, r) && OnTimeRun(cfg, Start, events) && Enabled(r, Flushing(now, keys))
    ensures Windowed(Flush(cfg, r.agg, keys, now).1, r.agg.cutoff, BucketStart(cfg, now))
  {
    StartIsOrdered(cfg);
    RunOrdered(cfg, Start, events, r);
    FlushIsTimely(cfg, r.agg, keys, r.clock, now);
  }

  lemma StartIsOrdered(cfg: Config)
    ensures Ordered(cfg, Start) && Conserved(cfg, Start)
  {
  }

  function CounterSample(timestamp: Option<Time>): Sample {
    Sample("m", 1.0, Typed(Counter), None, None, None, timestamp, 1.0)
  }

  lemma CounterStep(cfg: Config, l: Ledger, timestamp: Option<Time>, now: Time)
    requires cfg == Settings(10, 300, 3600, "h") && l.agg.buckets == map[] && l.clock <= now
    requires BucketStart(cfg, Stamp(CounterSample(timestamp), now)) == 0 && !TooOld(cfg, CounterSample(timestamp), now)
    ensures var e := Submission(CounterSample(timestamp), now, now);
      var r := Step(cfg, l, e);
      && r.agg == l.agg.(buckets := map[0 := map[Context("m", [], "h", None) := Cell(Counter, Some(1.0), Some(now))]])
      && r.clock == now && r.batches == l.batches
  {
    var x := CounterSample(timestamp);
    assert Weight(x) == 1.0;
  }

  lemma FirstBucketStep(cfg: Config, l: Ledger, sampled: Time, now: Time)
    requires cfg == Settings(10, 300, 3600, "h") && l.clock <= now && 10 <= now < sampled + 300
    requires l.agg.buckets == map[0 := map[Context("m", [], "h", None) := Cell(Counter, Some(1.0), Some(sampled))]]
    ensures Enabled(l, Flushing(now, [0]))
    ensures var r := Step(cfg, l, Flushing(now, [0]));
      && r.agg.buckets == map[] && r.agg.cutoff == BucketStart(cfg, now) && r.clock == now
      && |r.batches| == |l.batches| + 1 && r.batches[..|l.batches|] == l.batches
      && r.batches[|l.batches|].ts == 0 && Context("m", [], "h", None) in r.batches[|l.batches|].rates
  {
    var limit := now - cfg.expiry;
    assert [0][..0] == [] && FlushKeys(cfg, l.agg, [], BucketStart(cfg, now), limit) == (l.agg, []);
    assert LiveCounter(CellsAt(l.agg, 0), Context("m", [], "h", None), limit);
    var (a, batches) := Flush(cfg, l.agg, [0], now);
    assert batches == [BatchOf(cfg, CellsAt(l.agg, 0), l.agg.register, 0, limit)];
  }

  /** A sample that is stored for a bucket already reported gives it a second batch, with
      a second value of the same counter. */
  lemma LateSampleRepeatsBucket()
    ensures var cfg := Settings(10, 300, 3600, "h");
      var events := [Submission(CounterSample(None), 5, 5), Flushing(20, [0]),
                     Submission(CounterSample(Some(5)), 21, 21), Flushing(30, [0])];
      var c := Context("m", [], "h", None);
      exists r :: Reaches(cfg, Start, events, r) && |r.batches| == 2
        && r.batches[0].ts == r.batches[1].ts && c in r.batches[0].rates && c in r.batches[1].rates
  {
    var cfg: Config := Settings(10, 300, 3600, "h");
    var e0, e1 := Submission(CounterSample(None), 5, 5), Flushing(20, [0]);
    var e2, e3 := Submission(CounterSample(Some(5)), 21, 21), Flushing(30, [0]);
    CounterStep(cfg, Start, None, 5);
    var l1 := Step(cfg, Start, e0);
    FirstBucketStep(cfg, l1, 5, 20);
    var l2 := Step(cfg, l1, e1);
    CounterStep(cfg, l2, Some(5), 21);
    var l3 := Step(cfg, l2, e2);
    FirstBucketStep(cfg, l3, 21, 30);
    var l4 := Step(cfg, l3, e3);
    FourSteps(cfg, Start, e0, e1, e2, e3);
    assert l4.batches[0] == l4.batches[..1][0];
  }

  lemma FourSteps(cfg: Config, l: Ledger, e0: Event, e1: Event, e2: Event, e3: Event)
    requires Enabled(l, e0)
    requires var l1 := Step(cfg, l, e0);
      Enabled(l1, e1) && var l2 := Step(cfg, l1, e1); Enabled(l2, e2) && Enabled(Step(cfg, l2, e2), e3)
    ensures Reaches(cfg, l, [e0, e1, e2, e3], Step(cfg, Step(cfg, Step(cfg, Step(cfg, l, e0), e1), e2), e3))
  {
    var l3 := Step(cfg, Step(cfg, Step(cfg, l, e0), e1), e2);
    var r := Step(cfg, l3, e3);
    Chain(cfg, l3, e3, [], r);
    Chain(cfg, Step(cfg, Step(cfg, l, e0), e1), e2, [e3], r);
    Chain(cfg, Step(cfg, l, e0), e1, [e2, e3], r);
    Chain(cfg, l, e0, [e1, e2, e3], r);
  }

  lemma Chain(cfg: Config, l: Ledger, e: Event, events: seq<Event>, r: Ledger)
    requires Enabled(l, e) && Reaches(cfg, Step(cfg, l, e), events, r)
    ensures Reaches(cfg, l, [e] + events, r)
  {
    assert ([e] + events)[1..] == events;
  }

  // ---- expiry and zeros ----

  /** What is dropped is a counter last sampled before the expiry time (or never, when
      its only samples had a rate of zero); a gauge has the value that waited. */
  ghost predicate Tells(a: Agg, batch: Batch, limit: Time) {
    && (forall c :: c in batch.dropped ==>
          c in CellsAt(a, batch.ts) && CellsAt(a, batch.ts)[c].Expired(limit)
          && batch.dropped[c] == Pending(a, batch.ts, c))
    && (forall c :: c in batch.gauges ==>
          c in CellsAt(a, batch.ts) && CellsAt(a, batch.ts)[c].kind == Gauge
          && CellsAt(a, batch.ts)[c].value == Some(batch.gauges[c]))
  }

  lemma {:induction false} FlushKeysTells(cfg: Config, a: Agg, keys: seq<Time>, cutoff: Time, limit: Time, i: nat)
    requires forall i, j :: 0 <= i < j < |keys| ==> keys[i] != keys[j]
    requires i < |FlushKeys(cfg, a, keys, cutoff, limit).1|
    ensures Tells(a, FlushKeys(cfg, a, keys, cutoff, limit).1[i], limit)
  {
    var key, front := keys[|keys| - 1], keys[..|keys| - 1];
    var (a1, batches) := FlushKeys(cfg, a, front, cutoff, limit);
    if i < |batches| {
      FlushKeysTells(cfg, a, front, cutoff, limit, i);
    } else {
      FlushKeysBuckets(cfg, a, front, cutoff, limit);
      assert key !in front;
      assert CellsAt(a1, key) == CellsAt(a, key);
    }
  }

  lemma TellsItsBucket(cfg: Config, a: Agg, keys: seq<Time>, now: Time, i: nat)
    requires InOrder(keys, a) && i < |Flush(cfg, a, keys, now).1|
    ensures Tells(a, Flush(cfg, a, keys, now).1[i], now - cfg.expiry)
  {
    if a.buckets != map[] {
      FlushKeysTells(cfg, a, keys, BucketStart(cfg, now), now - cfg.expiry, i);
    }
  }

  /** A sample that is stored is not stamped later than it is sampled. */
  predicate Past(cfg: Config, e: Event) {
    e.Submission? ==> TooOld(cfg, e.x, e.now) || BucketStart(cfg, Stamp(e.x, e.now)) <= e.sampled
  }

  /** All that waits was sampled in or after its bucket. */
  ghost predicate Sampled(a: Agg, clock: Time) {
    forall b :: b in a.buckets ==> b <= clock && CellsSampled(a.buckets[b], b)
  }

  ghost predicate CellsSampled(cells: Cells, b: Time) {
    forall c :: c in cells ==>
      && (cells[c].last.Some? ==> b <= cells[c].last.value)
      && (cells[c].kind == Counter && cells[c].last.None? ==> cells[c].Amount() == 0.0)
  }

  lemma StepSampled(cfg: Config, l: Ledger, e: Event)
    requires Sampled(l.agg, l.clock) && Enabled(l, e) && Past(cfg, e)
    ensures Sampled(Step(cfg, l, e).agg, Step(cfg, l, e).clock)
  {
    match e
    case Submission(x, now, sampled) => assert CellsSampled(map[], BucketStart(cfg, Stamp(x, now)));
    case Flushing(now, keys) => FlushKeysBuckets(cfg, l.agg, keys, BucketStart(cfg, now), now - cfg.expiry);
  }

  /** No bucket waits that began longer ago than metrics take to expire. */
  ghost predicate Prompt(cfg: Config, a: Agg, now: Time) {
    forall b :: b in a.buckets ==> now - cfg.expiry <= b
  }

  /** A prompt flush loses nothing: the branch its author marked as one that should never
      happen drops only zeros. */
  lemma PromptFlushLosesNothing(cfg: Config, a: Agg, clock: Time, keys: seq<Time>, now: Time, i: nat, c: Context)
    requires InOrder(keys, a) && Sampled(a, clock) && Prompt(cfg, a, now)
    requires i < |Flush(cfg, a, keys, now).1| && c in Flush(cfg, a, keys, now).1[i].dropped
    ensures Flush(cfg, a, keys, now).1[i].dropped[c] == 0.0
  {
    TellsItsBucket(cfg, a, keys, now, i);
    var b := Flush(cfg, a, keys, now).1[i].ts;
    assert c in CellsAt(a, b) && CellsAt(a, b)[c].Expired(now - cfg.expiry);
    assert b in a.buckets && CellsSampled(a.buckets[b], b) && CellsAt(a, b)[c] == a.buckets[b][c];
    assert Flush(cfg, a, keys, now).1[i].dropped[c] == Pending(a, b, c);
  }

  /** No sample is stamped ahead of the clock and every flush is prompt. */
  ghost predicate PromptRun(cfg: Config, l: Ledger, events: seq<Event>)
    decreases |events|
  {
    events != [] ==>
      && Past(cfg, events[0]) && (events[0].Flushing? ==> Prompt(cfg, l.agg, events[0].now))
      && PromptRun(cfg, Step(cfg, l, events[0]), events[1..])
  }

  ghost predicate NothingDropped(batches: seq<Batch>) {
    forall i, c :: 0 <= i < |batches| && c in batches[i].dropped ==> batches[i].dropped[c] == 0.0
  }

  lemma {:induction false} PromptRunDropsNothing(cfg: Config, l: Ledger, events: seq<Event>, r: Ledger)
    requires Sampled(l.agg, l.clock) && Reaches(cfg, l, events, r) && PromptRun(cfg, l, events)
    requires NothingDropped(l.batches)
    ensures NothingDropped(r.batches)
    decreases |events|
  {
    if events != [] {
      StepSampled(cfg, l, events[0]);
      if events[0].Flushing? {
        PromptStepDropsNothing(cfg, l, events[0].now, events[0].keys);
      }
      PromptRunDropsNothing(cfg, Step(cfg, l, events[0]), events[1..], r);
    }
  }

  lemma PromptStepDropsNothing(cfg: Config, l: Ledger, now: Time, keys: seq<Time>)
    requires Sampled(l.agg, l.clock) && Enabled(l, Flushing(now, keys)) && Prompt(cfg, l.agg, now)
    requires NothingDropped(l.batches)
    ensures NothingDropped(Step(cfg, l, Flushing(now, keys)).batches)
  {
    var more := Flush(cfg, l.agg, keys, now).1;
    forall i, c | 0 <= i < |more| && c in more[i].dropped ensures more[i].dropped[c] == 0.0 {
      PromptFlushLosesNothing(cfg, l.agg, l.clock, keys, now, i, c);
    }
  }

  /** What was reported of counter `c` in bucket `b`, times the interval. */
  function Reported(cfg: Config, batches: seq<Batch>, b: Time, c: Context): real {
    if batches == [] then 0.0
    else
      var last := batches[|batches| - 1];
      Reported(cfg, batches[..|batches| - 1], b, c)
      + if last.ts == b && c in last.rates then last.rates[c] * cfg.interval as real else 0.0
  }

  lemma {:induction false} SettledIsReported(cfg: Config, batches: seq<Batch>, b: Time, c: Context)
    requires NothingDropped(batches)
    ensures Settled(cfg, batches, b, c) == Reported(cfg, batches, b, c)
  {
    if batches != [] {
      SettledIsReported(cfg, batches[..|batches| - 1], b, c);
    }
  }

  /** With prompt flushes nothing that was accepted is lost in a whole run: it has been
      reported, or it waits. */
  lemma PromptRunsLoseNothing(cfg: Config, events: seq<Event>, r: Ledger, b: Time, c: Context)
    requires Reaches(cfg, Start, events, r) && PromptRun(cfg, Start, events)
    ensures Accepted(r.credits, b, c) == Reported(cfg, r.batches, b, c) + Pending(r.agg, b, c)
  {
    CounterConservation(cfg, events, r, b, c);
    PromptRunDropsNothing(cfg, Start, events, r);
    SettledIsReported(cfg, r.batches, b, c);
  }

  /** A registered counter that has not expired is in every batch of the flush. */
  lemma {:induction false} FlushKeysKeeps(cfg: Config, a: Agg, keys: seq<Time>, cutoff: Time, limit: Time, c: Context)
    requires c in a.register && a.register[c] >= limit
    requires forall b :: b in a.buckets && c in a.buckets[b] ==> !a.buckets[b][c].Expired(limit)
    ensures var (r, batches) := FlushKeys(cfg, a, keys, cutoff, limit);
      && c in r.register && r.register[c] >= limit
      && forall i :: 0 <= i < |batches| ==> c in batches[i].rates
  {
    if keys != [] {
      var front := keys[..|keys| - 1];
      FlushKeysKeeps(cfg, a, front, cutoff, limit, c);
      FlushKeysBuckets(cfg, a, front, cutoff, limit);
    }
  }

  lemma KeepsReporting(cfg: Config, a: Agg, keys: seq<Time>, now: Time, c: Context)
    requires c in a.register && a.register[c] >= now - cfg.expiry
    requires forall b :: b in a.buckets && c in a.buckets[b] ==> !a.buckets[b][c].Expired(now - cfg.expiry)
    ensures var (r, batches) := Flush(cfg, a, keys, now);
      && c in r.register && r.register[c] >= now - cfg.expiry
      && forall i :: 0 <= i < |batches| ==> c in batches[i].rates
  {
    if a.buckets != map[] {
      FlushKeysKeeps(cfg, a, keys, BucketStart(cfg, now), now - cfg.expiry, c);
    }
  }

  /** One with no new samples that has expired is in none, and is forgotten as soon as
      anything at all is reported. */
  lemma {:induction false} FlushKeysForgets(cfg: Config, a: Agg, keys: seq<Time>, cutoff: Time, limit: Time, c: Context)
    requires c in a.register ==> a.register[c] < limit
    requires forall b :: b in a.buckets ==> c !in a.buckets[b]
    ensures var (r, batches) := FlushKeys(cfg, a, keys, cutoff, limit);
      && (c in r.register ==> c in a.register && r.register[c] == a.register[c] && batches == [])
      && forall i :: 0 <= i < |batches| ==> c !in batches[i].rates
  {
    if keys != [] {
      var front := keys[..|keys| - 1];
      FlushKeysForgets(cfg, a, front, cutoff, limit, c);
      FlushKeysBuckets(cfg, a, front, cutoff, limit);
    }
  }

  lemma StopsReporting(cfg: Config, a: Agg, keys: seq<Time>, now: Time, c: Context)
    requires c in a.register ==> a.register[c] < now - cfg.expiry
    requires forall b :: b in a.buckets ==> c !in a.buckets[b]
    ensures var (r, batches) := Flush(cfg, a, keys, now);
      && (c in r.register ==> batches == [])
      && forall i :: 0 <= i < |batches| ==> c !in batches[i].rates
  {
    if a.buckets != map[] {
      FlushKeysForgets(cfg, a, keys, BucketStart(cfg, now), now - cfg.expiry, c);
    }
  }
}
