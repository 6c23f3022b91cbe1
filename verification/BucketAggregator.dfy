/** The objects of aggregator.py: metrics in a dictionary by context, in a dictionary by
    bucket, and a cached reference to the bucket in use. Every method is proved to move
    the ghost `model` as BucketMachine says; the cache does not occur there, so the fast
    path does what going through the outer dictionary would. */
module BucketAggregators {
  import opened Wrappers
  import opened Seqs
  import opened BucketMachine

  datatype Point = Point(ctx: Context, kind: Kind, ts: Time, value: real)

  predicate Within(p: Point, ts: Time, rates: map<Context, real>, gauges: map<Context, real>) {
    && p.ts == ts
    && match p.kind
       case Counter => p.ctx in rates && rates[p.ctx] == p.value
       case Gauge => p.ctx in gauges && gauges[p.ctx] == p.value
  }

  /** The list has each of these values, once, in any order. */
  ghost predicate Listed(points: seq<Point>, ts: Time, rates: map<Context, real>, gauges: map<Context, real>) {
    && NoDup(points)
    && forall p :: p in points <==> Within(p, ts, rates, gauges)
  }

  /** One batch after the other. */
  ghost predicate ListedAll(points: seq<Point>, batches: seq<Batch>)
    decreases |batches|
  {
    if batches == [] then points == []
    else
      var front, last := batches[..|batches| - 1], batches[|batches| - 1];
      exists k :: 0 <= k <= |points| && ListedAll(points[..k], front)
        && Listed(points[k..], last.ts, last.rates, last.gauges)
  }

  lemma Listing(points: seq<Point>, batches: seq<Batch>, more: seq<Point>, batch: Batch)
    requires ListedAll(points, batches) && Listed(more, batch.ts, batch.rates, batch.gauges)
    ensures ListedAll(points + more, batches + [batch])
  {
    var all := points + more;
    assert all[..|points|] == points && all[|points|..] == more;
    assert (batches + [batch])[..|batches|] == batches;
  }

  lemma {:induction false} ListedFrom(points: seq<Point>, batches: seq<Batch>, i: nat)
    requires ListedAll(points, batches) && i < |points|
    ensures exists j :: 0 <= j < |batches| && points[i].ts == batches[j].ts
    decreases |batches|
  {
    var front, last := batches[..|batches| - 1], batches[|batches| - 1];
    var k :| 0 <= k <= |points| && ListedAll(points[..k], front)
      && Listed(points[k..], last.ts, last.rates, last.gauges);
    if i < k {
      ListedFrom(points[..k], front, i);
      var j :| 0 <= j < |front| && points[i].ts == front[j].ts;
      assert batches[j] == front[j];
    } else {
      assert points[i] == points[k..][i - k];
      assert points[i] in points[k..];
    }
  }

  /** When the batches are in time order (see BucketRuns), no list of theirs has two
      values of one kind for the same context and bucket. */
  lemma {:induction false} ListedOnce(points: seq<Point>, batches: seq<Batch>, i: nat, j: nat)
    requires ListedAll(points, batches) && i < j < |points|
    requires forall k, l :: 0 <= k < l < |batches| ==> batches[k].ts < batches[l].ts
    ensures !(points[i].ctx == points[j].ctx && points[i].ts == points[j].ts && points[i].kind == points[j].kind)
    decreases |batches|
  {
    var front, last := batches[..|batches| - 1], batches[|batches| - 1];
    var k :| 0 <= k <= |points| && ListedAll(points[..k], front)
      && Listed(points[k..], last.ts, last.rates, last.gauges);
    if j < k {
      ListedOnce(points[..k], front, i, j);
    } else {
      var tail := points[k..];
      assert points[j] == tail[j - k] && tail[j - k] in tail;
      if i < k {
        ListedFrom(points[..k], front, i);
        var l :| 0 <= l < |front| && points[..k][i].ts == front[l].ts;
        assert batches[l] == front[l];
      } else {
        assert points[i] == tail[i - k] && tail[i - k] in tail;
      }
    }
  }

  function Rate(cfg: Config, cell: Cell): real {
    cell.Amount() / cfg.interval as real
  }

  function Rates(cfg: Config, cells: Cells, among: set<Context>, limit: Time): map<Context, real> {
    map c | c in among && LiveCounter(cells, c, limit) :: Rate(cfg, cells[c])
  }

  function Gauges(cells: Cells, among: set<Context>, limit: Time): map<Context, real> {
    map c | c in among && c in cells && !cells[c].Expired(limit) && cells[c].kind == Gauge && cells[c].value.Some? ::
      cells[c].value.value
  }

  function Zeros(waiting: map<Context, Time>, among: set<Context>, limit: Time): map<Context, real> {
    map c | c in among && c in waiting && waiting[c] >= limit :: 0.0
  }

  /** The registered contexts that the metrics `done` so far leave to report as zero. */
  function Waiting(cells: Cells, register: map<Context, Time>, done: set<Context>, limit: Time): map<Context, Time> {
    map c | c in register && (c in done ==> Silent(cells, register, c, limit)) :: register[c]
  }

  /** The register once the metrics `done` are flushed. */
  function Midway(cells: Cells, register: map<Context, Time>, done: set<Context>, limit: Time): map<Context, Time> {
    map c | c in done + register.Keys
            && ((c in done && LiveCounter(cells, c, limit)) || c in Waiting(cells, register, done, limit)) ::
      if c in done && LiveCounter(cells, c, limit) then cells[c].last.value else register[c]
  }

  function Stale(waiting: map<Context, Time>, among: set<Context>, limit: Time): set<Context> {
    set c | c in among && c in waiting && waiting[c] < limit
  }

  lemma ListedMore(points: seq<Point>, more: seq<Point>, ts: Time, rates: map<Context, real>,
                   gauges: map<Context, real>,
                   newRates: map<Context, real>, newGauges: map<Context, real>)
    requires Listed(points, ts, rates, gauges) && Listed(more, ts, newRates, newGauges)
    requires rates.Keys !! newRates.Keys && gauges.Keys !! newGauges.Keys
    ensures Listed(points + more, ts, rates + newRates, gauges + newGauges)
  {
    var all := points + more;
    forall i, j | 0 <= i < j < |all| ensures all[i] != all[j] {
      if i < |points| <= j {
        assert points[i] in points && more[j - |points|] in more;
      }
    }
    forall p ensures p in all <==> Within(p, ts, rates + newRates, gauges + newGauges) {
      assert p in all <==> p in points || p in more;
    }
  }

  function RateOf(cfg: Config, cell: Cell, c: Context): map<Context, real> {
    if cell.kind == Counter then map[c := Rate(cfg, cell)] else map[]
  }

  function GaugeOf(cell: Cell, c: Context): map<Context, real> {
    if cell.kind == Gauge && cell.value.Some? then map[c := cell.value.value] else map[]
  }

  function PointsOf(cfg: Config, cell: Cell, c: Context, ts: Time): seq<Point> {
    match cell.kind
    case Counter => [Point(c, Counter, ts, Rate(cfg, cell))]
    case Gauge => if cell.value.Some? then [Point(c, Gauge, ts, cell.value.value)] else []
  }

  lemma ListedOne(cfg: Config, cell: Cell, c: Context, ts: Time)
    ensures Listed(PointsOf(cfg, cell, c, ts), ts, RateOf(cfg, cell, c), GaugeOf(cell, c))
  {
  }

  lemma ListedNone(ts: Time)
    ensures Listed([], ts, map[], map[])
  {
  }

  /** What flushing one more metric adds to the report and to the register. */
  lemma OneMoreReported(cfg: Config, cells: Cells, done: set<Context>, c: Context, limit: Time)
    requires c in cells && c !in done
    ensures var live := !cells[c].Expired(limit);
      var rates, gauges := Rates(cfg, cells, done, limit), Gauges(cells, done, limit);
      && Rates(cfg, cells, done + {c}, limit) == (if live then rates + RateOf(cfg, cells[c], c) else rates)
      && Gauges(cells, done + {c}, limit) == (if live then gauges + GaugeOf(cells[c], c) else gauges)
  {
  }

  lemma OneMoreListed(cfg: Config, cells: Cells, done: set<Context>, c: Context, limit: Time, points: seq<Point>,
                      ts: Time)
    requires c in cells && c !in done && !cells[c].Expired(limit)
    requires Listed(points, ts, Rates(cfg, cells, done, limit), Gauges(cells, done, limit))
    ensures Listed(points + PointsOf(cfg, cells[c], c, ts), ts, Rates(cfg, cells, done + {c}, limit),
                   Gauges(cells, done + {c}, limit))
  {
    OneMoreReported(cfg, cells, done, c, limit);
    ListedOne(cfg, cells[c], c, ts);
    ListedMore(points, PointsOf(cfg, cells[c], c, ts), ts, Rates(cfg, cells, done, limit), Gauges(cells, done, limit),
               RateOf(cfg, cells[c], c), GaugeOf(cells[c], c));
  }

  lemma OneMoreRegistered(cells: Cells, register: map<Context, Time>, done: set<Context>, c: Context, limit: Time)
    requires c in cells && c !in done
    ensures var live, counter := !cells[c].Expired(limit), cells[c].kind == Counter;
      var waiting, midway := Waiting(cells, register, done, limit), Midway(cells, register, done, limit);
      && Waiting(cells, register, done + {c}, limit) == (if live && !counter then waiting else waiting - {c})
      && Midway(cells, register, done + {c}, limit) ==
           (if !live then midway - {c} else if counter then midway[c := cells[c].last.value] else midway)
  {
  }

  lemma NothingDone(cfg: Config, cells: Cells, register: map<Context, Time>, limit: Time)
    ensures Rates(cfg, cells, {}, limit) == map[] && Gauges(cells, {}, limit) == map[]
    ensures Waiting(cells, register, {}, limit) == register == Midway(cells, register, {}, limit)
  {
  }

  /** Flushing the metrics and then filling in zeros is what one bucket's batch holds. */
  lemma TwoHalves(cfg: Config, cells: Cells, register: map<Context, Time>, ts: Time, limit: Time)
    ensures var waiting, batch := Waiting(cells, register, cells.Keys, limit), BatchOf(cfg, cells, register, ts, limit);
      && batch.rates == Rates(cfg, cells, cells.Keys, limit) + Zeros(waiting, waiting.Keys, limit)
      && batch.gauges == Gauges(cells, cells.Keys, limit) + map[]
      && Rates(cfg, cells, cells.Keys, limit).Keys !! Zeros(waiting, waiting.Keys, limit).Keys
  {
  }

  lemma NoBuckets(cfg: Config, register: map<Context, Time>, ts: Time, limit: Time)
    ensures BatchOf(cfg, map[], register, ts, limit).rates == Zeros(register, register.Keys, limit)
    ensures BatchOf(cfg, map[], register, ts, limit).gauges == map[]
    ensures Refresh(map[], register, limit) == register - Stale(register, register.Keys, limit)
  {
  }

  lemma TwoHalvesOfRegister(cells: Cells, register: map<Context, Time>, limit: Time)
    ensures var waiting := Waiting(cells, register, cells.Keys, limit);
      Refresh(cells, register, limit)
      == Midway(cells, register, cells.Keys, limit) - Stale(waiting, waiting.Keys, limit)
  {
  }

  lemma SetTwice(a: Agg, b: Time, cells: Cells, more: Cells)
    ensures SetCells(SetCells(a, b, cells), b, more) == SetCells(a, b, more)
  {
  }

  /** Making the metric and then sampling it is what `Store` does. */
  lemma StoreNew(cells: Cells, ctx: Context, x: Sample, sampled: Time)
    requires ctx !in cells && x.mtype.Typed?
    ensures Store(cells, ctx, x, sampled)
         == var made := cells[ctx := NewCell(x.mtype.kind)]; made[ctx := SampleCell(made[ctx], x, sampled)]
  {
  }

  lemma FlushKeysStep(cfg: Config, a: Agg, keys: seq<Time>, i: nat, cutoff: Time, limit: Time)
    requires i < |keys|
    ensures var (a1, batches) := FlushKeys(cfg, a, keys[..i], cutoff, limit);
      FlushKeys(cfg, a, keys[..i + 1], cutoff, limit) ==
        if keys[i] < cutoff then
          (FlushBucket(cfg, a1, keys[i], limit),
           batches + [BatchOf(cfg, CellsAt(a1, keys[i]), a1.register, keys[i], limit)])
        else (a1, batches)
  {
    assert keys[..i + 1][..i] == keys[..i];
  }

  class Metric {
    const ctx: Context
    const kind: Kind
    ghost const bucket: Time
    var value: Option<real>
    var lastSampleTime: Option<Time>

    constructor (ctx: Context, kind: Kind, ghost bucket: Time)
      ensures this.ctx == ctx && this.bucket == bucket && this.kind == kind && Cell() == NewCell(kind)
    {
      this.ctx, this.kind, this.bucket := ctx, kind, bucket;
      value, lastSampleTime := if kind == Counter then Some(0.0) else None, None;
    }

    ghost function Cell(): Cell
      reads this
    {
      BucketMachine.Cell(kind, value, lastSampleTime)
    }

    method Sample(x: BucketMachine.Sample, sampled: Time) returns (raised: bool)
      modifies this
      ensures raised == Raises(kind, x)
      ensures Cell() == SampleCell(old(Cell()), x, sampled)
    {
      match kind {
        case Counter =>
          if x.rate == 0.0 {
            return true;
          }
          var before := if value.Some? then value.value else 0.0;
          value := Some(before + x.value * Trunc(1.0 / x.rate) as real);
        case Gauge =>
          value := Some(x.value);
      }
      lastSampleTime := Some(sampled);
      raised := false;
    }

    method Flush(cfg: Config, ts: Time) returns (points: seq<Point>)
      modifies `value
      ensures points == PointsOf(cfg, old(Cell()), ctx, ts)
      ensures value == if kind == Counter then Some(0.0) else None
    {
      match kind {
        case Counter =>
          points := [Point(ctx, Counter, ts, (if value.Some? then value.value else 0.0) / cfg.interval as real)];
          value := Some(0.0);
        case Gauge =>
          points := if value.Some? then [Point(ctx, Gauge, ts, value.value)] else [];
          value := None;
      }
    }
  }

  class MetricMap {
    ghost const bucket: Time
    var metrics: map<Context, Metric>

    constructor (ghost bucket: Time)
      ensures this.bucket == bucket && metrics == map[]
    {
      this.bucket, metrics := bucket, map[];
    }
  }

  ghost predicate Holds(repr: set<Metric>, mbc: MetricMap, b: Time, cells: Cells)
    reads mbc, repr
  {
    && mbc.bucket == b && mbc.metrics.Keys == cells.Keys
    && forall c :: c in mbc.metrics ==>
         var m := mbc.metrics[c];
         m in repr && m.ctx == c && m.bucket == b && m.Cell() == cells[c]
  }

  ghost predicate AllHeld(repr: set<Metric>, byBucket: map<Time, MetricMap>, buckets: map<Time, Cells>)
    reads byBucket.Values, repr
  {
    && byBucket.Keys == buckets.Keys
    && forall b :: b in byBucket ==> Holds(repr, byBucket[b], b, buckets[b])
  }

  class MetricsBucketAggregator {
    const cfg: Config
    var metricByBucket: map<Time, MetricMap>
    var lastSampleTimeByContext: map<Context, Time>
    var currentBucket: Option<Time>
    var currentMbc: MetricMap
    var lastFlushCutoffTime: Time
    ghost var model: Agg
    ghost var repr: set<Metric>    // every metric it ever made

    constructor (cfg: Config)
      ensures this.cfg == cfg && State() == Some(Empty) && fresh(repr)
    {
      this.cfg := cfg;
      metricByBucket, lastSampleTimeByContext, lastFlushCutoffTime := map[], map[], 0;
      currentBucket := None;
      currentMbc := new MetricMap(0);
      model, repr := Empty, {};
    }

    /** The cached bucket is the one the outer dictionary has. */
    ghost predicate CacheIsCurrent()
      reads `metricByBucket, `currentBucket, `currentMbc
    {
      currentBucket.Some? ==> currentBucket.value in metricByBucket && metricByBucket[currentBucket.value] == currentMbc
    }

    ghost function Tables(): Option<Agg>
      reads this, metricByBucket.Values, repr
    {
      if AllHeld(repr, metricByBucket, model.buckets) && lastSampleTimeByContext == model.register
         && lastFlushCutoffTime == model.cutoff
      then Some(model)
      else None
    }

    ghost function State(): Option<Agg>
      reads this, metricByBucket.Values, repr
    {
      if CacheIsCurrent() then Tables() else None
    }

    method CalculateBucketStart(t: Time) returns (b: Time)
      ensures b == BucketStart(cfg, t)
    {
      StartByRemainder(cfg, t);
      b := t - t % cfg.interval;
    }

    method SubmitMetric(x: Sample, now: Time, sampled: Time) returns (verdict: Verdict)
      requires State().Some?
      modifies this, metricByBucket.Values, repr
      ensures State() == Some(Submit(cfg, old(model), x, now, sampled)) && fresh(repr - old(repr))
      ensures fresh(metricByBucket.Values - old(metricByBucket.Values))
      ensures verdict == SubmitVerdict(cfg, old(model), x, now)
    {
      var ctx := ContextOf(cfg, x);
      if TooOld(cfg, x, now) {
        return Discarded;
      }
      var b := CalculateBucketStart(Stamp(x, now));
      verdict := SubmitTo(b, ctx, x, sampled);
    }

    method SubmitTo(b: Time, ctx: Context, x: Sample, sampled: Time) returns (verdict: Verdict)
      requires State().Some?
      modifies this, metricByBucket.Values, repr
      ensures State() == Some(SetCells(old(model), b, Store(CellsAt(old(model), b), ctx, x, sampled)))
      ensures fresh(repr - old(repr)) && fresh(metricByBucket.Values - old(metricByBucket.Values))
      ensures verdict == StoreVerdict(CellsAt(old(model), b), ctx, x)
    {
      var mbc := MetricsOf(b);
      SetTwice(old(model), b, CellsAt(old(model), b), Store(CellsAt(old(model), b), ctx, x, sampled));
      verdict := Deposit(mbc, b, ctx, x, sampled);
    }

    method Deposit(mbc: MetricMap, b: Time, ctx: Context, x: Sample, sampled: Time) returns (verdict: Verdict)
      requires State().Some? && b in metricByBucket && mbc == metricByBucket[b]
      modifies `model, `repr, mbc, repr
      ensures State() == Some(SetCells(old(model), b, Store(old(model).buckets[b], ctx, x, sampled)))
      ensures fresh(repr - old(repr)) && verdict == StoreVerdict(old(model).buckets[b], ctx, x)
    {
      ghost var cells := model.buckets[b];
      if ctx in mbc.metrics {
        verdict := SampleMetric(mbc, b, ctx, x, sampled);
      } else if x.mtype.Mistyped? {
        assert model.buckets[b := cells] == model.buckets;
        verdict := KeyError;
      } else {
        var made := new Metric(ctx, x.mtype.kind, b);
        AddMetric(mbc, b, made);
        StoreNew(cells, ctx, x, sampled);
        SetTwice(old(model), b, model.buckets[b], Store(cells, ctx, x, sampled));
        verdict := SampleMetric(mbc, b, ctx, x, sampled);
      }
    }

    /** Through the cache when it is the same bucket, else through the outer dictionary. */
    method MetricsOf(b: Time) returns (mbc: MetricMap)
      requires State().Some?
      modifies this
      ensures State() == Some(SetCells(old(model), b, CellsAt(old(model), b)))
      ensures repr == old(repr) && fresh(metricByBucket.Values - old(metricByBucket.Values))
      ensures b in metricByBucket && mbc == metricByBucket[b]
    {
      if currentBucket == Some(b) {
        mbc := currentMbc;
        assert model.buckets == model.buckets[b := CellsAt(model, b)];
      } else {
        if b !in metricByBucket {
          var none := new MetricMap(b);
          metricByBucket := metricByBucket[b := none];
        }
        model := SetCells(model, b, CellsAt(model, b));
        mbc := metricByBucket[b];
        currentBucket, currentMbc := Some(b), mbc;
      }
    }

    method AddMetric(mbc: MetricMap, b: Time, m: Metric)
      requires State().Some? && b in metricByBucket && mbc == metricByBucket[b] && m.ctx !in mbc.metrics
      requires m.bucket == b && m.Cell() == NewCell(m.kind)
      modifies `model, `repr, mbc
      ensures State() == Some(SetCells(old(model), b, old(model).buckets[b][m.ctx := NewCell(m.kind)]))
      ensures repr == old(repr) + {m} && m.ctx in mbc.metrics
    {
      mbc.metrics := mbc.metrics[m.ctx := m];
      repr := repr + {m};
      model := SetCells(model, b, model.buckets[b][m.ctx := NewCell(m.kind)]);
      forall other | other in metricByBucket ensures Holds(repr, metricByBucket[other], other, model.buckets[other]) {
        assert old(Holds(repr, metricByBucket[other], other, model.buckets[other]));
      }
    }

    method SampleMetric(mbc: MetricMap, b: Time, ctx: Context, x: Sample, sampled: Time) returns (verdict: Verdict)
      requires State().Some? && b in metricByBucket && mbc == metricByBucket[b] && ctx in mbc.metrics
      modifies `model, mbc.metrics[ctx]
      ensures var cells := old(model).buckets[b];
        State() == Some(SetCells(old(model), b, cells[ctx := SampleCell(cells[ctx], x, sampled)]))
      ensures verdict == StoreVerdict(old(model).buckets[b], ctx, x)
    {
      var m := mbc.metrics[ctx];
      var raised := m.Sample(x, sampled);
      verdict := if raised then ZeroDivision else Stored;
      ghost var cells := model.buckets[b][ctx := m.Cell()];
      forall other | other in metricByBucket && other != b
        ensures Holds(repr, metricByBucket[other], other, model.buckets[other])
      {
        assert old(Holds(repr, metricByBucket[other], other, model.buckets[other]));
      }
      Renew(mbc, b, cells);
    }

    /** One bucket has these cells now; the others are as they were. */
    ghost method Renew(mbc: MetricMap, b: Time, cells: Cells)
      requires b in metricByBucket && mbc == metricByBucket[b] && metricByBucket.Keys == model.buckets.Keys
      requires Holds(repr, mbc, b, cells)
      requires forall other :: other in metricByBucket && other != b ==>
                 Holds(repr, metricByBucket[other], other, model.buckets[other])
      requires lastSampleTimeByContext == model.register && lastFlushCutoffTime == model.cutoff && CacheIsCurrent()
      modifies `model
      ensures State() == Some(SetCells(old(model), b, cells))
    {
      model := SetCells(model, b, cells);
      assert AllHeld(repr, metricByBucket, model.buckets);
    }

    /** Zeros for the contexts that have not expired; the others are forgotten. */
    method CreateEmptyMetrics(waiting: map<Context, Time>, limit: Time, ts: Time) returns (points: seq<Point>)
      modifies `lastSampleTimeByContext
      ensures Listed(points, ts, Zeros(waiting, waiting.Keys, limit), map[])
      ensures lastSampleTimeByContext == old(lastSampleTimeByContext) - Stale(waiting, waiting.Keys, limit)
    {
      points := [];
      var todo := waiting.Keys;
      ghost var done: set<Context> := {};
      ghost var register := lastSampleTimeByContext;
      ListedNone(ts);
      while todo != {}
        invariant done !! todo && done + todo == waiting.Keys
        invariant Listed(points, ts, Zeros(waiting, done, limit), map[])
        invariant lastSampleTimeByContext == register - Stale(waiting, done, limit)
      {
        var c :| c in todo;
        todo := todo - {c};
        if waiting[c] < limit {
          lastSampleTimeByContext := lastSampleTimeByContext - {c};
          assert Zeros(waiting, done + {c}, limit) == Zeros(waiting, done, limit);
          assert Stale(waiting, done + {c}, limit) == Stale(waiting, done, limit) + {c};
        } else {
          var metric := new Metric(c, Counter, ts);
          var zero := metric.Flush(cfg, ts);
          ListedOne(cfg, NewCell(Counter), c, ts);
          ListedMore(points, zero, ts, Zeros(waiting, done, limit), map[], map[c := 0.0], map[]);
          assert Zeros(waiting, done + {c}, limit) == Zeros(waiting, done, limit) + map[c := 0.0];
          assert Stale(waiting, done + {c}, limit) == Stale(waiting, done, limit);
          points := points + zero;
        }
        done := done + {c};
      }
      assert done == waiting.Keys;
    }

    /** Each metric of a bucket: dropped when expired, else flushed, and a counter is
        registered. */
    method FlushMetrics(mbc: MetricMap, b: Time, limit: Time, ghost cells: Cells)
      returns (points: seq<Point>, waiting: map<Context, Time>)
      requires Holds(repr, mbc, b, cells)
      modifies `lastSampleTimeByContext, mbc.metrics.Values
      ensures Listed(points, b, Rates(cfg, cells, cells.Keys, limit), Gauges(cells, cells.Keys, limit))
      ensures waiting == Waiting(cells, old(lastSampleTimeByContext), cells.Keys, limit)
      ensures lastSampleTimeByContext == Midway(cells, old(lastSampleTimeByContext), cells.Keys, limit)
    {
      points, waiting := [], lastSampleTimeByContext;
      var todo := mbc.metrics.Keys;
      ghost var done: set<Context> := {};
      ghost var register := lastSampleTimeByContext;
      ListedNone(b);
      NothingDone(cfg, cells, register, limit);
      while todo != {}
        invariant done !! todo && done + todo == cells.Keys == mbc.metrics.Keys
        invariant forall c :: c in todo ==> mbc.metrics[c].ctx == c && mbc.metrics[c].Cell() == cells[c]
        invariant Listed(points, b, Rates(cfg, cells, done, limit), Gauges(cells, done, limit))
        invariant waiting == Waiting(cells, register, done, limit)
        invariant lastSampleTimeByContext == Midway(cells, register, done, limit)
      {
        var c :| c in todo;
        todo := todo - {c};
        OneMoreRegistered(cells, register, done, c, limit);
        var m := mbc.metrics[c];
        if m.lastSampleTime.None? || m.lastSampleTime.value < limit {
          OneMoreReported(cfg, cells, done, c, limit);
          waiting := waiting - {c};
          lastSampleTimeByContext := lastSampleTimeByContext - {c};
        } else {
          var flushed := m.Flush(cfg, b);
          OneMoreListed(cfg, cells, done, c, limit, points, b);
          points := points + flushed;
          if m.kind == Counter {
            lastSampleTimeByContext := lastSampleTimeByContext[c := m.lastSampleTime.value];
            waiting := waiting - {c};
          }
        }
        done := done + {c};
      }
      assert done == cells.Keys;
    }

    /** Metrics, then zeros: one bucket's batch. */
    method ReportBucket(b: Time, limit: Time, ghost cells: Cells) returns (points: seq<Point>, ghost batch: Batch)
      requires b in metricByBucket && Holds(repr, metricByBucket[b], b, cells)
      modifies `lastSampleTimeByContext, metricByBucket[b].metrics.Values
      ensures batch == BatchOf(cfg, cells, old(lastSampleTimeByContext), b, limit)
      ensures Listed(points, b, batch.rates, batch.gauges)
      ensures lastSampleTimeByContext == Refresh(cells, old(lastSampleTimeByContext), limit)
    {
      ghost var register := lastSampleTimeByContext;
      var waiting;
      points, waiting := FlushMetrics(metricByBucket[b], b, limit, cells);
      var zeros := CreateEmptyMetrics(waiting, limit, b);
      TwoHalves(cfg, cells, register, b, limit);
      TwoHalvesOfRegister(cells, register, limit);
      ListedMore(points, zeros, b, Rates(cfg, cells, cells.Keys, limit), Gauges(cells, cells.Keys, limit),
                 Zeros(waiting, waiting.Keys, limit), map[]);
      points := points + zeros;
      batch := BatchOf(cfg, cells, register, b, limit);
    }

    method ForgetBucket(b: Time, limit: Time)
      requires b in metricByBucket && metricByBucket.Keys == model.buckets.Keys && lastFlushCutoffTime == model.cutoff
      requires forall other :: other in metricByBucket && other != b ==>
                 Holds(repr, metricByBucket[other], other, model.buckets[other])
      requires lastSampleTimeByContext == Refresh(CellsAt(model, b), model.register, limit)
      modifies `metricByBucket, `model
      ensures Tables() == Some(FlushBucket(cfg, old(model), b, limit)) && metricByBucket == old(metricByBucket) - {b}
    {
      metricByBucket := metricByBucket - {b};
      model := FlushBucket(cfg, model, b, limit);
      assert AllHeld(repr, metricByBucket, model.buckets);
    }

    method FlushOne(b: Time, limit: Time) returns (points: seq<Point>, ghost batch: Batch)
      requires Tables().Some? && b in metricByBucket
      modifies `metricByBucket, `lastSampleTimeByContext, `model, repr
      ensures Tables() == Some(FlushBucket(cfg, old(model), b, limit)) && metricByBucket == old(metricByBucket) - {b}
      ensures batch == BatchOf(cfg, CellsAt(old(model), b), old(model).register, b, limit)
      ensures Listed(points, b, batch.rates, batch.gauges)
    {
      points, batch := ReportBucket(b, limit, model.buckets[b]);
      forall other | other in metricByBucket && other != b
        ensures Holds(repr, metricByBucket[other], other, model.buckets[other])
      {
        assert old(Holds(repr, metricByBucket[other], other, model.buckets[other]));
      }
      ForgetBucket(b, limit);
    }

    method FlushNext(b: Time, limit: Time, before: seq<Point>, ghost earlier: seq<Batch>)
      returns (points: seq<Point>, ghost batches: seq<Batch>)
      requires Tables().Some? && b in metricByBucket && ListedAll(before, earlier)
      modifies `metricByBucket, `lastSampleTimeByContext, `model, repr
      ensures Tables() == Some(FlushBucket(cfg, old(model), b, limit)) && metricByBucket == old(metricByBucket) - {b}
      ensures batches == earlier + [BatchOf(cfg, CellsAt(old(model), b), old(model).register, b, limit)]
      ensures ListedAll(points, batches)
    {
      var more, batch := FlushOne(b, limit);
      Listing(before, earlier, more, batch);
      points, batches := before + more, earlier + [batch];
    }

    method FlushBuckets(keys: seq<Time>, cutoff: Time, limit: Time)
      returns (points: seq<Point>, ghost batches: seq<Batch>)
      requires Tables().Some? && NoDup(keys) && forall k :: 0 <= k < |keys| ==> keys[k] in metricByBucket
      modifies `metricByBucket, `lastSampleTimeByContext, `model, repr
      ensures Tables().Some? && (model, batches) == FlushKeys(cfg, old(model), keys, cutoff, limit)
      ensures ListedAll(points, batches)
    {
      ghost var start := model;
      points, batches := [], [];
      assert keys[..0] == [];
      for i := 0 to |keys|
        invariant Tables().Some? && ListedAll(points, batches)
        invariant (model, batches) == FlushKeys(cfg, start, keys[..i], cutoff, limit)
        invariant forall k :: i <= k < |keys| ==> keys[k] in metricByBucket
      {
        FlushKeysStep(cfg, start, keys, i, cutoff, limit);
        if keys[i] < cutoff {
          points, batches := FlushNext(keys[i], limit, points, batches);
        }
      }
      assert keys[..|keys|] == keys;
    }

    /** With no bucket at all: zeros for the interval just over. */
    method FlushNothing(cutoff: Time, limit: Time) returns (points: seq<Point>, ghost batches: seq<Batch>)
      requires Tables().Some? && metricByBucket == map[]
      modifies `lastSampleTimeByContext, `model
      ensures Tables() == Some(FlushAll(cfg, old(model), [], cutoff, limit).0)
      ensures batches == FlushAll(cfg, old(model), [], cutoff, limit).1
      ensures ListedAll(points, batches)
    {
      points, batches := [], [];
      if cutoff >= lastFlushCutoffTime + cfg.interval {
        ghost var batch := BatchOf(cfg, map[], lastSampleTimeByContext, cutoff - cfg.interval, limit);
        NoBuckets(cfg, lastSampleTimeByContext, cutoff - cfg.interval, limit);
        points := CreateEmptyMetrics(lastSampleTimeByContext, limit, cutoff - cfg.interval);
        batches := [batch];
        Listing([], [], points, batch);
        assert [] + points == points && [] + [batch] == [batch];
        model := model.(register := lastSampleTimeByContext);
      }
    }

    method FlushDue(keys: seq<Time>, cutoff: Time, limit: Time) returns (points: seq<Point>, ghost batches: seq<Batch>)
      requires Tables().Some? && InOrder(keys, model)
      modifies `metricByBucket, `lastSampleTimeByContext, `model, repr
      ensures Tables() == Some(FlushAll(cfg, old(model), keys, cutoff, limit).0)
      ensures batches == FlushAll(cfg, old(model), keys, cutoff, limit).1 && ListedAll(points, batches)
    {
      assert metricByBucket.Keys == model.buckets.Keys;
      if keys != [] {
        assert keys[0] in keys && keys[0] in model.buckets;
        forall k | 0 <= k < |keys| ensures keys[k] in metricByBucket {
          assert keys[k] in keys;
        }
        points, batches := FlushBuckets(keys, cutoff, limit);
      } else {
        assert forall b :: b in metricByBucket ==> b in keys;
        points, batches := FlushNothing(cutoff, limit);
      }
    }

    /** The cache is emptied and the cutoff kept. */
    method Conclude(cutoff: Time)
      requires Tables().Some?
      modifies `currentBucket, `currentMbc, `lastFlushCutoffTime, `model
      ensures State() == Some(old(model).(cutoff := cutoff))
    {
      assert AllHeld(repr, metricByBucket, model.buckets);
      var none := new MetricMap(0);
      currentBucket := None;
      currentMbc := none;
      lastFlushCutoffTime := cutoff;
      model := model.(cutoff := cutoff);
      assert AllHeld(repr, metricByBucket, model.buckets);
    }

    /** All buckets that are over, in order; `keys` is the order taken. */
    method Flush(now: Time) returns (points: seq<Point>, ghost keys: seq<Time>, ghost batches: seq<Batch>)
      requires State().Some?
      modifies this, repr
      ensures InOrder(keys, old(model))
      ensures State() == Some(BucketMachine.Flush(cfg, old(model), keys, now).0) && repr == old(repr)
      ensures batches == BucketMachine.Flush(cfg, old(model), keys, now).1 && ListedAll(points, batches)
    {
      var sorted := Sorted(metricByBucket.Keys);
      keys := sorted;
      var cutoff := CalculateBucketStart(now);
      points, batches := FlushDue(sorted, cutoff, now - cfg.expiry);
      Conclude(cutoff);
    }
  }

  /** `sorted` on a set of bucket starts. */
  method Sorted(s: set<Time>) returns (r: seq<Time>)
    ensures forall b :: b in r <==> b in s
    ensures forall i, j :: 0 <= i < j < |r| ==> r[i] < r[j]
  {
    r := [];
    var todo := s;
    while todo != {}
      invariant todo <= s
      invariant forall b :: b in r <==> b in s && b !in todo
      invariant forall i, j :: 0 <= i < j < |r| ==> r[i] < r[j]
    {
      Inhabited(todo);
      var b :| b in todo;
      todo := todo - {b};
      r := Inserted(r, b);
    }
  }

  lemma Inhabited(s: set<Time>)
    requires s != {}
    ensures exists b :: b in s
  {
    if forall b :: b !in s {
      assert false;
    }
  }

  function Inserted(r: seq<Time>, b: Time): (t: seq<Time>)
    requires b !in r && forall i, j :: 0 <= i < j < |r| ==> r[i] < r[j]
    ensures forall x :: x in t <==> x in r || x == b
    ensures forall i, j :: 0 <= i < j < |t| ==> t[i] < t[j]
  {
    if r == [] || b < r[0] then
      [b] + r
    else
      var rest := Inserted(r[1..], b);
      assert forall i :: 0 <= i < |rest| ==> rest[i] in rest;
      assert forall x :: x in r[1..] ==> r[0] < x;
      [r[0]] + rest
  }
}
