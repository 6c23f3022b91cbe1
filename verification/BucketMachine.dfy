/** The bucketed aggregator of aggregator.py as a machine on values: what a submission
    and a flush do to the buckets, and what holds over every run. Times are whole
    numbers of one small unit; values are real. */
module BucketMachine {
  import opened Wrappers
  import opened Strings

  type Time = int

  datatype Settings = Settings(interval: Time, expiry: Time, recent: Time, host: string)
  type Config = c: Settings | c.interval > 0 witness Settings(1, 0, 0, "")

  datatype Context = Context(name: string, tags: seq<string>, host: string, device: Option<string>)

  datatype Kind = Counter | Gauge

  /** `Mistyped` is any type the aggregator has no class for. */
  datatype MetricType = Typed(kind: Kind) | Mistyped

  datatype Sample = Sample(name: string, value: real, mtype: MetricType, tags: Option<seq<string>>,
                           host: Option<string>, device: Option<string>, timestamp: Option<Time>, rate: real)

  /** One metric object: its value (a gauge's may be None) and when it was last sampled. */
  datatype Cell = Cell(kind: Kind, value: Option<real>, last: Option<Time>) {
    function Amount(): real {
      if value.Some? then value.value else 0.0
    }

    /** In Python 2 None is before every number. */
    predicate Expired(limit: Time) {
      last.None? || last.value < limit
    }
  }

  type Cells = map<Context, Cell>

  datatype Agg = Agg(buckets: map<Time, Cells>, register: map<Context, Time>, cutoff: Time)

  const Empty := Agg(map[], map[], 0)

  // ---- submitting ----

  /** The last multiple of the interval up to `t`. */
  function BucketStart(cfg: Config, t: Time): (b: Time)
    ensures b <= t < b + cfg.interval
    decreases if t < 0 then cfg.interval - t else t
  {
    if t < 0 then BucketStart(cfg, t + cfg.interval) - cfg.interval
    else if t < cfg.interval then 0
    else BucketStart(cfg, t - cfg.interval) + cfg.interval
  }

  lemma ModShift(t: int, n: int)
    requires n > 0
    ensures (t + n) % n == t % n
  {
    var q := (t + n) / n - t / n - 1;
    assert q * n == t % n - (t + n) % n by {
      assert (t + n) / n * n + (t + n) % n == t + n && t / n * n + t % n == t;
      assert q * n == (t + n) / n * n - t / n * n - n;
    }
    TimesIsSmall(q, n);
  }

  lemma TimesIsSmall(q: int, n: int)
    requires 0 - n < q * n < n
    ensures q == 0
  {
  }

  /** It is what the source computes with a remainder. */
  lemma {:induction false} StartByRemainder(cfg: Config, t: Time)
    ensures BucketStart(cfg, t) == t - t % cfg.interval
    decreases if t < 0 then cfg.interval - t else t
  {
    if t < 0 {
      StartByRemainder(cfg, t + cfg.interval);
      ModShift(t, cfg.interval);
    } else if t >= cfg.interval {
      StartByRemainder(cfg, t - cfg.interval);
      ModShift(t - cfg.interval, cfg.interval);
    }
  }

  function ContextOf(cfg: Config, x: Sample): Context {
    var host := if x.host.Some? then x.host.value else cfg.host;
    Context(x.name, if x.tags.None? then [] else Canonical(x.tags.value), host, x.device)
  }

  function Trunc(x: real): int {
    if x >= 0.0 then x.Floor else -(-x).Floor
  }

  function NewCell(kind: Kind): Cell {
    Cell(kind, if kind == Counter then Some(0.0) else None, None)
  }

  function Weight(x: Sample): real
    requires x.rate != 0.0
  {
    x.value * Trunc(1.0 / x.rate) as real
  }

  /** A counter divides by the sample rate, and a rate of zero raises. */
  predicate Raises(kind: Kind, x: Sample) {
    kind == Counter && x.rate == 0.0
  }

  function SampleCell(cell: Cell, x: Sample, sampled: Time): Cell {
    if Raises(cell.kind, x) then cell
    else match cell.kind
      case Counter => Cell(Counter, Some(cell.Amount() + Weight(x)), Some(sampled))
      case Gauge => Cell(Gauge, Some(x.value), Some(sampled))
  }

  datatype Verdict = Stored | Discarded | KeyError | ZeroDivision

  predicate TooOld(cfg: Config, x: Sample, now: Time) {
    x.timestamp.Some? && now - x.timestamp.value > cfg.recent
  }

  /** A timestamp of zero counts as none. */
  function Stamp(x: Sample, now: Time): Time {
    if x.timestamp.Some? && x.timestamp.value != 0 then x.timestamp.value else now
  }

  function CellsAt(a: Agg, b: Time): Cells {
    if b in a.buckets then a.buckets[b] else map[]
  }

  function SetCells(a: Agg, b: Time, cells: Cells): Agg {
    a.(buckets := a.buckets[b := cells])
  }

  /** The metric a sample goes to: an existing one whatever its kind. */
  function CellFor(cells: Cells, ctx: Context, x: Sample): Option<Cell> {
    if ctx in cells then Some(cells[ctx])
    else if x.mtype.Typed? then Some(NewCell(x.mtype.kind))
    else None
  }

  function Store(cells: Cells, ctx: Context, x: Sample, sampled: Time): Cells {
    var cell := CellFor(cells, ctx, x);
    if cell.None? then cells else cells[ctx := SampleCell(cell.value, x, sampled)]
  }

  function StoreVerdict(cells: Cells, ctx: Context, x: Sample): Verdict {
    var cell := CellFor(cells, ctx, x);
    if cell.None? then KeyError else if Raises(cell.value.kind, x) then ZeroDivision else Stored
  }

  function Submit(cfg: Config, a: Agg, x: Sample, now: Time, sampled: Time): Agg {
    if TooOld(cfg, x, now) then a
    else
      var b := BucketStart(cfg, Stamp(x, now));
      SetCells(a, b, Store(CellsAt(a, b), ContextOf(cfg, x), x, sampled))
  }

  function SubmitVerdict(cfg: Config, a: Agg, x: Sample, now: Time): Verdict {
    if TooOld(cfg, x, now) then Discarded
    else StoreVerdict(CellsAt(a, BucketStart(cfg, Stamp(x, now))), ContextOf(cfg, x), x)
  }

  // ---- flushing ----

  /** What is reported for one bucket; `dropped` holds the counters that had expired. */
  datatype Batch = Batch(ts: Time, rates: map<Context, real>, gauges: map<Context, real>, dropped: map<Context, real>)

  predicate LiveCounter(cells: Cells, ctx: Context, limit: Time) {
    ctx in cells && !cells[ctx].Expired(limit) && cells[ctx].kind == Counter
  }

  /** A registered counter that this bucket has no sample of. */
  predicate Silent(cells: Cells, register: map<Context, Time>, ctx: Context, limit: Time) {
    ctx in register && (ctx in cells ==> !cells[ctx].Expired(limit) && cells[ctx].kind != Counter)
  }

  predicate Reports(cells: Cells, register: map<Context, Time>, ctx: Context, limit: Time) {
    LiveCounter(cells, ctx, limit) || (Silent(cells, register, ctx, limit) && register[ctx] >= limit)
  }

  function BatchOf(cfg: Config, cells: Cells, register: map<Context, Time>, ts: Time, limit: Time): Batch {
    Batch(ts,
          map c | c in cells.Keys + register.Keys && Reports(cells, register, c, limit) ::
            if LiveCounter(cells, c, limit) then cells[c].Amount() / cfg.interval as real else 0.0,
          map c | c in cells && !cells[c].Expired(limit) && cells[c].kind == Gauge && cells[c].value.Some? ::
            cells[c].value.value,
          map c | c in cells && cells[c].Expired(limit) && cells[c].kind == Counter :: cells[c].Amount())
  }

  function Refresh(cells: Cells, register: map<Context, Time>, limit: Time): map<Context, Time> {
    map c | c in cells.Keys + register.Keys && Reports(cells, register, c, limit) ::
      if LiveCounter(cells, c, limit) then cells[c].last.value else register[c]
  }

  function FlushBucket(cfg: Config, a: Agg, b: Time, limit: Time): Agg {
    Agg(a.buckets - {b}, Refresh(CellsAt(a, b), a.register, limit), a.cutoff)
  }

  /** The buckets `keys` in turn, skipping those that are not over. */
  function FlushKeys(cfg: Config, a: Agg, keys: seq<Time>, cutoff: Time, limit: Time): (Agg, seq<Batch>) {
    if keys == [] then (a, [])
    else
      var b := keys[|keys| - 1];
      var (a1, batches) := FlushKeys(cfg, a, keys[..|keys| - 1], cutoff, limit);
      if b < cutoff then
        (FlushBucket(cfg, a1, b, limit), batches + [BatchOf(cfg, CellsAt(a1, b), a1.register, b, limit)])
      else (a1, batches)
  }

  /** The bucket starts in ascending order, each once. */
  ghost predicate InOrder(keys: seq<Time>, a: Agg) {
    && (forall b :: b in keys <==> b in a.buckets)
    && (forall i, j :: 0 <= i < j < |keys| ==> keys[i] < keys[j])
  }

  /** Without any bucket there may still be counters to report as zero. */
  function FlushAll(cfg: Config, a: Agg, keys: seq<Time>, cutoff: Time, limit: Time): (Agg, seq<Batch>) {
    if a.buckets != map[] then FlushKeys(cfg, a, keys, cutoff, limit)
    else if cutoff >= a.cutoff + cfg.interval then
      (a.(register := Refresh(map[], a.register, limit)),
       [BatchOf(cfg, map[], a.register, cutoff - cfg.interval, limit)])
    else (a, [])
  }

  function FlushAt(cfg: Config, a: Agg, keys: seq<Time>, cutoff: Time, limit: Time): (Agg, seq<Batch>) {
    var r := FlushAll(cfg, a, keys, cutoff, limit);
    (r.0.(cutoff := cutoff), r.1)
  }

  /** A flush, given the bucket starts in ascending order. */
  function Flush(cfg: Config, a: Agg, keys: seq<Time>, now: Time): (Agg, seq<Batch>) {
    FlushAt(cfg, a, keys, BucketStart(cfg, now), now - cfg.expiry)
  }
}
