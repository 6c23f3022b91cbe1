/** What one submission and one flush of the bucketed aggregator do, told over the samples'
    own fields: which samples share a metric, which are stored, what is reported. */
module BucketEffects {
  import opened Wrappers
  import opened Seqs
  import opened Strings
  import opened BucketMachine
  import opened BucketRuns

  // ---- which samples share a metric ----

  ghost function TagSet(x: Sample): set<string> {
    if x.tags.None? then {} else Elems(x.tags.value)
  }

  function HostOf(cfg: Config, x: Sample): string {
    if x.host.Some? then x.host.value else cfg.host
  }

  /** The context has the sample's name, its tags in order and each once, its host or else
      the aggregator's own, and its device. */
  ghost predicate Describes(cfg: Config, x: Sample, c: Context) {
    && c.name == x.name && c.host == HostOf(cfg, x) && c.device == x.device
    && Elems(c.tags) == TagSet(x) && Ascending(c.tags)
  }

  ghost predicate SameMetric(cfg: Config, x: Sample, y: Sample) {
    x.name == y.name && TagSet(x) == TagSet(y) && HostOf(cfg, x) == HostOf(cfg, y) && x.device == y.device
  }

  lemma ContextDescribes(cfg: Config, x: Sample, c: Context)
    ensures Describes(cfg, x, c) <==> c == ContextOf(cfg, x)
  {
    var tags := ContextOf(cfg, x).tags;
    if x.tags.Some? {
      CanonicalAscending(x.tags.value);
    }
    assert Elems(tags) == TagSet(x) && Ascending(tags);
    if Describes(cfg, x, c) {
      AscendingUnique(c.tags, tags);
    }
  }

  lemma SameContext(cfg: Config, x: Sample, y: Sample)
    ensures ContextOf(cfg, x) == ContextOf(cfg, y) <==> SameMetric(cfg, x, y)
  {
    ContextDescribes(cfg, x, ContextOf(cfg, x));
    ContextDescribes(cfg, y, ContextOf(cfg, y));
    if SameMetric(cfg, x, y) {
      ContextDescribes(cfg, y, ContextOf(cfg, x));
    }
  }

  /** Two samples stored for one bucket go to one metric exactly when they have the same
      name, set of tags, host and device; these and those that were there are all. */
  lemma SamplesShareMetric(cfg: Config, a: Agg, x: Sample, xNow: Time, xSampled: Time,
                           y: Sample, yNow: Time, ySampled: Time, b: Time)
    requires SubmitVerdict(cfg, a, x, xNow) == Stored
    requires SubmitVerdict(cfg, Submit(cfg, a, x, xNow, xSampled), y, yNow) == Stored
    requires b == BucketStart(cfg, Stamp(x, xNow)) == BucketStart(cfg, Stamp(y, yNow))
    ensures var r := Submit(cfg, Submit(cfg, a, x, xNow, xSampled), y, yNow, ySampled);
      && (forall c :: c in CellsAt(r, b) <==> c in CellsAt(a, b) || Describes(cfg, x, c) || Describes(cfg, y, c))
      && (b !in a.buckets ==> |CellsAt(r, b)| == if SameMetric(cfg, x, y) then 1 else 2)
  {
    var cx, cy := ContextOf(cfg, x), ContextOf(cfg, y);
    var m := Submit(cfg, a, x, xNow, xSampled);
    SubmitKeys(cfg, a, x, xNow, xSampled, b);
    SubmitKeys(cfg, m, y, yNow, ySampled, b);
    var keys := CellsAt(Submit(cfg, m, y, yNow, ySampled), b).Keys;
    forall c ensures c in keys <==> c in CellsAt(a, b) || Describes(cfg, x, c) || Describes(cfg, y, c) {
      ContextDescribes(cfg, x, c);
      ContextDescribes(cfg, y, c);
    }
    SameContext(cfg, x, y);
    if b !in a.buckets {
      assert keys == {cx, cy};
      PairSize(cx, cy);
    }
  }

  lemma PairSize(c: Context, d: Context)
    ensures |{c, d}| == if c == d then 1 else 2
  {
    assert {c, d} == if c == d then {c} else {c} + {d};
  }

  lemma SubmitKeys(cfg: Config, a: Agg, x: Sample, now: Time, sampled: Time, b: Time)
    requires SubmitVerdict(cfg, a, x, now) == Stored && b == BucketStart(cfg, Stamp(x, now))
    ensures CellsAt(Submit(cfg, a, x, now, sampled), b).Keys == CellsAt(a, b).Keys + {ContextOf(cfg, x)}
  {
  }

  // ---- what a submission does ----

  /** The timestamp of the sample, unless it has none or zero: then the clock's. */
  function Reading(x: Sample, now: Time): Time {
    match x.timestamp
    case None => now
    case Some(t) => if t == 0 then now else t
  }

  /** The rate is truncated toward zero after inverting it. */
  predicate Inverse(rate: real, n: int)
    requires rate != 0.0
  {
    if rate > 0.0 then n as real <= 1.0 / rate < n as real + 1.0 else n as real - 1.0 < 1.0 / rate <= n as real
  }

  lemma WeightTruncates(x: Sample, n: int)
    requires x.rate != 0.0 && Inverse(x.rate, n)
    ensures Weight(x) == x.value * n as real
  {
    if x.rate > 0.0 {
      Positive(x.rate);
      assert (1.0 / x.rate).Floor == n;
    } else {
      Negative(x.rate);
      assert (-(1.0 / x.rate)).Floor == -n;
    }
  }

  lemma Positive(rate: real)
    requires rate > 0.0
    ensures 1.0 / rate > 0.0
  {
  }

  lemma Negative(rate: real)
    requires rate < 0.0
    ensures 1.0 / rate < 0.0
  {
  }

  /** The sample belongs to bucket `b` and context `c`. */
  ghost predicate Belongs(cfg: Config, x: Sample, now: Time, b: Time, c: Context) {
    b == Reading(x, now) - Reading(x, now) % cfg.interval && Describes(cfg, x, c)
  }

  /** A sample is stored exactly when it is no older than the threshold, its metric is
      there or of a known type, and it is not a counter's with a rate of zero. */
  lemma StoredExactly(cfg: Config, a: Agg, x: Sample, now: Time, b: Time, c: Context)
    requires Belongs(cfg, x, now, b, c)
    ensures var recent := x.timestamp.None? || now - x.timestamp.value <= cfg.recent;
      var there := b in a.buckets && c in a.buckets[b];
      var counter := if there then a.buckets[b][c].kind == Counter else x.mtype == Typed(Counter);
      SubmitVerdict(cfg, a, x, now) == Stored <==> recent && (there || x.mtype.Typed?) && !(counter && x.rate == 0.0)
  {
    StartByRemainder(cfg, Stamp(x, now));
    ContextDescribes(cfg, x, c);
  }

  /** Then its metric, which keeps its kind, has its value if a gauge, and if a counter
      this times the inverted rate more; and no other metric changes. */
  lemma StoredTakesEffect(cfg: Config, a: Agg, x: Sample, now: Time, sampled: Time, b: Time, c: Context, n: int)
    requires Belongs(cfg, x, now, b, c) && SubmitVerdict(cfg, a, x, now) == Stored
    requires x.rate != 0.0 ==> Inverse(x.rate, n)
    ensures var r := Submit(cfg, a, x, now, sampled);
      var there := b in a.buckets && c in a.buckets[b];
      && b in r.buckets && c in r.buckets[b]
      && (var cell := r.buckets[b][c];
          && cell.last == Some(sampled)
          && (if there then cell.kind == a.buckets[b][c].kind else x.mtype == Typed(cell.kind))
          && (cell.kind == Gauge ==> cell.value == Some(x.value))
          && (cell.kind == Counter ==>
                x.rate != 0.0
                && cell.value == Some((if there then a.buckets[b][c].Amount() else 0.0) + x.value * n as real)))
      && (forall d, e :: (d, e) != (b, c) ==>
            && (e in CellsAt(r, d) <==> e in CellsAt(a, d))
            && (e in CellsAt(a, d) ==> CellsAt(r, d)[e] == CellsAt(a, d)[e]))
      && r.register == a.register && r.cutoff == a.cutoff
  {
    StartByRemainder(cfg, Stamp(x, now));
    ContextDescribes(cfg, x, c);
    if x.rate != 0.0 {
      WeightTruncates(x, n);
    }
  }

  // ---- what a flush does ----

  /** Every metric that has not expired is in the batch, a counter as its rate. */
  ghost predicate Shows(cfg: Config, cells: Cells, batch: Batch, limit: Time) {
    forall c :: c in cells && !cells[c].Expired(limit) ==>
      match cells[c].kind
      case Counter => c in batch.rates && batch.rates[c] == cells[c].Amount() / cfg.interval as real
      case Gauge => cells[c].value.Some? ==> c in batch.gauges && batch.gauges[c] == cells[c].value.value
  }

  ghost predicate BucketShown(cfg: Config, a: Agg, batches: seq<Batch>, b: Time, limit: Time) {
    exists i :: 0 <= i < |batches| && batches[i].ts == b && Shows(cfg, CellsAt(a, b), batches[i], limit)
  }

  lemma {:induction false} FlushKeysShow(cfg: Config, a: Agg, keys: seq<Time>, cutoff: Time, limit: Time, b: Time)
    requires (forall i, j :: 0 <= i < j < |keys| ==> keys[i] != keys[j]) && b in keys && b < cutoff
    ensures BucketShown(cfg, a, FlushKeys(cfg, a, keys, cutoff, limit).1, b, limit)
  {
    var key, front := keys[|keys| - 1], keys[..|keys| - 1];
    var (a1, before) := FlushKeys(cfg, a, front, cutoff, limit);
    var batches := FlushKeys(cfg, a, keys, cutoff, limit).1;
    assert keys == front + [key];
    if b in front {
      FlushKeysShow(cfg, a, front, cutoff, limit, b);
      var i :| 0 <= i < |before| && before[i].ts == b && Shows(cfg, CellsAt(a, b), before[i], limit);
      assert batches[i] == before[i];
    } else {
      FlushKeysBuckets(cfg, a, front, cutoff, limit);
      assert CellsAt(a1, b) == CellsAt(a, b);
      var last := BatchOf(cfg, CellsAt(a1, b), a1.register, b, limit);
      assert batches[|batches| - 1] == last && Shows(cfg, CellsAt(a, b), last, limit);
    }
  }

  /** A flush takes exactly the buckets that are over, and shows in a batch of each what
      waited in it and had not expired. */
  lemma FlushShowsWhatWaits(cfg: Config, a: Agg, keys: seq<Time>, now: Time, b: Time)
    requires InOrder(keys, a)
    ensures var (r, batches) := Flush(cfg, a, keys, now);
      var over := b < now - now % cfg.interval;
      && (b in r.buckets <==> b in a.buckets && !over) && (b in r.buckets ==> r.buckets[b] == a.buckets[b])
      && (b in a.buckets && over ==> BucketShown(cfg, a, batches, b, now - cfg.expiry))
      && r.cutoff == now - now % cfg.interval
  {
    StartByRemainder(cfg, now);
    if a.buckets != map[] {
      FlushKeysBuckets(cfg, a, keys, BucketStart(cfg, now), now - cfg.expiry);
      if b in keys && b < BucketStart(cfg, now) {
        FlushKeysShow(cfg, a, keys, BucketStart(cfg, now), now - cfg.expiry, b);
      }
    }
  }

  lemma KeysAgree(cfg: Config, a: Agg, front: seq<Time>, cutoff: Time, limit: Time, key: Time)
    requires key !in front
    ensures CellsAt(FlushKeys(cfg, a, front, cutoff, limit).0, key) == CellsAt(a, key)
  {
    FlushKeysBuckets(cfg, a, front, cutoff, limit);
  }

  lemma Registers(cells: Cells, register: map<Context, Time>, c: Context, limit: Time)
    ensures LiveCounter(cells, c, limit) ==>
              c in Refresh(cells, register, limit) && Some(Refresh(cells, register, limit)[c]) == cells[c].last
    ensures c !in cells && c in register && register[c] >= limit ==>
              c in Refresh(cells, register, limit) && Refresh(cells, register, limit)[c] == register[c]
  {
  }

  lemma {:induction false} FlushKeysRegister(cfg: Config, a: Agg, keys: seq<Time>, cutoff: Time, limit: Time,
                                             b: Time, c: Context)
    requires (forall i, j :: 0 <= i < j < |keys| ==> keys[i] < keys[j]) && b in keys && b < cutoff
    requires LiveCounter(CellsAt(a, b), c, limit)
    requires forall d :: d in keys && b < d < cutoff ==> c !in CellsAt(a, d)
    ensures var r := FlushKeys(cfg, a, keys, cutoff, limit).0;
      c in r.register && Some(r.register[c]) == CellsAt(a, b)[c].last
  {
    var key, front := keys[|keys| - 1], keys[..|keys| - 1];
    var a1 := FlushKeys(cfg, a, front, cutoff, limit).0;
    assert forall d :: d in front ==> d < key;
    KeysAgree(cfg, a, front, cutoff, limit, key);
    Registers(CellsAt(a, key), a1.register, c, limit);
    assert keys == front + [key];
    if b != key {
      assert b in front && key in keys;
      FlushKeysRegister(cfg, a, front, cutoff, limit, b, c);
    }
  }

  /** A counter that a flush shows is registered with its last sample, and so reported as
      zero from then on until it expires. */
  lemma ShownCounterIsRegistered(cfg: Config, a: Agg, keys: seq<Time>, now: Time, b: Time, c: Context)
    requires InOrder(keys, a) && b < now - now % cfg.interval
    requires b in a.buckets && c in a.buckets[b] && a.buckets[b][c].kind == Counter
    requires !a.buckets[b][c].Expired(now - cfg.expiry)
    requires forall d :: d in a.buckets && b < d < now - now % cfg.interval ==> c !in a.buckets[d]
    ensures var r := Flush(cfg, a, keys, now).0; c in r.register && Some(r.register[c]) == a.buckets[b][c].last
  {
    StartByRemainder(cfg, now);
    assert a.buckets != map[] && CellsAt(a, b) == a.buckets[b];
    FlushKeysRegister(cfg, a, keys, BucketStart(cfg, now), now - cfg.expiry, b, c);
  }

  /** With nothing waiting a flush still reports zero for each counter that has not
      expired, once an interval has gone by since the last cutoff, and nothing else. */
  lemma QuietFlushReportsZeros(cfg: Config, a: Agg, keys: seq<Time>, now: Time)
    requires a.buckets == map[]
    ensures var (r, batches) := Flush(cfg, a, keys, now);
      var cutoff := now - now % cfg.interval;
      if cutoff < a.cutoff + cfg.interval then batches == [] && r.register == a.register
      else
        && |batches| == 1 && batches[0].ts == cutoff - cfg.interval && batches[0].gauges == map[]
        && (forall c :: c in batches[0].rates <==> c in a.register && a.register[c] >= now - cfg.expiry)
        && (forall c :: c in batches[0].rates ==> batches[0].rates[c] == 0.0)
        && r.register.Keys == batches[0].rates.Keys && (forall c :: c in r.register ==> r.register[c] == a.register[c])
  {
    StartByRemainder(cfg, now);
  }

  // ---- every context comes from a sample ----

  ghost predicate Described(cfg: Config, events: seq<Event>, c: Context) {
    exists i :: 0 <= i < |events| && events[i].Submission? && Describes(cfg, events[i].x, c)
  }

  ghost predicate AggSourced(cfg: Config, events: seq<Event>, a: Agg) {
    && (forall b, c :: b in a.buckets && c in a.buckets[b] ==> Described(cfg, events, c))
    && (forall c :: c in a.register ==> Described(cfg, events, c))
  }

  ghost predicate BatchSourced(cfg: Config, events: seq<Event>, batch: Batch) {
    forall c :: c in batch.rates || c in batch.gauges || c in batch.dropped ==> Described(cfg, events, c)
  }

  ghost predicate BatchesSourced(cfg: Config, events: seq<Event>, batches: seq<Batch>) {
    forall i :: 0 <= i < |batches| ==> BatchSourced(cfg, events, batches[i])
  }

  lemma {:induction false} FlushKeysSourced(cfg: Config, events: seq<Event>, a: Agg, keys: seq<Time>,
                                            cutoff: Time, limit: Time)
    requires AggSourced(cfg, events, a)
    ensures AggSourced(cfg, events, FlushKeys(cfg, a, keys, cutoff, limit).0)
    ensures BatchesSourced(cfg, events, FlushKeys(cfg, a, keys, cutoff, limit).1)
  {
    if keys != [] {
      FlushKeysSourced(cfg, events, a, keys[..|keys| - 1], cutoff, limit);
    }
  }

  lemma StillDescribed(cfg: Config, events: seq<Event>, e: Event, c: Context)
    requires Described(cfg, events, c)
    ensures Described(cfg, events + [e], c)
  {
    var i :| 0 <= i < |events| && events[i].Submission? && Describes(cfg, events[i].x, c);
    assert (events + [e])[i] == events[i];
  }

  lemma MoreSourced(cfg: Config, events: seq<Event>, e: Event, a: Agg, batches: seq<Batch>)
    requires AggSourced(cfg, events, a) && BatchesSourced(cfg, events, batches)
    ensures AggSourced(cfg, events + [e], a) && BatchesSourced(cfg, events + [e], batches)
  {
    forall c | Described(cfg, events, c) ensures Described(cfg, events + [e], c) {
      StillDescribed(cfg, events, e, c);
    }
    forall i | 0 <= i < |batches| ensures BatchSourced(cfg, events + [e], batches[i]) {
      assert BatchSourced(cfg, events, batches[i]);
    }
  }

  lemma SubmitSourced(cfg: Config, events: seq<Event>, a: Agg, x: Sample, now: Time, sampled: Time)
    requires AggSourced(cfg, events, a) && Described(cfg, events, ContextOf(cfg, x))
    ensures AggSourced(cfg, events, Submit(cfg, a, x, now, sampled))
  {
  }

  lemma StepSourced(cfg: Config, events: seq<Event>, l: Ledger, e: Event)
    requires AggSourced(cfg, events, l.agg) && BatchesSourced(cfg, events, l.batches)
    ensures AggSourced(cfg, events + [e], Step(cfg, l, e).agg)
    ensures BatchesSourced(cfg, events + [e], Step(cfg, l, e).batches)
  {
    MoreSourced(cfg, events, e, l.agg, l.batches);
    match e
    case Submission(x, now, sampled) =>
      ContextDescribes(cfg, x, ContextOf(cfg, x));
      assert (events + [e])[|events|] == e;
      SubmitSourced(cfg, events + [e], l.agg, x, now, sampled);
    case Flushing(now, keys) =>
      FlushKeysSourced(cfg, events + [e], l.agg, keys, BucketStart(cfg, now), now - cfg.expiry);
  }

  lemma {:induction false} RunSourced(cfg: Config, past: seq<Event>, l: Ledger, events: seq<Event>, r: Ledger)
    requires AggSourced(cfg, past, l.agg) && BatchesSourced(cfg, past, l.batches) && Reaches(cfg, l, events, r)
    ensures BatchesSourced(cfg, past + events, r.batches)
    decreases |events|
  {
    if events == [] {
      assert past + events == past;
    } else {
      StepSourced(cfg, past, l, events[0]);
      RunSourced(cfg, past + [events[0]], Step(cfg, l, events[0]), events[1..], r);
      assert past + [events[0]] + events[1..] == past + events;
    }
  }

  /** In every run each value reported has the name, tags, host and device of a sample. */
  lemma ReportsDescribeSamples(cfg: Config, events: seq<Event>, r: Ledger, i: nat, c: Context)
    requires Reaches(cfg, Start, events, r) && i < |r.batches|
    requires c in r.batches[i].rates || c in r.batches[i].gauges
    ensures Described(cfg, events, c)
  {
    RunSourced(cfg, [], Start, events, r);
    assert [] + events == events;
    assert BatchSourced(cfg, events, r.batches[i]);
  }
}
