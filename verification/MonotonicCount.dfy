/** The monotonic counter of aggregator.py: it reports how much a counter rose, and what
    it reports in all does not depend on when it is flushed. */
module MonotonicCounts {
  import opened Wrappers
  import opened Sums

  datatype Meter = Meter(prev: Option<real>, curr: Option<real>, count: Option<real>)

  function Rise(from: real, to: real): real {
    if to > from then to - from else 0.0
  }

  class MonotonicCount {
    var prevCounter: Option<real>
    var currCounter: Option<real>
    var count: Option<real>

    constructor ()
      ensures State() == Meter(None, None, None)
    {
      prevCounter, currCounter, count := None, None, None;
    }

    ghost function State(): Meter
      reads this
    {
      Meter(prevCounter, currCounter, count)
    }

    method Sample(value: real)
      modifies this
      ensures State() == Sampled(old(State()), value)
    {
      if currCounter.None? {
        currCounter := Some(value);
      } else {
        prevCounter := currCounter;
        currCounter := Some(value);
      }
      if prevCounter.Some? {
        var before := if count.Some? then count.value else 0.0;
        count := Some(before + Rise(prevCounter.value, currCounter.value));
      }
    }

    method Flush() returns (points: seq<real>)
      modifies this
      ensures State() == Flushed(old(State())) && points == Report(old(State()))
    {
      if count.None? {
        return [];
      }
      points := [count.value];
      prevCounter := currCounter;
      currCounter := None;
      count := None;
    }
  }

  function Pending(m: Meter): real {
    if m.count.Some? then m.count.value else 0.0
  }

  function Sampled(m: Meter, value: real): Meter {
    var prev := if m.curr.Some? then m.curr else m.prev;
    Meter(prev, Some(value), if prev.Some? then Some(Pending(m) + Rise(prev.value, value)) else m.count)
  }

  function Flushed(m: Meter): Meter {
    if m.count.None? then m else Meter(m.curr, None, None)
  }

  function Report(m: Meter): seq<real> {
    if m.count.None? then [] else [m.count.value]
  }

  // ---- whole runs ----

  datatype Op = Sample(value: real) | Flush

  /** The meter after `ops`, and all it reported. */
  function Run(ops: seq<Op>): (Meter, seq<real>) {
    if ops == [] then (Meter(None, None, None), [])
    else
      var (m, points) := Run(ops[..|ops| - 1]);
      match ops[|ops| - 1]
      case Sample(value) => (Sampled(m, value), points)
      case Flush => (Flushed(m), points + Report(m))
  }

  function Samples(ops: seq<Op>): seq<real> {
    if ops == [] then []
    else Samples(ops[..|ops| - 1]) + match ops[|ops| - 1] case Sample(value) => [value] case Flush => []
  }

  /** The rises between consecutive samples. */
  function Rises(samples: seq<real>): real {
    if |samples| < 2 then 0.0
    else Rises(samples[..|samples| - 1]) + Rise(samples[|samples| - 2], samples[|samples| - 1])
  }

  /** The meter knows the latest sample, and only counts while it has a current one. */
  ghost predicate Follows(m: Meter, samples: seq<real>) {
    && (m.count.Some? ==> m.curr.Some?)
    && if samples == [] then m == Meter(None, None, None)
       else (if m.curr.Some? then m.curr else m.prev) == Some(samples[|samples| - 1])
  }

  lemma {:induction false} RunCounts(ops: seq<Op>)
    ensures var (m, points) := Run(ops);
      Follows(m, Samples(ops)) && Sum(points) + Pending(m) == Rises(Samples(ops))
  {
    if ops != [] {
      var front := ops[..|ops| - 1];
      RunCounts(front);
      var (m, points) := Run(front);
      match ops[|ops| - 1]
      case Sample(value) => assert (Samples(front) + [value])[..|Samples(front)|] == Samples(front);
      case Flush =>
        assert Samples(ops) == Samples(front);
        assert Report(m) != [] ==> (points + Report(m))[..|points|] == points;
        assert Report(m) == [] ==> points + Report(m) == points;
    }
  }

  /** Each sample adds how much it exceeds the one before it, and nothing if it does not or
      is the first; whatever was flushed in between. */
  lemma SampleAddsItsRise(ops: seq<Op>, value: real)
    ensures var (m, points) := Run(ops);
      var (after, others) := Run(ops + [Sample(value)]);
      var before := Samples(ops);
      Sum(others) + Pending(after)
      == Sum(points) + Pending(m)
         + if before != [] && value > before[|before| - 1] then value - before[|before| - 1] else 0.0
  {
    RunCounts(ops);
    RunCounts(ops + [Sample(value)]);
    assert (ops + [Sample(value)])[..|ops|] == ops;
    assert (Samples(ops) + [value])[..|Samples(ops)|] == Samples(ops);
  }

  /** Where the flushes fall makes no difference to what is reported in all: it is what
      the samples say, minus what the next flush will report. */
  lemma FlushPlacementIsIrrelevant(ops: seq<Op>, others: seq<Op>)
    requires Samples(ops) == Samples(others)
    ensures Sum(Run(ops).1) + Pending(Run(ops).0) == Sum(Run(others).1) + Pending(Run(others).0)
    ensures Sum(Run(ops + [Flush]).1) == Sum(Run(others + [Flush]).1) == Rises(Samples(ops))
  {
    RunCounts(ops);
    RunCounts(others);
    FinalFlush(ops);
    FinalFlush(others);
  }

  /** After a flush nothing is held back. */
  lemma FinalFlush(ops: seq<Op>)
    ensures Sum(Run(ops + [Flush]).1) == Rises(Samples(ops)) && Pending(Run(ops + [Flush]).0) == 0.0
  {
    RunCounts(ops + [Flush]);
    assert (ops + [Flush])[..|ops|] == ops;
    assert Samples(ops + [Flush]) == Samples(ops);
  }

  /** A fall counts as nothing: what is reported is the climb from first to last sample
      exactly when no sample fell, and exceeds it otherwise. */
  lemma {:induction false} FallsAreIgnored(samples: seq<real>)
    requires samples != []
    ensures Rises(samples) >= samples[|samples| - 1] - samples[0]
    ensures Rises(samples) == samples[|samples| - 1] - samples[0] <==>
              forall i :: 0 < i < |samples| ==> samples[i - 1] <= samples[i]
  {
    if |samples| > 1 {
      var front := samples[..|samples| - 1];
      FallsAreIgnored(front);
      if forall i :: 0 < i < |front| ==> front[i - 1] <= front[i] {
        forall i | 0 < i < |front| ensures samples[i - 1] <= samples[i] {
          assert front[i - 1] <= front[i];
        }
      } else {
        var i :| 0 < i < |front| && front[i - 1] > front[i];
        assert samples[i - 1] > samples[i];
      }
    }
  }
}
