/** The objects behind one `map_async` call of checks/libs/thread_pool.py: the results,
    the collector that waits for them, and the loop that cuts the iterable into units. */
module ResultCollectors {
  import opened Wrappers
  import opened Seqs
  import opened Sums
  import opened WorkPool

  class ApplyResult<T, E> {
    var event: bool
    var data: Option<Outcome<T, E>>
    var callbacks: seq<T>       // what the callback has been called with

    constructor ()
      ensures !event && data == None && callbacks == []
    {
      event, data, callbacks := false, None, [];
    }

    /** What `get(0)` comes to now. */
    ghost function Poll(): Outcome<T, E>
      reads this
    {
      if event && data.Some? then data.value else Raised(Timeout)
    }

    method SetValue(value: T)
      requires !event
      modifies this
      ensures event && Poll() == Value(value) && callbacks == old(callbacks) + [value]
    {
      data := Some(Value(value));
      event := true;
      callbacks := callbacks + [value];
    }

    method SetException(exn: Exn<E>)
      requires !event
      modifies this
      ensures event && Poll() == Raised(exn) && callbacks == old(callbacks)
    {
      data := Some(Raised(exn));
      event := true;
    }

    method GetNow() returns (outcome: Outcome<T, E>)
      ensures outcome == Poll()
    {
      outcome := if event && data.Some? then data.value else Raised(Timeout);
    }
  }

  ghost function Polls<R, E>(results: seq<ApplyResult<R, E>>): (r: seq<Outcome<R, E>>)
    reads results
    ensures |r| == |results| && forall i :: 0 <= i < |results| ==> r[i] == results[i].Poll()
  {
    seq(|results|, i requires 0 <= i < |results| reads results => results[i].Poll())
  }

  /** The callback gets the value of a call that succeeded, and is not called otherwise. */
  function OnSuccess<T, E>(outcome: Outcome<T, E>): seq<T> {
    if outcome.Value? then [outcome.value] else []
  }

  class OrderedResultCollector<R, E> {
    var results: seq<ApplyResult<R, E>>
    var remaining: int
    const toNotify: ApplyResult<seq<R>, E>

    constructor (toNotify: ApplyResult<seq<R>, E>)
      ensures this.toNotify == toNotify && results == [] && remaining == 0
    {
      this.toNotify, results, remaining := toNotify, [], 0;
    }

    method RegisterResult(r: ApplyResult<R, E>)
      modifies this
      ensures results == old(results) + [r] && remaining == old(remaining) + 1
    {
      results := results + [r];
      remaining := remaining + 1;
    }

    /** One more result is ready. The one that finds nothing remaining sets the outcome
        of the whole call: what gathering the results in order comes to. */
    method NotifyReady()
      requires remaining > 0 && (remaining == 1 ==> !toNotify.event)
      modifies this, toNotify
      ensures results == old(results) && remaining == old(remaining) - 1
      ensures remaining > 0 ==> unchanged(toNotify)
      ensures remaining == 0 ==> toNotify.event && toNotify.Poll() == Gather(old(Polls(results)))
      ensures remaining == 0 ==> toNotify.callbacks == old(toNotify.callbacks) + OnSuccess(Gather(old(Polls(results))))
    {
      remaining := remaining - 1;
      if remaining == 0 {
        Deliver();
      }
    }

    method Deliver()
      requires !toNotify.event
      modifies toNotify
      ensures toNotify.event && toNotify.Poll() == Gather(old(Polls(results)))
      ensures toNotify.callbacks == old(toNotify.callbacks) + OnSuccess(Gather(old(Polls(results))))
    {
      ghost var polls := Polls(results);
      var lst: seq<R> := [];
      for i := 0 to |results|
        invariant |lst| == i && Succeeded(polls, lst) && Polls(results) == polls
        invariant unchanged(toNotify)
      {
        var outcome := results[i].GetNow();
        match outcome {
          case Raised(exn) =>
            GatherRaises(polls, i);
            toNotify.SetException(exn);
            return;
          case Value(value) =>
            lst := lst + [value];
        }
      }
      GatherValues(polls, lst);
      toNotify.SetValue(lst);
    }
  }

  /** Every unit but the last has `size` jobs, and the last has fewer. */
  ghost predicate Chunked(units: seq<seq<nat>>, size: nat) {
    && units != []
    && (forall i :: 0 <= i < |units| - 1 ==> |units[i]| == size)
    && |units[|units| - 1]| < size
  }

  /** The results a call on `n` elements waits for: one for each element, none set yet. */
  ghost predicate Awaits<R, E>(collector: OrderedResultCollector<R, E>, n: nat)
    reads collector, collector.results
  {
    && |collector.results| == n == collector.remaining
    && NoDup(collector.results)
    && forall i :: 0 <= i < n ==> !collector.results[i].event
  }

  /** The job of one more element: its result is registered as it is made. */
  method NewJob<R, E>(collector: OrderedResultCollector<R, E>, i: nat)
    requires Awaits(collector, i)
    modifies collector
    ensures Awaits(collector, i + 1) && collector.results[..i] == old(collector.results)
    ensures fresh(collector.results[i])
  {
    var r := new ApplyResult();
    collector.RegisterResult(r);
  }

  /** `_create_sequences` on an iterable of `n` elements; `chunksize or 1`. The result of
      job `i` is the i-th that the collector waits for. */
  method CreateSequences<R, E>(n: nat, chunksize: Option<nat>, collector: OrderedResultCollector<R, E>)
    returns (sequences: seq<seq<nat>>)
    requires Awaits(collector, 0)
    modifies collector
    ensures InOrder(Jobs(sequences)) && |Jobs(sequences)| == n
    ensures Chunked(sequences, if chunksize.Some? && chunksize.value > 0 then chunksize.value else 1)
    ensures Awaits(collector, n) && fresh(collector.results)
  {
    var size := if chunksize.Some? && chunksize.value > 0 then chunksize.value else 1;
    sequences := [];
    var next := 0;
    var exitLoop := false;
    while !exitLoop
      invariant next <= n && InOrder(Jobs(sequences)) && |Jobs(sequences)| == next
      invariant exitLoop ==> next == n && Chunked(sequences, size)
      invariant !exitLoop ==> forall i :: 0 <= i < |sequences| ==> |sequences[i]| == size
      invariant Awaits(collector, next) && fresh(collector.results)
      decreases !exitLoop, n - next
    {
      var s: seq<nat> := [];
      for i := 0 to size
        invariant next <= n && |s| == i && next == |Jobs(sequences)| + i && !exitLoop
        invariant forall k :: 0 <= k < i ==> s[k] == |Jobs(sequences)| + k
        invariant Awaits(collector, next) && fresh(collector.results)
      {
        if next == n {
          exitLoop := true;
          break;
        }
        NewJob(collector, next);
        s := s + [next];
        next := next + 1;
      }
      FlattenOne(sequences, s);
      sequences := sequences + [s];
    }
  }

  /** `map_async` with any function, chunk size, number of workers and schedule: once no
      thread can move, its result is the mapped list, or the exception of the first
      element that failed. */
  lemma MapAsync<A, R, E>(f: A -> Outcome<R, E>, args: seq<A>, units: seq<seq<nat>>, workers: nat,
                          choices: seq<Choice>, q: Pool<R, E>, run: seq<Outcome<R, E>>)
    requires |args| > 0 && workers > 0 && InOrder(Jobs(units)) && |Jobs(units)| == |args|
    requires |run| == |args| && forall i :: 0 <= i < |args| ==> run[i] == f(args[i])
    requires Reaches(Start<R, E>(units, workers, |args|), run, choices, q)
    requires forall c :: !Enabled(q, c)
    ensures |q.delivered| == 1
    ensures (forall i :: 0 <= i < |args| ==> f(args[i]).Value?) ==>
              && q.delivered[0].Value? && |q.delivered[0].value| == |args|
              && forall i :: 0 <= i < |args| ==> f(args[i]) == Value(q.delivered[0].value[i])
    ensures forall k :: 0 <= k < |args| && f(args[k]).Raised? && (forall i :: 0 <= i < k ==> f(args[i]).Value?) ==>
              q.delivered[0] == Raised(f(args[k]).exn)
  {
    NoDeadlock(units, workers, run, choices, q);
    if forall i :: 0 <= i < |args| ==> f(args[i]).Value? {
      var values := seq(|args|, i requires 0 <= i < |args| && run[i].Value? => run[i].value);
      assert Succeeded(run, values);
      GatherValues(run, values);
    }
    forall k | 0 <= k < |args| && f(args[k]).Raised? && (forall i :: 0 <= i < k ==> f(args[i]).Value?)
      ensures Gather(run) == Raised(f(args[k]).exn)
    {
      assert forall i :: 0 <= i < k ==> run[i] == f(args[i]);
      GatherRaises(run, k);
    }
  }
}
