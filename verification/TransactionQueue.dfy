/** The forwarder's transaction queue (transaction.py) as a state machine on values.

    Transactions are named by the ids the manager hands out (1, 2, 3, ...); the
    mutable part of each one is an entry of `table`. Everything the environment
    decides is in a `World`: the i-th reading of the clock and the outcome of
    each call of a transaction's own `flush`. Both are consumed in order through
    `ticks`, so every behaviour of the manager is a run of these functions. */
module TransactionQueue {
  import opened Wrappers
  import opened Seqs
  import StableSort

  type Id = nat
  type Micros = int

  const SECOND: Micros := 1_000_000
  const MAX_FLUSH_DURATION: Micros := 10 * SECOND

  datatype Tr = Tr(endpoint: string, size: nat, errors: nat, nextFlush: Micros)

  datatype Response = Success | Failed | Rejected

  /** What one call of a transaction's `flush` does: leave a request outstanding,
      raise, or answer (and call `flush_next`) before it returns. */
  datatype Outcome = Pending | Raised | Answered(response: Response)

  datatype World = World(
    maxWait: nat, maxSize: nat, throttle: nat, parallelism: nat, maxErrors: nat,
    clock: nat -> Micros, outcome: nat -> Outcome)
  {
    /** At least one request may run, and the clock never goes back. */
    ghost predicate Valid() {
      && parallelism >= 1
      && (forall i, j :: 0 <= i <= j ==> clock(i) <= clock(j))
    }
  }

  /** Every listed id has been handed out. */
  predicate Known(n: nat, ids: seq<Id>) {
    forall i :: 0 <= i < |ids| ==> 1 <= ids[i] <= n
  }

  /** One request handed to the network: whose, after how many errors, and when. */
  datatype Send = Send(id: Id, errors: nat, at: Micros)

  /** The manager's fields, followed by what an observer of the run has seen:
      the requests outstanding, the timers set, the ids evicted by `append`, the ids
      removed because they were answered, every request sent, and the number of
      requests sent before the current flush began. */
  datatype Queue = Queue(
    table: seq<Tr>,
    queued: seq<Id>, count: int, size: int,
    toFlush: Option<seq<Id>>, running: int,
    lastFlush: Micros, flushTime: Micros,
    endpointErrors: map<string, nat>,
    crashed: bool, ticks: nat,
    inFlight: set<Id>, timers: nat, evicted: set<Id>, finished: set<Id>,
    sends: seq<Send>, flushStart: nat)
  {
    predicate Knows(id: Id) {
      1 <= id <= |table|
    }

    function At(id: Id): Tr
      requires Knows(id)
    {
      table[id - 1]
    }

    function Put(id: Id, tr: Tr): Queue
      requires Knows(id)
    {
      this.(table := table[id - 1 := tr])
    }

    function Tick(): Queue {
      this.(ticks := ticks + 1)
    }

    function Waiting(): seq<Id> {
      if toFlush.Some? then toFlush.value else []
    }

    predicate Wf() {
      Known(|table|, queued) && Known(|table|, Waiting()) && (forall id :: id in inFlight ==> Knows(id))
    }
  }

  function Initial(w: World): Queue {
    Queue([], [], 0, 0, None, 0, w.clock(0), w.clock(0), map[], false, 1, {}, 0, {}, {}, [], 0)
  }

  // ---- Transaction.compute_next_flush ----

  /** 20 seconds per error, at most `maxWait`. */
  function Delay(errors: nat, w: World): nat {
    if errors * 20 * SECOND > w.maxWait then w.maxWait else errors * 20 * SECOND
  }

  /** The end of the delay, cut to whole seconds. */
  function Backoff(errors: nat, now: Micros, w: World): Micros {
    var newdate := now + Delay(errors, w);
    newdate - newdate % SECOND
  }

  function ComputeNextFlush(q: Queue, w: World, id: Id): Queue
    requires q.Knows(id)
  {
    var tr := q.At(id);
    q.Put(id, tr.(nextFlush := Backoff(tr.errors, w.clock(q.ticks), w))).Tick()
  }

  /** `compute_next_flush` on each of `ids`, in order. */
  function Postpone(q: Queue, w: World, ids: seq<Id>): (r: Queue)
    requires Known(|q.table|, ids)
    ensures |r.table| == |q.table| && r.ticks == q.ticks + |ids|
    ensures r == q.(table := r.table, ticks := r.ticks)
    ensures forall i :: 0 <= i < |q.table| ==> r.table[i] == q.table[i].(nextFlush := r.table[i].nextFlush)
    decreases |ids|
  {
    if ids == [] then q else Postpone(ComputeNextFlush(q, w, ids[0]), w, ids[1..])
  }

  // ---- append and _remove ----

  function TotalSize(table: seq<Tr>, ids: seq<Id>): nat
    requires Known(|table|, ids)
  {
    if ids == [] then 0 else table[ids[0] - 1].size + TotalSize(table, ids[1..])
  }

  lemma RemoveKnown(n: nat, ids: seq<Id>, id: Id)
    requires Known(n, ids)
    ensures Known(n, RemoveFirst(ids, id))
  {
    var r := RemoveFirst(ids, id);
    RemoveFirstElems(ids, id);
    forall i | 0 <= i < |r| ensures 1 <= r[i] <= n {
      assert r[i] in r;
    }
  }

  function Remove(q: Queue, id: Id): (r: Queue)
    requires q.Wf() && q.Knows(id)
    ensures r.Wf()
  {
    if id in q.queued then
      RemoveKnown(|q.table|, q.queued, id);
      q.(queued := RemoveFirst(q.queued, id), count := q.count - 1, size := q.size - q.At(id).size)
    else q
  }

  /** `sorted(self._transactions, key=next_flush, reverse=True)`. */
  function LatestFirst(q: Queue): (r: seq<Id>)
    requires q.Wf()
    ensures |r| == |q.queued| && Known(|q.table|, r)
  {
    StableSort.Permute(q.queued, EvictionOrder(NextFlushes(q.table, q.queued)))
  }

  function NextFlushes(table: seq<Tr>, ids: seq<Id>): (r: seq<Micros>)
    requires Known(|table|, ids)
    ensures |r| == |ids| && forall i :: 0 <= i < |ids| ==> r[i] == table[ids[i] - 1].nextFlush
  {
    seq(|ids|, i requires 0 <= i < |ids| && 1 <= ids[i] <= |table| => table[ids[i] - 1].nextFlush)
  }

  function EvictionOrder(nextFlushes: seq<Micros>): (p: seq<nat>)
    ensures |p| == |nextFlushes| && StableSort.IndicesBelow(p, |nextFlushes|)
    ensures forall y :: y in p <==> 0 <= y < |nextFlushes|
  {
    StableSort.Sort(nextFlushes, (a: Micros, b: Micros) => a >= b)
  }

  /** The eviction loop of `append`, over a list fixed beforehand. */
  function Evict(q: Queue, w: World, order: seq<Id>, incoming: nat): (r: Queue)
    requires q.Wf() && Known(|q.table|, order)
    ensures r.Wf() && r.table == q.table
    decreases |order|
  {
    if order == [] then q
    else if q.size + incoming > w.maxSize then
      var r := Remove(q, order[0]).(evicted := q.evicted + {order[0]});
      Evict(r, w, order[1..], incoming)
    else Evict(q, w, order[1..], incoming)
  }

  /** `append`'s check of the queue size, and the evictions when it fails. */
  function MakeRoom(q: Queue, w: World, incoming: nat): (r: Queue)
    requires q.Wf()
    ensures r.Wf() && r.table == q.table
  {
    if q.size + incoming > w.maxSize then Evict(q, w, LatestFirst(q), incoming) else q
  }

  /** The new transaction gets the next id and goes to the end of the queue. */
  function Enqueue(q: Queue, tr: Tr): (r: Queue)
    requires q.Wf()
    ensures r.Wf() && |r.table| == |q.table| + 1
  {
    q.(table := q.table + [tr], queued := q.queued + [|q.table| + 1], count := q.count + 1, size := q.size + tr.size)
  }

  function Append(q: Queue, w: World, endpoint: string, size: nat, created: Micros): (r: Queue)
    requires q.Wf()
    ensures r.Wf() && |r.table| == |q.table| + 1
  {
    Enqueue(MakeRoom(q, w, size), Tr(endpoint, size, 0, created))
  }

  // ---- tr_success, tr_error_reject_request, tr_error ----

  /** `_remove` of an answered transaction. */
  function Finish(q: Queue, id: Id): Queue
    requires q.Wf() && q.Knows(id)
  {
    if id in q.queued then Remove(q, id).(finished := q.finished + {id}) else q
  }

  /** One running request is over. */
  function Land(q: Queue, id: Id): Queue {
    q.(running := q.running - 1, inFlight := q.inFlight - {id})
  }

  function IncErrorCount(q: Queue, id: Id): Queue
    requires q.Knows(id)
  {
    q.Put(id, q.At(id).(errors := q.At(id).errors + 1))
  }

  function TrSuccess(q: Queue, id: Id): Queue
    requires q.Wf() && q.Knows(id)
  {
    Finish(Land(q, id), id)
  }

  function TrReject(q: Queue, id: Id): Queue
    requires q.Wf() && q.Knows(id)
  {
    Finish(IncErrorCount(Land(q, id), id), id)
  }

  function ForEndpoint(table: seq<Tr>, ids: seq<Id>, endpoint: string, same: bool): (r: seq<Id>)
    requires Known(|table|, ids)
    ensures Known(|table|, r)
    ensures |r| <= |ids|
  {
    if ids == [] then []
    else
      var rest := ForEndpoint(table, ids[1..], endpoint, same);
      if (table[ids[0] - 1].endpoint == endpoint) == same then [ids[0]] + rest else rest
  }

  /** The endpoint has failed `maxErrors` times in this flush: keep the rest of the
      flush off it. Iterating over a list that is not there would raise. */
  function Trip(q: Queue, w: World, endpoint: string): (r: Queue)
    requires q.Wf()
  {
    if q.toFlush.None? then q.(crashed := true)
    else
      var ids := q.toFlush.value;
      Postpone(q, w, ForEndpoint(q.table, ids, endpoint, true))
        .(toFlush := Some(ForEndpoint(q.table, ids, endpoint, false)))
  }

  function CountError(q: Queue, endpoint: string): Queue {
    var n := if endpoint in q.endpointErrors then q.endpointErrors[endpoint] else 0;
    q.(endpointErrors := q.endpointErrors[endpoint := n + 1])
  }

  /** The transaction stays queued, and the error counts against its endpoint. */
  function Replay(q: Queue, w: World, id: Id): (r: Queue)
    requires q.Wf() && q.Knows(id)
    ensures r.Wf() && |r.table| == |q.table| && |r.Waiting()| <= |q.Waiting()|
  {
    var endpoint := q.At(id).endpoint;
    var q1 := CountError(ComputeNextFlush(q, w, id), endpoint);
    if q1.endpointErrors[endpoint] == w.maxErrors then Trip(q1, w, endpoint) else q1
  }

  function TrError(q: Queue, w: World, id: Id): (r: Queue)
    requires q.Wf() && q.Knows(id)
    ensures r.Wf() && |r.table| == |q.table| && |r.Waiting()| <= |q.Waiting()|
  {
    var q1 := IncErrorCount(Land(q, id), id);
    assert q1.Wf();
    if q1.At(id).errors > w.maxErrors then Finish(q1, id) else Replay(q1, w, id)
  }

  /** The branch of `on_response` that applies. */
  function Resolve(q: Queue, w: World, id: Id, response: Response): (r: Queue)
    requires q.Wf() && q.Knows(id)
    ensures r.Wf() && |r.table| == |q.table| && |r.Waiting()| <= |q.Waiting()|
  {
    match response
    case Success => TrSuccess(q, id)
    case Failed => TrError(q, w, id)
    case Rejected => TrReject(q, id)
  }

  // ---- flush_next and flush ----

  /** Pop the last transaction of the flush and hand it to the network. */
  function StartSend(q: Queue, w: World): (r: Queue)
    requires q.Wf() && |q.Waiting()| > 0
    ensures r.Wf() && |r.table| == |q.table| && |r.Waiting()| == |q.Waiting()| - 1
  {
    var ids := q.toFlush.value;
    var id := ids[|ids| - 1];
    var now := w.clock(q.ticks);
    q.(toFlush := Some(ids[..|ids| - 1]), running := q.running + 1, lastFlush := now,
       inFlight := q.inFlight + {id}, sends := q.sends + [Send(id, q.At(id).errors, now)]).Tick()
  }

  function FlushNext(q: Queue, w: World): (r: Queue)
    requires q.Wf()
    ensures r.Wf() && |r.table| == |q.table| && |r.Waiting()| <= |q.Waiting()|
    decreases |q.Waiting()|, 0
  {
    if |q.Waiting()| > 0 then
      var q1 := q.Tick();
      if w.clock(q.ticks) - q.flushTime >= MAX_FLUSH_DURATION then
        FlushNext(Postpone(q1, w, q.Waiting()).(toFlush := Some([])), w)
      else
        var delay := q.lastFlush + w.throttle - w.clock(q1.ticks);
        var q2 := q1.Tick();
        if delay <= 0 && q.running < w.parallelism then
          var id := q.Waiting()[|q.Waiting()| - 1];
          var q3 := StartSend(q2, w);
          AfterSend(q3.Tick(), w, id, w.outcome(q3.ticks))
        else if q.running < w.parallelism then q2.(timers := q2.timers + 1)
        else q2
    else if q.running == 0 then q.(toFlush := None)
    else q
  }

  /** What `tr.flush()` led to, and the `flush_next` calls that follow it: the one in
      `on_response` when it answered at once, then the one in `flush_next` itself. */
  function AfterSend(q: Queue, w: World, id: Id, outcome: Outcome): (r: Queue)
    requires q.Wf() && q.Knows(id)
    ensures r.Wf() && |r.table| == |q.table| && |r.Waiting()| <= |q.Waiting()|
    decreases |q.Waiting()|, 1
  {
    match outcome
    case Pending => FlushNext(q, w)
    case Raised => FlushNext(Resolve(q, w, id, Failed), w)
    case Answered(response) => FlushNext(FlushNext(Resolve(q, w, id, response), w), w)
  }

  function SentNow(q: Queue, w: World): (r: Queue)
    requires q.Wf() && |q.Waiting()| > 0
    ensures r.Wf() && |r.table| == |q.table|
  {
    var sent := StartSend(q, w);
    AfterSend(sent.Tick(), w, q.Waiting()[|q.Waiting()| - 1], w.outcome(sent.ticks))
  }

  /** `flush_next` when something waits and the flush is not too old. */
  function SentOrWaiting(q: Queue, w: World): (r: Queue)
    requires q.Wf() && |q.Waiting()| > 0
    ensures r.Wf() && |r.table| == |q.table|
  {
    var delay := q.lastFlush + w.throttle - w.clock(q.ticks);
    if delay <= 0 && q.running < w.parallelism then SentNow(q.Tick(), w)
    else if q.running < w.parallelism then q.Tick().(timers := q.timers + 1)
    else q.Tick()
  }

  lemma FlushNextUnfold(q: Queue, w: World)
    requires q.Wf()
    ensures FlushNext(q, w)
         == if |q.Waiting()| > 0 then
              if w.clock(q.ticks) - q.flushTime >= MAX_FLUSH_DURATION
              then FlushNext(Postpone(q.Tick(), w, q.Waiting()).(toFlush := Some([])), w)
              else SentOrWaiting(q.Tick(), w)
            else if q.running == 0 then q.(toFlush := None) else q
  {
  }

  /** The queued transactions whose time has come, in queue order. */
  function Due(table: seq<Tr>, ids: seq<Id>, now: Micros): (r: seq<Id>)
    requires Known(|table|, ids)
    ensures Known(|table|, r) && forall id :: id in r <==> id in ids && table[id - 1].nextFlush <= now
  {
    if ids == [] then []
    else
      var rest := Due(table, ids[1..], now);
      if table[ids[0] - 1].nextFlush <= now then [ids[0]] + rest else rest
  }

  type FlushKey = (int, int)

  predicate KeyLeq(a: FlushKey, b: FlushKey) {
    a.0 < b.0 || (a.0 == b.0 && a.1 <= b.1)
  }

  function FlushKeys(table: seq<Tr>, ids: seq<Id>): (r: seq<FlushKey>)
    requires Known(|table|, ids)
    ensures |r| == |ids| && forall i :: 0 <= i < |ids| ==> r[i] == (0 - table[ids[i] - 1].errors, ids[i])
  {
    seq(|ids|, i requires 0 <= i < |ids| && 1 <= ids[i] <= |table| => (0 - table[ids[i] - 1].errors, ids[i]))
  }

  function ByFlushKey(keys: seq<FlushKey>): (p: seq<nat>)
    ensures |p| == |keys| && StableSort.IndicesBelow(p, |keys|)
    ensures forall y :: y in p <==> 0 <= y < |keys|
  {
    StableSort.Sort(keys, KeyLeq)
  }

  /** `sorted(to_flush, key=lambda tr: (-tr._error_count, tr._id))`. */
  function FlushOrder(table: seq<Tr>, ids: seq<Id>): (r: seq<Id>)
    requires Known(|table|, ids)
    ensures |r| == |ids| && Known(|table|, r) && forall i :: 0 <= i < |r| ==> r[i] in ids
  {
    StableSort.Permute(ids, ByFlushKey(FlushKeys(table, ids)))
  }

  /** What `flush` sets up before it calls `flush_next`. */
  function BeginFlush(q: Queue, w: World, order: seq<Id>): (r: Queue)
    requires q.Wf() && Known(|q.table|, order)
    ensures r.Wf()
  {
    q.(endpointErrors := map[], toFlush := Some(order),
       flushTime := w.clock(q.ticks), flushStart := |q.sends|).Tick()
  }

  /** The due transactions are sorted and sent, if there are any. */
  function FlushDue(q: Queue, w: World, now: Micros): (r: Queue)
    requires q.Wf()
    ensures r.Wf() && |r.table| == |q.table|
  {
    var due := Due(q.table, q.queued, now);
    if due == [] then q else FlushNext(BeginFlush(q, w, FlushOrder(q.table, due)), w)
  }

  function Flush(q: Queue, w: World): (r: Queue)
    requires q.Wf()
    ensures r.Wf() && |r.table| == |q.table|
  {
    if q.toFlush.Some? then q else FlushDue(q.Tick(), w, w.clock(q.ticks))
  }

  // ---- runs ----

  /** What the event loop can call: the receiving end adds a transaction, the
      periodic callback flushes, an outstanding request is answered, a timer fires. */
  datatype Event =
    | Arrive(endpoint: string, size: nat, created: Micros)
    | Periodic
    | Respond(id: Id, response: Response)
    | Timer

  predicate Enabled(q: Queue, e: Event) {
    (e.Respond? ==> e.id in q.inFlight) && (e.Timer? ==> q.timers > 0)
  }

  function Step(q: Queue, w: World, e: Event): (r: Queue)
    requires q.Wf() && Enabled(q, e)
    ensures r.Wf()
  {
    match e
    case Arrive(endpoint, size, created) => Append(q, w, endpoint, size, created)
    case Periodic => Flush(q, w)
    case Respond(id, response) => FlushNext(Resolve(q, w, id, response), w)
    case Timer => FlushNext(q.(timers := q.timers - 1), w)
  }

  ghost predicate Moves(w: World, p: Queue, e: Event, q: Queue) {
    p.Wf() && Enabled(p, e) && q == Step(p, w, e)
  }

  /** The states that `events` lead through from a fresh manager. */
  ghost predicate Passes(w: World, events: seq<Event>, states: seq<Queue>) {
    && |states| == |events| + 1 && states[0] == Initial(w)
    && forall i {:trigger events[i]} :: 0 <= i < |events| ==> Moves(w, states[i], events[i], states[i + 1])
  }

  /** `q` is reached from a fresh manager by `events`. */
  ghost predicate Reaches(w: World, events: seq<Event>, q: Queue) {
    exists states :: Passes(w, events, states) && states[|events|] == q
  }
}
