/** What every reachable state of the transaction queue satisfies. Each group of
    facts is a predicate over the fields it concerns; each primitive of the manager
    is shown to keep them all. */
module TransactionInvariants {
  import opened Wrappers
  import opened Seqs
  import opened TransactionQueue

  // ---- the groups ----

  ghost predicate KnownSet(n: nat, ids: set<Id>) {
    forall id :: id in ids ==> 1 <= id <= n
  }

  /** Every id handed out is in exactly one place. */
  ghost predicate Partitioned(n: nat, queued: seq<Id>, evicted: set<Id>, finished: set<Id>) {
    && (forall id :: id in queued ==> 1 <= id <= n && id !in evicted && id !in finished)
    && (forall id :: id in evicted ==> 1 <= id <= n && id !in finished)
    && (forall id :: id in finished ==> 1 <= id <= n)
    && (forall id: Id :: 1 <= id <= n ==> id in queued || id in evicted || id in finished)
  }

  /** The count and size fields are right. */
  ghost predicate Counted(t: seq<Tr>, queued: seq<Id>, count: int, size: int)
    requires Known(|t|, queued)
  {
    NoDup(queued) && count == |queued| && size == TotalSize(t, queued)
  }

  ghost predicate Accounts(q: Queue, w: World)
    requires q.Wf()
  {
    && Counted(q.table, q.queued, q.count, q.size)
    && (q.size <= w.maxSize || |q.queued| == 1)
    && Partitioned(|q.table|, q.queued, q.evicted, q.finished)
  }

  /** Nothing is in flight twice, and the running count is exact and bounded. */
  ghost predicate Flights(waiting: seq<Id>, inFlight: set<Id>, running: int, parallelism: nat) {
    && NoDup(waiting) && (forall id :: id in waiting ==> id !in inFlight)
    && running == |inFlight| && running <= parallelism
  }

  ghost function SendCount(sends: seq<Send>, id: Id): nat {
    if sends == [] then 0
    else SendCount(sends[..|sends| - 1], id) + (if sends[|sends| - 1].id == id then 1 else 0)
  }

  /** How often one transaction has been sent, against its error count. */
  ghost predicate RetryBound(errors: nat, sent: nat, flying: bool, sendable: bool, maxErrors: nat) {
    && sent <= maxErrors + 1
    && (flying ==> errors <= maxErrors && sent == errors + 1)
    && (!flying && sendable ==> errors <= maxErrors && sent == errors)
  }

  ghost predicate SendsKnown(n: nat, sends: seq<Send>) {
    forall k :: 0 <= k < |sends| ==> 1 <= sends[k].id <= n
  }

  /** The retry bound of every transaction but `except` (0 is no transaction). */
  ghost predicate Retries(t: seq<Tr>, queued: seq<Id>, waiting: seq<Id>, inFlight: set<Id>,
                          sends: seq<Send>, maxErrors: nat, except: Id)
  {
    && SendsKnown(|t|, sends)
    && (forall id: Id :: 1 <= id <= |t| && id != except ==>
          RetryBound(t[id - 1].errors, SendCount(sends, id), id in inFlight, id in queued || id in waiting, maxErrors))
  }

  /** Fewer errors first; among equals, newer first. */
  predicate Before(errorsA: nat, a: Id, errorsB: nat, b: Id) {
    errorsA < errorsB || (errorsA == errorsB && a > b)
  }

  predicate Precedes(a: Send, b: Send) {
    Before(a.errors, a.id, b.errors, b.id)
  }

  ghost predicate SendsInOrder(sends: seq<Send>, start: nat) {
    start <= |sends| && forall k, l :: start <= k < l < |sends| ==> Precedes(sends[k], sends[l])
  }

  /** The list a flush pops from the end of. */
  ghost predicate WaitingInOrder(t: seq<Tr>, ids: seq<Id>)
    requires Known(|t|, ids)
  {
    forall i, j :: 0 <= i < j < |ids| ==>
      Before(t[ids[j] - 1].errors, ids[j], t[ids[i] - 1].errors, ids[i])
  }

  ghost predicate SendsFirst(t: seq<Tr>, ids: seq<Id>, sends: seq<Send>, start: nat)
    requires Known(|t|, ids)
  {
    forall k, i :: start <= k < |sends| && 0 <= i < |ids| ==>
      Before(sends[k].errors, sends[k].id, t[ids[i] - 1].errors, ids[i])
  }

  /** The sends of the current flush are in order, and the rest of it follows them. */
  ghost predicate Ordered(t: seq<Tr>, ids: seq<Id>, sends: seq<Send>, start: nat)
    requires Known(|t|, ids)
  {
    SendsInOrder(sends, start) && WaitingInOrder(t, ids) && SendsFirst(t, ids, sends, start)
  }

  /** Consecutive sends are at least the throttling delay apart. */
  ghost predicate Throttled(sends: seq<Send>, lastFlush: Micros, throttle: nat) {
    && (forall k :: 0 < k < |sends| ==> sends[k - 1].at + throttle <= sends[k].at)
    && (|sends| > 0 ==> lastFlush == sends[|sends| - 1].at)
  }

  ghost function InFlightTo(t: seq<Tr>, inFlight: set<Id>, endpoint: string): set<Id>
    requires KnownSet(|t|, inFlight)
  {
    set id | id in inFlight && t[id - 1].endpoint == endpoint
  }

  /** No listed transaction goes to this endpoint. */
  ghost predicate Avoids(t: seq<Tr>, ids: seq<Id>, endpoint: string)
    requires Known(|t|, ids)
  {
    forall i :: 0 <= i < |ids| ==> t[ids[i] - 1].endpoint != endpoint
  }

  /** An endpoint that has failed `maxErrors` times in this flush has nothing left to
      send; what is already under way bounds how far its error count can go. */
  ghost predicate Tripped(t: seq<Tr>, ids: seq<Id>, inFlight: set<Id>, errors: map<string, nat>, w: World)
    requires Known(|t|, ids) && KnownSet(|t|, inFlight)
  {
    forall e :: e in errors && errors[e] >= w.maxErrors ==>
      Avoids(t, ids, e) && errors[e] + |InFlightTo(t, inFlight, e)| <= w.maxErrors + w.parallelism - 1
  }

  /** All groups, the retry bound of `except` aside. */
  ghost predicate BaseExcept(q: Queue, w: World, except: Id) {
    && q.Wf() && Accounts(q, w)
    && Flights(q.Waiting(), q.inFlight, q.running, w.parallelism)
    && Retries(q.table, q.queued, q.Waiting(), q.inFlight, q.sends, w.maxErrors, except)
    && Ordered(q.table, q.Waiting(), q.sends, q.flushStart)
    && Throttled(q.sends, q.lastFlush, w.throttle)
    && Tripped(q.table, q.Waiting(), q.inFlight, q.endpointErrors, w)
    && (q.toFlush.None? ==> q.running == 0)
    && !q.crashed
  }

  ghost predicate Base(q: Queue, w: World) {
    BaseExcept(q, w, 0)
  }

  /** While something is left to send either a timer is set or every slot is taken; and a
      flush that is not over, with nothing left to send, has a request outstanding. */
  ghost predicate NotStuck(q: Queue, w: World) {
    q.toFlush.Some? ==> if q.toFlush.value == [] then q.inFlight != {} else q.timers > 0 || q.running >= w.parallelism
  }

  ghost predicate Inv(q: Queue, w: World) {
    Base(q, w) && NotStuck(q, w)
  }

  // ---- only nextFlush, the clock and the timers change ----

  lemma {:induction false} TotalSizeSame(t: seq<Tr>, u: seq<Tr>, ids: seq<Id>)
    requires Known(|t|, ids) && |t| <= |u|
    requires forall i :: 0 <= i < |t| ==> u[i].size == t[i].size
    ensures TotalSize(t, ids) == TotalSize(u, ids)
  {
    if ids != [] { TotalSizeSame(t, u, ids[1..]); }
  }

  /** Endpoints are fixed at creation, so the tripped endpoints stay as they were. */
  lemma TrippedSame(t: seq<Tr>, u: seq<Tr>, ids: seq<Id>, inFlight: set<Id>, errors: map<string, nat>, w: World)
    requires Known(|t|, ids) && KnownSet(|t|, inFlight) && |t| <= |u|
    requires forall i :: 0 <= i < |t| ==> u[i].endpoint == t[i].endpoint
    requires Tripped(t, ids, inFlight, errors, w)
    ensures Tripped(u, ids, inFlight, errors, w)
  {
    forall e | e in errors && errors[e] >= w.maxErrors
      ensures InFlightTo(t, inFlight, e) == InFlightTo(u, inFlight, e) && Avoids(u, ids, e)
    {
      assert Avoids(t, ids, e);
    }
  }

  /** Same sizes and endpoints, and the same errors but those of `changed` (0 is no transaction). */
  ghost predicate SameBut(t: seq<Tr>, u: seq<Tr>, changed: Id) {
    |u| == |t| && forall i :: 0 <= i < |t| ==>
      u[i].size == t[i].size && u[i].endpoint == t[i].endpoint && (u[i].errors == t[i].errors || i + 1 == changed)
  }

  lemma RetriesSame(t: seq<Tr>, u: seq<Tr>, queued: seq<Id>, waiting: seq<Id>, inFlight: set<Id>,
                    sends: seq<Send>, maxErrors: nat, except: Id, changed: Id)
    requires SameBut(t, u, changed) && (changed == 0 || changed == except)
    requires Retries(t, queued, waiting, inFlight, sends, maxErrors, except)
    ensures Retries(u, queued, waiting, inFlight, sends, maxErrors, except)
  {
  }

  lemma OrderedSame(t: seq<Tr>, u: seq<Tr>, ids: seq<Id>, sends: seq<Send>, start: nat, changed: Id)
    requires Known(|t|, ids) && SameBut(t, u, changed) && changed !in ids && Ordered(t, ids, sends, start)
    ensures Ordered(u, ids, sends, start)
  {
    forall i | 0 <= i < |ids| ensures u[ids[i] - 1].errors == t[ids[i] - 1].errors {
      assert ids[i] in ids;
    }
  }

  lemma CountedSame(t: seq<Tr>, u: seq<Tr>, queued: seq<Id>, count: int, size: int, changed: Id)
    requires Known(|t|, queued) && SameBut(t, u, changed) && Counted(t, queued, count, size)
    ensures Counted(u, queued, count, size)
  {
    TotalSizeSame(t, u, queued);
  }

  /** Nothing changed but the table, and there only the errors of a transaction that is
      not waiting. */
  lemma NewTableBase(q: Queue, u: seq<Tr>, ticks: nat, w: World, except: Id, changed: Id)
    requires BaseExcept(q, w, except) && SameBut(q.table, u, changed)
    requires changed !in q.Waiting() && (changed == 0 || changed == except)
    ensures BaseExcept(q.(table := u, ticks := ticks), w, except)
  {
    var waiting := q.Waiting();
    CountedSame(q.table, u, q.queued, q.count, q.size, changed);
    RetriesSame(q.table, u, q.queued, waiting, q.inFlight, q.sends, w.maxErrors, except, changed);
    OrderedSame(q.table, u, waiting, q.sends, q.flushStart, changed);
    TrippedSame(q.table, u, waiting, q.inFlight, q.endpointErrors, w);
    assert q.(table := u, ticks := ticks).Waiting() == waiting;
  }

  lemma PostponeBase(q: Queue, w: World, ids: seq<Id>, except: Id)
    requires BaseExcept(q, w, except) && Known(|q.table|, ids)
    ensures BaseExcept(Postpone(q, w, ids), w, except)
  {
    var r := Postpone(q, w, ids);
    assert forall i :: 0 <= i < |q.Waiting()| ==> q.Waiting()[i] != 0;
    NewTableBase(q, r.table, r.ticks, w, except, 0);
  }

  lemma TickBase(q: Queue, w: World)
    requires Base(q, w)
    ensures Base(q.Tick(), w)
  {
    assert q.Tick().Waiting() == q.Waiting();
  }

  // ---- sums over the queue ----

  lemma TotalSizeCons(t: seq<Tr>, id: Id, rest: seq<Id>)
    requires Known(|t|, rest) && 1 <= id <= |t|
    ensures Known(|t|, [id] + rest) && TotalSize(t, [id] + rest) == t[id - 1].size + TotalSize(t, rest)
  {
    assert ([id] + rest)[1..] == rest;
  }

  lemma {:induction false} TotalSizeRemove(t: seq<Tr>, ids: seq<Id>, id: Id)
    requires Known(|t|, ids) && id in ids && Known(|t|, RemoveFirst(ids, id))
    ensures TotalSize(t, ids) == t[id - 1].size + TotalSize(t, RemoveFirst(ids, id))
  {
    var rest := ids[1..];
    if ids[0] != id {
      RemoveKnown(|t|, rest, id);
      TotalSizeRemove(t, rest, id);
      TotalSizeCons(t, ids[0], RemoveFirst(rest, id));
      assert TotalSize(t, ids) == t[ids[0] - 1].size + TotalSize(t, rest);
    }
  }

  lemma {:induction false} TotalSizeAppend(t: seq<Tr>, ids: seq<Id>, id: Id)
    requires Known(|t|, ids) && 1 <= id <= |t|
    ensures Known(|t|, ids + [id])
    ensures TotalSize(t, ids + [id]) == TotalSize(t, ids) + t[id - 1].size
  {
    if ids != [] {
      TotalSizeAppend(t, ids[1..], id);
      assert (ids + [id])[1..] == ids[1..] + [id];
    }
  }

  // ---- leaving the queue ----

  /** What `_remove` does to the accounts when the transaction is there. */
  lemma RemoveCounted(q: Queue, id: Id)
    requires q.Wf() && Counted(q.table, q.queued, q.count, q.size) && id in q.queued && q.Knows(id)
    ensures var r := Remove(q, id);
      && r.Wf() && Counted(r.table, r.queued, r.count, r.size)
      && r.size <= q.size && |r.queued| == |q.queued| - 1
      && (forall x :: x in r.queued <==> x in q.queued && x != id)
  {
    RemoveFirstNoDup(q.queued, id);
    RemoveKnown(|q.table|, q.queued, id);
    RemoveFirstElems(q.queued, id);
    TotalSizeRemove(q.table, q.queued, id);
    assert Remove(q, id).Wf();
  }

  lemma FinishAccounts(q: Queue, w: World, id: Id)
    requires q.Wf() && q.Knows(id) && Accounts(q, w)
    ensures var r := Finish(q, id); r.Wf() && Accounts(r, w)
    ensures forall x :: x in Finish(q, id).queued <==> x in q.queued && x != id
  {
    if id in q.queued {
      RemoveCounted(q, id);
      assert |q.queued| == 1 ==> Remove(q, id).queued == [];
    }
  }

  /** A transaction that is over and out of the queue is never sent again. */
  lemma FinishBase(q: Queue, w: World, id: Id)
    requires BaseExcept(q, w, id) && q.Knows(id) && id !in q.inFlight && id !in q.Waiting()
    requires SendCount(q.sends, id) <= w.maxErrors + 1
    ensures Base(Finish(q, id), w)
  {
    var r := Finish(q, id);
    FinishAccounts(q, w, id);
    assert r == q.(queued := r.queued, count := r.count, size := r.size, finished := r.finished);
    assert r.Waiting() == q.Waiting();
  }

  // ---- a running request is over ----

  lemma Shrinks<T>(a: set<T>, b: set<T>)
    requires a <= b
    ensures |a| <= |b|
  {
    assert b == a + (b - a);
  }

  /** Fewer requests outstanding: the counters have more room. */
  lemma FewerTripped(t: seq<Tr>, ids: seq<Id>, a: set<Id>, b: set<Id>, errors: map<string, nat>, w: World)
    requires Known(|t|, ids) && KnownSet(|t|, b) && a <= b && Tripped(t, ids, b, errors, w)
    ensures Tripped(t, ids, a, errors, w)
  {
    forall e | e in errors && errors[e] >= w.maxErrors
      ensures |InFlightTo(t, a, e)| <= |InFlightTo(t, b, e)|
    {
      Shrinks(InFlightTo(t, a, e), InFlightTo(t, b, e));
    }
  }

  lemma LandBase(q: Queue, w: World, id: Id)
    requires Base(q, w) && id in q.inFlight
    ensures BaseExcept(Land(q, id), w, id)
    ensures SendCount(q.sends, id) == q.At(id).errors + 1 && q.At(id).errors <= w.maxErrors
  {
    var r := Land(q, id);
    assert r.Waiting() == q.Waiting();
    FewerTripped(q.table, q.Waiting(), r.inFlight, q.inFlight, q.endpointErrors, w);
  }

  lemma TrSuccessBase(q: Queue, w: World, id: Id)
    requires Base(q, w) && id in q.inFlight
    ensures Base(TrSuccess(q, id), w)
  {
    LandBase(q, w, id);
    FinishBase(Land(q, id), w, id);
  }

  /** One more error on a transaction that is neither waiting nor in flight. */
  lemma IncErrorCountBase(q: Queue, w: World, id: Id)
    requires BaseExcept(q, w, id) && q.Knows(id) && id !in q.inFlight && id !in q.Waiting()
    ensures BaseExcept(IncErrorCount(q, id), w, id)
  {
    var r := IncErrorCount(q, id);
    NewTableBase(q, r.table, r.ticks, w, id, id);
  }

  lemma TrRejectBase(q: Queue, w: World, id: Id)
    requires Base(q, w) && id in q.inFlight
    ensures Base(TrReject(q, id), w)
  {
    LandBase(q, w, id);
    IncErrorCountBase(Land(q, id), w, id);
    FinishBase(IncErrorCount(Land(q, id), id), w, id);
  }

  // ---- an error counted against an endpoint ----

  lemma {:induction false} ForEndpointMeaning(t: seq<Tr>, ids: seq<Id>, e: string, same: bool)
    requires Known(|t|, ids)
    ensures forall id :: id in ForEndpoint(t, ids, e, same) <==>
              id in ids && (t[id - 1].endpoint == e) == same
  {
    if ids != [] { ForEndpointMeaning(t, ids[1..], e, same); }
  }

  /** Dropping an endpoint from a sorted list leaves a sorted list of the others. */
  lemma {:induction false} DropEndpoint(t: seq<Tr>, ids: seq<Id>, e: string)
    requires Known(|t|, ids) && WaitingInOrder(t, ids)
    ensures WaitingInOrder(t, ForEndpoint(t, ids, e, false)) && Avoids(t, ForEndpoint(t, ids, e, false), e)
  {
    if ids != [] {
      var rest := ForEndpoint(t, ids[1..], e, false);
      DropEndpoint(t, ids[1..], e);
      ForEndpointMeaning(t, ids[1..], e, false);
      forall i | 0 <= i < |rest|
        ensures Before(t[rest[i] - 1].errors, rest[i], t[ids[0] - 1].errors, ids[0])
      {
        assert rest[i] in rest;
        var k :| 0 <= k < |ids[1..]| && ids[1..][k] == rest[i];
        assert ids[k + 1] == rest[i];
      }
    }
  }

  lemma InOrderNoDup(t: seq<Tr>, ids: seq<Id>)
    requires Known(|t|, ids) && WaitingInOrder(t, ids)
    ensures NoDup(ids)
  {
  }

  lemma DropOrdered(t: seq<Tr>, ids: seq<Id>, kept: seq<Id>, sends: seq<Send>, start: nat)
    requires Known(|t|, ids) && Known(|t|, kept) && forall x :: x in kept ==> x in ids
    requires SendsFirst(t, ids, sends, start)
    ensures SendsFirst(t, kept, sends, start)
  {
    forall k, i | start <= k < |sends| && 0 <= i < |kept|
      ensures Before(sends[k].errors, sends[k].id, t[kept[i] - 1].errors, kept[i])
    {
      assert kept[i] in kept;
      var m :| 0 <= m < |ids| && ids[m] == kept[i];
    }
  }

  lemma DropTripped(t: seq<Tr>, ids: seq<Id>, kept: seq<Id>, inFlight: set<Id>, e: string,
                    errors: map<string, nat>, counters: map<string, nat>, w: World)
    requires Known(|t|, ids) && Known(|t|, kept) && KnownSet(|t|, inFlight)
    requires Tripped(t, ids, inFlight, errors, w) && |inFlight| < w.parallelism
    requires forall f :: f in counters && f != e ==> f in errors && counters[f] == errors[f]
    requires e in counters ==> counters[e] == w.maxErrors
    requires Avoids(t, kept, e) && forall x :: x in kept ==> x in ids
    ensures Tripped(t, kept, inFlight, counters, w)
  {
    Shrinks(InFlightTo(t, inFlight, e), inFlight);
    forall f | f in counters && counters[f] >= w.maxErrors && f != e ensures Avoids(t, kept, f) {
      forall i | 0 <= i < |kept| ensures t[kept[i] - 1].endpoint != f {
        assert kept[i] in kept;
        var m :| 0 <= m < |ids| && ids[m] == kept[i];
      }
    }
  }

  /** Everything survives the breaker. */
  lemma DropBase(q: Queue, w: World, e: string, counters: map<string, nat>)
    requires Base(q, w) && q.toFlush.Some? && q.running < w.parallelism
    requires forall f :: f in counters && f != e ==> f in q.endpointErrors && counters[f] == q.endpointErrors[f]
    requires e in counters ==> counters[e] == w.maxErrors
    ensures Base(q.(endpointErrors := counters,
                    toFlush := Some(ForEndpoint(q.table, q.toFlush.value, e, false))), w)
  {
    var ids := q.toFlush.value;
    var kept := ForEndpoint(q.table, ids, e, false);
    var r := q.(endpointErrors := counters, toFlush := Some(kept));
    assert r.Waiting() == kept && q.Waiting() == ids;
    DropEndpoint(q.table, ids, e);
    InOrderNoDup(q.table, kept);
    ForEndpointMeaning(q.table, ids, e, false);
    DropOrdered(q.table, ids, kept, q.sends, q.flushStart);
    DropTripped(q.table, ids, kept, q.inFlight, e, q.endpointErrors, counters, w);
    assert Flights(kept, q.inFlight, q.running, w.parallelism);
    assert Retries(q.table, q.queued, kept, q.inFlight, q.sends, w.maxErrors, 0);
  }

  /** Postponing does not look at the list being flushed. */
  lemma {:induction false} PostponeElsewhere(q: Queue, w: World, ids: seq<Id>, toFlush: Option<seq<Id>>)
    requires Known(|q.table|, ids)
    ensures Postpone(q.(toFlush := toFlush), w, ids) == Postpone(q, w, ids).(toFlush := toFlush)
    decreases |ids|
  {
    if ids != [] { PostponeElsewhere(ComputeNextFlush(q, w, ids[0]), w, ids[1..], toFlush); }
  }

  /** The endpoint's counter goes up, and trips the breaker at the limit. */
  lemma CountErrorBase(q: Queue, w: World, e: string)
    requires w.Valid() && Base(q, w) && q.toFlush.Some? && q.running < w.parallelism && w.maxErrors > 0
    requires e in q.endpointErrors && q.endpointErrors[e] >= w.maxErrors ==>
      q.endpointErrors[e] + 1 + |InFlightTo(q.table, q.inFlight, e)| <= w.maxErrors + w.parallelism - 1
    ensures var r := CountError(q, e);
      if r.endpointErrors[e] == w.maxErrors then Base(Trip(r, w, e), w)
      else Base(r, w)
  {
    var r := CountError(q, e);
    var ids := q.toFlush.value;
    if r.endpointErrors[e] == w.maxErrors {
      DropBase(q, w, e, r.endpointErrors);
      var s := q.(endpointErrors := r.endpointErrors, toFlush := Some(ForEndpoint(q.table, ids, e, false)));
      var gone := ForEndpoint(r.table, ids, e, true);
      PostponeBase(s, w, gone, 0);
      PostponeElsewhere(r, w, gone, s.toFlush);
      assert Trip(r, w, e) == Postpone(s, w, gone);
    } else {
      assert r.Waiting() == q.Waiting();
      forall f | f in r.endpointErrors && r.endpointErrors[f] >= w.maxErrors
        ensures f in q.endpointErrors && q.endpointErrors[f] >= w.maxErrors && Avoids(q.table, ids, f)
      {
      }
    }
  }

  lemma TrErrorBase(q: Queue, w: World, id: Id)
    requires w.Valid() && Base(q, w) && id in q.inFlight
    ensures Base(TrError(q, w, id), w)
  {
    LandBase(q, w, id);
    IncErrorCountBase(Land(q, id), w, id);
    var q1 := IncErrorCount(Land(q, id), id);
    if q1.At(id).errors > w.maxErrors {
      FinishBase(q1, w, id);
    } else {
      var e := q1.At(id).endpoint;
      LandInFlightTo(q.table, q1.table, q.inFlight, id);
      ReplayBase(q1, w, id);
    }
  }

  /** The branch of `tr_error` that keeps the transaction for a later flush. */
  lemma ReplayBase(q: Queue, w: World, id: Id)
    requires w.Valid() && BaseExcept(q, w, id) && q.Knows(id) && id !in q.inFlight
    requires SendCount(q.sends, id) == q.At(id).errors <= w.maxErrors
    requires 0 < q.At(id).errors && q.toFlush.Some? && q.running < w.parallelism
    requires var e := q.At(id).endpoint;
      e in q.endpointErrors && q.endpointErrors[e] >= w.maxErrors ==>
        q.endpointErrors[e] + 1 + |InFlightTo(q.table, q.inFlight, e)| <= w.maxErrors + w.parallelism - 1
    ensures Base(Replay(q, w, id), w)
  {
    ErrorStays(q, w, id);
    var q1 := ComputeNextFlush(q, w, id);
    var e := q.At(id).endpoint;
    assert InFlightTo(q1.table, q1.inFlight, e) == InFlightTo(q.table, q.inFlight, e);
    CountErrorBase(q1, w, e);
  }

  lemma LandInFlightTo(t: seq<Tr>, u: seq<Tr>, inFlight: set<Id>, id: Id)
    requires KnownSet(|t|, inFlight) && id in inFlight && |t| == |u|
    requires forall i :: 0 <= i < |t| ==> u[i].endpoint == t[i].endpoint
    ensures var e := t[id - 1].endpoint;
      |InFlightTo(u, inFlight - {id}, e)| == |InFlightTo(t, inFlight, e)| - 1
  {
    var e := t[id - 1].endpoint;
    assert InFlightTo(u, inFlight - {id}, e) == InFlightTo(t, inFlight, e) - {id};
  }

  /** A transaction that may be retried has been sent once per error. */
  lemma ErrorStays(q: Queue, w: World, id: Id)
    requires BaseExcept(q, w, id) && q.Knows(id) && id !in q.inFlight
    requires SendCount(q.sends, id) == q.At(id).errors <= w.maxErrors
    ensures Base(ComputeNextFlush(q, w, id), w)
  {
    assert BaseExcept(q, w, 0);
    PostponeBase(q, w, [id], 0);
    var r := ComputeNextFlush(q, w, id);
    assert Postpone(r, w, []) == r;
    assert Postpone(q, w, [id]) == r;
  }

  lemma ResolveBase(q: Queue, w: World, id: Id, response: Response)
    requires w.Valid() && Base(q, w) && id in q.inFlight
    ensures Base(Resolve(q, w, id, response), w)
  {
    match response
    case Success => TrSuccessBase(q, w, id);
    case Failed => TrErrorBase(q, w, id);
    case Rejected => TrRejectBase(q, w, id);
  }

  // ---- a request is sent ----

  lemma {:induction false} SendCountAppend(sends: seq<Send>, s: Send, id: Id)
    ensures SendCount(sends + [s], id) == SendCount(sends, id) + (if s.id == id then 1 else 0)
  {
    assert (sends + [s])[..|sends|] == sends;
  }

  lemma SendOrdered(t: seq<Tr>, ids: seq<Id>, sends: seq<Send>, start: nat, at: Micros)
    requires Known(|t|, ids) && |ids| > 0 && Ordered(t, ids, sends, start)
    ensures var id := ids[|ids| - 1];
      Ordered(t, ids[..|ids| - 1], sends + [Send(id, t[id - 1].errors, at)], start)
  {
  }

  lemma SendRetries(t: seq<Tr>, queued: seq<Id>, ids: seq<Id>, inFlight: set<Id>, sends: seq<Send>,
                    maxErrors: nat, at: Micros)
    requires Known(|t|, ids) && |ids| > 0 && NoDup(ids) && ids[|ids| - 1] !in inFlight
    requires Retries(t, queued, ids, inFlight, sends, maxErrors, 0)
    ensures var id := ids[|ids| - 1];
      Retries(t, queued, ids[..|ids| - 1], inFlight + {id}, sends + [Send(id, t[id - 1].errors, at)], maxErrors, 0)
  {
    var id := ids[|ids| - 1];
    var s := Send(id, t[id - 1].errors, at);
    assert ids == ids[..|ids| - 1] + [id];
    forall x: Id | 1 <= x <= |t|
      ensures RetryBound(t[x - 1].errors, SendCount(sends + [s], x), x in inFlight + {id},
                         x in queued || x in ids[..|ids| - 1], maxErrors)
    {
      SendCountAppend(sends, s, x);
      assert id in ids;
    }
  }

  lemma SendFlights(ids: seq<Id>, inFlight: set<Id>, running: int, parallelism: nat)
    requires |ids| > 0 && Flights(ids, inFlight, running, parallelism) && running < parallelism
    ensures Flights(ids[..|ids| - 1], inFlight + {ids[|ids| - 1]}, running + 1, parallelism)
  {
    var id := ids[|ids| - 1];
    var rest := ids[..|ids| - 1];
    assert id in ids;
    assert |inFlight + {id}| == |inFlight| + 1;
    forall x | x in rest ensures x !in inFlight + {id} {
      var i :| 0 <= i < |rest| && rest[i] == x;
      assert ids[i] in ids;
    }
  }

  lemma SendTripped(t: seq<Tr>, ids: seq<Id>, inFlight: set<Id>, errors: map<string, nat>, w: World)
    requires Known(|t|, ids) && KnownSet(|t|, inFlight) && |ids| > 0
    requires Tripped(t, ids, inFlight, errors, w)
    ensures Tripped(t, ids[..|ids| - 1], inFlight + {ids[|ids| - 1]}, errors, w)
  {
    var id := ids[|ids| - 1];
    forall e | e in errors && errors[e] >= w.maxErrors
      ensures InFlightTo(t, inFlight + {id}, e) == InFlightTo(t, inFlight, e)
      ensures Avoids(t, ids[..|ids| - 1], e)
    {
      assert Avoids(t, ids, e);
    }
  }

  lemma SendThrottled(sends: seq<Send>, lastFlush: Micros, throttle: nat, s: Send)
    requires Throttled(sends, lastFlush, throttle) && lastFlush + throttle <= s.at
    ensures Throttled(sends + [s], s.at, throttle)
  {
  }

  lemma StartSendBase(q: Queue, w: World)
    requires w.Valid() && Base(q, w) && |q.Waiting()| > 0 && q.running < w.parallelism
    requires q.lastFlush + w.throttle <= w.clock(q.ticks)
    ensures Base(StartSend(q, w), w)
  {
    var ids := q.Waiting();
    var id := ids[|ids| - 1];
    var now := w.clock(q.ticks);
    assert id in ids;
    SendOrdered(q.table, ids, q.sends, q.flushStart, now);
    SendRetries(q.table, q.queued, ids, q.inFlight, q.sends, w.maxErrors, now);
    SendFlights(ids, q.inFlight, q.running, w.parallelism);
    SendTripped(q.table, ids, q.inFlight, q.endpointErrors, w);
    SendThrottled(q.sends, q.lastFlush, w.throttle, Send(id, q.At(id).errors, now));
    var r := StartSend(q, w);
    assert r.Waiting() == ids[..|ids| - 1];
  }

  /** Giving up on the flush: nothing is left to send. */
  lemma EmptyBase(q: Queue, w: World)
    requires Base(q, w) && q.toFlush.Some?
    ensures Base(q.(toFlush := Some([])), w)
  {
  }

  lemma OverBase(q: Queue, w: World)
    requires Base(q, w) && |q.Waiting()| == 0 && q.running == 0
    ensures Base(q.(toFlush := None), w)
  {
    assert q.(toFlush := None).Waiting() == q.Waiting();
  }

  /** `flush_next`, however deep it recurses, keeps the invariants and never leaves a
      flush with nothing to wake it up. */
  lemma {:induction false} FlushNextInv(q: Queue, w: World)
    requires w.Valid() && Base(q, w)
    ensures Inv(FlushNext(q, w), w)
    decreases |q.Waiting()|, 2
  {
    if |q.Waiting()| == 0 {
      if q.running == 0 { OverBase(q, w); }
    } else {
      TickBase(q, w);
      var q1 := q.Tick();
      if w.clock(q.ticks) - q.flushTime >= MAX_FLUSH_DURATION {
        PostponeBase(q1, w, q1.Waiting(), 0);
        var q2 := Postpone(q1, w, q.Waiting());
        EmptyBase(q2, w);
        FlushNextInv(q2.(toFlush := Some([])), w);
        assert FlushNext(q, w) == FlushNext(q2.(toFlush := Some([])), w);
      } else {
        TickBase(q1, w);
        ThrottleInv(q, w);
      }
    }
  }

  /** The part of `flush_next` that sends or waits. */
  lemma {:induction false} ThrottleInv(q: Queue, w: World)
    requires w.Valid() && Base(q.Tick().Tick(), w) && |q.Waiting()| > 0
    requires w.clock(q.ticks) - q.flushTime < MAX_FLUSH_DURATION
    ensures Inv(FlushNext(q, w), w)
    decreases |q.Waiting()|, 1
  {
    var q2 := q.Tick().Tick();
    if q.lastFlush + w.throttle - w.clock(q.ticks + 1) <= 0 && q.running < w.parallelism {
      var id := q.Waiting()[|q.Waiting()| - 1];
      var q3 := StartSend(q2, w);
      SendNowInv(q2, w);
      assert FlushNext(q, w) == AfterSend(q3.Tick(), w, id, w.outcome(q3.ticks));
    } else {
      WaitInv(q, w);
    }
  }

  lemma {:induction false} SendNowInv(q: Queue, w: World)
    requires w.Valid() && Base(q, w) && |q.Waiting()| > 0 && q.running < w.parallelism && q.ticks > 0
    requires q.lastFlush + w.throttle <= w.clock(q.ticks - 1)
    ensures var q3 := StartSend(q, w);
      Inv(AfterSend(q3.Tick(), w, q.Waiting()[|q.Waiting()| - 1], w.outcome(q3.ticks)), w)
    decreases |q.Waiting()|, 0
  {
    assert w.clock(q.ticks - 1) <= w.clock(q.ticks);
    StartSendBase(q, w);
    var q3 := StartSend(q, w);
    TickBase(q3, w);
    SentInv(q3.Tick(), w, q.Waiting()[|q.Waiting()| - 1], w.outcome(q3.ticks));
  }

  /** Nothing may be sent now: a timer is set, or a running request will call back. */
  lemma WaitInv(q: Queue, w: World)
    requires w.Valid() && Base(q.Tick().Tick(), w) && |q.Waiting()| > 0
    requires w.clock(q.ticks) - q.flushTime < MAX_FLUSH_DURATION
    requires !(q.lastFlush + w.throttle - w.clock(q.ticks + 1) <= 0 && q.running < w.parallelism)
    ensures Inv(FlushNext(q, w), w)
  {
    var q2 := q.Tick().Tick();
    var r := if q.running < w.parallelism then q2.(timers := q2.timers + 1) else q2;
    assert FlushNext(q, w) == r;
    assert r.Waiting() == q2.Waiting();
    if q.running >= w.parallelism {
      assert q.inFlight != {};
    }
  }

  lemma {:induction false} SentInv(q: Queue, w: World, id: Id, outcome: Outcome)
    requires w.Valid() && Base(q, w) && id in q.inFlight
    ensures Inv(AfterSend(q, w, id, outcome), w)
    decreases |q.Waiting()|, 3
  {
    match outcome
    case Pending => FlushNextInv(q, w);
    case Raised =>
      ResolveBase(q, w, id, Failed);
      FlushNextInv(Resolve(q, w, id, Failed), w);
    case Answered(response) =>
      ResolveBase(q, w, id, response);
      var r := Resolve(q, w, id, response);
      FlushNextInv(r, w);
      FlushNextInv(FlushNext(r, w), w);
  }
}
