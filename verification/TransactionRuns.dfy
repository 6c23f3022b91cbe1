/** What holds of every run of the transaction queue. */
module TransactionRuns {
  import opened Wrappers
  import opened Seqs
  import StableSort
  import opened TransactionQueue
  import opened TransactionInvariants

  // ---- when a failed transaction is tried again ----

  /** The time is a whole second, less than a second before the delay is over and never
      after. */
  lemma BackoffIsWholeSecond(errors: nat, now: Micros, w: World)
    ensures Backoff(errors, now, w) % SECOND == 0
    ensures now + Delay(errors, w) - SECOND < Backoff(errors, now, w) <= now + Delay(errors, w)
  {
  }

  /** More errors or a later failure never bring it forward, and it is put off no longer
      than the maximal wait. */
  lemma BackoffGrows(errors: nat, more: nat, now: Micros, later: Micros, w: World)
    requires errors <= more && now <= later
    ensures Backoff(errors, now, w) <= Backoff(more, later, w) <= later + w.maxWait
  {
    var a, b := now + Delay(errors, w), later + Delay(more, w);
    assert a <= b;
    assert a - a % SECOND <= b - b % SECOND;
  }

  /** Up to the wait limit each error adds twenty seconds to the very second; a
      transaction that failed waits at least nineteen, so it is not due again at once. */
  lemma BackoffPerError(errors: nat, now: Micros, w: World)
    requires (errors + 1) * 20 * SECOND <= w.maxWait
    ensures Backoff(errors + 1, now, w) == Backoff(errors, now, w) + 20 * SECOND
    ensures Backoff(errors + 1, now, w) > now + 19 * SECOND
  {
    BackoffIsWholeSecond(errors + 1, now, w);
    var a := now + errors * 20 * SECOND;
    assert (a + 20 * SECOND) % SECOND == a % SECOND;
  }

  // ---- append: which transactions are evicted ----

  /** `id` is listed before `other`: a later next flush, or the same and queued earlier. */
  ghost predicate EvictedBefore(q: Queue, order: seq<Id>, i: nat, j: nat)
    requires Known(|q.table|, order) && i < |order| && j < |order|
  {
    q.At(order[i]).nextFlush >= q.At(order[j]).nextFlush
    && (q.At(order[i]).nextFlush == q.At(order[j]).nextFlush ==>
          exists a, b :: 0 <= a < b < |q.queued| && q.queued[a] == order[i] && q.queued[b] == order[j])
  }

  /** The eviction order lists every queued transaction once, latest next flush first. */
  lemma LatestFirstOrder(q: Queue)
    requires q.Wf() && NoDup(q.queued)
    ensures var order := LatestFirst(q);
      && NoDup(order) && (forall id :: id in order <==> id in q.queued)
      && (forall i, j :: 0 <= i < j < |order| ==> EvictedBefore(q, order, i, j))
  {
    var keys := NextFlushes(q.table, q.queued);
    var leq := (a: Micros, b: Micros) => a >= b;
    StableSort.SortedList(q.queued, keys, leq);
    StableSort.SortIsStable(keys, leq);
    var p := EvictionOrder(keys);
    var order := LatestFirst(q);
    forall i, j | 0 <= i < j < |order| ensures EvictedBefore(q, order, i, j) {
      assert StableSort.Earlier(keys, leq, p[i], p[j]);
      assert q.queued[p[i]] == order[i] && q.queued[p[j]] == order[j];
    }
  }

  /** `r` is `q` with exactly the first `k` of `order` evicted, and no fewer would have
      made room for `incoming` bytes. */
  ghost predicate EvictsPrefix(q: Queue, r: Queue, w: World, order: seq<Id>, incoming: nat, k: nat)
    requires Known(|q.table|, order)
  {
    && k <= |order| && Known(|q.table|, order[..k])
    && r == q.(queued := r.queued, count := q.count - k, size := r.size, evicted := q.evicted + Elems(order[..k]))
    && (forall id :: id in r.queued <==> id in q.queued && id !in order[..k])
    && r.size == q.size - TotalSize(q.table, order[..k])
    && (k < |order| ==> r.size + incoming <= w.maxSize)
    && (forall j :: 0 <= j < k ==>
          Known(|q.table|, order[..j]) && q.size - TotalSize(q.table, order[..j]) + incoming > w.maxSize)
  }

  lemma {:induction false} EvictShortest(q: Queue, w: World, order: seq<Id>, incoming: nat) returns (k: nat)
    requires q.Wf() && Known(|q.table|, order) && NoDup(order) && (forall id :: id in order ==> id in q.queued)
    requires Counted(q.table, q.queued, q.count, q.size)
    ensures EvictsPrefix(q, Evict(q, w, order, incoming), w, order, incoming, k)
    decreases |order|
  {
    if order == [] || q.size + incoming <= w.maxSize {
      EvictNothing(q, w, order, incoming);
      k := 0;
    } else {
      EvictOne(q, order);
      var q1 := Remove(q, order[0]).(evicted := q.evicted + {order[0]});
      var m := EvictShortest(q1, w, order[1..], incoming);
      k := m + 1;
      EvictFirst(q, q1, Evict(q1, w, order[1..], incoming), w, order, incoming, m);
    }
  }

  lemma EvictOne(q: Queue, order: seq<Id>)
    requires q.Wf() && Known(|q.table|, order) && NoDup(order) && (forall id :: id in order ==> id in q.queued)
    requires Counted(q.table, q.queued, q.count, q.size) && order != []
    ensures var q1 := Remove(q, order[0]).(evicted := q.evicted + {order[0]});
      && q1.Wf() && Counted(q1.table, q1.queued, q1.count, q1.size) && Known(|q.table|, order[1..])
      && NoDup(order[1..]) && (forall id :: id in order[1..] ==> id in q1.queued)
      && (forall x :: x in q1.queued <==> x in q.queued && x != order[0])
  {
    assert order[0] in order;
    RemoveCounted(q, order[0]);
    forall x | x in order[1..] ensures x in q.queued && x != order[0] {
      assert x in order;
    }
  }

  lemma {:induction false} EvictCounted(q: Queue, w: World, order: seq<Id>, incoming: nat)
    requires q.Wf() && Known(|q.table|, order) && NoDup(order) && (forall id :: id in order ==> id in q.queued)
    requires Counted(q.table, q.queued, q.count, q.size)
    ensures var r := Evict(q, w, order, incoming); Counted(r.table, r.queued, r.count, r.size)
    decreases |order|
  {
    if order != [] && q.size + incoming > w.maxSize {
      EvictOne(q, order);
      EvictCounted(Remove(q, order[0]).(evicted := q.evicted + {order[0]}), w, order[1..], incoming);
    } else if order != [] {
      EvictNothing(q, w, order, incoming);
    }
  }

  lemma {:induction false} EvictNothing(q: Queue, w: World, order: seq<Id>, incoming: nat)
    requires q.Wf() && Known(|q.table|, order) && (order == [] || q.size + incoming <= w.maxSize)
    ensures Evict(q, w, order, incoming) == q && EvictsPrefix(q, q, w, order, incoming, 0)
    decreases |order|
  {
    assert order[..0] == [];
    if order != [] { EvictNothing(q, w, order[1..], incoming); }
  }

  lemma PrefixSize(t: seq<Tr>, order: seq<Id>, j: nat)
    requires Known(|t|, order) && j < |order|
    ensures order[..j + 1] == [order[0]] + order[1..][..j]
    ensures TotalSize(t, order[..j + 1]) == t[order[0] - 1].size + TotalSize(t, order[1..][..j])
  {
    assert order[..j + 1][1..] == order[1..][..j];
  }

  lemma EvictFirst(q: Queue, q1: Queue, r: Queue, w: World, order: seq<Id>, incoming: nat, m: nat)
    requires Known(|q.table|, order) && |order| > 0 && order[0] in q.queued
    requires q1 == q.(queued := q1.queued, count := q.count - 1, size := q1.size, evicted := q.evicted + {order[0]})
    requires q1.size == q.size - q.At(order[0]).size && q.size + incoming > w.maxSize
    requires forall x :: x in q1.queued <==> x in q.queued && x != order[0]
    requires EvictsPrefix(q1, r, w, order[1..], incoming, m)
    ensures EvictsPrefix(q, r, w, order, incoming, m + 1)
  {
    forall j | 0 <= j <= m
      ensures order[..j + 1] == [order[0]] + order[1..][..j]
      ensures TotalSize(q.table, order[..j + 1]) == q.At(order[0]).size + TotalSize(q.table, order[1..][..j])
    {
      PrefixSize(q.table, order, j);
    }
    forall j | 0 <= j < m + 1
      ensures q.size - TotalSize(q.table, order[..j]) + incoming > w.maxSize
    {
      if j == 0 {
        assert order[..0] == [];
      } else {
        assert order[..j] == order[..(j - 1) + 1] && Known(|q.table|, order[1..][..j - 1]);
      }
    }
  }

  /** `append` makes room by evicting the shortest sufficient prefix of the eviction
      order; when even the whole queue is not enough, nothing is left in it. */
  lemma AppendEvictsShortestPrefix(q: Queue, w: World, incoming: nat)
    requires q.Wf() && Counted(q.table, q.queued, q.count, q.size)
    ensures var r := MakeRoom(q, w, incoming);
      && (exists k :: 0 <= k <= |LatestFirst(q)| && EvictsPrefix(q, r, w, LatestFirst(q), incoming, k))
      && (r.size + incoming <= w.maxSize || r.queued == [])
  {
    var order := LatestFirst(q);
    var r := MakeRoom(q, w, incoming);
    LatestFirstOrder(q);
    if q.size + incoming > w.maxSize {
      var k := EvictShortest(q, w, order, incoming);
      assert EvictsPrefix(q, r, w, order, incoming, k);
      EvictCounted(q, w, order, incoming);
    } else {
      assert order[..0] == [];
      assert EvictsPrefix(q, q, w, order, incoming, 0);
    }
  }

  lemma MakeRoomAccounts(q: Queue, w: World, incoming: nat)
    requires q.Wf() && Accounts(q, w)
    ensures var r := MakeRoom(q, w, incoming);
      && Accounts(r, w) && r == q.(queued := r.queued, count := r.count, size := r.size, evicted := r.evicted)
      && (forall id :: id in r.queued ==> id in q.queued)
      && (r.size + incoming <= w.maxSize || r.queued == [])
  {
    var order := LatestFirst(q);
    var r := MakeRoom(q, w, incoming);
    LatestFirstOrder(q);
    AppendEvictsShortestPrefix(q, w, incoming);
    var k :| 0 <= k <= |order| && EvictsPrefix(q, r, w, order, incoming, k);
    if q.size + incoming > w.maxSize {
      EvictCounted(q, w, order, incoming);
    }
    EvictedPartitioned(|q.table|, q.queued, r.queued, q.evicted, q.finished, order, k);
    assert r.queued == [] ==> TotalSize(r.table, r.queued) == 0;
  }

  lemma RetriesFewer(t: seq<Tr>, queued: seq<Id>, left: seq<Id>, waiting: seq<Id>, inFlight: set<Id>,
                     sends: seq<Send>, maxErrors: nat)
    requires Retries(t, queued, waiting, inFlight, sends, maxErrors, 0) && forall id :: id in left ==> id in queued
    ensures Retries(t, left, waiting, inFlight, sends, maxErrors, 0)
  {
  }

  lemma MakeRoomBase(q: Queue, w: World, incoming: nat)
    requires Base(q, w)
    ensures Base(MakeRoom(q, w, incoming), w)
  {
    var r := MakeRoom(q, w, incoming);
    MakeRoomAccounts(q, w, incoming);
    RetriesFewer(q.table, q.queued, r.queued, q.Waiting(), q.inFlight, q.sends, w.maxErrors);
    assert r.Waiting() == q.Waiting();
  }

  lemma EvictedPartitioned(n: nat, queued: seq<Id>, left: seq<Id>, evicted: set<Id>, finished: set<Id>,
                           order: seq<Id>, k: nat)
    requires Partitioned(n, queued, evicted, finished) && k <= |order|
    requires forall id :: id in order ==> id in queued
    requires forall id :: id in left <==> id in queued && id !in order[..k]
    ensures Partitioned(n, left, evicted + Elems(order[..k]), finished)
  {
    forall id | id in order[..k] ensures id in order {
    }
  }

  lemma {:induction false} NeverSent(sends: seq<Send>, id: Id)
    requires forall k :: 0 <= k < |sends| ==> sends[k].id != id
    ensures SendCount(sends, id) == 0
  {
    if sends != [] { NeverSent(sends[..|sends| - 1], id); }
  }

  lemma EnqueueBase(q: Queue, w: World, tr: Tr)
    requires Base(q, w) && (q.size + tr.size <= w.maxSize || q.queued == []) && tr.errors == 0
    ensures Base(Enqueue(q, tr), w)
  {
    var r := Enqueue(q, tr);
    var n := |r.table|;
    assert r.Waiting() == q.Waiting();
    assert forall i :: 0 <= i < |q.table| ==> r.table[i] == q.table[i];
    TotalSizeSame(q.table, r.table, q.queued);
    TotalSizeAppend(r.table, q.queued, n);
    TrippedSame(q.table, r.table, q.Waiting(), q.inFlight, q.endpointErrors, w);
    EnqueueRetries(q.table, r.table, q.queued, q.Waiting(), q.inFlight, q.sends, w.maxErrors);
    assert Accounts(r, w) by {
      assert n !in q.queued;
    }
    assert Ordered(r.table, r.Waiting(), r.sends, r.flushStart);
  }

  lemma EnqueueRetries(t: seq<Tr>, u: seq<Tr>, queued: seq<Id>, waiting: seq<Id>, inFlight: set<Id>,
                       sends: seq<Send>, maxErrors: nat)
    requires |u| == |t| + 1 && (forall i :: 0 <= i < |t| ==> u[i] == t[i]) && u[|t|].errors == 0
    requires Known(|t|, waiting) && KnownSet(|t|, inFlight)
    requires Retries(t, queued, waiting, inFlight, sends, maxErrors, 0)
    ensures Retries(u, queued + [|u|], waiting, inFlight, sends, maxErrors, 0)
  {
    NeverSent(sends, |u|);
    assert |u| !in inFlight;
  }

  lemma AppendInv(q: Queue, w: World, endpoint: string, size: nat, created: Micros)
    requires Inv(q, w)
    ensures Inv(Step(q, w, Arrive(endpoint, size, created)), w)
  {
    MakeRoomBase(q, w, size);
    MakeRoomAccounts(q, w, size);
    EnqueueBase(MakeRoom(q, w, size), w, Tr(endpoint, size, 0, created));
  }

  // ---- flush: what is sent, and in which order ----

  lemma {:induction false} DueNoDup(t: seq<Tr>, ids: seq<Id>, now: Micros)
    requires Known(|t|, ids) && NoDup(ids)
    ensures NoDup(Due(t, ids, now))
  {
    if ids != [] {
      DueNoDup(t, ids[1..], now);
      var rest := Due(t, ids[1..], now);
      forall i | 0 <= i < |rest| ensures rest[i] != ids[0] {
        assert rest[i] in rest;
      }
    }
  }

  /** Every due transaction is in the flush; the end of the list, which is sent first,
      has the fewest errors, and among those the newest id. */
  lemma FlushOrderIsSorted(t: seq<Tr>, ids: seq<Id>)
    requires Known(|t|, ids) && NoDup(ids)
    ensures WaitingInOrder(t, FlushOrder(t, ids))
    ensures forall id :: id in FlushOrder(t, ids) <==> id in ids
  {
    StableSort.SortedList(ids, FlushKeys(t, ids), KeyLeq);
    FlushOrderInOrder(t, ids);
  }

  lemma FlushOrderInOrder(t: seq<Tr>, ids: seq<Id>)
    requires Known(|t|, ids) && NoDup(ids)
    ensures WaitingInOrder(t, FlushOrder(t, ids))
  {
    var keys := FlushKeys(t, ids);
    StableSort.SortIsStable(keys, KeyLeq);
    var p := ByFlushKey(keys);
    var r := FlushOrder(t, ids);
    assert r == StableSort.Permute(ids, p);
    forall i, j | 0 <= i < j < |r| ensures Before(t[r[j] - 1].errors, r[j], t[r[i] - 1].errors, r[i]) {
      EarlierAt(keys, p, i, j);
      EarlierIsBefore(t, ids, p[i], p[j]);
    }
  }

  lemma EarlierAt(keys: seq<FlushKey>, p: seq<nat>, i: nat, j: nat)
    requires StableSort.IndicesBelow(p, |keys|) && StableSort.IsSorted(p, keys, KeyLeq) && i < j < |p|
    ensures KeyLeq(keys[p[i]], keys[p[j]]) && p[i] != p[j]
  {
    assert StableSort.Earlier(keys, KeyLeq, p[i], p[j]);
  }

  lemma EarlierIsBefore(t: seq<Tr>, ids: seq<Id>, a: nat, b: nat)
    requires Known(|t|, ids) && NoDup(ids) && a < |ids| && b < |ids| && a != b
    requires KeyLeq(FlushKeys(t, ids)[a], FlushKeys(t, ids)[b])
    ensures Before(t[ids[b] - 1].errors, ids[b], t[ids[a] - 1].errors, ids[a])
  {
    assert ids[a] != ids[b];
  }

  lemma BeginFlushBase(q: Queue, w: World, now: Micros)
    requires Base(q, w) && q.toFlush.None?
    ensures Base(BeginFlush(q, w, FlushOrder(q.table, Due(q.table, q.queued, now))), w)
  {
    var due := Due(q.table, q.queued, now);
    assert forall i :: 0 <= i < |due| ==> due[i] in due;
    assert Known(|q.table|, due);
    DueNoDup(q.table, q.queued, now);
    FlushOrderIsSorted(q.table, due);
    InOrderNoDup(q.table, FlushOrder(q.table, due));
    var r := BeginFlush(q, w, FlushOrder(q.table, due));
    assert r.Waiting() == FlushOrder(q.table, due);
    assert q.inFlight == {};
    assert Retries(r.table, r.queued, r.Waiting(), r.inFlight, r.sends, w.maxErrors, 0);
  }

  lemma FlushInv(q: Queue, w: World)
    requires w.Valid() && Inv(q, w)
    ensures Inv(Step(q, w, Periodic), w)
  {
    if q.toFlush.None? {
      TickBase(q, w);
      var due := Due(q.table, q.queued, w.clock(q.ticks));
      if due != [] {
        var r := BeginFlush(q.Tick(), w, FlushOrder(q.table, due));
        BeginFlushBase(q.Tick(), w, w.clock(q.ticks));
        FlushNextInv(r, w);
        assert Flush(q, w) == FlushNext(r, w);
      } else {
        assert Flush(q, w) == q.Tick();
      }
    } else {
      assert Flush(q, w) == q;
    }
  }

  // ---- every run ----

  lemma RespondInv(q: Queue, w: World, id: Id, response: Response)
    requires w.Valid() && Base(q, w) && id in q.inFlight
    ensures Inv(Step(q, w, Respond(id, response)), w)
  {
    ResolveBase(q, w, id, response);
    FlushNextInv(Resolve(q, w, id, response), w);
  }

  lemma TimersBase(q: Queue, w: World)
    requires Base(q, w) && q.timers > 0
    ensures Base(q.(timers := q.timers - 1), w)
  {
    assert q.(timers := q.timers - 1).Waiting() == q.Waiting();
  }

  lemma TimerInv(q: Queue, w: World)
    requires w.Valid() && Base(q, w) && q.timers > 0
    ensures Inv(Step(q, w, Timer), w)
  {
    var q1 := q.(timers := q.timers - 1);
    TimersBase(q, w);
    FlushNextInv(q1, w);
    assert Step(q, w, Timer) == FlushNext(q1, w);
  }

  lemma StepInv(q: Queue, w: World, e: Event)
    requires w.Valid() && Inv(q, w) && Enabled(q, e)
    ensures Inv(Step(q, w, e), w)
  {
    match e
    case Arrive(endpoint, size, created) => AppendInv(q, w, endpoint, size, created);
    case Periodic => FlushInv(q, w);
    case Respond(id, response) => RespondInv(q, w, id, response);
    case Timer => TimerInv(q, w);
  }

  ghost predicate Keeps(w: World, p: Queue, q: Queue) {
    Inv(p, w) ==> Inv(q, w)
  }

  lemma MovesKeeps(w: World, p: Queue, e: Event, q: Queue)
    requires w.Valid() && Moves(w, p, e, q)
    ensures Keeps(w, p, q)
  {
    if Inv(p, w) {
      StepInv(p, w, e);
    }
  }

  lemma {:induction false} AllKeep(w: World, states: seq<Queue>, i: nat)
    requires i < |states| && Inv(states[0], w) && forall k :: 0 <= k < i ==> Keeps(w, states[k], states[k + 1])
    ensures Inv(states[i], w)
  {
    if i > 0 {
      AllKeep(w, states, i - 1);
      assert Keeps(w, states[i - 1], states[i]);
    }
  }

  lemma PassesInv(w: World, events: seq<Event>, states: seq<Queue>, i: nat)
    requires w.Valid() && Passes(w, events, states) && i <= |events|
    ensures Inv(states[i], w)
  {
    forall k | 0 <= k < i ensures Keeps(w, states[k], states[k + 1]) {
      MovesKeeps(w, states[k], events[k], states[k + 1]);
    }
    AllKeep(w, states, i);
  }

  lemma ReachesInv(w: World, events: seq<Event>, q: Queue)
    requires w.Valid() && Reaches(w, events, q)
    ensures Inv(q, w)
  {
    var states :| Passes(w, events, states) && states[|events|] == q;
    PassesInv(w, events, states, |events|);
  }

  /** Between callbacks a flush is over with nothing running, or it has a request
      outstanding, or it has something to send and a timer that will send it; and while it
      has something to send, a timer is set unless every slot is taken. */
  lemma NoStuckFlush(w: World, events: seq<Event>, q: Queue)
    requires w.Valid() && Reaches(w, events, q)
    ensures (q.toFlush.None? && q.running == 0)
         || q.inFlight != {}
         || (q.toFlush.Some? && q.toFlush.value != [] && q.timers > 0)
    ensures q.toFlush.Some? && q.toFlush.value != [] ==> q.timers > 0 || q.running == w.parallelism
  {
    ReachesInv(w, events, q);
  }

  /** No transaction is in flight twice or both in flight and still to be sent, the
      running count is exact and within the limit, `tr_error` never meets a missing
      list, and consecutive requests are at least the throttling delay apart. */
  lemma FlightsInEveryRun(w: World, events: seq<Event>, q: Queue)
    requires w.Valid() && Reaches(w, events, q)
    ensures NoDup(q.Waiting()) && forall id :: id in q.Waiting() ==> id !in q.inFlight
    ensures q.running == |q.inFlight| <= w.parallelism
    ensures (q.toFlush.None? ==> q.running == 0) && !q.crashed
    ensures forall k, l :: 0 <= k < l < |q.sends| ==> q.sends[k].at + w.throttle <= q.sends[l].at
  {
    ReachesInv(w, events, q);
    forall k, l | 0 <= k < l < |q.sends| ensures q.sends[k].at + w.throttle <= q.sends[l].at {
      ApartFrom(q.sends, w.throttle, k, l);
    }
  }

  lemma {:induction false} ApartFrom(sends: seq<Send>, throttle: nat, k: nat, l: nat)
    requires k < l < |sends| && forall m :: 0 < m < |sends| ==> sends[m - 1].at + throttle <= sends[m].at
    ensures sends[k].at + throttle <= sends[l].at
    decreases l
  {
    if k < l - 1 { ApartFrom(sends, throttle, k, l - 1); }
  }

  /** The count and size fields describe the queue; every id handed out is queued,
      evicted or finished, and only one of these; the size limit holds unless a single
      transaction is queued. */
  lemma QueueConservation(w: World, events: seq<Event>, q: Queue)
    requires w.Valid() && Reaches(w, events, q)
    ensures NoDup(q.queued) && q.count == |q.queued| && q.Wf() && q.size == TotalSize(q.table, q.queued)
    ensures q.size <= w.maxSize || |q.queued| == 1
    ensures forall id: Id :: 1 <= id <= |q.table| <==> id in q.queued || id in q.evicted || id in q.finished
    ensures forall id :: id in q.queued ==> id !in q.evicted && id !in q.finished
    ensures q.evicted !! q.finished
  {
    ReachesInv(w, events, q);
  }

  /** No transaction is sent more than `maxErrors + 1` times, and none that is queued
      has more than `maxErrors` errors. */
  lemma RetriesAreBounded(w: World, events: seq<Event>, q: Queue, id: Id)
    requires w.Valid() && Reaches(w, events, q) && q.Knows(id)
    ensures SendCount(q.sends, id) <= w.maxErrors + 1
    ensures id in q.queued ==> q.At(id).errors <= w.maxErrors
  {
    ReachesInv(w, events, q);
  }

  /** Within a flush, requests go out by increasing error count, newest first. */
  lemma SendsAreOrdered(w: World, events: seq<Event>, q: Queue, k: nat, l: nat)
    requires w.Valid() && Reaches(w, events, q) && q.flushStart <= k < l < |q.sends|
    ensures q.sends[k].errors <= q.sends[l].errors
    ensures q.sends[k].errors == q.sends[l].errors ==> q.sends[k].id > q.sends[l].id
  {
    ReachesInv(w, events, q);
    assert Precedes(q.sends[k], q.sends[l]);
  }

  /** An endpoint that failed `maxErrors` times in the current flush has nothing left to
      send in it, and its counter never passes `maxErrors + parallelism - 1`. */
  lemma BreakerBounds(w: World, events: seq<Event>, q: Queue, endpoint: string)
    requires w.Valid() && Reaches(w, events, q) && endpoint in q.endpointErrors
    ensures q.Wf() && q.endpointErrors[endpoint] <= w.maxErrors + w.parallelism - 1
    ensures q.endpointErrors[endpoint] >= w.maxErrors ==>
              forall id :: id in q.Waiting() ==> q.At(id).endpoint != endpoint
  {
    ReachesInv(w, events, q);
    if q.endpointErrors[endpoint] >= w.maxErrors {
      assert Avoids(q.table, q.Waiting(), endpoint);
    }
  }

  // ---- a flush comes to an end ----

  /** What is left of a flush: a transaction still has to be sent and answered. */
  function Work(q: Queue): int {
    2 * |q.Waiting()| + q.running
  }

  lemma {:induction false} FlushNextWork(q: Queue, w: World)
    requires q.Wf()
    ensures Work(FlushNext(q, w)) <= Work(q)
    decreases |q.Waiting()|, 0
  {
    if |q.Waiting()| > 0 && w.clock(q.ticks) - q.flushTime >= MAX_FLUSH_DURATION {
      FlushNextWork(Postpone(q.Tick(), w, q.Waiting()).(toFlush := Some([])), w);
    } else if |q.Waiting()| > 0 {
      var q2 := q.Tick().Tick();
      if q.lastFlush + w.throttle - w.clock(q.ticks + 1) <= 0 && q.running < w.parallelism {
        var q3 := StartSend(q2, w);
        AfterSendWork(q3.Tick(), w, q.Waiting()[|q.Waiting()| - 1], w.outcome(q3.ticks));
      }
    }
  }

  lemma {:induction false} AfterSendWork(q: Queue, w: World, id: Id, outcome: Outcome)
    requires q.Wf() && q.Knows(id)
    ensures Work(AfterSend(q, w, id, outcome)) <= Work(q)
    decreases |q.Waiting()|, 1
  {
    match outcome
    case Pending => FlushNextWork(q, w);
    case Raised => ResolveWork(q, w, id, Failed); FlushNextWork(Resolve(q, w, id, Failed), w);
    case Answered(response) =>
      ResolveWork(q, w, id, response);
      var r := Resolve(q, w, id, response);
      FlushNextWork(r, w);
      FlushNextWork(FlushNext(r, w), w);
  }

  lemma ResolveWork(q: Queue, w: World, id: Id, response: Response)
    requires q.Wf() && q.Knows(id)
    ensures Work(Resolve(q, w, id, response)) < Work(q)
  {
    assert Resolve(q, w, id, response).running == q.running - 1;
  }

  /** Every answer brings the flush closer to its end. */
  lemma AnswersMakeProgress(q: Queue, w: World, id: Id, response: Response)
    requires q.Wf() && id in q.inFlight
    ensures Work(Step(q, w, Respond(id, response))) < Work(q)
  {
    ResolveWork(q, w, id, response);
    FlushNextWork(Resolve(q, w, id, response), w);
  }

  /** So does every timer that fires once the throttling delay is over and a slot is
      free; an early one loses nothing. */
  lemma TimersMakeProgress(q: Queue, w: World)
    requires w.Valid() && q.Wf() && q.timers > 0
    ensures Work(Step(q, w, Timer)) <= Work(q)
    ensures |q.Waiting()| > 0 && q.running < w.parallelism && q.lastFlush + w.throttle <= w.clock(q.ticks)
            ==> Work(Step(q, w, Timer)) < Work(q)
  {
    var q1 := q.(timers := q.timers - 1);
    assert q1.Waiting() == q.Waiting();
    FlushNextWork(q1, w);
    if |q.Waiting()| > 0 && q.running < w.parallelism && q.lastFlush + w.throttle <= w.clock(q.ticks) {
      TimerSends(q1, w);
    }
  }

  /** When nothing is left to send or to wait for, the flush is over. */
  lemma NoWorkIsOver(w: World, events: seq<Event>, q: Queue)
    requires w.Valid() && Reaches(w, events, q)
    ensures Work(q) >= 0 && (Work(q) == 0 <==> q.toFlush.None?)
  {
    ReachesInv(w, events, q);
  }

  lemma TimerSends(q: Queue, w: World)
    requires w.Valid() && q.Wf() && |q.Waiting()| > 0 && q.running < w.parallelism
    requires q.lastFlush + w.throttle <= w.clock(q.ticks)
    ensures Work(FlushNext(q, w)) < Work(q)
  {
    if w.clock(q.ticks) - q.flushTime >= MAX_FLUSH_DURATION {
      FlushNextWork(Postpone(q.Tick(), w, q.Waiting()).(toFlush := Some([])), w);
    } else {
      assert w.clock(q.ticks) <= w.clock(q.ticks + 1);
      var q3 := StartSend(q.Tick().Tick(), w);
      AfterSendWork(q3.Tick(), w, q.Waiting()[|q.Waiting()| - 1], w.outcome(q3.ticks));
    }
  }

  /** An answer; or a timer while something waits, a slot is free and the delay is over. */
  predicate Productive(q: Queue, w: World, e: Event) {
    e.Respond?
    || (e.Timer? && |q.Waiting()| > 0 && q.running < w.parallelism && q.lastFlush + w.throttle <= w.clock(q.ticks))
  }

  /** How many of the events `i` up to `j` are productive. */
  function Productions(w: World, events: seq<Event>, states: seq<Queue>, i: nat, j: nat): nat
    requires i <= j <= |events| < |states|
    decreases j - i
  {
    if i == j then 0
    else Productions(w, events, states, i, j - 1) + if Productive(states[j - 1], w, events[j - 1]) then 1 else 0
  }

  lemma {:induction false} EvictWork(q: Queue, w: World, order: seq<Id>, incoming: nat)
    requires q.Wf() && Known(|q.table|, order)
    ensures var r := Evict(q, w, order, incoming); r.toFlush == q.toFlush && r.running == q.running
    decreases |order|
  {
    if order != [] {
      var r := if q.size + incoming > w.maxSize then Remove(q, order[0]).(evicted := q.evicted + {order[0]}) else q;
      EvictWork(r, w, order[1..], incoming);
    }
  }

  lemma ArriveWork(q: Queue, w: World, endpoint: string, size: nat, created: Micros)
    requires q.Wf()
    ensures Work(Append(q, w, endpoint, size, created)) == Work(q)
  {
    EvictWork(q, w, LatestFirst(q), size);
  }

  lemma StepWork(q: Queue, w: World, e: Event)
    requires w.Valid() && q.Wf() && Enabled(q, e) && q.toFlush.Some?
    ensures Work(Step(q, w, e)) + (if Productive(q, w, e) then 1 else 0) <= Work(q)
  {
    match e
    case Arrive(endpoint, size, created) => ArriveWork(q, w, endpoint, size, created);
    case Periodic =>
    case Respond(id, response) => AnswersMakeProgress(q, w, id, response);
    case Timer => TimersMakeProgress(q, w);
  }

  predicate Lowers(w: World, p: Queue, e: Event, q: Queue) {
    Work(q) + (if Productive(p, w, e) then 1 else 0) <= Work(p)
  }

  lemma MovesLowers(w: World, p: Queue, e: Event, q: Queue)
    requires w.Valid() && Moves(w, p, e, q) && p.toFlush.Some?
    ensures Lowers(w, p, e, q)
  {
    StepWork(p, w, e);
  }

  lemma {:induction false} RunWork(w: World, events: seq<Event>, states: seq<Queue>, i: nat, j: nat)
    requires i <= j <= |events| < |states|
    requires forall k :: i <= k < j ==> Lowers(w, states[k], events[k], states[k + 1])
    ensures Productions(w, events, states, i, j) + Work(states[j]) <= Work(states[i])
    decreases j
  {
    if i < j {
      RunWork(w, events, states, i, j - 1);
      assert Lowers(w, states[j - 1], events[j - 1], states[j]);
    }
  }

  /** While a flush lasts there are no more answers and due timers than it has work, and
      when there have been as many it is over, whatever arrives in between. */
  lemma FlushEnds(w: World, events: seq<Event>, states: seq<Queue>, i: nat, j: nat)
    requires w.Valid() && Passes(w, events, states) && i <= j <= |events|
    requires forall k :: i <= k < j ==> states[k].toFlush.Some?
    ensures Productions(w, events, states, i, j) <= Work(states[i])
    ensures Productions(w, events, states, i, j) == Work(states[i]) ==> states[j].toFlush.None?
  {
    forall k | i <= k < j ensures Lowers(w, states[k], events[k], states[k + 1]) {
      MovesLowers(w, states[k], events[k], states[k + 1]);
    }
    RunWork(w, events, states, i, j);
    PassesInv(w, events, states, j);
  }
}
