/** The objects of transaction.py. The manager carries a ghost `model`, a state of
    TransactionQueue that `Valid` ties to the real fields; every method is proved to
    move it as the function of the same name says, so what is proved about the runs of
    that machine holds of these objects. */
module TransactionManagers {
  import opened Wrappers
  import opened Seqs
  import StableSort
  import Q = TransactionQueue
  import opened TransactionQueue

  class Transaction {
    var id: Id              // 0 until the manager sets it
    var errorCount: nat
    var nextFlush: Micros
    const size: nat
    const endpoint: string

    constructor (endpoint: string, size: nat, now: Micros)
      ensures id == 0 && Snapshot() == Tr(endpoint, size, 0, now)
    {
      this.id, this.errorCount, this.nextFlush := 0, 0, now;
      this.endpoint, this.size := endpoint, size;
    }

    ghost function Snapshot(): Tr
      reads this
    {
      Tr(endpoint, size, errorCount, nextFlush)
    }

    method SetId(newId: Id)
      requires id == 0
      modifies `id
      ensures id == newId
    {
      id := newId;
    }

    method IncErrorCount()
      modifies `errorCount
      ensures errorCount == old(errorCount) + 1
    {
      errorCount := errorCount + 1;
    }

    method ComputeNextFlush(w: World, now: Micros)
      modifies `nextFlush
      ensures nextFlush == Backoff(errorCount, now, w)
    {
      var td := errorCount * 20 * SECOND;
      if td > w.maxWait {
        td := w.maxWait;
      }
      var newdate := now + td;
      nextFlush := newdate - newdate % SECOND;
    }

    method TimeToFlush(now: Micros) returns (due: bool)
      ensures due == (nextFlush <= now)
    {
      due := nextFlush <= now;
    }
  }

  /** `ts` are the objects that `ids` name. */
  ghost predicate Denote(ts: seq<Transaction>, ids: seq<Id>, received: seq<Transaction>) {
    |ts| == |ids| && forall i :: 0 <= i < |ts| ==> Names(ids[i], ts[i], received)
  }

  ghost predicate Names(id: Id, tr: Transaction, received: seq<Transaction>) {
    1 <= id <= |received| && received[id - 1] == tr
  }

  ghost predicate Numbered(t: Transaction, id: Id, tr: Tr)
    reads t
  {
    t.id == id && t.Snapshot() == tr
  }

  /** The i-th transaction received is number i + 1 and looks like the i-th table entry. */
  ghost predicate Mirrors(received: seq<Transaction>, table: seq<Tr>)
    reads received
  {
    |received| == |table| && forall i :: 0 <= i < |received| ==> Numbered(received[i], i + 1, table[i])
  }

  class TransactionManager {
    const w: World
    var transactions: seq<Transaction>
    var totalCount: int
    var totalSize: int
    var runningFlushes: int
    var counter: nat
    var trsToFlush: Option<seq<Transaction>>
    var lastFlush: Micros
    var flushTime: Micros
    var endpointsErrors: map<string, nat>
    var ticks: nat                        // how much has been read from the environment
    ghost var received: seq<Transaction>
    ghost var model: Queue

    ghost predicate Valid()
      reads this, received
    {
      State().Some? && counter == |received|
    }

    /** The plain fields are the model's, and the lists and objects are what it names. */
    ghost predicate Linked()
      reads this, received
    {
      && model == model.(count := totalCount, size := totalSize, running := runningFlushes, lastFlush := lastFlush,
                         flushTime := flushTime, endpointErrors := endpointsErrors, ticks := ticks)
      && model.Wf()
      && Mirrors(received, model.table)
      && Denote(transactions, model.queued, received)
      && trsToFlush.Some? == model.toFlush.Some?
      && (trsToFlush.Some? ==> Denote(trsToFlush.value, model.toFlush.value, received))
    }

    /** The state these objects represent, if they are consistent. */
    ghost function State(): Option<Queue>
      reads this, received
    {
      if Linked() then Some(model) else None
    }

    constructor (w: World)
      ensures Valid() && model == Initial(w) && this.w == w && received == []
    {
      this.w := w;
      transactions, totalCount, totalSize, runningFlushes, counter := [], 0, 0, 0, 0;
      trsToFlush, lastFlush, flushTime, endpointsErrors, ticks := None, w.clock(0), w.clock(0), map[], 1;
      received, model := [], Initial(w);
    }

    method Now() returns (t: Micros)
      requires State().Some?
      modifies `ticks, `model
      ensures State() == Some(old(model).Tick()) && t == w.clock(old(model.ticks))
    {
      t := w.clock(ticks);
      ticks := ticks + 1;
      model := model.Tick();
    }

    lemma Number(tr: Transaction)
      requires State().Some? && tr in received
      ensures model.Knows(tr.id) && received[tr.id - 1] == tr && model.At(tr.id) == tr.Snapshot()
    {
    }

    // ---- append, _remove ----

    method Remove(tr: Transaction)
      requires State().Some? && tr in received
      modifies `transactions, `totalCount, `totalSize, `model
      ensures State() == Some(Q.Remove(old(model), tr.id))
    {
      Number(tr);
      DenoteRemove(transactions, model.queued, received, tr);
      ghost var q := model;
      if tr in transactions {
        transactions := RemoveFirst(transactions, tr);
        totalCount := totalCount - 1;
        totalSize := totalSize - tr.size;
      }
      model := Q.Remove(q, tr.id);
      assert Denote(transactions, model.queued, received);
      assert Mirrors(received, model.table);
      assert totalSize == model.size && totalCount == model.count;
    }

    /** `sorted` by next flush, latest first. */
    method SortedByNextFlush() returns (sorted: seq<Transaction>)
      requires State().Some?
      ensures Denote(sorted, LatestFirst(model), received)
    {
      var ts := transactions;
      var keys := seq(|ts|, i requires 0 <= i < |ts| reads ts => ts[i].nextFlush);
      assert keys == NextFlushes(model.table, model.queued);
      sorted := StableSort.Permute(ts, EvictionOrder(keys));
    }

    method Append(tr: Transaction)
      requires Valid() && tr.id == 0 && tr.errorCount == 0
      modifies this, tr`id
      ensures Valid() && received == old(received) + [tr]
      ensures model == Q.Append(old(model), w, tr.endpoint, tr.size, tr.nextFlush)
    {
      assert tr !in received;
      counter := counter + 1;
      tr.SetId(counter);
      MakeRoom(tr.size);
      Push(tr);
    }

    method Push(tr: Transaction)
      requires State().Some? && tr.id == |received| + 1
      modifies `transactions, `totalCount, `totalSize, `received, `model
      ensures received == old(received) + [tr] && State() == Some(Enqueue(old(model), tr.Snapshot()))
    {
      DenoteMore(transactions, model.queued, received, tr);
      if trsToFlush.Some? {
        DenoteMore(trsToFlush.value, model.toFlush.value, received, tr);
      }
      MirrorsMore(received, model.table, tr);
      transactions := transactions + [tr];
      totalCount := totalCount + 1;
      totalSize := totalSize + tr.size;
      received := received + [tr];
      model := Enqueue(model, tr.Snapshot());
    }

    method MakeRoom(incoming: nat)
      requires State().Some?
      modifies `transactions, `totalCount, `totalSize, `model
      ensures State() == Some(Q.MakeRoom(old(model), w, incoming))
    {
      if totalSize + incoming > w.maxSize {
        var newTrs := SortedByNextFlush();
        EvictEach(newTrs, LatestFirst(model), incoming);
      }
    }

    method EvictEach(newTrs: seq<Transaction>, ghost order: seq<Id>, incoming: nat)
      requires State().Some? && Denote(newTrs, order, received) && Known(|model.table|, order)
      modifies `transactions, `totalCount, `totalSize, `model
      ensures State() == Some(Evict(old(model), w, order, incoming))
    {
      ghost var goal := Evict(model, w, order, incoming);
      for i := 0 to |newTrs|
        invariant State().Some? && model.table == old(model).table
        invariant Evict(model, w, order[i..], incoming) == goal
      {
        assert Names(order[i], newTrs[i], received);
        EvictUnfold(model, w, order, i, incoming);
        EvictIfNeeded(newTrs[i], incoming);
      }
      assert order[|newTrs|..] == [];
    }

    /** The body of the eviction loop. */
    method EvictIfNeeded(tr: Transaction, incoming: nat)
      requires State().Some? && tr in received
      modifies `transactions, `totalCount, `totalSize, `model
      ensures State() == Some(if old(model).size + incoming > w.maxSize
                              then Q.Remove(old(model), tr.id).(evicted := old(model).evicted + {tr.id})
                              else old(model))
    {
      if totalSize + incoming > w.maxSize {
        Remove(tr);
        model := model.(evicted := model.evicted + {tr.id});
      }
    }

    // ---- tr_success, tr_error_reject_request, tr_error ----

    /** `_remove` of an answered transaction. */
    method Finish(tr: Transaction)
      requires State().Some? && tr in received
      modifies `transactions, `totalCount, `totalSize, `model
      ensures State() == Some(Q.Finish(old(model), tr.id))
    {
      Number(tr);
      DenoteRemove(transactions, model.queued, received, tr);
      ghost var queued := tr in transactions;
      Remove(tr);
      if queued {
        model := model.(finished := model.finished + {tr.id});
      }
    }

    /** A running request is over. */
    method Land(tr: Transaction)
      requires State().Some?
      modifies `runningFlushes, `model
      ensures State() == Some(Q.Land(old(model), tr.id))
    {
      runningFlushes := runningFlushes - 1;
      model := Q.Land(model, tr.id);
    }

    method IncErrorCount(tr: Transaction)
      requires State().Some? && tr in received
      modifies tr`errorCount, `model
      ensures State() == Some(Q.IncErrorCount(old(model), tr.id))
    {
      Number(tr);
      tr.IncErrorCount();
      model := Q.IncErrorCount(model, tr.id);
    }

    method LandFailed(tr: Transaction)
      requires State().Some? && tr in received
      modifies `runningFlushes, `model, tr`errorCount
      ensures State() == Some(Q.IncErrorCount(Q.Land(old(model), tr.id), tr.id))
    {
      Land(tr);
      IncErrorCount(tr);
    }

    method ComputeNextFlush(tr: Transaction)
      requires State().Some? && tr in received
      modifies tr`nextFlush, `ticks, `model
      ensures State() == Some(Q.ComputeNextFlush(old(model), w, tr.id))
    {
      Number(tr);
      ghost var q := model;
      var now := Now();
      tr.ComputeNextFlush(w, now);
      model := Q.ComputeNextFlush(q, w, tr.id);
      forall i | 0 <= i < |received| ensures Numbered(received[i], i + 1, model.table[i]) {
        assert old(Numbered(received[i], i + 1, q.table[i]));
      }
    }

    method TrSuccess(tr: Transaction)
      requires Valid() && tr in received
      modifies `runningFlushes, `transactions, `totalCount, `totalSize, `model
      ensures Valid() && model == Q.TrSuccess(old(model), tr.id)
    {
      Land(tr);
      Finish(tr);
    }

    method TrErrorRejectRequest(tr: Transaction)
      requires Valid() && tr in received
      modifies `runningFlushes, `transactions, `totalCount, `totalSize, `model, tr`errorCount
      ensures Valid() && model == Q.TrReject(old(model), tr.id)
    {
      LandFailed(tr);
      Finish(tr);
    }

    method TrError(tr: Transaction)
      requires Valid() && tr in received
      modifies `runningFlushes, `transactions, `totalCount, `totalSize, `endpointsErrors, `trsToFlush, `ticks, `model,
               received`nextFlush, received`errorCount
      ensures Valid() && model == Q.TrError(old(model), w, tr.id)
    {
      LandFailed(tr);
      Number(tr);
      if tr.errorCount > w.maxErrors {
        Finish(tr);
      } else {
        Replay(tr);
      }
    }

    method Replay(tr: Transaction)
      requires State().Some? && tr in received
      modifies `endpointsErrors, `trsToFlush, `ticks, `model, received`nextFlush
      ensures State() == Some(Q.Replay(old(model), w, tr.id))
    {
      Number(tr);
      assert old(model).At(tr.id).endpoint == tr.endpoint;
      ComputeNextFlush(tr);
      CountError(tr.endpoint);
      if endpointsErrors[tr.endpoint] == w.maxErrors {
        Trip(tr.endpoint);
      }
    }

    method CountError(endpoint: string)
      requires State().Some?
      modifies `endpointsErrors, `model
      ensures State() == Some(Q.CountError(old(model), endpoint))
    {
      var n := if endpoint in endpointsErrors then endpointsErrors[endpoint] else 0;
      endpointsErrors := endpointsErrors[endpoint := n + 1];
      model := Q.CountError(model, endpoint);
    }

    /** The loop that takes an endpoint off the current flush. */
    method Trip(endpoint: string)
      requires State().Some?
      modifies `trsToFlush, `ticks, `model, received`nextFlush
      ensures State() == Some(Q.Trip(old(model), w, endpoint))
    {
      if trsToFlush.None? {
        model := model.(crashed := true);
      } else {
        ghost var ids := model.toFlush.value;
        ghost var kept := ForEndpoint(model.table, ids, endpoint, false);
        var newTrs := PostponeEndpoint(trsToFlush.value, ids, endpoint);
        trsToFlush := Some(newTrs);
        model := model.(toFlush := Some(kept));
      }
    }

    method PostponeEndpoint(trs: seq<Transaction>, ghost ids: seq<Id>, endpoint: string)
      returns (newTrs: seq<Transaction>)
      requires State().Some? && Denote(trs, ids, received) && Known(|model.table|, ids)
      modifies `ticks, `model, received`nextFlush
      ensures State().Some? && Denote(newTrs, ForEndpoint(old(model).table, ids, endpoint, false), received)
      ensures model == Postpone(old(model), w, ForEndpoint(old(model).table, ids, endpoint, true))
    {
      newTrs := [];
      ghost var q := model;
      ghost var kept: seq<Id> := [];
      TripStart(q, w, ids, endpoint);
      for i := 0 to |trs|
        invariant State().Some? && SameEndpoints(q.table, model.table)
        invariant Denote(newTrs, kept, received)
        invariant Tripping(q, w, ids, endpoint, i, model, kept)
      {
        assert Names(ids[i], trs[i], received);
        newTrs, kept := KeepOrPostpone(trs[i], endpoint, newTrs, q, ids, i, kept);
      }
      TripEnd(q, w, ids, endpoint, model, kept);
    }

    /** The body of that loop. */
    method KeepOrPostpone(tr: Transaction, endpoint: string, newTrs: seq<Transaction>,
                          ghost q: Queue, ghost ids: seq<Id>, ghost i: nat, ghost kept: seq<Id>)
      returns (r: seq<Transaction>, ghost keep: seq<Id>)
      requires State().Some? && SameEndpoints(q.table, model.table) && Denote(newTrs, kept, received)
      requires Tripping(q, w, ids, endpoint, i, model, kept) && i < |ids| && Names(ids[i], tr, received)
      modifies `ticks, `model, tr`nextFlush
      ensures State().Some? && SameEndpoints(q.table, model.table) && Denote(r, keep, received)
      ensures Tripping(q, w, ids, endpoint, i + 1, model, keep)
    {
      r, keep := newTrs, kept;
      Number(tr);
      TripStep(q, w, ids, endpoint, i, model, kept);
      if tr.endpoint != endpoint {
        DenoteSnoc(newTrs, kept, received, tr, ids[i]);
        r, keep := r + [tr], keep + [ids[i]];
      } else {
        ComputeNextFlush(tr);
      }
    }

    // ---- flush_next, flush and the callbacks ----

    /** `compute_next_flush` on what is left of a flush that takes too long. */
    method PostponeAll(trs: seq<Transaction>, ghost ids: seq<Id>)
      requires State().Some? && Denote(trs, ids, received) && Known(|model.table|, ids)
      modifies `ticks, `model, received`nextFlush
      ensures State() == Some(Postpone(old(model), w, ids))
    {
      ghost var goal := Postpone(model, w, ids);
      for i := 0 to |trs|
        invariant State().Some? && |model.table| == |goal.table|
        invariant Postpone(model, w, ids[i..]) == goal
      {
        assert Names(ids[i], trs[i], received);
        Number(trs[i]);
        assert ids[i..][0] == ids[i] && ids[i..][1..] == ids[i + 1..];
        ComputeNextFlush(trs[i]);
      }
      assert ids[|trs|..] == [];
    }

    /** Take the last transaction off the flush. */
    method PopLast() returns (tr: Transaction)
      requires State().Some? && |model.Waiting()| > 0
      modifies `trsToFlush, `model
      ensures var ids := old(model.Waiting()); State() == Some(old(model).(toFlush := Some(ids[..|ids| - 1])))
      ensures tr in received && tr.id == old(model.Waiting())[|old(model.Waiting())| - 1]
    {
      var trs := trsToFlush.value;
      var last := |trs| - 1;
      tr := trs[last];
      ghost var ids := model.toFlush.value;
      assert Names(ids[last], tr, received);
      Number(tr);
      DenotePrefix(trs, ids, received, last);
      trsToFlush := Some(trs[..last]);
      model := model.(toFlush := Some(ids[..last]));
    }

    /** And count it as running. */
    method StartSend() returns (tr: Transaction)
      requires State().Some? && |model.Waiting()| > 0
      modifies `trsToFlush, `runningFlushes, `lastFlush, `ticks, `model
      ensures State() == Some(Q.StartSend(old(model), w))
      ensures tr in received && tr.id == old(model.Waiting())[|old(model.Waiting())| - 1]
    {
      ghost var q := model;
      tr := PopLast();
      runningFlushes := runningFlushes + 1;
      lastFlush := w.clock(ticks);
      ticks := ticks + 1;
      model := Q.StartSend(q, w);
    }

    method FlushNext()
      requires Valid()
      modifies `transactions, `totalCount, `totalSize, `runningFlushes, `trsToFlush, `lastFlush, `endpointsErrors,
               `ticks, `model, received`nextFlush, received`errorCount
      ensures Valid() && model == Q.FlushNext(old(model), w)
      decreases |model.Waiting()|, 2
    {
      FlushNextUnfold(model, w);
      if trsToFlush.Some? && |trsToFlush.value| > 0 {
        var now := Now();
        if now - flushTime >= MAX_FLUSH_DURATION {
          GiveUp();
          FlushNext();
        } else {
          SendOrWait();
        }
      } else if runningFlushes == 0 {
        trsToFlush := None;
        model := model.(toFlush := None);
      }
    }

    /** A flush that takes too long: put what is left of it back for later. */
    method GiveUp()
      requires Valid() && |model.Waiting()| > 0
      modifies `trsToFlush, `ticks, `model, received`nextFlush
      ensures Valid() && model == Postpone(old(model), w, old(model).Waiting()).(toFlush := Some([]))
    {
      PostponeAll(trsToFlush.value, model.Waiting());
      DropRest();
    }

    method DropRest()
      requires Valid() && trsToFlush.Some?
      modifies `trsToFlush, `model
      ensures Valid() && model == old(model).(toFlush := Some([]))
    {
      trsToFlush := Some([]);
      model := model.(toFlush := Some([]));
    }

    /** Send the next transaction if throttling and parallelism allow it, or set a timer. */
    method SendOrWait()
      requires Valid() && |model.Waiting()| > 0
      modifies `transactions, `totalCount, `totalSize, `runningFlushes, `trsToFlush, `lastFlush, `endpointsErrors,
               `ticks, `model, received`nextFlush, received`errorCount
      ensures Valid()
      ensures model == SentOrWaiting(old(model), w)
      decreases |model.Waiting()|, 1
    {
      var now := Now();
      var delay := lastFlush + w.throttle - now;
      if delay <= 0 && runningFlushes < w.parallelism {
        SendNow();
      } else if runningFlushes < w.parallelism {
        model := model.(timers := model.timers + 1);
      }
    }

    method SendNow()
      requires Valid() && |model.Waiting()| > 0
      modifies `transactions, `totalCount, `totalSize, `runningFlushes, `trsToFlush, `lastFlush, `endpointsErrors,
               `ticks, `model, received`nextFlush, received`errorCount
      ensures Valid()
      ensures model == SentNow(old(model), w)
      decreases |model.Waiting()|, 0
    {
      var tr := StartSend();
      Transmit(tr);
    }

    /** `tr.flush()`, and the calls that follow it. */
    method Transmit(tr: Transaction)
      requires Valid() && tr in received
      modifies `transactions, `totalCount, `totalSize, `runningFlushes, `trsToFlush, `lastFlush, `endpointsErrors,
               `ticks, `model, received`nextFlush, received`errorCount
      ensures Valid()
      ensures model == AfterSend(old(model).Tick(), w, old(tr.id), w.outcome(old(model).ticks))
      decreases |model.Waiting()|, 4
    {
      Number(tr);
      var outcome := w.outcome(ticks);
      ticks := ticks + 1;
      model := model.Tick();
      match outcome
      case Pending => FlushNext();
      case Raised =>
        TrError(tr);
        FlushNext();
      case Answered(response) =>
        OnResponse(tr, response);
        FlushNext();
    }

    /** The callback of a request. */
    method OnResponse(tr: Transaction, response: Response)
      requires Valid() && tr in received
      modifies `transactions, `totalCount, `totalSize, `runningFlushes, `trsToFlush, `lastFlush, `endpointsErrors,
               `ticks, `model, received`nextFlush, received`errorCount
      ensures Valid()
      ensures model == Q.FlushNext(Resolve(old(model), w, old(tr.id), response), w)
      decreases |model.Waiting()|, 3
    {
      Number(tr);
      match response {
        case Success => TrSuccess(tr);
        case Failed => TrError(tr);
        case Rejected => TrErrorRejectRequest(tr);
      }
      FlushNext();
    }

    /** The callback of a timer that `flush_next` set. */
    method OnTimer()
      requires Valid() && model.timers > 0
      modifies `transactions, `totalCount, `totalSize, `runningFlushes, `trsToFlush, `lastFlush, `endpointsErrors,
               `ticks, `model, received`nextFlush, received`errorCount
      ensures Valid()
      ensures old(model).Wf() && model == Step(old(model), w, Q.Timer)
    {
      model := model.(timers := model.timers - 1);
      FlushNext();
    }

    /** The loop of `flush` that collects what is due. */
    method CollectDue(now: Micros) returns (toFlush: seq<Transaction>)
      requires State().Some?
      ensures Denote(toFlush, Due(model.table, model.queued, now), received)
    {
      toFlush := [];
      ghost var ids := model.queued;
      ghost var acc: seq<Id> := [];
      ghost var goal := Due(model.table, ids, now);
      for i := 0 to |transactions|
        invariant Denote(toFlush, acc, received)
        invariant acc + Due(model.table, ids[i..], now) == goal
      {
        var tr := transactions[i];
        assert Names(ids[i], tr, received);
        Number(tr);
        DenoteSnoc(toFlush, acc, received, tr, ids[i]);
        DueStep(model.table, ids, i, now, acc);
        var due := tr.TimeToFlush(now);
        if due {
          toFlush := toFlush + [tr];
          acc := acc + [ids[i]];
        }
      }
      assert ids[|transactions|..] == [] && acc + [] == acc;
    }

    /** Sorted so that the end, which is sent first, has the fewest errors and the newest ids. */
    method SortedForFlush(toFlush: seq<Transaction>, ghost ids: seq<Id>) returns (sorted: seq<Transaction>)
      requires State().Some? && Denote(toFlush, ids, received) && Known(|model.table|, ids)
      ensures Denote(sorted, FlushOrder(model.table, ids), received)
    {
      var keys := seq(|toFlush|, i requires 0 <= i < |toFlush| reads toFlush =>
                                   (0 - toFlush[i].errorCount, toFlush[i].id));
      assert keys == FlushKeys(model.table, ids) by {
        forall i | 0 <= i < |toFlush| ensures keys[i] == (0 - model.table[ids[i] - 1].errors, ids[i]) {
          assert Names(ids[i], toFlush[i], received);
          Number(toFlush[i]);
        }
      }
      var p := ByFlushKey(keys);
      sorted := StableSort.Permute(toFlush, p);
      forall i | 0 <= i < |sorted| ensures Names(FlushOrder(model.table, ids)[i], sorted[i], received) {
        assert Names(ids[p[i]], toFlush[p[i]], received);
      }
    }

    method Flush()
      requires Valid()
      modifies this, received`nextFlush, received`errorCount
      ensures Valid() && received == old(received) && model == Q.Flush(old(model), w)
    {
      if trsToFlush.Some? {
        return;
      }
      var now := Now();
      FlushDue(now);
    }

    /** Collect what is due, and send it if there is any. */
    method FlushDue(now: Micros)
      requires Valid() && trsToFlush.None?
      modifies this, received`nextFlush, received`errorCount
      ensures Valid() && received == old(received)
      ensures model == Q.FlushDue(old(model), w, now)
    {
      var toFlush := CollectDue(now);
      if |toFlush| > 0 {
        StartFlush(toFlush, Due(model.table, model.queued, now));
      }
    }

    /** The rest of `flush` once something is due. */
    method StartFlush(toFlush: seq<Transaction>, ghost due: seq<Id>)
      requires Valid() && Denote(toFlush, due, received) && Known(|model.table|, due)
      modifies this, received`nextFlush, received`errorCount
      ensures Valid() && received == old(received)
      ensures model == Q.FlushNext(BeginFlush(old(model), w, FlushOrder(old(model).table, due)), w)
    {
      var sorted := SortedForFlush(toFlush, due);
      Begin(sorted, FlushOrder(model.table, due));
      FlushNext();
    }

    method Begin(sorted: seq<Transaction>, ghost order: seq<Id>)
      requires Valid() && Denote(sorted, order, received) && Known(|model.table|, order)
      modifies `endpointsErrors, `trsToFlush, `flushTime, `ticks, `model
      ensures Valid() && model == BeginFlush(old(model), w, order)
    {
      flushTime := w.clock(ticks);
      ticks := ticks + 1;
      trsToFlush, endpointsErrors := Some(sorted), map[];
      model := BeginFlush(model, w, order);
    }
  }

  lemma DenotePrefix(ts: seq<Transaction>, ids: seq<Id>, received: seq<Transaction>, n: nat)
    requires Denote(ts, ids, received) && n <= |ts|
    ensures Denote(ts[..n], ids[..n], received)
  {
  }

  lemma DenoteSnoc(ts: seq<Transaction>, ids: seq<Id>, received: seq<Transaction>, tr: Transaction, id: Id)
    requires Denote(ts, ids, received) && Names(id, tr, received)
    ensures Denote(ts + [tr], ids + [id], received)
  {
  }

  lemma DenoteMore(ts: seq<Transaction>, ids: seq<Id>, received: seq<Transaction>, tr: Transaction)
    requires Denote(ts, ids, received)
    ensures Denote(ts, ids, received + [tr]) && Denote(ts + [tr], ids + [|received| + 1], received + [tr])
  {
    forall i | 0 <= i < |ts| ensures Names(ids[i], ts[i], received + [tr]) {
      assert Names(ids[i], ts[i], received);
    }
  }

  lemma MirrorsMore(received: seq<Transaction>, table: seq<Tr>, tr: Transaction)
    requires Mirrors(received, table) && tr.id == |received| + 1
    ensures Mirrors(received + [tr], table + [tr.Snapshot()])
  {
  }

  lemma DueStep(t: seq<Tr>, ids: seq<Id>, i: nat, now: Micros, acc: seq<Id>)
    requires Known(|t|, ids) && i < |ids|
    ensures Known(|t|, ids[i..]) && Known(|t|, ids[i + 1..])
    ensures acc + Due(t, ids[i..], now)
         == (if t[ids[i] - 1].nextFlush <= now then acc + [ids[i]] else acc) + Due(t, ids[i + 1..], now)
  {
    assert ids[i..][0] == ids[i] && ids[i..][1..] == ids[i + 1..];
  }

  ghost predicate SameEndpoints(t: seq<Tr>, u: seq<Tr>) {
    |t| == |u| && forall i :: 0 <= i < |t| ==> u[i].endpoint == t[i].endpoint
  }

  /** The loop over the current flush after `i` turns: what is kept, and what is put off. */
  ghost predicate Tripping(q: Queue, w: World, ids: seq<Id>, endpoint: string, i: nat, r: Queue, kept: seq<Id>) {
    Known(|q.table|, ids) && i <= |ids| && |r.table| == |q.table| && Known(|q.table|, ids[i..])
    && kept + ForEndpoint(q.table, ids[i..], endpoint, false) == ForEndpoint(q.table, ids, endpoint, false)
    && Postpone(r, w, ForEndpoint(q.table, ids[i..], endpoint, true))
      == Postpone(q, w, ForEndpoint(q.table, ids, endpoint, true))
  }

  lemma TripStart(q: Queue, w: World, ids: seq<Id>, endpoint: string)
    requires Known(|q.table|, ids)
    ensures Tripping(q, w, ids, endpoint, 0, q, [])
  {
    assert ids[0..] == ids;
  }

  lemma TripEnd(q: Queue, w: World, ids: seq<Id>, endpoint: string, r: Queue, kept: seq<Id>)
    requires Tripping(q, w, ids, endpoint, |ids|, r, kept)
    ensures kept == ForEndpoint(q.table, ids, endpoint, false)
    ensures r == Postpone(q, w, ForEndpoint(q.table, ids, endpoint, true))
  {
    assert ids[|ids|..] == [] && kept + [] == kept;
  }

  /** One turn of that loop. */
  lemma TripStep(q: Queue, w: World, ids: seq<Id>, endpoint: string, i: nat, r: Queue, kept: seq<Id>)
    requires Tripping(q, w, ids, endpoint, i, r, kept) && i < |ids|
    ensures if q.table[ids[i] - 1].endpoint == endpoint
            then Tripping(q, w, ids, endpoint, i + 1, Q.ComputeNextFlush(r, w, ids[i]), kept)
            else Tripping(q, w, ids, endpoint, i + 1, r, kept + [ids[i]])
  {
    var t, rest := q.table, ids[i + 1..];
    assert ids[i..][0] == ids[i] && ids[i..][1..] == rest;
    if t[ids[i] - 1].endpoint == endpoint {
      var later := ForEndpoint(t, rest, endpoint, true);
      assert ForEndpoint(t, ids[i..], endpoint, true) == [ids[i]] + later;
      assert ([ids[i]] + later)[1..] == later;
    } else {
      var later := ForEndpoint(t, rest, endpoint, false);
      assert ForEndpoint(t, ids[i..], endpoint, false) == [ids[i]] + later;
      assert kept + ([ids[i]] + later) == (kept + [ids[i]]) + later;
    }
  }

  /** One turn of the eviction loop. */
  lemma EvictUnfold(q: Queue, w: World, order: seq<Id>, i: nat, incoming: nat)
    requires q.Wf() && Known(|q.table|, order) && i < |order|
    ensures Evict(q, w, order[i..], incoming)
         == Evict(if q.size + incoming > w.maxSize
                  then Q.Remove(q, order[i]).(evicted := q.evicted + {order[i]}) else q,
                  w, order[i + 1..], incoming)
  {
    assert order[i..][1..] == order[i + 1..];
  }

  lemma {:induction false} DenoteRemove(ts: seq<Transaction>, ids: seq<Id>, received: seq<Transaction>, tr: Transaction)
    requires Denote(ts, ids, received) && (forall i :: 0 <= i < |received| ==> received[i].id == i + 1)
    requires tr in received
    ensures tr in ts <==> tr.id in ids
    ensures Denote(RemoveFirst(ts, tr), RemoveFirst(ids, tr.id), received)
  {
    if ts != [] {
      assert Names(ids[0], ts[0], received);
      assert ts[0] == tr <==> ids[0] == tr.id;
      DenoteRemove(ts[1..], ids[1..], received, tr);
    }
  }
}
