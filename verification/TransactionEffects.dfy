/** What one event does to the transactions, told over the queue's fields: which are sent,
    which wait, which are put off, which leave. */
module TransactionEffects {
  import opened Wrappers
  import opened Seqs
  import opened TransactionQueue
  import opened TransactionInvariants
  import opened TransactionRuns

  // ---- putting off ----

  /** The next try is at a whole second, less than one second before the delay of twenty
      seconds for each error, or the maximal wait, has gone by since `now`. */
  predicate TriedAfter(tr: Tr, now: Micros, w: World) {
    var wait := if tr.errors * 20_000_000 > w.maxWait then w.maxWait else tr.errors * 20_000_000;
    tr.nextFlush % 1_000_000 == 0 && now + wait - 1_000_000 < tr.nextFlush <= now + wait
  }

  lemma BackoffTried(errors: nat, now: Micros, w: World, tr: Tr)
    requires tr.errors == errors && tr.nextFlush == Backoff(errors, now, w)
    ensures TriedAfter(tr, now, w)
  {
    BackoffIsWholeSecond(errors, now, w);
  }

  /** Put off at some reading of the clock from reading `from` on. */
  ghost predicate PutOff(r: Queue, w: World, from: nat, id: Id)
    requires r.Knows(id)
  {
    exists t :: from <= t < r.ticks && TriedAfter(r.At(id), w.clock(t), w)
  }

  lemma {:induction false} PostponeElse(q: Queue, w: World, ids: seq<Id>, id: Id)
    requires Known(|q.table|, ids) && q.Knows(id) && id !in ids
    ensures Postpone(q, w, ids).At(id) == q.At(id)
    decreases |ids|
  {
    if ids != [] {
      assert ids[0] in ids;
      PostponeElse(ComputeNextFlush(q, w, ids[0]), w, ids[1..], id);
    }
  }

  lemma {:induction false} PostponePutsOff(q: Queue, w: World, ids: seq<Id>, id: Id)
    requires Known(|q.table|, ids) && id in ids
    ensures q.Knows(id) && PutOff(Postpone(q, w, ids), w, q.ticks, id)
    decreases |ids|
  {
    var q1 := ComputeNextFlush(q, w, ids[0]);
    var r := Postpone(q, w, ids);
    assert r == Postpone(q1, w, ids[1..]);
    if id in ids[1..] {
      PostponePutsOff(q1, w, ids[1..], id);
    } else {
      PostponeElse(q1, w, ids[1..], id);
      BackoffTried(q.At(id).errors, w.clock(q.ticks), w, r.At(id));
    }
  }

  // ---- what an event leaves alone ----

  ghost predicate SentSince(r: Queue, from: nat, id: Id) {
    exists k :: from <= k < |r.sends| && r.sends[k].id == id
  }

  /** Of what waited, each still waits, was sent or was put off. */
  ghost predicate Dealt(q: Queue, r: Queue, w: World)
    requires q.Wf() && |r.table| == |q.table|
  {
    forall id :: id in q.Waiting() ==>
      id in r.Waiting() || SentSince(r, |q.sends|, id) || (q.Knows(id) && PutOff(r, w, q.ticks, id))
  }

  /** Nothing was done to `id`; but it may have been sent. */
  predicate Spared(q: Queue, r: Queue, id: Id)
    requires |r.table| == |q.table|
  {
    (q.Knows(id) ==> r.At(id) == q.At(id)) && (id in r.queued <==> id in q.queued)
    && (id in r.finished <==> id in q.finished)
    && (id in r.inFlight <==> id in q.inFlight)
  }

  ghost predicate CountersGrow(a: map<string, nat>, b: map<string, nat>) {
    forall e :: e in a ==> e in b && a[e] <= b[e]
  }

  /** From `q` to `r` only transactions that waited were sent, and apart from those only
      `own` was touched. */
  ghost predicate Goes(q: Queue, r: Queue, w: World, own: Id) {
    && q.Wf() && r.Wf() && |r.table| == |q.table| && q.ticks <= r.ticks && r.evicted == q.evicted
    && |q.sends| <= |r.sends| && r.sends[..|q.sends|] == q.sends
    && (forall k :: |q.sends| <= k < |r.sends| ==> r.sends[k].id in q.Waiting())
    && (forall id :: id in r.Waiting() ==> id in q.Waiting())
    && (forall id :: q.Knows(id) && id !in q.Waiting() && id != own ==> Spared(q, r, id))
    && CountersGrow(q.endpointErrors, r.endpointErrors)
    && Dealt(q, r, w)
  }

  lemma DealtOn(q: Queue, m: Queue, r: Queue, w: World, own: Id, later: Id, id: Id)
    requires Goes(q, m, w, own) && Goes(m, r, w, later) && id in q.Waiting()
    requires later == 0 || later !in q.Waiting() || SentSince(m, |q.sends|, later)
    ensures id in r.Waiting() || SentSince(r, |q.sends|, id) || (q.Knows(id) && PutOff(r, w, q.ticks, id))
  {
    if SentSince(m, |q.sends|, id) {
      var k :| |q.sends| <= k < |m.sends| && m.sends[k].id == id;
      assert r.sends[..|m.sends|][k] == r.sends[k];
    } else if id !in m.Waiting() {
      assert q.Knows(id) && PutOff(m, w, q.ticks, id) && Spared(m, r, id);
      var t :| q.ticks <= t < m.ticks && TriedAfter(m.At(id), w.clock(t), w);
      assert TriedAfter(r.At(id), w.clock(t), w);
    }
  }

  /** First `own` is touched, then what follows. */
  lemma GoesOn(q: Queue, m: Queue, r: Queue, w: World, own: Id, later: Id)
    requires Goes(q, m, w, own) && Goes(m, r, w, later)
    requires later == 0 || (later == own && own !in q.Waiting())
             || (later in q.Waiting() && SentSince(m, |q.sends|, later))
    ensures Goes(q, r, w, own)
  {
    assert r.sends[..|q.sends|] == r.sends[..|m.sends|][..|q.sends|] == m.sends[..|q.sends|];
    forall k | |q.sends| <= k < |r.sends| ensures r.sends[k].id in q.Waiting() {
      if k < |m.sends| {
        assert r.sends[..|m.sends|][k] == r.sends[k];
      }
    }
    forall id | q.Knows(id) && id !in q.Waiting() && id != own ensures Spared(q, r, id) {
      assert Spared(q, m, id) && Spared(m, r, id);
    }
    assert Dealt(q, r, w) by {
      forall id | id in q.Waiting()
        ensures id in r.Waiting() || SentSince(r, |q.sends|, id) || (q.Knows(id) && PutOff(r, w, q.ticks, id))
      {
        DealtOn(q, m, r, w, own, later, id);
      }
    }
  }

  lemma PostponeGoes(q: Queue, w: World, ids: seq<Id>, left: seq<Id>)
    requires q.Wf() && Known(|q.table|, ids) && Known(|q.table|, left)
    requires (forall id :: id in ids ==> id in q.Waiting()) && (forall id :: id in left ==> id in q.Waiting())
    requires forall id :: id in q.Waiting() ==> id in ids || id in left
    ensures Goes(q, Postpone(q, w, ids).(toFlush := Some(left)), w, 0)
  {
    var p := Postpone(q, w, ids);
    var r := p.(toFlush := Some(left));
    forall id | q.Knows(id) && id !in q.Waiting() ensures Spared(q, r, id) {
      PostponeElse(q, w, ids, id);
    }
    assert Dealt(q, r, w) by {
      forall id | id in q.Waiting() && id !in left ensures q.Knows(id) && PutOff(r, w, q.ticks, id) {
        PostponePutsOff(q, w, ids, id);
        var t :| q.ticks <= t < p.ticks && TriedAfter(p.At(id), w.clock(t), w);
        assert TriedAfter(r.At(id), w.clock(t), w);
      }
    }
    assert r.Waiting() == left;
  }

  lemma SameGoes(q: Queue, r: Queue, w: World, own: Id)
    requires q.Wf() && r == q.(table := r.table, queued := r.queued, count := r.count, size := r.size, ticks := r.ticks,
                               running := r.running, inFlight := r.inFlight, finished := r.finished,
                               lastFlush := r.lastFlush, endpointErrors := r.endpointErrors, timers := r.timers)
    requires r.Wf() && |r.table| == |q.table| && q.ticks <= r.ticks && CountersGrow(q.endpointErrors, r.endpointErrors)
    requires forall id :: q.Knows(id) && id !in q.Waiting() && id != own ==> Spared(q, r, id)
    ensures Goes(q, r, w, own)
  {
    assert r.Waiting() == q.Waiting();
    assert r.sends[..|q.sends|] == q.sends;
  }

  lemma FinishGoes(q: Queue, w: World, id: Id)
    requires q.Wf() && q.Knows(id)
    ensures Finish(q, id).Wf() && Goes(q, Finish(q, id), w, id)
  {
    RemoveFirstElems(q.queued, id);
    var r := Finish(q, id);
    assert forall x :: x != id ==> (x in r.queued <==> x in q.queued);
    SameGoes(q, r, w, id);
  }

  lemma TripGoes(q: Queue, w: World, endpoint: string)
    requires q.Wf() && q.toFlush.Some?
    ensures Goes(q, Trip(q, w, endpoint), w, 0)
  {
    ForEndpointMeaning(q.table, q.Waiting(), endpoint, true);
    ForEndpointMeaning(q.table, q.Waiting(), endpoint, false);
    PostponeGoes(q, w, ForEndpoint(q.table, q.Waiting(), endpoint, true),
                 ForEndpoint(q.table, q.Waiting(), endpoint, false));
  }

  lemma LandGoes(q: Queue, w: World, id: Id)
    requires q.Wf() && q.Knows(id)
    ensures Land(q, id).Wf() && Goes(q, Land(q, id), w, id)
    ensures IncErrorCount(Land(q, id), id).Wf() && Goes(q, IncErrorCount(Land(q, id), id), w, id)
  {
    SameGoes(q, Land(q, id), w, id);
    SameGoes(q, IncErrorCount(Land(q, id), id), w, id);
  }

  lemma ReplayGoes(q: Queue, w: World, id: Id)
    requires q.Wf() && q.Knows(id) && q.toFlush.Some?
    ensures Goes(q, Replay(q, w, id), w, id)
  {
    var endpoint := q.At(id).endpoint;
    var q1 := CountError(ComputeNextFlush(q, w, id), endpoint);
    SameGoes(q, q1, w, id);
    if q1.endpointErrors[endpoint] == w.maxErrors {
      TripGoes(q1, w, endpoint);
      GoesOn(q, q1, Trip(q1, w, endpoint), w, id, 0);
    }
  }

  lemma ResolveGoes(q: Queue, w: World, id: Id, response: Response)
    requires q.Wf() && q.Knows(id) && q.toFlush.Some? && id !in q.Waiting()
    ensures Goes(q, Resolve(q, w, id, response), w, id)
  {
    LandGoes(q, w, id);
    var landed, failed := Land(q, id), IncErrorCount(Land(q, id), id);
    match response {
      case Success =>
        FinishGoes(landed, w, id);
        GoesOn(q, landed, Finish(landed, id), w, id, id);
      case Rejected =>
        FinishGoes(failed, w, id);
        GoesOn(q, failed, Finish(failed, id), w, id, id);
      case Failed =>
        FinishGoes(failed, w, id);
        ReplayGoes(failed, w, id);
        var r := if failed.At(id).errors > w.maxErrors then Finish(failed, id) else Replay(failed, w, id);
        GoesOn(q, failed, r, w, id, id);
    }
  }

  lemma StartSendGoes(q: Queue, w: World)
    requires q.Wf() && |q.Waiting()| > 0
    ensures var r := StartSend(q, w);
      && Goes(q, r.Tick(), w, 0) && SentSince(r.Tick(), |q.sends|, q.Waiting()[|q.Waiting()| - 1])
  {
    var r := StartSend(q, w).Tick();
    var ids := q.Waiting();
    var last := |ids| - 1;
    assert ids == ids[..last] + [ids[last]] && r.Waiting() == ids[..last];
    assert r.sends[..|q.sends|] == q.sends && r.sends[|q.sends|].id == ids[last] && ids[last] in ids;
  }

  lemma GoesAfterTick(q: Queue, r: Queue, w: World)
    requires q.Wf() && Goes(q.Tick(), r, w, 0)
    ensures Goes(q, r, w, 0)
  {
    WaitGoes(q, w, q.timers);
    GoesOn(q, q.Tick(), r, w, 0, 0);
  }

  lemma WaitGoes(q: Queue, w: World, timers: nat)
    requires q.Wf()
    ensures Goes(q, q.Tick().(timers := timers), w, 0)
  {
    SameGoes(q, q.Tick().(timers := timers), w, 0);
  }

  lemma OverGoes(q: Queue, w: World)
    requires q.Wf() && |q.Waiting()| == 0
    ensures Goes(q, q.(toFlush := None), w, 0)
  {
    assert q.(toFlush := None).Waiting() == q.Waiting();
    assert q.sends[..|q.sends|] == q.sends;
  }

  /** Giving up: everything that waited is put off. */
  lemma GiveUpGoes(q: Queue, w: World)
    requires Base(q, w) && |q.Waiting()| > 0
    ensures var r := Postpone(q.Tick(), w, q.Waiting()).(toFlush := Some([]));
      Base(r, w) && Goes(q, r, w, 0)
  {
    TickBase(q, w);
    var q1 := q.Tick();
    PostponeBase(q1, w, q1.Waiting(), 0);
    EmptyBase(Postpone(q1, w, q1.Waiting()), w);
    PostponeGoes(q1, w, q1.Waiting(), []);
    GoesAfterTick(q, Postpone(q1, w, q1.Waiting()).(toFlush := Some([])), w);
  }

  lemma {:induction false} FlushNextGoes(q: Queue, w: World)
    requires w.Valid() && Base(q, w)
    ensures Goes(q, FlushNext(q, w), w, 0)
    decreases |q.Waiting()|, 3
  {
    if |q.Waiting()| == 0 {
      OverGoes(q, w);
      SameGoes(q, q, w, 0);
    } else if w.clock(q.ticks) - q.flushTime >= MAX_FLUSH_DURATION {
      var r := Postpone(q.Tick(), w, q.Waiting()).(toFlush := Some([]));
      GiveUpGoes(q, w);
      FlushNextGoes(r, w);
      GoesOn(q, r, FlushNext(r, w), w, 0, 0);
    } else {
      TickBase(q, w);
      ThrottleGoes(q.Tick(), w);
      FlushNextUnfold(q, w);
      GoesAfterTick(q, FlushNext(q, w), w);
    }
  }

  lemma {:induction false} ThrottleGoes(q: Queue, w: World)
    requires w.Valid() && Base(q, w) && |q.Waiting()| > 0 && q.ticks > 0
    ensures Goes(q, SentOrWaiting(q, w), w, 0)
    decreases |q.Waiting()|, 2
  {
    if q.lastFlush + w.throttle - w.clock(q.ticks) <= 0 && q.running < w.parallelism {
      TickBase(q, w);
      SendGoes(q.Tick(), w);
      GoesAfterTick(q, SentOrWaiting(q, w), w);
    } else {
      WaitGoes(q, w, q.timers);
      WaitGoes(q, w, q.timers + 1);
    }
  }

  lemma {:induction false} SendGoes(q: Queue, w: World)
    requires w.Valid() && Base(q, w) && |q.Waiting()| > 0 && q.running < w.parallelism && q.ticks > 0
    requires q.lastFlush + w.throttle <= w.clock(q.ticks - 1)
    ensures Goes(q, SentNow(q, w), w, 0)
    decreases |q.Waiting()|, 1
  {
    var id := q.Waiting()[|q.Waiting()| - 1];
    assert w.clock(q.ticks - 1) <= w.clock(q.ticks);
    StartSendBase(q, w);
    StartSendGoes(q, w);
    var q3 := StartSend(q, w);
    TickBase(q3, w);
    AfterSendGoes(q3.Tick(), w, id, w.outcome(q3.ticks));
    assert id in q.Waiting();
    GoesOn(q, q3.Tick(), SentNow(q, w), w, 0, id);
  }

  lemma {:induction false} AfterSendGoes(q: Queue, w: World, id: Id, outcome: Outcome)
    requires w.Valid() && Base(q, w) && id in q.inFlight
    ensures Goes(q, AfterSend(q, w, id, outcome), w, id)
    decreases |q.Waiting()|, 4
  {
    if outcome.Pending? {
      FlushNextGoes(q, w);
    } else {
      var response := if outcome.Raised? then Failed else outcome.response;
      RespondGoes(q, w, id, response);
      if outcome.Answered? {
        var m := FlushNext(Resolve(q, w, id, response), w);
        ResolveBase(q, w, id, response);
        FlushNextInv(Resolve(q, w, id, response), w);
        FlushNextGoes(m, w);
        GoesOn(q, m, FlushNext(m, w), w, id, 0);
      }
    }
  }

  /** An answer, with the `flush_next` after it. */
  lemma {:induction false} RespondGoes(q: Queue, w: World, id: Id, response: Response)
    requires w.Valid() && Base(q, w) && id in q.inFlight
    ensures Goes(q, FlushNext(Resolve(q, w, id, response), w), w, id)
    ensures Goes(q, Resolve(q, w, id, response), w, id) && Base(Resolve(q, w, id, response), w)
    ensures Goes(Resolve(q, w, id, response), FlushNext(Resolve(q, w, id, response), w), w, 0)
    decreases |q.Waiting()|, 4, 0
  {
    var m := Resolve(q, w, id, response);
    ResolveBase(q, w, id, response);
    ResolveGoes(q, w, id, response);
    FlushNextGoes(m, w);
    GoesOn(q, m, FlushNext(m, w), w, id, 0);
  }

  // ---- what flush_next does first ----

  /** With something to send: after ten seconds all of it is put off and nothing is sent;
      else the last one is sent exactly when the throttling delay is over and a slot is
      free; else nothing changes but that a timer is set, unless an answer will come. */
  ghost predicate NextEffect(q: Queue, r: Queue, w: World)
    requires q.Wf() && |r.table| == |q.table| && |q.Waiting()| > 0
  {
    var late := w.clock(q.ticks) - q.flushTime >= 10_000_000;
    var free := q.lastFlush + w.throttle <= w.clock(q.ticks + 1) && q.running < w.parallelism;
    if late then
      r.Waiting() == [] && r.sends == q.sends
      && forall id :: id in q.Waiting() ==> q.Knows(id) && PutOff(r, w, q.ticks, id)
    else if free then
      var id := q.Waiting()[|q.Waiting()| - 1];
      |r.sends| > |q.sends| && r.sends[|q.sends|] == Send(id, q.At(id).errors, w.clock(q.ticks + 2))
    else
      r == q.(ticks := r.ticks, timers := q.timers + if q.running < w.parallelism then 1 else 0)
  }

  lemma NextSends(q: Queue, w: World)
    requires w.Valid() && Base(q, w) && |q.Waiting()| > 0
    ensures NextEffect(q, FlushNext(q, w), w)
  {
    FlushNextUnfold(q, w);
    if w.clock(q.ticks) - q.flushTime >= MAX_FLUSH_DURATION {
      GiveUpSends(q, w);
    } else {
      NextThrottled(q, w);
    }
  }

  lemma NextThrottled(q: Queue, w: World)
    requires w.Valid() && Base(q, w) && |q.Waiting()| > 0 && w.clock(q.ticks) - q.flushTime < MAX_FLUSH_DURATION
    ensures NextEffect(q, SentOrWaiting(q.Tick(), w), w)
  {
    if q.lastFlush + w.throttle <= w.clock(q.ticks + 1) && q.running < w.parallelism {
      NextFree(q, w);
      FreeUnfold(q, w);
    } else {
      WaitEffect(q, w);
    }
  }

  lemma NextFree(q: Queue, w: World)
    requires w.Valid() && Base(q, w) && |q.Waiting()| > 0 && w.clock(q.ticks) - q.flushTime < MAX_FLUSH_DURATION
    requires q.lastFlush + w.throttle <= w.clock(q.ticks + 1) && q.running < w.parallelism
    ensures NextEffect(q, SentNow(q.Tick().Tick(), w), w)
  {
    TickBase(q, w);
    TickBase(q.Tick(), w);
    SentFirst(q.Tick().Tick(), w);
    FreeEffect(q, SentNow(q.Tick().Tick(), w), w);
  }

  lemma FreeUnfold(q: Queue, w: World)
    requires q.Wf() && |q.Waiting()| > 0
    requires q.lastFlush + w.throttle <= w.clock(q.ticks + 1) && q.running < w.parallelism
    ensures SentOrWaiting(q.Tick(), w) == SentNow(q.Tick().Tick(), w)
  {
  }

  lemma WaitEffect(q: Queue, w: World)
    requires q.Wf() && |q.Waiting()| > 0 && w.clock(q.ticks) - q.flushTime < MAX_FLUSH_DURATION
    requires !(q.lastFlush + w.throttle <= w.clock(q.ticks + 1) && q.running < w.parallelism)
    ensures NextEffect(q, q.Tick().Tick().(timers := q.timers + if q.running < w.parallelism then 1 else 0), w)
    ensures SentOrWaiting(q.Tick(), w)
         == q.Tick().Tick().(timers := q.timers + if q.running < w.parallelism then 1 else 0)
  {
    assert q.Tick().Waiting() == q.Waiting();
  }

  lemma FreeEffect(q: Queue, r: Queue, w: World)
    requires q.Wf() && |q.Waiting()| > 0 && |r.table| == |q.table|
    requires w.clock(q.ticks) - q.flushTime < MAX_FLUSH_DURATION
    requires q.lastFlush + w.throttle <= w.clock(q.ticks + 1) && q.running < w.parallelism
    requires var id := q.Waiting()[|q.Waiting()| - 1];
      |r.sends| > |q.sends| && r.sends[|q.sends|] == Send(id, q.At(id).errors, w.clock(q.ticks + 2))
    ensures NextEffect(q, r, w)
  {
  }

  lemma GiveUpSends(q: Queue, w: World)
    requires w.Valid() && Base(q, w) && |q.Waiting()| > 0
    ensures var r := FlushNext(Postpone(q.Tick(), w, q.Waiting()).(toFlush := Some([])), w);
      && r.Waiting() == [] && r.sends == q.sends
      && forall id :: id in q.Waiting() ==> q.Knows(id) && PutOff(r, w, q.ticks, id)
  {
    GiveUpGoes(q, w);
    var m := Postpone(q.Tick(), w, q.Waiting()).(toFlush := Some([]));
    var r := FlushNext(m, w);
    assert r == if m.running == 0 then m.(toFlush := None) else m;
    forall id | id in q.Waiting() ensures q.Knows(id) && PutOff(r, w, q.ticks, id) {
      assert id !in m.Waiting() && !SentSince(m, |q.sends|, id);
      var t :| q.ticks <= t < m.ticks && TriedAfter(m.At(id), w.clock(t), w);
      assert TriedAfter(r.At(id), w.clock(t), w);
    }
  }

  lemma SentFirst(q: Queue, w: World)
    requires w.Valid() && Base(q, w) && |q.Waiting()| > 0 && q.running < w.parallelism && q.ticks > 0
    requires q.lastFlush + w.throttle <= w.clock(q.ticks - 1)
    ensures var id, r := q.Waiting()[|q.Waiting()| - 1], SentNow(q, w);
      |r.sends| > |q.sends| && r.sends[|q.sends|] == Send(id, q.At(id).errors, w.clock(q.ticks))
  {
    var id := q.Waiting()[|q.Waiting()| - 1];
    var q3 := StartSend(q, w).Tick();
    StartSendBase(q, w);
    TickBase(StartSend(q, w), w);
    AfterSendGoes(q3, w, id, w.outcome(q3.ticks - 1));
    assert SentNow(q, w).sends[..|q3.sends|][|q.sends|] == q3.sends[|q.sends|];
  }

  // ---- what a periodic flush does ----

  predicate IsDue(q: Queue, w: World, id: Id) {
    q.Knows(id) && id in q.queued && q.At(id).nextFlush <= w.clock(q.ticks)
  }

  /** The state in which a flush with something due first calls `flush_next`. */
  function Begun(q: Queue, w: World): Queue
    requires q.Wf()
  {
    BeginFlush(q.Tick(), w, FlushOrder(q.table, Due(q.table, q.queued, w.clock(q.ticks))))
  }

  lemma BegunHolds(q: Queue, w: World)
    requires w.Valid() && Inv(q, w) && q.toFlush.None?
    ensures var b := Begun(q, w);
      && Base(b, w) && (forall id :: id in b.Waiting() <==> IsDue(q, w, id)) && WaitingInOrder(q.table, b.Waiting())
      && b == q.(ticks := q.ticks + 2, toFlush := b.toFlush, flushTime := w.clock(q.ticks + 1), flushStart := |q.sends|,
                 endpointErrors := map[])
      && q.running == 0
  {
    TickBase(q, w);
    BeginFlushBase(q.Tick(), w, w.clock(q.ticks));
    var due := Due(q.table, q.queued, w.clock(q.ticks));
    DueNoDup(q.table, q.queued, w.clock(q.ticks));
    FlushOrderIsSorted(q.table, due);
  }

  lemma FlushUnfold(q: Queue, w: World)
    requires q.Wf() && q.toFlush.None? && (forall id :: id in Begun(q, w).Waiting() <==> IsDue(q, w, id))
    ensures Begun(q, w).Wf()
    ensures Step(q, w, Periodic) == if Begun(q, w).Waiting() == [] then q.Tick() else FlushNext(Begun(q, w), w)
  {
    var due := Due(q.table, q.queued, w.clock(q.ticks));
    if due != [] {
      assert due[0] in due && IsDue(q, w, due[0]);
    }
  }

  lemma FirstOfFlush(q: Queue, b: Queue, r: Queue, w: World, due: Id)
    requires q.Wf() && |b.Waiting()| > 0 && b.Wf() && IsDue(q, w, due) && q.running == 0 && w.parallelism > 0
    requires b == q.(ticks := q.ticks + 2, toFlush := b.toFlush, flushTime := w.clock(q.ticks + 1),
                     flushStart := |q.sends|, endpointErrors := map[])
    requires (forall id :: id in b.Waiting() <==> IsDue(q, w, id)) && WaitingInOrder(b.table, b.Waiting())
    requires |r.table| == |q.table| && due in b.Waiting() && |b.Waiting()| > 0 && NextEffect(b, r, w)
    ensures FlushEffect(q, r, w, due)
  {
    var order := b.Waiting();
    var i :| 0 <= i < |order| && order[i] == due;
    var last := |order| - 1;
    assert order[last] in order;
    if i < last {
      assert Before(q.At(order[last]).errors, order[last], q.At(due).errors, due);
    }
    if w.clock(q.ticks + 2) - w.clock(q.ticks + 1) >= 10_000_000 {
      assert PutOff(r, w, b.ticks, due);
    }
  }

  /** A flush sends something exactly when fewer than ten seconds go by while it is set
      up and the throttling delay is over. The first to go was due, and `due` has not
      fewer errors, nor as many and a newer id. If the flush sends nothing, `due` is put
      off, or waits for a timer that has been set. */
  ghost predicate FlushEffect(q: Queue, r: Queue, w: World, due: Id)
    requires q.Knows(due) && |r.table| == |q.table|
  {
    var late := w.clock(q.ticks + 2) - w.clock(q.ticks + 1) >= 10_000_000;
    var over := q.lastFlush + w.throttle <= w.clock(q.ticks + 3);
    && (|r.sends| > |q.sends| <==> !late && over)
    && (|r.sends| > |q.sends| ==>
          var first := r.sends[|q.sends|];
          && IsDue(q, w, first.id) && first.errors == q.At(first.id).errors <= q.At(due).errors
          && (q.At(due).errors == first.errors ==> due <= first.id))
    && (late ==> due !in r.Waiting() && PutOff(r, w, q.ticks, due))
    && (!late && !over ==> due in r.Waiting() && r.timers == q.timers + 1)
  }

  /** So does every flush in every run that finds something due. */
  lemma FlushSends(w: World, events: seq<Event>, q: Queue, due: Id)
    requires w.Valid() && Reaches(w, events, q) && q.toFlush.None? && IsDue(q, w, due)
    ensures q.Wf() && |Step(q, w, Periodic).table| == |q.table| && FlushEffect(q, Step(q, w, Periodic), w, due)
  {
    ReachesInv(w, events, q);
    BegunHolds(q, w);
    FlushUnfold(q, w);
    var b := Begun(q, w);
    assert due in b.Waiting();
    NextSends(b, w);
    FirstOfFlush(q, b, FlushNext(b, w), w, due);
  }

  /** What is due is sent by the flush, still waits in it, or is put off; only due
      transactions are sent, and nothing else is touched. While a flush is under way
      another one does nothing. */
  ghost predicate FlushDealing(q: Queue, r: Queue, w: World, id: Id)
    requires q.Knows(id) && |r.table| == |q.table|
  {
    && |q.sends| <= |r.sends| && r.sends[..|q.sends|] == q.sends
    && (q.toFlush.Some? ==> r == q)
    && (q.toFlush.None? ==>
          && (forall k :: |q.sends| <= k < |r.sends| ==> IsDue(q, w, r.sends[k].id))
          && if IsDue(q, w, id) then id in r.Waiting() || SentSince(r, |q.sends|, id) || PutOff(r, w, q.ticks, id)
             else Spared(q, r, id) && id !in r.Waiting())
  }

  lemma FlushDeals(w: World, events: seq<Event>, q: Queue, id: Id)
    requires w.Valid() && Reaches(w, events, q) && q.Knows(id)
    ensures q.Wf() && |Step(q, w, Periodic).table| == |q.table| && FlushDealing(q, Step(q, w, Periodic), w, id)
  {
    ReachesInv(w, events, q);
    assert q.sends[..|q.sends|] == q.sends;
    if q.toFlush.None? {
      BegunHolds(q, w);
      FlushUnfold(q, w);
      var b := Begun(q, w);
      if b.Waiting() != [] {
        FlushNextGoes(b, w);
        DealsFrom(q, b, FlushNext(b, w), w, id);
      }
    }
  }

  lemma DealsFrom(q: Queue, b: Queue, r: Queue, w: World, id: Id)
    requires q.Wf() && q.Knows(id) && q.toFlush.None? && Goes(b, r, w, 0)
    requires forall x :: x in b.Waiting() <==> IsDue(q, w, x)
    requires b == q.(ticks := q.ticks + 2, toFlush := b.toFlush, flushTime := b.flushTime,
                     flushStart := |q.sends|, endpointErrors := map[])
    ensures FlushDealing(q, r, w, id)
  {
    if IsDue(q, w, id) && id !in r.Waiting() && !SentSince(r, |q.sends|, id) {
      assert PutOff(r, w, b.ticks, id);
    }
  }

  // ---- what an answer does ----

  predicate Leaves(q: Queue, r: Queue, id: Id) {
    id !in r.queued && (id in q.queued ==> id in r.finished)
  }

  function ErrorsOf(errors: map<string, nat>, endpoint: string): nat {
    if endpoint in errors then errors[endpoint] else 0
  }

  /** A transaction that was answered is no longer in flight. If it succeeded or was
      rejected, it leaves the queue. If it failed, it has one error more; above the limit
      it leaves, else it is queued as before, is put off from the reading `t` of the clock,
      and counts against its endpoint. */
  ghost predicate AnswerEffect(q: Queue, r: Queue, w: World, id: Id, response: Response, t: nat)
    requires q.Knows(id) && |r.table| == |q.table|
  {
    var tr := q.At(id);
    && id !in r.inFlight && id !in r.Waiting()
    && match response
       case Success => Leaves(q, r, id) && r.At(id) == tr
       case Rejected => Leaves(q, r, id) && r.At(id) == tr.(errors := tr.errors + 1)
       case Failed =>
         if tr.errors + 1 > w.maxErrors then Leaves(q, r, id) && r.At(id) == tr.(errors := tr.errors + 1)
         else
           && (id in r.queued <==> id in q.queued) && (id in r.finished <==> id in q.finished)
           && r.At(id) == tr.(errors := tr.errors + 1, nextFlush := r.At(id).nextFlush)
           && TriedAfter(r.At(id), w.clock(t), w)
           && ErrorsOf(r.endpointErrors, tr.endpoint) > ErrorsOf(q.endpointErrors, tr.endpoint)
  }

  lemma FinishLeaves(q: Queue, id: Id)
    requires q.Wf() && q.Knows(id) && NoDup(q.queued)
    ensures Leaves(q, Finish(q, id), id)
  {
    RemoveFirstNoDup(q.queued, id);
  }

  lemma ReplayEffect(q: Queue, w: World, id: Id)
    requires q.Wf() && q.Knows(id) && id !in q.Waiting() && q.toFlush.Some?
    ensures var r, e := Replay(q, w, id), q.At(id).endpoint;
      && r.At(id) == q.At(id).(nextFlush := r.At(id).nextFlush) && TriedAfter(r.At(id), w.clock(q.ticks), w)
      && r.queued == q.queued && r.finished == q.finished && r.inFlight == q.inFlight
      && r.endpointErrors == q.endpointErrors[e := ErrorsOf(q.endpointErrors, e) + 1]
      && (forall x :: x in r.Waiting() <==>
            x in q.Waiting() && !(ErrorsOf(q.endpointErrors, e) + 1 == w.maxErrors && q.At(x).endpoint == e))
  {
    var endpoint := q.At(id).endpoint;
    var q1 := CountError(ComputeNextFlush(q, w, id), endpoint);
    assert q1.Waiting() == q.Waiting();
    BackoffTried(q.At(id).errors, w.clock(q.ticks), w, q1.At(id));
    if q1.endpointErrors[endpoint] == w.maxErrors {
      ForEndpointMeaning(q1.table, q.Waiting(), endpoint, true);
      ForEndpointMeaning(q1.table, q.Waiting(), endpoint, false);
      PostponeElse(q1, w, ForEndpoint(q1.table, q.Waiting(), endpoint, true), id);
    }
  }

  lemma ResolveEffect(q: Queue, w: World, id: Id, response: Response)
    requires Base(q, w) && id in q.inFlight
    ensures AnswerEffect(q, Resolve(q, w, id, response), w, id, response, q.ticks)
  {
    var landed, failed := Land(q, id), IncErrorCount(Land(q, id), id);
    assert landed.Waiting() == q.Waiting() && failed.Waiting() == q.Waiting();
    match response {
      case Success => FinishLeaves(landed, id);
      case Rejected => FinishLeaves(failed, id);
      case Failed =>
        FinishLeaves(failed, id);
        ReplayEffect(failed, w, id);
    }
  }

  /** What comes after does not undo it. */
  lemma EffectStays(q: Queue, m: Queue, r: Queue, w: World, id: Id, response: Response, t: nat)
    requires q.Knows(id) && |m.table| == |q.table| && AnswerEffect(q, m, w, id, response, t) && Goes(m, r, w, 0)
    ensures AnswerEffect(q, r, w, id, response, t)
  {
    assert Spared(m, r, id);
  }

  /** In every run an answer has this effect, for all the requests it lets be sent. */
  lemma AnswersTakeEffect(w: World, events: seq<Event>, q: Queue, id: Id, response: Response)
    requires w.Valid() && Reaches(w, events, q) && id in q.inFlight
    ensures q.Wf() && |Step(q, w, Respond(id, response)).table| == |q.table|
    ensures AnswerEffect(q, Step(q, w, Respond(id, response)), w, id, response, q.ticks)
    ensures forall x :: q.Knows(x) && x !in q.Waiting() && x != id ==> Spared(q, Step(q, w, Respond(id, response)), x)
  {
    ReachesInv(w, events, q);
    RespondEffect(q, w, id, response);
  }

  lemma RespondEffect(q: Queue, w: World, id: Id, response: Response)
    requires w.Valid() && Base(q, w) && id in q.inFlight
    ensures AnswerEffect(q, FlushNext(Resolve(q, w, id, response), w), w, id, response, q.ticks)
    ensures Goes(q, FlushNext(Resolve(q, w, id, response), w), w, id)
  {
    var m := Resolve(q, w, id, response);
    ResolveEffect(q, w, id, response);
    RespondGoes(q, w, id, response);
    EffectStays(q, m, FlushNext(m, w), w, id, response, q.ticks);
  }

  /** An error counts once against its endpoint, and takes just what waits for it off the
      flush, when the limit is reached. */
  lemma ErrorCountsOnce(w: World, events: seq<Event>, q: Queue, id: Id)
    requires w.Valid() && Reaches(w, events, q) && id in q.inFlight && q.Knows(id) && q.At(id).errors < w.maxErrors
    ensures q.Wf()
    ensures var r, e := TrError(q, w, id), q.At(id).endpoint;
      var n := ErrorsOf(q.endpointErrors, e) + 1;
      && r.endpointErrors == q.endpointErrors[e := n]
      && forall x :: x in r.Waiting() <==> x in q.Waiting() && !(n == w.maxErrors && q.At(x).endpoint == e)
  {
    ReachesInv(w, events, q);
    var failed := IncErrorCount(Land(q, id), id);
    assert failed.Waiting() == q.Waiting();
    ReplayEffect(failed, w, id);
  }

  /** A request that raises or is answered at once has the same effect; one that does
      neither is in flight. */
  lemma SentTakesEffect(q: Queue, w: World)
    requires w.Valid() && Base(q, w) && |q.Waiting()| > 0 && q.running < w.parallelism && q.ticks > 0
    requires q.lastFlush + w.throttle <= w.clock(q.ticks - 1)
    ensures var id, r := q.Waiting()[|q.Waiting()| - 1], SentNow(q, w);
      match w.outcome(q.ticks + 1)
      case Pending => id in r.inFlight && r.At(id) == q.At(id)
      case Raised => AnswerEffect(q, r, w, id, Failed, q.ticks + 2)
      case Answered(response) => AnswerEffect(q, r, w, id, response, q.ticks + 2)
  {
    var id := q.Waiting()[|q.Waiting()| - 1];
    var sent := StartSend(q, w).Tick();
    StartSendBase(q, w);
    TickBase(StartSend(q, w), w);
    SentEffect(sent, w, id, w.outcome(q.ticks + 1));
  }

  lemma SentEffect(q: Queue, w: World, id: Id, outcome: Outcome)
    requires w.Valid() && Base(q, w) && id in q.inFlight
    ensures var r := AfterSend(q, w, id, outcome);
      match outcome
      case Pending => id in r.inFlight && r.At(id) == q.At(id)
      case Raised => AnswerEffect(q, r, w, id, Failed, q.ticks)
      case Answered(response) => AnswerEffect(q, r, w, id, response, q.ticks)
  {
    match outcome
    case Pending =>
      FlushNextGoes(q, w);
      assert Spared(q, FlushNext(q, w), id);
    case Raised => RespondEffect(q, w, id, Failed);
    case Answered(response) =>
      RespondEffect(q, w, id, response);
      ResolveBase(q, w, id, response);
      FlushNextInv(Resolve(q, w, id, response), w);
      var m := FlushNext(Resolve(q, w, id, response), w);
      FlushNextGoes(m, w);
      EffectStays(q, m, FlushNext(m, w), w, id, response, q.ticks);
  }

  // ---- what an arrival does ----

  /** The new transaction is the last one queued, due at once, and as it came; what is
      queued before it was queued before; no other transaction is touched. */
  lemma ArrivalIsQueued(w: World, events: seq<Event>, q: Queue, endpoint: string, size: nat, created: Micros)
    requires w.Valid() && Reaches(w, events, q)
    ensures q.Wf()
    ensures var r := Step(q, w, Arrive(endpoint, size, created));
      && r.table == q.table + [Tr(endpoint, size, 0, created)]
      && |r.queued| > 0 && r.queued[|r.queued| - 1] == |q.table| + 1
      && (forall x :: x in r.queued[..|r.queued| - 1] ==> x in q.queued)
      && (q.size + size <= w.maxSize ==> r.queued == q.queued + [|q.table| + 1])
      && r.sends == q.sends && r.inFlight == q.inFlight && r.toFlush == q.toFlush && r.finished == q.finished
  {
    ReachesInv(w, events, q);
    MakeRoomAccounts(q, w, size);
  }
}
