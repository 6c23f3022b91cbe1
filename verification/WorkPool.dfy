/** The worker pool of checks/libs/thread_pool.py: one `map_async` call, run by any
    number of workers under any interleaving of their steps. */
module WorkPool {
  import opened Wrappers
  import opened Sums

  /** What `get` can raise: its own time-out, or what the job raised. */
  datatype Exn<+E> = Timeout | FromJob(error: E)

  datatype Outcome<+R, +E> = Value(value: R) | Raised(exn: Exn<E>)

  // ---- what map_async should deliver ----

  /** The values in order, or the first exception. */
  function Gather<R, E>(jobs: seq<Outcome<R, E>>): Outcome<seq<R>, E> {
    if jobs == [] then Value([])
    else match jobs[0]
      case Raised(exn) => Raised(exn)
      case Value(r) =>
        match Gather(jobs[1..])
        case Raised(exn) => Raised(exn)
        case Value(rs) => Value([r] + rs)
  }

  /** `values` are the results of the first jobs, none of which raised. */
  ghost predicate Succeeded<R, E>(jobs: seq<Outcome<R, E>>, values: seq<R>) {
    |values| <= |jobs| && forall i :: 0 <= i < |values| ==> jobs[i] == Value(values[i])
  }

  /** A list is delivered when every job returned; it holds their values in order. */
  lemma {:induction false} GatherValues<R, E>(jobs: seq<Outcome<R, E>>, values: seq<R>)
    requires |values| == |jobs|
    ensures Gather(jobs) == Value(values) <==> Succeeded(jobs, values)
  {
    if jobs != [] {
      GatherValues(jobs[1..], values[1..]);
      if Succeeded(jobs, values) {
        assert Succeeded(jobs[1..], values[1..]);
        assert [values[0]] + values[1..] == values;
      }
      if Gather(jobs) == Value(values) {
        var rs := Gather(jobs[1..]).value;
        assert values == [jobs[0].value] + rs && values[1..] == rs;
        forall i | 0 <= i < |values| ensures jobs[i] == Value(values[i]) {
          if i > 0 { assert jobs[1..][i - 1] == Value(values[1..][i - 1]); }
        }
      }
    }
  }

  /** Otherwise what is delivered is the exception of the first job that raised. */
  lemma {:induction false} GatherRaises<R, E>(jobs: seq<Outcome<R, E>>, k: nat)
    requires k < |jobs| && jobs[k].Raised? && forall i :: 0 <= i < k ==> jobs[i].Value?
    ensures Gather(jobs) == Raised(jobs[k].exn)
  {
    if k > 0 {
      assert jobs[1..][k - 1] == jobs[k];
      GatherRaises(jobs[1..], k - 1);
    }
  }

  // ---- the pool ----

  /** A worker waits for a unit, runs the jobs of its unit one after the other, tells
      the collector about the job it has just finished, or, having been the last to do
      so, reads the results one by one. */
  datatype Worker<+R> =
    | Idle
    | Busy(jobs: seq<nat>)
    | Notifying(job: nat, jobs: seq<nat>)
    | Collecting(values: seq<R>, jobs: seq<nat>)

  /** `toPut` is what the submitting thread has still to put on the work queue, `broken`
      that an assertion of the source failed, `delivered` every outcome the result of
      the call was set to. */
  datatype Pool<R, E> = Pool(
    toPut: seq<seq<nat>>, workq: seq<seq<nat>>, workers: seq<Worker<R>>,
    results: seq<Option<Outcome<R, E>>>, remaining: int,
    delivered: seq<Outcome<seq<R>, E>>, broken: bool)

  datatype Choice = Put | Work(worker: nat)

  predicate Enabled<R, E>(p: Pool<R, E>, c: Choice) {
    match c
    case Put => p.toPut != []
    case Work(w) => w < |p.workers| && (p.workers[w].Idle? ==> p.workq != [])
  }

  function Deliver<R, E>(p: Pool<R, E>, w: nat, outcome: Outcome<seq<R>, E>): Pool<R, E>
    requires w < |p.workers| && p.workers[w].Collecting?
  {
    p.(delivered := p.delivered + [outcome], broken := p.broken || p.delivered != [],
       workers := p.workers[w := Busy(p.workers[w].jobs)])
  }

  /** One atomic step of a thread. `run[i]` is what running job `i` comes to. */
  function Step<R, E>(p: Pool<R, E>, run: seq<Outcome<R, E>>, c: Choice): Pool<R, E>
    requires Enabled(p, c)
  {
    match c
    case Put => p.(toPut := p.toPut[1..], workq := p.workq + [p.toPut[0]])
    case Work(w) =>
      match p.workers[w]
      case Idle => p.(workq := p.workq[1..], workers := p.workers[w := Busy(p.workq[0])])
      case Busy(jobs) =>
        if jobs == [] then p.(workers := p.workers[w := Idle])
        else
          var i := jobs[0];
          if i < |run| && i < |p.results| && p.results[i].None? then
            p.(results := p.results[i := Some(run[i])], workers := p.workers[w := Notifying(i, jobs[1..])])
          else p.(broken := true, workers := p.workers[w := Busy(jobs[1..])])
      case Notifying(_, jobs) =>
        p.(remaining := p.remaining - 1, broken := p.broken || p.remaining <= 0,
           workers := p.workers[w := if p.remaining == 1 then Collecting([], jobs) else Busy(jobs)])
      case Collecting(values, jobs) =>
        if |values| >= |p.results| then Deliver(p, w, Value(values))
        else match p.results[|values|]
          case None => Deliver(p, w, Raised(Timeout))
          case Some(Raised(exn)) => Deliver(p, w, Raised(exn))
          case Some(Value(r)) => p.(workers := p.workers[w := Collecting(values + [r], jobs)])
  }

  function Start<R, E>(units: seq<seq<nat>>, workers: nat, n: nat): Pool<R, E> {
    Pool(units, [], seq(workers, _ => Idle), seq(n, _ => None), n, [], false)
  }

  /** `q` is reached from `p` by the choices of the scheduler. */
  ghost predicate Reaches<R, E>(p: Pool<R, E>, run: seq<Outcome<R, E>>, choices: seq<Choice>, q: Pool<R, E>)
    decreases |choices|
  {
    if choices == [] then q == p
    else Enabled(p, choices[0]) && Reaches(Step(p, run, choices[0]), run, choices[1..], q)
  }

  // ---- counting over the workers ----

  datatype Tag = Copies(job: nat) | Notifiers | Collectors | Effort(n: nat)

  function JobsOf<R>(w: Worker<R>): seq<nat> {
    if w.Idle? then [] else w.jobs
  }

  function Weight<R>(w: Worker<R>, tag: Tag): nat {
    match tag
    case Copies(i) => multiset(JobsOf(w))[i]
    case Notifiers => if w.Notifying? then 1 else 0
    case Collectors => if w.Collecting? then 1 else 0
    case Effort(n) =>
      match w
      case Idle => 0
      case Busy(jobs) => 1 + 2 * |jobs|
      case Notifying(_, jobs) => 2 + 2 * |jobs|
      case Collecting(values, jobs) => 2 + 2 * |jobs| + (if |values| <= n then n - |values| else 0)
  }

  function Tally<R>(ws: seq<Worker<R>>, tag: Tag): nat {
    if ws == [] then 0 else Weight(ws[0], tag) + Tally(ws[1..], tag)
  }

  lemma {:induction false} TallyUpdate<R>(ws: seq<Worker<R>>, w: nat, x: Worker<R>, tag: Tag)
    requires w < |ws|
    ensures Tally(ws[w := x], tag) == Tally(ws, tag) - Weight(ws[w], tag) + Weight(x, tag)
    ensures Tally(ws, tag) >= Weight(ws[w], tag)
  {
    if w > 0 {
      assert ws[w := x][1..] == ws[1..][w - 1 := x];
      TallyUpdate(ws[1..], w - 1, x, tag);
    } else {
      assert ws[w := x][1..] == ws[1..];
    }
  }

  lemma {:induction false} TallyZero<R>(ws: seq<Worker<R>>, tag: Tag)
    requires forall w :: 0 <= w < |ws| ==> ws[w].Idle?
    ensures Tally(ws, tag) == 0
  {
    if ws != [] { TallyZero(ws[1..], tag); }
  }

  function UnitCopies(units: seq<seq<nat>>, i: nat): nat {
    if units == [] then 0 else multiset(units[0])[i] + UnitCopies(units[1..], i)
  }

  lemma {:induction false} UnitCopiesSnoc(units: seq<seq<nat>>, u: seq<nat>, i: nat)
    ensures UnitCopies(units + [u], i) == UnitCopies(units, i) + multiset(u)[i]
  {
    if units != [] {
      assert (units + [u])[1..] == units[1..] + [u];
      UnitCopiesSnoc(units[1..], u, i);
    }
  }

  function Unset<R, E>(results: seq<Option<Outcome<R, E>>>): nat {
    if results == [] then 0 else (if results[0].None? then 1 else 0) + Unset(results[1..])
  }

  lemma {:induction false} UnsetUpdate<R, E>(results: seq<Option<Outcome<R, E>>>, i: nat, o: Outcome<R, E>)
    requires i < |results| && results[i].None?
    ensures Unset(results[i := Some(o)]) == Unset(results) - 1
  {
    if i > 0 {
      assert results[i := Some(o)][1..] == results[1..][i - 1 := Some(o)];
      UnsetUpdate(results[1..], i - 1, o);
    } else {
      assert results[i := Some(o)][1..] == results[1..];
    }
  }

  lemma {:induction false} UnsetZero<R, E>(results: seq<Option<Outcome<R, E>>>)
    ensures Unset(results) == 0 <==> forall i :: 0 <= i < |results| ==> results[i].Some?
  {
    if results != [] {
      UnsetZero(results[1..]);
      if Unset(results) == 0 {
        forall i | 0 <= i < |results| ensures results[i].Some? {
          if i > 0 { assert results[1..][i - 1].Some?; }
        }
      }
      if forall i :: 0 <= i < |results| ==> results[i].Some? {
        forall i | 0 <= i < |results[1..]| ensures results[1..][i].Some? {
          assert results[i + 1].Some?;
        }
      }
    }
  }

  // ---- the invariant ----

  /** Every job not yet run is in exactly one place, exactly once. */
  ghost predicate EachJobOnce<R, E>(p: Pool<R, E>) {
    forall i: nat :: JobCopies(p, i) == if i < |p.results| && p.results[i].None? then 1 else 0
  }

  ghost function JobCopies<R, E>(p: Pool<R, E>, i: nat): nat {
    UnitCopies(p.toPut, i) + UnitCopies(p.workq, i) + Tally(p.workers, Copies(i))
  }

  ghost predicate Inv<R, E>(p: Pool<R, E>, run: seq<Outcome<R, E>>) {
    && |p.results| == |run| > 0 && !p.broken
    && (forall i :: 0 <= i < |run| && p.results[i].Some? ==> p.results[i].value == run[i])
    && EachJobOnce(p)
    && p.remaining == Unset(p.results) + Tally(p.workers, Notifiers)
    && Tally(p.workers, Collectors) + |p.delivered| == (if p.remaining == 0 then 1 else 0)
    && (forall w :: 0 <= w < |p.workers| && p.workers[w].Collecting? ==> Succeeded(run, p.workers[w].values))
    && (forall d :: 0 <= d < |p.delivered| ==> p.delivered[d] == Gather(run))
  }

  lemma PutInv<R, E>(p: Pool<R, E>, run: seq<Outcome<R, E>>)
    requires Inv(p, run) && Enabled(p, Put)
    ensures Inv(Step(p, run, Put), run)
  {
    var q := Step(p, run, Put);
    forall i: nat ensures JobCopies(q, i) == JobCopies(p, i) {
      UnitCopiesSnoc(p.workq, p.toPut[0], i);
    }
  }

  /** A worker moves on with the same jobs ahead of it. */
  lemma SameJobs<R, E>(p: Pool<R, E>, q: Pool<R, E>, w: nat, x: Worker<R>)
    requires EachJobOnce(p) && w < |p.workers| && JobsOf(x) == JobsOf(p.workers[w])
    requires q.workers == p.workers[w := x] && q.results == p.results && q.toPut == p.toPut && q.workq == p.workq
    ensures EachJobOnce(q)
    ensures Tally(q.workers, Notifiers)
         == Tally(p.workers, Notifiers) - Weight(p.workers[w], Notifiers) + Weight(x, Notifiers)
    ensures Tally(q.workers, Collectors)
         == Tally(p.workers, Collectors) - Weight(p.workers[w], Collectors) + Weight(x, Collectors)
    ensures Tally(p.workers, Notifiers) >= Weight(p.workers[w], Notifiers)
    ensures Tally(p.workers, Collectors) >= Weight(p.workers[w], Collectors)
  {
    forall i: nat ensures JobCopies(q, i) == JobCopies(p, i) {
      TallyUpdate(p.workers, w, x, Copies(i));
    }
    TallyUpdate(p.workers, w, x, Notifiers);
    TallyUpdate(p.workers, w, x, Collectors);
  }

  lemma TakeInv<R, E>(p: Pool<R, E>, run: seq<Outcome<R, E>>, w: nat)
    requires Inv(p, run) && Enabled(p, Work(w)) && p.workers[w].Idle?
    ensures Inv(Step(p, run, Work(w)), run)
  {
    var q := Step(p, run, Work(w));
    var x := Busy(p.workq[0]);
    assert q.workers == p.workers[w := x];
    forall i: nat ensures JobCopies(q, i) == JobCopies(p, i) {
      TallyUpdate(p.workers, w, x, Copies(i));
    }
    TallyUpdate(p.workers, w, x, Notifiers);
    TallyUpdate(p.workers, w, x, Collectors);
  }

  lemma RestInv<R, E>(p: Pool<R, E>, run: seq<Outcome<R, E>>, w: nat)
    requires Inv(p, run) && w < |p.workers| && p.workers[w] == Busy([])
    ensures Inv(Step(p, run, Work(w)), run)
  {
    SameJobs(p, Step(p, run, Work(w)), w, Idle);
  }

  /** Running a job settles its result, which nobody had set. */
  lemma RunInv<R, E>(p: Pool<R, E>, run: seq<Outcome<R, E>>, w: nat)
    requires Inv(p, run) && w < |p.workers| && p.workers[w].Busy? && p.workers[w].jobs != []
    ensures Inv(Step(p, run, Work(w)), run)
  {
    var jobs := p.workers[w].jobs;
    var i := jobs[0];
    UnsetJob(p, run, w);
    var q := p.(results := p.results[i := Some(run[i])], workers := p.workers[w := Notifying(i, jobs[1..])]);
    assert Step(p, run, Work(w)) == q;
    SettledInv(p, q, run, w, i, jobs[1..]);
  }

  /** The job a worker is about to run has no result yet. */
  lemma UnsetJob<R, E>(p: Pool<R, E>, run: seq<Outcome<R, E>>, w: nat)
    requires Inv(p, run) && w < |p.workers| && p.workers[w].Busy? && p.workers[w].jobs != []
    ensures var i := p.workers[w].jobs[0]; i < |run| == |p.results| && p.results[i].None?
  {
    var jobs := p.workers[w].jobs;
    assert jobs == [jobs[0]] + jobs[1..];
    TallyUpdate(p.workers, w, Busy(jobs), Copies(jobs[0]));
    assert JobCopies(p, jobs[0]) >= 1;
  }

  lemma SettledInv<R, E>(p: Pool<R, E>, q: Pool<R, E>, run: seq<Outcome<R, E>>, w: nat, i: nat, rest: seq<nat>)
    requires Inv(p, run) && w < |p.workers| && p.workers[w] == Busy([i] + rest)
    requires i < |run| == |p.results| && p.results[i].None?
    requires q == p.(results := p.results[i := Some(run[i])], workers := p.workers[w := Notifying(i, rest)])
    ensures Inv(q, run)
  {
    RunCopies(p, q, w, i, rest);
    UnsetUpdate(p.results, i, run[i]);
    TallyUpdate(p.workers, w, Notifying(i, rest), Notifiers);
    TallyUpdate(p.workers, w, Notifying(i, rest), Collectors);
  }

  lemma RunCopies<R, E>(p: Pool<R, E>, q: Pool<R, E>, w: nat, i: nat, rest: seq<nat>)
    requires EachJobOnce(p) && w < |p.workers| && p.workers[w] == Busy([i] + rest)
    requires i < |p.results| == |q.results| && p.results[i].None? && q.results[i].Some?
    requires q.results == p.results[i := q.results[i]]
    requires q.workers == p.workers[w := Notifying(i, rest)] && q.toPut == p.toPut && q.workq == p.workq
    ensures EachJobOnce(q)
  {
    forall k: nat ensures JobCopies(q, k) == if k < |q.results| && q.results[k].None? then 1 else 0 {
      TallyUpdate(p.workers, w, Notifying(i, rest), Copies(k));
      assert JobCopies(p, k) == if k < |p.results| && p.results[k].None? then 1 else 0;
    }
  }

  lemma NotifyInv<R, E>(p: Pool<R, E>, run: seq<Outcome<R, E>>, w: nat)
    requires Inv(p, run) && w < |p.workers| && p.workers[w].Notifying?
    ensures Inv(Step(p, run, Work(w)), run)
  {
    var q := Step(p, run, Work(w));
    SameJobs(p, q, w, q.workers[w]);
  }

  /** Whoever collects finds every result there. */
  lemma AllReady<R, E>(p: Pool<R, E>, run: seq<Outcome<R, E>>)
    requires Inv(p, run) && p.remaining == 0
    ensures forall i :: 0 <= i < |run| ==> p.results[i] == Some(run[i])
  {
    UnsetZero(p.results);
  }

  lemma CollectInv<R, E>(p: Pool<R, E>, run: seq<Outcome<R, E>>, w: nat)
    requires Inv(p, run) && w < |p.workers| && p.workers[w].Collecting?
    ensures Inv(Step(p, run, Work(w)), run)
  {
    var values := p.workers[w].values;
    SameJobs(p, p, w, p.workers[w]);
    AllReady(p, run);
    if |values| == |run| {
      GatherValues(run, values);
      DeliverInv(p, run, w);
    } else if run[|values|].Raised? {
      GatherRaises(run, |values|);
      DeliverInv(p, run, w);
    } else {
      var next := values + [run[|values|].value];
      NextValueInv(p, run, w, next);
      assert Step(p, run, Work(w)) == p.(workers := p.workers[w := Collecting(next, p.workers[w].jobs)]);
    }
  }

  lemma NextValueInv<R, E>(p: Pool<R, E>, run: seq<Outcome<R, E>>, w: nat, next: seq<R>)
    requires Inv(p, run) && w < |p.workers| && p.workers[w].Collecting? && Succeeded(run, next)
    ensures Inv(p.(workers := p.workers[w := Collecting(next, p.workers[w].jobs)]), run)
  {
    var x := Collecting(next, p.workers[w].jobs);
    SameJobs(p, p.(workers := p.workers[w := x]), w, x);
  }

  lemma DeliverInv<R, E>(p: Pool<R, E>, run: seq<Outcome<R, E>>, w: nat)
    requires Inv(p, run) && w < |p.workers| && p.workers[w].Collecting?
    ensures Inv(Deliver(p, w, Gather(run)), run)
  {
    SameJobs(p, Deliver(p, w, Gather(run)), w, Busy(p.workers[w].jobs));
  }

  lemma StepInv<R, E>(p: Pool<R, E>, run: seq<Outcome<R, E>>, c: Choice)
    requires Inv(p, run) && Enabled(p, c)
    ensures Inv(Step(p, run, c), run)
  {
    match c
    case Put => PutInv(p, run);
    case Work(w) =>
      match p.workers[w]
      case Idle => TakeInv(p, run, w);
      case Busy(jobs) => if jobs == [] { RestInv(p, run, w); } else { RunInv(p, run, w); }
      case Notifying(_, _) => NotifyInv(p, run, w);
      case Collecting(_, _) => CollectInv(p, run, w);
  }

  lemma {:induction false} RunsInv<R, E>(p: Pool<R, E>, run: seq<Outcome<R, E>>, choices: seq<Choice>, q: Pool<R, E>)
    requires Inv(p, run) && Reaches(p, run, choices, q)
    ensures Inv(q, run)
    decreases |choices|
  {
    if choices != [] {
      StepInv(p, run, choices[0]);
      RunsInv(Step(p, run, choices[0]), run, choices[1..], q);
    }
  }

  // ---- the units map_async submits ----

  /** The units taken together. */
  function Jobs(units: seq<seq<nat>>): seq<nat> {
    Flatten(units)
  }

  /** The jobs are 0, 1, ... in order. */
  ghost predicate InOrder(jobs: seq<nat>) {
    forall i :: 0 <= i < |jobs| ==> jobs[i] == i
  }

  lemma {:induction false} FlattenCopies(units: seq<seq<nat>>, i: nat)
    ensures UnitCopies(units, i) == multiset(Jobs(units))[i]
  {
    if units != [] {
      var front, last := units[..|units| - 1], units[|units| - 1];
      FlattenCopies(front, i);
      UnitCopiesSnoc(front, last, i);
      assert units == front + [last];
    }
  }

  lemma {:induction false} InOrderCopies(jobs: seq<nat>, i: nat)
    requires InOrder(jobs)
    ensures multiset(jobs)[i] == if i < |jobs| then 1 else 0
  {
    if jobs != [] {
      var front := jobs[..|jobs| - 1];
      assert jobs == front + [|jobs| - 1];
      InOrderCopies(front, i);
    }
  }

  lemma {:induction false} UnsetAll<R, E>(results: seq<Option<Outcome<R, E>>>)
    requires forall i :: 0 <= i < |results| ==> results[i].None?
    ensures Unset(results) == |results|
  {
    if results != [] { UnsetAll(results[1..]); }
  }

  lemma StartInv<R, E>(units: seq<seq<nat>>, workers: nat, run: seq<Outcome<R, E>>)
    requires InOrder(Jobs(units)) && |Jobs(units)| == |run| > 0
    ensures Inv(Start<R, E>(units, workers, |run|), run)
  {
    var p := Start<R, E>(units, workers, |run|);
    var jobs := Jobs(units);
    forall i: nat ensures JobCopies(p, i) == if i < |run| then 1 else 0 {
      FlattenCopies(units, i);
      InOrderCopies(jobs, i);
      TallyZero(p.workers, Copies(i));
    }
    UnsetAll(p.results);
    TallyZero(p.workers, Notifiers);
    TallyZero(p.workers, Collectors);
  }

  // ---- every schedule ----

  /** Whatever the schedule, no assertion fails and the result is never set to anything
      but what running the jobs one by one would give, nor twice. When the last
      notification has arrived, every result is ready. */
  lemma ScheduleSafety<R, E>(units: seq<seq<nat>>, workers: nat, run: seq<Outcome<R, E>>, choices: seq<Choice>,
                             q: Pool<R, E>)
    requires InOrder(Jobs(units)) && |Jobs(units)| == |run| > 0
    requires Reaches(Start<R, E>(units, workers, |run|), run, choices, q)
    ensures !q.broken && (q.delivered == [] || q.delivered == [Gather(run)])
    ensures q.delivered != [] ==> q.remaining == 0
    ensures q.remaining == 0 ==> |q.results| == |run| && forall i :: 0 <= i < |run| ==> q.results[i] == Some(run[i])
  {
    StartInv(units, workers, run);
    RunsInv(Start<R, E>(units, workers, |run|), run, choices, q);
    if q.remaining == 0 { AllReady(q, run); }
  }

  /** When no thread can move, the result has been delivered. */
  lemma NoDeadlock<R, E>(units: seq<seq<nat>>, workers: nat, run: seq<Outcome<R, E>>, choices: seq<Choice>,
                          q: Pool<R, E>)
    requires InOrder(Jobs(units)) && |Jobs(units)| == |run| > 0 && workers > 0
    requires Reaches(Start<R, E>(units, workers, |run|), run, choices, q)
    requires forall c :: !Enabled(q, c)
    ensures q.delivered == [Gather(run)]
  {
    StartInv(units, workers, run);
    RunsInv(Start<R, E>(units, workers, |run|), run, choices, q);
    WorkersKept(Start<R, E>(units, workers, |run|), run, choices, q);
    assert !Enabled(q, Put) && !Enabled(q, Work(0));
    forall w | 0 <= w < |q.workers| ensures q.workers[w].Idle? {
      assert !Enabled(q, Work(w));
    }
    forall i: nat ensures JobCopies(q, i) == 0 {
      TallyZero(q.workers, Copies(i));
    }
    forall i | 0 <= i < |q.results| ensures q.results[i].Some? {
      assert JobCopies(q, i) == 0;
    }
    UnsetZero(q.results);
    TallyZero(q.workers, Notifiers);
    TallyZero(q.workers, Collectors);
  }

  lemma {:induction false} WorkersKept<R, E>(p: Pool<R, E>, run: seq<Outcome<R, E>>, choices: seq<Choice>,
                                              q: Pool<R, E>)
    requires Reaches(p, run, choices, q)
    ensures |q.workers| == |p.workers|
    decreases |choices|
  {
    if choices != [] { WorkersKept(Step(p, run, choices[0]), run, choices[1..], q); }
  }

  /** What is left to do: an upper bound on the steps still possible. */
  function UnitEffort(units: seq<seq<nat>>, each: nat): nat {
    if units == [] then 0 else each + 2 * |units[0]| + UnitEffort(units[1..], each)
  }

  function Left<R, E>(p: Pool<R, E>): nat {
    var n := |p.results|;
    UnitEffort(p.toPut, 3) + UnitEffort(p.workq, 2) + Tally(p.workers, Effort(n))
    + (if p.remaining > 0 then n + 1 else 0)
  }

  lemma {:induction false} UnitEffortSnoc(units: seq<seq<nat>>, u: seq<nat>, each: nat)
    ensures UnitEffort(units + [u], each) == UnitEffort(units, each) + each + 2 * |u|
  {
    if units != [] {
      assert (units + [u])[1..] == units[1..] + [u];
      UnitEffortSnoc(units[1..], u, each);
    }
  }

  /** A worker at a job changes nothing that counts but its own effort. */
  lemma JobEffort<R, E>(p: Pool<R, E>, run: seq<Outcome<R, E>>, w: nat)
    requires Enabled(p, Work(w)) && (p.workers[w].Busy? || p.workers[w].Collecting?)
    requires p.workers[w].Collecting? ==> |p.workers[w].values| <= |p.results|
    ensures var q := Step(p, run, Work(w));
      && |q.results| == |p.results| && |q.workers| == |p.workers| && q.workers == p.workers[w := q.workers[w]]
      && q.toPut == p.toPut && q.workq == p.workq && q.remaining == p.remaining
      && Weight(q.workers[w], Effort(|p.results|)) < Weight(p.workers[w], Effort(|p.results|))
  {
  }

  lemma JobShrinks<R, E>(p: Pool<R, E>, run: seq<Outcome<R, E>>, w: nat)
    requires Enabled(p, Work(w)) && (p.workers[w].Busy? || p.workers[w].Collecting?)
    requires p.workers[w].Collecting? ==> |p.workers[w].values| <= |p.results|
    ensures Left(Step(p, run, Work(w))) < Left(p)
  {
    var n := |p.results|;
    var q := Step(p, run, Work(w));
    JobEffort(p, run, w);
    TallyUpdate(p.workers, w, q.workers[w], Effort(n));
  }

  /** A worker's step moves its own effort down, or work to it that was counted before. */
  lemma WorkShrinks<R, E>(p: Pool<R, E>, run: seq<Outcome<R, E>>, w: nat)
    requires Inv(p, run) && Enabled(p, Work(w))
    ensures Left(Step(p, run, Work(w))) < Left(p)
  {
    var n := |p.results|;
    var q := Step(p, run, Work(w));
    var x := q.workers[w];
    match p.workers[w]
    case Idle =>
      TallyUpdate(p.workers, w, x, Effort(n));
      assert q.workers == p.workers[w := Busy(p.workq[0])];
    case Notifying(_, jobs) =>
      TallyUpdate(p.workers, w, x, Effort(n));
      TallyUpdate(p.workers, w, x, Notifiers);
      assert q.workers == p.workers[w := x];
    case _ => JobShrinks(p, run, w);
  }

  lemma StepShrinks<R, E>(p: Pool<R, E>, run: seq<Outcome<R, E>>, c: Choice)
    requires Inv(p, run) && Enabled(p, c)
    ensures Left(Step(p, run, c)) < Left(p)
  {
    match c
    case Put => UnitEffortSnoc(p.workq, p.toPut[0], 2);
    case Work(w) => WorkShrinks(p, run, w);
  }

  lemma {:induction false} RunsEnd<R, E>(p: Pool<R, E>, run: seq<Outcome<R, E>>, choices: seq<Choice>, q: Pool<R, E>)
    requires Inv(p, run) && Reaches(p, run, choices, q)
    ensures |choices| + Left(q) <= Left(p)
    decreases |choices|
  {
    if choices != [] {
      StepInv(p, run, choices[0]);
      StepShrinks(p, run, choices[0]);
      RunsEnd(Step(p, run, choices[0]), run, choices[1..], q);
    }
  }

  lemma {:induction false} UnitEffortIs(units: seq<seq<nat>>)
    ensures UnitEffort(units, 3) == 3 * |units| + 2 * |Jobs(units)|
  {
    if units != [] {
      var front, last := units[..|units| - 1], units[|units| - 1];
      UnitEffortIs(front);
      UnitEffortSnoc(front, last, 3);
      assert units == front + [last];
    }
  }

  /** No schedule goes on for ever: each job takes at most three steps of its own and
      each unit three, and one more delivers the result. */
  lemma SchedulesEnd<R, E>(units: seq<seq<nat>>, workers: nat, run: seq<Outcome<R, E>>, choices: seq<Choice>,
                           q: Pool<R, E>)
    requires InOrder(Jobs(units)) && |Jobs(units)| == |run| > 0
    requires Reaches(Start<R, E>(units, workers, |run|), run, choices, q)
    ensures |choices| <= 3 * |units| + 3 * |run| + 1
  {
    var p := Start<R, E>(units, workers, |run|);
    StartInv(units, workers, run);
    RunsEnd(p, run, choices, q);
    UnitEffortIs(units);
    TallyZero(p.workers, Effort(|run|));
  }

  // ---- the empty iterable ----

  ghost predicate NothingToRun<R, E>(p: Pool<R, E>) {
    && (forall i :: 0 <= i < |p.toPut| ==> p.toPut[i] == [])
    && (forall i :: 0 <= i < |p.workq| ==> p.workq[i] == [])
    && (forall w :: 0 <= w < |p.workers| ==> p.workers[w] == Idle || p.workers[w] == Busy([]))
    && p.delivered == []
  }

  /** With nothing to map, no result ever arrives and the call is never answered. */
  lemma {:induction false} EmptyNeverDelivers<R, E>(p: Pool<R, E>, run: seq<Outcome<R, E>>, choices: seq<Choice>,
                                                    q: Pool<R, E>)
    requires NothingToRun(p) && Reaches(p, run, choices, q)
    ensures q.delivered == []
    decreases |choices|
  {
    if choices != [] {
      var r := Step(p, run, choices[0]);
      assert forall i :: 0 <= i < |r.workq| ==> r.workq[i] == [];
      EmptyNeverDelivers(r, run, choices[1..], q);
    }
  }

  /** In particular from the start of a call on no elements. */
  lemma EmptyMapNeverReady<R, E>(units: seq<seq<nat>>, workers: nat, choices: seq<Choice>, q: Pool<R, E>)
    requires Jobs(units) == [] && Reaches(Start<R, E>(units, workers, 0), [], choices, q)
    ensures q.delivered == []
  {
    EmptyUnits(units);
    EmptyNeverDelivers(Start<R, E>(units, workers, 0), [], choices, q);
  }

  lemma {:induction false} EmptyUnits(units: seq<seq<nat>>)
    requires Jobs(units) == []
    ensures forall i :: 0 <= i < |units| ==> units[i] == []
  {
    if units != [] {
      var front, last := units[..|units| - 1], units[|units| - 1];
      assert |Jobs(front) + last| == 0;
      EmptyUnits(front);
    }
  }
}
