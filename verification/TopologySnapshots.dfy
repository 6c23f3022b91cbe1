/** Topology snapshots of a check (checks/__init__.py): components and relations are
    gathered per instance and handed over after each check run, with marks where a
    snapshot starts and stops; an instance that is in none is then forgotten. */
module TopologySnapshots {
  import opened Wrappers
  import opened Seqs

  type Key = map<string, string>
  type Item = string

  datatype Inst = Inst(inSnapshot: bool, started: bool, stopped: bool, components: seq<Item>, relations: seq<Item>)

  const New := Inst(false, false, false, [], [])

  datatype Act = AddComponent(data: Item) | AddRelation(data: Item) | StartSnapshot | StopSnapshot | Clear(all: bool)

  /** None where the source raises. */
  function Do(i: Inst, act: Act): Option<Inst> {
    match act
    case AddComponent(data) => if i.stopped then None else Some(i.(components := i.components + [data]))
    case AddRelation(data) => if i.stopped then None else Some(i.(relations := i.relations + [data]))
    case StartSnapshot => if i.stopped || i.inSnapshot then None else Some(i.(inSnapshot := true, started := true))
    case StopSnapshot => if !i.inSnapshot then None else Some(i.(inSnapshot := false, stopped := true))
    case Clear(all) => Some(Inst(i.inSnapshot && !all, false, false, [], []))
  }

  /** What is handed over; a mark is absent outside snapshots. */
  datatype Topology = Topology(start: Option<bool>, stop: Option<bool>, components: seq<Item>, relations: seq<Item>)

  function View(i: Inst): Topology {
    Topology(if i.inSnapshot || i.started then Some(i.started) else None,
             if i.inSnapshot || i.stopped then Some(i.stopped) else None,
             i.components, i.relations)
  }

  type Instances = map<Key, Inst>

  /** An instance comes to be even when the action then raises. */
  function At(m: Instances, k: Key): Inst {
    if k in m then m[k] else New
  }

  function Perform(m: Instances, k: Key, act: Act): Instances {
    Put(m, k, Result(At(m, k), act))
  }

  /** Raising changes nothing. */
  function Result(i: Inst, act: Act): Inst {
    if Do(i, act).Some? then Do(i, act).value else i
  }

  function Put(m: Instances, k: Key, i: Inst): Instances {
    m[k := i]
  }

  lemma Again(m: Instances, k: Key, i: Inst, j: Inst)
    ensures Put(Put(m, k, i), k, j) == Put(m, k, j)
  {
  }

  function Views(m: Instances): map<Key, Topology> {
    map k | k in m :: View(m[k])
  }

  function Cleared(m: Instances): Instances {
    map k | k in m :: Inst(m[k].inSnapshot, false, false, [], [])
  }

  function Pruned(m: Instances): Instances {
    map k | k in m && m[k].inSnapshot :: m[k]
  }

  // ---- the objects ----

  class TopologyInstance {
    const key: Key
    var inSnapshot: bool
    var startSnapshot: bool
    var stopSnapshot: bool
    var components: seq<Item>
    var relations: seq<Item>

    constructor (key: Key)
      ensures this.key == key && State() == New
    {
      this.key := key;
      inSnapshot, startSnapshot, stopSnapshot, components, relations := false, false, false, [], [];
    }

    ghost function State(): Inst
      reads this
    {
      Inst(inSnapshot, startSnapshot, stopSnapshot, components, relations)
    }

    method Act(act: Act) returns (raised: bool)
      modifies this
      ensures raised == Do(old(State()), act).None?
      ensures State() == if raised then old(State()) else Do(old(State()), act).value
    {
      raised := false;
      match act {
        case AddComponent(data) =>
          if stopSnapshot {
            return true;
          }
          components := components + [data];
        case AddRelation(data) =>
          if stopSnapshot {
            return true;
          }
          relations := relations + [data];
        case StartSnapshot =>
          if stopSnapshot || inSnapshot {
            return true;
          }
          inSnapshot, startSnapshot := true, true;
        case StopSnapshot =>
          if !inSnapshot {
            return true;
          }
          inSnapshot, stopSnapshot := false, true;
        case Clear(all) =>
          ClearTopologyAndSnapshot(all);
      }
    }

    method ClearTopologyAndSnapshot(all: bool)
      modifies this
      ensures State() == Do(old(State()), Clear(all)).value
    {
      components, relations, startSnapshot, stopSnapshot := [], [], false, false;
      if all {
        inSnapshot := false;
      }
    }

    method GetTopology() returns (t: Topology)
      ensures t == View(State())
    {
      var start, stop := None, None;
      if inSnapshot || startSnapshot {
        start := Some(startSnapshot);
      }
      if inSnapshot || stopSnapshot {
        stop := Some(stopSnapshot);
      }
      t := Topology(start, stop, components, relations);
    }
  }

  /** The model's instances are those of the dictionary, under their own keys. */
  ghost predicate Held(instances: map<Key, TopologyInstance>, m: Instances)
    reads instances.Values
  {
    && instances.Keys == m.Keys
    && forall k :: k in instances ==> instances[k].key == k && instances[k].State() == m[k]
  }

  class AgentCheck {
    var topologyInstances: map<Key, TopologyInstance>
    ghost var model: Instances

    constructor ()
      ensures State() == Some(map[])
    {
      topologyInstances, model := map[], map[];
    }

    ghost function State(): Option<Instances>
      reads this, topologyInstances.Values
    {
      if Held(topologyInstances, model) then Some(model) else None
    }

    method Act(k: Key, act: Act) returns (raised: bool)
      requires State().Some?
      modifies this, topologyInstances.Values
      ensures State() == Some(Perform(old(model), k, act)) && raised == Do(At(old(model), k), act).None?
      ensures if k in old(topologyInstances) then topologyInstances == old(topologyInstances)
              else topologyInstances.Keys == old(topologyInstances).Keys + {k} && fresh(topologyInstances[k])
    {
      AssureInstance(k);
      Again(old(model), k, At(old(model), k), Result(At(old(model), k), act));
      raised := ActOn(topologyInstances[k], act);
    }

    method ActOn(instance: TopologyInstance, act: Act) returns (raised: bool)
      requires State().Some? && instance.key in topologyInstances && topologyInstances[instance.key] == instance
      modifies `model, instance
      ensures State() == Some(Put(old(model), instance.key, Result(old(instance.State()), act)))
      ensures raised == Do(old(instance.State()), act).None?
    {
      raised := instance.Act(act);
      ghost var k, m := instance.key, Put(model, instance.key, instance.State());
      assert Held(topologyInstances, m) by {
        forall other | other in topologyInstances ensures topologyInstances[other].State() == m[other] {
          assert other != k ==> topologyInstances[other] != instance;
        }
      }
      model := m;
    }

    method AssureInstance(k: Key)
      requires State().Some?
      modifies this
      ensures State() == Some(Put(old(model), k, At(old(model), k)))
      ensures if k in old(topologyInstances) then topologyInstances == old(topologyInstances)
              else topologyInstances.Keys == old(topologyInstances).Keys + {k} && fresh(topologyInstances[k])
    {
      if k !in topologyInstances {
        var made := new TopologyInstance(k);
        topologyInstances := topologyInstances[k := made];
        model := Put(model, k, New);
      } else {
        assert model == Put(model, k, model[k]);
      }
    }

    /** One topology per instance, in any order. */
    method GetTopologyInstances() returns (result: seq<(Key, Topology)>)
      requires State().Some?
      modifies this, topologyInstances.Values
      ensures State() == Some(Pruned(Cleared(old(model))))
      ensures Lists(result, Views(old(model)))
    {
      result := Topologies();
      ClearAll();
      Prune();
    }

    method Topologies() returns (result: seq<(Key, Topology)>)
      requires State().Some?
      ensures Lists(result, Views(model))
    {
      result := [];
      var todo := topologyInstances.Keys;
      while todo != {}
        invariant todo <= topologyInstances.Keys && NoDup(result)
        invariant forall k, t :: (k, t) in result <==> k in model && k !in todo && t == View(model[k])
      {
        var k :| k in todo;
        todo := todo - {k};
        var t := topologyInstances[k].GetTopology();
        result := result + [(k, t)];
      }
    }

    method ClearAll()
      requires State().Some?
      modifies `model, topologyInstances.Values
      ensures State() == Some(Cleared(old(model)))
    {
      var todo := topologyInstances.Keys;
      ghost var before := model;
      while todo != {}
        invariant todo <= topologyInstances.Keys == before.Keys
        invariant forall k :: k in topologyInstances ==>
                    topologyInstances[k].key == k
                    && topologyInstances[k].State() == if k in todo then before[k] else Cleared(before)[k]
      {
        var k :| k in todo;
        todo := todo - {k};
        topologyInstances[k].ClearTopologyAndSnapshot(false);
      }
      model := Cleared(before);
    }

    method Prune()
      requires State().Some?
      modifies this
      ensures State() == Some(Pruned(old(model)))
      ensures topologyInstances.Values <= old(topologyInstances.Values)
    {
      topologyInstances := map k | k in topologyInstances && topologyInstances[k].inSnapshot :: topologyInstances[k];
      model := Pruned(model);
    }
  }

  ghost predicate Lists(result: seq<(Key, Topology)>, views: map<Key, Topology>) {
    NoDup(result) && forall k, t :: (k, t) in result <==> k in views && t == views[k]
  }

  // ---- whole runs ----

  datatype Op = On(k: Key, act: Act) | Collect

  type Handed = seq<map<Key, Topology>>

  /** The instances after `ops`, and what each collection handed over. */
  function Run(ops: seq<Op>): (Instances, Handed) {
    if ops == [] then (map[], [])
    else
      var (m, handed) := Run(ops[..|ops| - 1]);
      match ops[|ops| - 1]
      case On(k, act) => (Perform(m, k, act), handed)
      case Collect => (Pruned(Cleared(m)), handed + [Views(m)])
  }

  predicate NoClears(ops: seq<Op>) {
    forall i :: 0 <= i < |ops| ==> !(ops[i].On? && ops[i].act.Clear?)
  }

  datatype Mark = Start | Stop

  function MarksOf(t: Topology): seq<Mark> {
    (if t.start == Some(true) then [Start] else []) + (if t.stop == Some(true) then [Stop] else [])
  }

  function Marks(handed: Handed, k: Key): seq<Mark> {
    if handed == [] then []
    else
      var last := handed[|handed| - 1];
      Marks(handed[..|handed| - 1], k) + if k in last then MarksOf(last[k]) else []
  }

  ghost predicate Alternate(marks: seq<Mark>) {
    forall i :: 0 <= i < |marks| ==> marks[i] == if i % 2 == 0 then Start else Stop
  }

  /** Whether a snapshot is open by the marks handed over, and what the instance has to
      add to them. */
  predicate Agrees(marks: seq<Mark>, i: Inst) {
    var open := |marks| % 2 == 1;
    if i.started then !open && i.inSnapshot != i.stopped
    else if open then i.inSnapshot != i.stopped
    else !i.inSnapshot && !i.stopped
  }

  /** A collection clears an instance, whether it keeps or forgets it. */
  lemma CollectedAt(m: Instances, k: Key)
    ensures At(Pruned(Cleared(m)), k) == Inst(At(m, k).inSnapshot, false, false, [], [])
  {
    if k in m {
      assert k in Cleared(m);
    }
  }

  lemma MarksNext(handed: Handed, m: Instances, k: Key)
    ensures Marks(handed + [Views(m)], k) == Marks(handed, k) + MarksOf(View(At(m, k)))
  {
    assert (handed + [Views(m)])[..|handed|] == handed;
    assert MarksOf(View(New)) == [];
  }

  lemma AlternateNext(marks: seq<Mark>, i: Inst)
    requires Alternate(marks) && Agrees(marks, i)
    ensures Alternate(marks + MarksOf(View(i)))
    ensures Agrees(marks + MarksOf(View(i)), Inst(i.inSnapshot, false, false, [], []))
  {
  }

  /** Without explicit clears the marks handed over for an instance alternate, beginning
      with a start, however its actions, raising or not, and the collections fall. */
  lemma {:induction false} MarksAlternate(ops: seq<Op>, k: Key)
    requires NoClears(ops)
    ensures var (m, handed) := Run(ops);
      Alternate(Marks(handed, k)) && Agrees(Marks(handed, k), At(m, k))
  {
    if ops != [] {
      var front, last := ops[..|ops| - 1], ops[|ops| - 1];
      MarksAlternate(front, k);
      var (m, handed) := Run(front);
      match last
      case On(_, act) => assert !act.Clear?;
      case Collect =>
        CollectedAt(m, k);
        MarksNext(handed, m, k);
        AlternateNext(Marks(handed, k), At(m, k));
    }
  }

  /** A topology says that its snapshot goes on exactly when the marks handed over with it
      leave one open; a false start mark says that this was so before, too. */
  lemma OpenIsShown(ops: seq<Op>, k: Key)
    requires NoClears(ops)
    ensures var (m, handed) := Run(ops); var t := View(At(m, k));
      var before := Marks(handed, k); var after := before + MarksOf(t);
      && (t.stop == Some(false) <==> |after| % 2 == 1)
      && (t.start == Some(false) <==> |before| % 2 == 1 && |after| % 2 == 1)
  {
    MarksAlternate(ops, k);
  }

  // ---- what is accepted, told by the operations ----

  /** From operation `i` on there is neither a collection nor a clear of the instance. */
  predicate Uncleared(ops: seq<Op>, k: Key, i: nat) {
    forall j :: i <= j < |ops| ==> ops[j] != Collect && !(ops[j].On? && ops[j].k == k && ops[j].act.Clear?)
  }

  /** From operation `i` on the snapshot is neither stopped nor cleared away. */
  predicate Kept(ops: seq<Op>, k: Key, i: nat) {
    forall j :: i <= j < |ops| ==> ops[j] != On(k, StopSnapshot) && ops[j] != On(k, Clear(true))
  }

  /** A snapshot was stopped since the instance was last collected or cleared. */
  ghost predicate Stopped(ops: seq<Op>, k: Key)
    decreases |ops|
  {
    exists i :: 0 <= i < |ops| && ops[i] == On(k, StopSnapshot) && Open(ops[..i], k) && Uncleared(ops, k, i)
  }

  /** A snapshot was started when none had just been stopped, and goes on. */
  ghost predicate Open(ops: seq<Op>, k: Key)
    decreases |ops|
  {
    exists i :: 0 <= i < |ops| && ops[i] == On(k, StartSnapshot) && !Stopped(ops[..i], k) && Kept(ops, k, i)
  }

  /** What the last operation makes of it. */
  lemma StoppedNext(ops: seq<Op>, k: Key, op: Op)
    ensures Stopped(ops + [op], k) <==>
              if op == On(k, StopSnapshot) then Stopped(ops, k) || Open(ops, k)
              else op != Collect && !(op.On? && op.k == k && op.act.Clear?) && Stopped(ops, k)
  {
    var all := ops + [op];
    assert all[..|ops|] == ops && all[|ops|] == op;
    StoppedStays(ops, k, op);
    if Open(ops, k) && op == On(k, StopSnapshot) {
      assert Uncleared(all, k, |ops|);
    }
    if Stopped(all, k) {
      var i :| 0 <= i < |all| && all[i] == On(k, StopSnapshot) && Open(all[..i], k) && Uncleared(all, k, i);
      if i < |ops| {
        assert ops[i] == all[i] && all[..i] == ops[..i] && Uncleared(ops, k, i);
      }
    }
  }

  lemma StoppedStays(ops: seq<Op>, k: Key, op: Op)
    ensures Stopped(ops, k) && op != Collect && !(op.On? && op.k == k && op.act.Clear?) ==> Stopped(ops + [op], k)
  {
    var all := ops + [op];
    if Stopped(ops, k) && op != Collect && !(op.On? && op.k == k && op.act.Clear?) {
      var i :| 0 <= i < |ops| && ops[i] == On(k, StopSnapshot) && Open(ops[..i], k) && Uncleared(ops, k, i);
      assert all[i] == ops[i] && all[..i] == ops[..i] && Uncleared(all, k, i);
    }
  }

  lemma OpenNext(ops: seq<Op>, k: Key, op: Op)
    ensures Open(ops + [op], k) <==>
              if op == On(k, StartSnapshot) then !Stopped(ops, k) || Open(ops, k)
              else op != On(k, StopSnapshot) && op != On(k, Clear(true)) && Open(ops, k)
  {
    var all := ops + [op];
    assert all[..|ops|] == ops && all[|ops|] == op;
    if Open(ops, k) && Kept([op], k, 0) {
      var i :| 0 <= i < |ops| && ops[i] == On(k, StartSnapshot) && !Stopped(ops[..i], k) && Kept(ops, k, i);
      assert all[i] == ops[i] && all[..i] == ops[..i] && [op][0] == op && Kept(all, k, i);
    }
    if !Stopped(ops, k) && op == On(k, StartSnapshot) {
      assert Kept(all, k, |ops|);
    }
    if Open(all, k) {
      var i :| 0 <= i < |all| && all[i] == On(k, StartSnapshot) && !Stopped(all[..i], k) && Kept(all, k, i);
      if i < |ops| {
        assert ops[i] == all[i] && all[..i] == ops[..i] && Kept(ops, k, i);
      }
    }
  }

  /** A snapshot was started since the instance was last collected or cleared. */
  ghost predicate Started(ops: seq<Op>, k: Key) {
    exists i :: 0 <= i < |ops| && ops[i] == On(k, StartSnapshot) && !Stopped(ops[..i], k) && !Open(ops[..i], k)
                && Uncleared(ops, k, i)
  }

  lemma StartedNext(ops: seq<Op>, k: Key, op: Op)
    ensures Started(ops + [op], k) <==>
              if op == On(k, StartSnapshot) then Started(ops, k) || (!Stopped(ops, k) && !Open(ops, k))
              else op != Collect && !(op.On? && op.k == k && op.act.Clear?) && Started(ops, k)
  {
    var all := ops + [op];
    assert all[..|ops|] == ops && all[|ops|] == op;
    if Started(ops, k) && op != Collect && !(op.On? && op.k == k && op.act.Clear?) {
      var i :| 0 <= i < |ops| && ops[i] == On(k, StartSnapshot) && !Stopped(ops[..i], k) && !Open(ops[..i], k)
                && Uncleared(ops, k, i);
      assert all[i] == ops[i] && all[..i] == ops[..i] && Uncleared(all, k, i);
    }
    if op == On(k, StartSnapshot) && !Stopped(ops, k) && !Open(ops, k) {
      assert Uncleared(all, k, |ops|);
    }
    if Started(all, k) {
      var i :| 0 <= i < |all| && all[i] == On(k, StartSnapshot) && !Stopped(all[..i], k) && !Open(all[..i], k)
                && Uncleared(all, k, i);
      if i < |ops| {
        assert ops[i] == all[i] && all[..i] == ops[..i] && Uncleared(ops, k, i);
      }
    }
  }

  ghost predicate Knows(ops: seq<Op>, k: Key, i: Inst) {
    (i.stopped <==> Stopped(ops, k)) && (i.inSnapshot <==> Open(ops, k)) && (i.started <==> Started(ops, k))
  }

  lemma KnowsNext(ops: seq<Op>, k: Key, i: Inst, op: Op)
    requires Knows(ops, k, i)
    ensures op.On? && op.k == k ==> Knows(ops + [op], k, Result(i, op.act))
    ensures op.On? && op.k != k ==> Knows(ops + [op], k, i)
    ensures op.Collect? ==> Knows(ops + [op], k, Inst(i.inSnapshot, false, false, [], []))
  {
    StoppedNext(ops, k, op);
    OpenNext(ops, k, op);
    StartedNext(ops, k, op);
  }

  /** An instance knows of itself what the operations say. */
  lemma {:induction false} KnowsItsState(ops: seq<Op>, k: Key)
    ensures Knows(ops, k, At(Run(ops).0, k))
  {
    if ops != [] {
      var front, last := ops[..|ops| - 1], ops[|ops| - 1];
      assert ops == front + [last];
      KnowsItsState(front, k);
      KnowsNext(front, k, At(Run(front).0, k), last);
      CollectedAt(Run(front).0, k);
    }
  }

  /** A component or relation is refused exactly when a snapshot of its instance was
      stopped since it was last collected or cleared; a start, then or when one is open; a
      stop, when none is open; a clear never. */
  lemma RaisesExactly(ops: seq<Op>, k: Key, act: Act)
    ensures Do(At(Run(ops).0, k), act).None? <==>
              match act
              case AddComponent(_) => Stopped(ops, k)
              case AddRelation(_) => Stopped(ops, k)
              case StartSnapshot => Stopped(ops, k) || Open(ops, k)
              case StopSnapshot => !Open(ops, k)
              case Clear(_) => false
  {
    KnowsItsState(ops, k);
  }

  /** Components, or else relations. */
  function Added(act: Act, relation: bool): seq<Item> {
    match act
    case AddComponent(data) => if relation then [] else [data]
    case AddRelation(data) => if relation then [data] else []
    case _ => []
  }

  function Waiting(i: Inst, relation: bool): seq<Item> {
    if relation then i.relations else i.components
  }

  /** What was added while no snapshot had been stopped since the last collection. */
  ghost function Accepted(ops: seq<Op>, k: Key, relation: bool): seq<Item> {
    if ops == [] then []
    else
      var front, last := ops[..|ops| - 1], ops[|ops| - 1];
      Accepted(front, k, relation)
      + if last.On? && last.k == k && !Stopped(front, k) then Added(last.act, relation) else []
  }

  function HandedItems(handed: Handed, k: Key, relation: bool): seq<Item> {
    if handed == [] then []
    else
      var last := handed[|handed| - 1];
      HandedItems(handed[..|handed| - 1], k, relation)
      + if k !in last then [] else if relation then last[k].relations else last[k].components
  }

  lemma HandedNext(handed: Handed, m: Instances, k: Key, relation: bool)
    ensures HandedItems(handed + [Views(m)], k, relation)
         == HandedItems(handed, k, relation) + Waiting(At(m, k), relation)
  {
    assert (handed + [Views(m)])[..|handed|] == handed;
  }

  lemma ActionAdds(i: Inst, act: Act, relation: bool)
    requires !act.Clear?
    ensures Waiting(Result(i, act), relation) ==
              Waiting(i, relation) + if Do(i, act).Some? then Added(act, relation) else []
  {
  }

  /** Without explicit clears every accepted component and relation is handed over once,
      in the order of acceptance, or still waits to be. */
  lemma {:induction false} HandedExactlyOnce(ops: seq<Op>, k: Key, relation: bool)
    requires NoClears(ops)
    ensures var (m, handed) := Run(ops);
      HandedItems(handed, k, relation) + Waiting(At(m, k), relation) == Accepted(ops, k, relation)
  {
    if ops != [] {
      var front, last := ops[..|ops| - 1], ops[|ops| - 1];
      HandedExactlyOnce(front, k, relation);
      var (m, handed) := Run(front);
      match last
      case On(other, act) =>
        assert !act.Clear?;
        RaisesExactly(front, k, act);
        ActionAdds(At(m, k), act, relation);
        assert At(Perform(m, other, act), k) == if other == k then Result(At(m, k), act) else At(m, k);
      case Collect =>
        CollectedAt(m, k);
        HandedNext(handed, m, k, relation);
    }
  }

  /** What was added since the instance was last collected or cleared. */
  ghost function Gathered(ops: seq<Op>, k: Key, relation: bool): seq<Item> {
    if ops == [] then []
    else
      var front := ops[..|ops| - 1];
      match ops[|ops| - 1]
      case Collect => []
      case On(other, act) =>
        if other != k then Gathered(front, k, relation)
        else if act.Clear? then []
        else Gathered(front, k, relation) + if Stopped(front, k) then [] else Added(act, relation)
  }

  /** What had been gathered at each collection. */
  ghost function Taken(ops: seq<Op>, k: Key, relation: bool): seq<Item> {
    if ops == [] then []
    else
      var front, last := ops[..|ops| - 1], ops[|ops| - 1];
      Taken(front, k, relation) + if last.Collect? then Gathered(front, k, relation) else []
  }

  /** With clears, too: each collection hands over what was accepted since the one before
      or the last clear, and that still waits which was accepted since. */
  lemma {:induction false} HandedAsGathered(ops: seq<Op>, k: Key, relation: bool)
    ensures var (m, handed) := Run(ops);
      && Waiting(At(m, k), relation) == Gathered(ops, k, relation)
      && HandedItems(handed, k, relation) == Taken(ops, k, relation)
  {
    if ops != [] {
      var front, last := ops[..|ops| - 1], ops[|ops| - 1];
      HandedAsGathered(front, k, relation);
      var (m, handed) := Run(front);
      match last
      case On(other, act) =>
        RaisesExactly(front, k, act);
        if !act.Clear? {
          ActionAdds(At(m, k), act, relation);
        }
        assert At(Perform(m, other, act), k) == if other == k then Result(At(m, k), act) else At(m, k);
      case Collect =>
        CollectedAt(m, k);
        HandedNext(handed, m, k, relation);
    }
  }

  // ---- forgetting instances ----

  /** The same run by a check that never forgets an instance. */
  function RunKeeping(ops: seq<Op>): (Instances, Handed) {
    if ops == [] then (map[], [])
    else
      var (m, handed) := RunKeeping(ops[..|ops| - 1]);
      match ops[|ops| - 1]
      case On(k, act) => (Perform(m, k, act), handed)
      case Collect => (Cleared(m), handed + [Views(m)])
  }

  ghost predicate SameButBlanks(a: Handed, b: Handed) {
    && |a| == |b|
    && forall j, k :: 0 <= j < |a| ==>
         if k in a[j] then k in b[j] && b[j][k] == a[j][k] else k in b[j] ==> b[j][k] == View(New)
  }

  lemma SameViews(a: Instances, b: Instances)
    requires a.Keys <= b.Keys && forall k :: At(a, k) == At(b, k)
    ensures forall k :: if k in Views(a) then k in Views(b) && Views(b)[k] == Views(a)[k]
                        else k in Views(b) ==> Views(b)[k] == View(New)
  {
    forall k ensures if k in Views(a) then k in Views(b) && Views(b)[k] == Views(a)[k]
                     else k in Views(b) ==> Views(b)[k] == View(New) {
      assert At(a, k) == At(b, k);
    }
  }

  /** Forgetting cannot be told: the same actions raise, for every instance is the same,
      and all that is handed over less are topologies with nothing in them. */
  lemma {:induction false} ForgettingIsUnobservable(ops: seq<Op>)
    ensures var (a, handed) := Run(ops); var (b, kept) := RunKeeping(ops);
      && a.Keys <= b.Keys && (forall k :: At(a, k) == At(b, k))
      && SameButBlanks(handed, kept)
  {
    if ops != [] {
      var front, last := ops[..|ops| - 1], ops[|ops| - 1];
      ForgettingIsUnobservable(front);
      var (a, handed) := Run(front);
      var (b, kept) := RunKeeping(front);
      match last
      case On(k, act) =>
        assert At(a, k) == At(b, k);
        forall x ensures At(Perform(a, k, act), x) == At(Perform(b, k, act), x) {
          assert At(a, x) == At(b, x);
        }
      case Collect =>
        SameViews(a, b);
        forall k ensures At(Pruned(Cleared(a)), k) == At(Cleared(b), k) {
          CollectedAt(a, k);
          assert At(a, k) == At(b, k);
        }
    }
  }
}
