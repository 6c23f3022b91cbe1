/** Leader election over one ConfigMap (utils/kubernetes/leader_elector.py): what one
    `try_acquire_or_refresh` call does to the agent and the ConfigMap, and what any
    number of agents can reach together. A call is one atomic step. */
module LeaderElection {
  import opened Wrappers

  type Time = int    // microseconds

  const REFRESH_MARGIN: Time := 30_000_000

  /** The two annotations of the ConfigMap; `acquired_time` may be missing. */
  datatype ConfigMap = ConfigMap(creator: string, acquired: Option<Time>)

  /** `kubeutil.is_leader` and `last_acquire_time` of one agent. */
  datatype Agent = Agent(isLeader: bool, last: Option<Time>)

  /** How a request ended for the caller: well, with an HTTP status of 404 or another
      one, or with no response at all. */
  datatype Error = Fine | NotFound | Status | NoResponse

  /** A request may take effect even when its caller sees an error. */
  datatype Reply = Reply(applied: bool, error: Error) {
    predicate Effective() {
      applied || error == Fine
    }
  }

  /** The fate of the requests of one call, and the clock when it compares expiry times
      and builds payloads. */
  datatype Calls = Calls(get: Error, delete: Reply, post: Reply, put: Reply, t1: Time, t2: Time, t3: Time)

  /** What `_get_cm` leaves its caller with. */
  datatype Fetched = Exception | Got(cm: Option<ConfigMap>)

  /** A failed GET looks like a missing ConfigMap unless there was no response; reading
      the acquire time of a ConfigMap without one raises. */
  function Fetch(cm: Option<ConfigMap>, get: Error): Fetched {
    match get
    case NoResponse => Exception
    case NotFound => Got(None)
    case Status => Got(None)
    case Fine => if cm.Some? && cm.value.acquired.None? then Exception else Got(cm)
  }

  predicate Expired(cm: ConfigMap, lease: int, now: Time) {
    cm.acquired.None? || cm.acquired.value + lease <= now
  }

  /** `_try_lock_cm`: delete what was fetched, then post; posting over an existing
      ConfigMap is refused. Returns the new ConfigMap and whether the lock was taken. */
  function TryLock(name: string, fetched: Option<ConfigMap>, cm: Option<ConfigMap>, c: Calls)
    : (Option<ConfigMap>, bool)
  {
    var after := if fetched.Some? && c.delete.Effective() then None else cm;
    if fetched.Some? && c.delete.error != Fine && c.delete.error != NotFound then (after, false)
    else if after.None? && c.post.Effective() then
      (Some(ConfigMap(name, Some(c.t3))), c.post.error == Fine)
    else (after, false)
  }

  /** What a call changes: the agent and the ConfigMap. */
  datatype Local = Local(agent: Agent, cm: Option<ConfigMap>)

  /** The agent has just read the ConfigMap's acquire time, if it could. */
  function Remember(agent: Agent, fetched: Option<ConfigMap>): Agent {
    if fetched.Some? then agent.(last := fetched.value.acquired) else agent
  }

  function Lock(name: string, s: Local, fetched: Option<ConfigMap>, c: Calls): Local {
    var (cm, taken) := TryLock(name, fetched, s.cm, c);
    Local(Agent(taken, if taken then Some(c.t3) else s.agent.last), cm)
  }

  function TryAcquire(name: string, lease: int, s: Local, c: Calls): Local {
    match Fetch(s.cm, c.get)
    case Exception => s.(agent := AfterException(s))
    case Got(cm) =>
      var s1 := s.(agent := Remember(s.agent, cm));
      if cm.None? || Expired(cm.value, lease, c.t2) then Lock(name, s1, cm, c)
      else s1.(agent := s1.agent.(isLeader := cm.value.creator == name))
  }

  function TryRefresh(name: string, lease: int, s: Local, c: Calls): Local {
    match Fetch(s.cm, c.get)
    case Exception => s.(agent := AfterException(s))
    case Got(cm) =>
      var s1 := s.(agent := Remember(s.agent, cm));
      if cm.None? || Expired(cm.value, lease, c.t2) then Lock(name, s1, cm, c)
      else if cm.value.creator != name then s1.(agent := s1.agent.(isLeader := false))
      else
        var renewed := if c.put.Effective() then Some(cm.value.(acquired := Some(c.t3))) else s1.cm;
        if c.put.error != Fine then Local(s1.agent.(isLeader := false), renewed)
        else Local(Agent(true, Some(c.t3)), renewed)
  }

  /** Leadership is given up and nothing is learnt about the lock. */
  function AfterException(s: Local): Agent {
    s.agent.(isLeader := false)
  }

  function TryAcquireOrRefresh(name: string, lease: int, s: Local, c: Calls): Local {
    var a := s.agent;
    if a.isLeader then
      if a.last.Some? && a.last.value + lease - REFRESH_MARGIN <= c.t1 then TryRefresh(name, lease, s, c) else s
    else if a.last.None? || a.last.value + lease <= c.t1 then TryAcquire(name, lease, s, c)
    else s
  }

  // ---- the objects ----

  class ApiServer {
    var cm: Option<ConfigMap>

    constructor (cm: Option<ConfigMap>)
      ensures this.cm == cm
    {
      this.cm := cm;
    }

    method Delete(reply: Reply)
      modifies this
      ensures cm == if reply.Effective() then None else old(cm)
    {
      if reply.Effective() {
        cm := None;
      }
    }

    /** Creating is refused when the ConfigMap exists. */
    method Post(payload: ConfigMap, reply: Reply) returns (error: Error)
      modifies this
      ensures cm == if old(cm).None? && reply.Effective() then Some(payload) else old(cm)
      ensures error == if old(cm).Some? && reply.error == Fine then Status else reply.error
    {
      error := reply.error;
      if cm.None? && reply.Effective() {
        cm := Some(payload);
      } else if cm.Some? && error == Fine {
        error := Status;
      }
    }

    method Put(payload: ConfigMap, reply: Reply)
      modifies this
      ensures cm == if reply.Effective() then Some(payload) else old(cm)
    {
      if reply.Effective() {
        cm := Some(payload);
      }
    }
  }

  class LeaderElector {
    const name: string
    const lease: int
    const server: ApiServer
    var lastAcquireTime: Option<Time>
    var isLeader: bool

    constructor (name: string, lease: int, server: ApiServer)
      ensures this.name == name && this.lease == lease && this.server == server
      ensures State() == Local(Agent(false, None), server.cm)
    {
      this.name, this.lease, this.server := name, lease, server;
      lastAcquireTime, isLeader := None, false;
    }

    ghost function State(): Local
      reads this, server
    {
      Local(Agent(isLeader, lastAcquireTime), server.cm)
    }

    method TryAcquireOrRefreshLock(c: Calls)
      modifies this, server
      ensures State() == TryAcquireOrRefresh(name, lease, old(State()), c)
    {
      var expiryTime := if lastAcquireTime.Some? then Some(lastAcquireTime.value + lease) else None;
      if isLeader {
        if expiryTime.Some? && expiryTime.value - REFRESH_MARGIN <= c.t1 {
          isLeader := TryRefreshLock(c);
        }
      } else {
        if expiryTime.None? || expiryTime.value <= c.t1 {
          isLeader := TryAcquireLock(c);
        }
      }
    }

    method TryAcquireLock(c: Calls) returns (leader: bool)
      modifies `lastAcquireTime, server
      ensures State().(agent := State().agent.(isLeader := leader)) == TryAcquire(name, lease, old(State()), c)
    {
      var fetched := GetCm(c.get);
      match fetched {
        case Exception => leader := false;
        case Got(cm) =>
          if cm.None? || Expired(cm.value, lease, c.t2) {
            leader := TryLockCm(cm, c);
          } else {
            leader := cm.value.creator == name;
          }
      }
    }

    method TryRefreshLock(c: Calls) returns (leader: bool)
      modifies `lastAcquireTime, server
      ensures State().(agent := State().agent.(isLeader := leader)) == TryRefresh(name, lease, old(State()), c)
    {
      var fetched := GetCm(c.get);
      match fetched {
        case Exception => leader := false;
        case Got(cm) =>
          if cm.None? || Expired(cm.value, lease, c.t2) {
            leader := TryLockCm(cm, c);
          } else if cm.value.creator != name {
            leader := false;
          } else {
            leader := TryRefreshCm(cm.value, c);
          }
      }
    }

    method GetCm(get: Error) returns (fetched: Fetched)
      modifies `lastAcquireTime
      ensures fetched == Fetch(server.cm, get)
      ensures fetched.Exception? <==>
                get == NoResponse || (get == Fine && server.cm.Some? && server.cm.value.acquired.None?)
      ensures fetched.Got? && fetched.cm.Some? ==>
                fetched.cm == server.cm && lastAcquireTime == server.cm.value.acquired && lastAcquireTime.Some?
      ensures fetched.Got? && fetched.cm.Some? <==> get == Fine && server.cm.Some? && server.cm.value.acquired.Some?
      ensures !(fetched.Got? && fetched.cm.Some?) ==> lastAcquireTime == old(lastAcquireTime)
    {
      if get == NoResponse {
        return Exception;    // it has no status code to look at
      }
      if get == NotFound || get == Status {
        return Got(None);
      }
      var cm := server.cm;
      if cm.None? {
        return Got(None);
      }
      if cm.value.acquired.None? {
        return Exception;    // there is no time to parse
      }
      lastAcquireTime := cm.value.acquired;
      fetched := Got(cm);
    }

    method TryLockCm(cm: Option<ConfigMap>, c: Calls) returns (taken: bool)
      modifies `lastAcquireTime, server
      ensures (server.cm, taken) == TryLock(name, cm, old(server.cm), c)
      ensures lastAcquireTime == if taken then Some(c.t3) else old(lastAcquireTime)
    {
      if cm.Some? {
        server.Delete(c.delete);
        if c.delete.error != Fine && c.delete.error != NotFound {
          return false;
        }
      }
      var error := server.Post(ConfigMap(name, Some(c.t3)), c.post);
      if error != Fine {
        return false;
      }
      lastAcquireTime := Some(c.t3);
      taken := true;
    }

    method TryRefreshCm(cm: ConfigMap, c: Calls) returns (kept: bool)
      modifies `lastAcquireTime, server
      ensures kept == (c.put.error == Fine)
      ensures server.cm == if c.put.Effective() then Some(cm.(acquired := Some(c.t3))) else old(server.cm)
      ensures lastAcquireTime == if kept then Some(c.t3) else old(lastAcquireTime)
    {
      server.Put(cm.(acquired := Some(c.t3)), c.put);
      if c.put.error != Fine {
        return false;
      }
      lastAcquireTime := Some(c.t3);
      kept := true;
    }
  }

  // ---- what one call decides ----

  predicate NoFaults(c: Calls) {
    c.get == Fine && c.delete.error == Fine && c.post.error == Fine && c.put.error == Fine
  }

  /** With a working API server, an agent that looks for the lock gets it exactly when
      there is none, when it has run out, or when it is the agent's own. */
  lemma AcquiresExactly(name: string, lease: int, s: Local, c: Calls)
    requires NoFaults(c) && !s.agent.isLeader && (s.agent.last.None? || s.agent.last.value + lease <= c.t1)
    ensures var r := TryAcquireOrRefresh(name, lease, s, c);
      && (r.agent.isLeader <==>
            s.cm.None?
            || (s.cm.value.acquired.Some? && (s.cm.value.acquired.value + lease <= c.t2 || s.cm.value.creator == name)))
      && (r.agent.isLeader ==> r.cm == Some(ConfigMap(name, r.agent.last)) && r.agent.last.Some?)
      && (!r.agent.isLeader ==> r.cm == s.cm)
  {
  }

  /** A leader with a working API server that holds a live lock keeps it, and from 30
      seconds before expiry on renews it. */
  lemma LeaderStays(name: string, lease: int, s: Local, c: Calls)
    requires NoFaults(c) && s.agent.isLeader && s.agent.last.Some? && c.t2 < s.agent.last.value + lease
    requires s.cm == Some(ConfigMap(name, s.agent.last))
    ensures var r := TryAcquireOrRefresh(name, lease, s, c);
      && r.agent.isLeader && r.cm == Some(ConfigMap(name, r.agent.last))
      && r.agent.last == if s.agent.last.value + lease - REFRESH_MARGIN <= c.t1 then Some(c.t3) else s.agent.last
  {
  }

  // ---- what a call does when requests fail ----

  /** The agent goes to the server: a leader from 30 seconds before its lease runs out,
      another one once the lease it last saw has run out. */
  predicate Asks(s: Local, lease: int, now: Time) {
    if s.agent.isLeader then s.agent.last.Some? && s.agent.last.value + lease - 30_000_000 <= now
    else s.agent.last.None? || s.agent.last.value + lease <= now
  }

  /** A lock is there and the GET that fetches it succeeds. */
  predicate Sees(s: Local, c: Calls) {
    c.get == Fine && s.cm.Some?
  }

  /** GET has no response, or the lock it fetches has no acquire time. */
  predicate Unreadable(s: Local, c: Calls) {
    c.get == NoResponse || (Sees(s, c) && s.cm.value.acquired.None?)
  }

  /** The lock that is fetched has not run out. */
  predicate SeesLive(s: Local, lease: int, c: Calls) {
    Sees(s, c) && s.cm.value.acquired.Some? && c.t2 < s.cm.value.acquired.value + lease
  }

  /** Nothing is in the way of a new lock: none was there, or DELETE took the one that had
      run out away, for this agent or before it. */
  predicate Cleared(s: Local, c: Calls) {
    if Sees(s, c) then c.delete.error == Fine || (c.delete.error == NotFound && c.delete.applied) else s.cm.None?
  }

  /** An agent that does not go to the server stays as it is. */
  lemma IdleCallChangesNothing(name: string, lease: int, s: Local, c: Calls)
    requires !Asks(s, lease, c.t1)
    ensures TryAcquireOrRefresh(name, lease, s, c) == s
  {
  }

  /** Whatever else happens, an agent whose look at the lock raises does not lead, learns
      nothing and changes nothing. */
  lemma UnreadableEndsLeadership(name: string, lease: int, s: Local, c: Calls)
    requires Asks(s, lease, c.t1) && Unreadable(s, c)
    ensures TryAcquireOrRefresh(name, lease, s, c) == s.(agent := Agent(false, s.agent.last))
  {
  }

  /** With a live lock only its creator leads, and a leader only if PUT succeeds. The lock
      stays, but for the acquire time that a PUT sets. */
  lemma LiveLockDecides(name: string, lease: int, s: Local, c: Calls)
    requires Asks(s, lease, c.t1) && SeesLive(s, lease, c)
    ensures var r, mine := TryAcquireOrRefresh(name, lease, s, c), s.cm.value.creator == name;
      && (r.agent.isLeader <==> mine && (s.agent.isLeader ==> c.put.error == Fine))
      && r.agent.last == (if s.agent.isLeader && r.agent.isLeader then Some(c.t3) else s.cm.value.acquired)
      && r.cm.Some? && r.cm.value.creator == s.cm.value.creator
      && r.cm.value.acquired == (if s.agent.isLeader && mine && (c.put.applied || c.put.error == Fine) then Some(c.t3)
                                 else s.cm.value.acquired)
  {
  }

  /** Without a live lock an agent leads exactly when the way is clear and POST succeeds.
      A DELETE that fails, but with 404, ends the call before POST; a POST that fails may
      still have made the lock. */
  lemma NewLockDecides(name: string, lease: int, s: Local, c: Calls)
    requires Asks(s, lease, c.t1) && !Unreadable(s, c) && !SeesLive(s, lease, c)
    ensures var r := TryAcquireOrRefresh(name, lease, s, c);
      var stopped := Sees(s, c) && (c.delete.error == Status || c.delete.error == NoResponse);
      && (r.agent.isLeader <==> Cleared(s, c) && c.post.error == Fine)
      && r.agent.last == (if r.agent.isLeader then Some(c.t3)
                          else if Sees(s, c) then s.cm.value.acquired else s.agent.last)
      && r.cm == (if stopped then (if c.delete.applied then None else s.cm)
                  else if Cleared(s, c) then
                    (if c.post.applied || c.post.error == Fine then Some(ConfigMap(name, Some(c.t3))) else None)
                  else s.cm)
  {
  }

  // ---- all agents together ----

  /** Node names are the keys, so they are distinct. */
  datatype System = System(now: Time, cm: Option<ConfigMap>, agents: map<string, Agent>)

  datatype Event = Elapse(now: Time) | Call(name: string, calls: Calls) | Restart(name: string)

  predicate Enabled(s: System, e: Event) {
    match e
    case Elapse(now) => s.now <= now
    case Call(name, c) => name in s.agents && s.now <= c.t1 <= c.t2 <= c.t3
    case Restart(name) => name in s.agents
  }

  /** Time passes, an agent makes a call, or an agent starts anew. */
  function Step(lease: int, s: System, e: Event): System
    requires Enabled(s, e)
  {
    match e
    case Elapse(now) => s.(now := now)
    case Call(name, c) =>
      var r := TryAcquireOrRefresh(name, lease, Local(s.agents[name], s.cm), c);
      System(c.t3, r.cm, s.agents[name := r.agent])
    case Restart(name) => s.(agents := s.agents[name := Agent(false, None)])
  }

  ghost predicate Reaches(lease: int, s: System, events: seq<Event>, r: System)
    decreases |events|
  {
    if events == [] then r == s
    else Enabled(s, events[0]) && Reaches(lease, Step(lease, s, events[0]), events[1..], r)
  }

  /** The agent believes it leads, and its lease has not run out. */
  predicate Leads(s: System, lease: int, name: string) {
    name in s.agents && s.agents[name].isLeader
    && (s.agents[name].last.None? || s.now < s.agents[name].last.value + lease)
  }

  ghost predicate Exclusive(s: System, lease: int) {
    forall name :: Leads(s, lease, name) ==>
      s.agents[name].last.Some? && s.cm == Some(ConfigMap(name, s.agents[name].last))
  }

  lemma StepExclusive(lease: int, s: System, e: Event)
    requires Exclusive(s, lease) && Enabled(s, e)
    ensures Exclusive(Step(lease, s, e), lease)
  {
    var r := Step(lease, s, e);
    forall name | Leads(r, lease, name)
      ensures r.agents[name].last.Some? && r.cm == Some(ConfigMap(name, r.agents[name].last))
    {
      match e
      case Elapse(now) => assert Leads(s, lease, name);
      case Restart(other) => assert Leads(s, lease, name);
      case Call(other, c) =>
        CallKeeps(lease, s, other, c, name);
    }
  }

  /** A call by one agent: it leads afterwards only if the ConfigMap says so, and a live
      lock of another agent is left as it is. */
  lemma CallKeeps(lease: int, s: System, caller: string, c: Calls, name: string)
    requires Exclusive(s, lease) && Enabled(s, Call(caller, c))
    requires Leads(Step(lease, s, Call(caller, c)), lease, name)
    ensures var r := Step(lease, s, Call(caller, c));
      r.agents[name].last.Some? && r.cm == Some(ConfigMap(name, r.agents[name].last))
  {
    var r := Step(lease, s, Call(caller, c));
    assert Leads(s, lease, caller) || !s.agents[caller].isLeader || s.agents[caller].last.Some?;
    if name != caller {
      assert r.agents[name] == s.agents[name];
      assert Leads(s, lease, name);
    }
  }

  lemma {:induction false} RunsExclusive(lease: int, s: System, events: seq<Event>, r: System)
    requires Exclusive(s, lease) && Reaches(lease, s, events, r)
    ensures Exclusive(r, lease)
    decreases |events|
  {
    if events != [] {
      StepExclusive(lease, s, events[0]);
      RunsExclusive(lease, Step(lease, s, events[0]), events[1..], r);
    }
  }

  /** Agents that have just started, with any ConfigMap in place. */
  predicate Fresh(s: System) {
    forall name :: name in s.agents ==> s.agents[name] == Agent(false, None)
  }

  /** Whatever fails and however the calls interleave, a leader within its lease is the
      creator recorded in the ConfigMap, with exactly that acquire time; so there is at
      most one. */
  lemma LeaseExclusion(lease: int, s: System, events: seq<Event>, r: System, a: string, b: string)
    requires Fresh(s) && Reaches(lease, s, events, r)
    requires Leads(r, lease, a) && Leads(r, lease, b)
    ensures r.cm == Some(ConfigMap(a, r.agents[a].last)) && r.agents[a].last.Some?
    ensures a == b
  {
    RunsExclusive(lease, s, events, r);
  }

  /** The branch that would replace a lock without an acquire time is never taken:
      fetching such a lock raises first, so it stays and nobody ever leads. */
  lemma {:induction false} MalformedLockStays(lease: int, s: System, events: seq<Event>, r: System)
    requires s.cm.Some? && s.cm.value.acquired.None?
    requires (forall name :: name in s.agents ==> !s.agents[name].isLeader) && Reaches(lease, s, events, r)
    ensures r.cm == s.cm
    ensures forall name :: name in r.agents ==> !r.agents[name].isLeader
    decreases |events|
  {
    if events != [] {
      MalformedLockStays(lease, Step(lease, s, events[0]), events[1..], r);
    }
  }

  /** The flag alone is not exclusive: a leader that makes no call after its lease ran
      out still has it set when the next one takes over. The lease here is five minutes. */
  lemma FlagIsNotExclusive()
    ensures exists s, events, r :: Fresh(s) && Reaches(300_000_000, s, events, r)
              && "a" in r.agents && "b" in r.agents && r.agents["a"].isLeader && r.agents["b"].isLeader
  {
    var newcomer := Agent(false, None);
    var lease := 300_000_000;
    var s := System(0, None, map["a" := newcomer, "b" := newcomer]);
    var ok := Reply(true, Fine);
    var call := (t: Time) => Calls(Fine, ok, ok, ok, t, t, t);
    var first := Call("a", call(1));
    var second := Call("b", call(400_000_000));
    var s1 := Step(lease, s, first);
    assert s1 == System(1, Some(ConfigMap("a", Some(1))), map["a" := Agent(true, Some(1)), "b" := newcomer]);
    var s2 := Step(lease, s1, second);
    assert s2.agents["b"] == Agent(true, Some(400_000_000));
    assert Reaches(lease, s2, [], s2);
    assert [first, second][1..] == [second] && [second][1..] == [];
    assert Reaches(lease, s1, [second], s2);
    assert Reaches(lease, s, [first, second], s2);
  }

  // ---- when the flag alone is exclusive ----

  /** While one agent has the flag and the lock, another that looks for the lock gets the
      flag too exactly when the lease has run out. */
  lemma FlagIsSharedExactly(lease: int, s: System, a: string, b: string, c: Calls)
    requires a in s.agents && s.agents[a].isLeader && s.agents[a].last.Some?
             && s.cm == Some(ConfigMap(a, s.agents[a].last))
    requires b != a && Enabled(s, Call(b, c)) && NoFaults(c)
    requires !s.agents[b].isLeader && (s.agents[b].last.None? || s.agents[b].last.value + lease <= c.t1)
    ensures var r := Step(lease, s, Call(b, c));
      r.agents[a].isLeader && r.agents[b].isLeader <==> s.agents[a].last.value + lease <= c.t2
  {
    AcquiresExactly(b, lease, Local(s.agents[b], s.cm), c);
  }

  /** Nothing but an agent's own call lets its lease run out while it has the flag. */
  ghost predicate Punctual(lease: int, s: System, e: Event)
    requires Enabled(s, e)
  {
    forall name ::
      name in s.agents && s.agents[name].isLeader && s.agents[name].last.Some? && !(e.Call? && e.name == name) ==>
      Step(lease, s, e).now < s.agents[name].last.value + lease
  }

  ghost predicate PunctualRun(lease: int, s: System, events: seq<Event>)
    decreases |events|
  {
    events != [] ==>
      Enabled(s, events[0]) && Punctual(lease, s, events[0])
        && PunctualRun(lease, Step(lease, s, events[0]), events[1..])
  }

  /** Whoever has the flag is the creator recorded in the ConfigMap. */
  ghost predicate Recorded(s: System) {
    forall name :: name in s.agents && s.agents[name].isLeader ==>
      s.agents[name].last.Some? && s.cm == Some(ConfigMap(name, s.agents[name].last))
  }

  lemma CallRecords(lease: int, s: System, caller: string, c: Calls, name: string)
    requires Recorded(s) && Enabled(s, Call(caller, c)) && Punctual(lease, s, Call(caller, c)) && name in s.agents
    requires Step(lease, s, Call(caller, c)).agents[name].isLeader
    ensures var r := Step(lease, s, Call(caller, c));
      r.agents[name].last.Some? && r.cm == Some(ConfigMap(name, r.agents[name].last))
  {
    var r := Step(lease, s, Call(caller, c));
    if name != caller {
      assert s.agents[name].isLeader && r.now == c.t3 < s.agents[name].last.value + lease;
    }
  }

  lemma {:induction false} RunRecords(lease: int, s: System, events: seq<Event>, r: System)
    requires Recorded(s) && Reaches(lease, s, events, r) && PunctualRun(lease, s, events)
    ensures Recorded(r)
    decreases |events|
  {
    if events != [] {
      var e, next := events[0], Step(lease, s, events[0]);
      forall name | name in next.agents && next.agents[name].isLeader
        ensures next.agents[name].last.Some? && next.cm == Some(ConfigMap(name, next.agents[name].last))
      {
        if e.Call? {
          CallRecords(lease, s, e.name, e.calls, name);
        }
      }
      RunRecords(lease, next, events[1..], r);
    }
  }

  /** When leaders call often enough that no lease runs out but in its holder's own call,
      as they are required to, the flag is exclusive, whatever requests fail. */
  lemma FlagIsExclusiveWhenPunctual(lease: int, s: System, events: seq<Event>, r: System, a: string, b: string)
    requires Fresh(s) && Reaches(lease, s, events, r) && PunctualRun(lease, s, events)
    requires a in r.agents && r.agents[a].isLeader && b in r.agents && r.agents[b].isLeader
    ensures r.cm == Some(ConfigMap(a, r.agents[a].last)) && a == b
  {
    RunRecords(lease, s, events, r);
  }
}
