/** Which services point to which pods (utils/kubernetes/pod_service_mapper.py): a cache
    of service selectors, one of pod labels and one of the matches, edited by events. */
module PodServiceMapping {
  import opened Wrappers
  import opened Seqs

  type Uid = string
  type Labels = map<string, string>

  const MAX_403_RETRIES := 4

  datatype Service = Service(uid: Uid, name: string, selector: Labels)

  /** The API server's answer to a request for the list of services. */
  datatype Reply = Items(services: seq<Service>) | Forbidden | Failed

  datatype Reason = Deleted | CreatedOrUpdated | OtherReason

  datatype Event = PodKilled(pod: Uid) | ServiceEvent(service: Uid, reason: Reason) | Unrelated

  /** `requests` counts the requests made; the agent does not keep it. */
  datatype Mapper = Mapper(selectors: map<Uid, Labels>, names: map<Uid, string>, invalidated: bool,
                           labels: map<Uid, Labels>, mapping: map<Uid, seq<Uid>>,
                           errors: nat, disabled: bool, requests: nat)

  const Empty := Mapper(map[], map[], true, map[], map[], 0, false, 0)

  /** A missing label counts as an empty one. */
  predicate Fulfills(labels: Labels, selector: Labels) {
    labels != map[] && selector != map[]
    && forall l :: l in selector ==> (if l in labels then labels[l] else "") == selector[l]
  }

  predicate Usable(service: Service) {
    service.uid != "" && service.selector != map[]
  }

  function Selectors(services: seq<Service>): map<Uid, Labels> {
    if services == [] then map[]
    else
      var s := services[|services| - 1];
      var before := Selectors(services[..|services| - 1]);
      if Usable(s) then before[s.uid := s.selector] else before
  }

  function Names(services: seq<Service>): map<Uid, string> {
    if services == [] then map[]
    else
      var s := services[|services| - 1];
      var before := Names(services[..|services| - 1]);
      if Usable(s) then before[s.uid := s.name] else before
  }

  /** A failed request leaves an empty cache that counts as valid; after the fourth
      refusal no more are made. */
  function Fill(m: Mapper, reply: Reply): Mapper {
    if m.disabled then m
    else
      var asked := m.(invalidated := false, requests := m.requests + 1);
      match reply
      case Items(services) => asked.(selectors := Selectors(services), names := Names(services))
      case Failed => asked.(selectors := map[], names := map[])
      case Forbidden =>
        asked.(selectors := map[], names := map[], errors := m.errors + 1, disabled := m.errors + 1 == MAX_403_RETRIES)
  }

  function Filled(m: Mapper, reply: Reply): Mapper {
    if m.invalidated then Fill(m, reply) else m
  }

  // ---- matching ----

  /** The matches of a pod, in whatever order the dictionary has the services. */
  ghost predicate Matches(m: Mapper, labels: Labels, matches: seq<Uid>) {
    NoDup(matches) && forall s :: s in matches <==> s in m.selectors && Fulfills(labels, m.selectors[s])
  }

  function WithLabels(m: Mapper, pod: Uid, labels: Labels): Mapper {
    m.(labels := m.labels[pod := labels])
  }

  predicate Cached(m: Mapper, pod: Uid, refresh: bool) {
    !refresh && pod in m.mapping
  }

  /** What the matching of a pod works on. */
  function Matched(m: Mapper, pod: Uid, labels: Labels, refresh: bool, reply: Reply): Mapper {
    if m.disabled then m
    else if Cached(m, pod, refresh) then WithLabels(m, pod, labels)
    else Filled(WithLabels(m, pod, labels), reply)
  }

  /** What matching a pod may answer. */
  ghost predicate MayAnswer(m: Mapper, pod: Uid, labels: Labels, refresh: bool, reply: Reply, matches: seq<Uid>) {
    if m.disabled then matches == []
    else if Cached(m, pod, refresh) then matches == m.mapping[pod]
    else Matches(Matched(m, pod, labels, refresh, reply), labels, matches)
  }

  function AfterMatch(m: Mapper, pod: Uid, labels: Labels, refresh: bool, reply: Reply, matches: seq<Uid>): Mapper {
    var r := Matched(m, pod, labels, refresh, reply);
    if m.disabled || Cached(m, pod, refresh) then r else r.(mapping := r.mapping[pod := matches])
  }

  /** The pods that match a service, by the labels last seen. */
  function Search(m: Mapper, service: Uid): set<Uid> {
    if m.disabled || service !in m.selectors then {}
    else set p | p in m.labels && Fulfills(m.labels[p], m.selectors[service])
  }

  // ---- events ----

  function Without<T>(m: map<Uid, T>, k: Uid): map<Uid, T> {
    map p | p in m && p != k :: m[p]
  }

  function Lacking(m: Mapper, service: Uid): set<Uid> {
    set p | p in Search(m, service) && p in m.mapping && service !in m.mapping[p]
  }

  function Listing(m: Mapper, service: Uid): set<Uid> {
    set p | p in m.mapping && service in m.mapping[p]
  }

  function Invalidated(m: Mapper, checked: bool): Mapper {
    if checked then m else m.(invalidated := true)
  }

  /** What a search works on: a disabled mapper asks for nothing. */
  function Searched(m: Mapper, reply: Reply): Mapper {
    if m.disabled then m else Filled(m, reply)
  }

  function Append(m: Mapper, pods: set<Uid>, service: Uid): Mapper {
    m.(mapping := map p | p in m.mapping :: if p in pods then m.mapping[p] + [service] else m.mapping[p])
  }

  function Remove(m: Mapper, pods: set<Uid>, service: Uid): Mapper {
    m.(mapping := map p | p in m.mapping :: if p in pods then RemoveFirst(m.mapping[p], service) else m.mapping[p])
  }

  /** One event: the mapper and the pods a service event edited. `checked` says whether
      an earlier event of the batch already invalidated the service cache. */
  function Apply(m: Mapper, e: Event, checked: bool, reply: Reply): (Mapper, set<Uid>) {
    match e
    case Unrelated => (m, {})
    case PodKilled(pod) => (m.(labels := Without(m.labels, pod), mapping := Without(m.mapping, pod)), {})
    case ServiceEvent(s, reason) =>
      var m1 := Invalidated(m, checked);
      match reason
      case OtherReason => (m1, {})
      case Deleted => (Remove(m1, Listing(m1, s), s), Listing(m1, s))
      case CreatedOrUpdated =>
        var m2 := Searched(m1, reply);
        (Append(m2, Lacking(m2, s), s), Lacking(m2, s))
  }

  predicate Checks(events: seq<Event>) {
    exists i :: 0 <= i < |events| && events[i].ServiceEvent?
  }

  function ApplyAll(m: Mapper, events: seq<Event>, reply: Reply): (Mapper, set<Uid>) {
    if events == [] then (m, {})
    else
      var front := events[..|events| - 1];
      var (before, pods) := ApplyAll(m, front, reply);
      var (after, more) := Apply(before, events[|events| - 1], Checks(front), reply);
      (after, pods + more)
  }

  function Process(m: Mapper, events: seq<Event>, reply: Reply): (Mapper, set<Uid>) {
    if m.disabled then (m, {}) else ApplyAll(m, events, reply)
  }

  // ---- the object ----

  class PodServiceMapper {
    var serviceCacheSelectors: map<Uid, Labels>
    var serviceCacheNames: map<Uid, string>
    var serviceCacheInvalidated: bool
    var podLabelsCache: map<Uid, Labels>
    var podServicesMapping: map<Uid, seq<Uid>>
    var errors403: nat
    var disable403: bool
    ghost var requests: nat

    constructor ()
      ensures State() == Empty
    {
      serviceCacheSelectors, serviceCacheNames, serviceCacheInvalidated := map[], map[], true;
      podLabelsCache, podServicesMapping := map[], map[];
      errors403, disable403, requests := 0, false, 0;
    }

    ghost function State(): Mapper
      reads this
    {
      Mapper(serviceCacheSelectors, serviceCacheNames, serviceCacheInvalidated, podLabelsCache, podServicesMapping,
             errors403, disable403, requests)
    }

    method FillServicesCache(reply: Reply)
      modifies this
      ensures State() == Fill(old(State()), reply)
    {
      if disable403 {
        return;
      }
      requests := requests + 1;
      serviceCacheSelectors, serviceCacheNames := map[], map[];
      match reply {
        case Items(services) =>
          for i := 0 to |services|
            invariant serviceCacheSelectors == Selectors(services[..i]) && serviceCacheNames == Names(services[..i])
            invariant State() == old(State()).(requests := old(requests) + 1, selectors := serviceCacheSelectors,
                                               names := serviceCacheNames)
          {
            var s := services[i];
            assert services[..i + 1][..i] == services[..i];
            if s.uid == "" || |s.selector| == 0 {
              continue;
            }
            serviceCacheNames := serviceCacheNames[s.uid := s.name];
            serviceCacheSelectors := serviceCacheSelectors[s.uid := s.selector];
          }
          assert services[..|services|] == services;
        case Forbidden =>
          errors403 := errors403 + 1;
          if errors403 == MAX_403_RETRIES {
            disable403 := true;
          }
        case Failed =>
      }
      serviceCacheInvalidated := false;
    }

    method MatchServicesForPod(pod: Uid, labels: Labels, refresh: bool, reply: Reply) returns (matches: seq<Uid>)
      modifies this
      ensures MayAnswer(old(State()), pod, labels, refresh, reply, matches)
      ensures State() == AfterMatch(old(State()), pod, labels, refresh, reply, matches)
    {
      matches := [];
      if disable403 {
        return;
      }
      podLabelsCache := podLabelsCache[pod := labels];
      if !refresh && pod in podServicesMapping {
        matches := podServicesMapping[pod];
        return;
      }
      if serviceCacheInvalidated {
        FillServicesCache(reply);
      }
      matches := MatchSelectors(labels);
      podServicesMapping := podServicesMapping[pod := matches];
    }

    method MatchSelectors(labels: Labels) returns (matches: seq<Uid>)
      ensures Matches(State(), labels, matches)
    {
      matches := [];
      var todo := serviceCacheSelectors.Keys;
      while todo != {}
        invariant todo <= serviceCacheSelectors.Keys && NoDup(matches)
        invariant forall s :: s in matches <==>
                    s in serviceCacheSelectors && s !in todo && Fulfills(labels, serviceCacheSelectors[s])
      {
        var s :| s in todo;
        todo := todo - {s};
        var fulfills := DoesPodFulfillSelectors(labels, serviceCacheSelectors[s]);
        if fulfills {
          matches := matches + [s];
        }
      }
    }

    method DoesPodFulfillSelectors(labels: Labels, selector: Labels) returns (fulfills: bool)
      ensures fulfills == Fulfills(labels, selector)
    {
      if |labels| == 0 || |selector| == 0 {
        return false;
      }
      var todo := selector.Keys;
      while todo != {}
        invariant todo <= selector.Keys
        invariant forall l :: l in selector && l !in todo ==> (if l in labels then labels[l] else "") == selector[l]
      {
        var l :| l in todo;
        todo := todo - {l};
        var value := if l in labels then labels[l] else "";
        if value != selector[l] {
          return false;
        }
      }
      fulfills := true;
    }

    method SearchPodsForService(service: Uid, reply: Reply) returns (matches: seq<Uid>)
      modifies this
      ensures State() == Searched(old(State()), reply)
      ensures NoDup(matches) && Elems(matches) == Search(State(), service)
    {
      matches := [];
      if disable403 {
        return;
      }
      if serviceCacheInvalidated {
        FillServicesCache(reply);
      }
      if service !in serviceCacheSelectors {
        return;
      }
      matches := MatchLabels(serviceCacheSelectors[service]);
      assert disable403 ==> serviceCacheSelectors == map[];
    }

    method MatchLabels(selector: Labels) returns (matches: seq<Uid>)
      ensures NoDup(matches)
      ensures forall p :: p in matches <==> p in podLabelsCache && Fulfills(podLabelsCache[p], selector)
    {
      matches := [];
      var todo := podLabelsCache.Keys;
      while todo != {}
        invariant todo <= podLabelsCache.Keys && NoDup(matches)
        invariant forall p :: p in matches <==>
                    p in podLabelsCache && p !in todo && Fulfills(podLabelsCache[p], selector)
      {
        var p :| p in todo;
        todo := todo - {p};
        var fulfills := DoesPodFulfillSelectors(podLabelsCache[p], selector);
        if fulfills {
          matches := matches + [p];
        }
      }
    }

    method DropService(service: Uid) returns (pods: set<Uid>)
      modifies `podServicesMapping
      ensures pods == Listing(old(State()), service) && State() == Remove(old(State()), pods, service)
    {
      pods := {};
      var todo := podServicesMapping.Keys;
      ghost var before := State();
      while todo != {}
        invariant todo <= before.mapping.Keys && podServicesMapping.Keys == before.mapping.Keys
        invariant forall p :: p in todo ==> podServicesMapping[p] == before.mapping[p]
        invariant forall p :: p in pods <==> p in before.mapping && p !in todo && service in before.mapping[p]
        invariant podServicesMapping == Remove(before, pods, service).mapping
      {
        var p :| p in todo;
        todo := todo - {p};
        RemoveOneMore(before, pods, service, p);
        if service in podServicesMapping[p] {
          podServicesMapping := podServicesMapping[p := RemoveFirst(podServicesMapping[p], service)];
          pods := pods + {p};
        }
      }
    }

    method AddService(service: Uid, reply: Reply) returns (pods: set<Uid>)
      modifies this
      ensures var m := Searched(old(State()), reply);
        pods == Lacking(m, service) && State() == Append(m, pods, service)
    {
      var found := SearchPodsForService(service, reply);
      pods := {};
      ghost var before := State();
      for i := 0 to |found|
        invariant State() == before.(mapping := podServicesMapping)
        invariant podServicesMapping == Append(before, pods, service).mapping
        invariant forall p :: p in pods <==> p in found[..i] && p in before.mapping && service !in before.mapping[p]
      {
        var p := found[i];
        assert p !in found[..i];
        if p in podServicesMapping && service !in podServicesMapping[p] {
          podServicesMapping := podServicesMapping[p := podServicesMapping[p] + [service]];
          pods := pods + {p};
        }
      }
      assert forall p :: p in found[..|found|] <==> p in Elems(found);
    }

    method ProcessEvents(events: seq<Event>, reply: Reply) returns (pods: set<Uid>)
      modifies this
      ensures (State(), pods) == Process(old(State()), events, reply)
    {
      pods := {};
      if disable403 {
        return;
      }
      var checked := false;
      for i := 0 to |events|
        invariant checked == Checks(events[..i])
        invariant (State(), pods) == ApplyAll(old(State()), events[..i], reply)
      {
        assert events[..i + 1][..i] == events[..i];
        ChecksNext(events, i);
        assert pods + {} == pods;
        match events[i] {
          case Unrelated =>
          case PodKilled(pod) =>
            podLabelsCache := Without(podLabelsCache, pod);
            podServicesMapping := Without(podServicesMapping, pod);
          case ServiceEvent(service, reason) =>
            if !checked {
              serviceCacheInvalidated := true;
              checked := true;
            }
            if reason == Deleted {
              var edited := DropService(service);
              pods := pods + edited;
            } else if reason == CreatedOrUpdated {
              var edited := AddService(service, reply);
              pods := pods + edited;
            }
        }
      }
      assert events[..|events|] == events;
    }
  }

  lemma RemoveOneMore(m: Mapper, pods: set<Uid>, service: Uid, p: Uid)
    requires p in m.mapping && p !in pods
    ensures Remove(m, pods + {p}, service).mapping
         == Remove(m, pods, service).mapping[p := RemoveFirst(m.mapping[p], service)]
  {
  }

  lemma ChecksNext(events: seq<Event>, i: nat)
    requires i < |events|
    ensures Checks(events[..i + 1]) <==> Checks(events[..i]) || events[i].ServiceEvent?
  {
    if Checks(events[..i]) {
      var k :| 0 <= k < i && events[..i][k].ServiceEvent?;
      assert events[..i + 1][k].ServiceEvent?;
    }
    if events[i].ServiceEvent? {
      assert events[..i + 1][i].ServiceEvent?;
    }
  }

  // ---- every run ----

  datatype Op =
    | Match(pod: Uid, labels: Labels, refresh: bool, reply: Reply, matches: seq<Uid>)
    | Find(service: Uid, reply: Reply)
    | Batch(events: seq<Event>, reply: Reply)

  ghost predicate Enabled(m: Mapper, op: Op) {
    op.Match? ==> MayAnswer(m, op.pod, op.labels, op.refresh, op.reply, op.matches)
  }

  function Next(m: Mapper, op: Op): Mapper {
    match op
    case Match(pod, labels, refresh, reply, matches) => AfterMatch(m, pod, labels, refresh, reply, matches)
    case Find(_, reply) => Searched(m, reply)
    case Batch(events, reply) => Process(m, events, reply).0
  }

  ghost predicate Reaches(m: Mapper, ops: seq<Op>, r: Mapper)
    decreases |ops|
  {
    if ops == [] then r == m else Enabled(m, ops[0]) && Reaches(Next(m, ops[0]), ops[1..], r)
  }

  /** Mapped pods have their labels cached and list no service twice. */
  ghost predicate Mapped(m: Mapper) {
    forall p :: p in m.mapping ==> p in m.labels && NoDup(m.mapping[p])
  }

  /** Cached services have a selector and a name; a disabled mapper has none. */
  ghost predicate Served(m: Mapper) {
    && m.selectors.Keys == m.names.Keys
    && (forall s :: s in m.selectors ==> s != "" && m.selectors[s] != map[])
    && m.errors <= MAX_403_RETRIES && m.errors <= m.requests
    && (m.disabled <==> m.errors == MAX_403_RETRIES) && (m.disabled ==> m.selectors == map[])
  }

  ghost predicate Inv(m: Mapper) {
    Mapped(m) && Served(m)
  }

  /** Services `i` on are no later version of the same usable service. */
  predicate LastOf(services: seq<Service>, i: nat) {
    i < |services| && services[i].uid != "" && services[i].selector != map[]
    && forall j :: i < j < |services| && services[j].selector != map[] ==> services[j].uid != services[i].uid
  }

  ghost predicate HoldsLast(services: seq<Service>, service: Service) {
    exists i :: 0 <= i < |services| && LastOf(services, i) && services[i] == service
  }

  lemma {:induction false} UsableIsCached(services: seq<Service>, i: nat)
    requires i < |services| && services[i].uid != "" && services[i].selector != map[]
    ensures services[i].uid in Selectors(services) && services[i].uid in Names(services)
  {
    if i < |services| - 1 {
      UsableIsCached(services[..|services| - 1], i);
    }
  }

  lemma StillLast(services: seq<Service>, i: nat)
    requires i < |services| - 1 && LastOf(services[..|services| - 1], i)
    requires services[|services| - 1].selector != map[] ==> services[|services| - 1].uid != services[i].uid
    ensures LastOf(services, i)
  {
    var front := services[..|services| - 1];
    forall j | i < j < |services| && services[j].selector != map[] ensures services[j].uid != services[i].uid {
      if j < |front| {
        assert front[j] == services[j];
      }
    }
  }

  /** The cache holds the selector and the name of the last usable service of each uid. */
  lemma {:induction false} CacheHoldsLast(services: seq<Service>, s: Uid)
    requires s in Selectors(services) || s in Names(services)
    ensures s in Selectors(services) && s in Names(services)
    ensures HoldsLast(services, Service(s, Names(services)[s], Selectors(services)[s]))
  {
    var n := |services| - 1;
    var front, last := services[..n], services[n];
    if Usable(last) && last.uid == s {
      assert LastOf(services, n);
    } else {
      CacheHoldsLast(front, s);
      var i :| 0 <= i < |front| && LastOf(front, i) && front[i] == Service(s, Names(front)[s], Selectors(front)[s]);
      StillLast(services, i);
      assert services[i] == front[i];
    }
  }

  lemma FillInv(m: Mapper, reply: Reply)
    requires Inv(m)
    ensures Inv(Fill(m, reply))
  {
    if reply.Items? {
      forall s | s in Selectors(reply.services) || s in Names(reply.services)
        ensures s in Selectors(reply.services) && s in Names(reply.services) && s != ""
                && Selectors(reply.services)[s] != map[]
      {
        CacheHoldsLast(reply.services, s);
      }
    }
  }

  lemma RemoveMapped(m: Mapper, pods: set<Uid>, service: Uid)
    requires Mapped(m)
    ensures Mapped(Remove(m, pods, service))
  {
    forall p | p in m.mapping ensures NoDup(RemoveFirst(m.mapping[p], service)) {
      RemoveFirstNoDup(m.mapping[p], service);
    }
  }

  lemma AppendMapped(m: Mapper, pods: set<Uid>, service: Uid)
    requires Mapped(m) && pods <= Lacking(m, service)
    ensures Mapped(Append(m, pods, service))
  {
  }

  lemma UpdateInv(m: Mapper, service: Uid, reply: Reply)
    requires Inv(m)
    ensures var m2 := Searched(m, reply); Inv(Append(m2, Lacking(m2, service), service))
  {
    FillInv(m, reply);
    var m2 := Searched(m, reply);
    AppendMapped(m2, Lacking(m2, service), service);
  }

  lemma ApplyInv(m: Mapper, e: Event, checked: bool, reply: Reply)
    requires Inv(m)
    ensures Inv(Apply(m, e, checked, reply).0)
  {
    if e.ServiceEvent? {
      var m1 := Invalidated(m, checked);
      if e.reason == Deleted {
        RemoveMapped(m1, Listing(m1, e.service), e.service);
      } else if e.reason == CreatedOrUpdated {
        UpdateInv(m1, e.service, reply);
      }
    }
  }

  lemma {:induction false} ApplyAllInv(m: Mapper, events: seq<Event>, reply: Reply)
    requires Inv(m)
    ensures Inv(ApplyAll(m, events, reply).0)
  {
    if events != [] {
      var front := events[..|events| - 1];
      ApplyAllInv(m, front, reply);
      ApplyInv(ApplyAll(m, front, reply).0, events[|events| - 1], Checks(front), reply);
    }
  }

  lemma MatchedInv(m: Mapper, pod: Uid, labels: Labels, refresh: bool, reply: Reply)
    requires Inv(m)
    ensures var r := Matched(m, pod, labels, refresh, reply); Inv(r) && (!m.disabled ==> pod in r.labels)
  {
    FillInv(WithLabels(m, pod, labels), reply);
  }

  lemma MatchInv(m: Mapper, pod: Uid, labels: Labels, refresh: bool, reply: Reply, matches: seq<Uid>)
    requires Inv(m) && MayAnswer(m, pod, labels, refresh, reply, matches)
    ensures Inv(AfterMatch(m, pod, labels, refresh, reply, matches))
  {
    MatchedInv(m, pod, labels, refresh, reply);
  }

  lemma NextInv(m: Mapper, op: Op)
    requires Inv(m) && Enabled(m, op)
    ensures Inv(Next(m, op))
  {
    match op
    case Match(pod, labels, refresh, reply, matches) => MatchInv(m, pod, labels, refresh, reply, matches);
    case Find(_, reply) => FillInv(m, reply);
    case Batch(events, reply) => ApplyAllInv(m, events, reply);
  }

  lemma {:induction false} RunInv(m: Mapper, ops: seq<Op>, r: Mapper)
    requires Inv(m) && Reaches(m, ops, r)
    ensures Inv(r)
    decreases |ops|
  {
    if ops != [] {
      NextInv(m, ops[0]);
      RunInv(Next(m, ops[0]), ops[1..], r);
    }
  }

  /** So it is in every run of a new mapper. */
  lemma EveryRunKeepsInv(ops: seq<Op>, r: Mapper)
    requires Reaches(Empty, ops, r)
    ensures Inv(r)
  {
    RunInv(Empty, ops, r);
  }

  /** After the fourth refusal nothing ever changes, nor is anything asked again. */
  lemma {:induction false} DisabledForGood(m: Mapper, ops: seq<Op>, r: Mapper)
    requires m.disabled && Reaches(m, ops, r)
    ensures r == m
    decreases |ops|
  {
    if ops != [] {
      DisabledForGood(Next(m, ops[0]), ops[1..], r);
    }
  }

  // ---- what it is to match ----

  /** Two selectors that do not contradict each other are matched together exactly when
      each is. */
  lemma MatchesUnion(labels: Labels, s: Labels, t: Labels)
    requires s != map[] && t != map[] && forall l :: l in s && l in t ==> s[l] == t[l]
    ensures Fulfills(labels, s + t) <==> Fulfills(labels, s) && Fulfills(labels, t)
  {
    assert (s + t).Keys == s.Keys + t.Keys;
    if Fulfills(labels, s + t) {
      forall l | l in s ensures (if l in labels then labels[l] else "") == s[l] {
        assert l in s + t && (s + t)[l] == s[l];
      }
      forall l | l in t ensures (if l in labels then labels[l] else "") == t[l] {
        assert l in s + t && (s + t)[l] == t[l];
      }
    }
    assert s.Keys != {};
    assert s + t != map[];
  }

  /** One label asked for is matched by a pod that has labels, and this one with this
      value, or not at all when the value is empty. */
  lemma MatchesOne(labels: Labels, l: string, value: string)
    ensures Fulfills(labels, map[l := value]) <==>
              labels != map[] && ((l in labels && labels[l] == value) || (l !in labels && value == ""))
  {
    assert l in map[l := value];
  }

  /** Without labels, or without a selector, nothing matches. */
  lemma EmptyNeverMatches(labels: Labels)
    ensures !Fulfills(map[], labels) && !Fulfills(labels, map[])
  {
  }

  /** Labels that are not asked for make no difference to a pod that has some. */
  lemma OtherLabelsDoNotMatter(labels: Labels, others: Labels, selector: Labels)
    requires labels != map[] && others != map[]
    requires forall l :: l in selector ==> (l in labels <==> l in others) && (l in labels ==> labels[l] == others[l])
    ensures Fulfills(labels, selector) <==> Fulfills(others, selector)
  {
  }

  // ---- what the operations say about each other ----

  /** A service is among a pod's refreshed matches exactly when the pod is among those
      then found for the service, whatever the API server answered. */
  lemma MatchingIsDual(m: Mapper, pod: Uid, labels: Labels, reply: Reply, matches: seq<Uid>, service: Uid)
    requires MayAnswer(m, pod, labels, true, reply, matches)
    ensures var r := AfterMatch(m, pod, labels, true, reply, matches);
      (service in matches <==> pod in Search(r, service)) && (!m.disabled ==> r.mapping[pod] == matches)
  {
    var r := AfterMatch(m, pod, labels, true, reply, matches);
    if !m.disabled {
      var worked := Matched(m, pod, labels, true, reply);
      assert worked.labels == m.labels[pod := labels];
      assert worked.disabled && service in worked.selectors ==> m.disabled || !m.invalidated;
      assert service in matches <==> service in worked.selectors && Fulfills(labels, worked.selectors[service]);
    }
  }

  /** A pod is found by the labels it was last matched with, whether the answer was looked
      up or not. */
  lemma FoundByLastLabels(m: Mapper, pod: Uid, labels: Labels, refresh: bool, reply: Reply, matches: seq<Uid>,
                          service: Uid)
    requires MayAnswer(m, pod, labels, refresh, reply, matches) && !m.disabled
    ensures var r := AfterMatch(m, pod, labels, refresh, reply, matches);
      pod in Search(r, service) <==>
        !r.disabled && service in r.selectors && Fulfills(labels, r.selectors[service])
  {
  }

  ghost predicate Edited(a: Mapper, b: Mapper, p: Uid) {
    p in a.mapping && p in b.mapping && a.mapping[p] != b.mapping[p]
  }

  lemma ApplyEdits(m: Mapper, e: Event, checked: bool, reply: Reply, p: Uid)
    ensures var (r, pods) := Apply(m, e, checked, reply); p in pods <==> Edited(m, r, p)
  {
    if e.ServiceEvent? && p in m.mapping {
      if e.reason == Deleted {
        RemoveFirstElems(m.mapping[p], e.service);
      } else {
        assert |m.mapping[p] + [e.service]| > |m.mapping[p]|;
      }
    }
  }

  /** Some event of the batch edited the pod's list. */
  ghost predicate EverEdited(m: Mapper, events: seq<Event>, reply: Reply, p: Uid) {
    events != []
    && var front := events[..|events| - 1];
      EverEdited(m, front, reply, p) || Edited(ApplyAll(m, front, reply).0, ApplyAll(m, events, reply).0, p)
  }

  /** A batch returns exactly the pods whose list some event of it edited. */
  lemma {:induction false} ReturnsEditedPods(m: Mapper, events: seq<Event>, reply: Reply, p: Uid)
    requires !m.disabled
    ensures p in Process(m, events, reply).1 <==> EverEdited(m, events, reply, p)
  {
    if events != [] {
      var front := events[..|events| - 1];
      ReturnsEditedPods(m, front, reply, p);
      ApplyEdits(ApplyAll(m, front, reply).0, events[|events| - 1], Checks(front), reply, p);
    }
  }

  /** After a created or updated event a mapped pod lists the service exactly when it
      matches now or listed it before: every match is there, and so is a stale one. */
  lemma UpdatedServiceIsListed(m: Mapper, service: Uid, checked: bool, reply: Reply, p: Uid)
    requires p in m.mapping
    ensures var r := Apply(m, ServiceEvent(service, CreatedOrUpdated), checked, reply).0;
      && p in r.mapping && r.labels == m.labels
      && (service in r.mapping[p] <==> service in m.mapping[p] || p in Search(r, service))
      && forall s :: s != service ==> (s in r.mapping[p] <==> s in m.mapping[p])
  {
  }

  lemma SelectorsOfOne(service: Service)
    requires Usable(service)
    ensures Selectors([service]) == map[service.uid := service.selector]
    ensures Names([service]) == map[service.uid := service.name]
  {
    assert [service][..0] == [];
  }

  lemma ApplyAllOne(m: Mapper, e: Event, reply: Reply)
    ensures ApplyAll(m, [e], reply).0 == Apply(m, e, false, reply).0
  {
    assert [e][..0] == [] && !Checks([]);
    assert ApplyAll(m, [], reply) == (m, {});
  }

  lemma StaleMatch(reply: Reply, labels: Labels, selector: Labels)
    requires reply == Items([Service("s", "", selector)]) && Fulfills(labels, selector)
    ensures MayAnswer(Empty, "p", labels, false, reply, ["s"])
    ensures var m := AfterMatch(Empty, "p", labels, false, reply, ["s"]);
      !m.disabled && m.mapping == map["p" := ["s"]] && m.labels == map["p" := labels]
  {
    SelectorsOfOne(Service("s", "", selector));
    assert ["s"][..0] == [];
  }

  lemma StaleUpdate(m: Mapper, reply: Reply, labels: Labels, selector: Labels)
    requires !m.disabled && m.mapping == map["p" := ["s"]] && m.labels == map["p" := labels]
    requires reply == Items([Service("s", "", selector)]) && selector != map[] && !Fulfills(labels, selector)
    ensures var r := Next(m, Batch([ServiceEvent("s", CreatedOrUpdated)], reply));
      r.mapping == map["p" := ["s"]] && r.labels == map["p" := labels] && Search(r, "s") == {}
  {
    ApplyAllOne(m, ServiceEvent("s", CreatedOrUpdated), reply);
    SelectorsOfOne(Service("s", "", selector));
    assert ["s"][0] == "s";
  }

  lemma TwoSteps(m: Mapper, first: Op, second: Op)
    requires Enabled(m, first) && Enabled(Next(m, first), second)
    ensures Reaches(m, [first, second], Next(Next(m, first), second))
  {
    assert [first, second][1..] == [second] && [second][1..] == [];
    assert Reaches(Next(m, first), [second], Next(Next(m, first), second));
  }

  /** A pod that has a label is matched by a service that asks for it; then the service is
      changed to ask for another value. The pod keeps listing it, and is not found for it. */
  lemma StaleListing()
    ensures var labels, after: Labels := map["a" := "x"], map["a" := "y"];
      var ops := [Match("p", labels, false, Items([Service("s", "", labels)]), ["s"]),
                  Batch([ServiceEvent("s", CreatedOrUpdated)], Items([Service("s", "", after)]))];
      exists r :: Reaches(Empty, ops, r) && r.mapping == map["p" := ["s"]] && Search(r, "s") == {}
  {
    var labels, after: Labels := map["a" := "x"], map["a" := "y"];
    assert "a" in labels && "a" in after && labels["a"] != after["a"];
    var had, has := Items([Service("s", "", labels)]), Items([Service("s", "", after)]);
    StaleMatch(had, labels, labels);
    StaleUpdate(AfterMatch(Empty, "p", labels, false, had, ["s"]), has, labels, after);
    TwoSteps(Empty, Match("p", labels, false, had, ["s"]), Batch([ServiceEvent("s", CreatedOrUpdated)], has));
  }

  /** After a deletion no pod lists the service, and nothing else went. */
  lemma DeletedServiceIsGone(m: Mapper, service: Uid, checked: bool, reply: Reply, p: Uid)
    requires Inv(m) && p in m.mapping
    ensures var r := Apply(m, ServiceEvent(service, Deleted), checked, reply).0;
      p in r.mapping && forall s :: s in r.mapping[p] <==> s in m.mapping[p] && s != service
  {
    RemoveFirstNoDup(m.mapping[p], service);
  }

  /** A killed pod is forgotten: it lists nothing, and is found for no service. The others
      are as they were. */
  lemma KilledPodIsForgotten(m: Mapper, pod: Uid, checked: bool, reply: Reply, service: Uid)
    ensures var r := Apply(m, PodKilled(pod), checked, reply).0;
      && pod !in r.mapping && pod !in r.labels && Search(r, service) == Search(m, service) - {pod}
      && forall p :: p != pod && p in m.mapping ==> p in r.mapping && r.mapping[p] == m.mapping[p]
  {
  }

  /** Each refusal counts, and the fourth one disables the mapper; after a failure of any
      kind no service is cached, yet nothing is asked again until the next event. */
  lemma FailuresAreCounted(m: Mapper, reply: Reply)
    requires !m.disabled && m.errors < MAX_403_RETRIES
    ensures var r := Fill(m, reply);
      && r.requests == m.requests + 1 && !r.invalidated && r.mapping == m.mapping && r.labels == m.labels
      && r.errors == m.errors + (if reply == Forbidden then 1 else 0)
      && (r.disabled <==> reply == Forbidden && m.errors == 3)
      && (!reply.Items? ==> r.selectors == map[] && r.names == map[])
      && Filled(r, reply) == r
  {
  }

  /** After a batch with an event about a service the cached services are no older than
      the batch. */
  lemma {:induction false} ServiceEventsRefresh(m: Mapper, events: seq<Event>, reply: Reply)
    requires Checks(events)
    ensures var r := ApplyAll(m, events, reply).0; r.invalidated || r.requests > m.requests
  {
    var front, last := events[..|events| - 1], events[|events| - 1];
    OneRequestPerBatch(m, front, reply);
    EventRefreshes(ApplyAll(m, front, reply).0, last, Checks(front), reply);
    if Checks(front) {
      ServiceEventsRefresh(m, front, reply);
    } else {
      assert events[..|events|] == events;
      ChecksNext(events, |events| - 1);
    }
  }

  lemma EventRefreshes(m: Mapper, e: Event, checked: bool, reply: Reply)
    ensures var r := Apply(m, e, checked, reply).0;
      && r.requests >= m.requests
      && (m.invalidated || (e.ServiceEvent? && !checked) ==> r.invalidated || r.requests > m.requests)
  {
  }

  lemma OneRequestPerEvent(m: Mapper, e: Event, checked: bool, reply: Reply)
    ensures var r := Apply(m, e, checked, reply).0;
      && m.requests <= r.requests <= m.requests + 1
      && (r.requests > m.requests ==> e.ServiceEvent? && !r.invalidated && (checked ==> m.invalidated))
      && (checked && !m.invalidated ==> !r.invalidated)
  {
  }

  /** A batch invalidates the service cache once, so it makes at most one request. */
  lemma {:induction false} OneRequestPerBatch(m: Mapper, events: seq<Event>, reply: Reply)
    ensures var r := ApplyAll(m, events, reply).0;
      && m.requests <= r.requests <= m.requests + 1
      && (r.requests == m.requests + 1 ==> Checks(events) && !r.invalidated)
  {
    if events != [] {
      var front := events[..|events| - 1];
      OneRequestPerBatch(m, front, reply);
      OneRequestPerEvent(ApplyAll(m, front, reply).0, events[|events| - 1], Checks(front), reply);
      assert events[..|events|] == events;
      ChecksNext(events, |events| - 1);
    }
  }
}
