/** Aggregation of the points read from a log (checks/datadog.py): a stable sort by time,
    metric, host and device, and one point for each group of equal keys. */
module LogPointAggregation {
  import opened Wrappers
  import opened Sums
  import opened Strings
  import opened StableSort

  type Attributes = map<string, string>

  /** A point as parsed; whether its value is a number is only found here. */
  datatype Point = Point(metric: string, ts: int, value: string, attributes: Attributes)

  datatype Aggregate = Aggregate(metric: string, ts: int, value: real, attributes: Attributes)

  datatype Key = Key(ts: int, metric: string, host: Option<string>, device: Option<string>)

  type Floats = string -> Option<real>

  function Get(a: Attributes, name: string): Option<string> {
    if name in a then Some(a[name]) else None
  }

  function KeyFor(metric: string, ts: int, a: Attributes): Key {
    Key(ts, metric, Get(a, "host_name"), Get(a, "device_name"))
  }

  function KeyOf(p: Point): Key {
    KeyFor(p.metric, p.ts, p.attributes)
  }

  // ---- the order of tuples ----

  /** None is before every string. */
  predicate OptionLeq(a: Option<string>, b: Option<string>) {
    a.None? || (b.Some? && Leq(a.value, b.value))
  }

  predicate KeyLeq(a: Key, b: Key) {
    if a.ts != b.ts then a.ts < b.ts
    else if a.metric != b.metric then Leq(a.metric, b.metric)
    else if a.host != b.host then OptionLeq(a.host, b.host)
    else OptionLeq(a.device, b.device)
  }

  lemma OptionTotal(a: Option<string>, b: Option<string>)
    ensures OptionLeq(a, b) || OptionLeq(b, a)
    ensures OptionLeq(a, b) && OptionLeq(b, a) ==> a == b
  {
    if a.Some? && b.Some? {
      LeqTotal(a.value, b.value);
    }
  }

  lemma OptionTransitive(a: Option<string>, b: Option<string>, c: Option<string>)
    requires OptionLeq(a, b) && OptionLeq(b, c)
    ensures OptionLeq(a, c)
  {
    if a.Some? {
      LeqTransitive(a.value, b.value, c.value);
    }
  }

  lemma KeyTotal(a: Key, b: Key)
    ensures KeyLeq(a, b) || KeyLeq(b, a)
    ensures KeyLeq(a, b) && KeyLeq(b, a) ==> a == b
  {
    LeqTotal(a.metric, b.metric);
    OptionTotal(a.host, b.host);
    OptionTotal(a.device, b.device);
  }

  lemma KeyTransitive(a: Key, b: Key, c: Key)
    requires KeyLeq(a, b) && KeyLeq(b, c)
    ensures KeyLeq(a, c)
  {
    if a.ts == b.ts == c.ts {
      LeqTotal(a.metric, b.metric);
      if a.metric != b.metric && b.metric != c.metric {
        LeqTransitive(a.metric, b.metric, c.metric);
        LeqTotal(b.metric, c.metric);
      } else if a.metric == b.metric == c.metric {
        OptionTotal(a.host, b.host);
        if a.host != b.host && b.host != c.host {
          OptionTransitive(a.host, b.host, c.host);
          OptionTotal(b.host, c.host);
        } else if a.host == b.host == c.host {
          OptionTransitive(a.device, b.device, c.device);
        }
      }
    }
  }

  predicate Before(a: Key, b: Key) {
    KeyLeq(a, b) && a != b
  }

  predicate NoneFirst(a: Option<string>, b: Option<string>) {
    b.Some? && (a.None? || Less(a.value, b.value))
  }

  /** The first component that differs decides, and None is before every string. */
  lemma BeforeExactly(a: Key, b: Key)
    ensures Before(a, b) <==>
              if a.ts != b.ts then a.ts < b.ts
              else if a.metric != b.metric then Less(a.metric, b.metric)
              else if a.host != b.host then NoneFirst(a.host, b.host)
              else NoneFirst(a.device, b.device)
  {
    OptionTotal(a.host, b.host);
    OptionTotal(a.device, b.device);
  }

  // ---- one group ----

  function Numbers(f: Floats, group: seq<Point>): seq<real> {
    if group == [] then []
    else
      var last := f(group[|group| - 1].value);
      Numbers(f, group[..|group| - 1]) + if last.Some? then [last.value] else []
  }

  /** The attributes of the points with a number, later ones prevailing. */
  function Merged(f: Floats, group: seq<Point>): Attributes {
    if group == [] then map[]
    else
      var last := group[|group| - 1];
      var before := Merged(f, group[..|group| - 1]);
      if f(last.value).Some? then before + last.attributes else before
  }

  function Lower(s: string): (r: string)
    ensures |r| == |s|
  {
    if s == "" then "" else [if 'A' <= s[0] <= 'Z' then s[0] + ' ' else s[0]] + Lower(s[1..])
  }

  predicate IsCounter(a: Attributes) {
    "metric_type" in a && Lower(a["metric_type"]) == "counter"
  }

  /** What a group of points amounts to; nothing when none has a number. */
  function Summary(f: Floats, k: Key, group: seq<Point>): seq<Aggregate> {
    var vals, attributes := Numbers(f, group), Merged(f, group);
    if vals == [] then []
    else [Aggregate(k.metric, k.ts, if IsCounter(attributes) then Sum(vals) else vals[|vals| - 1], attributes)]
  }

  // ---- the whole list ----

  function Keys(points: seq<Point>): (r: seq<Key>)
    ensures |r| == |points| && forall i :: 0 <= i < |points| ==> r[i] == KeyOf(points[i])
  {
    seq(|points|, i requires 0 <= i < |points| => KeyOf(points[i]))
  }

  function Sorted(points: seq<Point>): seq<Point> {
    Permute(points, Sort(Keys(points), KeyLeq))
  }

  /** How many points at the front have the same key. */
  function RunLength(points: seq<Point>, k: Key): (n: nat)
    ensures n <= |points| && forall i :: 0 <= i < n ==> KeyOf(points[i]) == k
    ensures n < |points| ==> KeyOf(points[n]) != k
  {
    if points == [] || KeyOf(points[0]) != k then 0 else 1 + RunLength(points[1..], k)
  }

  /** `groupby`: the runs of equal keys, one after the other. */
  function Aggregates(f: Floats, points: seq<Point>): seq<Aggregate>
    decreases |points|
  {
    if points == [] then []
    else
      var k := KeyOf(points[0]);
      var n := RunLength(points, k);
      Summary(f, k, points[..n]) + Aggregates(f, points[n..])
  }

  method SortInPlace(values: array<Point>)
    modifies values
    ensures values[..] == Sorted(old(values[..]))
  {
    var points := values[..];
    var order := Sort(Keys(points), KeyLeq);
    for i := 0 to values.Length
      invariant forall j :: 0 <= j < i ==> values[j] == points[order[j]]
    {
      values[i] := points[order[i]];
    }
  }

  method SummarizeGroup(f: Floats, k: Key, group: seq<Point>) returns (output: seq<Aggregate>)
    ensures output == Summary(f, k, group)
  {
    var attributes: Attributes, vals := map[], [];
    for i := 0 to |group|
      invariant vals == Numbers(f, group[..i]) && attributes == Merged(f, group[..i])
    {
      assert group[..i + 1][..i] == group[..i];
      var v := f(group[i].value);
      if v.Some? {
        vals := vals + [v.value];
        attributes := attributes + group[i].attributes;
      }
    }
    assert group[..|group|] == group;
    if vals == [] {
      return [];
    }
    var val := vals[|vals| - 1];
    if IsCounter(attributes) {
      val := Total(vals);
    }
    output := [Aggregate(k.metric, k.ts, val, attributes)];
  }

  method Total(vals: seq<real>) returns (total: real)
    ensures total == Sum(vals)
  {
    total := 0.0;
    for i := 0 to |vals|
      invariant total == Sum(vals[..i])
    {
      assert vals[..i + 1][..i] == vals[..i];
      total := total + vals[i];
    }
    assert vals[..|vals|] == vals;
  }

  method NextGroup(points: seq<Point>, k: Key) returns (n: nat)
    ensures n == RunLength(points, k)
  {
    n := 0;
    while n < |points| && KeyOf(points[n]) == k
      invariant n <= |points| && RunLength(points, k) == n + RunLength(points[n..], k)
    {
      assert points[n..][1..] == points[n + 1..];
      n := n + 1;
    }
  }

  method AggregateGroups(f: Floats, points: seq<Point>) returns (output: seq<Aggregate>)
    ensures output == Aggregates(f, points)
  {
    var rest := points;
    output := [];
    ghost var goal := Aggregates(f, points);
    while rest != []
      invariant output + Aggregates(f, rest) == goal
      decreases |rest|
    {
      GroupStep(f, rest, output);
      var k := KeyOf(rest[0]);
      var n := NextGroup(rest, k);
      var more := SummarizeGroup(f, k, rest[..n]);
      output := output + more;
      rest := rest[n..];
    }
  }

  /** One turn of that loop. */
  lemma GroupStep(f: Floats, rest: seq<Point>, output: seq<Aggregate>)
    requires rest != []
    ensures var k := KeyOf(rest[0]); var n := RunLength(rest, k);
      n > 0 && output + Aggregates(f, rest) == (output + Summary(f, k, rest[..n])) + Aggregates(f, rest[n..])
  {
  }

  method AggregateAll(f: Floats, values: array<Point>) returns (output: seq<Aggregate>)
    modifies values
    ensures values[..] == Sorted(old(values[..]))
    ensures output == Aggregates(f, Sorted(old(values[..])))
  {
    SortInPlace(values);
    output := AggregateGroups(f, values[..]);
  }

  // ---- what it comes to, told without sorting ----

  /** The points with one key, in order of arrival. */
  function Filter(points: seq<Point>, k: Key): seq<Point> {
    if points == [] then []
    else Filter(points[..|points| - 1], k) + if KeyOf(points[|points| - 1]) == k then [points[|points| - 1]] else []
  }

  function AggregateKey(a: Aggregate): Key {
    KeyFor(a.metric, a.ts, a.attributes)
  }

  lemma FilterOne(points: seq<Point>, p: Point, k: Key)
    ensures Filter(points + [p], k) == Filter(points, k) + if KeyOf(p) == k then [p] else []
  {
    assert (points + [p])[..|points|] == points;
  }

  lemma {:induction false} FilterAppend(xs: seq<Point>, ys: seq<Point>, k: Key)
    ensures Filter(xs + ys, k) == Filter(xs, k) + Filter(ys, k)
  {
    if ys == [] {
      assert xs + ys == xs;
    } else {
      var front, last := ys[..|ys| - 1], ys[|ys| - 1];
      FilterAppend(xs, front, k);
      FilterOne(xs + front, last, k);
      assert xs + ys == xs + front + [last];
    }
  }

  lemma PermuteOne(points: seq<Point>, p: seq<nat>, x: nat)
    requires IndicesBelow(p, |points|) && x < |points|
    ensures IndicesBelow(p + [x], |points|) && Permute(points, p + [x]) == Permute(points, p) + [points[x]]
  {
  }

  lemma AppendFilters(points: seq<Point>, p: seq<nat>, x: nat, k: Key)
    requires IndicesBelow(p, |points|) && x < |points|
    ensures IndicesBelow(p + [x], |points|)
    ensures Filter(Permute(points, p + [x]), k)
         == Filter(Permute(points, p), k) + if KeyOf(points[x]) == k then [points[x]] else []
  {
    PermuteOne(points, p, x);
    FilterOne(Permute(points, p), points[x], k);
  }

  /** Inserting a point puts it after those of the same key. */
  lemma {:induction false} InsertFilters(points: seq<Point>, leq: (Key, Key) -> bool, p: seq<nat>, x: nat, k: Key)
    requires IndicesBelow(p, |points|) && x < |points| && forall a :: leq(a, a)
    ensures Filter(Permute(points, Insert(p, Keys(points), leq, x)), k)
         == Filter(Permute(points, p), k) + if KeyOf(points[x]) == k then [points[x]] else []
  {
    var keys := Keys(points);
    AppendFilters(points, p, x, k);
    if p == [] {
      assert [] + [x] == [x];
    } else {
      var front, last := p[..|p| - 1], p[|p| - 1];
      assert p == front + [last];
      if !leq(keys[last], keys[x]) {
        InsertFilters(points, leq, front, x, k);
        InsertEarlier(points, leq, front, last, x, k);
      }
    }
  }

  lemma InsertEarlier(points: seq<Point>, leq: (Key, Key) -> bool, front: seq<nat>, last: nat, x: nat, k: Key)
    requires IndicesBelow(front + [last], |points|) && IndicesBelow(front, |points|) && last < |points| && x < |points|
    requires KeyOf(points[x]) != KeyOf(points[last])
    requires Filter(Permute(points, Insert(front, Keys(points), leq, x)), k)
          == Filter(Permute(points, front), k) + if KeyOf(points[x]) == k then [points[x]] else []
    ensures Filter(Permute(points, Insert(front, Keys(points), leq, x) + [last]), k)
         == Filter(Permute(points, front + [last]), k) + if KeyOf(points[x]) == k then [points[x]] else []
  {
    AppendFilters(points, front, last, k);
    AppendFilters(points, Insert(front, Keys(points), leq, x), last, k);
  }

  lemma {:induction false} PrefixFilters(points: seq<Point>, leq: (Key, Key) -> bool, n: nat, k: Key)
    requires n <= |points| && forall a :: leq(a, a)
    ensures Filter(Permute(points, SortPrefix(Keys(points), leq, n)), k) == Filter(points[..n], k)
  {
    if n > 0 {
      PrefixFilters(points, leq, n - 1, k);
      var p := SortPrefix(Keys(points), leq, n - 1);
      InsertFilters(points, leq, p, n - 1, k);
      assert SortPrefix(Keys(points), leq, n) == Insert(p, Keys(points), leq, n - 1);
      PrefixOne(points, n, k);
    }
  }

  lemma PrefixOne(points: seq<Point>, n: nat, k: Key)
    requires 0 < n <= |points|
    ensures Filter(points[..n], k)
         == Filter(points[..n - 1], k) + if KeyOf(points[n - 1]) == k then [points[n - 1]] else []
  {
    FilterOne(points[..n - 1], points[n - 1], k);
    assert points[..n] == points[..n - 1] + [points[n - 1]];
  }

  /** Sorting is stable: the points of each key stay in order of arrival. */
  lemma SortedFilters(points: seq<Point>, k: Key)
    ensures Filter(Sorted(points), k) == Filter(points, k)
  {
    forall a ensures KeyLeq(a, a) {
      KeyTotal(a, a);
    }
    PrefixFilters(points, KeyLeq, |points|, k);
    assert points[..|points|] == points;
  }

  ghost predicate Ascending(points: seq<Point>) {
    forall i, j :: 0 <= i < j < |points| ==> KeyLeq(KeyOf(points[i]), KeyOf(points[j]))
  }

  lemma SortedAscends(points: seq<Point>)
    ensures Ascending(Sorted(points))
  {
    forall a, b ensures KeyLeq(a, b) || KeyLeq(b, a) {
      KeyTotal(a, b);
    }
    forall a, b, c | KeyLeq(a, b) && KeyLeq(b, c) ensures KeyLeq(a, c) {
      KeyTransitive(a, b, c);
    }
    SortIsStable(Keys(points), KeyLeq);
    var p := Sort(Keys(points), KeyLeq);
    forall i, j | 0 <= i < j < |p| ensures KeyLeq(KeyOf(Sorted(points)[i]), KeyOf(Sorted(points)[j])) {
      assert Earlier(Keys(points), KeyLeq, p[i], p[j]);
    }
  }

  lemma {:induction false} FilterAll(points: seq<Point>, k: Key)
    requires forall i :: 0 <= i < |points| ==> KeyOf(points[i]) == k
    ensures Filter(points, k) == points
  {
    if points != [] {
      FilterAll(points[..|points| - 1], k);
    }
  }

  lemma {:induction false} FilterNone(points: seq<Point>, k: Key)
    requires forall i :: 0 <= i < |points| ==> KeyOf(points[i]) != k
    ensures Filter(points, k) == []
  {
    if points != [] {
      FilterNone(points[..|points| - 1], k);
    }
  }

  lemma PastKey(k: Key, next: Key, later: Key)
    requires KeyLeq(k, next) && next != k && KeyLeq(next, later)
    ensures later != k
  {
    KeyTotal(k, next);
  }

  lemma AscendingAt(points: seq<Point>, i: nat, j: nat)
    requires Ascending(points) && i < j < |points|
    ensures KeyLeq(KeyOf(points[i]), KeyOf(points[j]))
  {
  }

  /** In a sorted list the keys after the first run are greater. */
  lemma AfterFirstRun(points: seq<Point>, i: nat)
    requires points != [] && Ascending(points) && RunLength(points, KeyOf(points[0])) <= i < |points|
    ensures Before(KeyOf(points[0]), KeyOf(points[i]))
  {
    AfterRun(points, RunLength(points, KeyOf(points[0])), i);
  }

  lemma AfterRun(points: seq<Point>, n: nat, i: nat)
    requires Ascending(points) && 0 < n <= i < |points| && KeyOf(points[n]) != KeyOf(points[0])
    ensures Before(KeyOf(points[0]), KeyOf(points[i]))
  {
    AscendingAt(points, 0, i);
    if i > n {
      AscendingAt(points, 0, n);
      AscendingAt(points, n, i);
      PastKey(KeyOf(points[0]), KeyOf(points[n]), KeyOf(points[i]));
    }
  }

  lemma NoneLeft(points: seq<Point>)
    requires points != [] && Ascending(points)
    ensures Filter(points[RunLength(points, KeyOf(points[0]))..], KeyOf(points[0])) == []
  {
    var n := RunLength(points, KeyOf(points[0]));
    forall i | 0 <= i < |points[n..]| ensures KeyOf(points[n..][i]) != KeyOf(points[0]) {
      AfterFirstRun(points, n + i);
    }
    FilterNone(points[n..], KeyOf(points[0]));
  }

  /** The first run has all points of its key. */
  lemma FirstRun(points: seq<Point>, c: Key)
    requires points != [] && Ascending(points)
    ensures var k := KeyOf(points[0]); var n := RunLength(points, k);
      Filter(points, c) == if c == k then points[..n] else Filter(points[n..], c)
  {
    var k := KeyOf(points[0]);
    var n := RunLength(points, k);
    var run, rest := points[..n], points[n..];
    assert points == run + rest;
    FilterAppend(run, rest, c);
    if c == k {
      FilterAll(run, k);
      NoneLeft(points);
    } else {
      FilterNone(run, c);
    }
  }

  ghost predicate Increasing(output: seq<Aggregate>) {
    forall i, j :: 0 <= i < j < |output| ==> Before(AggregateKey(output[i]), AggregateKey(output[j]))
  }

  /** The merged attributes have the host and device that all points of a group have. */
  lemma {:induction false} MergedKey(f: Floats, group: seq<Point>, k: Key)
    requires forall i :: 0 <= i < |group| ==> KeyOf(group[i]) == k
    ensures Numbers(f, group) != [] ==> KeyFor(k.metric, k.ts, Merged(f, group)) == k
    ensures Numbers(f, group) == [] ==> Merged(f, group) == map[]
  {
    if group != [] {
      MergedKey(f, group[..|group| - 1], k);
      assert KeyOf(group[|group| - 1]) == k;
    }
  }

  lemma SummaryKey(f: Floats, group: seq<Point>, k: Key, a: Aggregate)
    requires forall i :: 0 <= i < |group| ==> KeyOf(group[i]) == k
    requires a in Summary(f, k, group)
    ensures AggregateKey(a) == k
  {
    MergedKey(f, group, k);
  }

  lemma OtherKey(f: Floats, group: seq<Point>, k: Key, a: Aggregate)
    requires forall i :: 0 <= i < |group| ==> KeyOf(group[i]) == k
    requires AggregateKey(a) != k
    ensures a !in Summary(f, k, group)
  {
    if a in Summary(f, k, group) {
      SummaryKey(f, group, k, a);
    }
  }

  lemma RunKeys(points: seq<Point>)
    requires points != [] && Ascending(points)
    ensures var n := RunLength(points, KeyOf(points[0])); n > 0 && Ascending(points[n..])
  {
  }

  lemma AggregatesStep(f: Floats, points: seq<Point>, a: Aggregate)
    requires points != []
    ensures var k := KeyOf(points[0]); var n := RunLength(points, k);
      a in Aggregates(f, points) <==> a in Summary(f, k, points[..n]) || a in Aggregates(f, points[n..])
  {
  }

  ghost predicate HasKey(points: seq<Point>, k: Key) {
    exists i :: 0 <= i < |points| && KeyOf(points[i]) == k
  }

  lemma RestHasKey(points: seq<Point>, n: nat, k: Key)
    requires n <= |points| && HasKey(points[n..], k)
    ensures HasKey(points, k)
  {
    var i :| 0 <= i < |points[n..]| && KeyOf(points[n..][i]) == k;
    assert points[n + i] == points[n..][i];
  }

  lemma {:induction false} AggregateKeys(f: Floats, points: seq<Point>, a: Aggregate)
    requires Ascending(points) && a in Aggregates(f, points)
    ensures HasKey(points, AggregateKey(a))
    decreases |points|
  {
    var k := KeyOf(points[0]);
    var n := RunLength(points, k);
    AggregatesStep(f, points, a);
    if a in Summary(f, k, points[..n]) {
      SummaryKey(f, points[..n], k, a);
    } else {
      RunKeys(points);
      AggregateKeys(f, points[n..], a);
      RestHasKey(points, n, AggregateKey(a));
    }
  }

  /** The keys after the first run come after its key. */
  lemma LaterKeys(f: Floats, points: seq<Point>, a: Aggregate)
    requires points != [] && Ascending(points)
    requires a in Aggregates(f, points[RunLength(points, KeyOf(points[0]))..])
    ensures Before(KeyOf(points[0]), AggregateKey(a))
  {
    var n := RunLength(points, KeyOf(points[0]));
    RunKeys(points);
    AggregateKeys(f, points[n..], a);
    var i :| 0 <= i < |points[n..]| && KeyOf(points[n..][i]) == AggregateKey(a);
    AfterFirstRun(points, n + i);
  }

  lemma LaterLacks(f: Floats, points: seq<Point>, a: Aggregate)
    requires points != [] && Ascending(points) && AggregateKey(a) == KeyOf(points[0])
    ensures a !in Aggregates(f, points[RunLength(points, KeyOf(points[0]))..])
  {
    if a in Aggregates(f, points[RunLength(points, KeyOf(points[0]))..]) {
      LaterKeys(f, points, a);
    }
  }

  /** The aggregate of the first key is that of the first run alone. */
  lemma AggregatesOfFirst(f: Floats, points: seq<Point>, a: Aggregate)
    requires points != [] && Ascending(points)
    ensures var k := KeyOf(points[0]);
      a in Summary(f, k, points[..RunLength(points, k)]) <==> a in Aggregates(f, points) && AggregateKey(a) == k
  {
    var k := KeyOf(points[0]);
    var n := RunLength(points, k);
    if AggregateKey(a) == k {
      LaterLacks(f, points, a);
      AggregatesStep(f, points, a);
    } else {
      OtherKey(f, points[..n], k, a);
    }
  }

  lemma AggregatesOfLater(f: Floats, points: seq<Point>, k: Key, a: Aggregate)
    requires points != [] && Ascending(points) && k != KeyOf(points[0]) && AggregateKey(a) == k
    ensures a in Aggregates(f, points) <==> a in Aggregates(f, points[RunLength(points, KeyOf(points[0]))..])
  {
    var first := KeyOf(points[0]);
    AggregatesStep(f, points, a);
    OtherKey(f, points[..RunLength(points, first)], first, a);
  }

  lemma {:induction false} AggregatesOf(f: Floats, points: seq<Point>, k: Key, a: Aggregate)
    requires Ascending(points)
    ensures a in Summary(f, k, Filter(points, k)) <==> a in Aggregates(f, points) && AggregateKey(a) == k
    decreases |points|
  {
    if points != [] {
      FirstRun(points, k);
      if k == KeyOf(points[0]) {
        AggregatesOfFirst(f, points, a);
      } else {
        RunKeys(points);
        AggregatesOf(f, points[RunLength(points, KeyOf(points[0]))..], k, a);
        if AggregateKey(a) == k {
          AggregatesOfLater(f, points, k, a);
        }
      }
    }
  }

  lemma {:induction false} AggregatesIncrease(f: Floats, points: seq<Point>)
    requires Ascending(points)
    ensures Increasing(Aggregates(f, points))
    decreases |points|
  {
    if points != [] {
      var k := KeyOf(points[0]);
      var n := RunLength(points, k);
      var first, rest := Summary(f, k, points[..n]), Aggregates(f, points[n..]);
      RunKeys(points);
      AggregatesIncrease(f, points[n..]);
      if first != [] {
        SummaryKey(f, points[..n], k, first[0]);
        forall j | 0 <= j < |rest| ensures Before(k, AggregateKey(rest[j])) {
          LaterKeys(f, points, rest[j]);
        }
      }
    }
  }

  lemma AggregateOfKey(f: Floats, points: seq<Point>, k: Key, a: Aggregate)
    ensures a in Summary(f, k, Filter(points, k)) <==> a in Aggregates(f, Sorted(points)) && AggregateKey(a) == k
  {
    SortedAscends(points);
    SortedFilters(points, k);
    AggregatesOf(f, Sorted(points), k, a);
  }

  lemma SortedIncreases(f: Floats, points: seq<Point>)
    ensures Increasing(Aggregates(f, Sorted(points)))
  {
    SortedAscends(points);
    AggregatesIncrease(f, Sorted(points));
  }

  /** What is reported for a key is the summary of its points. */
  predicate Reports(f: Floats, points: seq<Point>, output: seq<Aggregate>, k: Key, a: Aggregate) {
    a in Summary(f, k, Filter(points, k)) <==> a in output && AggregateKey(a) == k
  }

  lemma SortedReports(f: Floats, points: seq<Point>, k: Key, a: Aggregate)
    ensures Reports(f, points, Aggregates(f, Sorted(points)), k, a)
  {
    AggregateOfKey(f, points, k, a);
  }

  /** For each key there is exactly one aggregate, or none when no point of the key has a
      number: the summary of its points in order of arrival, so a sum for a counter and
      else the last value. The keys strictly increase. */
  lemma OneAggregatePerKey(f: Floats, points: seq<Point>)
    ensures var output := Aggregates(f, Sorted(points));
      Increasing(output) && forall k, a :: Reports(f, points, output, k, a)
  {
    SortedIncreases(f, points);
    forall k, a ensures Reports(f, points, Aggregates(f, Sorted(points)), k, a) {
      SortedReports(f, points, k, a);
    }
  }

  // ---- what is reported of a key, told over the points as they arrived ----

  function NumberFor(f: Floats, p: Point, k: Key): Option<real> {
    if KeyOf(p) == k then f(p.value) else None
  }

  function LastNumber(f: Floats, points: seq<Point>, k: Key): Option<real> {
    if points == [] then None
    else
      var last := NumberFor(f, points[|points| - 1], k);
      if last.Some? then last else LastNumber(f, points[..|points| - 1], k)
  }

  function TotalFor(f: Floats, points: seq<Point>, k: Key): real {
    if points == [] then 0.0
    else
      var last := NumberFor(f, points[|points| - 1], k);
      TotalFor(f, points[..|points| - 1], k) + if last.Some? then last.value else 0.0
  }

  /** An attribute as the last point with a number has it that has it at all. */
  function LastAttribute(f: Floats, points: seq<Point>, k: Key, name: string): Option<string> {
    if points == [] then None
    else
      var last := points[|points| - 1];
      if NumberFor(f, last, k).Some? && name in last.attributes then Some(last.attributes[name])
      else LastAttribute(f, points[..|points| - 1], k, name)
  }

  lemma {:induction false} FilteredNumbers(f: Floats, points: seq<Point>, k: Key)
    ensures var vals := Numbers(f, Filter(points, k));
      && LastNumber(f, points, k) == (if vals == [] then None else Some(vals[|vals| - 1]))
      && TotalFor(f, points, k) == Sum(vals)
  {
    if points != [] {
      var front, last := points[..|points| - 1], points[|points| - 1];
      FilteredNumbers(f, front, k);
      NumbersNext(f, Filter(front, k), last);
      assert Filter(points, k) == if KeyOf(last) == k then Filter(front, k) + [last] else Filter(front, k);
    }
  }

  lemma NumbersNext(f: Floats, group: seq<Point>, p: Point)
    ensures var vals, more := Numbers(f, group), Numbers(f, group + [p]);
      && more == (if f(p.value).Some? then vals + [f(p.value).value] else vals)
      && Sum(more) == Sum(vals) + if f(p.value).Some? then f(p.value).value else 0.0
  {
    assert (group + [p])[..|group|] == group;
    if f(p.value).Some? {
      var vals := Numbers(f, group);
      assert (vals + [f(p.value).value])[..|vals|] == vals;
    } else {
      assert Numbers(f, group) + [] == Numbers(f, group);
    }
  }

  lemma {:induction false} FilteredAttributes(f: Floats, points: seq<Point>, k: Key, name: string)
    ensures var merged := Merged(f, Filter(points, k));
      LastAttribute(f, points, k, name) == if name in merged then Some(merged[name]) else None
  {
    if points != [] {
      var front, last := points[..|points| - 1], points[|points| - 1];
      FilteredAttributes(f, front, k, name);
      var group := Filter(front, k);
      assert (group + [last])[..|group|] == group;
      assert Filter(points, k) == if KeyOf(last) == k then group + [last] else group;
    }
  }

  /** "counter" in small letters or capitals. */
  predicate SaysCounter(s: string) {
    |s| == 7 && forall i :: 0 <= i < 7 ==> s[i] == "counter"[i] || s[i] == "COUNTER"[i]
  }

  lemma {:induction false} LowerAt(s: string, i: nat)
    requires i < |s|
    ensures Lower(s)[i] == if 'A' <= s[i] <= 'Z' then s[i] + ' ' else s[i]
  {
    if i > 0 {
      LowerAt(s[1..], i - 1);
    }
  }

  lemma CounterIsSaid(s: string)
    ensures Lower(s) == "counter" <==> SaysCounter(s)
  {
    forall i | 0 <= i < |s| ensures Lower(s)[i] == if 'A' <= s[i] <= 'Z' then s[i] + ' ' else s[i] {
      LowerAt(s, i);
    }
    if SaysCounter(s) {
      forall i | 0 <= i < 7 ensures Lower(s)[i] == "counter"[i] {
        LowerIs(s[i], i);
      }
    } else if |s| == 7 {
      var i :| 0 <= i < 7 && s[i] != "counter"[i] && s[i] != "COUNTER"[i];
      LowerIs(s[i], i);
    }
  }

  lemma LowerIs(c: char, i: nat)
    requires i < 7
    ensures var lower := if 'A' <= c <= 'Z' then c + ' ' else c;
      lower == "counter"[i] <==> c == "counter"[i] || c == "COUNTER"[i]
  {
  }

  /** The sum of the numbers if the metric type says counter, else the last number; each
      attribute as the last point with a number has it that has it. */
  ghost predicate ReportsKey(f: Floats, points: seq<Point>, k: Key, a: Aggregate) {
    var last, kind := LastNumber(f, points, k), LastAttribute(f, points, k, "metric_type");
    && a.metric == k.metric && a.ts == k.ts && last.Some?
    && a.value == (if kind.Some? && SaysCounter(kind.value) then TotalFor(f, points, k) else last.value)
    && forall name :: LastAttribute(f, points, k, name) == Get(a.attributes, name)
  }

  lemma SummaryReportsKey(f: Floats, points: seq<Point>, k: Key, a: Aggregate)
    requires a in Summary(f, k, Filter(points, k))
    ensures ReportsKey(f, points, k, a)
  {
    var merged := Merged(f, Filter(points, k));
    FilteredNumbers(f, points, k);
    forall name ensures LastAttribute(f, points, k, name) == Get(merged, name) {
      FilteredAttributes(f, points, k, name);
    }
    if "metric_type" in merged {
      CounterIsSaid(merged["metric_type"]);
    }
  }

  /** So it is with all that is reported. */
  lemma ReportedExactly(f: Floats, points: seq<Point>, a: Aggregate)
    requires a in Aggregates(f, Sorted(points))
    ensures ReportsKey(f, points, AggregateKey(a), a)
  {
    AggregateOfKey(f, points, AggregateKey(a), a);
    SummaryReportsKey(f, points, AggregateKey(a), a);
  }

  /** A key is reported exactly when one of its points has a number. */
  lemma KeyIsReported(f: Floats, points: seq<Point>, k: Key)
    ensures LastNumber(f, points, k).Some? <==> exists a :: a in Aggregates(f, Sorted(points)) && AggregateKey(a) == k
  {
    FilteredNumbers(f, points, k);
    if LastNumber(f, points, k).Some? {
      var a := Summary(f, k, Filter(points, k))[0];
      AggregateOfKey(f, points, k, a);
    }
    forall a | a in Aggregates(f, Sorted(points)) && AggregateKey(a) == k ensures LastNumber(f, points, k).Some? {
      ReportedExactly(f, points, a);
    }
  }

  // ---- the last value is not the median ----

  predicate RealLeq(a: real, b: real) {
    a <= b
  }

  function Ranked(vals: seq<real>): (r: seq<real>)
    ensures |r| == |vals|
  {
    Permute(vals, Sort(vals, RealLeq))
  }

  function Middle(s: seq<real>): real
    requires s != []
  {
    if |s| % 2 == 1 then s[|s| / 2] else (s[|s| / 2 - 1] + s[|s| / 2]) / 2.0
  }

  /** The middle value, or the mean of the two in the middle. */
  function Median(vals: seq<real>): real
    requires vals != []
  {
    Middle(Ranked(vals))
  }

  /** How many values are greater than `x`, or else less. */
  function Beyond(vals: seq<real>, x: real, greater: bool): (n: nat)
    ensures n <= |vals|
  {
    if vals == [] then 0
    else
      var last := vals[|vals| - 1];
      Beyond(vals[..|vals| - 1], x, greater) + if (greater && last > x) || (!greater && last < x) then 1 else 0
  }

  lemma BeyondOne(vals: seq<real>, v: real, x: real, greater: bool)
    ensures Beyond(vals + [v], x, greater)
         == Beyond(vals, x, greater) + if (greater && v > x) || (!greater && v < x) then 1 else 0
  {
    assert (vals + [v])[..|vals|] == vals;
  }

  lemma PermuteBeyond(vals: seq<real>, p: seq<nat>, i: nat, x: real, greater: bool)
    requires IndicesBelow(p, |vals|) && i < |vals|
    ensures IndicesBelow(p + [i], |vals|)
    ensures Beyond(Permute(vals, p + [i]), x, greater)
         == Beyond(Permute(vals, p), x, greater) + Beyond([vals[i]], x, greater)
  {
    assert Permute(vals, p + [i]) == Permute(vals, p) + [vals[i]];
    BeyondOne(Permute(vals, p), vals[i], x, greater);
    BeyondOne([], vals[i], x, greater);
    assert [] + [vals[i]] == [vals[i]];
  }

  lemma {:induction false} InsertBeyond(vals: seq<real>, p: seq<nat>, i: nat, x: real, greater: bool)
    requires IndicesBelow(p, |vals|) && i < |vals|
    ensures Beyond(Permute(vals, Insert(p, vals, RealLeq, i)), x, greater)
         == Beyond(Permute(vals, p), x, greater) + Beyond([vals[i]], x, greater)
  {
    PermuteBeyond(vals, p, i, x, greater);
    if p == [] {
      assert [] + [i] == [i];
    } else {
      var front, last := p[..|p| - 1], p[|p| - 1];
      assert p == front + [last];
      if !RealLeq(vals[last], vals[i]) {
        InsertBeyond(vals, front, i, x, greater);
        PermuteBeyond(vals, front, last, x, greater);
        PermuteBeyond(vals, Insert(front, vals, RealLeq, i), last, x, greater);
      }
    }
  }

  lemma BeyondStep(vals: seq<real>, n: nat, x: real, greater: bool)
    requires 0 < n <= |vals|
    ensures Beyond(vals[..n], x, greater) == Beyond(vals[..n - 1], x, greater) + Beyond([vals[n - 1]], x, greater)
  {
    BeyondOne(vals[..n - 1], vals[n - 1], x, greater);
    BeyondOne([], vals[n - 1], x, greater);
    assert vals[..n] == vals[..n - 1] + [vals[n - 1]] && [] + [vals[n - 1]] == [vals[n - 1]];
  }

  lemma {:induction false} PrefixBeyond(vals: seq<real>, n: nat, x: real, greater: bool)
    requires n <= |vals|
    ensures Beyond(Permute(vals, SortPrefix(vals, RealLeq, n)), x, greater) == Beyond(vals[..n], x, greater)
  {
    if n > 0 {
      PrefixBeyond(vals, n - 1, x, greater);
      InsertBeyond(vals, SortPrefix(vals, RealLeq, n - 1), n - 1, x, greater);
      BeyondStep(vals, n, x, greater);
    }
  }

  ghost predicate Rising(s: seq<real>) {
    forall i, j :: 0 <= i < j < |s| ==> s[i] <= s[j]
  }

  /** In order, and as many values on either side of any `x`. */
  lemma RankedRises(vals: seq<real>, x: real)
    ensures Rising(Ranked(vals))
    ensures Beyond(Ranked(vals), x, true) == Beyond(vals, x, true)
    ensures Beyond(Ranked(vals), x, false) == Beyond(vals, x, false)
  {
    SortIsStable(vals, RealLeq);
    var p := Sort(vals, RealLeq);
    forall i, j | 0 <= i < j < |p| ensures vals[p[i]] <= vals[p[j]] {
      assert Earlier(vals, RealLeq, p[i], p[j]);
    }
    PrefixBeyond(vals, |vals|, x, true);
    PrefixBeyond(vals, |vals|, x, false);
    assert vals[..|vals|] == vals;
  }

  /** In a rising list the values less than `x` come first, those greater come last. */
  lemma {:induction false} RisingSides(s: seq<real>, x: real)
    requires Rising(s)
    ensures forall i :: 0 <= i < |s| ==> (s[i] < x <==> i < Beyond(s, x, false))
    ensures forall i :: 0 <= i < |s| ==> (s[i] > x <==> i >= |s| - Beyond(s, x, true))
  {
    if s != [] {
      RisingSides(s[..|s| - 1], x);
    }
  }

  lemma MiddleExactly(s: seq<real>, at: nat)
    requires Rising(s) && at < |s|
    ensures Middle(s) == s[at] <==> 2 * Beyond(s, s[at], false) < |s| && 2 * Beyond(s, s[at], true) < |s|
  {
    RisingSides(s, s[at]);
    if |s| % 2 == 0 {
      var half := |s| / 2;
      assert s[half - 1] <= s[half];
      assert if at < half then s[at] <= s[half - 1] else s[half] <= s[at];
    }
  }

  lemma RankedHolds(vals: seq<real>, i: nat) returns (at: nat)
    requires i < |vals|
    ensures at < |vals| && Ranked(vals)[at] == vals[i]
  {
    assert i in Sort(vals, RealLeq);
    at :| 0 <= at < |vals| && Sort(vals, RealLeq)[at] == i;
  }

  /** What is reported for a key that is no counter is the median of its values exactly
      when fewer than half of them are less than the last, and fewer than half greater. */
  lemma MedianIsReportedExactly(f: Floats, points: seq<Point>, a: Aggregate)
    requires a in Aggregates(f, Sorted(points)) && !IsCounter(a.attributes)
    ensures var vals := Numbers(f, Filter(points, AggregateKey(a)));
      && vals != []
      && (a.value == Median(vals) <==>
            2 * Beyond(vals, vals[|vals| - 1], false) < |vals| && 2 * Beyond(vals, vals[|vals| - 1], true) < |vals|)
  {
    AggregateOfKey(f, points, AggregateKey(a), a);
    var vals := Numbers(f, Filter(points, AggregateKey(a)));
    var last := vals[|vals| - 1];
    RankedRises(vals, last);
    var at := RankedHolds(vals, |vals| - 1);
    MiddleExactly(Ranked(vals), at);
  }

  lemma MedianOfTwo(x: real, y: real)
    requires x <= y
    ensures Median([x, y]) == (x + y) / 2.0
  {
    var vals := [x, y];
    assert Insert([0], vals, RealLeq, 1) == [0, 1];
    assert SortPrefix(vals, RealLeq, 1) == [0] by {
      assert SortPrefix(vals, RealLeq, 0) == [];
    }
    assert Sort(vals, RealLeq) == [0, 1];
    assert Ranked(vals) == vals;
  }

  lemma OneMore(f: Floats, group: seq<Point>, v: string)
    ensures var more := group + [Point("m", 0, v, map[])];
      && Numbers(f, more) == Numbers(f, group) + (if f(v).Some? then [f(v).value] else [])
      && (Merged(f, group) == map[] ==> Merged(f, more) == map[])
      && Filter(more, Key(0, "m", None, None)) == Filter(group, Key(0, "m", None, None)) + [Point("m", 0, v, map[])]
  {
    var more := group + [Point("m", 0, v, map[])];
    assert more[..|more| - 1] == group;
  }

  /** Of two points of one second with the values 1 and 3 the latter is reported, and not
      their median 2. */
  lemma LastOfTwoIsReported(f: Floats)
    requires f("1") == Some(1.0) && f("3") == Some(3.0)
    ensures var points := [Point("m", 0, "1", map[]), Point("m", 0, "3", map[])];
      && Aggregate("m", 0, 3.0, map[]) in Aggregates(f, Sorted(points))
      && Numbers(f, points) == [1.0, 3.0]
      && Median([1.0, 3.0]) == 2.0
  {
    var first, second := Point("m", 0, "1", map[]), Point("m", 0, "3", map[]);
    var k := Key(0, "m", None, None);
    OneMore(f, [], "1");
    assert [] + [first] == [first];
    OneMore(f, [first], "3");
    var points := [first] + [second];
    assert points == [first, second];
    assert Filter(points, k) == points;
    AggregateOfKey(f, points, k, Aggregate("m", 0, 3.0, map[]));
    MedianOfTwo(1.0, 3.0);
  }
}
