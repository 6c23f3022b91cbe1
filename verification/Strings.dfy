/** Python's order on strings and `sorted(set(tags))`. */
module Strings {
  import opened Seqs
  import opened StableSort

  predicate Leq(a: string, b: string) {
    a == [] || (b != [] && (a[0] < b[0] || (a[0] == b[0] && Leq(a[1..], b[1..]))))
  }

  lemma {:induction false} LeqTotal(a: string, b: string)
    ensures Leq(a, b) || Leq(b, a)
    ensures Leq(a, b) && Leq(b, a) ==> a == b
  {
    if a != [] && b != [] && a[0] == b[0] {
      LeqTotal(a[1..], b[1..]);
      assert a == [a[0]] + a[1..] && b == [b[0]] + b[1..];
    }
  }

  lemma {:induction false} LeqTransitive(a: string, b: string, c: string)
    requires Leq(a, b) && Leq(b, c)
    ensures Leq(a, c)
  {
    if a != [] && a[0] == b[0] == c[0] {
      LeqTransitive(a[1..], b[1..], c[1..]);
    }
  }

  /** `n` characters are the same, and then `a` ends or has the smaller one. */
  predicate Precedes(a: string, b: string, n: nat) {
    n <= |a| && n <= |b| && a[..n] == b[..n] && (n == |a| || (n < |b| && a[n] < b[n]))
  }

  /** The order is that of the first characters that differ, shorter strings first. */
  lemma {:induction false} LeqExactly(a: string, b: string)
    ensures Leq(a, b) <==> exists n :: 0 <= n <= |a| && Precedes(a, b, n)
  {
    if a != [] && b != [] && a[0] == b[0] {
      LeqExactly(a[1..], b[1..]);
      assert a == [a[0]] + a[1..] && b == [b[0]] + b[1..];
      forall n | 0 <= n <= |a[1..]| && Precedes(a[1..], b[1..], n) ensures Precedes(a, b, n + 1) {
        assert a[..n + 1] == [a[0]] + a[1..][..n] && b[..n + 1] == [b[0]] + b[1..][..n];
      }
      forall n | 0 < n <= |a| && Precedes(a, b, n) ensures Precedes(a[1..], b[1..], n - 1) {
        assert a[1..][..n - 1] == a[..n][1..] && b[1..][..n - 1] == b[..n][1..];
      }
      if exists n :: 0 <= n <= |a| && Precedes(a, b, n) {
        var n :| 0 <= n <= |a| && Precedes(a, b, n);
        assert n > 0 && Precedes(a[1..], b[1..], n - 1);
      }
    } else {
      assert Leq(a, b) <==> Precedes(a, b, 0);
      forall n | 0 < n <= |a| ensures !Precedes(a, b, n) {
        if n <= |b| {
          assert a[..n][0] == a[0] && b[..n][0] == b[0];
        }
      }
    }
  }

  /** `sorted(tags)` */
  function Sorted(tags: seq<string>): seq<string> {
    Permute(tags, Sort(tags, Leq))
  }

  /** In order, and the given tags rearranged. */
  lemma SortedTags(tags: seq<string>)
    ensures var r := Sorted(tags); |r| == |tags| && forall i, j :: 0 <= i < j < |r| ==> Leq(r[i], r[j])
    ensures exists p: seq<nat> ::
              |p| == |tags| && IndicesBelow(p, |tags|) && NoDup(p) && Sorted(tags) == Permute(tags, p)
  {
    forall a, b ensures Leq(a, b) || Leq(b, a) {
      LeqTotal(a, b);
    }
    forall a, b, c | Leq(a, b) && Leq(b, c) ensures Leq(a, c) {
      LeqTransitive(a, b, c);
    }
    SortIsStable(tags, Leq);
    var p := Sort(tags, Leq);
    forall i, j | 0 <= i < j < |p| ensures Leq(tags[p[i]], tags[p[j]]) {
      assert Earlier(tags, Leq, p[i], p[j]);
    }
  }

  predicate Less(a: string, b: string) {
    Leq(a, b) && a != b
  }

  ghost predicate Ascending(s: seq<string>) {
    forall i, j :: 0 <= i < j < |s| ==> Less(s[i], s[j])
  }

  function Place(t: string, s: seq<string>): seq<string> {
    if s == [] then [t]
    else if s[0] == t then s
    else if Leq(t, s[0]) then [t] + s
    else [s[0]] + Place(t, s[1..])
  }

  /** `sorted(set(tags))` */
  function Canonical(tags: seq<string>): seq<string> {
    if tags == [] then [] else Place(tags[0], Canonical(tags[1..]))
  }

  lemma {:induction false} PlaceElems(t: string, s: seq<string>, x: string)
    ensures x in Place(t, s) <==> x in s || x == t
  {
    if s != [] && s[0] != t && !Leq(t, s[0]) {
      PlaceElems(t, s[1..], x);
    }
  }

  lemma {:induction false} PlaceAscending(t: string, s: seq<string>)
    requires Ascending(s)
    ensures Ascending(Place(t, s))
  {
    if s != [] && s[0] != t {
      LeqTotal(s[0], t);
      if Leq(t, s[0]) {
        forall j | 0 < j < |s| ensures Less(t, s[j]) {
          LeqTransitive(t, s[0], s[j]);
          LeqTotal(s[0], s[j]);
        }
      } else {
        PlaceAscending(t, s[1..]);
        var rest := Place(t, s[1..]);
        forall j | 0 <= j < |rest| ensures Less(s[0], rest[j]) {
          PlaceElems(t, s[1..], rest[j]);
        }
      }
    }
  }

  lemma {:induction false} CanonicalAscending(tags: seq<string>)
    ensures Ascending(Canonical(tags)) && Elems(Canonical(tags)) == Elems(tags)
  {
    if tags != [] {
      var rest := Canonical(tags[1..]);
      CanonicalAscending(tags[1..]);
      PlaceAscending(tags[0], rest);
      forall x ensures x in Canonical(tags) <==> x in tags {
        PlaceElems(tags[0], rest, x);
        assert x in Elems(rest) <==> x in Elems(tags[1..]);
      }
    }
  }

  lemma {:induction false} AscendingUnique(a: seq<string>, b: seq<string>)
    requires Ascending(a) && Ascending(b) && Elems(a) == Elems(b)
    ensures a == b
  {
    if b != [] {
      assert b[0] in Elems(a);
    }
    if a != [] {
      assert a[0] in Elems(b);
      LeqTotal(a[0], b[0]);
      forall x ensures x in Elems(a[1..]) <==> x in Elems(b[1..]) {
        assert a == [a[0]] + a[1..] && b == [b[0]] + b[1..];
        assert x in Elems(a) <==> x in Elems(b);
      }
      AscendingUnique(a[1..], b[1..]);
      assert a == [a[0]] + a[1..] && b == [b[0]] + b[1..];
    }
  }

  /** Two tag lists give the same context exactly when they hold the same tags. */
  lemma CanonicalIff(a: seq<string>, b: seq<string>)
    ensures Canonical(a) == Canonical(b) <==> Elems(a) == Elems(b)
  {
    CanonicalAscending(a);
    CanonicalAscending(b);
    if Elems(a) == Elems(b) {
      AscendingUnique(Canonical(a), Canonical(b));
    }
  }
}

/** Python's `split` and `join` on one character. */
module Text {
  function Split(s: string, c: char): (parts: seq<string>)
    ensures parts != []
  {
    if s == [] then [[]] else Push(s[0], c, Split(s[1..], c))
  }

  /** One more character in front: a separator begins a new first part. */
  function Push(x: char, c: char, parts: seq<string>): (r: seq<string>)
    requires parts != []
    ensures r != []
  {
    if x == c then [[]] + parts else [[x] + parts[0]] + parts[1..]
  }

  lemma PushAppend(x: char, c: char, parts: seq<string>, more: seq<string>)
    requires parts != []
    ensures Push(x, c, parts + more) == Push(x, c, parts) + more
  {
    assert (parts + more)[0] == parts[0] && (parts + more)[1..] == parts[1..] + more;
  }

  function Join(parts: seq<string>, c: char): string
    requires parts != []
  {
    if |parts| == 1 then parts[0] else parts[0] + [c] + Join(parts[1..], c)
  }

  /** `split(c, 1)`, when there is a `c`. */
  function Cut(s: string, c: char): (r: seq<string>)
    ensures |r| == 2 || (r == [s] && c !in s)
  {
    if s == [] then [s]
    else if s[0] == c then [[], s[1..]]
    else
      var r := Cut(s[1..], c);
      assert s == [s[0]] + s[1..];
      if |r| == 2 then [[s[0]] + r[0], r[1]] else [s]
  }

  lemma {:induction false} CutAtFirst(a: string, b: string, c: char)
    requires c !in a
    ensures Cut(a + [c] + b, c) == [a, b]
  {
    var s := a + [c] + b;
    if a == [] {
      assert s[1..] == b;
    } else {
      CutAtFirst(a[1..], b, c);
      assert s[0] == a[0] && a[0] in a;
      assert s[1..] == a[1..] + [c] + b && a == [a[0]] + a[1..];
    }
  }

  lemma {:induction false} SplitAppend(a: string, b: string, c: char)
    ensures Split(a + [c] + b, c) == Split(a, c) + Split(b, c)
  {
    var s := a + [c] + b;
    if a == [] {
      assert s[1..] == b;
    } else {
      SplitAppend(a[1..], b, c);
      assert s[0] == a[0] && s[1..] == a[1..] + [c] + b;
      PushAppend(a[0], c, Split(a[1..], c), Split(b, c));
    }
  }

  lemma {:induction false} SplitPlain(s: string, c: char)
    requires c !in s
    ensures Split(s, c) == [s]
  {
    if s != [] {
      SplitPlain(s[1..], c);
      assert s[0] in s && s == [s[0]] + s[1..];
    }
  }

  lemma {:induction false} SplitPrefix(a: string, b: string, c: char)
    requires c !in a
    ensures Split(a + b, c) == [a + Split(b, c)[0]] + Split(b, c)[1..]
  {
    if a == [] {
      assert a + b == b && a + Split(b, c)[0] == Split(b, c)[0];
    } else {
      SplitPrefix(a[1..], b, c);
      assert (a + b)[1..] == a[1..] + b && a[0] in a;
      assert [a[0]] + (a[1..] + Split(b, c)[0]) == a + Split(b, c)[0];
    }
  }

  lemma {:induction false} JoinChars(parts: seq<string>, c: char, x: char)
    requires parts != [] && x != c && forall i :: 0 <= i < |parts| ==> x !in parts[i]
    ensures x !in Join(parts, c)
  {
    if |parts| > 1 {
      JoinChars(parts[1..], c, x);
    }
  }

  lemma {:induction false} SplitParts(s: string, c: char, i: nat)
    requires i < |Split(s, c)|
    ensures c !in Split(s, c)[i]
    ensures forall x :: x in Split(s, c)[i] ==> x in s
  {
    if s != [] {
      if s[0] == c {
        if i > 0 {
          SplitParts(s[1..], c, i - 1);
        }
      } else {
        SplitParts(s[1..], c, i);
      }
    }
  }

  lemma JoinFirst(x: string, rest: seq<string>, c: char)
    requires rest != []
    ensures Join([x] + rest, c) == x + [c] + Join(rest, c)
  {
    assert ([x] + rest)[1..] == rest;
  }

  lemma {:induction false} JoinAppend(xs: seq<string>, x: string, c: char)
    requires xs != []
    ensures Join(xs + [x], c) == Join(xs, c) + [c] + x
  {
    if |xs| > 1 {
      JoinAppend(xs[1..], x, c);
      assert (xs + [x])[1..] == xs[1..] + [x];
    }
  }

  lemma {:induction false} JoinSplit(s: string, c: char)
    ensures Join(Split(s, c), c) == s
  {
    if s != [] {
      JoinSplit(s[1..], c);
    }
  }

  lemma {:induction false} SplitJoin(parts: seq<string>, c: char)
    requires parts != [] && forall i :: 0 <= i < |parts| ==> c !in parts[i]
    ensures Split(Join(parts, c), c) == parts
  {
    SplitPlain(parts[0], c);
    if |parts| > 1 {
      SplitJoin(parts[1..], c);
      SplitAppend(parts[0], Join(parts[1..], c), c);
    }
  }
}
