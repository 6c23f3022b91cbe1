/** Small shared vocabulary: optional values, duplicate-free sequences and the
    stable sort that Python's `sorted` and `list.sort` perform. */
module Wrappers {
  datatype Option<+T> = None | Some(value: T)
}

module Seqs {
  ghost predicate NoDup<T>(s: seq<T>) {
    forall i, j :: 0 <= i < j < |s| ==> s[i] != s[j]
  }

  ghost function Elems<T>(s: seq<T>): set<T> {
    set x | x in s
  }

  /** `list.remove`: drops the first occurrence. */
  function RemoveFirst<T(==)>(s: seq<T>, x: T): seq<T> {
    if s == [] then []
    else if s[0] == x then s[1..]
    else [s[0]] + RemoveFirst(s[1..], x)
  }

  lemma {:induction false} RemoveFirstElems<T>(s: seq<T>, x: T)
    ensures x !in s ==> RemoveFirst(s, x) == s
    ensures x in s ==> |RemoveFirst(s, x)| == |s| - 1
    ensures forall y :: y in RemoveFirst(s, x) ==> y in s
    ensures forall y :: y in s && y != x ==> y in RemoveFirst(s, x)
  {
    if s != [] && s[0] != x {
      RemoveFirstElems(s[1..], x);
    }
  }

  lemma {:induction false} RemoveFirstNoDup<T>(s: seq<T>, x: T)
    requires NoDup(s)
    ensures NoDup(RemoveFirst(s, x)) && x !in RemoveFirst(s, x)
    ensures forall y :: y in RemoveFirst(s, x) <==> y in s && y != x
  {
    RemoveFirstElems(s, x);
    if s != [] && s[0] != x {
      var t := s[1..];
      RemoveFirstNoDup(t, x);
      RemoveFirstElems(t, x);
      assert s[0] !in RemoveFirst(t, x);
    } else if s != [] {
      assert x !in s[1..];
    }
  }
}

/** What lists of lists and of numbers come to. */
module Sums {
  /** The lists laid end to end. */
  function Flatten<T>(xs: seq<seq<T>>): seq<T> {
    if xs == [] then [] else Flatten(xs[..|xs| - 1]) + xs[|xs| - 1]
  }

  lemma FlattenOne<T>(xs: seq<seq<T>>, x: seq<T>)
    ensures Flatten(xs + [x]) == Flatten(xs) + x
  {
    assert (xs + [x])[..|xs|] == xs;
  }

  lemma {:induction false} FlattenAppend<T>(xs: seq<seq<T>>, ys: seq<seq<T>>)
    ensures Flatten(xs + ys) == Flatten(xs) + Flatten(ys)
  {
    if ys == [] {
      assert xs + ys == xs;
    } else {
      var front, last := ys[..|ys| - 1], ys[|ys| - 1];
      FlattenAppend(xs, front);
      FlattenOne(xs + front, last);
      FlattenOne(front, last);
      assert ys == front + [last] && xs + ys == xs + front + [last];
    }
  }

  function Sum(xs: seq<real>): real {
    if xs == [] then 0.0 else Sum(xs[..|xs| - 1]) + xs[|xs| - 1]
  }
}

/** A stable sort, given as the permutation of indices it applies, so that the
    same permutation can be applied to a list of objects and to their names. */
module StableSort {
  ghost predicate TotalPreorder<K(!new)>(leq: (K, K) -> bool) {
    && (forall a, b :: leq(a, b) || leq(b, a))
    && (forall a, b, c :: leq(a, b) && leq(b, c) ==> leq(a, c))
  }

  /** Index `a` sorts before index `b`: by key, then by position. */
  predicate Earlier<K>(keys: seq<K>, leq: (K, K) -> bool, a: nat, b: nat)
    requires a < |keys| && b < |keys|
  {
    leq(keys[a], keys[b]) && (leq(keys[b], keys[a]) ==> a < b)
  }

  ghost predicate IndicesBelow(p: seq<nat>, n: nat) {
    forall i :: 0 <= i < |p| ==> p[i] < n
  }

  ghost predicate IsSorted<K>(p: seq<nat>, keys: seq<K>, leq: (K, K) -> bool)
    requires IndicesBelow(p, |keys|)
  {
    forall i, j :: 0 <= i < j < |p| ==> Earlier(keys, leq, p[i], p[j])
  }

  function Insert<K>(p: seq<nat>, keys: seq<K>, leq: (K, K) -> bool, x: nat): (r: seq<nat>)
    requires x < |keys| && IndicesBelow(p, |keys|)
    ensures IndicesBelow(r, |keys|) && |r| == |p| + 1
    ensures forall y :: y in r <==> y in p || y == x
  {
    if p == [] then [x]
    else
      var last := p[|p| - 1];
      if leq(keys[last], keys[x]) then p + [x]
      else
        var front := p[..|p| - 1];
        assert p == front + [last];
        Insert(front, keys, leq, x) + [last]
  }

  lemma {:induction false} InsertSorted<K(!new)>(p: seq<nat>, keys: seq<K>, leq: (K, K) -> bool, x: nat)
    requires TotalPreorder(leq) && x < |keys| && IndicesBelow(p, |keys|)
    requires IsSorted(p, keys, leq) && forall y :: y in p ==> y < x
    ensures IsSorted(Insert(p, keys, leq, x), keys, leq)
  {
    if p != [] {
      var last := p[|p| - 1];
      if leq(keys[last], keys[x]) {
        forall i | 0 <= i < |p| ensures Earlier(keys, leq, p[i], x) {
          assert p[i] in p;
        }
      } else {
        var front := p[..|p| - 1];
        forall y | y in front ensures y < x {
          assert y in p;
        }
        InsertSorted(front, keys, leq, x);
        var r := Insert(front, keys, leq, x);
        forall i | 0 <= i < |r| ensures Earlier(keys, leq, r[i], last) {
          assert r[i] in r;
          if r[i] != x {
            var j :| 0 <= j < |front| && front[j] == r[i];
            assert p[j] == r[i];
          }
        }
      }
    }
  }

  /** The first `n` indices, in sorted order. */
  function SortPrefix<K>(keys: seq<K>, leq: (K, K) -> bool, n: nat): (p: seq<nat>)
    requires n <= |keys|
    ensures |p| == n && IndicesBelow(p, |keys|)
    ensures forall y :: y in p <==> 0 <= y < n
  {
    if n == 0 then [] else Insert(SortPrefix(keys, leq, n - 1), keys, leq, n - 1)
  }

  function Sort<K>(keys: seq<K>, leq: (K, K) -> bool): (p: seq<nat>)
    ensures |p| == |keys| && IndicesBelow(p, |keys|)
    ensures forall y :: y in p <==> 0 <= y < |keys|
  {
    SortPrefix(keys, leq, |keys|)
  }

  lemma {:induction false} SortPrefixSorted<K(!new)>(keys: seq<K>, leq: (K, K) -> bool, n: nat)
    requires TotalPreorder(leq) && n <= |keys|
    ensures IsSorted(SortPrefix(keys, leq, n), keys, leq)
  {
    if n > 0 {
      SortPrefixSorted(keys, leq, n - 1);
      InsertSorted(SortPrefix(keys, leq, n - 1), keys, leq, n - 1);
    }
  }

  /** Sorted by key, equal keys in their original order, every index once. */
  lemma SortIsStable<K(!new)>(keys: seq<K>, leq: (K, K) -> bool)
    requires TotalPreorder(leq)
    ensures IsSorted(Sort(keys, leq), keys, leq)
    ensures forall i, j :: 0 <= i < j < |keys| ==> Sort(keys, leq)[i] != Sort(keys, leq)[j]
  {
    SortPrefixSorted(keys, leq, |keys|);
    var p := Sort(keys, leq);
    forall i, j | 0 <= i < j < |keys| ensures p[i] != p[j] {
      assert Earlier(keys, leq, p[i], p[j]);
    }
  }

  /** The list rearranged by a permutation of its indices. */
  function Permute<T>(xs: seq<T>, p: seq<nat>): (r: seq<T>)
    requires IndicesBelow(p, |xs|)
    ensures |r| == |p| && forall i :: 0 <= i < |p| ==> r[i] == xs[p[i]]
  {
    seq(|p|, i requires 0 <= i < |p| && p[i] < |xs| => xs[p[i]])
  }

  /** Sorting a list by its keys rearranges it: the same elements, each once. */
  lemma SortedList<T, K(!new)>(xs: seq<T>, keys: seq<K>, leq: (K, K) -> bool)
    requires TotalPreorder(leq) && |keys| == |xs|
    ensures forall x :: x in Permute(xs, Sort(keys, leq)) <==> x in xs
    ensures (forall i, j :: 0 <= i < j < |xs| ==> xs[i] != xs[j]) ==>
              forall i, j :: 0 <= i < j < |xs| ==> Permute(xs, Sort(keys, leq))[i] != Permute(xs, Sort(keys, leq))[j]
  {
    SortIsStable(keys, leq);
    var p := Sort(keys, leq);
    var r := Permute(xs, p);
    forall x | x in xs ensures x in r {
      var a :| 0 <= a < |xs| && xs[a] == x;
      assert a in p;
      var i :| 0 <= i < |p| && p[i] == a;
      assert r[i] == x;
    }
  }
}
