/** Small value-level tools shared by the models: options, ordered keys, and
    order-free aggregation over maps (the source iterates `HashMap`s, so nothing
    may depend on the order in which the entries come). */
module Folds {

  datatype Option<+T> = None | Some(value: T)

  /** The numbers from `lo` up to but not including `hi`. */
  function Between(lo: nat, hi: nat): (s: set<nat>)
    ensures forall q :: q in s <==> lo <= q < hi
  {
    if lo >= hi then {} else Between(lo, hi - 1) + {hi - 1}
  }

  /** A series with one entry taken out. */
  function Without<T>(xs: seq<T>, i: nat): seq<T>
    requires i < |xs|
  {
    xs[..i] + xs[i + 1..]
  }

  /** Collects a contribution of every entry of a map. */
  ghost function Gather<K, V, T>(m: map<K, V>, part: V -> multiset<T>): multiset<T>
    decreases |m|
  {
    if m == map[] then multiset{}
    else
      var k :| k in m;
      part(m[k]) + Gather(m - {k}, part)
  }

  /** Any entry may be taken out first. */
  lemma {:induction false} GatherSplit<K, V, T>(m: map<K, V>, part: V -> multiset<T>, k: K)
    requires k in m
    ensures Gather(m, part) == part(m[k]) + Gather(m - {k}, part)
    decreases |m|
  {
    var j :| j in m && Gather(m, part) == part(m[j]) + Gather(m - {j}, part);
    if j != k {
      GatherSplit(m - {j}, part, k);
      GatherSplit(m - {k}, part, j);
      assert m - {j} - {k} == m - {k} - {j};
    }
  }

  lemma GatherUpdate<K, V, T>(m: map<K, V>, part: V -> multiset<T>, k: K, v: V)
    ensures Gather(m[k := v], part) == part(v) + Gather(m - {k}, part)
  {
    GatherSplit(m[k := v], part, k);
    assert m[k := v] - {k} == m - {k};
  }

  /** Adds up a natural-number measure of every entry of a map. */
  ghost function Sum<K, V>(m: map<K, V>, size: (K, V) -> nat): nat
    decreases |m|
  {
    if m == map[] then 0
    else
      var k :| k in m;
      size(k, m[k]) + Sum(m - {k}, size)
  }

  lemma {:induction false} SumSplit<K, V>(m: map<K, V>, size: (K, V) -> nat, k: K)
    requires k in m
    ensures Sum(m, size) == size(k, m[k]) + Sum(m - {k}, size)
    decreases |m|
  {
    var j :| j in m && Sum(m, size) == size(j, m[j]) + Sum(m - {j}, size);
    if j != k {
      SumSplit(m - {j}, size, k);
      SumSplit(m - {k}, size, j);
      assert m - {j} - {k} == m - {k} - {j};
    }
  }

  lemma SumUpdate<K, V>(m: map<K, V>, size: (K, V) -> nat, k: K, v: V)
    ensures Sum(m[k := v], size) == size(k, v) + Sum(m - {k}, size)
  {
    SumSplit(m[k := v], size, k);
    assert m[k := v] - {k} == m - {k};
  }

  /** Every non-empty set of naturals has a least element. */
  lemma {:induction false} LeastExists(s: set<nat>, z: nat)
    requires z in s
    ensures exists x :: x in s && forall y :: y in s ==> x <= y
    decreases z
  {
    if y :| y in s && y < z {
      LeastExists(s, y);
    }
  }

  function Least(s: set<nat>): (x: nat)
    requires s != {}
    ensures x in s && forall y :: y in s ==> x <= y
  {
    var z :| z in s;
    LeastExists(s, z);
    var x :| x in s && forall y :: y in s ==> x <= y;
    x
  }

  lemma {:induction false} GreatestExists(s: set<nat>)
    requires s != {}
    ensures exists x :: x in s && forall y :: y in s ==> y <= x
    decreases |s|
  {
    var z :| z in s;
    if s - {z} != {} {
      GreatestExists(s - {z});
      var x :| x in s - {z} && forall y :: y in s - {z} ==> y <= x;
      var m := if x <= z then z else x;
      assert m in s && forall y :: y in s ==> y == z || y in s - {z};
    } else {
      assert s == {z};
    }
  }

  /** The greatest element of a non-empty set. */
  function Greatest(s: set<nat>): (x: nat)
    requires s != {}
    ensures x in s && forall y :: y in s ==> y <= x
  {
    GreatestExists(s);
    var x :| x in s && forall y :: y in s ==> y <= x;
    x
  }

  /** The keys of an ordered map in ascending order, as `BTreeMap` yields them. */
  function Ascending(s: set<nat>): (ks: seq<nat>)
    ensures |ks| == |s|
    ensures forall k :: k in ks <==> k in s
    ensures forall i, j :: 0 <= i < j < |ks| ==> ks[i] < ks[j]
    decreases s
  {
    if s == {} then []
    else
      var x := Least(s);
      var rest := Ascending(s - {x});
      assert forall k :: k in s <==> k == x || k in s - {x};
      assert forall i :: 0 <= i < |rest| ==> rest[i] in s - {x};
      [x] + rest
  }
}
