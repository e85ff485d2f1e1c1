/** Small datatypes and sequence facts shared by the models. */
module Basics {
  datatype Option<+T> = None | Some(value: T)

  datatype Result<+T, +E> = Ok(value: T) | Err(error: E)

  function Max(a: nat, b: nat): nat { if a < b then b else a }

  function Min(a: nat, b: nat): nat { if a < b then a else b }

  /** The sequence 0, 1, ..., n-1. */
  function Iota(n: nat): (s: seq<nat>)
    ensures |s| == n && forall k :: 0 <= k < n ==> s[k] == k
  {
    seq(n, k => k)
  }

  function Flatten<T>(parts: seq<seq<T>>): seq<T> {
    if parts == [] then [] else parts[0] + Flatten(parts[1..])
  }

  lemma {:induction false} FlattenConcat<T>(a: seq<seq<T>>, b: seq<seq<T>>)
    ensures Flatten(a + b) == Flatten(a) + Flatten(b)
  {
    if a == [] {
      assert a + b == b;
    } else {
      FlattenConcat(a[1..], b);
      assert (a + b)[0] == a[0] && (a + b)[1..] == a[1..] + b;
      assert a[0] + (Flatten(a[1..]) + Flatten(b)) == (a[0] + Flatten(a[1..])) + Flatten(b);
    }
  }

  lemma FlattenSnoc<T>(a: seq<seq<T>>, last: seq<T>)
    ensures Flatten(a + [last]) == Flatten(a) + last
  {
    FlattenConcat(a, [last]);
    assert Flatten([last]) == last + Flatten<T>([]);
  }

  predicate Distinct<T(==)>(s: seq<T>) {
    forall i, j :: 0 <= i < j < |s| ==> s[i] != s[j]
  }

  /** Removing the largest index from a duplicate-free cover of 0..n-1 leaves a cover of 0..n-2. */
  lemma DropLargest(order: seq<nat>, n: nat, j: nat) returns (rest: seq<nat>)
    requires Distinct(order) && forall k :: k in order <==> 0 <= k < n
    requires j < |order| && order[j] == n - 1
    ensures rest == order[..j] + order[j+1..]
    ensures Distinct(rest) && forall k :: k in rest <==> 0 <= k < n - 1
  {
    rest := order[..j] + order[j+1..];
    forall k ensures k in rest <==> 0 <= k < n - 1 {
      if k in rest { assert k in order; }
      if 0 <= k < n - 1 {
        assert k in order;
        var i :| 0 <= i < |order| && order[i] == k;
        assert rest[if i < j then i else i - 1] == k;
      }
    }
  }

  lemma RemoveOne<T>(s: seq<T>, j: nat)
    requires j < |s|
    ensures multiset(s) == multiset(s[..j] + s[j+1..]) + multiset{s[j]}
  {
    assert s == s[..j] + [s[j]] + s[j+1..];
  }

  /** Reading `values` in the order of a permutation of its indices keeps the multiset of values. */
  lemma {:induction false} PermutedValues<T>(order: seq<nat>, values: seq<T>, permuted: seq<T>)
    requires Distinct(order) && |order| == |values| == |permuted|
    requires forall k :: k in order <==> 0 <= k < |values|
    requires forall k :: 0 <= k < |order| ==> order[k] < |values| && permuted[k] == values[order[k]]
    ensures multiset(permuted) == multiset(values)
  {
    if values != [] {
      var n := |values| - 1;
      assert n in order;
      var j :| 0 <= j < |order| && order[j] == n;
      var order' := DropLargest(order, n + 1, j);
      var permuted' := permuted[..j] + permuted[j+1..];
      forall k | 0 <= k < |order'| ensures order'[k] < n && permuted'[k] == values[..n][order'[k]] {
        assert order'[k] in order';
      }
      PermutedValues(order', values[..n], permuted');
      RemoveOne(permuted, j);
      RemoveOne(values, n);
      assert values[..n] + values[n+1..] == values[..n];
    }
  }

  /** A duplicate-free sequence over 0..n-1 that holds them all has length n. */
  lemma {:induction false} DistinctCoverLength(order: seq<nat>, n: nat)
    requires Distinct(order)
    requires forall k :: k in order <==> 0 <= k < n
    ensures |order| == n
  {
    if n > 0 {
      assert n - 1 in order;
      var j :| 0 <= j < |order| && order[j] == n - 1;
      var rest := DropLargest(order, n, j);
      DistinctCoverLength(rest, n - 1);
    } else {
      assert FirstOr(order, 0) in order <==> 0 <= FirstOr(order, 0) < n;
    }
  }

  function FirstOr(s: seq<nat>, default: nat): (first: nat)
    ensures s != [] ==> first in s
  {
    if s == [] then default else s[0]
  }

  lemma MoveToFront<T>(s: seq<T>, j: nat) returns (p: seq<T>)
    requires j < |s|
    ensures multiset(p) == multiset(s)
    ensures p != [] && p[0] == s[j]
  {
    p := [s[j]] + (s[..j] + s[j+1..]);
    RemoveOne(s, j);
  }
}
