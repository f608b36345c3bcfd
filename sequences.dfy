/** Sequence operations shared by the cache and the pairing search: Python's
    `zip`, NumPy's fancy indexing `np.array(xs)[idx]`, and permutations of
    the index range [0, n). */
module Sequences {

  /** `list(zip(a, b))`: pairs of equal positions, stopping at the shorter list. */
  function Zip<A, B>(a: seq<A>, b: seq<B>): (r: seq<(A, B)>)
    ensures |r| == if |a| <= |b| then |a| else |b|
    ensures forall k :: 0 <= k < |r| ==> r[k] == (a[k], b[k])
  {
    if |a| == 0 || |b| == 0 then [] else [(a[0], b[0])] + Zip(a[1..], b[1..])
  }

  /** The element indices `idx` are all valid positions of a sequence of length n. */
  predicate InRange(idx: seq<nat>, n: nat)
  {
    forall k :: 0 <= k < |idx| ==> idx[k] < n
  }

  /** `np.array(xs)[idx]`: the elements of xs at the positions listed in idx, in that order. */
  function Select<T>(xs: seq<T>, idx: seq<nat>): (r: seq<T>)
    requires InRange(idx, |xs|)
    ensures |r| == |idx|
    ensures forall k :: 0 <= k < |r| ==> r[k] == xs[idx[k]]
  {
    if idx == [] then [] else [xs[idx[0]]] + Select(xs, idx[1..])
  }

  /** The indices 0, 1, ..., n - 1 in increasing order. */
  function Range(n: nat): (r: seq<nat>)
    ensures |r| == n
    ensures forall k :: 0 <= k < n ==> r[k] == k
  {
    if n == 0 then [] else Range(n - 1) + [n - 1]
  }

  /** s lists every index of [0, n) exactly once: what `np.random.choice(n, n, replace=False)` draws. */
  predicate IsPermutation(s: seq<nat>, n: nat)
  {
    multiset(s) == multiset(Range(n))
  }

  predicate Distinct<T(==)>(s: seq<T>)
  {
    forall a, b :: 0 <= a < b < |s| ==> s[a] != s[b]
  }

  /** A permutation of [0, n) has n entries, each a valid index, none repeated. */
  lemma PermutationShape(s: seq<nat>, n: nat)
    requires IsPermutation(s, n)
    ensures |s| == n && InRange(s, n) && Distinct(s)
  {
    var r := Range(n);
    assert |s| == |multiset(s)| == |multiset(r)| == n;
    forall k | 0 <= k < |s| ensures s[k] < n {
      assert s[k] in multiset(s);
      assert s[k] in multiset(r);
      assert s[k] in r;
    }
    forall a, b | 0 <= a < b < |s| ensures s[a] != s[b] {
      if s[a] == s[b] {
        var v := s[a];
        assert forall k :: 0 <= k < n && r[k] == v ==> k == v;
        RangeCountOne(n, v);
        CountAtLeastTwo(s, a, b);
        assert false;
      }
    }
  }

  /** Every index below n occurs exactly once in Range(n). */
  lemma {:induction false} RangeCountOne(n: nat, v: nat)
    requires v < n
    ensures multiset(Range(n))[v] == 1
  {
    if v < n - 1 {
      RangeCountOne(n - 1, v);
    } else {
      assert v !in Range(n - 1);
    }
  }

  /** A value found at two distinct positions occurs at least twice. */
  lemma CountAtLeastTwo<T>(s: seq<T>, a: nat, b: nat)
    requires a < b < |s| && s[a] == s[b]
    ensures multiset(s)[s[a]] >= 2
  {
    assert s == s[..b] + [s[b]] + s[b + 1..];
    assert s[a] in s[..b];
  }

  /** What Select gathers depends, as a multiset, only on the multiset of indices. */
  lemma {:induction false} SelectSameMultiset<T>(xs: seq<T>, s: seq<nat>, t: seq<nat>)
    requires InRange(s, |xs|) && InRange(t, |xs|)
    requires multiset(s) == multiset(t)
    ensures multiset(Select(xs, s)) == multiset(Select(xs, t))
    decreases |s|
  {
    if s == [] {
      assert |t| == |multiset(t)| == 0;
    } else {
      var a := s[0];
      assert a in multiset(s);
      var p := Find(t, a);
      var t' := t[..p] + t[p + 1..];
      assert multiset(s[1..]) == multiset(t') by {
        RemoveOne(s, 0);
        RemoveOne(t, p);
        assert s[..0] + s[1..] == s[1..];
        Cancel(multiset(s[1..]), multiset(t'), a);
      }
      assert InRange(s[1..], |xs|) && InRange(t', |xs|) by {
        SelectRemoveOne(xs, t, p);
      }
      assert multiset(Select(xs, s[1..])) == multiset(Select(xs, t')) by {
        SelectSameMultiset(xs, s[1..], t');
      }
      MultisetStep(xs, s, t, p);
    }
  }

  /** The inductive step of SelectSameMultiset: put back the copy of xs[s[0]] on both sides. */
  lemma MultisetStep<T>(xs: seq<T>, s: seq<nat>, t: seq<nat>, p: nat)
    requires InRange(s, |xs|) && InRange(t, |xs|)
    requires 0 < |s| && p < |t| && t[p] == s[0]
    requires InRange(t[..p] + t[p + 1..], |xs|)
    requires multiset(Select(xs, s[1..])) == multiset(Select(xs, t[..p] + t[p + 1..]))
    ensures multiset(Select(xs, s)) == multiset(Select(xs, t))
  {
    var x := xs[s[0]];
    assert Select(xs, s) == [x] + Select(xs, s[1..]);
    assert multiset(Select(xs, s)) == multiset(Select(xs, s[1..])) + multiset{x};
    SelectRemoveOne(xs, t, p);
  }

  /** Multiset union with a single copy of x can be cancelled. */
  lemma Cancel<T>(a: multiset<T>, b: multiset<T>, x: T)
    requires a + multiset{x} == b + multiset{x}
    ensures a == b
  {
    assert forall v :: a[v] == (a + multiset{x})[v] - multiset{x}[v];
    assert forall v :: b[v] == (b + multiset{x})[v] - multiset{x}[v];
  }

  lemma Find<T>(t: seq<T>, a: T) returns (p: nat)
    requires a in multiset(t)
    ensures p < |t| && t[p] == a
  {
    assert a in t;
    p :| 0 <= p < |t| && t[p] == a;
  }

  /** Taking out position p removes exactly one copy of s[p]. */
  lemma RemoveOne<T>(s: seq<T>, p: nat)
    requires p < |s|
    ensures multiset(s) == multiset(s[..p] + s[p + 1..]) + multiset{s[p]}
  {
    assert s == s[..p] + [s[p]] + s[p + 1..];
  }

  /** Selecting without index position p drops exactly one copy of xs[idx[p]]. */
  lemma SelectRemoveOne<T>(xs: seq<T>, idx: seq<nat>, p: nat)
    requires InRange(idx, |xs|) && p < |idx|
    ensures InRange(idx[..p] + idx[p + 1..], |xs|)
    ensures multiset(Select(xs, idx)) == multiset(Select(xs, idx[..p] + idx[p + 1..])) + multiset{xs[idx[p]]}
  {
    var r := Select(xs, idx);
    var r' := Select(xs, idx[..p] + idx[p + 1..]);
    assert r' == r[..p] + r[p + 1..];
    RemoveOne(r, p);
  }

  lemma SelectRange<T>(xs: seq<T>)
    ensures InRange(Range(|xs|), |xs|)
    ensures Select(xs, Range(|xs|)) == xs
  {
  }

  /** Reindexing by a permutation rearranges the sequence: same elements, same multiplicities. */
  lemma SelectPermutation<T>(xs: seq<T>, s: seq<nat>)
    requires IsPermutation(s, |xs|)
    ensures InRange(s, |xs|)
    ensures multiset(Select(xs, s)) == multiset(xs)
  {
    PermutationShape(s, |xs|);
    SelectRange(xs);
    SelectSameMultiset(xs, s, Range(|xs|));
  }

  /** Reindexing two equally long lists by the same indices keeps their positions paired. */
  lemma ZipSelect<A, B>(a: seq<A>, b: seq<B>, s: seq<nat>)
    requires |a| == |b| && InRange(s, |a|)
    ensures Zip(Select(a, s), Select(b, s)) == Select(Zip(a, b), s)
  {
  }

  /** A sequence without repetitions has as many distinct elements as positions. */
  lemma {:induction false} DistinctCardinality<T>(s: seq<T>)
    requires Distinct(s)
    ensures |set x | x in s| == |s|
  {
    if s != [] {
      var init := s[..|s| - 1];
      var last := s[|s| - 1];
      assert Distinct(init);
      DistinctCardinality(init);
      assert (set x | x in s) == (set x | x in init) + {last};
      assert last !in (set x | x in init);
    }
  }
}
