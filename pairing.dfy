/** The exhaustive correspondence search of `getFilenamesLists`: for every depth
    key (outer loop) and every image key (inner loop), an equal pair of keys
    emits the image path and the depth path. Matches is the specification, as
    the (image index, depth index) pairs the loops find, in the order they find
    them; PairingSearch is the loop itself. */
module Pairing {
  import opened Sequences

  /** (image index, depth index) of one emitted pair. */
  type Match = (nat, nat)

  /** Matches of depth j against the image keys before position i, in image order. */
  function RowMatches(imageKeys: seq<string>, key: string, j: nat, i: nat): (r: seq<Match>)
    requires i <= |imageKeys|
    ensures forall k :: 0 <= k < |r| ==> r[k].0 < i && r[k].1 == j && imageKeys[r[k].0] == key
    decreases i
  {
    if i == 0 then []
    else RowMatches(imageKeys, key, j, i - 1) + (if imageKeys[i - 1] == key then [(i - 1, j)] else [])
  }

  /** Matches of the depth keys before position j, depth order first, image order second. */
  function MatchesUpTo(imageKeys: seq<string>, depthKeys: seq<string>, j: nat): (r: seq<Match>)
    requires j <= |depthKeys|
    ensures forall k :: 0 <= k < |r| ==>
      r[k].0 < |imageKeys| && r[k].1 < j && imageKeys[r[k].0] == depthKeys[r[k].1]
    decreases j
  {
    if j == 0 then []
    else MatchesUpTo(imageKeys, depthKeys, j - 1) + RowMatches(imageKeys, depthKeys[j - 1], j - 1, |imageKeys|)
  }

  /** Every (image, depth) index pair with equal keys, as the nested search emits them. */
  function Matches(imageKeys: seq<string>, depthKeys: seq<string>): (r: seq<Match>)
    ensures forall k :: 0 <= k < |r| ==>
      r[k].0 < |imageKeys| && r[k].1 < |depthKeys| && imageKeys[r[k].0] == depthKeys[r[k].1]
  {
    MatchesUpTo(imageKeys, depthKeys, |depthKeys|)
  }

  function ImageIndices(ms: seq<Match>): (r: seq<nat>)
    ensures |r| == |ms| && forall k :: 0 <= k < |r| ==> r[k] == ms[k].0
  {
    seq(|ms|, k requires 0 <= k < |ms| => ms[k].0)
  }

  function DepthIndices(ms: seq<Match>): (r: seq<nat>)
    ensures |r| == |ms| && forall k :: 0 <= k < |r| ==> r[k] == ms[k].1
  {
    seq(|ms|, k requires 0 <= k < |ms| => ms[k].1)
  }

  /** The image and depth index pairs whose keys are equal. */
  function MatchSet(imageKeys: seq<string>, depthKeys: seq<string>): set<Match>
  {
    set i: nat, j: nat | i < |imageKeys| && j < |depthKeys| && imageKeys[i] == depthKeys[j] :: (i, j)
  }

  /** p is emitted before q: an earlier depth, or the same depth and an earlier image. */
  predicate Before(p: Match, q: Match)
  {
    p.1 < q.1 || (p.1 == q.1 && p.0 < q.0)
  }

  predicate Ordered(ms: seq<Match>)
  {
    forall a, b :: 0 <= a < b < |ms| ==> Before(ms[a], ms[b])
  }

  // ---------------------------------------------------------------- the loop

  /** The nested search: depth_filenames_tmp in the outer loop, image_filenames_tmp
      in the inner loop, appending both paths whenever the two keys are equal.
      The two output lists are appended together, so they always have equal length. */
  method PairingSearch(imagePaths: seq<string>, depthPaths: seq<string>,
                       imageKeys: seq<string>, depthKeys: seq<string>)
    returns (images: seq<string>, depths: seq<string>)
    requires |imageKeys| == |imagePaths| && |depthKeys| == |depthPaths|
    ensures |images| == |depths| == |Matches(imageKeys, depthKeys)|
    ensures images == Select(imagePaths, ImageIndices(Matches(imageKeys, depthKeys)))
    ensures depths == Select(depthPaths, DepthIndices(Matches(imageKeys, depthKeys)))
  {
    images, depths := [], [];
    for j := 0 to |depthKeys|
      invariant |images| == |depths| == |MatchesUpTo(imageKeys, depthKeys, j)|
      invariant forall k :: 0 <= k < |images| ==>
        images[k] == imagePaths[MatchesUpTo(imageKeys, depthKeys, j)[k].0] &&
        depths[k] == depthPaths[MatchesUpTo(imageKeys, depthKeys, j)[k].1]
    {
      ghost var before := MatchesUpTo(imageKeys, depthKeys, j);
      for i := 0 to |imageKeys|
        invariant |images| == |depths| == |before + RowMatches(imageKeys, depthKeys[j], j, i)|
        invariant forall k :: 0 <= k < |images| ==>
          images[k] == imagePaths[(before + RowMatches(imageKeys, depthKeys[j], j, i))[k].0] &&
          depths[k] == depthPaths[(before + RowMatches(imageKeys, depthKeys[j], j, i))[k].1]
      {
        if imageKeys[i] == depthKeys[j] {
          images := images + [imagePaths[i]];
          depths := depths + [depthPaths[j]];
        }
      }
    }
  }

  // ---------------------------------------------------------------- properties

  /** Completeness within a row: every earlier image with the depth's key is emitted. */
  lemma {:induction false} RowMatchesComplete(imageKeys: seq<string>, key: string, j: nat, i: nat, i0: nat)
    requires i <= |imageKeys| && i0 < i && imageKeys[i0] == key
    ensures (i0, j) in RowMatches(imageKeys, key, j, i)
    decreases i
  {
    if i0 < i - 1 {
      RowMatchesComplete(imageKeys, key, j, i - 1, i0);
    }
  }

  lemma {:induction false} MatchesUpToComplete(imageKeys: seq<string>, depthKeys: seq<string>, j: nat, i0: nat, j0: nat)
    requires j <= |depthKeys| && i0 < |imageKeys| && j0 < j && imageKeys[i0] == depthKeys[j0]
    ensures (i0, j0) in MatchesUpTo(imageKeys, depthKeys, j)
    decreases j
  {
    if j0 < j - 1 {
      MatchesUpToComplete(imageKeys, depthKeys, j - 1, i0, j0);
    } else {
      RowMatchesComplete(imageKeys, depthKeys[j - 1], j - 1, |imageKeys|, i0);
    }
  }

  /** A pair of indices is emitted exactly when both are in range and their keys are equal:
      nothing unmatched is kept and no true correspondence is missed. */
  lemma MatchesExactly(imageKeys: seq<string>, depthKeys: seq<string>, i: nat, j: nat)
    ensures (i, j) in Matches(imageKeys, depthKeys) <==>
      i < |imageKeys| && j < |depthKeys| && imageKeys[i] == depthKeys[j]
  {
    if i < |imageKeys| && j < |depthKeys| && imageKeys[i] == depthKeys[j] {
      MatchesUpToComplete(imageKeys, depthKeys, |depthKeys|, i, j);
    }
  }

  lemma {:induction false} RowMatchesOrdered(imageKeys: seq<string>, key: string, j: nat, i: nat)
    requires i <= |imageKeys|
    ensures Ordered(RowMatches(imageKeys, key, j, i))
    decreases i
  {
    if i > 0 {
      RowMatchesOrdered(imageKeys, key, j, i - 1);
    }
  }

  lemma {:induction false} MatchesUpToOrdered(imageKeys: seq<string>, depthKeys: seq<string>, j: nat)
    requires j <= |depthKeys|
    ensures Ordered(MatchesUpTo(imageKeys, depthKeys, j))
    decreases j
  {
    if j > 0 {
      MatchesUpToOrdered(imageKeys, depthKeys, j - 1);
      RowMatchesOrdered(imageKeys, depthKeys[j - 1], j - 1, |imageKeys|);
      OrderedAppend(MatchesUpTo(imageKeys, depthKeys, j - 1),
                    RowMatches(imageKeys, depthKeys[j - 1], j - 1, |imageKeys|), j - 1);
    }
  }

  /** Two ordered runs, the first all on depths below j and the second all on depth j,
      make one ordered run. */
  lemma OrderedAppend(a: seq<Match>, b: seq<Match>, j: nat)
    requires Ordered(a) && Ordered(b)
    requires forall x :: 0 <= x < |a| ==> a[x].1 < j
    requires forall y :: 0 <= y < |b| ==> b[y].1 == j
    ensures Ordered(a + b)
  {
    var c := a + b;
    forall x, y | 0 <= x < y < |c| ensures Before(c[x], c[y]) {
      if y < |a| {
        assert c[x] == a[x] && c[y] == a[y];
      } else if x >= |a| {
        assert c[x] == b[x - |a|] && c[y] == b[y - |a|];
      } else {
        assert c[x] == a[x] && c[y] == b[y - |a|];
      }
    }
  }

  /** The output follows the depth index as the outer order and the image index as
      the inner order, strictly, so no pair is emitted twice. */
  lemma MatchesOrdered(imageKeys: seq<string>, depthKeys: seq<string>)
    ensures Ordered(Matches(imageKeys, depthKeys))
  {
    MatchesUpToOrdered(imageKeys, depthKeys, |depthKeys|);
  }

  /** The number of emitted pairs is the number of index pairs with equal keys. */
  lemma MatchesCount(imageKeys: seq<string>, depthKeys: seq<string>)
    ensures |Matches(imageKeys, depthKeys)| == |MatchSet(imageKeys, depthKeys)|
  {
    var ms := Matches(imageKeys, depthKeys);
    MatchesOrdered(imageKeys, depthKeys);
    assert Distinct(ms);
    DistinctCardinality(ms);
    forall m: Match ensures m in ms <==> m in MatchSet(imageKeys, depthKeys) {
      MatchesExactly(imageKeys, depthKeys, m.0, m.1);
    }
    assert (set x | x in ms) == MatchSet(imageKeys, depthKeys);
  }
}
