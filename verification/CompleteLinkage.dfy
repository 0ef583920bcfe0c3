/** Complete-linkage agglomeration, as the clustering script uses it: build the whole hierarchy by merging the closest
    pair of clusters, then cut it at a distance.

    A clustering of the elements `0..m` is a label sequence: `owner[a]` is the representative member of the cluster
    of `a`.  The linkage distance of two clusters is the largest distance between their members.  Ties may be broken
    in any way: the guarantees hold for every choice, and without ties there is none.
 */
module CompleteLinkage {
  import opened Values

  datatype Distances = Distances(size: nat, rows: seq<seq<real>>) {
    ghost predicate Valid() {
      && |rows| == size
      && (forall a :: 0 <= a < size ==> |rows[a]| == size)
      && forall a, b :: 0 <= a < size && 0 <= b < size ==> rows[a][b] == rows[b][a]
    }

    function At(a: nat, b: nat): real {
      if a < |rows| && b < |rows[a]| then rows[a][b] else 0.0
    }
  }

  type Owner = seq<nat>

  ghost predicate Clustering(owner: Owner, m: nat) {
    && |owner| == m
    && forall a :: 0 <= a < m ==> owner[a] < m && owner[owner[a]] == owner[a]
  }

  predicate Rep(owner: Owner, x: nat) {
    x < |owner| && owner[x] == x
  }

  ghost function Representatives(owner: Owner): set<nat> {
    set a: nat | a < |owner| && Rep(owner, a)
  }

  /** All distances between cluster `x` and cluster `y` are at most `h`. */
  ghost predicate Within(d: Distances, owner: Owner, x: nat, y: nat, h: real) {
    forall a, b :: 0 <= a < |owner| && 0 <= b < |owner| && owner[a] == x && owner[b] == y ==> d.At(a, b) <= h
  }

  /** Some distance between cluster `x` and cluster `y` is at least `h`. */
  ghost predicate Reaches(d: Distances, owner: Owner, x: nat, y: nat, h: real) {
    exists a, b :: 0 <= a < |owner| && 0 <= b < |owner| && owner[a] == x && owner[b] == y && d.At(a, b) >= h
  }

  /** No cluster holds two different elements further apart than `h`. */
  ghost predicate Tight(d: Distances, owner: Owner, h: real) {
    forall a, b :: 0 <= a < |owner| && 0 <= b < |owner| && a != b && owner[a] == owner[b] ==> d.At(a, b) <= h
  }

  /** Any two different clusters are at linkage distance at least `h`. */
  ghost predicate Apart(d: Distances, owner: Owner, h: real) {
    forall x, y :: Rep(owner, x) && Rep(owner, y) && x != y ==> Reaches(d, owner, x, y, h)
  }

  lemma {:induction false} ReachesSymmetric(d: Distances, owner: Owner, x: nat, y: nat, h: real)
    requires d.Valid() && |owner| == d.size && Reaches(d, owner, x, y, h)
    ensures Reaches(d, owner, y, x, h)
  {
    var a, b :| 0 <= a < |owner| && 0 <= b < |owner| && owner[a] == x && owner[b] == y && d.At(a, b) >= h;
    assert d.At(b, a) >= h;
  }

  method LinkageDistance(d: Distances, owner: Owner, x: nat, y: nat) returns (h: real)
    requires Clustering(owner, d.size) && Rep(owner, x) && Rep(owner, y)
    ensures Within(d, owner, x, y, h) && Reaches(d, owner, x, y, h)
  {
    h := d.At(x, y);
    for a := 0 to |owner|
      invariant forall p, q :: 0 <= p < a && 0 <= q < |owner| && owner[p] == x && owner[q] == y ==> d.At(p, q) <= h
      invariant Reaches(d, owner, x, y, h)
    {
      if owner[a] == x {
        for b := 0 to |owner|
          invariant forall p, q :: 0 <= p < a && 0 <= q < |owner| && owner[p] == x && owner[q] == y ==> d.At(p, q) <= h
          invariant forall q :: 0 <= q < b && owner[q] == y ==> d.At(a, q) <= h
          invariant Reaches(d, owner, x, y, h)
        {
          if owner[b] == y && d.At(a, b) > h {
            h := d.At(a, b);
          }
        }
      }
    }
  }

  /** A pair of clusters with its linkage distance. */
  datatype Link = Link(x: nat, y: nat, h: real)

  ghost predicate IsLink(d: Distances, owner: Owner, link: Link) {
    && Rep(owner, link.x) && Rep(owner, link.y) && link.x < link.y
    && Within(d, owner, link.x, link.y, link.h) && Reaches(d, owner, link.x, link.y, link.h)
  }

  /** `best` is a closest pair among the pairs that come before `(p, q)`. */
  ghost predicate BestBefore(d: Distances, owner: Owner, best: Option<Link>, p: nat, q: nat) {
    && (best.Some? ==> IsLink(d, owner, best.value))
    && forall u: nat, v: nat :: Rep(owner, u) && Rep(owner, v) && u < v && (u < p || (u == p && v < q)) ==>
      best.Some? && Reaches(d, owner, u, v, best.value.h)
  }

  lemma {:induction false} CloserLink(d: Distances, owner: Owner, best: Option<Link>, candidate: Link, p: nat, q: nat)
    requires BestBefore(d, owner, best, p, q) && IsLink(d, owner, candidate) && candidate.x == p && candidate.y == q
    ensures BestBefore(d, owner, if best.None? || candidate.h < best.value.h then Some(candidate) else best, p, q + 1)
  {
    forall u: nat, v: nat | Rep(owner, u) && Rep(owner, v) && u < v && (u < p || (u == p && v < q + 1))
      ensures
        Reaches(d, owner, u, v, if best.None? || candidate.h < best.value.h then candidate.h else best.value.h)
    {
      if (u, v) != (p, q) {
        assert best.Some? && Reaches(d, owner, u, v, best.value.h);
      }
    }
  }

  method ClosestPair(d: Distances, owner: Owner) returns (best: Option<Link>)
    requires d.Valid() && Clustering(owner, d.size)
    ensures best.None? ==> forall p, q :: Rep(owner, p) && Rep(owner, q) ==> p == q
    ensures best.Some? ==> IsLink(d, owner, best.value) && Apart(d, owner, best.value.h)
  {
    best := None;
    for p := 0 to |owner|
      invariant BestBefore(d, owner, best, p, 0)
    {
      if owner[p] == p {
        for q := 0 to |owner|
          invariant BestBefore(d, owner, best, p, q)
        {
          if p < q && owner[q] == q {
            var h := LinkageDistance(d, owner, p, q);
            CloserLink(d, owner, best, Link(p, q, h), p, q);
            if best.None? || h < best.value.h {
              best := Some(Link(p, q, h));
            }
          }
        }
      }
    }
    if best.Some? {
      forall u, v | Rep(owner, u) && Rep(owner, v) && u != v
        ensures Reaches(d, owner, u, v, best.value.h)
      {
        if v < u {
          ReachesSymmetric(d, owner, v, u, best.value.h);
        }
      }
    } else {
      forall p, q | Rep(owner, p) && Rep(owner, q)
        ensures p == q
      {
        assert !(p < q) && !(q < p);
      }
    }
  }

  /** Cluster `y` joins cluster `x`. */
  function Merged(owner: Owner, x: nat, y: nat): (merged: Owner)
    ensures |merged| == |owner|
    ensures forall a :: 0 <= a < |owner| ==> merged[a] == if owner[a] == y then x else owner[a]
  {
    seq(|owner|, a requires 0 <= a < |owner| => if owner[a] == y then x else owner[a])
  }

  lemma {:induction false} MergedClustering(owner: Owner, x: nat, y: nat, m: nat)
    requires Clustering(owner, m) && Rep(owner, x) && Rep(owner, y) && x != y
    ensures Clustering(Merged(owner, x, y), m)
    ensures Representatives(Merged(owner, x, y)) == Representatives(owner) - {y}
  {
  }

  lemma {:induction false} MergedTight(d: Distances, owner: Owner, x: nat, y: nat, h: real)
    requires d.Valid() && |owner| == d.size && Tight(d, owner, h) && Within(d, owner, x, y, h)
    ensures Tight(d, Merged(owner, x, y), h)
  {
    var merged := Merged(owner, x, y);
    forall a, b | 0 <= a < |owner| && 0 <= b < |owner| && a != b && merged[a] == merged[b]
      ensures d.At(a, b) <= h
    {
      assert d.At(a, b) == d.At(b, a);
    }
  }

  lemma {:induction false} MergedReaches(d: Distances, owner: Owner, x: nat, y: nat, u: nat, v: nat, h: real)
    requires Reaches(d, owner, u, v, h) && u != y && v != y
    ensures Reaches(d, Merged(owner, x, y), u, v, h)
  {
    var merged := Merged(owner, x, y);
    var a, b :| 0 <= a < |owner| && 0 <= b < |owner| && owner[a] == u && owner[b] == v && d.At(a, b) >= h;
    assert merged[a] == u && merged[b] == v;
  }

  lemma {:induction false} MergedApart(d: Distances, owner: Owner, x: nat, y: nat, h: real)
    requires Clustering(owner, d.size) && Apart(d, owner, h)
    requires Rep(owner, x) && Rep(owner, y) && x != y
    ensures Apart(d, Merged(owner, x, y), h)
  {
    hide Reaches;
    var merged := Merged(owner, x, y);
    forall u, v | Rep(merged, u) && Rep(merged, v) && u != v
      ensures Reaches(d, merged, u, v, h)
    {
      assert Rep(owner, u) && Rep(owner, v) && u != y && v != y;
      MergedReaches(d, owner, x, y, u, v, h);
    }
  }

  /** The hierarchy: `stages[k]` is the clustering after `k` merges and `heights[k]` the distance of merge `k`. */
  datatype Hierarchy = Hierarchy(stages: seq<Owner>, heights: seq<real>)

  /** `after` merges two clusters of `owner` whose linkage distance is `h`. */
  ghost predicate Merges(d: Distances, owner: Owner, after: Owner, h: real) {
    exists x: nat, y: nat :: IsLink(d, owner, Link(x, y, h)) && after == Merged(owner, x, y)
  }

  /** From single definitions on every stage merges two clusters of the one before.  Every stage is as tight as the
      merges made so far and as spread out as the next merge, which is hence a closest one; heights never fall. */
  ghost predicate Dendrogram(d: Distances, t: Hierarchy) {
    && |t.stages| == |t.heights| + 1
    && (forall a :: 0 <= a < |t.stages[0]| ==> t.stages[0][a] == a)
    && (forall k :: 0 <= k < |t.heights| ==> Merges(d, t.stages[k], t.stages[k + 1], t.heights[k]))
    && (forall k :: 0 <= k < |t.stages| ==> Clustering(t.stages[k], d.size))
    && (forall k, l :: 0 <= k < l < |t.heights| ==> t.heights[k] <= t.heights[l])
    && (forall k, h :: 0 <= k < |t.stages| && (k == 0 || t.heights[k - 1] <= h) ==> Tight(d, t.stages[k], h))
    && forall k :: 0 <= k < |t.heights| ==>
      Apart(d, t.stages[k], t.heights[k]) && Apart(d, t.stages[k + 1], t.heights[k])
  }

  ghost predicate Joined(owner: Owner) {
    forall p, q :: Rep(owner, p) && Rep(owner, q) ==> p == q
  }

  lemma {:induction false} ExtendedDendrogram(d: Distances, t: Hierarchy, owner: Owner, h: real)
    requires Dendrogram(d, t) && Clustering(owner, d.size) && Tight(d, owner, h)
    requires Apart(d, t.stages[|t.heights|], h) && Apart(d, owner, h)
    requires t.heights != [] ==> t.heights[|t.heights| - 1] <= h
    requires Merges(d, t.stages[|t.heights|], owner, h)
    ensures Dendrogram(d, Hierarchy(t.stages + [owner], t.heights + [h]))
  {
    hide Merges, Clustering, IsLink;
    var extended := Hierarchy(t.stages + [owner], t.heights + [h]);
    forall k, g | 0 <= k < |extended.stages| && (k == 0 || extended.heights[k - 1] <= g)
      ensures Tight(d, extended.stages[k], g)
    {
      if k < |t.stages| {
        assert extended.stages[k] == t.stages[k];
        assert k == 0 || extended.heights[k - 1] == t.heights[k - 1];
      }
    }
    forall k | 0 <= k < |extended.heights|
      ensures Apart(d, extended.stages[k], extended.heights[k]) && Apart(d, extended.stages[k + 1], extended.heights[k])
    {
      if k < |t.heights| {
        assert extended.stages[k] == t.stages[k] && extended.stages[k + 1] == t.stages[k + 1];
      }
    }
  }

  function Next(t: Hierarchy, link: Link): Hierarchy
    requires t.stages != []
  {
    Hierarchy(t.stages + [Merged(t.stages[|t.stages| - 1], link.x, link.y)], t.heights + [link.h])
  }

  /** Merging a closest pair extends the hierarchy, and its height is no smaller than the last one. */
  lemma {:induction false} NextStage(d: Distances, t: Hierarchy, owner: Owner, link: Link)
    requires d.Valid() && Dendrogram(d, t) && owner == t.stages[|t.heights|]
    requires IsLink(d, owner, link) && Apart(d, owner, link.h)
    ensures Dendrogram(d, Next(t, link))
    ensures Clustering(Merged(owner, link.x, link.y), d.size)
    ensures Representatives(Merged(owner, link.x, link.y)) < Representatives(owner)
  {
    if t.heights != [] {
      assert Reaches(d, owner, link.x, link.y, t.heights[|t.heights| - 1]);
    }
    assert Tight(d, owner, link.h);
    MergedClustering(owner, link.x, link.y, d.size);
    MergedTight(d, owner, link.x, link.y, link.h);
    MergedApart(d, owner, link.x, link.y, link.h);
    assert link.y in Representatives(owner);
    assert Merges(d, owner, Merged(owner, link.x, link.y), link.h) by {
      assert IsLink(d, owner, Link(link.x, link.y, link.h));
    }
    hide Merged, Merges, Clustering, Tight, Apart, IsLink, Dendrogram;
    ExtendedDendrogram(d, t, Merged(owner, link.x, link.y), link.h);
  }

  lemma {:induction false} FirstStage(d: Distances, owner: Owner)
    requires |owner| == d.size && forall a :: 0 <= a < |owner| ==> owner[a] == a
    ensures Clustering(owner, d.size) && Dendrogram(d, Hierarchy([owner], []))
  {
  }

  /** The merge distances come out in nondecreasing order, so cutting the hierarchy is stopping the agglomeration. */
  method Linkage(d: Distances) returns (t: Hierarchy)
    requires d.Valid()
    ensures Dendrogram(d, t) && Joined(t.stages[|t.heights|])
  {
    var owner: Owner := seq(d.size, (a: nat) => a);
    FirstStage(d, owner);
    hide Merged, Merges, Clustering, Representatives, IsLink, Apart, Tight;
    t := Hierarchy([owner], []);
    var best := ClosestPair(d, owner);
    while best.Some?
      invariant Dendrogram(d, t) && Clustering(owner, d.size) && owner == t.stages[|t.heights|]
      invariant best.None? ==> Joined(owner)
      invariant best.Some? ==> IsLink(d, owner, best.value) && Apart(d, owner, best.value.h)
      decreases Representatives(owner)
    {
      NextStage(d, t, owner, best.value);
      var merged := Merged(owner, best.value.x, best.value.y);
      t, owner := Hierarchy(t.stages + [merged], t.heights + [best.value.h]), merged;
      best := ClosestPair(d, owner);
    }
  }

  // ----- the hierarchy depends on the distances alone -----

  ghost predicate DistinctDistances(d: Distances) {
    forall a, b, p, q :: 0 <= a < b < d.size && 0 <= p < q < d.size && d.At(a, b) == d.At(p, q) ==> a == p && b == q
  }

  /** A linkage distance is the distance of two members. */
  lemma {:induction false} LinkIsReached(d: Distances, owner: Owner, link: Link) returns (a: nat, b: nat)
    requires d.Valid() && |owner| == d.size && IsLink(d, owner, link)
    ensures a < b < d.size && d.At(a, b) == link.h
    ensures (owner[a] == link.x && owner[b] == link.y) || (owner[a] == link.y && owner[b] == link.x)
  {
    a, b :| a < |owner| && b < |owner| && owner[a] == link.x && owner[b] == link.y && d.At(a, b) >= link.h;
    if b < a {
      a, b := b, a;
    }
  }

  /** Without ties there is one closest pair. */
  lemma {:induction false} OneClosestPair(d: Distances, owner: Owner, one: Link, other: Link)
    requires d.Valid() && |owner| == d.size && DistinctDistances(d)
    requires IsLink(d, owner, one) && Apart(d, owner, one.h) && IsLink(d, owner, other) && Apart(d, owner, other.h)
    ensures one == other
  {
    assert Reaches(d, owner, one.x, one.y, other.h) && Reaches(d, owner, other.x, other.y, one.h);
    var a, b := LinkIsReached(d, owner, one);
    var p, q := LinkIsReached(d, owner, other);
  }

  lemma {:induction false} SameMerge(d: Distances, owner: Owner, one: Owner, g: real, other: Owner, h: real)
    requires d.Valid() && |owner| == d.size && DistinctDistances(d)
    requires Merges(d, owner, one, g) && Merges(d, owner, other, h) && Apart(d, owner, g) && Apart(d, owner, h)
    ensures one == other && g == h
  {
    hide IsLink, Apart;
    var x: nat, y: nat :| IsLink(d, owner, Link(x, y, g)) && one == Merged(owner, x, y);
    var v: nat, z: nat :| IsLink(d, owner, Link(v, z, h)) && other == Merged(owner, v, z);
    OneClosestPair(d, owner, Link(x, y, g), Link(v, z, h));
  }

  lemma {:induction false} StageFacts(d: Distances, t: Hierarchy, k: nat)
    requires Dendrogram(d, t) && k < |t.stages|
    ensures |t.stages| == |t.heights| + 1 && |t.stages[k]| == d.size
    ensures k == 0 ==> forall a :: 0 <= a < d.size ==> t.stages[0][a] == a
    ensures k < |t.heights| ==> Merges(d, t.stages[k], t.stages[k + 1], t.heights[k])
    ensures k < |t.heights| ==> Apart(d, t.stages[k], t.heights[k])
  {
    hide Merges, Apart, Tight;
    assert Clustering(t.stages[k], d.size);
  }

  lemma {:induction false} SamePrefix(d: Distances, t: Hierarchy, u: Hierarchy, k: nat)
    requires d.Valid() && DistinctDistances(d) && Dendrogram(d, t) && Dendrogram(d, u)
    requires k < |t.stages| == |t.heights| + 1 && k < |u.stages| == |u.heights| + 1
    ensures t.stages[k] == u.stages[k] && t.heights[..k] == u.heights[..k]
    decreases k
  {
    hide *;
    if k == 0 {
      StageFacts(d, t, 0);
      StageFacts(d, u, 0);
    } else {
      StageFacts(d, t, k - 1);
      StageFacts(d, u, k - 1);
      SamePrefix(d, t, u, k - 1);
      SameMerge(d, t.stages[k - 1], t.stages[k], t.heights[k - 1], u.stages[k], u.heights[k - 1]);
      assert t.heights[..k] == t.heights[..k - 1] + [t.heights[k - 1]];
      assert u.heights[..k] == u.heights[..k - 1] + [u.heights[k - 1]];
    }
  }

  /** With distinct distances the whole hierarchy is determined, so any run of the script finds the same one. */
  lemma {:induction false} HierarchyIsDetermined(d: Distances, t: Hierarchy, u: Hierarchy)
    requires d.Valid() && DistinctDistances(d) && Dendrogram(d, t) && Dendrogram(d, u)
    requires Joined(t.stages[|t.heights|]) && Joined(u.stages[|u.heights|])
    ensures t == u
  {
    SameHeight(d, t, u);
    SameHeight(d, u, t);
    hide DistinctDistances, Merges, Joined, Apart, Tight, Clustering;
    forall k | 0 <= k < |t.stages|
      ensures t.stages[k] == u.stages[k]
    {
      SamePrefix(d, t, u, k);
    }
    SamePrefix(d, t, u, |t.heights|);
    assert t.heights[..|t.heights|] == t.heights && u.heights[..|u.heights|] == u.heights;
  }

  /** A joined stage has nothing left to merge. */
  lemma {:induction false} NotJoined(d: Distances, owner: Owner, after: Owner, h: real)
    requires Merges(d, owner, after, h)
    ensures !Joined(owner)
  {
  }

  lemma {:induction false} SameHeight(d: Distances, t: Hierarchy, u: Hierarchy)
    requires d.Valid() && DistinctDistances(d) && Dendrogram(d, t) && Dendrogram(d, u)
    requires Joined(t.stages[|t.heights|])
    ensures |u.heights| <= |t.heights|
  {
    hide DistinctDistances, Merges, Joined, Apart, Tight, Clustering;
    var k := |t.heights|;
    if k < |u.heights| {
      NotJoined(d, u.stages[k], u.stages[k + 1], u.heights[k]);
      SamePrefix(d, t, u, k);
    }
  }

  // ----- cutting the hierarchy -----

  /** The two clusters hold a pair of members further apart than `cut`. */
  ghost predicate Beyond(d: Distances, owner: Owner, x: nat, y: nat, cut: real) {
    exists p, q :: 0 <= p < |owner| && 0 <= q < |owner| && owner[p] == x && owner[q] == y && d.At(p, q) > cut
  }

  /** The stage between the last merge up to `cut` and the first beyond it. */
  ghost predicate CutAt(t: Hierarchy, cut: real, k: nat) {
    k <= |t.heights| && (k > 0 ==> t.heights[k - 1] <= cut) && (k < |t.heights| ==> cut < t.heights[k])
  }

  ghost predicate IsCut(t: Hierarchy, cut: real, labels: Owner) {
    exists k: nat :: k < |t.stages| && CutAt(t, cut, k) && labels == t.stages[k]
  }

  lemma {:induction false} SameCut(t: Hierarchy, cut: real, one: Owner, other: Owner)
    requires |t.stages| == |t.heights| + 1 && forall k, l :: 0 <= k < l < |t.heights| ==> t.heights[k] <= t.heights[l]
    requires IsCut(t, cut, one) && IsCut(t, cut, other)
    ensures one == other
  {
    var k: nat :| k < |t.stages| && CutAt(t, cut, k) && one == t.stages[k];
    var l: nat :| l < |t.stages| && CutAt(t, cut, l) && other == t.stages[l];
    if k < l {
      CutOrder(t, cut, k, l);
    } else if l < k {
      CutOrder(t, cut, l, k);
    }
  }

  lemma {:induction false} CutOrder(t: Hierarchy, cut: real, k: nat, l: nat)
    requires forall k, l :: 0 <= k < l < |t.heights| ==> t.heights[k] <= t.heights[l]
    requires CutAt(t, cut, k) && k < l <= |t.heights|
    ensures t.heights[l - 1] > cut
  {
    assert k == l - 1 || t.heights[k] <= t.heights[l - 1];
  }

  /** Without ties two runs end with the same flat clusters. */
  lemma {:induction false} FlatClustersAreDetermined(d: Distances, t: Hierarchy, u: Hierarchy, cut: real, one: Owner,
                                                     other: Owner)
    requires d.Valid() && DistinctDistances(d) && Dendrogram(d, t) && Dendrogram(d, u)
    requires Joined(t.stages[|t.heights|]) && Joined(u.stages[|u.heights|])
    requires IsCut(t, cut, one) && IsCut(u, cut, other)
    ensures one == other
  {
    HierarchyIsDetermined(d, t, u);
    hide DistinctDistances, Merges, Joined, Apart, Tight, Clustering, IsCut;
    SameCut(t, cut, one, other);
  }

  /** Flat clusters at `cut`: apply exactly the merges whose distance does not exceed it. */
  method Cut(d: Distances, t: Hierarchy, cut: real) returns (labels: Owner)
    requires Dendrogram(d, t) && Joined(t.stages[|t.heights|])
    ensures Clustering(labels, d.size)
    ensures Tight(d, labels, cut)
    ensures forall x, y :: Rep(labels, x) && Rep(labels, y) && x != y ==> Beyond(d, labels, x, y, cut)
    ensures IsCut(t, cut, labels)
  {
    var k := 0;
    while k < |t.heights| && t.heights[k] <= cut
      invariant k <= |t.heights|
      invariant k == 0 || t.heights[k - 1] <= cut
    {
      k := k + 1;
    }
    labels := t.stages[k];
    assert CutAt(t, cut, k);
    forall x, y | Rep(labels, x) && Rep(labels, y) && x != y
      ensures Beyond(d, labels, x, y, cut)
    {
      assert k < |t.heights|;
      assert Reaches(d, labels, x, y, t.heights[k]);
    }
  }
}
