/** Governed clusters of the factor library: near duplicates are closed into components first, then the components
    are clustered by complete linkage over their weakest finite cross similarity.
 */
module FactorClusters {
  import opened Values
  import opened UnionFind
  import CompleteLinkage

  /** A similarity matrix; `None` is NaN (too few common days). */
  datatype Similarity = Similarity(size: nat, rows: seq<seq<Option<real>>>) {
    predicate SquareShape() {
      |rows| == size && forall i :: 0 <= i < size ==> |rows[i]| == size
    }

    ghost predicate Symmetric() {
      forall i, j :: 0 <= i < size && 0 <= j < size ==> At(i, j) == At(j, i)
    }

    function At(i: nat, j: nat): Option<real> {
      if i < |rows| && j < |rows[i]| then rows[i][j] else None
    }
  }

  /** Edges of the near-duplicate graph: finite similarities at or above the threshold. */
  function NearGraph(sim: Similarity, threshold: real): (g: Graph)
    ensures g.Valid() && g.size == sim.size
  {
    Graph(sim.size, set i: nat, j: nat | i < sim.size && j < sim.size && i < j && Near(sim, threshold, i, j) :: (i, j))
  }

  predicate Near(sim: Similarity, threshold: real, i: nat, j: nat) {
    sim.At(i, j).Some? && sim.At(i, j).value >= threshold
  }

  method NearDuplicateForest(sim: Similarity, threshold: real) returns (parents: array<nat>)
    requires sim.size > 0
    ensures fresh(parents) && Represents(parents[..], NearGraph(sim, threshold))
  {
    hide Root, Unites, Represents;
    ghost var g := NearGraph(sim, threshold);
    var n := sim.size;
    parents := new nat[n](i => i);
    ghost var done: set<(nat, nat)> := {};
    IdentityCloses(parents[..], g);
    for left := 0 to n - 1
      invariant Closing(parents[..], g, done)
      invariant forall e :: e in done <==> e in g.adj && e.0 < left
    {
      for right := left + 1 to n
        invariant Closing(parents[..], g, done)
        invariant forall e :: e in done <==> e in g.adj && (e.0 < left || (e.0 == left && e.1 < right))
      {
        if Near(sim, threshold, left, right) {
          ghost var before := parents[..];
          Union(parents, left, right);
          UnionKeepsClosing(before, parents[..], g, done, left, right);
          done := done + {(left, right)};
        }
      }
    }
    assert done == g.adj;
    ClosedForestRepresents(parents[..], g);
  }

  // ----- base components -----

  /** `members` lists exactly the indices below `k` whose root is `root`, in increasing order. */
  ghost predicate ListsMembers(members: seq<nat>, p: seq<nat>, root: nat, k: nat)
    requires Forest(p) && k <= |p|
  {
    && (forall i: nat :: i in members <==> i < k && Root(p, i) == root)
    && forall a, b :: 0 <= a < b < |members| ==> members[a] < members[b]
  }

  /** The components in the order of their roots, and every root among them. */
  ghost predicate Components(p: seq<nat>, base: seq<seq<nat>>, roots: seq<nat>) {
    && Forest(p) && |base| == |roots|
    && (forall c :: 0 <= c < |base| ==>
      roots[c] < |p| && Root(p, roots[c]) == roots[c] && ListsMembers(base[c], p, roots[c], |p|))
    && (forall c, d :: 0 <= c < d < |roots| ==> roots[c] < roots[d])
    && forall i :: 0 <= i < |p| ==> Root(p, i) in roots
  }

  /** Every index has one place in the components. */
  lemma {:induction false} ListedOnce(p: seq<nat>, base: seq<seq<nat>>, roots: seq<nat>, i: nat)
    requires Components(p, base, roots) && i < |p|
    ensures exists c, a :: 0 <= c < |base| && 0 <= a < |base[c]| && base[c][a] == i
    ensures forall c, a, d, b :: 0 <= c < |base| && 0 <= a < |base[c]| && 0 <= d < |base| && 0 <= b < |base[d]| ==>
      base[c][a] == i == base[d][b] ==> c == d && a == b
  {
    var c :| 0 <= c < |roots| && roots[c] == Root(p, i);
    hide Root;
    assert i in base[c];
    forall d, a | 0 <= d < |base| && 0 <= a < |base[d]| && base[d][a] == i
      ensures d == c
    {
      assert i in base[d] && roots[d] == roots[c];
    }
  }

  function GroupOf(byRoot: map<nat, seq<nat>>, r: nat): seq<nat> {
    if r in byRoot then byRoot[r] else []
  }

  /** `byRoot` groups exactly the indices below `k` under their roots. */
  ghost predicate Grouped(byRoot: map<nat, seq<nat>>, p: seq<nat>, k: nat)
    requires Forest(p) && k <= |p|
  {
    && (forall r: nat :: r in byRoot <==> r < k && Root(p, r) == r)
    && forall r: nat :: ListsMembers(GroupOf(byRoot, r), p, r, k)
  }

  lemma {:induction false} MembersGrow(members: seq<nat>, p: seq<nat>, r: nat, root: nat, index: nat)
    requires Forest(p) && index < |p| && root == Root(p, index) && ListsMembers(members, p, r, index)
    ensures ListsMembers(members + if r == root then [index] else [], p, r, index + 1)
  {
    hide Root;
    forall a | 0 <= a < |members|
      ensures members[a] < index
    {
      assert members[a] in members;
    }
  }

  lemma {:induction false} KeysGrow(byRoot: map<nat, seq<nat>>, p: seq<nat>, root: nat, index: nat, members: seq<nat>)
    requires Forest(p) && index < |p| && root == Root(p, index)
    requires forall r: nat :: r in byRoot <==> r < index && Root(p, r) == r
    ensures forall r: nat :: r in byRoot[root := members] <==> r < index + 1 && Root(p, r) == r
  {
    assert Root(p, root) == root && root <= index;
    hide Root;
  }

  lemma {:induction false} GroupStep(byRoot: map<nat, seq<nat>>, p: seq<nat>, root: nat, index: nat)
    requires Forest(p) && index < |p| && root == Root(p, index) && Grouped(byRoot, p, index)
    ensures Grouped(byRoot[root := GroupOf(byRoot, root) + [index]], p, index + 1)
  {
    hide ListsMembers, Root;
    var after := byRoot[root := GroupOf(byRoot, root) + [index]];
    KeysGrow(byRoot, p, root, index, GroupOf(byRoot, root) + [index]);
    forall r: nat
      ensures ListsMembers(GroupOf(after, r), p, r, index + 1)
    {
      MembersGrow(GroupOf(byRoot, r), p, r, root, index);
      assert GroupOf(after, r) == GroupOf(byRoot, r) + if r == root then [index] else [];
    }
  }

  /** Grouping every index under its root; the walks to the roots halve paths as they go. */
  method GroupByRoot(parents: array<nat>) returns (byRoot: map<nat, seq<nat>>)
    requires Forest(parents[..])
    modifies parents
    ensures SameRoots(old(parents[..]), parents[..])
    ensures Grouped(byRoot, old(parents[..]), parents.Length)
  {
    hide Grouped, Root;
    ghost var p := parents[..];
    byRoot := map[];
    assert Grouped(byRoot, p, 0) by { EmptyGrouping(p); }
    for index := 0 to parents.Length
      invariant SameRoots(p, parents[..])
      invariant Grouped(byRoot, p, index)
    {
      var root := Find(parents, index);
      GroupStep(byRoot, p, root, index);
      byRoot := byRoot[root := GroupOf(byRoot, root) + [index]];
    }
  }

  lemma {:induction false} EmptyGrouping(p: seq<nat>)
    requires Forest(p)
    ensures Grouped(map[], p, 0)
  {
  }

  method GroupComponents(parents: array<nat>) returns (base: seq<seq<nat>>, ghost roots: seq<nat>)
    requires Forest(parents[..])
    modifies parents
    ensures SameRoots(old(parents[..]), parents[..])
    ensures Components(old(parents[..]), base, roots)
  {
    ghost var p := parents[..];
    var byRoot := GroupByRoot(parents);
    base, roots := [], [];
    for root := 0 to parents.Length
      invariant |base| == |roots|
      invariant forall c :: 0 <= c < |base| ==>
        roots[c] < root && Root(p, roots[c]) == roots[c] && ListsMembers(base[c], p, roots[c], |p|)
      invariant forall c, d :: 0 <= c < d < |roots| ==> roots[c] < roots[d]
      invariant forall r: nat :: r in byRoot && r < root ==> r in roots
    {
      if root in byRoot {
        assert ListsMembers(GroupOf(byRoot, root), p, root, |p|);
        base, roots := base + [byRoot[root]], roots + [root];
      }
    }
  }

  // ----- distances between components -----

  ghost predicate NoFinitePair(sim: Similarity, left: seq<nat>, right: seq<nat>) {
    forall k, l :: k in left && l in right ==> sim.At(k, l).None?
  }

  ghost predicate SomeFinitePair(sim: Similarity, left: seq<nat>, right: seq<nat>, value: real) {
    exists k, l :: k in left && l in right && sim.At(k, l) == Some(value)
  }

  /** One minus the weakest finite cross similarity, or 1 when no cross pair is finite. */
  ghost predicate IsCrossDistance(sim: Similarity, left: seq<nat>, right: seq<nat>, distance: real) {
    && (forall k, l :: k in left && l in right && sim.At(k, l).Some? ==> sim.At(k, l).value >= 1.0 - distance)
    && (SomeFinitePair(sim, left, right, 1.0 - distance) || (NoFinitePair(sim, left, right) && distance == 1.0))
  }

  method CrossDistance(sim: Similarity, left: seq<nat>, right: seq<nat>) returns (distance: real)
    ensures IsCrossDistance(sim, left, right, distance)
  {
    var weakest: Option<real> := None;
    for i := 0 to |left|
      invariant weakest.None? ==> NoFinitePair(sim, left[..i], right)
      invariant weakest.Some? ==> SomeFinitePair(sim, left, right, weakest.value)
      invariant weakest.Some? ==>
        forall k, l :: k in left[..i] && l in right && sim.At(k, l).Some? ==> sim.At(k, l).value >= weakest.value
    {
      for j := 0 to |right|
        invariant weakest.None? ==> NoFinitePair(sim, left[..i], right) && NoFinitePair(sim, [left[i]], right[..j])
        invariant weakest.Some? ==> SomeFinitePair(sim, left, right, weakest.value)
        invariant weakest.Some? ==>
          && (forall k, l :: k in left[..i] && l in right && sim.At(k, l).Some? ==>
            sim.At(k, l).value >= weakest.value)
          && forall l :: l in right[..j] && sim.At(left[i], l).Some? ==> sim.At(left[i], l).value >= weakest.value
      {
        var value := sim.At(left[i], right[j]);
        assert left[i] in left && right[j] in right;
        if value.Some? && (weakest.None? || value.value < weakest.value) {
          weakest := value;
        }
      }
      assert right[..|right|] == right;
      assert left[..i + 1] == left[..i] + [left[i]];
    }
    assert left[..|left|] == left;
    distance := 1.0 - (if weakest.Some? then weakest.value else 0.0);
  }

  ghost predicate Measured(sim: Similarity, base: seq<seq<nat>>, d: CompleteLinkage.Distances, l: nat, r: nat) {
    && d.Valid() && d.size == |base|
    && forall a, b :: 0 <= a < b < |base| && (a < l || (a == l && b < r)) ==>
      IsCrossDistance(sim, base[a], base[b], d.At(a, b))
  }

  method ComponentDistances(sim: Similarity, base: seq<seq<nat>>) returns (d: CompleteLinkage.Distances)
    ensures Measured(sim, base, d, |base|, 0)
  {
    var m := |base|;
    d := CompleteLinkage.Distances(m, seq(m, _ => seq(m, _ => 0.0)));
    for left := 0 to m
      invariant Measured(sim, base, d, left, 0)
    {
      for right := left + 1 to m
        invariant Measured(sim, base, d, left, right)
      {
        var distance := CrossDistance(sim, base[left], base[right]);
        var rows := d.rows[left := d.rows[left][right := distance]];
        d := CompleteLinkage.Distances(m, rows[right := rows[right][left := distance]]);
      }
    }
  }

  // ----- the governed clustering -----

  /** A similarity between the components of `i` and `j` that is finite and below the threshold. */
  ghost predicate WeakLink(sim: Similarity, g: Graph, i: nat, j: nat, threshold: real) {
    exists k: nat, l: nat :: k < sim.size && l < sim.size && g.Connected(i, k) && g.Connected(j, l)
      && sim.At(k, l).Some? && sim.At(k, l).value < threshold
  }

  ghost predicate Comparable(sim: Similarity, g: Graph, i: nat, j: nat) {
    exists k: nat, l: nat :: k < sim.size && l < sim.size && g.Connected(i, k) && g.Connected(j, l)
      && sim.At(k, l).Some?
  }

  /** Two components that may not share a cluster. */
  ghost predicate MustStayApart(sim: Similarity, g: Graph, i: nat, j: nat, threshold: real) {
    WeakLink(sim, g, i, j, threshold) || !Comparable(sim, g, i, j)
  }

  /** The clusters of `i` and `j` cannot be merged: they hold two components that must stay apart. */
  ghost predicate Unmergeable<T>(labels: seq<T>, sim: Similarity, g: Graph, i: nat, j: nat, threshold: real)
    requires |labels| == sim.size && i < sim.size && j < sim.size
  {
    exists k, l :: 0 <= k < sim.size && 0 <= l < sim.size && labels[k] == labels[i] && labels[l] == labels[j]
      && MustStayApart(sim, g, k, l, threshold)
  }

  /** What a governed clustering guarantees, for labels of any type. */
  ghost predicate Governed<T>(labels: seq<T>, sim: Similarity, clusterThreshold: real, nearThreshold: real) {
    var g := NearGraph(sim, nearThreshold);
    && |labels| == sim.size
    // near-duplicate chains always end up together
    && (forall i, j :: 0 <= i < |labels| && 0 <= j < |labels| && g.Connected(i, j) ==> labels[i] == labels[j])
    // components of one cluster are comparable and have no finite similarity below the threshold
    && (forall i, j :: 0 <= i < |labels| && 0 <= j < |labels| && labels[i] == labels[j] && !g.Connected(i, j) ==>
      !MustStayApart(sim, g, i, j, clusterThreshold))
    // no two clusters could be merged without breaking that
    && forall i, j :: 0 <= i < |labels| && 0 <= j < |labels| && labels[i] != labels[j] ==>
      Unmergeable(labels, sim, g, i, j, clusterThreshold)
  }

  /** In particular a finite direct similarity inside a cluster, across components, reaches the threshold. */
  lemma {:induction false} DirectSimilarityInsideCluster<T>(labels: seq<T>, sim: Similarity, ct: real, nt: real,
                                                            i: nat, j: nat)
    requires Governed(labels, sim, ct, nt) && i < sim.size && j < sim.size && labels[i] == labels[j]
    requires !NearGraph(sim, nt).Connected(i, j) && sim.At(i, j).Some?
    ensures sim.At(i, j).value >= ct
  {
    var g := NearGraph(sim, nt);
    ConnectedReflexive(g, i);
    ConnectedReflexive(g, j);
    assert !WeakLink(sim, g, i, j, ct);
  }

  lemma {:induction false} RelabelledUnmergeable<T, U>(
      labels: seq<T>, ids: seq<U>, sim: Similarity, g: Graph, i: nat, j: nat, threshold: real)
    requires |labels| == |ids| == sim.size && i < sim.size && j < sim.size
    requires forall k, l :: 0 <= k < sim.size && 0 <= l < sim.size ==> (ids[k] == ids[l] <==> labels[k] == labels[l])
    requires Unmergeable(labels, sim, g, i, j, threshold)
    ensures Unmergeable(ids, sim, g, i, j, threshold)
  {
    var k, l :| 0 <= k < sim.size && 0 <= l < sim.size && labels[k] == labels[i] && labels[l] == labels[j]
      && MustStayApart(sim, g, k, l, threshold);
    assert ids[k] == ids[i] && ids[l] == ids[j];
  }

  /** Only the partition matters: labels that separate the same definitions are governed alike. */
  lemma {:induction false} RelabelledGoverned<T, U>(labels: seq<T>, ids: seq<U>, sim: Similarity, ct: real, nt: real)
    requires Governed(labels, sim, ct, nt) && |ids| == sim.size
    requires forall k, l :: 0 <= k < sim.size && 0 <= l < sim.size ==> (ids[k] == ids[l] <==> labels[k] == labels[l])
    ensures Governed(ids, sim, ct, nt)
  {
    forall i: nat, j: nat | i < |ids| && j < |ids| && ids[i] != ids[j]
      ensures Unmergeable(ids, sim, NearGraph(sim, nt), i, j, ct)
    {
      RelabelledUnmergeable(labels, ids, sim, NearGraph(sim, nt), i, j, ct);
    }
  }

  /** Everything known when the components have been labelled: `owner[c]` is the cluster of component `c`. */
  ghost predicate Labelled(
      p: seq<nat>, g: Graph, base: seq<seq<nat>>, roots: seq<nat>, owner: seq<nat>, labels: seq<nat>)
  {
    && Represents(p, g) && Components(p, base, roots) && |owner| == |base| && |labels| == |p|
    && forall c, i :: 0 <= c < |base| && i in base[c] ==> i < |labels| && labels[i] == owner[c]
  }

  lemma {:induction false} ComponentMembers(p: seq<nat>, g: Graph, base: seq<seq<nat>>, roots: seq<nat>, i: nat)
    returns (c: nat)
    requires Represents(p, g) && Components(p, base, roots) && i < |p|
    ensures c < |base| && i in base[c]
    ensures forall k: nat :: k in base[c] <==> k < |p| && g.Connected(i, k)
  {
    assert Root(p, i) in roots;
    c :| 0 <= c < |roots| && roots[c] == Root(p, i);
  }

  lemma {:induction false} CrossMeetsThreshold(
      sim: Similarity, g: Graph, left: seq<nat>, right: seq<nat>, i: nat, j: nat, distance: real, threshold: real)
    requires sim.size == g.size && IsCrossDistance(sim, left, right, distance) && threshold > 0.0
    requires forall k: nat :: k in left <==> k < sim.size && g.Connected(i, k)
    requires forall k: nat :: k in right <==> k < sim.size && g.Connected(j, k)
    ensures MustStayApart(sim, g, i, j, threshold) <==> distance > 1.0 - threshold
  {
    if distance > 1.0 - threshold {
      if SomeFinitePair(sim, left, right, 1.0 - distance) {
        var k, l :| k in left && l in right && sim.At(k, l) == Some(1.0 - distance);
        assert WeakLink(sim, g, i, j, threshold);
      } else {
        assert !Comparable(sim, g, i, j);
      }
    }
    if WeakLink(sim, g, i, j, threshold) {
      var k: nat, l: nat :| k < sim.size && l < sim.size && g.Connected(i, k) && g.Connected(j, l)
        && sim.At(k, l).Some? && sim.At(k, l).value < threshold;
      assert k in left && l in right;
    }
    if !Comparable(sim, g, i, j) {
      if SomeFinitePair(sim, left, right, 1.0 - distance) {
        var k, l :| k in left && l in right && sim.At(k, l) == Some(1.0 - distance);
        assert Comparable(sim, g, i, j);
      }
    }
  }

  lemma {:induction false} WeakLinkSymmetric(sim: Similarity, g: Graph, i: nat, j: nat, threshold: real)
    requires sim.Symmetric() && WeakLink(sim, g, i, j, threshold)
    ensures WeakLink(sim, g, j, i, threshold)
  {
    var k: nat, l: nat :| k < sim.size && l < sim.size && g.Connected(i, k) && g.Connected(j, l)
      && sim.At(k, l).Some? && sim.At(k, l).value < threshold;
    assert sim.At(l, k) == sim.At(k, l);
  }

  lemma {:induction false} ComparableSymmetric(sim: Similarity, g: Graph, i: nat, j: nat)
    requires sim.Symmetric() && Comparable(sim, g, i, j)
    ensures Comparable(sim, g, j, i)
  {
    var k: nat, l: nat :| k < sim.size && l < sim.size && g.Connected(i, k) && g.Connected(j, l) && sim.At(k, l).Some?;
    assert sim.At(l, k) == sim.At(k, l);
  }

  lemma {:induction false} MustStayApartSymmetric(sim: Similarity, g: Graph, i: nat, j: nat, threshold: real)
    requires sim.Symmetric() && MustStayApart(sim, g, i, j, threshold)
    ensures MustStayApart(sim, g, j, i, threshold)
  {
    if WeakLink(sim, g, i, j, threshold) {
      WeakLinkSymmetric(sim, g, i, j, threshold);
    }
    if Comparable(sim, g, j, i) {
      ComparableSymmetric(sim, g, j, i);
    }
  }

  /** The distance between two different components is above the cut exactly when they must stay apart. */
  lemma {:induction false} DistanceDecides(
      p: seq<nat>, g: Graph, base: seq<seq<nat>>, roots: seq<nat>, sim: Similarity,
      d: CompleteLinkage.Distances, c: nat, e: nat, i: nat, j: nat, threshold: real)
    requires Represents(p, g) && Components(p, base, roots) && sim.Symmetric() && sim.size == g.size
    requires Measured(sim, base, d, |base|, 0) && threshold > 0.0
    requires c < |base| && e < |base| && c != e && i in base[c] && j in base[e]
    ensures MustStayApart(sim, g, i, j, threshold) <==> d.At(c, e) > 1.0 - threshold
  {
    if c < e {
      CrossMeetsThreshold(sim, g, base[c], base[e], i, j, d.At(c, e), threshold);
    } else {
      CrossMeetsThreshold(sim, g, base[e], base[c], j, i, d.At(e, c), threshold);
      assert d.At(c, e) == d.At(e, c);
      if MustStayApart(sim, g, i, j, threshold) {
        MustStayApartSymmetric(sim, g, i, j, threshold);
      } else if MustStayApart(sim, g, j, i, threshold) {
        MustStayApartSymmetric(sim, g, j, i, threshold);
      }
    }
  }

  /** Two clusters with a pair of components beyond the cut hold definitions that must stay apart. */
  lemma {:induction false} BeyondIsUnmergeable(
      p: seq<nat>, base: seq<seq<nat>>, roots: seq<nat>, sim: Similarity, d: CompleteLinkage.Distances,
      owner: seq<nat>, labels: seq<nat>, ct: real, nt: real, c: nat, e: nat, i: nat, j: nat)
    requires sim.Symmetric() && ct > 0.0
    requires Labelled(p, NearGraph(sim, nt), base, roots, owner, labels)
    requires Measured(sim, base, d, |base|, 0)
    requires c < |base| && e < |base| && i in base[c] && j in base[e] && owner[c] != owner[e]
    requires CompleteLinkage.Beyond(d, owner, owner[c], owner[e], 1.0 - ct)
    ensures i < sim.size && j < sim.size && Unmergeable(labels, sim, NearGraph(sim, nt), i, j, ct)
  {
    var u, v :| 0 <= u < |owner| && 0 <= v < |owner| && owner[u] == owner[c] && owner[v] == owner[e]
      && d.At(u, v) > 1.0 - ct;
    var k, l := roots[u], roots[v];
    assert k in base[u] && l in base[v];
    DistanceDecides(p, NearGraph(sim, nt), base, roots, sim, d, u, v, k, l, ct);
  }

  lemma {:induction false} CutGovernsPair(
      p: seq<nat>, base: seq<seq<nat>>, roots: seq<nat>, sim: Similarity, d: CompleteLinkage.Distances,
      owner: seq<nat>, labels: seq<nat>, ct: real, nt: real, i: nat, j: nat)
    requires sim.Symmetric() && ct > 0.0
    requires Labelled(p, NearGraph(sim, nt), base, roots, owner, labels)
    requires Measured(sim, base, d, |base|, 0) && CompleteLinkage.Clustering(owner, |base|)
    requires CompleteLinkage.Tight(d, owner, 1.0 - ct)
    requires forall x, y :: CompleteLinkage.Rep(owner, x) && CompleteLinkage.Rep(owner, y) && x != y ==>
      CompleteLinkage.Beyond(d, owner, x, y, 1.0 - ct)
    requires i < |labels| && j < |labels|
    ensures NearGraph(sim, nt).Connected(i, j) ==> labels[i] == labels[j]
    ensures labels[i] == labels[j] && !NearGraph(sim, nt).Connected(i, j) ==>
      !MustStayApart(sim, NearGraph(sim, nt), i, j, ct)
    ensures labels[i] != labels[j] ==> Unmergeable(labels, sim, NearGraph(sim, nt), i, j, ct)
  {
    var g := NearGraph(sim, nt);
    var c := ComponentMembers(p, g, base, roots, i);
    var e := ComponentMembers(p, g, base, roots, j);
    if labels[i] != labels[j] {
      assert CompleteLinkage.Rep(owner, owner[c]) && CompleteLinkage.Rep(owner, owner[e]);
      BeyondIsUnmergeable(p, base, roots, sim, d, owner, labels, ct, nt, c, e, i, j);
    } else if !g.Connected(i, j) {
      DistanceDecides(p, g, base, roots, sim, d, c, e, i, j, ct);
    }
  }

  lemma {:induction false} CutIsGoverned(
      p: seq<nat>, base: seq<seq<nat>>, roots: seq<nat>, sim: Similarity, d: CompleteLinkage.Distances,
      owner: seq<nat>, labels: seq<nat>, ct: real, nt: real)
    requires sim.Symmetric() && ct > 0.0
    requires Labelled(p, NearGraph(sim, nt), base, roots, owner, labels)
    requires Measured(sim, base, d, |base|, 0) && CompleteLinkage.Clustering(owner, |base|)
    requires CompleteLinkage.Tight(d, owner, 1.0 - ct)
    requires forall x, y :: CompleteLinkage.Rep(owner, x) && CompleteLinkage.Rep(owner, y) && x != y ==>
      CompleteLinkage.Beyond(d, owner, x, y, 1.0 - ct)
    ensures Governed(labels, sim, ct, nt)
  {
    var g := NearGraph(sim, nt);
    forall i: nat, j: nat | i < |labels| && j < |labels|
      ensures g.Connected(i, j) ==> labels[i] == labels[j]
      ensures labels[i] == labels[j] && !g.Connected(i, j) ==> !MustStayApart(sim, g, i, j, ct)
      ensures labels[i] != labels[j] ==> Unmergeable(labels, sim, g, i, j, ct)
    {
      CutGovernsPair(p, base, roots, sim, d, owner, labels, ct, nt, i, j);
    }
  }

  /** Every member of a component gets the label of its component. */
  method SpreadLabels(ghost p: seq<nat>, base: seq<seq<nat>>, ghost roots: seq<nat>, owner: seq<nat>, size: nat)
      returns (labels: seq<nat>)
    requires Components(p, base, roots) && |owner| == |base| && |p| == size
    ensures |labels| == size
    ensures forall c, i :: 0 <= c < |base| && i in base[c] ==> i < |labels| && labels[i] == owner[c]
  {
    labels := seq(size, _ => 0);
    for c := 0 to |base|
      invariant |labels| == size
      invariant forall e, i :: 0 <= e < c && i in base[e] ==> i < |labels| && labels[i] == owner[e]
    {
      for k := 0 to |base[c]|
        invariant |labels| == size
        invariant forall e, i :: 0 <= e < c && i in base[e] ==> i < |labels| && labels[i] == owner[e]
        invariant forall i :: i in base[c][..k] ==> i < |labels| && labels[i] == owner[c]
      {
        var index := base[c][k];
        assert index in base[c] && Root(p, index) == roots[c];
        assert base[c][..k + 1] == base[c][..k] + [index];
        labels := labels[index := owner[c]];
      }
      assert base[c][..|base[c]|] == base[c];
    }
  }

  /** Cluster labels of all definitions. */
  method ClusterLabels(sim: Similarity, clusterThreshold: real, nearThreshold: real) returns (labels: seq<nat>)
    requires sim.size > 0 && sim.Symmetric() && clusterThreshold > 0.0
    ensures Governed(labels, sim, clusterThreshold, nearThreshold)
  {
    var parents := NearDuplicateForest(sim, nearThreshold);
    ghost var p := parents[..];
    ghost var g := NearGraph(sim, nearThreshold);
    ghost var roots;
    var base;
    base, roots := GroupComponents(parents);
    assert Components(p, base, roots);
    var d := ComponentDistances(sim, base);
    var owner: CompleteLinkage.Owner;
    if |base| == 1 {
      owner := [0];
    } else {
      var hierarchy := CompleteLinkage.Linkage(d);
      owner := CompleteLinkage.Cut(d, hierarchy, 1.0 - clusterThreshold);
    }
    labels := SpreadLabels(p, base, roots, owner, sim.size);
    CutIsGoverned(p, base, roots, sim, d, owner, labels, clusterThreshold, nearThreshold);
  }
}
