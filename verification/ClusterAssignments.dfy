/** Cluster identities: every cluster is named by the digest of its joined member names.

    The digest is taken to be injective, so an identity is represented by the joined string itself.
 */
module ClusterAssignments {
  import opened Values
  import opened UnionFind
  import opened FactorClusters

  datatype ClusterId = ClusterId(joined: string)

  datatype ClusterError = InvalidShape | EmptyLinkage

  function Join(parts: seq<string>): string {
    if |parts| == 0 then "" else if |parts| == 1 then parts[0] else parts[0] + ":" + Join(parts[1..])
  }

  predicate ColonFree(names: seq<string>) {
    forall i :: 0 <= i < |names| ==> ':' !in names[i]
  }

  predicate Distinct<T(==)>(xs: seq<T>) {
    forall i, j :: 0 <= i < j < |xs| ==> xs[i] != xs[j]
  }

  /** The length of the text before the first separator. */
  function HeadLength(s: string): (k: nat)
    ensures k <= |s|
  {
    if s == "" || s[0] == ':' then 0 else 1 + HeadLength(s[1..])
  }

  lemma {:induction false} HeadLengthAt(s: string, k: nat)
    requires k <= |s| && ':' !in s[..k] && (k == |s| || s[k] == ':')
    ensures HeadLength(s) == k
  {
    if k > 0 {
      assert s[..k][0] == s[0];
      assert s[1..][..k - 1] == s[..k][1..];
      HeadLengthAt(s[1..], k - 1);
    }
  }

  /** The first part of a joined string can be read off again, and so can what follows it. */
  lemma {:induction false} SplitJoined(parts: seq<string>)
    requires parts != [] && ColonFree(parts)
    ensures HeadLength(Join(parts)) == |parts[0]| && Join(parts)[..|parts[0]|] == parts[0]
    ensures |parts| == 1 <==> HeadLength(Join(parts)) == |Join(parts)|
    ensures |parts| > 1 ==> Join(parts)[|parts[0]| + 1..] == Join(parts[1..])
  {
    var joined, k := Join(parts), |parts[0]|;
    if |parts| > 1 {
      assert joined == parts[0] + ":" + Join(parts[1..]);
      assert joined[k] == ':';
    }
    assert joined[..k] == parts[0];
    HeadLengthAt(joined, k);
  }

  lemma {:induction false} JoinInjective(xs: seq<string>, ys: seq<string>)
    requires xs != [] && ys != [] && ColonFree(xs) && ColonFree(ys) && Join(xs) == Join(ys)
    ensures xs == ys
    decreases |xs|
  {
    SplitJoined(xs);
    SplitJoined(ys);
    if |xs| > 1 {
      JoinInjective(xs[1..], ys[1..]);
      assert xs == [xs[0]] + xs[1..] && ys == [ys[0]] + ys[1..];
    }
  }

  /** The names at the positions `s` among the first `k`, in order. */
  function Pick(names: seq<string>, s: set<nat>, k: nat): seq<string>
    requires k <= |names|
  {
    if k == 0 then [] else Pick(names, s, k - 1) + if k - 1 in s then [names[k - 1]] else []
  }

  lemma {:induction false} PickExactly(names: seq<string>, s: set<nat>, k: nat)
    requires k <= |names|
    ensures forall name :: name in Pick(names, s, k) <==> exists i :: 0 <= i < k && i in s && names[i] == name
  {
    if k > 0 {
      PickExactly(names, s, k - 1);
    }
  }

  /** The names labelled `cluster` among the first `k`, in order. */
  function MemberNames(names: seq<string>, labels: seq<nat>, cluster: nat, k: nat): seq<string>
    requires |labels| == |names| && k <= |names|
  {
    if k == 0 then []
    else MemberNames(names, labels, cluster, k - 1) + if labels[k - 1] == cluster then [names[k - 1]] else []
  }

  function Members(labels: seq<nat>, cluster: nat): set<nat> {
    set i | 0 <= i < |labels| && labels[i] == cluster
  }

  lemma {:induction false} MembersPicked(names: seq<string>, labels: seq<nat>, cluster: nat, k: nat)
    requires |labels| == |names| && k <= |names|
    ensures MemberNames(names, labels, cluster, k) == Pick(names, Members(labels, cluster), k)
  {
    if k > 0 {
      MembersPicked(names, labels, cluster, k - 1);
    }
  }

  function IdOf(names: seq<string>, labels: seq<nat>, i: nat): ClusterId
    requires |labels| == |names| && i < |names|
  {
    ClusterId(Join(MemberNames(names, labels, labels[i], |names|)))
  }

  function IdsOf(names: seq<string>, labels: seq<nat>): seq<ClusterId>
    requires |labels| == |names|
  {
    seq(|names|, i requires 0 <= i < |names| => IdOf(names, labels, i))
  }

  // ----- when identifiers tell clusters apart -----

  /** Two groups of definitions that share no member and are joined to the same string. */
  ghost predicate Collide(names: seq<string>, s: set<nat>, t: set<nat>) {
    && s != {} && t != {} && s !! t && (forall i :: i in s + t ==> i < |names|)
    && Join(Pick(names, s, |names|)) == Join(Pick(names, t, |names|))
  }

  ghost predicate Ambiguous(names: seq<string>) {
    exists s: set<nat>, t: set<nat> :: Collide(names, s, t)
  }

  /** Identities separate clusters exactly as the labels do. */
  lemma {:induction false} IdsFollowLabels(names: seq<string>, labels: seq<nat>, i: nat, j: nat)
    requires |labels| == |names| && i < |names| && j < |names| && !Ambiguous(names)
    ensures IdOf(names, labels, i) == IdOf(names, labels, j) <==> labels[i] == labels[j]
  {
    MembersPicked(names, labels, labels[i], |names|);
    MembersPicked(names, labels, labels[j], |names|);
    hide Join, Pick, MemberNames;
    assert i in Members(labels, labels[i]) && j in Members(labels, labels[j]);
    if labels[i] != labels[j] {
      assert Members(labels, labels[i]) !! Members(labels, labels[j]);
      assert !Collide(names, Members(labels, labels[i]), Members(labels, labels[j]));
    }
  }

  /** Distinct names without a separator are never ambiguous. */
  lemma {:induction false} ColonFreeIsUnambiguous(names: seq<string>)
    requires Distinct(names) && ColonFree(names)
    ensures !Ambiguous(names)
  {
    forall s: set<nat>, t: set<nat>
      ensures !Collide(names, s, t)
    {
      if Collide(names, s, t) {
        var i: nat :| i in s;
        var j: nat :| j in t;
        PickedColonFree(names, s);
        PickedColonFree(names, t);
        PickExactly(names, s, |names|);
        PickExactly(names, t, |names|);
        assert i in s + t && j in s + t;
        assert names[i] in Pick(names, s, |names|) && names[j] in Pick(names, t, |names|);
        JoinInjective(Pick(names, s, |names|), Pick(names, t, |names|));
      }
    }
  }

  lemma {:induction false} PickedColonFree(names: seq<string>, s: set<nat>)
    requires ColonFree(names)
    ensures ColonFree(Pick(names, s, |names|))
  {
    var picked := Pick(names, s, |names|);
    PickExactly(names, s, |names|);
    forall m | 0 <= m < |picked|
      ensures ':' !in picked[m]
    {
      assert picked[m] in picked;
    }
  }

  /** Labels of two groups and the rest. */
  function TwoGroups(n: nat, s: set<nat>, t: set<nat>): (labels: seq<nat>)
    ensures |labels| == n
  {
    seq(n, i requires 0 <= i < n => if i in s then 1 else if i in t then 2 else 0)
  }

  /** Two definitions are perfectly similar within a label, and share no day across labels. */
  function Blocks(labels: seq<nat>): Similarity {
    Similarity(|labels|, seq(|labels|, i requires 0 <= i < |labels| =>
                               seq(|labels|, j requires 0 <= j < |labels| =>
                                     if labels[i] == labels[j] then Some(1.0) else None)))
  }

  lemma {:induction false} BlockEntry(labels: seq<nat>, i: nat, j: nat)
    requires i < |labels| && j < |labels|
    ensures Blocks(labels).At(i, j) == if labels[i] == labels[j] then Some(1.0) else None
  {
  }

  lemma {:induction false} ChainsStayInBlocks(labels: seq<nat>, nt: real, path: seq<nat>, i: nat, j: nat)
    requires NearGraph(Blocks(labels), nt).ChainBetween(path, i, j)
    ensures i < |labels| && j < |labels| && labels[i] == labels[j]
    decreases |path|
  {
    var g := NearGraph(Blocks(labels), nt);
    if |path| > 1 {
      var before := path[..|path| - 1];
      assert g.ChainBetween(before, i, before[|before| - 1]);
      ChainsStayInBlocks(labels, nt, before, i, before[|before| - 1]);
      assert g.Edge(before[|before| - 1], j);
    }
  }

  /** Near-duplicate components of such a similarity are its blocks. */
  lemma {:induction false} BlocksConnected(labels: seq<nat>, nt: real, i: nat, j: nat)
    requires i < |labels| && j < |labels| && nt <= 1.0
    ensures NearGraph(Blocks(labels), nt).Connected(i, j) <==> labels[i] == labels[j]
  {
    var g := NearGraph(Blocks(labels), nt);
    if g.Connected(i, j) {
      var path :| g.ChainBetween(path, i, j);
      ChainsStayInBlocks(labels, nt, path, i, j);
    }
    if labels[i] == labels[j] {
      BlockEntry(labels, i, j);
      BlockEntry(labels, j, i);
      if i == j {
        ConnectedReflexive(g, i);
      } else {
        ConnectedEdge(g, i, j);
      }
    }
  }

  lemma {:induction false} BlocksStayApart(labels: seq<nat>, nt: real, ct: real, i: nat, j: nat)
    requires i < |labels| && j < |labels| && nt <= 1.0
    ensures MustStayApart(Blocks(labels), NearGraph(Blocks(labels), nt), i, j, ct) <==>
      labels[i] != labels[j] || ct > 1.0
  {
    var sim, g := Blocks(labels), NearGraph(Blocks(labels), nt);
    forall k: nat, l: nat | k < |labels| && l < |labels|
      ensures g.Connected(i, k) <==> labels[i] == labels[k]
      ensures g.Connected(j, l) <==> labels[j] == labels[l]
      ensures sim.At(k, l) == if labels[k] == labels[l] then Some(1.0) else None
    {
      BlocksConnected(labels, nt, i, k);
      BlocksConnected(labels, nt, j, l);
      BlockEntry(labels, k, l);
    }
    hide Blocks, NearGraph;
    if labels[i] == labels[j] {
      assert Comparable(sim, g, i, j) by {
        assert g.Connected(i, i) && g.Connected(j, j) && sim.At(i, j).Some?;
      }
      if ct > 1.0 {
        assert g.Connected(i, i) && g.Connected(j, j) && sim.At(i, j).value < ct;
      }
    }
  }

  /** The clusters of such a similarity are its blocks, whichever governed clustering is found. */
  lemma {:induction false} BlocksAreClusters<T>(labels: seq<nat>, found: seq<T>, ct: real, nt: real, i: nat, j: nat)
    requires Governed(found, Blocks(labels), ct, nt) && nt <= 1.0 && i < |labels| && j < |labels|
    ensures |found| == |labels| && (found[i] == found[j] <==> labels[i] == labels[j])
  {
    BlocksConnected(labels, nt, i, j);
    BlocksStayApart(labels, nt, ct, i, j);
    hide Blocks, NearGraph, MustStayApart, Unmergeable;
  }

  /** Ambiguous names have a similarity for which every governed clustering gives two clusters one identifier. */
  lemma {:induction false} AmbiguousNamesCollide(names: seq<string>, s: set<nat>, t: set<nat>, labels: seq<nat>,
                                                 ct: real, nt: real)
    requires Collide(names, s, t) && nt <= 1.0
    requires Governed(labels, Blocks(TwoGroups(|names|, s, t)), ct, nt)
    ensures exists i: nat, j: nat :: i < |names| && j < |names| && labels[i] != labels[j]
              && IdOf(names, labels, i) == IdOf(names, labels, j)
    ensures !Governed(IdsOf(names, labels), Blocks(TwoGroups(|names|, s, t)), ct, nt)
  {
    var marks := TwoGroups(|names|, s, t);
    assert |labels| == |names|;
    GroupsAreLabelled(names, s, t, labels, ct, nt);
    hide *;
    var i, j := CollidingPair(names, s, t, labels);
    if Governed(IdsOf(names, labels), Blocks(marks), ct, nt) {
      BlocksAreClusters(marks, IdsOf(names, labels), ct, nt, i, j);
      BlocksAreClusters(marks, labels, ct, nt, i, j);
      IdsAt(names, labels, i);
      IdsAt(names, labels, j);
    }
  }

  lemma {:induction false} IdsAt(names: seq<string>, labels: seq<nat>, i: nat)
    requires |labels| == |names| && i < |names|
    ensures |IdsOf(names, labels)| == |names| && IdsOf(names, labels)[i] == IdOf(names, labels, i)
  {
  }

  /** The labels of each group are its own. */
  ghost predicate Labelled(labels: seq<nat>, s: set<nat>) {
    forall i, k :: i in s && 0 <= k < |labels| && 0 <= i < |labels| ==> (labels[k] == labels[i] <==> k in s)
  }

  lemma {:induction false} GroupsAreLabelled(names: seq<string>, s: set<nat>, t: set<nat>, labels: seq<nat>,
                                             ct: real, nt: real)
    requires Collide(names, s, t) && nt <= 1.0
    requires Governed(labels, Blocks(TwoGroups(|names|, s, t)), ct, nt) && |labels| == |names|
    ensures Labelled(labels, s) && Labelled(labels, t)
  {
    hide Join, Pick, Governed, Blocks;
    forall i, k | 0 <= i < |names| && 0 <= k < |names|
      ensures labels[k] == labels[i] <==> TwoGroups(|names|, s, t)[k] == TwoGroups(|names|, s, t)[i]
    {
      BlocksAreClusters(TwoGroups(|names|, s, t), labels, ct, nt, k, i);
    }
  }

  lemma {:induction false} CollidingPair(names: seq<string>, s: set<nat>, t: set<nat>, labels: seq<nat>)
    returns (i: nat, j: nat)
    requires Collide(names, s, t) && |labels| == |names| && Labelled(labels, s) && Labelled(labels, t)
    ensures i < |names| && j < |names| && labels[i] != labels[j] && IdOf(names, labels, i) == IdOf(names, labels, j)
  {
    hide Join, Pick, MemberNames;
    i :| i in s;
    j :| j in t;
    assert i in s + t && j in s + t && i !in t;
    assert Members(labels, labels[i]) == s && Members(labels, labels[j]) == t;
    MembersPicked(names, labels, labels[i], |names|);
    MembersPicked(names, labels, labels[j], |names|);
  }

  ghost predicate AlwaysGoverned(names: seq<string>, ct: real, nt: real) {
    forall sim: Similarity, labels: seq<nat> :: sim.size == |names| && Governed(labels, sim, ct, nt) ==>
      Governed(IdsOf(names, labels), sim, ct, nt)
  }

  lemma {:induction false} BlocksGoverned(labels: seq<nat>, ct: real, nt: real)
    requires ct <= 1.0 && nt <= 1.0
    ensures Governed(labels, Blocks(labels), ct, nt)
  {
    forall i: nat, j: nat | i < |labels| && j < |labels|
      ensures NearGraph(Blocks(labels), nt).Connected(i, j) <==> labels[i] == labels[j]
      ensures labels[i] != labels[j] ==>
        Unmergeable(labels, Blocks(labels), NearGraph(Blocks(labels), nt), i, j, ct)
    {
      BlocksConnected(labels, nt, i, j);
      BlocksStayApart(labels, nt, ct, i, j);
    }
    hide Blocks, NearGraph, MustStayApart, Unmergeable;
  }

  /** Identifiers are a governed clustering for every similarity exactly when no two disjoint groups of names are joined
      to the same string. */
  lemma {:induction false} IdsGovernedExactly(names: seq<string>, ct: real, nt: real)
    requires 0.0 < ct < nt <= 1.0
    ensures AlwaysGoverned(names, ct, nt) <==> !Ambiguous(names)
  {
    if !Ambiguous(names) {
      forall sim: Similarity, labels: seq<nat> | sim.size == |names| && Governed(labels, sim, ct, nt)
        ensures Governed(IdsOf(names, labels), sim, ct, nt)
      {
        GovernedIds(names, labels, IdsOf(names, labels), sim, ct, nt);
      }
    } else {
      var s: set<nat>, t: set<nat> :| Collide(names, s, t);
      var marks := TwoGroups(|names|, s, t);
      BlocksGoverned(marks, ct, nt);
      AmbiguousNamesCollide(names, s, t, marks, ct, nt);
      hide Governed;
      assert Blocks(marks).size == |names|;
    }
  }

  lemma {:induction false} GovernedIds(names: seq<string>, labels: seq<nat>, ids: seq<ClusterId>, sim: Similarity,
                                       ct: real, nt: real)
    requires !Ambiguous(names) && Governed(labels, sim, ct, nt) && sim.size == |labels| == |names|
    requires ids == IdsOf(names, labels)
    ensures Governed(ids, sim, ct, nt)
  {
    forall i, j | 0 <= i < |names| && 0 <= j < |names|
      ensures ids[i] == ids[j] <==> labels[i] == labels[j]
    {
      IdsFollowLabels(names, labels, i, j);
    }
    RelabelledGoverned(labels, ids, sim, ct, nt);
  }

  lemma {:induction false} JoinedAlike()
    ensures Collide(["a", "a:b", "b"], {0, 2}, {1})
  {
    var names := ["a", "a:b", "b"];
    assert Join(["a", "b"]) == "a" + ":" + Join(["b"]) == "a:b" == Join(["a:b"]);
    assert Pick(names, {0, 2}, 2) == ["a"] && Pick(names, {0, 2}, 3) == ["a", "b"];
    assert Pick(names, {1}, 1) == [] && Pick(names, {1}, 3) == ["a:b"];
  }

  /** With a separator inside a name it can happen: "a" and "b" on one side, "a:b" on the other, which any governed
      clustering of the similarity tells apart while their identifiers are the same. */
  lemma {:induction false} SeparatorInNameCollides(labels: seq<nat>, ct: real, nt: real)
    requires 0.0 < ct < nt <= 1.0 && Governed(labels, Blocks([1, 2, 1]), ct, nt)
    ensures Distinct(["a", "a:b", "b"]) && Ambiguous(["a", "a:b", "b"])
    ensures |labels| == 3 && labels[0] == labels[2] != labels[1]
    ensures IdOf(["a", "a:b", "b"], labels, 0) == IdOf(["a", "a:b", "b"], labels, 1)
  {
    hide *;
    BlocksAreClusters([1, 2, 1], labels, ct, nt, 0, 1);
    BlocksAreClusters([1, 2, 1], labels, ct, nt, 0, 2);
    JoinedAlike();
    SeparatorInIds(labels);
  }

  lemma {:induction false} SeparatorInIds(labels: seq<nat>)
    requires |labels| == 3 && labels[0] == labels[2] != labels[1]
    ensures Distinct(["a", "a:b", "b"]) && Ambiguous(["a", "a:b", "b"])
    ensures IdOf(["a", "a:b", "b"], labels, 0) == IdOf(["a", "a:b", "b"], labels, 1)
  {
    var names := ["a", "a:b", "b"];
    JoinedAlike();
    assert Members(labels, labels[0]) == {0, 2} && Members(labels, labels[1]) == {1};
    MembersPicked(names, labels, labels[0], 3);
    MembersPicked(names, labels, labels[1], 3);
    hide Join, Pick, MemberNames, Members;
  }

  // ----- the script's grouping and naming -----

  function NamesOf(grouped: map<nat, seq<string>>, cluster: nat): seq<string> {
    if cluster in grouped then grouped[cluster] else []
  }

  ghost predicate GroupedNames(grouped: map<nat, seq<string>>, names: seq<string>, labels: seq<nat>, k: nat)
    requires |labels| == |names| && k <= |names|
  {
    forall cluster: nat :: NamesOf(grouped, cluster) == MemberNames(names, labels, cluster, k)
  }

  lemma {:induction false} EmptyNameGroups(names: seq<string>, labels: seq<nat>)
    requires |labels| == |names|
    ensures GroupedNames(map[], names, labels, 0)
  {
  }

  lemma {:induction false} NameGroupStep(grouped: map<nat, seq<string>>, names: seq<string>, labels: seq<nat>, i: nat)
    requires |labels| == |names| && i < |names| && GroupedNames(grouped, names, labels, i)
    ensures GroupedNames(grouped[labels[i] := NamesOf(grouped, labels[i]) + [names[i]]], names, labels, i + 1)
  {
    var after := grouped[labels[i] := NamesOf(grouped, labels[i]) + [names[i]]];
    forall cluster: nat
      ensures NamesOf(after, cluster) == MemberNames(names, labels, cluster, i + 1)
    {
      assert NamesOf(grouped, cluster) == MemberNames(names, labels, cluster, i);
    }
  }

  method GroupNames(names: seq<string>, labels: seq<nat>) returns (grouped: map<nat, seq<string>>)
    requires |labels| == |names|
    ensures forall k :: 0 <= k < |names| ==>
      labels[k] in grouped && grouped[labels[k]] == MemberNames(names, labels, labels[k], |names|)
  {
    hide MemberNames;
    grouped := map[];
    assert GroupedNames(grouped, names, labels, 0) by { EmptyNameGroups(names, labels); }
    for i := 0 to |names|
      invariant GroupedNames(grouped, names, labels, i)
      invariant forall k :: 0 <= k < i ==> labels[k] in grouped
    {
      NameGroupStep(grouped, names, labels, i);
      grouped := grouped[labels[i] := NamesOf(grouped, labels[i]) + [names[i]]];
    }
  }

  method AssignIds(names: seq<string>, labels: seq<nat>, grouped: map<nat, seq<string>>)
      returns (found: map<string, ClusterId>)
    requires |labels| == |names| && Distinct(names)
    requires forall k :: 0 <= k < |names| ==>
      labels[k] in grouped && grouped[labels[k]] == MemberNames(names, labels, labels[k], |names|)
    ensures forall name :: name in found <==> name in names
    ensures forall k :: 0 <= k < |names| ==> names[k] in found && found[names[k]] == IdOf(names, labels, k)
  {
    found := map[];
    for i := 0 to |names|
      invariant forall name :: name in found <==> name in names[..i]
      invariant forall k :: 0 <= k < i ==> names[k] in found && found[names[k]] == IdOf(names, labels, k)
    {
      assert names[..i + 1] == names[..i] + [names[i]];
      found := found[names[i] := ClusterId(Join(grouped[labels[i]]))];
    }
    assert names[..|names|] == names;
  }

  /** The cluster of every definition as the script reports it, or the error it raises. */
  method GovernedClusterAssignments(names: seq<string>, sim: Similarity, clusterThreshold: real, nearThreshold: real)
      returns (assignments: Result<map<string, ClusterId>, ClusterError>)
    requires Distinct(names) && sim.Symmetric() && clusterThreshold > 0.0
    ensures assignments.Err? <==> sim.size != |names| || !sim.SquareShape() || names == []
    ensures assignments.Ok? ==> forall name :: name in assignments.value <==> name in names
    ensures assignments.Ok? && !Ambiguous(names) ==>
      Governed(seq(|names|, i requires 0 <= i < |names| => assignments.value[names[i]]), sim,
               clusterThreshold, nearThreshold)
  {
    if sim.size != |names| || !sim.SquareShape() {
      return Err(InvalidShape);
    }
    if names == [] {
      return Err(EmptyLinkage);
    }
    var labels := ClusterLabels(sim, clusterThreshold, nearThreshold);
    var grouped := GroupNames(names, labels);
    var found := AssignIds(names, labels, grouped);
    assignments := Ok(found);
    ghost var ids := seq(|names|, i requires 0 <= i < |names| => found[names[i]]);
    if !Ambiguous(names) {
      assert ids == IdsOf(names, labels);
      GovernedIds(names, labels, ids, sim, clusterThreshold, nearThreshold);
    }
  }
}
