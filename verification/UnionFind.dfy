/** The near-duplicate union-find of the factor-library clustering script.

    `parents` is the mutable list of the script; `find` halves paths while it walks and `union` hangs the larger
    root below the smaller one.  The graph it has to close is given by a predicate on pairs of definitions.
 */
module UnionFind {

  /** An undirected graph on the indices below `size`: `adj` holds its edges, written with the smaller index first. */
  datatype Graph = Graph(size: nat, adj: set<(nat, nat)>) {
    ghost predicate Valid() {
      forall e :: e in adj ==> e.0 < e.1 < size
    }

    predicate Edge(i: nat, j: nat) {
      (i, j) in adj || (j, i) in adj
    }

    /** `path` walks along edges from its first to its last vertex. */
    ghost predicate Chain(path: seq<nat>) {
      && path != []
      && (forall k :: 0 <= k < |path| ==> path[k] < size)
      && forall k :: 0 < k < |path| ==> Edge(path[k - 1], path[k])
    }

    ghost predicate ChainBetween(path: seq<nat>, i: nat, j: nat) {
      Chain(path) && path[0] == i && path[|path| - 1] == j
    }

    ghost predicate Connected(i: nat, j: nat) {
      exists path :: ChainBetween(path, i, j)
    }
  }

  lemma {:induction false} ConnectedReflexive(g: Graph, i: nat)
    requires i < g.size
    ensures g.Connected(i, i)
  {
    assert g.ChainBetween([i], i, i);
  }

  lemma {:induction false} ConnectedEdge(g: Graph, i: nat, j: nat)
    requires i < g.size && j < g.size && g.Edge(i, j)
    ensures g.Connected(i, j)
  {
    assert g.ChainBetween([i, j], i, j);
  }

  lemma {:induction false} ConnectedTransitive(g: Graph, i: nat, j: nat, k: nat)
    requires g.Connected(i, j) && g.Connected(j, k)
    ensures g.Connected(i, k)
  {
    var p :| g.ChainBetween(p, i, j);
    var q :| g.ChainBetween(q, j, k);
    var r := p + q[1..];
    forall n | 0 < n < |r|
      ensures g.Edge(r[n - 1], r[n])
    {
      if n >= |p| {
        assert r[n] == q[n - |p| + 1] && r[n - 1] == q[n - |p|];
      }
    }
    assert g.ChainBetween(r, i, k);
  }

  lemma {:induction false} ReversedChain(g: Graph, path: seq<nat>, i: nat, j: nat)
    requires g.ChainBetween(path, i, j)
    ensures g.Connected(j, i)
    decreases |path|
  {
    if |path| == 1 {
      ConnectedReflexive(g, i);
    } else {
      var k := path[1];
      assert g.ChainBetween(path[1..], k, j);
      ReversedChain(g, path[1..], k, j);
      assert g.Edge(path[0], path[1]);
      ConnectedEdge(g, k, i);
      ConnectedTransitive(g, j, k, i);
    }
  }

  lemma {:induction false} ConnectedSymmetric(g: Graph, i: nat, j: nat)
    requires g.Connected(i, j)
    ensures g.Connected(j, i)
  {
    var path :| g.ChainBetween(path, i, j);
    ReversedChain(g, path, i, j);
  }

  // ----- the forest -----

  /** Parents never exceed their index, which is why every walk to a root ends. */
  ghost predicate Forest(p: seq<nat>) {
    forall i :: 0 <= i < |p| ==> p[i] <= i
  }

  function Root(p: seq<nat>, i: nat): (r: nat)
    requires Forest(p) && i < |p|
    ensures r <= i && p[r] == r
    decreases i
  {
    if p[i] == i then i else Root(p, p[i])
  }

  ghost predicate SameRoots(p: seq<nat>, q: seq<nat>) {
    && Forest(p) && Forest(q) && |p| == |q|
    && forall i :: 0 <= i < |p| ==> Root(q, i) == Root(p, i)
  }

  /** One halving step moves a vertex to its grandparent and changes no root. */
  lemma {:induction false} HalvingKeepsRoot(p: seq<nat>, v: nat, i: nat)
    requires Forest(p) && v < |p| && i < |p|
    ensures Forest(p[v := p[p[v]]])
    ensures Root(p[v := p[p[v]]], i) == Root(p, i)
    decreases i
  {
    var q := p[v := p[p[v]]];
    if q[i] != i {
      HalvingKeepsRoot(p, v, q[i]);
      if i == v {
        assert Root(p, v) == Root(p, p[v]) == Root(p, p[p[v]]);
      }
    } else if i == v {
      assert p[p[v]] == v && p[v] <= v;
    }
  }

  lemma {:induction false} HalvingKeepsRoots(p: seq<nat>, v: nat)
    requires Forest(p) && v < |p|
    ensures SameRoots(p, p[v := p[p[v]]])
  {
    forall i | 0 <= i < |p|
      ensures Forest(p[v := p[p[v]]]) && Root(p[v := p[p[v]]], i) == Root(p, i)
    {
      HalvingKeepsRoot(p, v, i);
    }
    assert Forest(p[v := p[p[v]]]) by { HalvingKeepsRoot(p, v, v); }
  }

  /** Hanging root `b` below the smaller root `a` sends exactly the old members of `b` to `a`. */
  lemma {:induction false} LinkingMovesRoot(p: seq<nat>, a: nat, b: nat, i: nat)
    requires Forest(p) && a < b < |p| && i < |p| && p[a] == a && p[b] == b
    ensures Forest(p[b := a])
    ensures Root(p[b := a], i) == if Root(p, i) == b then a else Root(p, i)
    decreases i
  {
    var q := p[b := a];
    if q[i] != i {
      LinkingMovesRoot(p, a, b, q[i]);
    }
  }

  method Find(parents: array<nat>, start: nat) returns (root: nat)
    requires Forest(parents[..]) && start < parents.Length
    modifies parents
    ensures SameRoots(old(parents[..]), parents[..])
    ensures root == Root(old(parents[..]), start)
  {
    var value: nat := start;
    while parents[value] != value
      invariant value < parents.Length
      invariant SameRoots(old(parents[..]), parents[..])
      invariant Root(parents[..], value) == Root(old(parents[..]), start)
      decreases value
    {
      ghost var before := parents[..];
      HalvingKeepsRoots(before, value);
      assert Root(before, value) == Root(before, before[before[value]]);
      parents[value] := parents[parents[value]];
      assert parents[..] == before[value := before[before[value]]];
      value := parents[value];
    }
    root := value;
  }

  /** The trees of `left` and `right` become one tree under the smaller of their roots; all others stay. */
  ghost predicate Unites(p: seq<nat>, q: seq<nat>, left: nat, right: nat) {
    && Forest(p) && Forest(q) && |q| == |p| && left < |p| && right < |p|
    && var l, r := Root(p, left), Root(p, right);
    && forall i :: 0 <= i < |p| ==>
      Root(q, i) == if Root(p, i) == l || Root(p, i) == r then (if l <= r then l else r) else Root(p, i)
  }

  method Union(parents: array<nat>, left: nat, right: nat)
    requires Forest(parents[..]) && left < parents.Length && right < parents.Length
    modifies parents
    ensures Unites(old(parents[..]), parents[..], left, right)
  {
    var leftRoot := Find(parents, left);
    var rightRoot := Find(parents, right);
    if leftRoot != rightRoot {
      ghost var p := parents[..];
      var hi: nat := if leftRoot > rightRoot then leftRoot else rightRoot;
      var lo: nat := if leftRoot < rightRoot then leftRoot else rightRoot;
      forall i | 0 <= i < parents.Length
        ensures Forest(p[hi := lo]) && Root(p[hi := lo], i) == if Root(p, i) == hi then lo else Root(p, i)
      {
        LinkingMovesRoot(p, lo, hi, i);
      }
      parents[hi] := lo;
      assert parents[..] == p[hi := lo];
    }
  }

  // ----- what the double loop establishes -----

  /** The forest is sound for `g` (a vertex is connected to its root) and closed under the edges in `done`. */
  ghost predicate Closing(p: seq<nat>, g: Graph, done: set<(nat, nat)>) {
    && Forest(p) && |p| == g.size
    && (forall i :: 0 <= i < |p| ==> g.Connected(i, Root(p, i)))
    && forall e :: e in done ==> e.0 < |p| && e.1 < |p| && Root(p, e.0) == Root(p, e.1)
  }

  /** The forest represents exactly the components of `g`, each by its smallest index. */
  ghost predicate Represents(p: seq<nat>, g: Graph) {
    && Forest(p) && |p| == g.size
    && (forall i, j :: 0 <= i < |p| && 0 <= j < |p| ==> (Root(p, i) == Root(p, j) <==> g.Connected(i, j)))
    && forall i, j :: 0 <= i < |p| && 0 <= j < |p| && g.Connected(i, j) ==> Root(p, i) <= j
  }

  lemma {:induction false} ChainSharesRoot(p: seq<nat>, g: Graph, path: seq<nat>, i: nat, j: nat)
    requires g.Valid() && Closing(p, g, g.adj) && g.ChainBetween(path, i, j)
    ensures Root(p, i) == Root(p, j)
    decreases |path|
  {
    if |path| > 1 {
      assert g.Edge(path[0], path[1]);
      ChainSharesRoot(p, g, path[1..], path[1], j);
    }
  }

  lemma {:induction false} ClosedForestRepresents(p: seq<nat>, g: Graph)
    requires g.Valid() && Closing(p, g, g.adj)
    ensures Represents(p, g)
  {
    forall i, j | 0 <= i < |p| && 0 <= j < |p|
      ensures Root(p, i) == Root(p, j) <==> g.Connected(i, j)
    {
      if Root(p, i) == Root(p, j) {
        ConnectedSymmetric(g, j, Root(p, j));
        ConnectedTransitive(g, i, Root(p, i), j);
      }
      if g.Connected(i, j) {
        var path :| g.ChainBetween(path, i, j);
        ChainSharesRoot(p, g, path, i, j);
      }
    }
  }

  /** Any two forests that represent the same graph have the same roots: the scan order leaves no trace. */
  lemma {:induction false} RootsDependOnlyOnTheGraph(p: seq<nat>, q: seq<nat>, g: Graph)
    requires Represents(p, g) && Represents(q, g)
    ensures SameRoots(p, q)
  {
    forall i | 0 <= i < |p|
      ensures Root(p, i) == Root(q, i)
    {
      var a, b := Root(p, i), Root(q, i);
      assert Root(p, a) == a && Root(q, b) == b;
      assert g.Connected(i, a) && g.Connected(i, b);
      assert a <= b && b <= a;
    }
  }

  lemma {:induction false} UnionKeepsClosing(p: seq<nat>, q: seq<nat>, g: Graph, done: set<(nat, nat)>, left: nat,
                                             right: nat)
    requires Closing(p, g, done) && Unites(p, q, left, right) && g.Edge(left, right)
    ensures Closing(q, g, done + {(left, right)})
  {
    var l, r := Root(p, left), Root(p, right);
    assert g.Connected(l, r) && g.Connected(r, l) by {
      ConnectedSymmetric(g, left, l);
      ConnectedEdge(g, left, right);
      ConnectedTransitive(g, l, left, right);
      ConnectedTransitive(g, l, right, r);
      ConnectedSymmetric(g, l, r);
    }
    forall i | 0 <= i < |q|
      ensures g.Connected(i, Root(q, i))
    {
      if Root(q, i) != Root(p, i) {
        ConnectedTransitive(g, i, Root(p, i), Root(q, i));
      }
    }
  }

  lemma {:induction false} IdentityCloses(p: seq<nat>, g: Graph)
    requires |p| == g.size && forall i :: 0 <= i < |p| ==> p[i] == i
    ensures Closing(p, g, {})
  {
    forall i | 0 <= i < |p|
      ensures g.Connected(i, Root(p, i))
    {
      ConnectedReflexive(g, i);
    }
  }

  /** Merging the edges in an arbitrary order: the result represents the graph whatever the order is. */
  method MergeEdges(g: Graph, order: seq<(nat, nat)>) returns (parents: array<nat>)
    requires g.Valid() && forall e :: e in order <==> e in g.adj
    ensures fresh(parents) && Represents(parents[..], g)
  {
    hide Root, Unites, Represents;
    parents := new nat[g.size](i => i);
    ghost var done: set<(nat, nat)> := {};
    IdentityCloses(parents[..], g);
    for k := 0 to |order|
      invariant forall e :: e in done <==> e in order[..k]
      invariant Closing(parents[..], g, done)
    {
      assert order[k] in order;
      var (left, right) := order[k];
      ghost var before := parents[..];
      Union(parents, left, right);
      UnionKeepsClosing(before, parents[..], g, done, left, right);
      done := done + {(left, right)};
    }
    assert done == g.adj;
    ClosedForestRepresents(parents[..], g);
  }
}
