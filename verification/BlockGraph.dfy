/**
  The block graph of qemu/block.c: vertices are block nodes (BlockDriverState) and
  the users on top of them (BlockBackends and block jobs); edges are BdrvChild
  objects.  A child whose node has been taken away has no target.

  Reachability is the least set closed under children, a connected component the
  least set closed under edges in both directions.
 */
module BlockGraph {
  import opened Wrappers

  type Node = nat
  type EdgeId = nat
  type Ctx = nat

  datatype Perm = ConsistentRead | Write | WriteUnchanged | Resize

  type Perms = set<Perm>

  const ALL_PERMS: Perms := {ConsistentRead, Write, WriteUnchanged, Resize}

  /** BdrvChildRole flags. */
  datatype Role = Role(cow: bool, filtered: bool, primary: bool)

  /** BdrvChild.  `stays` is the class's stay_at_node; `movable` says whether the parent accepts a change of
      AioContext. */
  datatype Edge = Edge(owner: Node, target: Option<Node>, role: Role, perm: Perms, shared: Perms,
                       frozen: bool, stays: bool, movable: bool)

  type Edges = map<EdgeId, Edge>

  predicate Attached(edges: Edges, e: EdgeId) {
    e in edges && edges[e].target.Some?
  }

  predicate Links(edges: Edges, e: EdgeId, a: Node, b: Node) {
    e in edges && edges[e].owner == a && edges[e].target == Some(b)
  }

  function Parents(edges: Edges, n: Node): set<EdgeId> {
    set e | e in edges && edges[e].target == Some(n)
  }

  /** The children list of a node: its attached edges. */
  function Children(edges: Edges, n: Node): set<EdgeId> {
    set e | e in edges && edges[e].owner == n && edges[e].target.Some?
  }

  predicate Over(edges: Edges, nodes: set<Node>) {
    forall e | e in edges :: edges[e].owner in nodes && (edges[e].target.Some? ==> edges[e].target.value in nodes)
  }

  // -------------------------------------------------------- reachability

  ghost predicate ChildClosed(edges: Edges, s: set<Node>) {
    forall e | Attached(edges, e) && edges[e].owner in s :: edges[e].target.value in s
  }

  ghost predicate Reach(edges: Edges, a: Node, b: Node) {
    forall s | a in s && ChildClosed(edges, s) :: b in s
  }

  ghost function ReachSet(edges: Edges, nodes: set<Node>, a: Node): set<Node> {
    set b | b in nodes && Reach(edges, a, b)
  }

  /** No edge's owner can be reached from its target. */
  ghost predicate Acyclic(edges: Edges) {
    forall e | Attached(edges, e) :: !Reach(edges, edges[e].target.value, edges[e].owner)
  }

  lemma ReachEdge(edges: Edges, a: Node, e: EdgeId)
    requires Attached(edges, e) && Reach(edges, a, edges[e].owner)
    ensures Reach(edges, a, edges[e].target.value)
  {
  }

  lemma ReachTrans(edges: Edges, a: Node, b: Node, c: Node)
    requires Reach(edges, a, b) && Reach(edges, b, c)
    ensures Reach(edges, a, c)
  {
  }

  lemma ReachSetClosed(edges: Edges, nodes: set<Node>, a: Node)
    requires Over(edges, nodes) && a in nodes
    ensures a in ReachSet(edges, nodes, a) && ChildClosed(edges, ReachSet(edges, nodes, a))
  {
    forall e | Attached(edges, e) && edges[e].owner in ReachSet(edges, nodes, a)
      ensures edges[e].target.value in ReachSet(edges, nodes, a)
    {
      ReachEdge(edges, a, e);
    }
  }

  /** The number of nodes below a node: it falls along every edge of an acyclic graph. */
  ghost function Rank(edges: Edges, nodes: set<Node>, a: Node): nat {
    |ReachSet(edges, nodes, a)|
  }

  lemma SubsetSize<T>(a: set<T>, b: set<T>)
    requires a <= b
    ensures |a| <= |b|
    ensures a != b ==> |a| < |b|
  {
    assert b == a + (b - a);
  }

  lemma RankFalls(edges: Edges, nodes: set<Node>, e: EdgeId)
    requires Over(edges, nodes) && Acyclic(edges) && Attached(edges, e)
    ensures Rank(edges, nodes, edges[e].target.value) < Rank(edges, nodes, edges[e].owner)
  {
    var o, t := edges[e].owner, edges[e].target.value;
    assert Reach(edges, o, o);
    ReachEdge(edges, o, e);
    var below, above := ReachSet(edges, nodes, t), ReachSet(edges, nodes, o);
    forall b | b in below ensures b in above {
      ReachTrans(edges, o, t, b);
    }
    assert o in above && o !in below;
    SubsetSize(below, above);
  }

  /** Edges of `small` are edges of `big` with the same ends. */
  ghost predicate FewerLinks(small: Edges, big: Edges) {
    forall e | Attached(small, e) ::
      Attached(big, e) && small[e].owner == big[e].owner && small[e].target == big[e].target
  }

  lemma FewerLinksReach(small: Edges, big: Edges, a: Node, b: Node)
    requires FewerLinks(small, big) && Reach(small, a, b)
    ensures Reach(big, a, b)
  {
    forall s | a in s && ChildClosed(big, s) ensures b in s {
      assert ChildClosed(small, s);
    }
  }

  lemma FewerLinksAcyclic(small: Edges, big: Edges)
    requires FewerLinks(small, big) && Acyclic(big)
    ensures Acyclic(small)
  {
    forall e | Attached(small, e)
      ensures !Reach(small, small[e].target.value, small[e].owner)
    {
      if Reach(small, small[e].target.value, small[e].owner) {
        FewerLinksReach(small, big, small[e].target.value, small[e].owner);
      }
    }
  }

  /** `big` is `small` with edge `e` from `p` to `c` added or redirected. */
  ghost predicate OneMoreLink(small: Edges, big: Edges, e: EdgeId, p: Node, c: Node) {
    && Links(big, e, p, c)
    && forall d | Attached(big, d) && d != e ::
         Attached(small, d) && small[d].owner == big[d].owner && small[d].target == big[d].target
  }

  /** Adding an edge below a node that the new child cannot reach keeps the graph acyclic. */
  lemma OneMoreLinkAcyclic(small: Edges, big: Edges, nodes: set<Node>, e: EdgeId, p: Node, c: Node)
    requires OneMoreLink(small, big, e, p, c) && Over(small, nodes) && c in nodes
    requires Acyclic(small) && !Reach(small, c, p)
    ensures Acyclic(big)
  {
    forall d | Attached(big, d)
      ensures !Reach(big, big[d].target.value, big[d].owner)
    {
      var u, v := big[d].owner, big[d].target.value;
      var r, rc := ReachSet(small, nodes, v), ReachSet(small, nodes, c);
      ReachSetClosed(small, nodes, c);
      ReachSetClosed(small, nodes, v);
      if p !in r {
        assert ChildClosed(big, r);
      } else {
        if u in rc && d != e {
          assert Reach(small, u, u);
          ReachEdge(small, u, d);
          ReachTrans(small, u, v, p);
          ReachTrans(small, c, u, p);
        }
        assert ChildClosed(big, r + rc);
      }
    }
  }

  // ------------------------------------------------ reachability by paths

  ghost predicate Linked(edges: Edges, a: Node, b: Node) {
    exists e :: Links(edges, e, a, b)
  }

  ghost predicate IsPath(edges: Edges, p: seq<Node>, a: Node, b: Node) {
    && |p| > 0 && p[0] == a && p[|p| - 1] == b
    && forall i, j | 0 <= i && j == i + 1 < |p| :: Linked(edges, p[i], p[j])
  }

  lemma {:induction false} PathStaysInside(edges: Edges, p: seq<Node>, a: Node, b: Node, s: set<Node>, k: nat)
    requires IsPath(edges, p, a, b) && a in s && ChildClosed(edges, s) && k < |p|
    ensures p[k] in s
  {
    if k > 0 {
      PathStaysInside(edges, p, a, b, s, k - 1);
      assert Linked(edges, p[k - 1], p[k]);
      var e :| Links(edges, e, p[k - 1], p[k]);
      assert Attached(edges, e);
    }
  }

  /** The closure definition of reachability agrees with the existence of a path along child links. */
  lemma ReachIsPath(edges: Edges, nodes: set<Node>, a: Node, b: Node)
    requires Over(edges, nodes) && a in nodes
    ensures Reach(edges, a, b) <==> exists p :: IsPath(edges, p, a, b)
  {
    if p :| IsPath(edges, p, a, b) {
      forall s | a in s && ChildClosed(edges, s) ensures b in s {
        PathStaysInside(edges, p, a, b, s, |p| - 1);
      }
    }
    if Reach(edges, a, b) {
      var s := set m | m in nodes && exists p :: IsPath(edges, p, a, m);
      assert IsPath(edges, [a], a, a);
      forall e | Attached(edges, e) && edges[e].owner in s
        ensures edges[e].target.value in s
      {
        var p :| IsPath(edges, p, a, edges[e].owner);
        var q := p + [edges[e].target.value];
        forall i, j | 0 <= i && j == i + 1 < |q| ensures Linked(edges, q[i], q[j]) {
          if j < |p| {
            assert Linked(edges, p[i], p[j]);
          } else {
            assert Links(edges, e, q[i], q[j]);
          }
        }
        assert IsPath(edges, q, a, edges[e].target.value);
      }
      assert ChildClosed(edges, s);
    }
  }

  // -------------------------------------------------------- components

  ghost predicate Closed(edges: Edges, s: set<Node>) {
    forall e | Attached(edges, e) :: edges[e].owner in s <==> edges[e].target.value in s
  }

  /** `s` is the connected component of `n`. */
  ghost predicate IsComponent(edges: Edges, n: Node, s: set<Node>) {
    && n in s && Closed(edges, s)
    && forall t | n in t && Closed(edges, t) :: s <= t
  }

  lemma ComponentUnique(edges: Edges, n: Node, s: set<Node>, t: set<Node>)
    requires IsComponent(edges, n, s) && IsComponent(edges, n, t)
    ensures s == t
  {
  }

  /** The two ends of every edge are in the same AioContext. */
  ghost predicate Uniform(edges: Edges, ctx: map<Node, Ctx>) {
    forall e | Attached(edges, e) ::
      edges[e].owner in ctx && edges[e].target.value in ctx && ctx[edges[e].owner] == ctx[edges[e].target.value]
  }

  function SetCtx(ctx: map<Node, Ctx>, s: set<Node>, c: Ctx): map<Node, Ctx> {
    map n | n in ctx :: if n in s then c else ctx[n]
  }

  /** A component lies in one AioContext. */
  lemma ComponentUniform(edges: Edges, ctx: map<Node, Ctx>, n: Node, s: set<Node>, m: Node)
    requires Uniform(edges, ctx) && IsComponent(edges, n, s) && n in ctx && m in s
    ensures m in ctx && ctx[m] == ctx[n]
  {
    var same := set k | k in ctx && ctx[k] == ctx[n];
    assert Closed(edges, same);
  }
}
