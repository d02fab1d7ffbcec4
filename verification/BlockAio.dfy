/**
  bdrv_change_aio_context and its callers: a node is moved to another AioContext
  together with everything it is connected to, or nothing is moved.

  A BlockBackend that refuses the move has one child, its root; block nodes and
  block jobs never refuse.
 */
module BlockAio {
  import opened Wrappers
  import opened BlockGraph

  /** A move to context `to`; `nodes` are the block nodes among the vertices. */
  datatype Move = Move(nodes: set<Node>, edges: Edges, ctx: map<Node, Ctx>, to: Ctx)

  /** Children are block nodes, and an edge whose parent refuses belongs to a user that has no other edge. */
  ghost predicate Movables(nodes: set<Node>, edges: Edges) {
    && (forall e | Attached(edges, e) :: edges[e].target.value in nodes)
    && forall e, d | Attached(edges, e) && !edges[e].movable && Attached(edges, d) && edges[d].owner == edges[e].owner ::
         edges[e].owner !in nodes && d == e
  }

  predicate Touches(edges: Edges, e: EdgeId, n: Node) {
    Attached(edges, e) && (edges[e].owner == n || edges[e].target == Some(n))
  }

  /** The vertex is in the component of `root`. */
  ghost predicate InComponent(edges: Edges, root: Node, n: Node) {
    forall t | root in t && Closed(edges, t) :: n in t
  }

  /** The vertex is in `s`, or is a node that is in the new context already. */
  predicate Settles(m: Move, s: set<Node>, n: Node) {
    n in s || (n in m.nodes && n in m.ctx && m.ctx[n] == m.to)
  }

  ghost predicate VisitedOk(m: Move, root: Node, s: set<Node>, e: EdgeId) {
    && Attached(m.edges, e)
    && Settles(m, s, m.edges[e].owner) && Settles(m, s, m.edges[e].target.value)
    && (m.edges[e].movable || m.edges[e].owner == root)
  }

  /** State of the traversal: `moved` are the vertices queued for the move, `gray` those still being worked on. */
  ghost predicate Traversal(m: Move, root: Node, visited: set<EdgeId>, moved: set<Node>, gray: set<Node>) {
    && visited <= m.edges.Keys
    && (forall n, e | n in moved && Touches(m.edges, e, n) :: e in visited)
    && (forall e | e in visited :: VisitedOk(m, root, moved + gray, e))
    && forall n | n in moved + gray :: InComponent(m.edges, root, n)
  }

  ghost predicate Refused(edges: Edges, root: Node) {
    exists e :: Attached(edges, e) && !edges[e].movable && InComponent(edges, root, edges[e].owner)
  }

  /** How the traversal came to vertex `v`. */
  ghost predicate Arrived(m: Move, root: Node, visited: set<EdgeId>, v: Node) {
    v in m.nodes || v == root || exists d :: d in visited && d in m.edges && m.edges[d].owner == v
  }

  lemma VisitEdge(m: Move, root: Node, visited: set<EdgeId>, moved: set<Node>, gray: set<Node>, v: Node, e: EdgeId,
                  w: Node)
    requires Movables(m.nodes, m.edges) && Traversal(m, root, visited, moved, gray) && v in gray
    requires Touches(m.edges, e, v) && Touches(m.edges, e, w) && (w == v ==> m.edges[e].owner == m.edges[e].target.value)
    requires m.edges[e].movable || m.edges[e].owner == root
    ensures Traversal(m, root, visited + {e}, moved, gray + {w})
  {
    assert InComponent(m.edges, root, v);
    forall t | root in t && Closed(m.edges, t) ensures w in t {
      assert v in t;
    }
    forall d | d in visited + {e} ensures VisitedOk(m, root, moved + (gray + {w}), d) {
      if d in visited { assert VisitedOk(m, root, moved + gray, d); }
    }
  }

  lemma FinishVertex(m: Move, root: Node, visited: set<EdgeId>, moved: set<Node>, gray: set<Node>, v: Node)
    requires Traversal(m, root, visited, moved, gray + {v})
    requires forall e | Touches(m.edges, e, v) :: e in visited
    ensures Traversal(m, root, visited, moved + {v}, gray)
  {
    assert moved + (gray + {v}) == (moved + {v}) + gray;
  }

  lemma SkipVertex(m: Move, root: Node, visited: set<EdgeId>, moved: set<Node>, gray: set<Node>, v: Node)
    requires Traversal(m, root, visited, moved, gray + {v}) && Settles(m, {}, v)
    ensures Traversal(m, root, visited, moved, gray)
  {
    forall e | e in visited ensures VisitedOk(m, root, moved + gray, e) {
      assert VisitedOk(m, root, moved + (gray + {v}), e);
    }
  }

  /** bdrv_change_aio_context for a node, .change_aio_ctx for a user. */
  method ChangeVertex(m: Move, v: Node, visited: set<EdgeId>, moved: set<Node>, ghost root: Node, ghost gray: set<Node>)
    returns (ok: bool, visited': set<EdgeId>, moved': set<Node>)
    requires Movables(m.nodes, m.edges) && Traversal(m, root, visited, moved, gray + {v})
    requires Arrived(m, root, visited, v)
    ensures visited <= visited' <= m.edges.Keys && moved <= moved'
    ensures ok ==> Traversal(m, root, visited', moved', gray) && Settles(m, moved', v)
    ensures !ok ==> Refused(m.edges, root)
    decreases |m.edges.Keys - visited|, 3
  {
    if v in m.nodes && v in m.ctx && m.ctx[v] == m.to {
      SkipVertex(m, root, visited, moved, gray, v);
      return true, visited, moved;
    }
    ok, visited', moved' := ChangeParents(m, v, visited, moved, root, gray + {v});
    if !ok { return; }
    SubsetSize(m.edges.Keys - visited', m.edges.Keys - visited);
    ok, visited', moved' := ChangeChildren(m, v, visited', moved', root, gray + {v});
    if !ok { return; }
    forall e | Touches(m.edges, e, v) ensures e in visited' {
      assert e in Parents(m.edges, v) || e in Children(m.edges, v);
    }
    FinishVertex(m, root, visited', moved', gray, v);
    moved' := moved' + {v};
  }

  /** The loop over bs->parents. */
  method ChangeParents(m: Move, v: Node, visited: set<EdgeId>, moved: set<Node>, ghost root: Node, ghost gray: set<Node>)
    returns (ok: bool, visited': set<EdgeId>, moved': set<Node>)
    requires Movables(m.nodes, m.edges) && Traversal(m, root, visited, moved, gray) && v in gray
    ensures visited <= visited' <= m.edges.Keys && moved <= moved'
    ensures ok ==> Traversal(m, root, visited', moved', gray) && Parents(m.edges, v) <= visited'
    ensures !ok ==> Refused(m.edges, root)
    decreases |m.edges.Keys - visited|, 2
  {
    ok, visited', moved' := true, visited, moved;
    var todo := Parents(m.edges, v);
    while todo != {}
      invariant visited <= visited' <= m.edges.Keys && moved <= moved' && todo <= Parents(m.edges, v)
      invariant Traversal(m, root, visited', moved', gray)
      invariant Parents(m.edges, v) - todo <= visited'
    {
      var e :| e in todo;
      todo := todo - {e};
      SubsetSize(m.edges.Keys - visited', m.edges.Keys - visited);
      ok, visited', moved' := ChangeParent(m, e, v, visited', moved', root, gray);
      if !ok { return; }
    }
  }

  /** The loop over bs->children, or over the nodes of a job. */
  method ChangeChildren(m: Move, v: Node, visited: set<EdgeId>, moved: set<Node>, ghost root: Node, ghost gray: set<Node>)
    returns (ok: bool, visited': set<EdgeId>, moved': set<Node>)
    requires Movables(m.nodes, m.edges) && Traversal(m, root, visited, moved, gray) && v in gray
    requires Arrived(m, root, visited, v)
    ensures visited <= visited' <= m.edges.Keys && moved <= moved'
    ensures ok ==> Traversal(m, root, visited', moved', gray) && Children(m.edges, v) <= visited'
    ensures !ok ==> Refused(m.edges, root)
    decreases |m.edges.Keys - visited|, 2
  {
    ok, visited', moved' := true, visited, moved;
    var todo := Children(m.edges, v);
    while todo != {}
      invariant visited <= visited' <= m.edges.Keys && moved <= moved' && todo <= Children(m.edges, v)
      invariant Traversal(m, root, visited', moved', gray)
      invariant Children(m.edges, v) - todo <= visited'
    {
      var e :| e in todo;
      todo := todo - {e};
      SubsetSize(m.edges.Keys - visited', m.edges.Keys - visited);
      ok, visited', moved' := ChangeChild(m, e, v, visited', moved', root, gray);
      if !ok { return; }
    }
  }

  /** bdrv_parent_change_aio_context */
  method ChangeParent(m: Move, e: EdgeId, ghost v: Node, visited: set<EdgeId>, moved: set<Node>, ghost root: Node,
                      ghost gray: set<Node>)
    returns (ok: bool, visited': set<EdgeId>, moved': set<Node>)
    requires Movables(m.nodes, m.edges) && Traversal(m, root, visited, moved, gray) && v in gray
    requires e in Parents(m.edges, v)
    ensures visited + {e} <= visited' <= m.edges.Keys && moved <= moved'
    ensures ok ==> Traversal(m, root, visited', moved', gray)
    ensures !ok ==> Refused(m.edges, root)
    decreases |m.edges.Keys - visited|, 1
  {
    if e in visited {
      return true, visited, moved;
    }
    if !m.edges[e].movable {
      assert InComponent(m.edges, root, v);
      return false, visited + {e}, moved;
    }
    var o := m.edges[e].owner;
    VisitEdge(m, root, visited, moved, gray, v, e, o);
    assert m.edges.Keys - visited == (m.edges.Keys - (visited + {e})) + {e};
    ok, visited', moved' := ChangeVertex(m, o, visited + {e}, moved, root, gray);
  }

  /** bdrv_child_change_aio_context */
  method ChangeChild(m: Move, e: EdgeId, ghost v: Node, visited: set<EdgeId>, moved: set<Node>, ghost root: Node,
                     ghost gray: set<Node>)
    returns (ok: bool, visited': set<EdgeId>, moved': set<Node>)
    requires Movables(m.nodes, m.edges) && Traversal(m, root, visited, moved, gray) && v in gray
    requires e in Children(m.edges, v) && Arrived(m, root, visited, v)
    ensures visited + {e} <= visited' <= m.edges.Keys && moved <= moved'
    ensures ok ==> Traversal(m, root, visited', moved', gray)
    ensures !ok ==> Refused(m.edges, root)
    decreases |m.edges.Keys - visited|, 1
  {
    if e in visited {
      return true, visited, moved;
    }
    var t := m.edges[e].target.value;
    if v !in m.nodes && v != root {
      var d :| d in visited && d in m.edges && m.edges[d].owner == v;
      assert VisitedOk(m, root, moved + gray, d);
    }
    VisitEdge(m, root, visited, moved, gray, v, e, t);
    assert m.edges.Keys - visited == (m.edges.Keys - (visited + {e})) + {e};
    ok, visited', moved' := ChangeVertex(m, t, visited + {e}, moved, root, gray);
  }

  // ------------------------------------------------ the move as a whole

  ghost function Component(edges: Edges, vertices: set<Node>, n: Node): set<Node> {
    set m | m in vertices && InComponent(edges, n, m)
  }

  lemma ComponentIsComponent(edges: Edges, vertices: set<Node>, n: Node)
    requires Over(edges, vertices) && n in vertices
    ensures IsComponent(edges, n, Component(edges, vertices, n))
  {
    var s := Component(edges, vertices, n);
    forall e | Attached(edges, e) ensures edges[e].owner in s <==> edges[e].target.value in s {
      if edges[e].owner in s {
        forall t | n in t && Closed(edges, t) ensures edges[e].target.value in t { assert edges[e].owner in t; }
      }
      if edges[e].target.value in s {
        forall t | n in t && Closed(edges, t) ensures edges[e].owner in t { assert edges[e].target.value in t; }
      }
    }
  }

  /** The contexts after `n` and its component have moved to `to`. */
  ghost function MoveCtx(edges: Edges, ctx: map<Node, Ctx>, n: Node, to: Ctx): map<Node, Ctx>
    requires n in ctx
  {
    if ctx[n] == to then ctx else SetCtx(ctx, Component(edges, ctx.Keys, n), to)
  }

  /** No parent in the component of `n` refuses to move. */
  ghost predicate CanMoveCtx(edges: Edges, ctx: map<Node, Ctx>, n: Node) {
    forall e | Attached(edges, e) && edges[e].owner in Component(edges, ctx.Keys, n) :: edges[e].movable
  }

  /** A finished traversal in a uniform graph has queued exactly the component. */
  lemma TraversalIsComponent(m: Move, root: Node, visited: set<EdgeId>, moved: set<Node>)
    requires Traversal(m, root, visited, moved, {}) && Settles(m, moved, root)
    requires Uniform(m.edges, m.ctx) && Over(m.edges, m.ctx.Keys) && root in m.ctx && m.ctx[root] != m.to
    ensures moved == Component(m.edges, m.ctx.Keys, root)
  {
    var same := set k | k in m.ctx && m.ctx[k] == m.ctx[root];
    assert Closed(m.edges, same);
    forall n | n in moved ensures n in same {
      assert n in moved + {};
    }
    forall e | Attached(m.edges, e) ensures m.edges[e].owner in moved <==> m.edges[e].target.value in moved {
      var o, t := m.edges[e].owner, m.edges[e].target.value;
      if o in moved || t in moved {
        assert Touches(m.edges, e, o) && Touches(m.edges, e, t);
        assert VisitedOk(m, root, moved + {}, e);
      }
    }
    assert Closed(m.edges, moved);
    forall n | n in moved ensures n in Component(m.edges, m.ctx.Keys, root) {
      assert n in moved + {} && n in same;
    }
  }

  /** bdrv_try_change_aio_context_locked: the recursion of ChangeVertex, then the collected changes, if it succeeded.
      Everything connected to `n` moves, or nothing does; it moves unless somebody there refuses. */
  method TryChange(nodes: set<Node>, edges: Edges, ctx: map<Node, Ctx>, n: Node, to: Ctx)
    returns (ok: bool, ctx': map<Node, Ctx>)
    requires Movables(nodes, edges) && Over(edges, ctx.Keys) && Uniform(edges, ctx) && n in ctx
    requires n in nodes || forall e | e in Children(edges, n) :: edges[e].movable
    ensures ctx' == if ok then MoveCtx(edges, ctx, n, to) else ctx
    ensures Uniform(edges, ctx')
    ensures ok <==> ctx[n] == to || CanMoveCtx(edges, ctx, n)
  {
    if ctx[n] == to {
      return true, ctx;
    }
    var m := Move(nodes, edges, ctx, to);
    assert {} + ({} + {n}) == {n};
    var visited: set<EdgeId>, moved: set<Node>;
    ok, visited, moved := ChangeVertex(m, n, {}, {}, n, {});
    ComponentIsComponent(edges, ctx.Keys, n);
    if !ok {
      ctx' := ctx;
      ghost var e :| Attached(edges, e) && !edges[e].movable && InComponent(edges, n, edges[e].owner);
      assert edges[e].owner in Component(edges, ctx.Keys, n);
      return;
    }
    TraversalIsComponent(m, n, visited, moved);
    ctx' := SetCtx(ctx, moved, to);
    forall e | Attached(edges, e) && edges[e].owner in Component(edges, ctx.Keys, n) ensures edges[e].movable {
      assert Touches(edges, e, edges[e].owner);
      assert VisitedOk(m, n, moved + {}, e);
      if edges[e].owner == n && n !in nodes { assert e in Children(edges, n); }
    }
  }

  /** bdrv_try_change_aio_context_locked with ignore_child, which is among the visited children from the start and so is never
      followed.  The subgraph of that child stays where it is exactly if nothing else connects it to `n`. */
  method TryChangeIgnoring(nodes: set<Node>, edges: Edges, ctx: map<Node, Ctx>, n: Node, to: Ctx, ignore: EdgeId)
    returns (ok: bool, ctx': map<Node, Ctx>)
    requires Movables(nodes, edges) && Over(edges, ctx.Keys) && Uniform(edges, ctx) && n in ctx
    requires n in nodes || forall e | e in Children(edges, n) && e != ignore :: edges[e].movable
    ensures ok <==> ctx[n] == to || CanMoveCtx(edges - {ignore}, ctx, n)
    ensures ctx'.Keys == ctx.Keys && (!ok ==> ctx' == ctx)
    ensures ok && ctx[n] != to ==>
              forall k | k in ctx :: if InComponent(edges - {ignore}, n, k) then ctx'[k] == to else ctx'[k] == ctx[k]
    ensures ok && Attached(edges, ignore) && ctx[n] != to ==>
              (Uniform(edges, ctx') <==> (InComponent(edges - {ignore}, n, edges[ignore].owner) <==>
                                          InComponent(edges - {ignore}, n, edges[ignore].target.value)))
  {
    var rest := edges - {ignore};
    assert forall e | Attached(rest, e) :: Attached(edges, e) && rest[e] == edges[e];
    assert forall e | e in Children(rest, n) :: e in Children(edges, n) && e != ignore;
    ok, ctx' := TryChange(nodes, rest, ctx, n, to);
    if ok && Attached(edges, ignore) && ctx[n] != to {
      IgnoredUniform(edges, ctx, n, to, ignore, ctx');
    }
  }

  lemma IgnoredUniform(edges: Edges, ctx: map<Node, Ctx>, n: Node, to: Ctx, ignore: EdgeId, ctx': map<Node, Ctx>)
    requires Over(edges, ctx.Keys) && Uniform(edges, ctx) && n in ctx && ctx[n] != to && Attached(edges, ignore)
    requires Over(edges - {ignore}, ctx.Keys) && ctx' == MoveCtx(edges - {ignore}, ctx, n, to) && Uniform(edges - {ignore}, ctx')
    ensures Uniform(edges, ctx') <==> (InComponent(edges - {ignore}, n, edges[ignore].owner) <==>
                                       InComponent(edges - {ignore}, n, edges[ignore].target.value))
  {
    var rest := edges - {ignore};
    var s := Component(rest, ctx.Keys, n);
    ComponentIsComponent(rest, ctx.Keys, n);
    forall k | k in s ensures ctx[k] == ctx[n] {
      ComponentUniform(rest, ctx, n, s, k);
    }
    forall e | Attached(edges, e) && e != ignore ensures Attached(rest, e) && rest[e] == edges[e] {
    }
  }

  /** A move there and back again restores every context. */
  lemma MoveBack(edges: Edges, ctx: map<Node, Ctx>, n: Node, to: Ctx)
    requires Over(edges, ctx.Keys) && Uniform(edges, ctx) && n in ctx
    ensures n in MoveCtx(edges, ctx, n, to) && MoveCtx(edges, ctx, n, to)[n] == to
    ensures MoveCtx(edges, MoveCtx(edges, ctx, n, to), n, ctx[n]) == ctx
  {
    ComponentIsComponent(edges, ctx.Keys, n);
    var s := Component(edges, ctx.Keys, n);
    var ctx' := MoveCtx(edges, ctx, n, to);
    assert ctx'.Keys == ctx.Keys;
    forall k | k in s ensures k in ctx && ctx[k] == ctx[n] {
      ComponentUniform(edges, ctx, n, s, k);
    }
  }
}
