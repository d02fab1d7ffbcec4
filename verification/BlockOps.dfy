/**
  The public graph operations of qemu/block.c.  Each runs a transaction and either
  commits it or leaves the graph as it found it; each keeps the graph acyclic, free
  of permission conflicts and uniform in its AioContexts.
 */
module BlockOps {
  import opened Wrappers
  import opened BlockGraph
  import opened BlockPerms
  import opened BlockAio
  import opened BlockUndo
  import opened BlockLayer

  /** What holds of the block graph between operations. */
  ghost predicate Valid(b: BlockLayer)
    reads b
  {
    b.Ids() && Good(b.infos, b.View())
  }

  ghost predicate Good(infos: Infos, g: Graph) {
    Shape(infos, g) && Acyclic(g.edges) && ConflictFree(g.edges) && InheritsEnd(g.inherits)
  }

  /** Where every run begins: nodes without children. */
  method EmptyLayer(infos: Infos, ctx: map<Node, Ctx>, refcnt: map<Node, int>, inherits: map<Node, Node>)
    returns (b: BlockLayer)
    requires infos.Keys <= ctx.Keys && refcnt.Keys == infos.Keys && InheritsEnd(inherits)
    ensures fresh(b) && Valid(b) && b.infos == infos && b.ctx == ctx && b.edges == map[]
    ensures b.backing == map[] && b.file == map[] && b.inherits == inherits
  {
    b := new BlockLayer(infos, ctx, refcnt, inherits);
  }

  // ------------------------------------------------- conflicts elsewhere

  /** A child that points outside the subtrees of the roots points there in `a` as well, with the same permissions. */
  ghost predicate KeptElsewhere(a: Edges, b: Edges, roots: seq<Node>) {
    forall e | Attached(b, e) && !FromRoots(b, roots, b[e].target.value) ::
      && Attached(a, e) && a[e].target == b[e].target
      && a[e].perm == b[e].perm && a[e].shared == b[e].shared
  }

  lemma ElsewhereNoConflict(a: Edges, b: Edges, c: Edges, roots: seq<Node>, s: set<Node>, n: Node)
    requires KeptElsewhere(a, b, roots) && IsSubtrees(b, roots, s) && SameOutside(b, c, s) && ChildClosed(b, s)
    requires n !in s && NoConflict(a, n)
    ensures NoConflict(c, n)
  {
    assert !FromRoots(b, roots, n);
    forall e | e in Parents(c, n)
      ensures e in Parents(a, n) && a[e].perm == c[e].perm && a[e].shared == c[e].shared
    {
      assert Attached(b, e) && b[e].target == Some(n);
    }
  }

  /** After a successful refresh there is no conflict anywhere, if only children that point into the refreshed subtrees
      had been touched before. */
  lemma RefreshConflictFree(infos: Infos, a: Edges, b: Edges, c: Edges, roots: seq<Node>, list: seq<Node>)
    requires ConflictFree(a) && KeptElsewhere(a, b, roots)
    requires TopoSorted(b, list) && IsSubtrees(b, roots, Elements(list))
    requires SameOutside(b, c, Elements(list)) && Settled(infos, b, list, c)
    ensures ConflictFree(c)
  {
    SortedClosed(b, list);
    forall n: Node ensures NoConflict(c, n) {
      if n in list {
        assert SettledNode(infos, c, n);
      } else {
        assert NoConflict(a, n);
        ElsewhereNoConflict(a, b, c, roots, Elements(list), n);
      }
    }
  }

  lemma SameLinksAcyclic(a: Edges, b: Edges)
    requires SameLinks(a, b) && Acyclic(a)
    ensures Acyclic(b)
  {
    forall e | Attached(b, e) ensures Attached(a, e) && b[e].owner == a[e].owner && b[e].target == a[e].target {
    }
    FewerLinksAcyclic(b, a);
  }

  // ------------------------------------------------------ settled subtrees

  /** `sol` is `edges` with the subtrees of the roots settled and nothing else changed. */
  ghost predicate SubtreesSettled(infos: Infos, edges: Edges, roots: seq<Node>, sol: Edges) {
    exists list :: TopoSorted(edges, list) && IsSubtrees(edges, roots, Elements(list)) && Settled(infos, edges, list, sol)
  }

  lemma SettledLinks(infos: Infos, edges: Edges, roots: seq<Node>, sol: Edges)
    requires SubtreesSettled(infos, edges, roots, sol)
    ensures SameLinks(edges, sol)
  {
  }

  ghost predicate CanSettle(infos: Infos, edges: Edges, roots: seq<Node>) {
    exists sol :: SubtreesSettled(infos, edges, roots, sol)
  }

  /** The order of the list does not matter. */
  lemma AnyOrder(infos: Infos, edges: Edges, roots: seq<Node>, list: seq<Node>, sol: Edges)
    requires IsSubtrees(edges, roots, Elements(list)) && SubtreesSettled(infos, edges, roots, sol)
    ensures Settled(infos, edges, list, sol)
  {
    var l :| TopoSorted(edges, l) && IsSubtrees(edges, roots, Elements(l)) && Settled(infos, edges, l, sol);
    assert Elements(l) == Elements(list);
    forall n | n in list ensures n in l {
      assert n in Elements(list);
    }
  }

  /** There is at most one way to settle the subtrees of the roots. */
  lemma SubtreesSettledUnique(infos: Infos, edges: Edges, roots: seq<Node>, s: Edges, t: Edges)
    requires SubtreesSettled(infos, edges, roots, s) && SubtreesSettled(infos, edges, roots, t)
    ensures s == t
  {
    var list :| TopoSorted(edges, list) && IsSubtrees(edges, roots, Elements(list)) && Settled(infos, edges, list, s);
    AnyOrder(infos, edges, roots, list, t);
    SettledUnique(infos, edges, list, s, t);
  }

  /** What a refresh inside a transaction does: it succeeds exactly when the subtrees can be settled. */
  method RefreshPerms(b: BlockLayer, roots: seq<Node>, tran: Transaction, ghost g0: Graph) returns (ok: bool)
    requires InTran(b.infos, tran.log, b.View(), g0) && Acyclic(b.edges) && forall n | n in roots :: n in b.infos
    requires ConflictFree(g0.edges) && KeptElsewhere(g0.edges, b.edges, roots)
    modifies b`edges, tran
    ensures InTran(b.infos, tran.log, b.View(), g0) && old(tran.log) <= tran.log
    ensures SameLinks(old(b.edges), b.edges) && Acyclic(b.edges)
    ensures ok <==> CanSettle(b.infos, old(b.edges), roots)
    ensures ok ==> SubtreesSettled(b.infos, old(b.edges), roots, b.edges) && ConflictFree(b.edges)
  {
    hide InTran, Acyclic, Settled, TopoSorted, IsSubtrees, KeptElsewhere, ConflictFree;
    ghost var e0 := b.edges;
    ghost var list;
    ok, list := b.ListRefreshPerms(roots, tran, g0);
    SameLinksAcyclic(e0, b.edges);
    if ok {
      RefreshConflictFree(b.infos, g0.edges, e0, b.edges, roots, list);
      assert SubtreesSettled(b.infos, e0, roots, b.edges);
    } else {
      forall sol ensures !SubtreesSettled(b.infos, e0, roots, sol) {
        if SubtreesSettled(b.infos, e0, roots, sol) {
          AnyOrder(b.infos, e0, roots, list, sol);
        }
      }
    }
  }

  // ------------------------------------------------------- transactions

  /** A commit keeps a good graph good. */
  lemma CommitGood(infos: Infos, log: seq<Undo>, g: Graph, g0: Graph)
    requires InTran(infos, log, g, g0) && Acyclic(g.edges) && ConflictFree(g.edges) && InheritsEnd(g.inherits)
    ensures Good(infos, Committed(log, g)) && SameAttached(g.edges, Committed(log, g).edges)
    ensures SameUsers(g0, Committed(log, g))
  {
    var g' := Committed(log, g);
    CommitKeeps(infos, log, g, g0);
    assert FewerLinks(g'.edges, g.edges);
    FewerLinksAcyclic(g'.edges, g.edges);
    forall n: Node ensures NoConflict(g'.edges, n) {
      assert NoConflict(g.edges, n);
      SameAttachedParents(g.edges, g'.edges, n);
    }
  }

  /** Every node has as many references that are not those of a parent. */
  ghost predicate SameUsers(a: Graph, b: Graph) {
    a.refs.Keys == b.refs.Keys && forall n | n in a.refs :: Users(a, n) == Users(b, n)
  }

  lemma SameUsersSelf(g: Graph)
    ensures SameUsers(g, g)
  {
  }

  /** tran_finalize */
  method Finalize(b: BlockLayer, tran: Transaction, ok: bool, ghost g0: Graph)
    requires InTran(b.infos, tran.log, b.View(), g0) && b.Ids()
    requires ok ==> Acyclic(b.edges) && ConflictFree(b.edges) && InheritsEnd(b.inherits)
    modifies b, tran
    ensures b.Ids()
    ensures !ok ==> b.View() == g0
    ensures ok ==> b.View() == Committed(old(tran.log), old(b.View()))
    ensures ok ==> b.ctx == old(b.ctx) && b.inherits == old(b.inherits) && b.backing == old(b.backing) && b.file == old(b.file)
    ensures ok ==> Good(b.infos, b.View()) && SameUsers(g0, b.View()) && SameAttached(old(b.edges), b.edges)
  {
    hide Good, SameUsers, SameAttached, Tracks, Acyclic, ConflictFree, InheritsEnd, Dropped, Held;
    if ok {
      CommitGood(b.infos, tran.log, b.View(), g0);
      b.Commit(tran);
    } else {
      b.Abort(tran, g0);
    }
  }

  lemma StartTran(infos: Infos, g: Graph)
    requires Shape(infos, g)
    ensures InTran(infos, [], g, g)
  {
  }

  /** bdrv_recurse_has_child: whether `child` can be reached from `n`. */
  predicate RecurseHasChild(edges: Edges, nodes: set<Node>, n: Node, child: Node)
    requires Over(edges, nodes) && Acyclic(edges) && n in nodes
    ensures RecurseHasChild(edges, nodes, n, child) <==> Reach(edges, n, child)
    decreases Rank(edges, nodes, n)
  {
    RecurseReach(edges, nodes, n, child);
    n == child ||
    exists e :: e in Children(edges, n) &&
      (RankFalls(edges, nodes, e); RecurseHasChild(edges, nodes, edges[e].target.value, child))
  }

  /** A node other than `n` is reachable exactly when it is reachable from a child of `n`. */
  lemma RecurseReach(edges: Edges, nodes: set<Node>, n: Node, child: Node)
    requires Over(edges, nodes) && n in nodes
    ensures Reach(edges, n, child) <==>
              n == child || exists e :: e in Children(edges, n) && Reach(edges, edges[e].target.value, child)
  {
    if e :| e in Children(edges, n) && Reach(edges, edges[e].target.value, child) {
      assert Reach(edges, n, n);
      ReachEdge(edges, n, e);
      ReachTrans(edges, n, edges[e].target.value, child);
    }
    if Reach(edges, n, child) && n != child {
      var s := set m | m in nodes && (m == n || exists e :: e in Children(edges, n) && Reach(edges, edges[e].target.value, m));
      forall d | Attached(edges, d) && edges[d].owner in s ensures edges[d].target.value in s {
        var t := edges[d].target.value;
        if edges[d].owner == n {
          assert d in Children(edges, n) && Reach(edges, t, t);
        } else {
          var e :| e in Children(edges, n) && Reach(edges, edges[e].target.value, edges[d].owner);
          ReachEdge(edges, edges[e].target.value, d);
        }
      }
      assert ChildClosed(edges, s);
    }
  }

  // ------------------------------------------------------------- attaching

  /** The child that bdrv_attach_child_noperm makes, before it is attached. */
  function NewChild(infos: Infos, edges: Edges, parent: Node, n: Node, role: Role): Edge
    requires parent in infos && infos[parent].driver.Some?
  {
    var (p, s) := ChildPerm(infos, infos[parent].driver.value, None, n, role, CumPerm(edges, parent), CumShared(edges, parent));
    Edge(parent, None, role, p, s, false, false, true)
  }

  /** bdrv_attach_child_common does not refuse: the child asks no more of an inactive node than to read, and somebody can
      move to the other's AioContext. */
  ghost predicate Attachable(infos: Infos, g: Graph, x: Edge, n: Node)
    requires n in infos && n in g.ctx && x.owner in g.ctx
  {
    && (infos[n].inactive ==> x.perm <= {ConsistentRead})
    && (g.ctx[n] == g.ctx[x.owner] || CanMoveCtx(g.edges, g.ctx, n) || (x.movable && CanMoveCtx(g.edges, g.ctx, x.owner)))
  }

  /** The conditions of bdrv_attach_child_noperm. */
  ghost predicate ChildAllowed(infos: Infos, g: Graph, parent: Node, n: Node, role: Role)
    requires parent in infos && infos[parent].driver.Some? && n in infos && infos.Keys <= g.ctx.Keys
  {
    && !Reach(g.edges, n, parent)
    && (infos[n].inactive ==> infos[parent].inactive)
    && Attachable(infos, g, NewChild(infos, g.edges, parent, n, role), n)
  }

  /** `g'` is `g` with the new child `e` on top of `n`. */
  ghost predicate AttachedTo(infos: Infos, g: Graph, e: EdgeId, x: Edge, n: Node, g': Graph)
    requires x.owner in g.ctx && n in g.ctx
  {
    AttachCtx(g.edges, g.ctx, x, n, g'.ctx) && g' == WithChild(infos, g, e, x, n, g'.ctx)
  }

  lemma AttachAcyclic(infos: Infos, g: Graph, e: EdgeId, x: Edge, n: Node, ctx: map<Node, Ctx>)
    requires Shape(infos, g) && Acyclic(g.edges) && n in infos && !Reach(g.edges, n, x.owner)
    ensures Acyclic(WithChild(infos, g, e, x, n, ctx).edges)
  {
    OneMoreLinkAcyclic(g.edges, g.edges[e := x.(target := Some(n))], g.ctx.Keys, e, x.owner, n);
  }

  lemma NodeChildrenMove(infos: Infos, g: Graph, parent: Node)
    requires Shape(infos, g) && parent in infos
    ensures forall d | d in Children(g.edges, parent) :: g.edges[d].movable
  {
    forall d | d in Children(g.edges, parent) ensures g.edges[d].movable {
      assert Attached(g.edges, d);
    }
  }

  /** bdrv_attach_child_noperm: the new child, or None with nothing changed. */
  method AttachNoperm(b: BlockLayer, parent: Node, n: Node, role: Role, tran: Transaction, ghost g0: Graph)
    returns (r: Option<EdgeId>)
    requires InTran(b.infos, tran.log, b.View(), g0) && b.Ids() && Acyclic(b.edges)
    requires parent in b.infos && b.infos[parent].driver.Some? && n in b.infos
    requires SlotFree(b.infos, b.View(), NewChild(b.infos, b.edges, parent, n, role))
    modifies b, tran
    ensures b.Ids() && InTran(b.infos, tran.log, b.View(), g0) && Acyclic(b.edges) && old(tran.log) <= tran.log
    ensures r.None? ==> b.View() == old(b.View())
    ensures r.Some? <==> old(ChildAllowed(b.infos, b.View(), parent, n, role))
    ensures r.Some? ==>
              && r.value == old(b.nextEdge)
              && AttachedTo(b.infos, old(b.View()), r.value, NewChild(b.infos, old(b.edges), parent, n, role), n, b.View())
  {
    hide PointersOk, Uniform, Tracks, Balanced, DropsOk, CanMoveCtx, MoveCtx, SlotOf, Reach, Acyclic, Repoint;
    if RecurseHasChild(b.edges, b.ctx.Keys, n, parent) {
      return None;
    }
    if b.infos[n].inactive && !b.infos[parent].inactive {
      return None;
    }
    var perm, shared := b.GetCumulativePerm(parent);
    var (p, s) := ChildPerm(b.infos, b.infos[parent].driver.value, None, n, role, perm, shared);
    var x := Edge(parent, None, role, p, s, false, false, true);
    NodeChildrenMove(b.infos, b.View(), parent);
    r := b.AttachCommon(n, x, tran, g0);
    if r.Some? {
      AttachAcyclic(b.infos, old(b.View()), r.value, x, n, b.ctx);
    }
  }

  /** `after` has the attached children of `before` once the subtrees of the roots are settled. */
  ghost predicate SettledInto(infos: Infos, before: Edges, roots: seq<Node>, after: Edges) {
    exists sol :: SubtreesSettled(infos, before, roots, sol) && SameAttached(sol, after)
  }

  /** Frozen links stay as they are, and no others become frozen. */
  ghost predicate FrozenKept(a: Edges, b: Edges) {
    && (forall e | Attached(a, e) && a[e].frozen ::
          Attached(b, e) && b[e].frozen && b[e].owner == a[e].owner && b[e].target == a[e].target && b[e].role == a[e].role)
    && forall e | Attached(b, e) && b[e].frozen :: Attached(a, e) && a[e].frozen
  }

  lemma FrozenKeptSelf(a: Edges)
    ensures FrozenKept(a, a)
  {
  }

  lemma SettledFrozen(infos: Infos, a: Edges, before: Edges, roots: seq<Node>, after: Edges)
    requires FrozenKept(a, before) && SettledInto(infos, before, roots, after)
    ensures FrozenKept(a, after)
  {
    hide TopoSorted, IsSubtrees, SettledNode, Decided;
    var sol: Edges :| SubtreesSettled(infos, before, roots, sol) && SameAttached(sol, after);
    assert SameLinks(before, sol);
    assert forall e | e in before :: sol[e].frozen == before[e].frozen && sol[e].target == before[e].target;
  }

  lemma NewFrozen(edges: Edges, e: EdgeId, x: Edge)
    requires e !in edges && !x.frozen
    ensures FrozenKept(edges, edges[e := x])
  {
  }

  /** A reference to `n` that was not a parent's is gone; all others are still there. */
  ghost predicate OneUserLess(a: Graph, b: Graph, n: Node) {
    a.refs.Keys == b.refs.Keys && forall m | m in a.refs :: Users(b, m) == Users(a, m) - if m == n then 1 else 0
  }

  function Unreferenced(g: Graph, n: Node): Graph {
    g.(refs := AddRef(g.refs, Some(n), -1))
  }

  lemma UnrefGood(infos: Infos, g: Graph, n: Node)
    requires Good(infos, g) && n in infos
    ensures Good(infos, Unreferenced(g, n)) && OneUserLess(g, Unreferenced(g, n), n)
  {
  }

  lemma UnrefUsers(a: Graph, b: Graph, n: Node)
    requires SameUsers(a, b) && n in b.refs
    ensures OneUserLess(a, Unreferenced(b, n), n)
  {
  }

  lemma AttachKeptElsewhere(edges: Edges, e: EdgeId, x: Edge, roots: seq<Node>)
    requires x.target.Some? && FromRoots(edges[e := x], roots, x.target.value)
    ensures KeptElsewhere(edges, edges[e := x], roots)
  {
  }

  lemma BelowRoot(edges: Edges, n: Node)
    ensures FromRoots(edges, [n], n)
    ensures forall e | e in Children(edges, n) :: FromRoots(edges, [n], edges[e].target.value)
  {
    assert Reach(edges, [n][0], n);
    forall e | e in Children(edges, n) ensures FromRoots(edges, [n], edges[e].target.value) {
      ReachEdge(edges, n, e);
      assert Reach(edges, [n][0], edges[e].target.value);
    }
  }

  /** A user that is not a block node cannot be reached from one. */
  lemma UserNotReached(infos: Infos, edges: Edges, n: Node, user: Node)
    requires Movables(infos.Keys, edges) && n in infos && user !in infos
    ensures !Reach(edges, n, user)
  {
    assert ChildClosed(edges, infos.Keys);
  }

  /** What a refresh needs to know about the graph with the new child. */
  lemma AttachReady(infos: Infos, g: Graph, e: EdgeId, x: Edge, n: Node, ctx: map<Node, Ctx>)
    requires Shape(infos, g) && Acyclic(g.edges) && n in infos && !Reach(g.edges, n, x.owner)
    ensures var edges := WithChild(infos, g, e, x, n, ctx).edges;
            Acyclic(edges) && KeptElsewhere(g.edges, edges, [n]) && KeptElsewhere(g.edges, edges, [x.owner])
  {
    var edges := g.edges[e := x.(target := Some(n))];
    AttachAcyclic(infos, g, e, x, n, ctx);
    BelowRoot(edges, n);
    BelowRoot(edges, x.owner);
    assert e in Children(edges, x.owner);
    AttachKeptElsewhere(g.edges, e, x.(target := Some(n)), [n]);
    AttachKeptElsewhere(g.edges, e, x.(target := Some(n)), [x.owner]);
  }

  /** tran_finalize, then the stolen reference goes. */
  method FinalizeUnref(b: BlockLayer, tran: Transaction, ok: bool, n: Node, ghost g0: Graph)
    requires InTran(b.infos, tran.log, b.View(), g0) && b.Ids() && Good(b.infos, g0) && n in b.infos
    requires ok ==> Acyclic(b.edges) && ConflictFree(b.edges) && InheritsEnd(b.inherits)
    modifies b, tran
    ensures Valid(b)
    ensures !ok ==> b.View() == Unreferenced(g0, n)
    ensures ok ==> OneUserLess(g0, b.View(), n) && SameAttached(old(b.edges), b.edges)
    ensures ok ==> b.ctx == old(b.ctx) && b.inherits == old(b.inherits) && b.backing == old(b.backing) && b.file == old(b.file)
  {
    hide PointersOk, Uniform, Tracks, Balanced, DropsOk, Acyclic, ConflictFree, InheritsEnd, SameAttached, OneUserLess, Committed;
    Finalize(b, tran, ok, g0);
    UnrefGood(b.infos, b.View(), n);
    if ok {
      UnrefUsers(g0, b.View(), n);
    }
    b.ScheduleUnref(n);
  }

  /** bdrv_root_attach_child: takes over one reference to `n`, whether it succeeds or not. */
  method RootAttachChild(b: BlockLayer, n: Node, x: Edge) returns (r: Option<EdgeId>)
    requires Valid(b) && MayAttach(b.infos, b.View(), b.nextEdge, x, n) && x.owner !in b.infos
    modifies b
    ensures Valid(b)
    ensures r.Some? <==>
              && Attachable(b.infos, old(b.View()), x, n)
              && CanSettle(b.infos, old(b.edges)[old(b.nextEdge) := x.(target := Some(n))], [n])
    ensures FrozenKept(old(b.edges), b.edges)
    ensures r.None? ==> b.View() == Unreferenced(old(b.View()), n)
    ensures r.Some? ==>
              && r.value == old(b.nextEdge) && OneUserLess(old(b.View()), b.View(), n)
              && SettledInto(b.infos, old(b.edges)[r.value := x.(target := Some(n))], [n], b.edges)
              && AttachCtx(old(b.edges), old(b.ctx), x, n, b.ctx) && b.inherits == old(b.inherits)
  {
    hide InTran, PointersOk, Uniform, CanMoveCtx, MoveCtx, SlotOf, Reach, Acyclic, ConflictFree, InheritsEnd, SameAttached, SameUsers,
      OneUserLess, SubtreesSettled, KeptElsewhere, Repoint, Committed, FromRoots, AttachCtx, CanSettle, FrozenKept;
    ghost var g0 := b.View();
    var tran := new Transaction();
    StartTran(b.infos, g0);
    UserNotReached(b.infos, g0.edges, n, x.owner);
    r := b.AttachCommon(n, x, tran, g0);
    var ok := r.Some?;
    if ok {
      AttachReady(b.infos, g0, r.value, x, n, b.ctx);
      ok := RefreshPerms(b, [n], tran, g0);
    }
    FinalizeUnref(b, tran, ok, n, g0);
    FrozenKeptSelf(g0.edges);
    if ok {
      NewFrozen(g0.edges, r.value, x.(target := Some(n)));
      SettledFrozen(b.infos, g0.edges, g0.edges[r.value := x.(target := Some(n))], [n], b.edges);
    } else {
      r := None;
    }
  }

  /** bdrv_attach_child: passes one reference to `n` on to `parent`, or drops it. */
  method AttachChild(b: BlockLayer, parent: Node, n: Node, role: Role) returns (r: Option<EdgeId>)
    requires Valid(b) && parent in b.infos && b.infos[parent].driver.Some? && n in b.infos
    requires SlotFree(b.infos, b.View(), NewChild(b.infos, b.edges, parent, n, role))
    modifies b
    ensures Valid(b)
    ensures r.Some? <==>
              && old(ChildAllowed(b.infos, b.View(), parent, n, role))
              && var x := NewChild(b.infos, old(b.edges), parent, n, role);
                 CanSettle(b.infos, old(b.edges)[old(b.nextEdge) := x.(target := Some(n))], [parent])
    ensures FrozenKept(old(b.edges), b.edges)
    ensures r.None? ==> b.View() == Unreferenced(old(b.View()), n)
    ensures r.Some? ==>
              var x := NewChild(b.infos, old(b.edges), parent, n, role);
              && r.value == old(b.nextEdge) && OneUserLess(old(b.View()), b.View(), n)
              && SettledInto(b.infos, old(b.edges)[r.value := x.(target := Some(n))], [parent], b.edges)
              && AttachCtx(old(b.edges), old(b.ctx), x, n, b.ctx) && b.inherits == old(b.inherits)
  {
    hide InTran, PointersOk, Uniform, CanMoveCtx, MoveCtx, SlotOf, Reach, Acyclic, ConflictFree, InheritsEnd, SameAttached, SameUsers,
      OneUserLess, SubtreesSettled, KeptElsewhere, Repoint, Committed, FromRoots, AttachCtx, CanSettle, FrozenKept,
      CumPerm, CumShared, ChildPerm, Attachable;
    ghost var g0 := b.View();
    ghost var x := NewChild(b.infos, b.edges, parent, n, role);
    var tran := new Transaction();
    StartTran(b.infos, g0);
    r := AttachNoperm(b, parent, n, role, tran, g0);
    var ok := r.Some?;
    if ok {
      AttachReady(b.infos, g0, r.value, x, n, b.ctx);
      ok := RefreshPerms(b, [parent], tran, g0);
    }
    FinalizeUnref(b, tran, ok, n, g0);
    FrozenKeptSelf(g0.edges);
    if ok {
      NewFrozen(g0.edges, r.value, x.(target := Some(n)));
      SettledFrozen(b.infos, g0.edges, g0.edges[r.value := x.(target := Some(n))], [parent], b.edges);
    } else {
      r := None;
    }
  }

  // ------------------------------------------------- changing permissions

  lemma SetPermKeptElsewhere(edges: Edges, e: EdgeId, perm: Perms, shared: Perms)
    requires Attached(edges, e)
    ensures KeptElsewhere(edges, SetPerm(edges, e, perm, shared), [edges[e].target.value])
  {
    BelowRoot(SetPerm(edges, e, perm, shared), edges[e].target.value);
  }

  lemma SetPermFrozen(edges: Edges, e: EdgeId, perm: Perms, shared: Perms)
    requires e in edges
    ensures FrozenKept(edges, SetPerm(edges, e, perm, shared))
  {
  }

  /** bdrv_child_try_set_perm: a failure to loosen the permissions is hidden from the caller. */
  method TrySetPerm(b: BlockLayer, e: EdgeId, perm: Perms, shared: Perms) returns (ok: bool)
    requires Valid(b) && Attached(b.edges, e)
    modifies b
    ensures Valid(b) && SameUsers(old(b.View()), b.View()) && FrozenKept(old(b.edges), b.edges)
    ensures b.ctx == old(b.ctx) && b.inherits == old(b.inherits)
    ensures var wanted, roots := SetPerm(old(b.edges), e, perm, shared), [old(b.edges)[e].target.value];
            && (CanSettle(b.infos, wanted, roots) ==> ok && SettledInto(b.infos, wanted, roots, b.edges))
            && (!CanSettle(b.infos, wanted, roots) ==>
                  && b.View() == old(b.View())
                  && (ok <==> perm <= old(b.edges)[e].perm && old(b.edges)[e].shared <= shared))
  {
    hide InTran, PointersOk, Uniform, Reach, Acyclic, ConflictFree, InheritsEnd, SameAttached, SubtreesSettled, KeptElsewhere,
      Committed, FromRoots, CanSettle, FrozenKept;
    ghost var g0 := b.View();
    var tran := new Transaction();
    StartTran(b.infos, g0);
    TargetIsNode(b.infos, g0, e);
    SetPermKeptElsewhere(g0.edges, e, perm, shared);
    PermBack(g0.edges, e, perm, shared);
    b.SetPermTran(e, perm, shared, tran, g0);
    SameLinksAcyclic(g0.edges, b.edges);
    ok := RefreshPerms(b, [b.edges[e].target.value], tran, g0);
    Finalize(b, tran, ok, g0);
    FrozenKeptSelf(g0.edges);
    if ok {
      SetPermFrozen(g0.edges, e, perm, shared);
      SettledFrozen(b.infos, g0.edges, SetPerm(g0.edges, e, perm, shared), [g0.edges[e].target.value], b.edges);
    } else {
      ok := perm <= b.edges[e].perm && b.edges[e].shared <= shared;
    }
  }

  // --------------------------------------------------------- detaching

  const MAIN_CTX: Ctx := 0

  /** bdrv_replace_child_noperm to NULL and bdrv_child_free. */
  ghost function Freed(infos: Infos, g: Graph, e: EdgeId): Graph
    requires e in g.edges
  {
    var h := Redirect(infos, g, e, None);
    h.(edges := h.edges - {e})
  }

  lemma FreedParents(g: Graph, e: EdgeId, m: Node)
    requires Attached(g.edges, e)
    ensures |Parents(g.edges - {e}, m)| == |Parents(g.edges, m)| - if g.edges[e].target == Some(m) then 1 else 0
  {
    var rest := Parents(g.edges, m) - {e};
    assert Parents(g.edges - {e}, m) == rest;
    assert Parents(g.edges, m) == if g.edges[e].target == Some(m) then rest + {e} else rest;
  }

  lemma FreedFrozen(edges: Edges, e: EdgeId)
    requires e in edges && !edges[e].frozen
    ensures FrozenKept(edges, edges - {e})
  {
  }

  lemma FreedEdges(infos: Infos, g: Graph, e: EdgeId)
    requires Attached(g.edges, e)
    ensures Freed(infos, g, e).edges == g.edges - {e} && SameAttached(Redirect(infos, g, e, None).edges, g.edges - {e})
  {
    var h := Redirect(infos, g, e, None);
    assert h.edges - {e} == g.edges - {e};
  }

  lemma FreedGood(infos: Infos, g: Graph, e: EdgeId)
    requires Good(infos, g) && Attached(g.edges, e)
    ensures Good(infos, Freed(infos, g, e))
  {
    hide PointersOk, Uniform, Movables;
    var h, g' := Redirect(infos, g, e, None), Freed(infos, g, e);
    FreedEdges(infos, g, e);
    DetachedShape(infos, g, e);
    SameAttachedShape(infos, h, g');
    assert FewerLinks(g'.edges, g.edges);
    FewerLinksAcyclic(g'.edges, g.edges);
    forall n: Node ensures NoConflict(g'.edges, n) {
      assert NoConflict(g.edges, n);
      assert Parents(g'.edges, n) <= Parents(g.edges, n);
    }
  }

  lemma FreedUsers(infos: Infos, g: Graph, e: EdgeId, g': Graph)
    requires Attached(g.edges, e) && SameUsers(Freed(infos, g, e), g') && g.edges[e].target.value in g.refs
    ensures SameUsers(g, Unreferenced(g', g.edges[e].target.value))
  {
    hide Parents;
    FreedEdges(infos, g, e);
    forall m | m in g.refs ensures Users(Unreferenced(g', g.edges[e].target.value), m) == Users(g, m) {
      FreedParents(g, e, m);
    }
  }

  /** bdrv_refresh_perms without a transaction of the caller's: errors leave the graph alone. */
  method RefreshAlone(b: BlockLayer, n: Node)
    requires Valid(b) && n in b.infos
    modifies b
    ensures Valid(b) && SameUsers(old(b.View()), b.View()) && b.ctx == old(b.ctx) && b.inherits == old(b.inherits)
    ensures if CanSettle(b.infos, old(b.edges), [n]) then SettledInto(b.infos, old(b.edges), [n], b.edges)
            else b.View() == old(b.View())
  {
    hide InTran, Shape, Reach, Acyclic, ConflictFree, InheritsEnd, SameAttached, SubtreesSettled, Committed, FromRoots, CanSettle;
    ghost var g0 := b.View();
    var tran := new Transaction();
    StartTran(b.infos, g0);
    var ok := RefreshPerms(b, [n], tran, g0);
    Finalize(b, tran, ok, g0);
  }

  lemma MovedGood(infos: Infos, g: Graph, ctx: map<Node, Ctx>)
    requires Good(infos, g) && ctx.Keys == g.ctx.Keys && Uniform(g.edges, ctx)
    ensures Good(infos, g.(ctx := ctx)) && SameUsers(g, g.(ctx := ctx))
  {
  }

  /** bdrv_root_unref_child: the child goes, its node is refreshed as far as possible, moves to the main context unless
      somebody refuses, and loses the child's reference. */
  method RootUnrefChild(b: BlockLayer, e: EdgeId)
    requires Valid(b) && Attached(b.edges, e) && !b.edges[e].frozen
    modifies b
    ensures Valid(b) && SameUsers(old(b.View()), b.View()) && b.inherits == old(b.inherits)
    ensures FrozenKept(old(b.edges), b.edges)
    ensures var n, rest := old(b.edges)[e].target.value, old(b.edges) - {e};
            && (if CanSettle(b.infos, rest, [n]) then SettledInto(b.infos, rest, [n], b.edges) else b.edges == rest)
            && b.ctx == if CanMoveCtx(b.edges, old(b.ctx), n) then MoveCtx(b.edges, old(b.ctx), n, MAIN_CTX) else old(b.ctx)
  {
    hide Good, SameUsers, CanSettle, SettledInto, CanMoveCtx, MoveCtx, Unreferenced, NetRefs, FrozenKept;
    ghost var g0 := b.View();
    var n := b.edges[e].target.value;
    FreeChild(b, e);
    FreedFrozen(g0.edges, e);
    RefreshAlone(b, n);
    if CanSettle(b.infos, g0.edges - {e}, [n]) {
      SettledFrozen(b.infos, g0.edges, g0.edges - {e}, [n], b.edges);
    }
    ghost var g1 := b.View();
    MoveAlone(b, n);
    SameUsersTrans(Freed(b.infos, g0, e), g1, b.View());
    FreedUsers(b.infos, g0, e, b.View());
    UnrefStep(b, n);
  }

  method UnrefStep(b: BlockLayer, n: Node)
    requires Valid(b) && n in b.infos
    modifies b`unrefs
    ensures Valid(b) && b.View() == Unreferenced(old(b.View()), n)
  {
    UnrefGood(b.infos, b.View(), n);
    b.ScheduleUnref(n);
  }

  lemma SameUsersTrans(a: Graph, b: Graph, c: Graph)
    requires SameUsers(a, b) && SameUsers(b, c)
    ensures SameUsers(a, c)
  {
  }

  method FreeChild(b: BlockLayer, e: EdgeId)
    requires Valid(b) && Attached(b.edges, e) && !b.edges[e].frozen
    modifies b
    ensures Valid(b) && b.View() == Freed(b.infos, old(b.View()), e) && b.edges == old(b.edges) - {e}
    ensures b.ctx == old(b.ctx) && b.inherits == old(b.inherits) && old(b.edges)[e].target.value in b.infos
    ensures old(b.edges)[e].target.value in old(b.View()).refs
  {
    hide PointersOk, Uniform, Acyclic, ConflictFree, InheritsEnd, Repoint;
    ghost var g0 := b.View();
    TargetIsNode(b.infos, g0, e);
    FreedGood(b.infos, g0, e);
    FreedEdges(b.infos, g0, e);
    b.ReplaceNoperm(e, None);
    b.edges := b.edges - {e};
  }

  method MoveAlone(b: BlockLayer, n: Node)
    requires Valid(b) && n in b.infos
    modifies b`ctx
    ensures Valid(b) && SameUsers(old(b.View()), b.View())
    ensures b.ctx == if CanMoveCtx(b.edges, old(b.ctx), n) then MoveCtx(b.edges, old(b.ctx), n, MAIN_CTX) else old(b.ctx)
  {
    ghost var g := b.View();
    var ok, ctx := TryChange(b.infos.Keys, b.edges, b.ctx, n, MAIN_CTX);
    MovedGood(b.infos, g, ctx);
    b.ctx := ctx;
  }
}
