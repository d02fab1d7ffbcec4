/**
  bdrv_replace_node and bdrv_append of qemu/block.c: pointing the parents of one node
  at another without making a cycle.
 */
module BlockReplace {
  import opened Wrappers
  import opened BlockGraph
  import opened BlockPerms
  import opened BlockAio
  import opened BlockUndo
  import opened BlockLayer
  import opened BlockOps
  import opened BlockChain

  /** should_update_child lets the link move to `to`. */
  ghost predicate Updatable(edges: Edges, c: EdgeId, to: Node)
    requires c in edges
  {
    !edges[c].stays && !Reach(edges, to, edges[c].owner)
  }

  /** The parents in `done` that may move from `from` to `to` have moved. */
  ghost function Moved(edges: Edges, from: Node, to: Node, done: set<EdgeId>): Edges {
    map e | e in edges ::
      if e in done && edges[e].target == Some(from) && Updatable(edges, e, to) then edges[e].(target := Some(to))
      else edges[e]
  }

  /** Redirecting a link whose owner cannot be reached from a node changes nothing below that node. */
  lemma RedirectKeepsReach(a: Edges, b: Edges, nodes: set<Node>, to: Node, m: Node)
    requires Over(a, nodes) && Over(b, nodes) && to in nodes && a.Keys == b.Keys
    requires forall e | e in a :: a[e].owner == b[e].owner && (a[e] == b[e] || !Reach(a, to, a[e].owner))
    ensures Reach(a, to, m) <==> Reach(b, to, m)
  {
    var r, s := ReachSet(a, nodes, to), ReachSet(b, nodes, to);
    ReachSetClosed(a, nodes, to);
    ReachSetClosed(b, nodes, to);
    assert ChildClosed(b, r);
    assert s <= r;
    assert ChildClosed(a, s);
  }

  lemma MovedReach(edges: Edges, nodes: set<Node>, from: Node, to: Node, done: set<EdgeId>, m: Node)
    requires Over(edges, nodes) && to in nodes
    ensures Over(Moved(edges, from, to, done), nodes)
    ensures Reach(Moved(edges, from, to, done), to, m) <==> Reach(edges, to, m)
  {
    RedirectKeepsReach(edges, Moved(edges, from, to, done), nodes, to, m);
  }

  /** Moving the links that should_update_child allows never makes a cycle. */
  lemma MovedAcyclic(edges: Edges, nodes: set<Node>, from: Node, to: Node, done: set<EdgeId>)
    requires Over(edges, nodes) && to in nodes && Acyclic(edges)
    ensures Acyclic(Moved(edges, from, to, done))
  {
    var cur := Moved(edges, from, to, done);
    hide Reach, ReachSet, ChildClosed;
    forall e | Attached(cur, e) ensures !Reach(cur, cur[e].target.value, cur[e].owner) {
      if cur[e].target != edges[e].target {
        MovedLink(edges, nodes, from, to, done, e);
      } else if Reach(edges, to, edges[e].owner) {
        BelowLink(edges, nodes, from, to, done, e);
      } else {
        OtherLink(edges, nodes, from, to, done, e);
      }
    }
  }

  /** Below `to` everything is as it was. */
  lemma MovedClosed(edges: Edges, nodes: set<Node>, from: Node, to: Node, done: set<EdgeId>)
    requires Over(edges, nodes) && to in nodes
    ensures to in ReachSet(edges, nodes, to) && ChildClosed(Moved(edges, from, to, done), ReachSet(edges, nodes, to))
  {
    ReachSetClosed(edges, nodes, to);
  }

  /** A link that has moved: its owner cannot be reached from `to`. */
  lemma MovedLink(edges: Edges, nodes: set<Node>, from: Node, to: Node, done: set<EdgeId>, e: EdgeId)
    requires Over(edges, nodes) && to in nodes && e in edges
    requires var cur := Moved(edges, from, to, done); cur[e].target != edges[e].target
    ensures var cur := Moved(edges, from, to, done);
            cur[e].target.Some? && !Reach(cur, cur[e].target.value, cur[e].owner)
  {
    MovedClosed(edges, nodes, from, to, done);
  }

  /** A link below `to`. */
  lemma BelowLink(edges: Edges, nodes: set<Node>, from: Node, to: Node, done: set<EdgeId>, e: EdgeId)
    requires Over(edges, nodes) && to in nodes && Acyclic(edges) && Attached(edges, e) && Reach(edges, to, edges[e].owner)
    ensures !Reach(Moved(edges, from, to, done), edges[e].target.value, edges[e].owner)
  {
    var cur, t := Moved(edges, from, to, done), edges[e].target.value;
    var r := ReachSet(edges, nodes, t);
    ReachSetClosed(edges, nodes, t);
    ReachEdge(edges, to, e);
    forall d | Attached(cur, d) && cur[d].owner in r ensures cur[d].target.value in r {
      ReachTrans(edges, to, t, cur[d].owner);
    }
    assert ChildClosed(cur, r);
  }

  /** Any other link. */
  lemma OtherLink(edges: Edges, nodes: set<Node>, from: Node, to: Node, done: set<EdgeId>, e: EdgeId)
    requires Over(edges, nodes) && to in nodes && Acyclic(edges) && Attached(edges, e) && !Reach(edges, to, edges[e].owner)
    ensures !Reach(Moved(edges, from, to, done), edges[e].target.value, edges[e].owner)
  {
    var cur, t := Moved(edges, from, to, done), edges[e].target.value;
    var r, below := ReachSet(edges, nodes, t), ReachSet(edges, nodes, to);
    ReachSetClosed(edges, nodes, t);
    MovedClosed(edges, nodes, from, to, done);
    forall d | Attached(cur, d) && cur[d].owner in r + below ensures cur[d].target.value in r + below {
    }
    assert ChildClosed(cur, r + below);
  }

  lemma MovedStep(edges: Edges, from: Node, to: Node, done: set<EdgeId>, c: EdgeId)
    requires c in edges && edges[c].target == Some(from) && c !in done
    ensures var cur := Moved(edges, from, to, done);
            && c in cur && cur[c] == edges[c]
            && Moved(edges, from, to, done + {c}) ==
                 if Updatable(edges, c, to) then cur[c := cur[c].(target := Some(to))] else cur
  {
  }

  lemma MovedAll(edges: Edges, from: Node, to: Node)
    ensures Moved(edges, from, to, {}) == edges
  {
  }

  /** bdrv_replace_node_noperm does not refuse: no link that would move is frozen and, unless links may be skipped, every
      link may move. */
  ghost predicate NodeMayMove(edges: Edges, from: Node, to: Node, autoSkip: bool) {
    forall c | c in Parents(edges, from) :: LinkMayMove(edges, c, to, autoSkip)
  }

  ghost predicate LinkMayMove(edges: Edges, c: EdgeId, to: Node, autoSkip: bool)
    requires c in edges
  {
    if Updatable(edges, c, to) then !edges[c].frozen else autoSkip
  }

  /** Redirecting a child leaves the pointers of its parent alone. */
  lemma ReplacedPointers(infos: Infos, log: seq<Undo>, g: Graph, g0: Graph, e: EdgeId, t: Node)
    requires InTran(infos, log, g, g0) && MayReplace(infos, g, e, Some(t))
    ensures Replaced(infos, g, e, Some(t)).backing == g.backing && Replaced(infos, g, e, Some(t)).file == g.file
  {
    hide Tracks, Balanced, DropsOk, Uniform, Movables, Over, OnePointer;
  }

  /** The body of the loop of bdrv_replace_node_noperm. */
  method ReplaceOne(b: BlockLayer, c: EdgeId, from: Node, to: Node, autoSkip: bool, tran: Transaction, ghost g0: Graph,
                    ghost e0: Edges, ghost done: set<EdgeId>)
    returns (ok: bool)
    requires InTran(b.infos, tran.log, b.View(), g0) && Over(e0, b.ctx.Keys) && c in e0 && (from != to || e0[c].stays)
    requires from in b.infos && to in b.infos && from in b.ctx && to in b.ctx && b.ctx[from] == b.ctx[to]
    requires b.edges == Moved(e0, from, to, done) && c in Parents(e0, from) && c !in done
    modifies b`edges, b`backing, b`file, b`refcnt, tran
    ensures InTran(b.infos, tran.log, b.View(), g0) && old(tran.log) <= tran.log
    ensures ok <==> LinkMayMove(e0, c, to, autoSkip)
    ensures b.edges.Keys == old(b.edges).Keys && (ok ==> b.edges == Moved(e0, from, to, done + {c}))
    ensures b.backing == old(b.backing) && b.file == old(b.file)
  {
    hide InTran, Moved, Reach, Over, Redirect;
    MovedStep(e0, from, to, done, c);
    MovedReach(e0, b.ctx.Keys, from, to, done, e0[c].owner);
    var should := b.ShouldUpdateChild(c, to);
    if !should {
      return autoSkip;
    }
    if b.edges[c].frozen {
      return false;
    }
    ReplacedEdges(b.infos, b.View(), c, Some(to));
    ReplacedPointers(b.infos, tran.log, b.View(), g0, c, to);
    b.ReplaceTran(c, Some(to), tran, g0);
    return true;
  }

  /** bdrv_replace_node_noperm */
  method ReplaceNodeNoperm(b: BlockLayer, from: Node, to: Node, autoSkip: bool, tran: Transaction, ghost g0: Graph)
    returns (ok: bool)
    requires InTran(b.infos, tran.log, b.View(), g0) && Over(b.edges, b.ctx.Keys)
    requires from != to || forall c | c in Parents(b.edges, from) :: b.edges[c].stays
    requires from in b.infos && to in b.infos && from in b.ctx && to in b.ctx && b.ctx[from] == b.ctx[to]
    modifies b`edges, b`backing, b`file, b`refcnt, tran
    ensures InTran(b.infos, tran.log, b.View(), g0) && old(tran.log) <= tran.log
    ensures ok <==> NodeMayMove(old(b.edges), from, to, autoSkip)
    ensures b.edges.Keys == old(b.edges).Keys && b.backing == old(b.backing) && b.file == old(b.file)
    ensures ok ==> b.edges == Moved(old(b.edges), from, to, Parents(old(b.edges), from))
  {
    hide InTran, Moved, LinkMayMove, Over;
    ghost var e0 := b.edges;
    ghost var all := Parents(b.edges, from);
    var todo := Parents(b.edges, from);
    MovedAll(e0, from, to);
    assert all - todo == {};
    while todo != {}
      invariant todo <= all && InTran(b.infos, tran.log, b.View(), g0) && old(tran.log) <= tran.log
      invariant b.edges == Moved(e0, from, to, all - todo) && b.edges.Keys == e0.Keys
      invariant b.backing == old(b.backing) && b.file == old(b.file)
      invariant forall c | c in all && c !in todo :: LinkMayMove(e0, c, to, autoSkip)
    {
      var c :| c in todo;
      assert all - (todo - {c}) == (all - todo) + {c};
      ok := ReplaceOne(b, c, from, to, autoSkip, tran, g0, e0, all - todo);
      if !ok {
        return false;
      }
      todo := todo - {c};
    }
    assert all - todo == all;
    return true;
  }

  /** Links that have moved point at a root; so does whatever is new. */
  lemma MovedKeptElsewhere(a: Edges, edges: Edges, from: Node, to: Node, done: set<EdgeId>, roots: seq<Node>)
    requires to in roots
    requires forall e | Attached(edges, e) && !(e in a && a[e] == edges[e]) ::
               FromRoots(Moved(edges, from, to, done), roots, edges[e].target.value)
    ensures KeptElsewhere(a, Moved(edges, from, to, done), roots)
  {
    var cur := Moved(edges, from, to, done);
    var k :| 0 <= k < |roots| && roots[k] == to;
    SelfReach(cur, to);
    assert Reach(cur, roots[k], to);
    assert FromRoots(cur, roots, to);
  }

  /** The loop of bdrv_replace_node_common: the node of the chain whose COW or filter child is `to`. */
  method FindCowParent(b: BlockLayer, from: Node, to: Node, ghost links: seq<EdgeId>) returns (p: Node)
    requires IsSegment(b.infos, b.View(), Some(from), Some(to), links) && from != to
    ensures links != [] && FilterOrCowChild(b.infos, b.View(), p) == Some(links[|links| - 1])
    ensures Attached(b.edges, links[|links| - 1]) && b.edges[links[|links| - 1]].target == Some(to)
  {
    p := from;
    ghost var k := 0;
    assert links[0..] == links;
    SegmentStep(b.infos, b.View(), Some(p), Some(to), links, 0);
    while b.edges[FilterOrCowChild(b.infos, b.View(), p).value].target != Some(to)
      invariant 0 <= k < |links| && IsSegment(b.infos, b.View(), Some(p), Some(to), links[k..]) && p != to
      invariant FilterOrCowChild(b.infos, b.View(), p) == Some(links[k]) && Attached(b.edges, links[k])
      invariant IsSegment(b.infos, b.View(), b.edges[links[k]].target, Some(to), links[k + 1..])
      decreases |links| - k
    {
      p := b.edges[FilterOrCowChild(b.infos, b.View(), p).value].target.value;
      k := k + 1;
      SegmentStep(b.infos, b.View(), Some(p), Some(to), links, k);
    }
    assert |links[k + 1..]| == 0;
  }

  /** The children once the links have moved and, with detach_subchain, the link `cut` is gone. */
  ghost function Replacement(edges: Edges, from: Node, to: Node, cut: Option<EdgeId>): Edges {
    var moved := Moved(edges, from, to, Parents(edges, from));
    if cut.Some? && cut.value in moved then Detached(moved, cut.value) else moved
  }

  lemma ReplacementReady(edges: Edges, nodes: set<Node>, from: Node, to: Node, cut: Option<EdgeId>)
    requires Over(edges, nodes) && to in nodes && Acyclic(edges)
    ensures var after := Replacement(edges, from, to, cut);
            Acyclic(after) && KeptElsewhere(edges, after, [from, to])
  {
    var moved, after := Moved(edges, from, to, Parents(edges, from)), Replacement(edges, from, to, cut);
    MovedAcyclic(edges, nodes, from, to, Parents(edges, from));
    FewerLinksAcyclic(after, moved);
    SelfReach(after, to);
    assert Reach(after, [from, to][1], to);
    assert FromRoots(after, [from, to], to);
  }

  lemma ReplacementFrozen(edges: Edges, from: Node, to: Node, cut: Option<EdgeId>, autoSkip: bool)
    requires NodeMayMove(edges, from, to, autoSkip) && (cut.Some? && cut.value in edges ==> !edges[cut.value].frozen)
    ensures FrozenKept(edges, Replacement(edges, from, to, cut))
  {
    FrozenKeptSelf(edges);
    MovedFrozen(edges, edges, from, to, autoSkip);
  }

  /** The transactional part of bdrv_replace_node_common. */
  method ReplaceAndDetach(b: BlockLayer, from: Node, to: Node, autoSkip: bool, detach: bool, ghost links: seq<EdgeId>,
                          tran: Transaction, ghost g0: Graph)
    returns (ok: bool)
    requires InTran(b.infos, tran.log, b.View(), g0) && Over(b.edges, b.ctx.Keys) && b.Ids()
    requires from != to || forall c | c in Parents(b.edges, from) :: b.edges[c].stays
    requires from in b.infos && to in b.infos && from in b.ctx && to in b.ctx && b.ctx[from] == b.ctx[to]
    requires detach ==> Detachable(b.infos, b.View(), from, to, links)
    modifies b`edges, b`backing, b`file, b`refcnt, tran
    ensures InTran(b.infos, tran.log, b.View(), g0) && b.Ids()
    ensures ok <==> NodeMayMove(old(b.edges), from, to, autoSkip)
    ensures var cut := if detach then Some(links[|links| - 1]) else None;
            ok ==> b.edges == Replacement(old(b.edges), from, to, cut) && (cut.Some? ==> Drop(cut.value) in tran.log)
  {
    hide InTran, NodeMayMove, Over, IsSegment;
    var p := from;
    if detach {
      p := FindCowParent(b, from, to, links);
    }
    ok := ReplaceNodeNoperm(b, from, to, autoSkip, tran, g0);
    if ok && detach {
      var c := FilterOrCowChild(b.infos, b.View(), p).value;
      ReplacedEdges(b.infos, b.View(), c, None);
      b.RemoveChild(c, tran, g0);
    }
  }

  /** What detach_subchain asks for: `to` is further down the chain of `from`, and the link above it is not frozen. */
  ghost predicate Detachable(infos: Infos, g: Graph, from: Node, to: Node, links: seq<EdgeId>) {
    && from != to && IsSegment(infos, g, Some(from), Some(to), links)
    && links != [] && links[|links| - 1] in g.edges && !g.edges[links[|links| - 1]].frozen
  }

  /** bdrv_replace_node_common; bdrv_replace_node has autoSkip, bdrv_drop_filter detach as well.  Either every parent of
      `from` that may move has moved, the subchain is detached and all permissions are settled, or nothing has changed. */
  method ReplaceNode(b: BlockLayer, from: Node, to: Node, autoSkip: bool, detach: bool, ghost links: seq<EdgeId>)
    returns (ok: bool)
    requires Valid(b) && from in b.infos && to in b.infos
    requires from != to || forall c | c in Parents(b.edges, from) :: b.edges[c].stays
    requires from in b.ctx && to in b.ctx && b.ctx[from] == b.ctx[to]
    requires detach ==> Detachable(b.infos, b.View(), from, to, links)
    modifies b
    ensures Valid(b) && SameUsers(old(b.View()), b.View()) && b.ctx == old(b.ctx) && b.inherits == old(b.inherits)
    ensures FrozenKept(old(b.edges), b.edges)
    ensures !ok ==> b.View() == old(b.View())
    ensures var cut := if detach then Some(links[|links| - 1]) else None;
            var after := Replacement(old(b.edges), from, to, cut);
            && (ok <==> NodeMayMove(old(b.edges), from, to, autoSkip) && CanSettle(b.infos, after, [from, to]))
            && (ok ==> SettledInto(b.infos, after, [from, to], b.edges) && (detach ==> cut.value !in b.edges))
  {
    hide InTran, PointersOk, Uniform, Movables, Over, Acyclic, ConflictFree, InheritsEnd, Replacement, NodeMayMove, CanSettle,
      SameAttached, SubtreesSettled, KeptElsewhere, SameUsers, FromRoots, FrozenKept, IsSegment, Held;
    ghost var g0 := b.View();
    ghost var cut := if detach then Some(links[|links| - 1]) else None;
    var tran := new Transaction();
    StartTran(b.infos, g0);
    ok := ReplaceAndDetach(b, from, to, autoSkip, detach, links, tran, g0);
    if ok {
      ReplacementReady(g0.edges, g0.ctx.Keys, from, to, cut);
      ok := RefreshPerms(b, [from, to], tran, g0);
    }
    ghost var log := tran.log;
    Finalize(b, tran, ok, g0);
    SameUsersSelf(g0);
    FrozenKeptSelf(g0.edges);
    if ok {
      ReplacementFrozen(g0.edges, from, to, cut, autoSkip);
      SettledFrozen(b.infos, g0.edges, Replacement(g0.edges, from, to, cut), [from, to], b.edges);
      if detach {
        DroppedGone(log, cut.value);
      }
    }
  }

  lemma DroppedGone(log: seq<Undo>, e: EdgeId)
    requires Drop(e) in log
    ensures e in Dropped(log)
  {
    var i :| 0 <= i < |log| && log[i] == Drop(e);
    assert log[i].e in Dropped(log);
  }

  lemma MovedFrozen(a: Edges, edges: Edges, from: Node, to: Node, autoSkip: bool)
    requires FrozenKept(a, edges) && NodeMayMove(edges, from, to, autoSkip)
    ensures FrozenKept(a, Moved(edges, from, to, Parents(edges, from)))
  {
    var cur := Moved(edges, from, to, Parents(edges, from));
    forall e | e in edges ensures cur[e].frozen == edges[e].frozen && (edges[e].frozen ==> cur[e] == edges[e])
      ensures Attached(cur, e) <==> Attached(edges, e)
    {
      assert e in Parents(edges, from) ==> LinkMayMove(edges, e, to, autoSkip);
    }
  }

  // ------------------------------------------------------------- bdrv_append

  /** bdrv_backing_role */
  function BackingRole(d: Driver): Role {
    if d.isFilter then Role(false, true, true) else Role(true, false, false)
  }

  /** The children after bdrv_append has attached the new node on top and moved the links. */
  ghost function AppendedEdges(infos: Infos, edges: Edges, n: Node, top: Node, e: EdgeId): Edges
    requires n in infos && infos[n].driver.Some?
  {
    var x := NewChild(infos, edges, n, top, BackingRole(infos[n].driver.value));
    var edges1 := edges[e := x.(target := Some(top))];
    Moved(edges1, top, n, Parents(edges1, top))
  }

  lemma AppendKeptElsewhere(infos: Infos, edges: Edges, n: Node, top: Node, e: EdgeId)
    requires n in infos && infos[n].driver.Some?
    ensures KeptElsewhere(edges, AppendedEdges(infos, edges, n, top, e), [n])
  {
    var x := NewChild(infos, edges, n, top, BackingRole(infos[n].driver.value));
    var edges1 := edges[e := x.(target := Some(top))];
    var cur := AppendedEdges(infos, edges, n, top, e);
    SelfReach(edges1, n);
    assert cur[e] == edges1[e] && e in Children(cur, n);
    BelowRoot(cur, n);
    MovedKeptElsewhere(edges, edges1, top, n, Parents(edges1, top), [n]);
  }

  /** The two transactional steps of bdrv_append. */
  method AppendNoperm(b: BlockLayer, n: Node, top: Node, tran: Transaction, ghost g0: Graph) returns (ok: bool)
    requires InTran(b.infos, tran.log, b.View(), g0) && Shape(b.infos, b.View()) && b.Ids() && Acyclic(b.edges)
    requires n in b.infos && b.infos[n].driver.Some? && top in b.infos
    requires SlotFree(b.infos, b.View(), NewChild(b.infos, b.edges, n, top, BackingRole(b.infos[n].driver.value)))
    modifies b, tran
    ensures InTran(b.infos, tran.log, b.View(), g0) && b.Ids()
    ensures ok <==> MayAppend(b.infos, old(b.View()), n, top, old(b.nextEdge))
    ensures ok ==>
              && b.edges == AppendedEdges(b.infos, old(b.edges), n, top, old(b.nextEdge)) && Acyclic(b.edges)
              && b.inherits == old(b.inherits)
              && AttachCtx(old(b.edges), old(b.ctx),
                           NewChild(b.infos, old(b.edges), n, top, BackingRole(b.infos[n].driver.value)), top, b.ctx)
  {
    hide InTran, Acyclic, Uniform, PointersOk, Movables, NodeMayMove, Moved, CanMoveCtx, MoveCtx, Repoint, CumPerm, CumShared,
      ChildPerm, Attachable, AttachCtx;
    ghost var g := b.View();
    var r := AttachNoperm(b, n, top, BackingRole(b.infos[n].driver.value), tran, g0);
    if r.None? {
      return false;
    }
    ghost var x := NewChild(b.infos, g.edges, n, top, BackingRole(b.infos[n].driver.value));
    AttachCtxUniform(g.edges, g.ctx, x, top, b.ctx);
    SelfReach(g.edges, n);
    ok := ReplaceNodeNoperm(b, top, n, true, tran, g0);
    if ok {
      MovedAcyclic(g.edges[r.value := x.(target := Some(top))], b.ctx.Keys, top, n,
                   Parents(g.edges[r.value := x.(target := Some(top))], top));
    }
  }

  /** The conditions of the two steps. */
  ghost predicate MayAppend(infos: Infos, g: Graph, n: Node, top: Node, e: EdgeId)
    requires n in infos && infos[n].driver.Some? && top in infos && infos.Keys <= g.ctx.Keys
  {
    var role := BackingRole(infos[n].driver.value);
    && ChildAllowed(infos, g, n, top, role)
    && NodeMayMove(g.edges[e := NewChild(infos, g.edges, n, top, role).(target := Some(top))], top, n, true)
  }

  /** bdrv_append: either the new node sits on top, with every parent of `top` that may move pointing at it, and all
      permissions are settled, or nothing has changed. */
  method Append(b: BlockLayer, n: Node, top: Node) returns (ok: bool)
    requires Valid(b) && n in b.infos && b.infos[n].driver.Some? && top in b.infos && n !in b.backing
    requires SlotFree(b.infos, b.View(), NewChild(b.infos, b.edges, n, top, BackingRole(b.infos[n].driver.value)))
    modifies b
    ensures Valid(b) && SameUsers(old(b.View()), b.View()) && b.inherits == old(b.inherits)
    ensures FrozenKept(old(b.edges), b.edges)
    ensures !ok ==> b.View() == old(b.View())
    ensures var appended := AppendedEdges(b.infos, old(b.edges), n, top, old(b.nextEdge));
            && (ok <==> MayAppend(b.infos, old(b.View()), n, top, old(b.nextEdge)) && CanSettle(b.infos, appended, [n]))
            && (ok ==> SettledInto(b.infos, appended, [n], b.edges))
    ensures ok ==> AttachCtx(old(b.edges), old(b.ctx),
                             NewChild(b.infos, old(b.edges), n, top, BackingRole(b.infos[n].driver.value)), top, b.ctx)
    ensures ok ==> OnTop(b.infos, b.View(), n, top, old(b.nextEdge))
  {
    hide InTran, PointersOk, Uniform, Movables, Over, Acyclic, ConflictFree, InheritsEnd, AppendedEdges, MayAppend, CanSettle, SameAttached,
      SubtreesSettled, KeptElsewhere, Committed, SameUsers, FromRoots, AttachCtx, NewChild, FrozenKept, OnTop;
    ghost var g0 := b.View();
    ghost var e := b.nextEdge;
    var tran := new Transaction();
    StartTran(b.infos, g0);
    ok := AppendNoperm(b, n, top, tran, g0);
    if ok {
      AppendKeptElsewhere(b.infos, g0.edges, n, top, e);
      ok := RefreshPerms(b, [n], tran, g0);
    }
    Finalize(b, tran, ok, g0);
    SameUsersSelf(g0);
    FrozenKeptSelf(g0.edges);
    if ok {
      AppendFrozen(b.infos, g0, n, top, e);
      AppendedPoints(b.infos, g0.edges, n, top, e, b.View());
      SettledFrozen(b.infos, g0.edges, AppendedEdges(b.infos, g0.edges, n, top, e), [n], b.edges);
    }
  }

  /** `n` sits on `top` by the child `e`: a filter by a filtered child, any other node by a COW child; the pointer that belongs
      to it names that child; and the chain below `n` goes on at `top`. */
  ghost predicate OnTop(infos: Infos, g: Graph, n: Node, top: Node, e: EdgeId)
    requires n in infos && infos[n].driver.Some?
  {
    var d := infos[n].driver.value;
    && Attached(g.edges, e) && g.edges[e].owner == n && g.edges[e].target == Some(top)
    && g.edges[e].role == (if d.isFilter then Role(false, true, true) else Role(true, false, false))
    && (if d.isFilter && !d.filteredChildIsBacking then n in g.file && g.file[n] == e && n !in g.backing
        else n in g.backing && g.backing[n] == e)
    && IsSegment(infos, g, Some(n), Some(top), [e])
  }

  lemma AppendedPoints(infos: Infos, edges: Edges, n: Node, top: Node, e: EdgeId, g: Graph)
    requires n in infos && infos[n].driver.Some? && PointersOk(infos, g) && Acyclic(g.edges)
    requires SettledInto(infos, AppendedEdges(infos, edges, n, top, e), [n], g.edges)
    ensures OnTop(infos, g, n, top, e)
  {
    var before := AppendedEdges(infos, edges, n, top, e);
    AppendedChild(infos, edges, n, top, e);
    var sol: Edges :| SubtreesSettled(infos, before, [n], sol) && SameAttached(sol, g.edges);
    SettledLinks(infos, before, [n], sol);
    hide AppendedEdges, SubtreesSettled;
    assert Attached(sol, e) && sol[e].owner == n && sol[e].target == Some(top) && sol[e].role == before[e].role;
    NewOnTop(infos, g, n, top, e);
  }

  lemma AppendedChild(infos: Infos, edges: Edges, n: Node, top: Node, e: EdgeId)
    requires n in infos && infos[n].driver.Some?
    ensures var cur := AppendedEdges(infos, edges, n, top, e);
            && e in cur && cur[e].owner == n && cur[e].target == Some(top)
            && cur[e].role == if infos[n].driver.value.isFilter then Role(false, true, true) else Role(true, false, false)
  {
    var x := NewChild(infos, edges, n, top, BackingRole(infos[n].driver.value));
    var edges1 := edges[e := x.(target := Some(top))];
    SelfReach(edges1, n);
    assert AppendedEdges(infos, edges, n, top, e)[e] == edges1[e];
  }

  lemma NewOnTop(infos: Infos, g: Graph, n: Node, top: Node, e: EdgeId)
    requires n in infos && infos[n].driver.Some? && PointersOk(infos, g) && Acyclic(g.edges)
    requires Attached(g.edges, e) && g.edges[e].owner == n && g.edges[e].target == Some(top)
    requires g.edges[e].role == if infos[n].driver.value.isFilter then Role(false, true, true) else Role(true, false, false)
    ensures OnTop(infos, g, n, top, e)
  {
    assert n != top by {
      SelfReach(g.edges, n);
    }
    assert IsSegment(infos, g, Some(top), Some(top), [e][1..]);
  }

  lemma AppendFrozen(infos: Infos, g: Graph, n: Node, top: Node, e: EdgeId)
    requires n in infos && infos[n].driver.Some? && top in infos && infos.Keys <= g.ctx.Keys
    requires e !in g.edges && MayAppend(infos, g, n, top, e)
    ensures FrozenKept(g.edges, AppendedEdges(infos, g.edges, n, top, e))
  {
    hide FrozenKept, NodeMayMove, Moved, CumPerm, CumShared, ChildPerm;
    var x := NewChild(infos, g.edges, n, top, BackingRole(infos[n].driver.value)).(target := Some(top));
    NewFrozen(g.edges, e, x);
    MovedFrozen(g.edges, g.edges[e := x], top, n, true);
  }
}
