/**
  The graph operations of qemu/block.c on the one global block graph, which they
  change in place.  A transaction records how to undo what was done to the graph.
 */
module BlockLayer {
  import opened Wrappers
  import opened BlockGraph
  import opened BlockPerms
  import opened BlockAio
  import opened BlockUndo

  function NetRefs(refcnt: map<Node, int>, unrefs: multiset<Node>): map<Node, int> {
    map n | n in refcnt :: refcnt[n] - unrefs[n]
  }

  lemma NetRefsAdd(refcnt: map<Node, int>, unrefs: multiset<Node>, n: Node, k: int)
    requires n in refcnt
    ensures NetRefs(refcnt[n := refcnt[n] + k], unrefs) == AddRef(NetRefs(refcnt, unrefs), Some(n), k)
    ensures NetRefs(refcnt, unrefs + multiset{n}) == AddRef(NetRefs(refcnt, unrefs), Some(n), -1)
  {
  }

  class Transaction {
    var log: seq<Undo>

    constructor ()
      ensures log == []
    {
      log := [];
    }
  }

  class BlockLayer {
    const infos: Infos
    var edges: Edges
    var backing: map<Node, EdgeId>
    var file: map<Node, EdgeId>
    var ctx: map<Node, Ctx>
    var inherits: map<Node, Node>
    var refcnt: map<Node, int>
    var unrefs: multiset<Node>   // bdrv_schedule_unref
    var nextEdge: EdgeId         // every child so far has a smaller identity

    /** A graph of nodes without any children yet; who inherits options from whom is settled when a node is opened. */
    constructor (infos: Infos, ctx: map<Node, Ctx>, refcnt: map<Node, int>, inherits: map<Node, Node>)
      requires infos.Keys <= ctx.Keys && refcnt.Keys == infos.Keys && InheritsEnd(inherits)
      ensures this.infos == infos && edges == map[] && this.ctx == ctx && this.refcnt == refcnt
      ensures backing == map[] && file == map[] && this.inherits == inherits && nextEdge == 0
      ensures Ids() && Shape(infos, View()) && Acyclic(edges) && ConflictFree(edges) && InheritsEnd(this.inherits)
    {
      this.infos, this.ctx, this.refcnt, this.inherits := infos, ctx, refcnt, inherits;
      edges, backing, file, unrefs, nextEdge := map[], map[], map[], multiset{}, 0;
    }

    function View(): Graph
      reads this
    {
      Graph(edges, backing, file, ctx, inherits, NetRefs(refcnt, unrefs))
    }

    ghost predicate Ids()
      reads this
    {
      forall e | e in edges :: e < nextEdge
    }

    // -------------------------------------------------------- references

    /** bdrv_ref, bdrv_unref */
    method AddReference(n: Node, k: int)
      requires n in refcnt
      modifies this`refcnt
      ensures View() == old(View()).(refs := AddRef(old(View()).refs, Some(n), k))
    {
      NetRefsAdd(refcnt, unrefs, n, k);
      refcnt := refcnt[n := refcnt[n] + k];
    }

    /** bdrv_schedule_unref */
    method ScheduleUnref(n: Node)
      requires n in refcnt
      modifies this`unrefs
      ensures View() == old(View()).(refs := AddRef(old(View()).refs, Some(n), -1))
    {
      NetRefsAdd(refcnt, unrefs, n, -1);
      unrefs := unrefs + multiset{n};
    }

    // ---------------------------------------------- transactional changes

    /** bdrv_replace_child_noperm */
    method ReplaceNoperm(e: EdgeId, t: Option<Node>)
      requires e in edges && !edges[e].frozen && edges[e].target != t
      requires edges[e].target.Some? && t.Some? ==>
                 edges[e].target.value in ctx && t.value in ctx && ctx[edges[e].target.value] == ctx[t.value]
      modifies this`edges, this`backing, this`file
      ensures View() == Redirect(infos, old(View()), e, t)
    {
      var x := edges[e];
      if x.target.Some? {
        // .detach
        if x.owner in backing && backing[x.owner] == e { backing := backing - {x.owner}; }
        if x.owner in file && file[x.owner] == e { file := file - {x.owner}; }
      }
      edges := edges[e := x.(target := t)];
      if t.Some? {
        // .attach
        match SlotOf(infos, x)
        case BackingSlot => backing := backing[x.owner := e];
        case FileSlot => file := file[x.owner := e];
        case NoSlot =>
      }
    }

    /** bdrv_child_set_perm */
    method SetPermTran(e: EdgeId, perm: Perms, shared: Perms, tran: Transaction, ghost g0: Graph)
      requires InTran(infos, tran.log, View(), g0) && e in edges
      modifies this`edges, tran
      ensures edges == SetPerm(old(edges), e, perm, shared)
      ensures InTran(infos, tran.log, View(), g0) && old(tran.log) <= tran.log
    {
      PermStep(infos, tran.log, View(), g0, e, perm, shared);
      tran.log := tran.log + [UndoPerm(e, edges[e].perm, edges[e].shared)];
      edges := edges[e := edges[e].(perm := perm, shared := shared)];
    }

    /** bdrv_replace_child_tran */
    method ReplaceTran(e: EdgeId, t: Option<Node>, tran: Transaction, ghost g0: Graph)
      requires InTran(infos, tran.log, View(), g0) && MayReplace(infos, View(), e, t)
      modifies this`edges, this`backing, this`file, this`refcnt, tran
      ensures View() == Replaced(infos, old(View()), e, t)
      ensures InTran(infos, tran.log, View(), g0) && old(tran.log) <= tran.log
    {
      ReplaceStep(infos, tran.log, View(), g0, e, t);
      tran.log := tran.log + [UndoReplace(e, edges[e].target)];
      if t.Some? {
        AddReference(t.value, 1);
      }
      ReplaceNoperm(e, t);
    }

    /** bdrv_remove_child */
    method RemoveChild(e: EdgeId, tran: Transaction, ghost g0: Graph)
      requires InTran(infos, tran.log, View(), g0) && MayReplace(infos, View(), e, None)
      modifies this`edges, this`backing, this`file, this`refcnt, tran
      ensures View() == Replaced(infos, old(View()), e, None)
      ensures InTran(infos, tran.log, View(), g0) && old(tran.log) <= tran.log && Drop(e) in tran.log
    {
      ReplaceTran(e, None, tran, g0);
      DropStep(infos, tran.log, View(), g0, e);
      tran.log := tran.log + [Drop(e)];
    }

    /** bdrv_set_inherits_from */
    method SetInheritsTran(n: Node, from: Option<Node>, tran: Transaction, ghost g0: Graph)
      requires InTran(infos, tran.log, View(), g0)
      modifies this`inherits, tran
      ensures inherits == SetInherits(old(inherits), n, from)
      ensures InTran(infos, tran.log, View(), g0) && old(tran.log) <= tran.log
    {
      InheritsStep(infos, tran.log, View(), g0, n, from);
      tran.log := tran.log + [UndoInherits(n, if n in inherits then Some(inherits[n]) else None)];
      inherits := SetInherits(inherits, n, from);
    }

    /** The part of bdrv_attach_child_common that brings parent and child into one AioContext. */
    method AgreeOnCtx(n: Node, x: Edge) returns (ok: bool)
      requires Shape(infos, View()) && x.owner in ctx && n in infos
      requires x.owner in infos || forall d | d in Children(edges, x.owner) :: edges[d].movable
      modifies this`ctx
      ensures ok ==> AttachCtx(edges, old(ctx), x, n, ctx)
      ensures !ok ==> ctx == old(ctx)
      ensures !ok <==> old(ctx)[n] != old(ctx)[x.owner] && !CanMoveCtx(edges, old(ctx), n) &&
                       !(x.movable && CanMoveCtx(edges, old(ctx), x.owner))
    {
      var parentCtx, childCtx := ctx[x.owner], ctx[n];
      if childCtx == parentCtx {
        return true;
      }
      ok, ctx := TryChange(infos.Keys, edges, ctx, n, parentCtx);
      if !ok && x.movable {
        ok, ctx := TryChange(infos.Keys, edges, ctx, x.owner, childCtx);
      }
    }

    /** The part of bdrv_attach_child_common that puts the child into the graph. */
    method Link(n: Node, x: Edge) returns (e: EdgeId)
      requires Ids() && x.target.None? && !x.frozen && n in refcnt
      modifies this`edges, this`backing, this`file, this`refcnt, this`nextEdge
      ensures Ids() && e == old(nextEdge) && View() == WithChild(infos, old(View()), e, x, n, ctx)
    {
      e := nextEdge;
      nextEdge := nextEdge + 1;
      AddReference(n, 1);
      edges := edges[e := x];
      LinkedIsWithChild(infos, old(View()), e, x, n, ctx);
      ReplaceNoperm(e, Some(n));
    }

    /** bdrv_attach_child_common: the new child, or None with nothing changed. */
    method AttachCommon(n: Node, x: Edge, tran: Transaction, ghost g0: Graph) returns (r: Option<EdgeId>)
      requires InTran(infos, tran.log, View(), g0) && Ids()
      requires MayAttach(infos, View(), nextEdge, x, n)
      modifies this`edges, this`backing, this`file, this`ctx, this`refcnt, this`nextEdge, tran
      ensures Ids() && InTran(infos, tran.log, View(), g0) && old(tran.log) <= tran.log
      ensures r.None? ==> View() == old(View()) && tran.log == old(tran.log)
      ensures r.Some? ==>
                && r.value == old(nextEdge) && r.value !in old(edges)
                && AttachCtx(old(edges), old(ctx), x, n, ctx)
                && View() == WithChild(infos, old(View()), r.value, x, n, ctx)
      ensures r.None? <==>
                || (infos[n].inactive && !(x.perm <= {ConsistentRead}))
                || (old(ctx)[n] != old(ctx)[x.owner] && !CanMoveCtx(old(edges), old(ctx), n) &&
                    !(x.movable && CanMoveCtx(old(edges), old(ctx), x.owner)))
    {
      hide Tracks, Balanced, DropsOk, PointersOk, Uniform, CanMoveCtx, MoveCtx, Repoint, SlotOf;
      if infos[n].inactive && !(x.perm <= {ConsistentRead}) {
        return None;
      }
      var parentCtx, childCtx := ctx[x.owner], ctx[n];
      var ok := AgreeOnCtx(n, x);
      if !ok {
        return None;
      }
      var e := Link(n, x);
      AttachStep(infos, tran.log, old(View()), g0, e, x, n, ctx);
      tran.log := tran.log + [UndoAttach(e, parentCtx, childCtx)];
      r := Some(e);
    }

    // ---------------------------------------------------- abort and commit

    method RestoreCtx(n: Node, c: Ctx)
      requires Shape(infos, View()) && n in ctx && (ctx[n] != c ==> CanMoveCtx(edges, ctx, n))
      requires n in infos || forall d | d in Children(edges, n) :: edges[d].movable
      modifies this`ctx
      ensures Shape(infos, View()) && ctx == MoveCtx(edges, old(ctx), n, c)
    {
      if ctx[n] != c {
        var ok;
        ok, ctx := TryChange(infos.Keys, edges, ctx, n, c);
      }
    }

    method RestoreContexts(n: Node, childCtx: Ctx, owner: Node, parentCtx: Ctx)
      requires Shape(infos, View()) && n in infos && owner in ctx && (ctx[n] != childCtx ==> CanMoveCtx(edges, ctx, n))
      requires MoveCtx(edges, ctx, n, childCtx)[owner] != parentCtx ==>
                 CanMoveCtx(edges, MoveCtx(edges, ctx, n, childCtx), owner)
      requires owner in infos || forall d | d in Children(edges, owner) :: edges[d].movable
      modifies this`ctx
      ensures ctx == MoveCtx(edges, MoveCtx(edges, old(ctx), n, childCtx), owner, parentCtx)
    {
      RestoreCtx(n, childCtx);
      RestoreCtx(owner, parentCtx);
    }

    /** bdrv_attach_child_common_abort */
    method AttachAbort(e: EdgeId, parentCtx: Ctx, childCtx: Ctx)
      requires UndoPre(infos, UndoAttach(e, parentCtx, childCtx), View()) && Ids()
      modifies this
      ensures View() == UndoOne(infos, UndoAttach(e, parentCtx, childCtx), old(View())) && Ids()
    {
      hide PointersOk, Uniform, Over, Movables, SlotOf, Repoint, MoveCtx, CanMoveCtx, Children;
      var x := edges[e];
      var n := x.target.value;
      TargetIsNode(infos, View(), e);
      DetachedShape(infos, View(), e);
      ReplaceNoperm(e, None);
      assert edges == Detached(old(edges), e);
      DetachedChildren(infos, old(edges), edges, e);
      RestoreContexts(n, childCtx, x.owner, parentCtx);
      ScheduleUnref(n);
      edges := edges - {e};
    }

    /** The abort callback of one action. */
    method UndoAction(a: Undo)
      requires UndoPre(infos, a, View()) && Ids()
      modifies this
      ensures View() == UndoOne(infos, a, old(View())) && Ids()
    {
      match a {
        case UndoPerm(e, perm, shared) =>
          edges := SetPerm(edges, e, perm, shared);
        case UndoReplace(e, was) =>
          var bs := edges[e].target;
          ReplaceNoperm(e, was);
          if bs.Some? {
            AddReference(bs.value, -1);
          }
        case UndoAttach(e, parentCtx, childCtx) =>
          AttachAbort(e, parentCtx, childCtx);
        case UndoInherits(n, from) =>
          inherits := SetInherits(inherits, n, from);
        case Drop(_) =>
      }
    }

    /** tran_abort: the graph is as it was when the transaction began. */
    method Abort(tran: Transaction, ghost g0: Graph)
      requires Tracks(infos, tran.log, View(), g0) && Ids()
      modifies this, tran
      ensures View() == g0 && Ids()
    {
      while tran.log != []
        invariant Tracks(infos, tran.log, View(), g0) && Ids()
        decreases |tran.log|
      {
        var a := tran.log[|tran.log| - 1];
        tran.log := tran.log[..|tran.log| - 1];
        UndoAction(a);
      }
    }

    /** tran_commit */
    method Commit(tran: Transaction)
      requires Ids() && refcnt.Keys == infos.Keys && DropsOk(infos, tran.log, edges)
      modifies this, tran
      ensures View() == Committed(old(tran.log), old(View())) && Ids()
    {
      ghost var log := tran.log;
      var i := |tran.log|;
      while i > 0
        invariant 0 <= i <= |tran.log| && tran.log == log && Ids() && refcnt.Keys == infos.Keys
        invariant View() == Committed(log[i..], old(View()))
      {
        i := i - 1;
        CommitOne(log, i, old(View()));
        match tran.log[i] {
          case UndoReplace(_, was) =>
            ScheduleUnref(was.value);
          case Drop(e) =>
            edges := edges - {e};
          case _ =>
        }
      }
      assert log[0..] == log;
    }

    // --------------------------------------------------------- permissions

    /** bdrv_get_cumulative_perm */
    method GetCumulativePerm(n: Node) returns (perm: Perms, shared: Perms)
      ensures perm == CumPerm(edges, n) && shared == CumShared(edges, n)
    {
      perm, shared := {}, ALL_PERMS;
      var todo := Parents(edges, n);
      while todo != {}
        invariant todo <= Parents(edges, n)
        invariant perm == set e, p | e in Parents(edges, n) - todo && p in edges[e].perm :: p
        invariant shared == set p | p in ALL_PERMS && forall e | e in Parents(edges, n) - todo :: p in edges[e].shared
      {
        var c :| c in todo;
        todo := todo - {c};
        perm := perm + edges[c].perm;
        shared := shared * edges[c].shared;
      }
      assert Parents(edges, n) - todo == Parents(edges, n);
    }

    /** bdrv_parent_perms_conflict */
    method ParentPermsConflict(n: Node) returns (conflict: bool)
      ensures conflict <==> !NoConflict(edges, n)
    {
      var todo := Parents(edges, n);
      while todo != {}
        invariant todo <= Parents(edges, n)
        invariant forall a, b | a in Parents(edges, n) - todo && b in Parents(edges, n) && a != b ::
                    edges[b].perm <= edges[a].shared
      {
        var a :| a in todo;
        todo := todo - {a};
        var rest := Parents(edges, n);
        while rest != {}
          invariant rest <= Parents(edges, n)
          invariant forall b | b in Parents(edges, n) - rest && a != b :: edges[b].perm <= edges[a].shared
        {
          var b :| b in rest;
          rest := rest - {b};
          if a != b && !(edges[b].perm <= edges[a].shared) {
            return true;
          }
        }
      }
      return false;
    }

    /** bdrv_topological_dfs: puts the subtree of `n` in front of a sorted, child-closed list.  `found` holds the listed
        nodes and those whose subtree is still being collected. */
    method TopologicalDfs(list: seq<Node>, found: set<Node>, n: Node) returns (list': seq<Node>, found': set<Node>)
      requires Over(edges, ctx.Keys) && Acyclic(edges) && n in ctx
      requires TopoSorted(edges, list) && Elements(list) <= found
      requires AllAbove(edges, ctx.Keys, found - Elements(list), n)
      ensures n in Elements(list') && Extends(edges, n, list, found, list', found')
      decreases |ctx.Keys - found|
    {
      hide Reach, Acyclic, TopoSorted;
      if n in found {
        ExtendsNothing(edges, n, list, found);
        NotAboveItself(edges, ctx.Keys, found - Elements(list), n);
        return list, found;
      }
      list', found' := list, found + {n};
      ExtendsNothing(edges, n, list, found');
      var todo := Children(edges, n);
      while todo != {}
        invariant todo <= Children(edges, n)
        invariant Extends(edges, n, list, found + {n}, list', found')
        invariant forall c | c in Children(edges, n) && c !in todo :: edges[c].target.value in Elements(list')
      {
        var c :| c in todo;
        todo := todo - {c};
        SubsetSize(ctx.Keys - found', ctx.Keys - found);
        ChildPrecondition(edges, ctx.Keys, list, found, n, c, list', found');
        ghost var l, f := list', found';
        list', found' := TopologicalDfs(list', found', edges[c].target.value);
        ExtendsChild(edges, n, c, list, found + {n}, l, f, list', found');
      }
      FinishDfs(edges, n, list, found, list', found');
      list' := [n] + list';
    }

    /** bdrv_node_refresh_perm */
    method NodeRefreshPerm(n: Node, tran: Transaction, ghost g0: Graph) returns (ok: bool)
      requires InTran(infos, tran.log, View(), g0) && n in infos && NoChild(edges, n, n)
      modifies this`edges, tran
      ensures InTran(infos, tran.log, View(), g0) && old(tran.log) <= tran.log && SameOutside(old(edges), edges, {n})
      ensures ok <==> Allowed(infos, old(edges), n)
      ensures ok ==> Fresh(infos, edges, n) && SameParents(old(edges), edges, n)
      ensures !ok || infos[n].driver.None? ==> edges == old(edges)
    {
      var perm, shared := GetCumulativePerm(n);
      if UsesWrite(perm) && !infos[n].writable {
        return false;
      }
      if UsesWrite(perm) && Resize !in perm && !infos[n].sizeAligned {
        return false;
      }
      if infos[n].driver.None? {
        return true;
      }
      var d := infos[n].driver.value;
      if !d.checkPerm(perm, shared) {
        return false;
      }
      RefreshChildren(n, d, perm, shared, tran, g0);
      RefreshedFresh(infos, old(edges), n, d);
      return true;
    }

    /** The loop of bdrv_node_refresh_perm over the children. */
    method RefreshChildren(n: Node, d: Driver, perm: Perms, shared: Perms, tran: Transaction, ghost g0: Graph)
      requires InTran(infos, tran.log, View(), g0)
      modifies this`edges, tran
      ensures InTran(infos, tran.log, View(), g0) && old(tran.log) <= tran.log
      ensures edges == Refreshed(infos, old(edges), d, perm, shared, Children(old(edges), n))
    {
      hide InTran, ChildPerm;
      ghost var all := Children(edges, n);
      var todo := Children(edges, n);
      assert edges == Refreshed(infos, edges, d, perm, shared, {});
      while todo != {}
        invariant todo <= all && InTran(infos, tran.log, View(), g0) && old(tran.log) <= tran.log
        invariant edges == Refreshed(infos, old(edges), d, perm, shared, all - todo)
      {
        var c :| c in todo;
        RefreshedStep(infos, old(edges), d, perm, shared, all - todo, c);
        assert all - (todo - {c}) == (all - todo) + {c};
        todo := todo - {c};
        var (p, s) := ChildPerm(infos, d, Some(c), edges[c].target.value, edges[c].role, perm, shared);
        SetPermTran(c, p, s, tran, g0);
      }
      assert all - todo == all;
    }

    /** bdrv_do_refresh_perms: on a sorted list it succeeds exactly when the listed nodes can be settled, and then it has
        settled them. */
    method DoRefreshPerms(list: seq<Node>, tran: Transaction, ghost g0: Graph) returns (ok: bool)
      requires InTran(infos, tran.log, View(), g0) && TopoSorted(edges, list) && forall n | n in list :: n in infos
      modifies this`edges, tran
      ensures InTran(infos, tran.log, View(), g0) && old(tran.log) <= tran.log
      ensures SameOutside(old(edges), edges, Elements(list))
      ensures ok ==> Settled(infos, old(edges), list, edges)
      ensures !ok ==> forall sol :: !Settled(infos, old(edges), list, sol)
    {
      hide InTran;
      ghost var e0 := edges;
      var i := 0;
      while i < |list|
        invariant 0 <= i <= |list| && InTran(infos, tran.log, View(), g0) && old(tran.log) <= tran.log
        invariant Progress(infos, e0, list, i, edges)
      {
        SortedNoChild(e0, list, i, i);
        ProgressSorted(infos, e0, list, i, edges);
        ghost var cur := edges;
        var conflict := ParentPermsConflict(list[i]);
        if conflict {
          Hopeless(infos, e0, list, i, cur);
          return false;
        }
        ok := NodeRefreshPerm(list[i], tran, g0);
        if !ok {
          Hopeless(infos, e0, list, i, cur);
          return false;
        }
        ProgressStep(infos, e0, list, i, cur, edges);
        i := i + 1;
      }
      assert list[..i] == list;
      return true;
    }

    /** The loop of bdrv_list_refresh_perms: the union of the subtrees of the roots, sorted. */
    method CollectSubtrees(roots: seq<Node>) returns (list: seq<Node>)
      requires Over(edges, ctx.Keys) && Acyclic(edges) && forall n | n in roots :: n in ctx
      ensures TopoSorted(edges, list) && IsSubtrees(edges, roots, Elements(list))
    {
      hide Reach, TopoSorted, Acyclic;
      list := [];
      var found: set<Node> := {};
      SubtreesEmpty(edges);
      var i := 0;
      while i < |roots|
        invariant 0 <= i <= |roots| && TopoSorted(edges, list) && found == Elements(list)
        invariant IsSubtrees(edges, roots[..i], Elements(list))
      {
        assert found - Elements(list) == {} && roots[i] in roots;
        ghost var l := list;
        list, found := TopologicalDfs(list, found, roots[i]);
        SubtreesStep(edges, roots, i, l, list);
        i := i + 1;
      }
      assert roots[..i] == roots;
    }

    /** bdrv_list_refresh_perms; bdrv_refresh_perms is the case of a single root.  The nodes that are refreshed are
        exactly those that can be reached from the roots. */
    method ListRefreshPerms(roots: seq<Node>, tran: Transaction, ghost g0: Graph) returns (ok: bool, ghost list: seq<Node>)
      requires InTran(infos, tran.log, View(), g0) && Acyclic(edges) && forall n | n in roots :: n in infos
      modifies this`edges, tran
      ensures InTran(infos, tran.log, View(), g0) && old(tran.log) <= tran.log
      ensures TopoSorted(old(edges), list) && IsSubtrees(old(edges), roots, Elements(list))
      ensures SameOutside(old(edges), edges, Elements(list))
      ensures ok ==> Settled(infos, old(edges), list, edges)
      ensures !ok ==> forall sol :: !Settled(infos, old(edges), list, sol)
    {
      hide Tracks, Balanced, DropsOk, PointersOk, Uniform, Acyclic, TopoSorted, IsSubtrees, SameOutside, Settled;
      var refresh := CollectSubtrees(roots);
      SubtreesAreNodes(infos, edges, roots, refresh);
      list := refresh;
      ok := DoRefreshPerms(refresh, tran, g0);
    }

    // ------------------------------------------------------ reachability

    /** One round of the search: queues the children of `v` that are new, unless it meets the link itself. */
    method VisitChildren(c: EdgeId, v: Node, found: set<Node>, queue: seq<Node>, ghost to: Node)
      returns (hit: bool, found': set<Node>, queue': seq<Node>)
      requires Over(edges, ctx.Keys) && found <= ctx.Keys && Reach(edges, to, v)
      requires forall n | n in found :: Reach(edges, to, n)
      ensures found <= found' <= ctx.Keys && Elements(queue') == Elements(queue) + (found' - found)
      ensures forall n | n in found' :: Reach(edges, to, n)
      ensures found' == found ==> queue' == queue
      ensures hit <==> c in Children(edges, v)
      ensures !hit ==> forall e | e in Children(edges, v) :: edges[e].target.value in found'
    {
      found', queue' := found, queue;
      var todo := Children(edges, v);
      while todo != {}
        invariant todo <= Children(edges, v) && (c in Children(edges, v) ==> c in todo)
        invariant found <= found' <= ctx.Keys && Elements(queue') == Elements(queue) + (found' - found)
        invariant forall n | n in found' :: Reach(edges, to, n)
        invariant found' == found ==> queue' == queue
        invariant forall e | e in Children(edges, v) && e !in todo :: edges[e].target.value in found'
      {
        var c2 :| c2 in todo;
        todo := todo - {c2};
        if c2 == c {
          return true, found', queue';
        }
        var t := edges[c2].target.value;
        if t in found' {
          continue;
        }
        ReachEdge(edges, to, c2);
        assert Elements(queue' + [t]) == Elements(queue') + {t};
        queue' := queue' + [t];
        found' := found' + {t};
      }
      return false, found', queue';
    }

    /** The breadth-first search of should_update_child: the link may be changed unless its class stays at its node or its
        owner can be reached from the replacement. */
    method ShouldUpdateChild(c: EdgeId, to: Node) returns (r: bool)
      requires Attached(edges, c) && Over(edges, ctx.Keys) && to in ctx
      ensures r <==> !edges[c].stays && !Reach(edges, to, edges[c].owner)
    {
      if edges[c].stays {
        return false;
      }
      hide Reach, Elements, Children;
      SelfReach(edges, to);
      r := true;
      var found, queue := {to}, [to];
      ElementsHead(queue);
      ElementsEmpty();
      ghost var done: set<Node> := {};
      while queue != []
        invariant found <= ctx.Keys && to in found && found == done + Elements(queue)
        invariant forall n | n in found :: Reach(edges, to, n)
        invariant r ==> forall v, e | v in done && e in Children(edges, v) :: edges[e].target.value in found && e != c
        invariant !r ==> Reach(edges, to, edges[c].owner)
        decreases |ctx.Keys - found|, |queue|
      {
        var v := queue[0];
        ElementsHead(queue);
        ghost var before, rest := found, queue[1..];
        var hit;
        hit, found, queue := VisitChildren(c, v, found, queue[1..], to);
        SearchRound(ctx.Keys, before, done, v, Elements(rest), found, Elements(queue));
        done := done + {v};
        if hit {
          r := false;
        }
      }
      ElementsEmpty();
      if r {
        NotReached(edges, to, found, c);
      }
    }
  }

  /** The first i listed nodes are settled, and nothing else has changed. */
  ghost predicate Progress(infos: Infos, e0: Edges, list: seq<Node>, i: nat, cur: Edges)
    requires i <= |list|
  {
    && SameLinks(e0, cur) && SameOutside(e0, cur, Elements(list))
    && (forall e | e in e0 && !Decided(infos, e0, Elements(list[..i]), e) :: cur[e] == e0[e])
    && forall j | 0 <= j < i :: list[j] in infos && SettledNode(infos, cur, list[j])
  }

  lemma ProgressSorted(infos: Infos, e0: Edges, list: seq<Node>, i: nat, cur: Edges)
    requires TopoSorted(e0, list) && i < |list| && Progress(infos, e0, list, i, cur)
    ensures forall j | 0 <= j <= i :: NoChild(cur, list[i], list[j])
    ensures forall j | 0 <= j < i :: list[j] != list[i]
  {
    SameLinksParents(e0, cur, list[i]);
    forall j | 0 <= j <= i ensures NoChild(cur, list[i], list[j]) {
      SortedNoChild(e0, list, j, i);
    }
  }

  lemma NowSettled(infos: Infos, cur: Edges, next: Edges, n: Node)
    requires n in infos && NoConflict(cur, n) && Allowed(infos, cur, n) && Fresh(infos, next, n) && SameParents(cur, next, n)
    ensures SettledNode(infos, next, n)
  {
    SameParentsSameCum(cur, next, n);
  }

  lemma ProgressStep(infos: Infos, e0: Edges, list: seq<Node>, i: nat, cur: Edges, next: Edges)
    requires TopoSorted(e0, list) && i < |list| && Progress(infos, e0, list, i, cur) && list[i] in infos
    requires SameOutside(cur, next, {list[i]}) && (infos[list[i]].driver.None? ==> next == cur)
    requires NoConflict(cur, list[i]) && Allowed(infos, cur, list[i]) && Fresh(infos, next, list[i])
    requires SameParents(cur, next, list[i])
    ensures Progress(infos, e0, list, i + 1, next)
  {
    hide Fresh, NoChild, Children, Parents, TopoSorted;
    ProgressSorted(infos, e0, list, i, cur);
    NowSettled(infos, cur, next, list[i]);
    hide SettledNode;
    assert Elements(list[..i + 1]) == Elements(list[..i]) + {list[i]};
    forall j | 0 <= j < i ensures SettledNode(infos, next, list[j]) {
      StaysSettled(infos, cur, next, list[i], list[j]);
    }
  }

  /** A node that is refused after its predecessors have been settled is refused in every settled graph. */
  lemma Hopeless(infos: Infos, e0: Edges, list: seq<Node>, i: nat, cur: Edges)
    requires TopoSorted(e0, list) && i < |list| && Progress(infos, e0, list, i, cur) && list[i] in infos
    requires !NoConflict(cur, list[i]) || !Allowed(infos, cur, list[i])
    ensures forall sol :: !Settled(infos, e0, list, sol)
  {
    assert list[i] in list;
    forall sol ensures !Settled(infos, e0, list, sol) {
      if Settled(infos, e0, list, sol) {
        FreshAgrees(infos, e0, cur, sol, list, i, i);
        SameParentsSameCum(cur, sol, list[i]);
      }
    }
  }

  /** Every node of `s` lies strictly higher than `n`. */
  ghost predicate AllAbove(edges: Edges, nodes: set<Node>, s: set<Node>, n: Node) {
    forall m | m in s :: Rank(edges, nodes, m) > Rank(edges, nodes, n)
  }

  lemma NotAboveItself(edges: Edges, nodes: set<Node>, s: set<Node>, n: Node)
    requires AllAbove(edges, nodes, s, n)
    ensures n !in s
  {
  }

  /** `list'` is sorted and child-closed and adds to `list` only new nodes that can be reached from `n`. */
  ghost predicate Extends(edges: Edges, n: Node, list: seq<Node>, found: set<Node>, list': seq<Node>, found': set<Node>) {
    && TopoSorted(edges, list') && found' == found + Elements(list')
    && Elements(list) <= Elements(list') && Elements(list') * found == Elements(list)
    && forall m | m in Elements(list') - Elements(list) :: Reach(edges, n, m)
  }

  lemma ExtendsNothing(edges: Edges, n: Node, list: seq<Node>, found: set<Node>)
    requires TopoSorted(edges, list) && Elements(list) <= found
    ensures Extends(edges, n, list, found, list, found)
  {
  }

  lemma ExtendsChild(edges: Edges, n: Node, c: EdgeId, list: seq<Node>, found: set<Node>, l: seq<Node>, f: set<Node>,
                     list': seq<Node>, found': set<Node>)
    requires c in Children(edges, n) && Extends(edges, n, list, found, l, f)
    requires Extends(edges, edges[c].target.value, l, f, list', found')
    ensures Extends(edges, n, list, found, list', found')
  {
    var t := edges[c].target.value;
    assert Reach(edges, n, n);
    ReachEdge(edges, n, c);
    forall m | m in Elements(list') - Elements(list) ensures Reach(edges, n, m) {
      if m !in Elements(l) { ReachTrans(edges, n, t, m); }
    }
  }

  lemma ChildPrecondition(edges: Edges, nodes: set<Node>, list: seq<Node>, found: set<Node>, n: Node, c: EdgeId,
                          l: seq<Node>, f: set<Node>)
    requires Over(edges, nodes) && Acyclic(edges) && n in nodes && c in Children(edges, n)
    requires AllAbove(edges, nodes, found - Elements(list), n)
    requires Extends(edges, n, list, found + {n}, l, f)
    ensures AllAbove(edges, nodes, f - Elements(l), edges[c].target.value)
  {
    RankFalls(edges, nodes, c);
  }

  lemma FinishDfs(edges: Edges, n: Node, list: seq<Node>, found: set<Node>, l: seq<Node>, f: set<Node>)
    requires n !in found && Elements(list) <= found && Extends(edges, n, list, found + {n}, l, f)
    requires forall c | c in Children(edges, n) :: edges[c].target.value in Elements(l)
    ensures Extends(edges, n, list, found, [n] + l, f)
  {
    assert n !in Elements(l);
    SortedCons(edges, n, l);
    assert Elements([n] + l) == Elements(l) + {n};
  }

  lemma SortedCons(edges: Edges, n: Node, list: seq<Node>)
    requires TopoSorted(edges, list) && n !in list
    requires forall c | c in Children(edges, n) :: edges[c].target.value in list
    ensures TopoSorted(edges, [n] + list)
  {
    var all := [n] + list;
    assert all[1..] == list;
    forall i, e | 0 <= i < |all| && e in Children(edges, all[i]) ensures edges[e].target.value in all[i + 1..] {
      if i > 0 {
        assert all[i] == list[i - 1] && all[i + 1..] == list[i..];
      }
    }
  }

  lemma LinkedIsWithChild(infos: Infos, g: Graph, e: EdgeId, x: Edge, n: Node, ctx: map<Node, Ctx>)
    ensures Redirect(infos, Graph(g.edges[e := x], g.backing, g.file, ctx, g.inherits, AddRef(g.refs, Some(n), 1)), e,
                     Some(n)) == WithChild(infos, g, e, x, n, ctx)
  {
    assert g.edges[e := x][e := x.(target := Some(n))] == g.edges[e := x.(target := Some(n))];
  }

  /** The commit callback of one action. */
  function CommitAction(a: Undo, g: Graph): Graph {
    match a
    case UndoReplace(_, was) => g.(refs := AddRef(g.refs, was, -1))
    case Drop(e) => g.(edges := g.edges - {e})
    case _ => g
  }

  lemma {:induction false} HeldCons(a: Undo, log: seq<Undo>, n: Node)
    ensures Held([a] + log, n) == Held(log, n) + (if a.UndoReplace? && a.was == Some(n) then 1 else 0)
  {
    if log == [] {
      assert [a] + log == [] + [a];
      HeldSnoc([], a, n);
    } else {
      var init, last := log[..|log| - 1], log[|log| - 1];
      assert log == init + [last] && [a] + log == ([a] + init) + [last];
      HeldCons(a, init, n);
      HeldSnoc([a] + init, last, n);
      HeldSnoc(init, last, n);
    }
  }

  lemma DroppedCons(a: Undo, log: seq<Undo>)
    ensures Dropped([a] + log) == if a.Drop? then Dropped(log) + {a.e} else Dropped(log)
  {
    var all := [a] + log;
    assert all[0] == a;
    forall e: EdgeId ensures e in Dropped(log) ==> e in Dropped(all) {
      if e in Dropped(log) {
        var k :| 0 <= k < |log| && log[k].Drop? && log[k].e == e;
        assert all[k + 1] == log[k];
      }
    }
  }

  lemma CommitRefs(a: Undo, log: seq<Undo>, g: Graph)
    ensures Committed([a] + log, g).refs == CommitAction(a, Committed(log, g)).refs
  {
    forall n: Node ensures Held([a] + log, n) == Held(log, n) + (if a.UndoReplace? && a.was == Some(n) then 1 else 0) {
      HeldCons(a, log, n);
    }
  }

  lemma CommitOne(log: seq<Undo>, i: nat, g: Graph)
    requires i < |log|
    ensures Committed(log[i..], g) == CommitAction(log[i], Committed(log[i + 1..], g))
  {
    assert log[i..] == [log[i]] + log[i + 1..];
    CommitRefs(log[i], log[i + 1..], g);
    DroppedCons(log[i], log[i + 1..]);
    assert Committed(log[i..], g).edges == CommitAction(log[i], Committed(log[i + 1..], g)).edges;
  }

  /** A graph whose child `e` has been detached. */
  lemma DetachedShape(infos: Infos, g: Graph, e: EdgeId)
    requires Shape(infos, g) && Attached(g.edges, e)
    ensures Shape(infos, Redirect(infos, g, e, None))
  {
    RedirectPointers(infos, g, e, None);
    var g' := Redirect(infos, g, e, None);
    forall d | Attached(g'.edges, d) ensures Attached(g.edges, d) && g'.edges[d] == g.edges[d] {
    }
  }

  /** The owner of a child that may move has no child that refuses. */
  lemma DetachedChildren(infos: Infos, edges: Edges, edges': Edges, e: EdgeId)
    requires Movables(infos.Keys, edges) && Attached(edges, e) && edges' == edges[e := edges[e].(target := None)]
    ensures edges[e].owner in infos || forall d | d in Children(edges', edges[e].owner) :: edges'[d].movable
  {
  }

  lemma SelfReach(edges: Edges, n: Node)
    ensures Reach(edges, n, n)
  {
  }

  /** A search that found `s` and never met link `c`. */
  lemma NotReached(edges: Edges, n: Node, s: set<Node>, c: EdgeId)
    requires n in s && Attached(edges, c)
    requires forall v, e | v in s && e in Children(edges, v) :: edges[e].target.value in s && e != c
    ensures !Reach(edges, n, edges[c].owner)
  {
    forall e | Attached(edges, e) && edges[e].owner in s ensures edges[e].target.value in s {
      assert e in Children(edges, edges[e].owner);
    }
    assert ChildClosed(edges, s) && c in Children(edges, edges[c].owner);
  }

  lemma ElementsHead(q: seq<Node>)
    requires q != []
    ensures Elements(q) == {q[0]} + Elements(q[1..])
  {
  }

  lemma ElementsEmpty()
    ensures Elements([]) == {}
  {
  }

  lemma SearchRound(all: set<Node>, found: set<Node>, done: set<Node>, v: Node, rest: set<Node>, found': set<Node>,
                    queue': set<Node>)
    requires found == done + ({v} + rest) && found <= found' <= all && queue' == rest + (found' - found)
    ensures found' == (done + {v}) + queue'
    ensures |all - found'| <= |all - found| && (found' != found ==> |all - found'| < |all - found|)
  {
    SubsetSize(all - found', all - found);
    assert found' != found ==> exists x :: x in found' - found;
  }

  ghost predicate FromRoots(edges: Edges, roots: seq<Node>, m: Node) {
    exists k :: 0 <= k < |roots| && Reach(edges, roots[k], m)
  }

  /** `s` is the union of the subtrees of the roots. */
  ghost predicate IsSubtrees(edges: Edges, roots: seq<Node>, s: set<Node>) {
    forall m: Node :: m in s <==> FromRoots(edges, roots, m)
  }

  lemma SubtreesEmpty(edges: Edges)
    ensures TopoSorted(edges, []) && IsSubtrees(edges, [], Elements([]))
  {
  }

  /** A sorted list that extends the subtrees of the first i roots by nodes below the next root, which it contains. */
  lemma SubtreesStep(edges: Edges, roots: seq<Node>, i: nat, l: seq<Node>, list: seq<Node>)
    requires i < |roots| && IsSubtrees(edges, roots[..i], Elements(l)) && TopoSorted(edges, list)
    requires Elements(l) <= Elements(list) && roots[i] in Elements(list)
    requires forall m | m in Elements(list) - Elements(l) :: Reach(edges, roots[i], m)
    ensures IsSubtrees(edges, roots[..i + 1], Elements(list))
  {
    SortedClosed(edges, list);
    forall m: Node ensures m in Elements(list) <==> FromRoots(edges, roots[..i + 1], m) {
      if m in Elements(list) {
        if m in Elements(l) {
          var k :| 0 <= k < |roots[..i]| && Reach(edges, roots[..i][k], m);
          assert roots[..i + 1][k] == roots[..i][k];
        } else {
          assert roots[..i + 1][i] == roots[i];
        }
      } else if FromRoots(edges, roots[..i + 1], m) {
        var k :| 0 <= k < |roots[..i + 1]| && Reach(edges, roots[..i + 1][k], m);
        if k < i {
          assert roots[..i][k] == roots[..i + 1][k];
          assert FromRoots(edges, roots[..i], m);
        }
      }
    }
  }

  lemma SortedClosed(edges: Edges, list: seq<Node>)
    requires TopoSorted(edges, list)
    ensures ChildClosed(edges, Elements(list))
  {
    forall e | Attached(edges, e) && edges[e].owner in Elements(list)
      ensures edges[e].target.value in Elements(list)
    {
      var i :| 0 <= i < |list| && list[i] == edges[e].owner;
      assert e in Children(edges, list[i]);
    }
  }

  lemma SubtreesAreNodes(infos: Infos, edges: Edges, roots: seq<Node>, list: seq<Node>)
    requires IsSubtrees(edges, roots, Elements(list)) && Movables(infos.Keys, edges) && forall n | n in roots :: n in infos
    ensures forall n | n in list :: n in infos
  {
    assert ChildClosed(edges, infos.Keys);
    forall n | n in list ensures n in infos {
      assert n in Elements(list);
      assert FromRoots(edges, roots, n);
      var k :| 0 <= k < |roots| && Reach(edges, roots[k], n);
      assert roots[k] in roots;
    }
  }
}
