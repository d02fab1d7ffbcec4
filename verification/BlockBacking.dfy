/**
  bdrv_set_backing_hd of qemu/block.c: replacing the backing child of a node, and the
  inherits_from pointers that have to go with the old one.
 */
module BlockBacking {
  import opened Wrappers
  import opened BlockGraph
  import opened BlockPerms
  import opened BlockAio
  import opened BlockUndo
  import opened BlockLayer
  import opened BlockOps

  // --------------------------------------------------------- inherits_from

  /** Nodes below child `e` that `root` has no other link to. */
  ghost function Losing(edges: Edges, nodes: set<Node>, root: Node, e: EdgeId): set<Node>
    requires Attached(edges, e)
  {
    set m | m in nodes && Reach(edges, edges[e].target.value, m) && OnlyLink(edges, root, e, m)
  }

  ghost predicate OnlyLink(edges: Edges, root: Node, e: EdgeId, m: Node) {
    forall d | Links(edges, d, root, m) :: d == e
  }

  /** The nodes of `s` no longer inherit from `root`. */
  ghost function Disinherit(inherits: map<Node, Node>, root: Node, s: set<Node>): map<Node, Node> {
    map m | m in inherits && !(m in s && inherits[m] == root) :: inherits[m]
  }

  lemma DisinheritTwice(inherits: map<Node, Node>, root: Node, s: set<Node>, t: set<Node>)
    ensures Disinherit(Disinherit(inherits, root, s), root, t) == Disinherit(inherits, root, s + t)
  {
  }

  lemma LosingBelow(edges: Edges, nodes: set<Node>, root: Node, e: EdgeId, c: EdgeId)
    requires Acyclic(edges) && Attached(edges, e) && Reach(edges, root, edges[e].owner)
    requires c in Children(edges, edges[e].target.value)
    ensures Losing(edges, nodes, root, c) <= Losing(edges, nodes, root, e)
  {
    var n := edges[e].target.value;
    assert n != root;
    assert Reach(edges, n, n);
    ReachEdge(edges, n, c);
    forall m | m in Losing(edges, nodes, root, c) ensures m in Losing(edges, nodes, root, e) {
      ReachTrans(edges, n, edges[c].target.value, m);
      assert OnlyLink(edges, root, c, m);
      assert !Links(edges, c, root, m);
    }
  }

  /** Who loses the pointer is the child's node itself, or a node that one of its children makes lose it. */
  lemma LosingCases(edges: Edges, nodes: set<Node>, root: Node, e: EdgeId, m: Node)
    requires Over(edges, nodes) && Attached(edges, e) && m in Losing(edges, nodes, root, e)
    ensures m == edges[e].target.value ||
            exists c :: c in Children(edges, edges[e].target.value) && m in Losing(edges, nodes, root, c)
  {
    var n := edges[e].target.value;
    if m != n {
      RecurseReach(edges, nodes, n, m);
      var c :| c in Children(edges, n) && Reach(edges, edges[c].target.value, m);
      assert !Links(edges, e, root, m) && OnlyLink(edges, root, e, m);
      assert m in Losing(edges, nodes, root, c);
    }
  }

  method DisinheritNode(b: BlockLayer, root: Node, e: EdgeId, tran: Transaction, ghost g0: Graph)
    requires InTran(b.infos, tran.log, b.View(), g0) && Attached(b.edges, e)
    modifies b`inherits, tran
    ensures InTran(b.infos, tran.log, b.View(), g0) && old(tran.log) <= tran.log
    ensures var n := b.edges[e].target.value;
            b.inherits == Disinherit(old(b.inherits), root, if OnlyLink(b.edges, root, e, n) then {n} else {})
  {
    hide InTran;
    var n := b.edges[e].target.value;
    if n in b.inherits && b.inherits[n] == root {
      if exists c :: c in Children(b.edges, root) && c != e && b.edges[c].target == Some(n) {
        ghost var c :| c in Children(b.edges, root) && c != e && b.edges[c].target == Some(n);
        assert Links(b.edges, c, root, n);
      } else {
        b.SetInheritsTran(n, None, tran, g0);
      }
    }
  }

  /** bdrv_unset_inherits_from */
  method UnsetInherits(b: BlockLayer, root: Node, e: EdgeId, tran: Transaction, ghost g0: Graph)
    requires InTran(b.infos, tran.log, b.View(), g0) && Over(b.edges, b.ctx.Keys) && Acyclic(b.edges)
    requires Attached(b.edges, e) && Reach(b.edges, root, b.edges[e].owner)
    modifies b`inherits, tran
    ensures InTran(b.infos, tran.log, b.View(), g0) && old(tran.log) <= tran.log
    ensures b.inherits == Disinherit(old(b.inherits), root, Losing(b.edges, b.ctx.Keys, root, e))
    decreases Rank(b.edges, b.ctx.Keys, b.edges[e].target.value)
  {
    hide InTran, Acyclic, Reach, Disinherit, Losing;
    var n := b.edges[e].target.value;
    ghost var all := Losing(b.edges, b.ctx.Keys, root, e);
    ghost var gone := if OnlyLink(b.edges, root, e, n) then {n} else {};
    DisinheritNode(b, root, e, tran, g0);
    LosingSelf(b.edges, b.ctx.Keys, root, e);
    ReachEdge(b.edges, root, e);
    var todo := Children(b.edges, n);
    while todo != {}
      invariant todo <= Children(b.edges, n) && gone <= all
      invariant InTran(b.infos, tran.log, b.View(), g0) && old(tran.log) <= tran.log
      invariant b.inherits == Disinherit(old(b.inherits), root, gone)
      invariant n in all ==> n in gone
      invariant forall c | c in Children(b.edges, n) && c !in todo :: Losing(b.edges, b.ctx.Keys, root, c) <= gone
    {
      var c :| c in todo;
      todo := todo - {c};
      RankFalls(b.edges, b.ctx.Keys, c);
      LosingBelow(b.edges, b.ctx.Keys, root, e, c);
      DisinheritTwice(old(b.inherits), root, gone, Losing(b.edges, b.ctx.Keys, root, c));
      UnsetInherits(b, root, c, tran, g0);
      gone := gone + Losing(b.edges, b.ctx.Keys, root, c);
    }
    forall m | m in all ensures m in gone {
      LosingCases(b.edges, b.ctx.Keys, root, e, m);
    }
    assert gone == all;
  }

  lemma LosingSelf(edges: Edges, nodes: set<Node>, root: Node, e: EdgeId)
    requires Over(edges, nodes) && Attached(edges, e)
    ensures edges[e].target.value in Losing(edges, nodes, root, e) <==> OnlyLink(edges, root, e, edges[e].target.value)
  {
    assert Reach(edges, edges[e].target.value, edges[e].target.value);
  }

  // ------------------------------------------------ following the pointers

  ghost predicate FollowClosed(inherits: map<Node, Node>, s: set<Node>) {
    forall n | n in s && n in inherits :: inherits[n] in s
  }

  /** Following inherits_from from `a` comes to `b`. */
  ghost predicate Follows(inherits: map<Node, Node>, a: Node, b: Node) {
    forall s | a in s && FollowClosed(inherits, s) :: b in s
  }

  lemma FollowsNext(inherits: map<Node, Node>, a: Node, b: Node)
    requires Follows(inherits, a, b) && b in inherits
    ensures Follows(inherits, a, inherits[b])
  {
  }

  lemma FollowsFirst(inherits: map<Node, Node>, a: Node, b: Node)
    requires Follows(inherits, a, b) && a != b
    ensures a in inherits && Follows(inherits, inherits[a], b)
  {
    assert a !in inherits ==> FollowClosed(inherits, {a});
    forall s | inherits[a] in s && FollowClosed(inherits, s) ensures b in s {
      assert FollowClosed(inherits, s + {a});
    }
  }

  /** bdrv_inherits_from_recursive: it ends because the pointers never come back. */
  method InheritsFromRecursive(inherits: map<Node, Node>, child: Option<Node>, parent: Node) returns (r: bool)
    requires InheritsEnd(inherits)
    ensures r <==> child.Some? && Follows(inherits, child.value, parent)
  {
    hide Follows, InheritsEnd;
    if child.Some? { FollowsSelf(inherits, child.value); }
    var cur := child;
    ghost var seen: set<Node> := {};
    while cur.Some? && cur.value != parent
      invariant seen <= inherits.Keys && parent !in seen
      invariant cur.Some? ==> child.Some? && (child.value in seen || cur == child)
      invariant cur.Some? ==> Follows(inherits, child.value, cur.value)
      invariant cur.Some? ==> forall n | n in seen :: inherits[n] in seen || inherits[n] == cur.value
      invariant cur.None? && child.Some? ==> !Follows(inherits, child.value, parent)
      decreases cur.Some?, |inherits.Keys - seen|
    {
      var n := cur.value;
      NotSeen(inherits, seen, n);
      if n in inherits {
        FollowsNext(inherits, child.value, n);
        assert inherits.Keys - seen == (inherits.Keys - (seen + {n})) + {n};
        seen := seen + {n};
        cur := Some(inherits[n]);
      } else {
        DeadEnd(inherits, seen, child.value, n, parent);
        cur := None;
      }
    }
    r := cur.Some?;
  }

  lemma FollowsSelf(inherits: map<Node, Node>, a: Node)
    ensures Follows(inherits, a, a)
  {
  }

  lemma DeadEnd(inherits: map<Node, Node>, seen: set<Node>, a: Node, n: Node, parent: Node)
    requires (a in seen || a == n) && n !in inherits && parent !in seen && parent != n
    requires forall m | m in seen && m in inherits :: inherits[m] in seen || inherits[m] == n
    ensures !Follows(inherits, a, parent)
  {
    assert FollowClosed(inherits, seen + {n});
  }

  lemma NotSeen(inherits: map<Node, Node>, seen: set<Node>, n: Node)
    requires InheritsEnd(inherits) && seen <= inherits.Keys
    requires forall m | m in seen :: inherits[m] in seen || inherits[m] == n
    ensures n !in seen
  {
    if seen != {} {
      var m :| m in seen && inherits[m] !in seen;
      assert inherits[m] == n;
    }
  }

  /** Fewer pointers, one of them short-cut to a node that it led to before, still never come back. */
  lemma ShortcutEnds(before: map<Node, Node>, inherits: map<Node, Node>, c: Node, p: Node)
    requires InheritsEnd(before) && (forall n | n in inherits :: n in before && inherits[n] == before[n])
    requires Follows(before, c, p) && c != p
    ensures InheritsEnd(inherits[c := p])
  {
    var after := inherits[c := p];
    FollowsFirst(before, c, p);
    var way := set m | m in before && Follows(before, c, m) && Follows(before, m, p) && m != p;
    forall m | m in way ensures before[m] in way || before[m] == p {
      FollowsNext(before, c, m);
      FollowsFirst(before, m, p);
      if before[m] != p {
        FollowsFirst(before, before[m], p);
      }
    }
    assert c in way;
    forall s: set<Node> | s != {} && s <= after.Keys ensures exists n :: n in s && after[n] !in s {
      var t := if c in s then s + way else s;
      assert t <= before.Keys && t != {};
      var n :| n in t && before[n] !in t;
      if n in s && n != c {
        assert after[n] == before[n] && after[n] !in s;
      } else {
        assert after[c] !in s;
      }
    }
  }

  lemma FewerEnd(before: map<Node, Node>, inherits: map<Node, Node>)
    requires InheritsEnd(before) && (forall n | n in inherits :: n in before && inherits[n] == before[n])
    ensures InheritsEnd(inherits)
  {
    forall s: set<Node> | s != {} && s <= inherits.Keys ensures exists n :: n in s && inherits[n] !in s {
      assert s <= before.Keys;
      var n :| n in s && before[n] !in s;
      assert inherits[n] !in s;
    }
  }

  // ---------------------------------------------- bs->backing and bs->file

  function CurrentChild(g: Graph, parent: Node, isBacking: bool): Option<EdgeId> {
    if isBacking then (if parent in g.backing then Some(g.backing[parent]) else None)
    else if parent in g.file then Some(g.file[parent]) else None
  }

  lemma CurrentAttached(infos: Infos, g: Graph, parent: Node, isBacking: bool)
    requires PointersOk(infos, g) && CurrentChild(g, parent, isBacking).Some?
    ensures var cur := CurrentChild(g, parent, isBacking).value; Attached(g.edges, cur) && g.edges[cur].owner == parent
  {
  }

  /** The role of the new child, or None if the link cannot be changed. */
  function SlotRole(infos: Infos, g: Graph, parent: Node, isBacking: bool): Option<Role>
    requires parent in infos && PointersOk(infos, g)
  {
    var cur := CurrentChild(g, parent, isBacking);
    if infos[parent].driver.None? then None
    else
      var d := infos[parent].driver.value;
      if cur.Some? && g.edges[cur.value].frozen then None
      else if isBacking && !d.isFilter && !d.supportsBacking then None
      else if d.isFilter then Some(Role(false, true, true))
      else if isBacking then Some(Role(true, false, false))
      else if cur.None? then None
      else Some(g.edges[cur.value].role)
  }

  /** When bdrv_set_file_or_backing_noperm refuses before it changes anything: no driver, a frozen link, a backing file for a
      driver that has none, or a file for a format node without one.  What a node gets otherwise: a filter its filtered
      child, a format node a COW child or, as its file, the role of the child that goes. */
  lemma RefusesFirst(infos: Infos, g: Graph, parent: Node, isBacking: bool)
    requires parent in infos && PointersOk(infos, g)
    ensures var role, driver := SlotRole(infos, g, parent, isBacking), infos[parent].driver;
            && (role.None? <==>
                  || driver.None?
                  || (isBacking && parent in g.backing && g.edges[g.backing[parent]].frozen)
                  || (!isBacking && parent in g.file && g.edges[g.file[parent]].frozen)
                  || (isBacking && !driver.value.isFilter && !driver.value.supportsBacking)
                  || (!isBacking && !driver.value.isFilter && parent !in g.file))
            && (role.Some? && driver.value.isFilter ==> role.value == Role(false, true, true))
            && (role.Some? && !driver.value.isFilter ==>
                  role.value == if isBacking then Role(true, false, false) else g.edges[g.file[parent]].role)
  {
  }

  /** The graph without the current child. */
  ghost function Cleared(infos: Infos, g: Graph, parent: Node, isBacking: bool): Graph
    requires Shape(infos, g)
  {
    var cur := CurrentChild(g, parent, isBacking);
    if cur.None? then g
    else
      CurrentAttached(infos, g, parent, isBacking);
      Replaced(infos, g, cur.value, None).(inherits :=
        Disinherit(g.inherits, parent, Losing(g.edges, g.ctx.Keys, parent, cur.value)))
  }

  lemma ClearedLinks(infos: Infos, g: Graph, parent: Node, isBacking: bool)
    requires Shape(infos, g)
    ensures var h := Cleared(infos, g, parent, isBacking);
            && (forall e | Attached(h.edges, e) :: Attached(g.edges, e) && h.edges[e] == g.edges[e])
            && h.ctx == g.ctx && FewerLinks(h.edges, g.edges)
  {
    hide Repoint, Disinherit, Losing, Uniform, Movables, Over, PointerOk;
    var cur := CurrentChild(g, parent, isBacking);
    if cur.Some? {
      CurrentAttached(infos, g, parent, isBacking);
      ReplacedEdges(infos, g, cur.value, None);
    }
  }

  lemma ClearedPointers(infos: Infos, g: Graph, parent: Node, isBacking: bool)
    requires Shape(infos, g)
    ensures var h := Cleared(infos, g, parent, isBacking);
            && (isBacking ==> parent !in h.backing) && (!isBacking ==> parent !in h.file)
            && (forall n | n in h.backing :: n in g.backing && h.backing[n] == g.backing[n])
            && (forall n | n in h.file :: n in g.file && h.file[n] == g.file[n])
  {
    hide SlotOf, Disinherit, Losing, Uniform, Movables, Over, OnePointer;
  }

  lemma ClearedFiltering(infos: Infos, g: Graph, parent: Node, isBacking: bool)
    requires Shape(infos, g)
    ensures var h := Cleared(infos, g, parent, isBacking);
            h.edges.Keys == g.edges.Keys && forall e | e in g.edges :: Filtering(infos, h.edges[e]) == Filtering(infos, g.edges[e])
  {
    hide Repoint, Disinherit, Losing, Uniform, Movables, Over, PointerOk, OnePointer;
    var cur := CurrentChild(g, parent, isBacking);
    if cur.Some? {
      CurrentAttached(infos, g, parent, isBacking);
      ReplacedEdges(infos, g, cur.value, None);
      SameFiltering(infos, g.edges[cur.value], g.edges[cur.value].(target := None));
    }
  }

  method ClearSlot(b: BlockLayer, parent: Node, isBacking: bool, tran: Transaction, ghost g0: Graph)
    requires InTran(b.infos, tran.log, b.View(), g0) && Shape(b.infos, b.View()) && b.Ids() && Acyclic(b.edges)
    requires parent in b.infos && SlotRole(b.infos, b.View(), parent, isBacking).Some?
    modifies b, tran
    ensures InTran(b.infos, tran.log, b.View(), g0) && b.Ids() && Acyclic(b.edges) && old(tran.log) <= tran.log
    ensures b.View() == Cleared(b.infos, old(b.View()), parent, isBacking) && b.nextEdge == old(b.nextEdge)
    ensures CurrentChild(old(b.View()), parent, isBacking).Some? ==>
              Drop(CurrentChild(old(b.View()), parent, isBacking).value) in tran.log
  {
    hide InTran, PointersOk, Acyclic, Reach, Disinherit, Losing, Repoint, SlotOf, Uniform, Movables;
    ghost var g := b.View();
    var cur := CurrentChild(b.View(), parent, isBacking);
    if cur.Some? {
      CurrentAttached(b.infos, g, parent, isBacking);
      SelfReach(b.edges, parent);
      UnsetInherits(b, parent, cur.value, tran, g0);
      b.RemoveChild(cur.value, tran, g0);
      ClearedLinks(b.infos, g, parent, isBacking);
      FewerLinksAcyclic(b.edges, g.edges);
    }
  }

  /** bdrv_child_cb_attach asserts that the pointer of the new child is free once the current child is gone, and for a
      filtered child the other pointer too. */
  predicate SlotWillBeFree(infos: Infos, g: Graph, parent: Node, role: Role, isBacking: bool) {
    var x := Edge(parent, None, role, {}, {}, false, false, true);
    match SlotOf(infos, x)
    case NoSlot => true
    case BackingSlot => if isBacking then OtherFree(infos, g.edges, g.file, x) else parent !in g.backing
    case FileSlot => if isBacking then parent !in g.file else OtherFree(infos, g.edges, g.backing, x)
  }

  lemma SameSlot(infos: Infos, x: Edge, y: Edge)
    requires x.owner == y.owner && x.role == y.role
    ensures SlotOf(infos, x) == SlotOf(infos, y) && Filtering(infos, x) == Filtering(infos, y)
  {
  }

  lemma ClearedSlotFree(infos: Infos, g: Graph, parent: Node, n: Node, role: Role, isBacking: bool)
    requires Shape(infos, g) && parent in infos && infos[parent].driver.Some? && SlotWillBeFree(infos, g, parent, role, isBacking)
    ensures var h := Cleared(infos, g, parent, isBacking); SlotFree(infos, h, NewChild(infos, h.edges, parent, n, role))
  {
    var h := Cleared(infos, g, parent, isBacking);
    ClearedPointers(infos, g, parent, isBacking);
    ClearedFiltering(infos, g, parent, isBacking);
    SameSlot(infos, Edge(parent, None, role, {}, {}, false, false, true), NewChild(infos, h.edges, parent, n, role));
    hide Cleared, Shape, CumPerm, CumShared, ChildPerm, Filtering, SlotOf;
  }

  /** The conditions of bdrv_set_file_or_backing_noperm. */
  ghost predicate MayBeSet(infos: Infos, g: Graph, parent: Node, child: Option<Node>, isBacking: bool)
    requires Shape(infos, g) && parent in infos && (child.Some? ==> child.value in infos)
  {
    var role := SlotRole(infos, g, parent, isBacking);
    var h := Cleared(infos, g, parent, isBacking);
    role.Some? && (child.Some? ==> ChildAllowed(infos, h, parent, child.value, role.value))
  }

  /** The graph after the link has been set, before permissions are refreshed. */
  ghost predicate IsSet(infos: Infos, g: Graph, parent: Node, child: Option<Node>, isBacking: bool, e: EdgeId, g': Graph)
    requires Shape(infos, g) && parent in infos && (child.Some? ==> child.value in infos)
    requires SlotRole(infos, g, parent, isBacking).Some?
  {
    var role := SlotRole(infos, g, parent, isBacking).value;
    var h := Cleared(infos, g, parent, isBacking);
    if child.None? then g' == h
    else
      && AttachedTo(infos, h, e, NewChild(infos, h.edges, parent, child.value, role), child.value,
                    g'.(inherits := h.inherits))
      && g'.inherits == if Follows(g.inherits, child.value, parent) then h.inherits[child.value := parent] else h.inherits
  }

  method AttachAndInherit(b: BlockLayer, parent: Node, n: Node, role: Role, update: bool, tran: Transaction, ghost g0: Graph)
    returns (ok: bool)
    requires InTran(b.infos, tran.log, b.View(), g0) && b.Ids() && Acyclic(b.edges)
    requires parent in b.infos && b.infos[parent].driver.Some? && n in b.infos && b.infos.Keys <= b.ctx.Keys
    requires SlotFree(b.infos, b.View(), NewChild(b.infos, b.edges, parent, n, role))
    modifies b, tran
    ensures InTran(b.infos, tran.log, b.View(), g0) && b.Ids() && Acyclic(b.edges) && old(tran.log) <= tran.log
    ensures ok <==> old(ChildAllowed(b.infos, b.View(), parent, n, role))
    ensures ok ==>
              && AttachedTo(b.infos, old(b.View()), old(b.nextEdge), NewChild(b.infos, old(b.edges), parent, n, role), n,
                            b.View().(inherits := old(b.inherits)))
              && b.inherits == if update then old(b.inherits)[n := parent] else old(b.inherits)
  {
    hide InTran, Acyclic, ChildAllowed, NewChild, AttachCtx, Repoint;
    var r := AttachNoperm(b, parent, n, role, tran, g0);
    if r.None? {
      return false;
    }
    ghost var g := b.View();
    if update {
      b.SetInheritsTran(n, Some(parent), tran, g0);
    }
    assert b.View().(inherits := old(b.inherits)) == g;
    return true;
  }

  /** bdrv_set_file_or_backing_noperm */
  method SetFileOrBackingNoperm(b: BlockLayer, parent: Node, child: Option<Node>, isBacking: bool,
                                tran: Transaction, ghost g0: Graph) returns (ok: bool)
    requires InTran(b.infos, tran.log, b.View(), g0) && Shape(b.infos, b.View()) && b.Ids() && Acyclic(b.edges)
    requires parent in b.infos && (child.Some? ==> child.value in b.infos) && InheritsEnd(b.inherits)
    requires child.Some? && SlotRole(b.infos, b.View(), parent, isBacking).Some? ==>
               SlotWillBeFree(b.infos, b.View(), parent, SlotRole(b.infos, b.View(), parent, isBacking).value, isBacking)
    modifies b, tran
    ensures InTran(b.infos, tran.log, b.View(), g0) && b.Ids() && Acyclic(b.edges)
    ensures ok <==> old(MayBeSet(b.infos, b.View(), parent, child, isBacking))
    ensures ok ==> IsSet(b.infos, old(b.View()), parent, child, isBacking, old(b.nextEdge), b.View())
    ensures ok && CurrentChild(old(b.View()), parent, isBacking).Some? ==>
              Drop(CurrentChild(old(b.View()), parent, isBacking).value) in tran.log
  {
    hide InTran, Acyclic, PointersOk, Uniform, Movables, Over, ChildAllowed, NewChild, Cleared, AttachedTo, SlotFree,
      SlotWillBeFree, InheritsEnd, Follows;
    ghost var g := b.View();
    var update := InheritsFromRecursive(b.inherits, child, parent);
    var role := SlotRole(b.infos, b.View(), parent, isBacking);
    if role.None? {
      return false;
    }
    ClearSlot(b, parent, isBacking, tran, g0);
    if child.None? {
      return true;
    }
    ClearedSlotFree(b.infos, g, parent, child.value, role.value, isBacking);
    ClearedLinks(b.infos, g, parent, isBacking);
    ok := AttachAndInherit(b, parent, child.value, role.value, update, tran, g0);
  }

  /** The children once the link has been set. */
  ghost function SetEdges(infos: Infos, g: Graph, parent: Node, child: Option<Node>, isBacking: bool, e: EdgeId): Edges
    requires Shape(infos, g) && parent in infos && (child.Some? ==> child.value in infos)
    requires SlotRole(infos, g, parent, isBacking).Some?
  {
    var h := Cleared(infos, g, parent, isBacking);
    if child.None? then h.edges
    else
      var x := NewChild(infos, h.edges, parent, child.value, SlotRole(infos, g, parent, isBacking).value);
      h.edges[e := x.(target := child)]
  }

  lemma SetKeptElsewhere(infos: Infos, g: Graph, parent: Node, child: Option<Node>, isBacking: bool, e: EdgeId)
    requires Shape(infos, g) && parent in infos && (child.Some? ==> child.value in infos)
    requires SlotRole(infos, g, parent, isBacking).Some?
    ensures KeptElsewhere(g.edges, SetEdges(infos, g, parent, child, isBacking, e), [parent])
  {
    hide Cleared, CumPerm, CumShared, ChildPerm, SlotRole, Shape, FromRoots;
    ClearedLinks(infos, g, parent, isBacking);
    var edges := SetEdges(infos, g, parent, child, isBacking, e);
    BelowRoot(edges, parent);
    assert child.Some? ==> e in Children(edges, parent);
  }

  lemma SetFrozenKept(infos: Infos, g: Graph, parent: Node, child: Option<Node>, isBacking: bool, e: EdgeId)
    requires Shape(infos, g) && parent in infos && (child.Some? ==> child.value in infos)
    requires SlotRole(infos, g, parent, isBacking).Some? && e !in g.edges
    ensures FrozenKept(g.edges, SetEdges(infos, g, parent, child, isBacking, e))
  {
    hide CumPerm, CumShared, ChildPerm, Cleared, Shape, SlotRole;
    ClearedFrozen(infos, g, parent, isBacking);
  }

  lemma ClearedFrozen(infos: Infos, g: Graph, parent: Node, isBacking: bool)
    requires Shape(infos, g) && parent in infos && SlotRole(infos, g, parent, isBacking).Some?
    ensures var h := Cleared(infos, g, parent, isBacking); FrozenKept(g.edges, h.edges) && h.edges.Keys == g.edges.Keys
  {
    hide Repoint, Disinherit, Losing, Uniform, Movables, Over, PointerOk;
    var cur := CurrentChild(g, parent, isBacking);
    if cur.Some? {
      CurrentAttached(infos, g, parent, isBacking);
      ReplacedEdges(infos, g, cur.value, None);
    }
  }

  lemma IsSetEdges(infos: Infos, g: Graph, parent: Node, child: Option<Node>, isBacking: bool, e: EdgeId,
                   g': Graph)
    requires Shape(infos, g) && parent in infos && (child.Some? ==> child.value in infos)
    requires SlotRole(infos, g, parent, isBacking).Some?
    requires IsSet(infos, g, parent, child, isBacking, e, g')
    ensures g'.edges == SetEdges(infos, g, parent, child, isBacking, e)
  {
  }

  /** The new pointers still never come back. */
  lemma IsSetEnds(infos: Infos, g: Graph, parent: Node, child: Option<Node>, isBacking: bool, e: EdgeId, g': Graph)
    requires Shape(infos, g) && parent in infos && (child.Some? ==> child.value in infos) && InheritsEnd(g.inherits)
    requires MayBeSet(infos, g, parent, child, isBacking) && IsSet(infos, g, parent, child, isBacking, e, g')
    ensures InheritsEnd(g'.inherits)
  {
    hide PointersOk, Uniform, Movables, Over, Follows, InheritsEnd, Losing, CumPerm, CumShared, ChildPerm, Attachable, Repoint;
    var h := Cleared(infos, g, parent, isBacking);
    ClearedInherits(infos, g, parent, isBacking);
    FewerEnd(g.inherits, h.inherits);
    if child.Some? {
      SelfReach(h.edges, parent);
      if Follows(g.inherits, child.value, parent) {
        ShortcutEnds(g.inherits, h.inherits, child.value, parent);
      }
    }
  }

  lemma ClearedInherits(infos: Infos, g: Graph, parent: Node, isBacking: bool)
    requires Shape(infos, g)
    ensures var h := Cleared(infos, g, parent, isBacking);
            forall n | n in h.inherits :: n in g.inherits && h.inherits[n] == g.inherits[n]
  {
    hide Losing, Repoint, PointersOk, Uniform, Movables, Over;
  }

  /** bdrv_set_backing_hd: either the link is set and every permission below `n` settled, or nothing has changed. */
  method SetBackingHd(b: BlockLayer, n: Node, child: Option<Node>) returns (ok: bool)
    requires Valid(b) && n in b.infos && (child.Some? ==> child.value in b.infos)
    requires child.Some? && SlotRole(b.infos, b.View(), n, true).Some? ==>
               SlotWillBeFree(b.infos, b.View(), n, SlotRole(b.infos, b.View(), n, true).value, true)
    modifies b
    ensures Valid(b) && SameUsers(old(b.View()), b.View()) && FrozenKept(old(b.edges), b.edges)
    ensures !ok ==> b.View() == old(b.View())
    ensures ok <==> MayBeSet(b.infos, old(b.View()), n, child, true) &&
                    CanSettle(b.infos, SetEdges(b.infos, old(b.View()), n, child, true, old(b.nextEdge)), [n])
    ensures ok ==> Rebacked(b.infos, old(b.View()), n, child, old(b.nextEdge), b.View())
  {
    hide InTran, Acyclic, ConflictFree, InheritsEnd, PointersOk, Uniform, Movables, Over, Cleared, SlotWillBeFree, SameAttached,
      SubtreesSettled, KeptElsewhere, CanSettle, MayBeSet, IsSet, SetEdges, SlotRole, Committed, SameUsers,
      FrozenKept;
    ghost var g0 := b.View();
    ghost var e := b.nextEdge;
    var tran := new Transaction();
    StartTran(b.infos, g0);
    ok := SetFileOrBackingNoperm(b, n, child, true, tran, g0);
    ghost var g1 := b.View();
    if ok {
      MaySetRole(b.infos, g0, n, child, true);
      SetKeptElsewhere(b.infos, g0, n, child, true, e);
      IsSetEdges(b.infos, g0, n, child, true, e, g1);
      IsSetEnds(b.infos, g0, n, child, true, e, g1);
      ok := RefreshPerms(b, [n], tran, g0);
    }
    ghost var log, g2 := tran.log, b.View();
    Finalize(b, tran, ok, g0);
    SameUsersSelf(g0);
    FrozenKeptSelf(g0.edges);
    if ok {
      RebackedCommit(b.infos, g0, n, child, e, g1, log, g2);
      SetFrozenKept(b.infos, g0, n, child, true, e);
      SettledFrozen(b.infos, g0.edges, SetEdges(b.infos, g0, n, child, true, e), [n], b.edges);
    }
  }

  lemma MaySetRole(infos: Infos, g: Graph, parent: Node, child: Option<Node>, isBacking: bool)
    requires Shape(infos, g) && parent in infos && (child.Some? ==> child.value in infos)
    requires MayBeSet(infos, g, parent, child, isBacking)
    ensures SlotRole(infos, g, parent, isBacking).Some?
  {
  }

  /** What a successful bdrv_set_backing_hd has done. */
  ghost predicate Rebacked(infos: Infos, g: Graph, n: Node, child: Option<Node>, e: EdgeId, g': Graph)
    requires Shape(infos, g) && n in infos && (child.Some? ==> child.value in infos)
  {
    && SlotRole(infos, g, n, true).Some?
    && SettledInto(infos, SetEdges(infos, g, n, child, true, e), [n], g'.edges)
    && (n in g.backing ==> g.backing[n] !in g'.edges)
    && exists h :: IsSet(infos, g, n, child, true, e, h) &&
         g'.ctx == h.ctx && g'.inherits == h.inherits && g'.backing == h.backing && g'.file == h.file
  }

  lemma RebackedCommit(infos: Infos, g0: Graph, n: Node, child: Option<Node>, e: EdgeId, g1: Graph,
                       log: seq<Undo>, g2: Graph)
    requires Shape(infos, g0) && n in infos && (child.Some? ==> child.value in infos)
    requires SlotRole(infos, g0, n, true).Some? && IsSet(infos, g0, n, child, true, e, g1)
    requires SubtreesSettled(infos, g1.edges, [n], g2.edges) && SameAttached(g2.edges, Committed(log, g2).edges)
    requires g2 == g1.(edges := g2.edges)
    requires n in g0.backing ==> Drop(g0.backing[n]) in log
    ensures Rebacked(infos, g0, n, child, e, Committed(log, g2))
  {
    hide Shape, IsSet, SubtreesSettled, SameAttached, SlotRole, SetEdges, Held;
    IsSetEdges(infos, g0, n, child, true, e, g1);
    if n in g0.backing {
      var i :| 0 <= i < |log| && log[i] == Drop(g0.backing[n]);
      assert log[i].e in Dropped(log);
    }
  }

  /** After a successful call the backing pointer of a driver that keeps its child there names the new child, which points
      at the given node, or is NULL if none was given. */
  lemma BackingPointsThere(infos: Infos, g: Graph, n: Node, child: Option<Node>, e: EdgeId, g': Graph)
    requires Shape(infos, g) && n in infos && (child.Some? ==> child.value in infos)
    requires infos[n].driver.Some? && infos[n].driver.value.isFilter ==> infos[n].driver.value.filteredChildIsBacking
    requires Rebacked(infos, g, n, child, e, g')
    ensures child.None? ==> n !in g'.backing
    ensures child.Some? ==>
              && n in g'.backing && g'.backing[n] == e
              && Attached(g'.edges, e) && g'.edges[e].owner == n && g'.edges[e].target == child
  {
    hide Shape, Settled, TopoSorted, IsSubtrees, CumPerm, CumShared, ChildPerm;
    ClearedPointers(infos, g, n, true);
    if child.Some? {
      var before := SetEdges(infos, g, n, child, true, e);
      var sol :| SubtreesSettled(infos, before, [n], sol) && SameAttached(sol, g'.edges);
      SettledLinks(infos, before, [n], sol);
      assert Attached(sol, e);
    }
  }
}
