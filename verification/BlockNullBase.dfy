/**
  Chains frozen down to a NULL base (qemu/block.c): when bdrv_unfreeze_backing_chain
  finds every link on its way frozen, and a run in which it does not.
 */
module BlockNullBase {
  import opened Wrappers
  import opened BlockGraph
  import opened BlockPerms
  import opened BlockUndo
  import opened BlockLayer
  import opened BlockOps
  import opened BlockChain
  import opened BlockBacking
  import opened BlockFreeze

  /** The node at the lower end of a segment. */
  ghost function Bottom(g: Graph, i: Option<Node>, links: seq<EdgeId>): Option<Node> {
    if links == [] then i
    else if links[|links| - 1] in g.edges then g.edges[links[|links| - 1]].target
    else None
  }

  /** The links are where they were, and frozen; other links may have been frozen or let go. */
  ghost predicate StillHeld(g: Graph, g': Graph, links: seq<EdgeId>) {
    forall e | e in links ::
      && Attached(g.edges, e) && Attached(g'.edges, e) && g.edges[e].frozen && g'.edges[e].frozen
      && g'.edges[e].owner == g.edges[e].owner && g'.edges[e].target == g.edges[e].target && g'.edges[e].role == g.edges[e].role
  }

  lemma HeldChild(infos: Infos, g: Graph, g': Graph, n: Node, links: seq<EdgeId>)
    requires PointersOk(infos, g) && PointersOk(infos, g') && StillHeld(g, g', links)
    requires FilterOrCowChild(infos, g, n).Some? && FilterOrCowChild(infos, g, n).value in links
    ensures FilterOrCowChild(infos, g', n) == FilterOrCowChild(infos, g, n)
  {
    ChildIsAttached(infos, g, n);
    SameSlot(infos, g.edges[FilterOrCowChild(infos, g, n).value], g'.edges[FilterOrCowChild(infos, g, n).value]);
    hide OnePointer;
  }

  /** The chain that an unfreeze down to a NULL base walks is the one that was frozen, and then whatever hangs below. */
  lemma {:induction false} NullBaseWalk(infos: Infos, g: Graph, g': Graph, n: Node, links: seq<EdgeId>, links': seq<EdgeId>)
    requires PointersOk(infos, g) && PointersOk(infos, g') && StillHeld(g, g', links)
    requires IsSegment(infos, g, Some(n), None, links) && IsSegment(infos, g', Some(n), None, links')
    ensures Bottom(g, Some(n), links).Some? && links <= links'
    ensures IsSegment(infos, g', Bottom(g, Some(n), links), None, links'[|links|..])
    decreases |links|
  {
    if links == [] {
      assert links'[0..] == links';
    } else {
      HeldChild(infos, g, g', n, links);
      var t := g.edges[links[0]].target;
      assert forall e | e in links[1..] :: e in links;
      NullBaseWalk(infos, g, g', t.value, links[1..], links'[1..]);
      assert links'[1..][|links[1..]|..] == links'[|links|..];
      assert links[1..] != [] ==> links[1..][|links[1..]| - 1] == links[|links| - 1];
    }
  }

  lemma EndsHere(infos: Infos, g: Graph, i: Option<Node>, rest: seq<EdgeId>)
    requires i.Some? && IsSegment(infos, g, i, None, rest)
    ensures rest == [] <==> FilterOrCowChild(infos, g, i.value).None?
  {
  }

  lemma PrefixFrozen(edges: Edges, links: seq<EdgeId>, links': seq<EdgeId>)
    requires links <= links' && AllFrozen(edges, links)
    ensures AllFrozen(edges, links') <==> AllFrozen(edges, links'[|links|..])
    ensures links' == links <==> links'[|links|..] == []
  {
    assert links' == links + links'[|links|..];
    assert forall e | e in links'[|links|..] :: e in links';
  }

  /** When the assertion of bdrv_unfreeze_backing_chain holds for a NULL base: exactly if no link below the last node of the
      frozen chain is unfrozen.  It lets go of its own links only, exactly if there is no link below. */
  lemma NullBaseAssertion(infos: Infos, g: Graph, g': Graph, n: Node, links: seq<EdgeId>, links': seq<EdgeId>)
    requires PointersOk(infos, g) && PointersOk(infos, g') && StillHeld(g, g', links)
    requires IsSegment(infos, g, Some(n), None, links) && IsSegment(infos, g', Some(n), None, links')
    ensures Bottom(g, Some(n), links).Some? && links <= links'
    ensures AllFrozen(g'.edges, links') <==> AllFrozen(g'.edges, links'[|links|..])
    ensures links' == links <==> FilterOrCowChild(infos, g', Bottom(g, Some(n), links).value).None?
  {
    NullBaseWalk(infos, g, g', n, links, links');
    var rest := links'[|links|..];
    EndsHere(infos, g', Bottom(g, Some(n), links), rest);
    PrefixFrozen(g'.edges, links, links');
  }

  /** If nobody else freezes or unfreezes in between, the assertion holds exactly if nothing was attached below the chain. */
  lemma NullBaseAlone(infos: Infos, g: Graph, g': Graph, n: Node, links: seq<EdgeId>, links': seq<EdgeId>)
    requires PointersOk(infos, g) && PointersOk(infos, g') && FrozenKept(g.edges, g'.edges)
    requires IsSegment(infos, g, Some(n), None, links) && AllFrozen(g.edges, links)
    requires IsSegment(infos, g', Some(n), None, links')
    ensures Bottom(g, Some(n), links).Some?
    ensures AllFrozen(g'.edges, links') <==> FilterOrCowChild(infos, g', Bottom(g, Some(n), links).value).None?
  {
    SegmentInside(infos, g, Some(n), None, links);
    NullBaseAssertion(infos, g, g', n, links, links');
    NullBaseWalk(infos, g, g', n, links, links');
    BottomEnds(infos, g, n, links);
    var m := Bottom(g, Some(n), links).value;
    var rest := links'[|links|..];
    if FilterOrCowChild(infos, g', m).Some? {
      assert rest != [] && rest[0] == FilterOrCowChild(infos, g', m).value;
      NewLinkNotFrozen(infos, g, g', m);
      assert rest[0] in rest;
    }
  }

  lemma {:induction false} BottomEnds(infos: Infos, g: Graph, n: Node, links: seq<EdgeId>)
    requires IsSegment(infos, g, Some(n), None, links)
    ensures Bottom(g, Some(n), links).Some? && FilterOrCowChild(infos, g, Bottom(g, Some(n), links).value).None?
    decreases |links|
  {
    if links != [] {
      BottomEnds(infos, g, g.edges[links[0]].target.value, links[1..]);
      assert links[1..] != [] ==> links[1..][|links[1..]| - 1] == links[|links| - 1];
    }
  }

  /** A link below a node that had none is not frozen, unless somebody froze it. */
  lemma NewLinkNotFrozen(infos: Infos, g: Graph, g': Graph, m: Node)
    requires PointersOk(infos, g) && PointersOk(infos, g') && FrozenKept(g.edges, g'.edges)
    requires FilterOrCowChild(infos, g, m).None? && FilterOrCowChild(infos, g', m).Some?
    ensures var e := FilterOrCowChild(infos, g', m).value; e in g'.edges && !g'.edges[e].frozen
  {
    ChildIsAttached(infos, g', m);
    var e := FilterOrCowChild(infos, g', m).value;
    if g'.edges[e].frozen {
      SameSlot(infos, g.edges[e], g'.edges[e]);
    }
  }

  // ------------------------------------------------------------ such a run

  /** A node whose driver asks nothing of its children and shares everything, as bdrv_default_perms does for the backing
      child of a node that nobody uses. */
  const PLAIN := NodeInfo(Some(Driver(false, true, false, (e, r, p, s) => ({}, ALL_PERMS), (p, s) => true)),
                          true, true, false, false, false)

  ghost predicate AllPlain(infos: Infos) {
    forall n | n in infos :: infos[n] == PLAIN
  }

  ghost predicate Quiet(edges: Edges) {
    forall e | Attached(edges, e) :: edges[e].perm == {} && edges[e].shared == ALL_PERMS
  }

  lemma QuietNode(infos: Infos, edges: Edges, n: Node)
    requires AllPlain(infos) && Quiet(edges) && n in infos
    ensures SettledNode(infos, edges, n)
  {
    assert CumPerm(edges, n) == {};
    forall e | e in Children(edges, n) ensures FreshEdge(infos, edges, n, PLAIN.driver.value, e) {
      assert Attached(edges, e);
    }
  }

  lemma QuietSubtree(edges: Edges, n: Node, e: EdgeId, c: Node)
    requires n != c && e in edges && edges[e].target == Some(c)
    requires Children(edges, n) == {e} && Children(edges, c) == {}
    ensures TopoSorted(edges, [n, c]) && IsSubtrees(edges, [n], Elements([n, c]))
  {
    forall d | Attached(edges, d) && edges[d].owner in {n, c} ensures edges[d].target.value in {n, c} {
      assert d in Children(edges, edges[d].owner);
    }
    SelfReach(edges, n);
    ReachEdge(edges, n, e);
    forall m: Node ensures m in Elements([n, c]) <==> FromRoots(edges, [n], m) {
      assert FromRoots(edges, [n], m) <==> Reach(edges, [n][0], m);
    }
    forall i, d | 0 <= i < 2 && d in Children(edges, [n, c][i]) ensures edges[d].target.value in [n, c][i + 1..] {
      assert i == 0 && [n, c][1..][0] == c;
    }
  }

  /** Quiet permissions are settled already. */
  lemma QuietSettles(infos: Infos, edges: Edges, n: Node, e: EdgeId, c: Node)
    requires AllPlain(infos) && Quiet(edges) && n in infos && c in infos
    requires n != c && e in edges && edges[e].target == Some(c)
    requires Children(edges, n) == {e} && Children(edges, c) == {}
    ensures SubtreesSettled(infos, edges, [n], edges)
  {
    QuietSubtree(edges, n, e, c);
    QuietNode(infos, edges, n);
    QuietNode(infos, edges, c);
    hide TopoSorted, IsSubtrees, SettledNode;
    assert Settled(infos, edges, [n, c], edges);
  }

  lemma Childless(edges: Edges, c: Node, n: Node)
    requires Children(edges, c) == {} && n != c
    ensures !Reach(edges, c, n)
  {
    assert forall d :: Attached(edges, d) && edges[d].owner == c ==> d in Children(edges, c);
    assert ChildClosed(edges, {c});
  }

  lemma QuietAllowed(infos: Infos, g: Graph, n: Node, c: Node, e: EdgeId)
    requires Shape(infos, g) && AllPlain(infos) && n in infos && c in infos && n != c && g.ctx[n] == g.ctx[c]
    requires n !in g.backing && n !in g.file && Children(g.edges, c) == {}
    ensures SlotRole(infos, g, n, true) == Some(Role(true, false, false))
    ensures SlotWillBeFree(infos, g, n, Role(true, false, false), true) && MayBeSet(infos, g, n, Some(c), true)
    ensures SetEdges(infos, g, n, Some(c), true, e) ==
              g.edges[e := Edge(n, Some(c), Role(true, false, false), {}, ALL_PERMS, false, false, true)]
  {
    hide PointersOk, Uniform, Over, CumPerm, CumShared;
    Childless(g.edges, c, n);
  }

  /** bdrv_set_backing_hd between two such nodes succeeds and adds the one link. */
  method LinkQuiet(b: BlockLayer, n: Node, c: Node) returns (e: EdgeId)
    requires Valid(b) && AllPlain(b.infos) && Quiet(b.edges) && n in b.infos && c in b.infos && n != c
    requires n in b.ctx && c in b.ctx && b.ctx[n] == b.ctx[c] && n !in b.backing && n !in b.file
    requires Children(b.edges, n) == {} && Children(b.edges, c) == {}
    modifies b
    ensures Valid(b) && b.ctx == old(b.ctx) && b.file == old(b.file) && b.backing == old(b.backing)[n := e]
    ensures Quiet(b.edges) && FrozenKept(old(b.edges), b.edges)
    ensures e !in old(b.edges) && Attached(b.edges, e) && !b.edges[e].frozen
    ensures b.edges[e].owner == n && b.edges[e].target == Some(c)
    ensures forall d | d != e :: Attached(b.edges, d) <==> old(Attached(b.edges, d))
    ensures forall d | d != e && Attached(b.edges, d) :: b.edges[d] == old(b.edges)[d]
  {
    hide Acyclic, ConflictFree, InheritsEnd, PointersOk, Uniform, Over, AllPlain, SlotRole, SlotWillBeFree, MayBeSet, SetEdges,
      SubtreesSettled, Rebacked, FrozenKept, SameUsers;
    ghost var g := b.View();
    e := b.nextEdge;
    QuietAllowed(b.infos, g, n, c, e);
    ghost var before := SetEdges(b.infos, g, n, Some(c), true, e);
    assert Children(before, n) == {e} && Children(before, c) == {};
    QuietSettles(b.infos, before, n, e, c);
    var ok := SetBackingHd(b, n, Some(c));
    QuietDone(b.infos, g, n, c, e, b.View());
  }

  lemma QuietDone(infos: Infos, g: Graph, n: Node, c: Node, e: EdgeId, g': Graph)
    requires Shape(infos, g) && AllPlain(infos) && n in infos && c in infos && g.ctx[n] == g.ctx[c] && n !in g.backing
    requires Rebacked(infos, g, n, Some(c), e, g')
    requires var before := SetEdges(infos, g, n, Some(c), true, e); SubtreesSettled(infos, before, [n], before)
    ensures SameAttached(SetEdges(infos, g, n, Some(c), true, e), g'.edges)
    ensures g'.ctx == g.ctx && g'.file == g.file && g'.backing == g.backing[n := e]
  {
    hide PointersOk, Uniform, Over, CumPerm, CumShared, SubtreesSettled, SetEdges, SameAttached;
    var before := SetEdges(infos, g, n, Some(c), true, e);
    var sol :| SubtreesSettled(infos, before, [n], sol) && SameAttached(sol, g'.edges);
    SubtreesSettledUnique(infos, before, [n], sol, before);
  }

  ghost predicate ThreeNodes(b: BlockLayer)
    reads b
  {
    && Valid(b) && b.infos == map[0 := PLAIN, 1 := PLAIN, 2 := PLAIN]
    && b.ctx == map[0 := 0, 1 := 0, 2 := 0] && b.file == map[] && Quiet(b.edges)
  }

  /** Three nodes, the first backed by the second, and the chain of the first frozen down to a NULL base. */
  method FrozenPair() returns (b: BlockLayer, e: EdgeId)
    ensures fresh(b) && ThreeNodes(b) && b.backing == map[0 := e]
    ensures Attached(b.edges, e) && b.edges[e].owner == 0 && b.edges[e].target == Some(1) && b.edges[e].frozen
    ensures forall d | Attached(b.edges, d) :: d == e
  {
    hide Good, FrozenKept, IsSegment, SlotOf;
    b := EmptyLayer(map[0 := PLAIN, 1 := PLAIN, 2 := PLAIN], map[0 := 0, 1 := 0, 2 := 0], map[0 := 1, 1 := 1, 2 := 1],
                    map[]);
    e := LinkQuiet(b, 0, 1);
    TwoLinks(b.infos, b.View(), [e]);
    ghost var before := b.edges;
    assert forall d | Attached(before, d) :: d == e;
    var ok := FreezeBackingChain(b, 0, None, [e]);
    assert e in LinkSet([e]);
    assert forall d | Attached(b.edges, d) :: Attached(before, d);
  }

  /** A run in which a chain frozen down to a NULL base is extended below its end, which nothing forbids; the unfreeze then
      meets a link that is not frozen. */
  method NullBaseExtended() returns (b: BlockLayer, ghost g: Graph, ghost links: seq<EdgeId>, ghost links': seq<EdgeId>)
    ensures Good(b.infos, g) && IsSegment(b.infos, g, Some(0), None, links) && AllFrozen(g.edges, links)
    ensures Valid(b) && FrozenKept(g.edges, b.edges) && IsSegment(b.infos, b.View(), Some(0), None, links')
    ensures !AllFrozen(b.edges, links')
  {
    hide Good, FrozenKept, IsSegment, SlotOf;
    var e;
    b, e := FrozenPair();
    g := b.View();
    links := [e];
    TwoLinks(b.infos, g, links);
    ghost var edges := b.edges;
    assert forall d | Attached(edges, d) :: edges[d].owner == 0;
    assert forall d | d in Children(edges, 1) + Children(edges, 2) :: Attached(edges, d);
    assert Children(edges, 1) == {} && Children(edges, 2) == {};
    var d := LinkQuiet(b, 1, 2);
    links' := [e, d];
    TwoLinks(b.infos, b.View(), links');
    assert d in links';
  }

  lemma TwoLinks(infos: Infos, g: Graph, links: seq<EdgeId>)
    requires infos == map[0 := PLAIN, 1 := PLAIN, 2 := PLAIN] && 1 <= |links| <= 2
    requires 0 in g.backing && g.backing[0] == links[0] && Attached(g.edges, links[0]) && g.edges[links[0]].target == Some(1)
    requires if |links| == 1 then 1 !in g.backing
             else 1 in g.backing && g.backing[1] == links[1] && Attached(g.edges, links[1]) && g.edges[links[1]].target == Some(2)
    requires 2 !in g.backing
    ensures IsSegment(infos, g, Some(0), None, links)
  {
    if |links| == 2 {
      assert links[1..][1..] == [] && IsSegment(infos, g, Some(2), None, []);
    }
    assert IsSegment(infos, g, Some(1), None, links[1..]);
  }
}
