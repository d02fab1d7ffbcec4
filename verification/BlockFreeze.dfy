/**
  Freezing backing chains (qemu/block.c): a frozen link cannot be redirected or
  removed until whoever froze it lets go.
 */
module BlockFreeze {
  import opened Wrappers
  import opened BlockGraph
  import opened BlockPerms
  import opened BlockUndo
  import opened BlockLayer
  import opened BlockOps
  import opened BlockChain

  // ---------------------------------------------------- the three loops

  function SetFrozen(edges: Edges, s: set<EdgeId>, v: bool): Edges {
    map e | e in edges :: if e in s then edges[e].(frozen := v) else edges[e]
  }

  function LinkSet(links: seq<EdgeId>): set<EdgeId> {
    set e | e in links
  }

  /** bdrv_is_backing_chain_frozen */
  method IsBackingChainFrozen(b: BlockLayer, n: Node, base: Option<Node>, ghost links: seq<EdgeId>) returns (frozen: bool)
    requires IsSegment(b.infos, b.View(), Some(n), base, links)
    ensures frozen <==> exists k :: 0 <= k < |links| && links[k] in b.edges && b.edges[links[k]].frozen
  {
    var i := Some(n);
    ghost var k := 0;
    while i != base
      invariant 0 <= k <= |links| && IsSegment(b.infos, b.View(), i, base, links[k..])
      invariant forall j | 0 <= j < k :: links[j] in b.edges && !b.edges[links[j]].frozen
      decreases |links| - k, i.Some?
    {
      SegmentStep(b.infos, b.View(), i, base, links, k);
      var child := FilterOrCowChild(b.infos, b.View(), i.value);
      if child.Some? {
        if b.edges[child.value].frozen {
          return true;
        }
        k := k + 1;
        i := b.edges[child.value].target;
      } else {
        i := None;
      }
    }
    assert |links[k..]| == 0;
    return false;
  }

  /** The second loop of bdrv_freeze_backing_chain. */
  method MayFreeze(b: BlockLayer, n: Node, base: Option<Node>, ghost links: seq<EdgeId>) returns (ok: bool)
    requires IsSegment(b.infos, b.View(), Some(n), base, links)
    ensures ok <==> forall k | 0 <= k < |links| :: Freezable(b.infos, b.edges, links[k])
  {
    var i := Some(n);
    ghost var k := 0;
    while i != base
      invariant 0 <= k <= |links| && IsSegment(b.infos, b.View(), i, base, links[k..])
      invariant forall j | 0 <= j < k :: Freezable(b.infos, b.edges, links[j])
      decreases |links| - k, i.Some?
    {
      SegmentStep(b.infos, b.View(), i, base, links, k);
      var child := FilterOrCowChild(b.infos, b.View(), i.value);
      if child.Some? {
        var below := b.edges[child.value].target.value;
        if below in b.infos && b.infos[below].neverFreeze {
          return false;
        }
        k := k + 1;
        i := b.edges[child.value].target;
      } else {
        i := None;
      }
    }
    assert |links[k..]| == 0;
    return true;
  }

  /** The node below the link does not forbid freezing. */
  predicate Freezable(infos: Infos, edges: Edges, e: EdgeId) {
    Attached(edges, e) ==> !(edges[e].target.value in infos && infos[edges[e].target.value].neverFreeze)
  }

  lemma SetFrozenStep(edges: Edges, links: seq<EdgeId>, k: nat, v: bool)
    requires k < |links| && links[k] in edges
    ensures var cur := SetFrozen(edges, LinkSet(links[..k]), v);
            && links[k] in cur && cur[links[k]].target == edges[links[k]].target
            && cur[links[k] := cur[links[k]].(frozen := v)] == SetFrozen(edges, LinkSet(links[..k + 1]), v)
  {
    assert LinkSet(links[..k + 1]) == LinkSet(links[..k]) + {links[k]};
  }

  /** The last loop of bdrv_freeze_backing_chain. */
  method MarkFrozen(b: BlockLayer, n: Node, base: Option<Node>, ghost links: seq<EdgeId>)
    requires IsSegment(b.infos, b.View(), Some(n), base, links)
    modifies b`edges
    ensures b.edges == SetFrozen(old(b.edges), LinkSet(links), true)
  {
    ghost var g := b.View();
    var i := Some(n);
    ghost var k := 0;
    assert b.edges == SetFrozen(g.edges, LinkSet(links[..0]), true);
    while i != base
      invariant 0 <= k <= |links| && IsSegment(b.infos, g, i, base, links[k..])
      invariant b.edges == SetFrozen(g.edges, LinkSet(links[..k]), true)
      decreases |links| - k, i.Some?
    {
      SegmentStep(b.infos, g, i, base, links, k);
      var child := FilterOrCowChild(b.infos, b.View(), i.value);
      assert child == FilterOrCowChild(b.infos, g, i.value);
      if child.Some? {
        SetFrozenStep(g.edges, links, k, true);
        b.edges := b.edges[child.value := b.edges[child.value].(frozen := true)];
        k := k + 1;
        i := b.edges[child.value].target;
      } else {
        i := None;
      }
    }
    assert |links[k..]| == 0 && links[..k] == links;
  }

  ghost predicate AllFrozen(edges: Edges, links: seq<EdgeId>) {
    forall e | e in links :: e in edges && edges[e].frozen
  }

  ghost predicate NoneFrozen(edges: Edges, links: seq<EdgeId>) {
    forall e | e in links :: e in edges && !edges[e].frozen
  }

  /** bdrv_unfreeze_backing_chain, whose assertion that every link on the way is still frozen cannot fail. */
  method UnfreezeBackingChain(b: BlockLayer, n: Node, base: Option<Node>, ghost links: seq<EdgeId>)
    requires Valid(b) && IsSegment(b.infos, b.View(), Some(n), base, links) && AllFrozen(b.edges, links)
    modifies b`edges
    ensures Valid(b) && b.View() == old(b.View()).(edges := SetFrozen(old(b.edges), LinkSet(links), false))
  {
    hide Good;
    ghost var g := b.View();
    SegmentDistinct(b.infos, g, Some(n), base, links);
    var i := Some(n);
    ghost var k := 0;
    assert b.edges == SetFrozen(g.edges, LinkSet(links[..0]), false);
    while i != base
      invariant 0 <= k <= |links| && IsSegment(b.infos, g, i, base, links[k..])
      invariant b.edges == SetFrozen(g.edges, LinkSet(links[..k]), false)
      decreases |links| - k, i.Some?
    {
      SegmentStep(b.infos, g, i, base, links, k);
      var child := FilterOrCowChild(b.infos, b.View(), i.value);
      assert child == FilterOrCowChild(b.infos, g, i.value);
      if child.Some? {
        SetFrozenStep(g.edges, links, k, false);
        assert b.edges[child.value].frozen;
        b.edges := b.edges[child.value := b.edges[child.value].(frozen := false)];
        k := k + 1;
        i := b.edges[child.value].target;
      } else {
        i := None;
      }
    }
    assert |links[k..]| == 0 && links[..k] == links;
    FlagsGood(b.infos, g, LinkSet(links), false);
  }

  lemma {:induction false} SegmentBelow(infos: Infos, g: Graph, i: Option<Node>, base: Option<Node>, links: seq<EdgeId>, k: nat)
    requires PointersOk(infos, g) && IsSegment(infos, g, i, base, links) && k < |links|
    ensures i.Some? && links[k] in g.edges && Reach(g.edges, i.value, g.edges[links[k]].owner)
    decreases |links|
  {
    ChildIsAttached(infos, g, i.value);
    if k > 0 {
      var t := g.edges[links[0]].target;
      SegmentBelow(infos, g, t, base, links[1..], k - 1);
      SelfReach(g.edges, i.value);
      ReachEdge(g.edges, i.value, links[0]);
      ReachTrans(g.edges, i.value, t.value, g.edges[links[k]].owner);
    }
  }

  /** No link is met twice. */
  lemma {:induction false} SegmentDistinct(infos: Infos, g: Graph, i: Option<Node>, base: Option<Node>, links: seq<EdgeId>)
    requires Good(infos, g) && IsSegment(infos, g, i, base, links)
    ensures forall j, k | 0 <= j < k < |links| :: links[j] != links[k]
    decreases |links|
  {
    if links != [] {
      ChildIsAttached(infos, g, i.value);
      SegmentDistinct(infos, g, g.edges[links[0]].target, base, links[1..]);
      forall j, k | 0 <= j < k < |links| ensures links[j] != links[k] {
        if j == 0 {
          SegmentBelow(infos, g, g.edges[links[0]].target, base, links[1..], k - 1);
        } else {
          assert links[j] == links[1..][j - 1] && links[k] == links[1..][k - 1];
        }
      }
    }
  }

  lemma FlagsSlot(infos: Infos, edges: Edges, s: set<EdgeId>, v: bool)
    ensures forall e | e in edges :: SlotOf(infos, SetFrozen(edges, s, v)[e]) == SlotOf(infos, edges[e])
  {
  }

  lemma FlagsPointer(infos: Infos, edges: Edges, slot: Slot, m: map<Node, EdgeId>, s: set<EdgeId>, v: bool)
    requires PointerOk(infos, edges, slot, m)
    ensures PointerOk(infos, SetFrozen(edges, s, v), slot, m)
  {
    var edges' := SetFrozen(edges, s, v);
    FlagsSlot(infos, edges, s, v);
    hide SlotOf;
    forall e | e in edges ensures SlotOf(infos, edges'[e]) == SlotOf(infos, edges[e]) &&
                                  (Attached(edges', e) <==> Attached(edges, e)) && edges'[e].owner == edges[e].owner {
    }
  }

  /** The frozen flags have no part in what makes a graph good. */
  lemma FlagsGood(infos: Infos, g: Graph, s: set<EdgeId>, v: bool)
    requires Good(infos, g)
    ensures Good(infos, g.(edges := SetFrozen(g.edges, s, v)))
  {
    hide PointerOk, Acyclic;
    var edges' := SetFrozen(g.edges, s, v);
    FlagsPointer(infos, g.edges, BackingSlot, g.backing, s, v);
    FlagsPointer(infos, g.edges, FileSlot, g.file, s, v);
    FlagsAcyclic(g.edges, s, v);
    FlagsConflictFree(g.edges, s, v);
    hide ConflictFree, InheritsEnd;
  }

  lemma FlagsConflictFree(edges: Edges, s: set<EdgeId>, v: bool)
    requires ConflictFree(edges)
    ensures ConflictFree(SetFrozen(edges, s, v))
  {
    var edges' := SetFrozen(edges, s, v);
    forall n: Node ensures NoConflict(edges', n) {
      assert NoConflict(edges, n);
      assert Parents(edges', n) == Parents(edges, n);
    }
  }

  lemma FlagsAcyclic(edges: Edges, s: set<EdgeId>, v: bool)
    requires Acyclic(edges)
    ensures Acyclic(SetFrozen(edges, s, v))
  {
    assert FewerLinks(SetFrozen(edges, s, v), edges);
    FewerLinksAcyclic(SetFrozen(edges, s, v), edges);
  }

  /** bdrv_freeze_backing_chain: all links of the segment become frozen, or nothing changes. */
  method FreezeBackingChain(b: BlockLayer, n: Node, base: Option<Node>, ghost links: seq<EdgeId>) returns (ok: bool)
    requires Valid(b) && IsSegment(b.infos, b.View(), Some(n), base, links)
    modifies b`edges
    ensures Valid(b)
    ensures ok <==> NoneFrozen(old(b.edges), links) && forall e | e in links :: Freezable(b.infos, old(b.edges), e)
    ensures !ok ==> b.View() == old(b.View())
    ensures ok ==> b.View() == old(b.View()).(edges := SetFrozen(old(b.edges), LinkSet(links), true))
  {
    hide Good, IsSegment, Freezable;
    SegmentInside(b.infos, b.View(), Some(n), base, links);
    var frozen := IsBackingChainFrozen(b, n, base, links);
    if frozen {
      return false;
    }
    ok := MayFreeze(b, n, base, links);
    if ok {
      FlagsGood(b.infos, b.View(), LinkSet(links), true);
      MarkFrozen(b, n, base, links);
    }
  }

  // ------------------------------------------------- segments that are held

  /** Who holds the links from `node` down to `base`. */
  datatype Hold = Hold(node: Node, base: Node)

  ghost predicate Owned(segs: seq<seq<EdgeId>>, e: EdgeId) {
    exists k :: 0 <= k < |segs| && e in segs[k]
  }

  /** The frozen links are the disjoint union of the held segments. */
  ghost predicate HoldsOk(infos: Infos, g: Graph, holds: seq<Hold>, segs: seq<seq<EdgeId>>) {
    && |segs| == |holds|
    && (forall k | 0 <= k < |holds| :: IsSegment(infos, g, Some(holds[k].node), Some(holds[k].base), segs[k]))
    && (forall j, k, e | 0 <= j < k < |segs| && e in segs[j] :: e !in segs[k])
    && forall e | Attached(g.edges, e) :: g.edges[e].frozen <==> Owned(segs, e)
  }

  /** A pointer to a frozen link stays. */
  lemma ChildKept(infos: Infos, g: Graph, g': Graph, n: Node)
    requires PointersOk(infos, g) && PointersOk(infos, g') && FrozenKept(g.edges, g'.edges)
    requires FilterOrCowChild(infos, g, n).Some? && g.edges[FilterOrCowChild(infos, g, n).value].frozen
    ensures FilterOrCowChild(infos, g', n) == FilterOrCowChild(infos, g, n)
  {
    ChildIsAttached(infos, g, n);
  }

  /** A segment with all its links frozen is still the segment after any operation that leaves frozen links alone. */
  lemma {:induction false} SegmentKept(infos: Infos, g: Graph, g': Graph, i: Option<Node>, base: Node, links: seq<EdgeId>)
    requires PointersOk(infos, g) && PointersOk(infos, g') && FrozenKept(g.edges, g'.edges)
    requires IsSegment(infos, g, i, Some(base), links) && AllFrozen(g.edges, links)
    ensures IsSegment(infos, g', i, Some(base), links)
    decreases |links|
  {
    if links != [] {
      ChildKept(infos, g, g', i.value);
      SegmentKept(infos, g, g', g.edges[links[0]].target, base, links[1..]);
    }
  }

  lemma HeldFrozen(infos: Infos, g: Graph, holds: seq<Hold>, segs: seq<seq<EdgeId>>, k: nat)
    requires HoldsOk(infos, g, holds, segs) && k < |holds|
    ensures AllFrozen(g.edges, segs[k])
  {
    SegmentInside(infos, g, Some(holds[k].node), Some(holds[k].base), segs[k]);
    forall e | e in segs[k] ensures e in g.edges && g.edges[e].frozen {
      assert Owned(segs, e);
    }
  }

  /** Whatever the graph operations do, the frozen links stay the disjoint union of the held segments. */
  lemma HoldsKept(infos: Infos, g: Graph, g': Graph, holds: seq<Hold>, segs: seq<seq<EdgeId>>)
    requires Shape(infos, g) && Shape(infos, g') && FrozenKept(g.edges, g'.edges) && HoldsOk(infos, g, holds, segs)
    ensures HoldsOk(infos, g', holds, segs)
  {
    forall k | 0 <= k < |holds| ensures IsSegment(infos, g', Some(holds[k].node), Some(holds[k].base), segs[k]) {
      HeldFrozen(infos, g, holds, segs, k);
      SegmentKept(infos, g, g', Some(holds[k].node), holds[k].base, segs[k]);
    }
    forall e | Attached(g'.edges, e) ensures g'.edges[e].frozen <==> Owned(segs, e) {
      if Owned(segs, e) {
        var k :| 0 <= k < |segs| && e in segs[k];
        HeldFrozen(infos, g, holds, segs, k);
        SegmentInside(infos, g, Some(holds[k].node), Some(holds[k].base), segs[k]);
      }
    }
  }

  /** Changing flags does not change segments. */
  lemma {:induction false} FlagsSegment(infos: Infos, g: Graph, s: set<EdgeId>, v: bool, i: Option<Node>, base: Option<Node>,
                                        links: seq<EdgeId>)
    requires IsSegment(infos, g, i, base, links)
    ensures IsSegment(infos, g.(edges := SetFrozen(g.edges, s, v)), i, base, links)
    decreases |links|
  {
    var g' := g.(edges := SetFrozen(g.edges, s, v));
    if i.Some? && i != base {
      assert FilterOrCowChild(infos, g', i.value) == FilterOrCowChild(infos, g, i.value);
      if links != [] {
        FlagsSegment(infos, g, s, v, g.edges[links[0]].target, base, links[1..]);
      }
    }
  }

  /** A successful freeze adds a segment that is disjoint from those held already. */
  lemma FreezeHolds(infos: Infos, g: Graph, holds: seq<Hold>, segs: seq<seq<EdgeId>>, n: Node, base: Node, links: seq<EdgeId>)
    requires HoldsOk(infos, g, holds, segs) && IsSegment(infos, g, Some(n), Some(base), links) && NoneFrozen(g.edges, links)
    ensures HoldsOk(infos, g.(edges := SetFrozen(g.edges, LinkSet(links), true)), holds + [Hold(n, base)], segs + [links])
  {
    var g' := g.(edges := SetFrozen(g.edges, LinkSet(links), true));
    var hs, ss := holds + [Hold(n, base)], segs + [links];
    SegmentInside(infos, g, Some(n), Some(base), links);
    forall k | 0 <= k < |hs| ensures IsSegment(infos, g', Some(hs[k].node), Some(hs[k].base), ss[k]) {
      FlagsSegment(infos, g, LinkSet(links), true, Some(hs[k].node), Some(hs[k].base), ss[k]);
    }
    forall j, k, e | 0 <= j < k < |ss| && e in ss[j] ensures e !in ss[k] {
      if k == |segs| {
        HeldFrozen(infos, g, holds, segs, j);
      }
    }
    forall e | Attached(g'.edges, e) ensures g'.edges[e].frozen <==> Owned(ss, e) {
      if Owned(segs, e) {
        var k :| 0 <= k < |segs| && e in segs[k];
        assert e in ss[k];
      }
      if e in links {
        assert e in ss[|segs|];
      }
    }
  }

  /** Letting go of a segment leaves the others frozen. */
  lemma UnfreezeHolds(infos: Infos, g: Graph, holds: seq<Hold>, segs: seq<seq<EdgeId>>, k: nat)
    requires HoldsOk(infos, g, holds, segs) && k < |holds|
    ensures HoldsOk(infos, g.(edges := SetFrozen(g.edges, LinkSet(segs[k]), false)), Without(holds, k), Without(segs, k))
  {
    hide IsSegment, Owned, Without;
    var g' := g.(edges := SetFrozen(g.edges, LinkSet(segs[k]), false));
    var hs, ss := Without(holds, k), Without(segs, k);
    forall j | 0 <= j < |hs| ensures IsSegment(infos, g', Some(hs[j].node), Some(hs[j].base), ss[j]) {
      var i := if j < k then j else j + 1;
      FlagsSegment(infos, g, LinkSet(segs[k]), false, Some(holds[i].node), Some(holds[i].base), segs[i]);
    }
    forall i, j, e | 0 <= i < j < |ss| && e in ss[i] ensures e !in ss[j] {
      assert e in segs[if i < k then i else i + 1];
    }
    forall e | Attached(g'.edges, e) ensures g'.edges[e].frozen <==> Owned(ss, e) {
      assert Attached(g.edges, e);
      OwnedWithout(segs, k, e);
    }
  }

  lemma OwnedWithout(segs: seq<seq<EdgeId>>, k: nat, e: EdgeId)
    requires k < |segs| && forall i, j, d | 0 <= i < j < |segs| && d in segs[i] :: d !in segs[j]
    ensures Owned(Without(segs, k), e) <==> Owned(segs, e) && e !in segs[k]
  {
    var ss := Without(segs, k);
    if Owned(ss, e) {
      var j :| 0 <= j < |ss| && e in ss[j];
      assert ss[j] == segs[if j < k then j else j + 1];
      assert e in segs[if j < k then j else j + 1];
    }
    if Owned(segs, e) && e !in segs[k] {
      var j :| 0 <= j < |segs| && e in segs[j];
      assert e in ss[if j < k then j else j - 1];
    }
  }

  function Without<T>(s: seq<T>, k: nat): (r: seq<T>)
    requires k < |s|
    ensures |r| == |s| - 1 && forall j | 0 <= j < |r| :: r[j] == s[if j < k then j else j + 1]
  {
    s[..k] + s[k + 1..]
  }

  /** Freezing on behalf of a new holder. */
  method Acquire(b: BlockLayer, holds: seq<Hold>, n: Node, base: Node, ghost segs: seq<seq<EdgeId>>, ghost links: seq<EdgeId>)
    returns (ok: bool, holds': seq<Hold>, ghost segs': seq<seq<EdgeId>>)
    requires Valid(b) && HoldsOk(b.infos, b.View(), holds, segs) && IsSegment(b.infos, b.View(), Some(n), Some(base), links)
    modifies b`edges
    ensures Valid(b) && HoldsOk(b.infos, b.View(), holds', segs')
    ensures if ok then holds' == holds + [Hold(n, base)] && segs' == segs + [links]
            else holds' == holds && segs' == segs && b.View() == old(b.View())
  {
    hide Good, HoldsOk, IsSegment;
    ghost var g := b.View();
    ok := FreezeBackingChain(b, n, Some(base), links);
    holds', segs' := holds, segs;
    if ok {
      FreezeHolds(b.infos, g, holds, segs, n, base, links);
      holds', segs' := holds + [Hold(n, base)], segs + [links];
    }
  }

  /** The matching unfreeze: it needs nothing but that the segment is held. */
  method Release(b: BlockLayer, holds: seq<Hold>, k: nat, ghost segs: seq<seq<EdgeId>>) returns (holds': seq<Hold>)
    requires Valid(b) && HoldsOk(b.infos, b.View(), holds, segs) && k < |holds|
    modifies b`edges
    ensures Valid(b) && holds' == Without(holds, k) && HoldsOk(b.infos, b.View(), holds', Without(segs, k))
  {
    hide Good;
    HeldFrozen(b.infos, b.View(), holds, segs, k);
    UnfreezeHolds(b.infos, b.View(), holds, segs, k);
    UnfreezeBackingChain(b, holds[k].node, Some(holds[k].base), segs[k]);
    holds' := Without(holds, k);
  }
}
