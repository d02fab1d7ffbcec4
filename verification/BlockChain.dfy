/**
  Backing chains (qemu/block.c): from a node down its COW and filter links.
 */
module BlockChain {
  import opened Wrappers
  import opened BlockGraph
  import opened BlockPerms
  import opened BlockUndo

  /** bdrv_filter_or_cow_child */
  function FilterOrCowChild(infos: Infos, g: Graph, n: Node): Option<EdgeId> {
    if n !in infos || infos[n].driver.None? then None
    else if n in g.backing then Some(g.backing[n])
    else if infos[n].driver.value.isFilter && n in g.file then Some(g.file[n])
    else None
  }

  /** Which child that is: of a filter the primary one, of any other node the COW child, or a primary child that it passes
      through and keeps as its backing file. */
  lemma ChainLink(infos: Infos, g: Graph, n: Node, e: EdgeId)
    requires PointersOk(infos, g) && n in infos && infos[n].driver.Some?
    ensures var d := infos[n].driver.value;
            FilterOrCowChild(infos, g, n) == Some(e) <==>
              Attached(g.edges, e) && g.edges[e].owner == n &&
              var role := g.edges[e].role;
              if d.isFilter || role.filtered then role.primary && (d.isFilter || d.filteredChildIsBacking) else role.cow
  {
    if Attached(g.edges, e) && g.edges[e].owner == n {
      assert SlotOf(infos, g.edges[e]) == BackingSlot ==> n in g.backing && g.backing[n] == e;
      assert SlotOf(infos, g.edges[e]) == FileSlot ==> n in g.file && g.file[n] == e;
    }
  }

  /** `links` are the COW and filter links met on the way down from `i` to `base`; a NULL base is below the last node. */
  ghost predicate IsSegment(infos: Infos, g: Graph, i: Option<Node>, base: Option<Node>, links: seq<EdgeId>)
    decreases |links|
  {
    if i == base then links == []
    else if i.None? then false
    else
      match FilterOrCowChild(infos, g, i.value)
      case None => base.None? && links == []
      case Some(e) =>
        && links != [] && links[0] == e && Attached(g.edges, e)
        && IsSegment(infos, g, g.edges[e].target, base, links[1..])
  }

  lemma {:induction false} SegmentUnique(infos: Infos, g: Graph, i: Option<Node>, base: Option<Node>, l: seq<EdgeId>,
                                         m: seq<EdgeId>)
    requires IsSegment(infos, g, i, base, l) && IsSegment(infos, g, i, base, m)
    ensures l == m
    decreases |l|
  {
    if l != [] {
      SegmentUnique(infos, g, g.edges[l[0]].target, base, l[1..], m[1..]);
      assert l == [l[0]] + l[1..] && m == [m[0]] + m[1..];
    }
  }

  lemma ChildIsAttached(infos: Infos, g: Graph, n: Node)
    requires PointersOk(infos, g) && FilterOrCowChild(infos, g, n).Some?
    ensures var e := FilterOrCowChild(infos, g, n).value; Attached(g.edges, e) && g.edges[e].owner == n
  {
  }

  /** On an acyclic graph the chain below every node ends, so a NULL base is always reachable. */
  lemma {:induction false} ChainEnds(infos: Infos, g: Graph, n: Node) returns (links: seq<EdgeId>)
    requires Shape(infos, g) && Acyclic(g.edges)
    ensures IsSegment(infos, g, Some(n), None, links)
    decreases Rank(g.edges, g.ctx.Keys, n)
  {
    var c := FilterOrCowChild(infos, g, n);
    if c.None? {
      links := [];
    } else {
      ChildIsAttached(infos, g, n);
      RankFalls(g.edges, g.ctx.Keys, c.value);
      var rest := ChainEnds(infos, g, g.edges[c.value].target.value);
      links := [c.value] + rest;
      assert links[1..] == rest;
    }
  }

  /** One step down the chain. */
  lemma SegmentStep(infos: Infos, g: Graph, i: Option<Node>, base: Option<Node>, links: seq<EdgeId>, k: nat)
    requires k <= |links| && IsSegment(infos, g, i, base, links[k..]) && i != base
    ensures i.Some?
    ensures var c := FilterOrCowChild(infos, g, i.value);
            if c.Some? then
              && k < |links| && links[k] == c.value && Attached(g.edges, c.value)
              && IsSegment(infos, g, g.edges[c.value].target, base, links[k + 1..])
            else k == |links| && base.None?
  {
    if k < |links| {
      assert links[k..][1..] == links[k + 1..] && links[k..][0] == links[k];
    }
  }

  lemma {:induction false} SegmentInside(infos: Infos, g: Graph, i: Option<Node>, base: Option<Node>, links: seq<EdgeId>)
    requires IsSegment(infos, g, i, base, links)
    ensures forall e | e in links :: Attached(g.edges, e)
    decreases |links|
  {
    if links != [] {
      SegmentInside(infos, g, g.edges[links[0]].target, base, links[1..]);
      assert forall e | e in links :: e == links[0] || e in links[1..];
    }
  }
}
