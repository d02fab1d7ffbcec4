/**
  Permissions of the block graph: what a node's parents ask of it together, what a
  driver asks of its children in turn, and when a set of nodes is settled.
 */
module BlockPerms {
  import opened Wrappers
  import opened BlockGraph

  /** The parts of BlockDriver that the graph code looks at.  `childPerm` is .bdrv_child_perm, `checkPerm` is
      .bdrv_check_perm; both are arbitrary. */
  datatype Driver = Driver(isFilter: bool, supportsBacking: bool, filteredChildIsBacking: bool,
                           childPerm: (Option<EdgeId>, Role, Perms, Perms) -> (Perms, Perms),
                           checkPerm: (Perms, Perms) -> bool)

  /** BlockDriverState fields that graph operations read and do not change. */
  datatype NodeInfo = NodeInfo(driver: Option<Driver>, writable: bool, sizeAligned: bool, forceShare: bool,
                               inactive: bool, neverFreeze: bool)

  type Infos = map<Node, NodeInfo>

  // ------------------------------------------------ cumulative permissions

  /** bdrv_get_cumulative_perm: what some parent uses, and what every parent shares. */
  function CumPerm(edges: Edges, n: Node): Perms {
    set e, p | e in Parents(edges, n) && p in edges[e].perm :: p
  }

  function CumShared(edges: Edges, n: Node): Perms {
    set p | p in ALL_PERMS && forall e | e in Parents(edges, n) :: p in edges[e].shared
  }

  /** bdrv_a_allow_b in both directions for every pair of parents. */
  predicate NoConflict(edges: Edges, n: Node) {
    forall a, b | a in Parents(edges, n) && b in Parents(edges, n) && a != b :: edges[b].perm <= edges[a].shared
  }

  ghost predicate ConflictFree(edges: Edges) {
    forall n: Node :: NoConflict(edges, n)
  }

  /** bdrv_child_perm: what node `n` asks of its child when its own parents ask for `perm` and `shared`. */
  function ChildPerm(infos: Infos, d: Driver, e: Option<EdgeId>, target: Node, role: Role, perm: Perms, shared: Perms):
    (Perms, Perms)
  {
    var (p, s) := d.childPerm(e, role, perm, shared);
    (p, if target in infos && infos[target].forceShare then ALL_PERMS else s)
  }

  predicate UsesWrite(perm: Perms) {
    Write in perm || WriteUnchanged in perm
  }

  /** The checks of bdrv_node_refresh_perm and bdrv_drv_set_perm on one node. */
  predicate Allowed(infos: Infos, edges: Edges, n: Node)
    requires n in infos
  {
    var i := infos[n];
    var perm, shared := CumPerm(edges, n), CumShared(edges, n);
    && (UsesWrite(perm) ==> i.writable)
    && (UsesWrite(perm) && Resize !in perm ==> i.sizeAligned)
    && (i.driver.Some? ==> i.driver.value.checkPerm(perm, shared))
  }

  /** Every child of `n` carries what the driver of `n` derives from the cumulative permissions of `n`. */
  predicate Fresh(infos: Infos, edges: Edges, n: Node)
    requires n in infos
  {
    infos[n].driver.Some? ==>
      forall e | e in Children(edges, n) :: FreshEdge(infos, edges, n, infos[n].driver.value, e)
  }

  predicate FreshEdge(infos: Infos, edges: Edges, n: Node, d: Driver, e: EdgeId)
    requires e in edges && edges[e].target.Some?
  {
    var x := edges[e];
    (x.perm, x.shared) ==
      ChildPerm(infos, d, Some(e), x.target.value, x.role, CumPerm(edges, n), CumShared(edges, n))
  }

  // --------------------------------------------------- sameness of graphs

  /** The two graphs differ in nothing but permissions. */
  ghost predicate SameLinks(a: Edges, b: Edges) {
    && a.Keys == b.Keys
    && forall e | e in a :: b[e] == a[e].(perm := b[e].perm, shared := b[e].shared)
  }

  /** ... and only on children of nodes in `s`. */
  ghost predicate SameOutside(a: Edges, b: Edges, s: set<Node>) {
    && SameLinks(a, b)
    && forall e | e in a && (a[e].owner !in s || a[e].target.None?) :: b[e] == a[e]
  }

  lemma SameLinksParents(a: Edges, b: Edges, n: Node)
    requires SameLinks(a, b)
    ensures Parents(a, n) == Parents(b, n) && Children(a, n) == Children(b, n)
  {
    assert forall e | e in a :: a[e].target == b[e].target && a[e].owner == b[e].owner;
  }

  /** Parents that agree give the same verdicts on the node. */
  ghost predicate SameParents(a: Edges, b: Edges, n: Node) {
    && Parents(a, n) == Parents(b, n)
    && forall e | e in Parents(a, n) :: a[e].perm == b[e].perm && a[e].shared == b[e].shared
  }

  lemma SameParentsSameCum(a: Edges, b: Edges, n: Node)
    requires SameParents(a, b, n)
    ensures CumPerm(a, n) == CumPerm(b, n) && CumShared(a, n) == CumShared(b, n)
    ensures NoConflict(a, n) <==> NoConflict(b, n)
  {
    forall p ensures p in CumPerm(a, n) <==> p in CumPerm(b, n) {
      if e :| e in Parents(a, n) && p in a[e].perm { assert e in Parents(b, n) && p in b[e].perm; }
      if e :| e in Parents(b, n) && p in b[e].perm { assert e in Parents(a, n) && p in a[e].perm; }
    }
  }

  // ------------------------------------------- topologically sorted lists

  /** No node twice, and every child of a listed node is listed further on. */
  ghost predicate TopoSorted(edges: Edges, list: seq<Node>) {
    && (forall i, j | 0 <= i < j < |list| :: list[i] != list[j])
    && forall i, e | 0 <= i < |list| && e in Children(edges, list[i]) ::
         edges[e].target.value in list[i + 1..]
  }

  lemma SortedParents(edges: Edges, list: seq<Node>, i: nat, e: EdgeId)
    requires TopoSorted(edges, list) && i < |list| && e in Parents(edges, list[i]) && edges[e].owner in list
    ensures edges[e].owner in list[..i]
  {
    var k :| 0 <= k < |list| && list[k] == edges[e].owner;
    assert e in Children(edges, list[k]);
    var j :| k < j < |list| && list[j] == edges[e].target.value;
    assert j == i;
    assert list[..i][k] == edges[e].owner;
  }

  function Elements(list: seq<Node>): set<Node> {
    set n | n in list
  }

  // --------------------------------------------------- the settled graph

  /** `sol` has the links of `edges`, keeps every permission that the listed nodes do not decide, and settles each listed
      node: fresh children, no conflict among its parents, and permissions the node and its driver accept. */
  ghost predicate Settled(infos: Infos, edges: Edges, list: seq<Node>, sol: Edges) {
    && SameLinks(edges, sol)
    && (forall e | e in edges && !Decided(infos, edges, Elements(list), e) :: sol[e] == edges[e])
    && forall n | n in list :: n in infos && SettledNode(infos, sol, n)
  }

  ghost predicate SettledNode(infos: Infos, sol: Edges, n: Node)
    requires n in infos
  {
    Fresh(infos, sol, n) && NoConflict(sol, n) && Allowed(infos, sol, n)
  }

  /** What a settled node is, in terms of its edges alone: `used` is what some parent uses, `shared` what every parent
      shares.  No parent uses what another one does not share, a node that may not be written is not written to, a request
      that is not aligned to the end of the node may only be made with the permission to resize, the driver accepts the
      permissions, and each child has those that the driver answers. */
  lemma SettledMeans(infos: Infos, sol: Edges, n: Node, used: Perms, shared: Perms)
    requires n in infos
    requires forall p: Perm :: p in used <==> exists e | e in sol && sol[e].target == Some(n) :: p in sol[e].perm
    requires forall p: Perm :: p in shared <==> forall e | e in sol && sol[e].target == Some(n) :: p in sol[e].shared
    ensures SettledNode(infos, sol, n) <==>
            && (forall a, b | a in sol && b in sol && a != b && sol[a].target == Some(n) == sol[b].target ::
                  forall p | p in sol[b].perm :: p in sol[a].shared)
            && (Write in used || WriteUnchanged in used ==> infos[n].writable && (Resize in used || infos[n].sizeAligned))
            && (infos[n].driver.Some? ==>
                  && infos[n].driver.value.checkPerm(used, shared)
                  && forall c | c in sol && sol[c].owner == n && sol[c].target.Some? ::
                       Answered(infos, infos[n].driver.value.childPerm(Some(c), sol[c].role, used, shared), sol[c]))
  {
    assert forall e :: e in Parents(sol, n) <==> e in sol && sol[e].target == Some(n);
    assert used == CumPerm(sol, n);
    assert shared == CumShared(sol, n) by {
      forall p: Perm ensures p in shared <==> p in CumShared(sol, n) {
        assert p.ConsistentRead? || p.Write? || p.WriteUnchanged? || p.Resize?;
      }
    }
    hide CumPerm, CumShared;
    assert NoConflict(sol, n) <==>
      forall a, b | a in sol && b in sol && a != b && sol[a].target == Some(n) == sol[b].target ::
        forall p | p in sol[b].perm :: p in sol[a].shared;
    if infos[n].driver.Some? {
      var d := infos[n].driver.value;
      forall c | c in Children(sol, n)
        ensures FreshEdge(infos, sol, n, d, c) <==> Answered(infos, d.childPerm(Some(c), sol[c].role, used, shared), sol[c])
      {
      }
      hide FreshEdge, Answered;
      assert Fresh(infos, sol, n) <==> forall c | c in sol && sol[c].owner == n && sol[c].target.Some? ::
        Answered(infos, d.childPerm(Some(c), sol[c].role, used, shared), sol[c]);
    }
  }

  /** The child has the permissions `answer`, but shares everything if its node is opened with force-share. */
  predicate Answered(infos: Infos, answer: (Perms, Perms), child: Edge)
    requires child.target.Some?
  {
    var t := child.target.value;
    && child.perm == answer.0
    && child.shared == if t in infos && infos[t].forceShare then {ConsistentRead, Write, WriteUnchanged, Resize} else answer.1
  }

  /** The permissions of `e` are set by its owner, a node of `s` with a driver. */
  predicate Decided(infos: Infos, edges: Edges, s: set<Node>, e: EdgeId) {
    && Attached(edges, e) && edges[e].owner in s
    && edges[e].owner in infos && infos[edges[e].owner].driver.Some?
  }

  /** A graph in which the first k listed nodes are fresh agrees with every settled graph on the parents of those nodes
      and of the next one, so a refusal found there is found in every settled graph. */
  lemma {:induction false} FreshAgrees(infos: Infos, edges: Edges, cur: Edges, sol: Edges, list: seq<Node>, k: nat, i: nat)
    requires TopoSorted(edges, list) && i <= k <= |list| && i < |list|
    requires Settled(infos, edges, list, sol)
    requires SameLinks(edges, cur)
    requires forall e | e in edges && !Decided(infos, edges, Elements(list[..k]), e) :: cur[e] == edges[e]
    requires forall j | 0 <= j < k :: list[j] in infos && Fresh(infos, cur, list[j])
    ensures SameParents(cur, sol, list[i])
    decreases i
  {
    SameLinksParents(edges, cur, list[i]);
    SameLinksParents(edges, sol, list[i]);
    forall e | e in Parents(cur, list[i])
      ensures cur[e].perm == sol[e].perm && cur[e].shared == sol[e].shared
    {
      if Decided(infos, edges, Elements(list), e) {
        SortedParents(edges, list, i, e);
        var j :| 0 <= j < i && list[j] == edges[e].owner;
        FreshAgrees(infos, edges, cur, sol, list, k, j);
        SameChild(infos, edges, cur, sol, list[j], e);
      }
    }
  }

  lemma SameChild(infos: Infos, edges: Edges, cur: Edges, sol: Edges, o: Node, e: EdgeId)
    requires SameLinks(edges, cur) && SameLinks(edges, sol) && e in Children(edges, o)
    requires o in infos && infos[o].driver.Some? && Fresh(infos, cur, o) && Fresh(infos, sol, o)
    requires SameParents(cur, sol, o)
    ensures cur[e].perm == sol[e].perm && cur[e].shared == sol[e].shared
  {
    SameLinksParents(edges, cur, o);
    SameLinksParents(edges, sol, o);
    SameParentsSameCum(cur, sol, o);
    assert FreshEdge(infos, cur, o, infos[o].driver.value, e);
    assert FreshEdge(infos, sol, o, infos[o].driver.value, e);
  }

  lemma SettledUniqueAt(infos: Infos, edges: Edges, list: seq<Node>, s: Edges, t: Edges, e: EdgeId)
    requires TopoSorted(edges, list) && Settled(infos, edges, list, s) && Settled(infos, edges, list, t)
    requires e in edges
    ensures s[e] == t[e]
  {
    if Decided(infos, edges, Elements(list), e) {
      var o := edges[e].owner;
      assert o in list;
      var i :| 0 <= i < |list| && list[i] == o;
      assert list[..|list|] == list;
      forall j | 0 <= j < |list| ensures list[j] in infos && Fresh(infos, s, list[j]) {
        assert list[j] in list;
        assert SettledNode(infos, s, list[j]);
      }
      assert SettledNode(infos, t, o);
      FreshAgrees(infos, edges, s, t, list, |list|, i);
      SameChild(infos, edges, s, t, o, e);
    }
  }

  /** A sorted list has at most one settled graph. */
  lemma SettledUnique(infos: Infos, edges: Edges, list: seq<Node>, s: Edges, t: Edges)
    requires TopoSorted(edges, list) && Settled(infos, edges, list, s) && Settled(infos, edges, list, t)
    ensures s == t
  {
    forall e | e in edges ensures s[e] == t[e] {
      SettledUniqueAt(infos, edges, list, s, t, e);
    }
  }

  // ---------------------------------------------------- refreshing a node

  function RefreshedEdge(infos: Infos, d: Driver, perm: Perms, shared: Perms, e: EdgeId, x: Edge): Edge {
    if x.target.None? then x
    else
      var (p, s) := ChildPerm(infos, d, Some(e), x.target.value, x.role, perm, shared);
      x.(perm := p, shared := s)
  }

  /** The edges after the children in `done` have been given what driver `d` derives from `perm` and `shared`. */
  function Refreshed(infos: Infos, edges: Edges, d: Driver, perm: Perms, shared: Perms, done: set<EdgeId>): Edges {
    map e | e in edges :: if e in done then RefreshedEdge(infos, d, perm, shared, e, edges[e]) else edges[e]
  }

  lemma RefreshedStep(infos: Infos, edges: Edges, d: Driver, perm: Perms, shared: Perms, done: set<EdgeId>, c: EdgeId)
    requires Attached(edges, c) && c !in done
    ensures var cur := Refreshed(infos, edges, d, perm, shared, done);
            && c in cur && cur[c] == edges[c]
            && var x := RefreshedEdge(infos, d, perm, shared, c, edges[c]);
               cur[c := cur[c].(perm := x.perm, shared := x.shared)] == Refreshed(infos, edges, d, perm, shared, done + {c})
  {
  }

  /** No child of `m` is `n`. */
  ghost predicate NoChild(edges: Edges, m: Node, n: Node) {
    forall e | e in Children(edges, m) :: edges[e].target != Some(n)
  }

  lemma ChangedBelow(a: Edges, b: Edges, m: Node, n: Node)
    requires SameOutside(a, b, {m}) && NoChild(a, m, n)
    ensures SameParents(a, b, n)
  {
    SameLinksParents(a, b, n);
    forall e | e in Parents(a, n) ensures a[e].perm == b[e].perm && a[e].shared == b[e].shared {
      assert a[e].owner == m ==> e in Children(a, m);
    }
  }

  lemma RefreshedFresh(infos: Infos, edges: Edges, n: Node, d: Driver)
    requires n in infos && infos[n].driver == Some(d) && NoChild(edges, n, n)
    ensures var r := Refreshed(infos, edges, d, CumPerm(edges, n), CumShared(edges, n), Children(edges, n));
            SameOutside(edges, r, {n}) && Fresh(infos, r, n) && SameParents(edges, r, n)
  {
    var r := Refreshed(infos, edges, d, CumPerm(edges, n), CumShared(edges, n), Children(edges, n));
    assert SameOutside(edges, r, {n});
    ChangedBelow(edges, r, n, n);
    SameParentsSameCum(edges, r, n);
    SameLinksParents(edges, r, n);
  }

  /** Refreshing `m` leaves every settled node that is not its child settled. */
  lemma StaysSettled(infos: Infos, a: Edges, b: Edges, m: Node, n: Node)
    requires n in infos && SettledNode(infos, a, n) && n != m && SameOutside(a, b, {m}) && NoChild(a, m, n)
    ensures SettledNode(infos, b, n)
  {
    ChangedBelow(a, b, m, n);
    SameParentsSameCum(a, b, n);
    SameLinksParents(a, b, n);
    if infos[n].driver.Some? {
      forall e | e in Children(b, n) ensures FreshEdge(infos, b, n, infos[n].driver.value, e) {
        assert a[e] == b[e] && FreshEdge(infos, a, n, infos[n].driver.value, e);
      }
    }
  }

  /** In a sorted list a later node has no earlier one, and not itself, as a child. */
  lemma SortedNoChild(edges: Edges, list: seq<Node>, i: nat, j: nat)
    requires TopoSorted(edges, list) && i <= j < |list|
    ensures NoChild(edges, list[j], list[i])
  {
    forall e | e in Children(edges, list[j]) ensures edges[e].target != Some(list[i]) {
      var k :| j < k < |list| && list[k] == edges[e].target.value;
    }
  }
}
