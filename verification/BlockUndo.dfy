/**
  What the graph operations of qemu/block.c change, as a value, and the undo log of
  a transaction over it (qemu/util/transactions.c): actions are undone and committed
  last in, first out.
 */
module BlockUndo {
  import opened Wrappers
  import opened BlockGraph
  import opened BlockPerms
  import opened BlockAio

  /** `refs` are the reference counts as they are once the scheduled unrefs have run. */
  datatype Graph = Graph(edges: Edges, backing: map<Node, EdgeId>, file: map<Node, EdgeId>, ctx: map<Node, Ctx>,
                         inherits: map<Node, Node>, refs: map<Node, int>)

  // -------------------------------------------------- bs->backing, bs->file

  datatype Slot = NoSlot | BackingSlot | FileSlot

  /** The pointer that bdrv_child_cb_attach sets for a child. */
  function SlotOf(infos: Infos, x: Edge): Slot {
    if x.owner !in infos || infos[x.owner].driver.None? then NoSlot
    else
      var d := infos[x.owner].driver.value;
      if d.isFilter || x.role.filtered then
        if !x.role.primary then NoSlot else if d.filteredChildIsBacking then BackingSlot else FileSlot
      else if x.role.cow then BackingSlot
      else if x.role.primary then FileSlot
      else NoSlot
  }

  /** The pointers `m` name exactly the attached children that belong in `slot`. */
  ghost predicate PointerOk(infos: Infos, edges: Edges, slot: Slot, m: map<Node, EdgeId>) {
    && (forall e | Attached(edges, e) && SlotOf(infos, edges[e]) == slot :: edges[e].owner in m && m[edges[e].owner] == e)
    && (forall n | n in m :: Attached(edges, m[n]) && edges[m[n]].owner == n && SlotOf(infos, edges[m[n]]) == slot)
  }

  /** The child of a filter, or a child that its parent passes through. */
  predicate Filtering(infos: Infos, x: Edge) {
    x.owner in infos && infos[x.owner].driver.Some? && (infos[x.owner].driver.value.isFilter || x.role.filtered)
  }

  /** A filtered child has the two pointers of its parent to itself. */
  ghost predicate OnePointer(infos: Infos, g: Graph) {
    forall n | n in g.backing && n in g.file ::
      && g.backing[n] in g.edges && !Filtering(infos, g.edges[g.backing[n]])
      && g.file[n] in g.edges && !Filtering(infos, g.edges[g.file[n]])
  }

  ghost predicate PointersOk(infos: Infos, g: Graph) {
    && PointerOk(infos, g.edges, BackingSlot, g.backing) && PointerOk(infos, g.edges, FileSlot, g.file)
    && OnePointer(infos, g)
  }

  /** bdrv_child_cb_attach asserts that the pointer it sets is NULL, and for a filtered child that both are; a parent with a
      filtered child gets no other one that needs a pointer. */
  predicate SlotFree(infos: Infos, g: Graph, x: Edge) {
    match SlotOf(infos, x)
    case NoSlot => true
    case BackingSlot => x.owner !in g.backing && OtherFree(infos, g.edges, g.file, x)
    case FileSlot => x.owner !in g.file && OtherFree(infos, g.edges, g.backing, x)
  }

  /** The other pointer of the parent, `m`, does not stand in the way of `x`. */
  predicate OtherFree(infos: Infos, edges: Edges, m: map<Node, EdgeId>, x: Edge) {
    x.owner in m ==> !Filtering(infos, x) && m[x.owner] in edges && !Filtering(infos, edges[m[x.owner]])
  }

  /** bdrv_child_cb_detach, then bdrv_child_cb_attach if there is a new node, on one of the two pointers. */
  function Repoint(infos: Infos, m: map<Node, EdgeId>, slot: Slot, e: EdgeId, x: Edge, t: Option<Node>): map<Node, EdgeId> {
    var m1 := if x.target.Some? && x.owner in m && m[x.owner] == e then m - {x.owner} else m;
    if t.Some? && SlotOf(infos, x) == slot then m1[x.owner := e] else m1
  }

  /** bdrv_replace_child_noperm: detach, point elsewhere, attach. */
  function Redirect(infos: Infos, g: Graph, e: EdgeId, t: Option<Node>): Graph
    requires e in g.edges
  {
    var x := g.edges[e];
    g.(edges := g.edges[e := x.(target := t)],
       backing := Repoint(infos, g.backing, BackingSlot, e, x, t),
       file := Repoint(infos, g.file, FileSlot, e, x, t))
  }

  lemma RepointOk(infos: Infos, edges: Edges, m: map<Node, EdgeId>, slot: Slot, e: EdgeId, t: Option<Node>)
    requires PointerOk(infos, edges, slot, m) && e in edges
    requires edges[e].target.None? && t.Some? && SlotOf(infos, edges[e]) == slot ==> edges[e].owner !in m
    ensures PointerOk(infos, edges[e := edges[e].(target := t)], slot, Repoint(infos, m, slot, e, edges[e], t))
  {
    var x := edges[e];
    var edges' := edges[e := x.(target := t)];
    var m' := Repoint(infos, m, slot, e, x, t);
    assert SlotOf(infos, x.(target := t)) == SlotOf(infos, x);
    forall d | Attached(edges', d) && SlotOf(infos, edges'[d]) == slot
      ensures edges'[d].owner in m' && m'[edges'[d].owner] == d
    {
      if d != e { assert Attached(edges, d) && edges'[d] == edges[d]; }
    }
    forall n | n in m'
      ensures Attached(edges', m'[n]) && edges'[m'[n]].owner == n && SlotOf(infos, edges'[m'[n]]) == slot
    {
      if n != x.owner { assert m'[n] == m[n] && m[n] != e && Attached(edges, m[n]); }
    }
  }

  lemma RepointBack(infos: Infos, edges: Edges, m: map<Node, EdgeId>, slot: Slot, e: EdgeId, t: Option<Node>)
    requires PointerOk(infos, edges, slot, m) && e in edges && (edges[e].target.Some? || t.None?)
    ensures Repoint(infos, Repoint(infos, m, slot, e, edges[e], t), slot, e, edges[e].(target := t), edges[e].target) == m
  {
  }

  lemma RedirectPointers(infos: Infos, g: Graph, e: EdgeId, t: Option<Node>)
    requires PointersOk(infos, g) && e in g.edges
    requires g.edges[e].target.None? && t.Some? ==> SlotFree(infos, g, g.edges[e])
    ensures PointersOk(infos, Redirect(infos, g, e, t))
  {
    RepointOk(infos, g.edges, g.backing, BackingSlot, e, t);
    RepointOk(infos, g.edges, g.file, FileSlot, e, t);
    RedirectOne(infos, g, e, t);
  }

  lemma RedirectOne(infos: Infos, g: Graph, e: EdgeId, t: Option<Node>)
    requires PointersOk(infos, g) && e in g.edges
    requires g.edges[e].target.None? && t.Some? ==> SlotFree(infos, g, g.edges[e])
    ensures OnePointer(infos, Redirect(infos, g, e, t))
  {
    var x, g' := g.edges[e], Redirect(infos, g, e, t);
    hide Filtering, SlotOf;
    forall d | d in g.edges ensures Filtering(infos, g'.edges[d]) == Filtering(infos, g.edges[d]) {
      SameFiltering(infos, g.edges[d], g'.edges[d]);
    }
    forall n | n in g'.backing && n in g'.file
      ensures g'.backing[n] in g.edges && !Filtering(infos, g.edges[g'.backing[n]])
      ensures g'.file[n] in g.edges && !Filtering(infos, g.edges[g'.file[n]])
    {
      if n == x.owner {
        RedirectOwn(infos, g, e, t);
      }
    }
  }

  /** The pointers of the parent itself. */
  lemma RedirectOwn(infos: Infos, g: Graph, e: EdgeId, t: Option<Node>)
    requires PointersOk(infos, g) && e in g.edges
    requires g.edges[e].target.None? && t.Some? ==> SlotFree(infos, g, g.edges[e])
    ensures var n, g' := g.edges[e].owner, Redirect(infos, g, e, t);
            n in g'.backing && n in g'.file ==>
              && g'.backing[n] in g.edges && !Filtering(infos, g.edges[g'.backing[n]])
              && g'.file[n] in g.edges && !Filtering(infos, g.edges[g'.file[n]])
  {
    hide Filtering, SlotOf;
  }

  lemma RedirectBack(infos: Infos, g: Graph, e: EdgeId, t: Option<Node>)
    requires PointersOk(infos, g) && e in g.edges && (g.edges[e].target.Some? || t.None?)
    ensures Redirect(infos, Redirect(infos, g, e, t), e, g.edges[e].target) == g
  {
    RepointBack(infos, g.edges, g.backing, BackingSlot, e, t);
    RepointBack(infos, g.edges, g.file, FileSlot, e, t);
    assert g.edges[e := g.edges[e].(target := t)][e := g.edges[e]] == g.edges;
  }

  // ------------------------------------------------------- inherits_from

  /** Following inherits_from never comes back: every set of nodes has one that inherits from outside. */
  ghost predicate InheritsEnd(inherits: map<Node, Node>) {
    forall s: set<Node> | s != {} && s <= inherits.Keys :: exists n :: n in s && inherits[n] !in s
  }

  // ------------------------------------------------------------- undo log

  datatype Undo =
    | UndoPerm(e: EdgeId, perm: Perms, shared: Perms)       // bdrv_child_set_perm
    | UndoReplace(e: EdgeId, was: Option<Node>)             // bdrv_replace_child_tran
    | UndoAttach(e: EdgeId, parentCtx: Ctx, childCtx: Ctx)  // bdrv_attach_child_common
    | UndoInherits(n: Node, from: Option<Node>)             // bdrv_set_inherits_from
    | Drop(e: EdgeId)                                       // bdrv_remove_child: free on commit

  function SetPerm(edges: Edges, e: EdgeId, perm: Perms, shared: Perms): Edges
    requires e in edges
  {
    edges[e := edges[e].(perm := perm, shared := shared)]
  }

  function AddRef(refs: map<Node, int>, n: Option<Node>, k: int): map<Node, int> {
    if n.Some? && n.value in refs then refs[n.value := refs[n.value] + k] else refs
  }

  function SetInherits(inherits: map<Node, Node>, n: Node, from: Option<Node>): map<Node, Node> {
    if from.Some? then inherits[n := from.value] else inherits - {n}
  }

  function Detached(edges: Edges, e: EdgeId): Edges
    requires e in edges
  {
    edges[e := edges[e].(target := None)]
  }

  /** What the abort callback of an action does. */
  ghost function UndoOne(infos: Infos, a: Undo, g: Graph): Graph
    requires UndoPre(infos, a, g)
  {
    match a
    case UndoPerm(e, p, s) => g.(edges := SetPerm(g.edges, e, p, s))
    case UndoReplace(e, was) => Redirect(infos, g, e, was).(refs := AddRef(g.refs, g.edges[e].target, -1))
    case UndoAttach(e, pc, cc) =>
      var x := g.edges[e];
      var edges := Detached(g.edges, e);
      Graph(edges - {e},
            Repoint(infos, g.backing, BackingSlot, e, x, None), Repoint(infos, g.file, FileSlot, e, x, None),
            MoveCtx(edges, MoveCtx(edges, g.ctx, x.target.value, cc), x.owner, pc),
            g.inherits, AddRef(g.refs, x.target, -1))
    case UndoInherits(n, from) => g.(inherits := SetInherits(g.inherits, n, from))
    case Drop(_) => g
  }

  /** Well-formed graphs. */
  ghost predicate Shape(infos: Infos, g: Graph) {
    && Over(g.edges, g.ctx.Keys) && infos.Keys <= g.ctx.Keys && Movables(infos.Keys, g.edges)
    && PointersOk(infos, g) && Uniform(g.edges, g.ctx) && g.refs.Keys == infos.Keys
  }

  lemma TargetIsNode(infos: Infos, g: Graph, e: EdgeId)
    requires Shape(infos, g) && Attached(g.edges, e)
    ensures g.edges[e].target.value in infos && g.edges[e].owner in g.ctx && g.edges[e].target.value in g.ctx
  {
  }

  /** What an abort callback relies on. */
  ghost predicate UndoPre(infos: Infos, a: Undo, g: Graph) {
    && Shape(infos, g)
    && match a
       case UndoPerm(e, _, _) => e in g.edges
       case UndoReplace(e, was) =>
         && e in g.edges && !g.edges[e].frozen && was.Some? && g.edges[e].target != was
         && (g.edges[e].target.Some? ==> was.value in g.ctx && g.ctx[was.value] == g.ctx[g.edges[e].target.value])
         && (g.edges[e].target.None? ==> SlotFree(infos, g, g.edges[e]))
       case UndoAttach(e, pc, cc) =>
         && Attached(g.edges, e) && !g.edges[e].frozen
         && var x := g.edges[e];
            var n := x.target.value;
            var edges := Detached(g.edges, e);
            && (g.ctx[n] != cc ==> CanMoveCtx(edges, g.ctx, n))
            && var ctx := MoveCtx(edges, g.ctx, n, cc);
               ctx[x.owner] != pc ==> x.movable && CanMoveCtx(edges, ctx, x.owner)
       case UndoInherits(_, _) => true
       case Drop(_) => true
  }

  /** Undoing the log from `g` succeeds and leads back to `g0`. */
  ghost predicate Tracks(infos: Infos, log: seq<Undo>, g: Graph, g0: Graph)
    decreases |log|
  {
    if log == [] then g == g0
    else
      var a := log[|log| - 1];
      UndoPre(infos, a, g) && Tracks(infos, log[..|log| - 1], UndoOne(infos, a, g), g0)
  }

  lemma TrackStep(infos: Infos, log: seq<Undo>, a: Undo, g: Graph, g': Graph, g0: Graph)
    requires Tracks(infos, log, g, g0) && UndoPre(infos, a, g') && UndoOne(infos, a, g') == g
    ensures Tracks(infos, log + [a], g', g0)
  {
    assert (log + [a])[..|log|] == log;
  }

  // --------------------------------------------- what a transaction keeps

  /** The reference that a replaced node left with the transaction. */
  function Held(log: seq<Undo>, n: Node): nat {
    if log == [] then 0
    else Held(log[..|log| - 1], n) + (if log[|log| - 1].UndoReplace? && log[|log| - 1].was == Some(n) then 1 else 0)
  }

  /** References to a node that are not those of its parents. */
  function Users(g: Graph, n: Node): int
    requires n in g.refs
  {
    g.refs[n] - |Parents(g.edges, n)|
  }

  /** Every reference is accounted for: parents, outside users, and what the transaction holds. */
  ghost predicate Balanced(log: seq<Undo>, g: Graph, g0: Graph) {
    && g.refs.Keys == g0.refs.Keys
    && forall n | n in g.refs :: Users(g, n) - Held(log, n) == Users(g0, n)
  }

  /** Children waiting to be freed have no node; replaced nodes are block nodes. */
  ghost predicate DropsOk(infos: Infos, log: seq<Undo>, edges: Edges) {
    && (forall i | 0 <= i < |log| && log[i].Drop? :: log[i].e in edges && edges[log[i].e].target.None?)
    && (forall i | 0 <= i < |log| && log[i].UndoReplace? :: log[i].was.Some? && log[i].was.value in infos)
  }

  /** The state of a transaction that began at `g0`. */
  ghost predicate InTran(infos: Infos, log: seq<Undo>, g: Graph, g0: Graph) {
    Shape(infos, g) && Tracks(infos, log, g, g0) && Balanced(log, g, g0) && DropsOk(infos, log, g.edges)
  }

  lemma HeldSnoc(log: seq<Undo>, a: Undo, n: Node)
    ensures Held(log + [a], n) == Held(log, n) + (if a.UndoReplace? && a.was == Some(n) then 1 else 0)
  {
    assert (log + [a])[..|log|] == log;
  }

  lemma SameLinksSlot(infos: Infos, edges: Edges, edges': Edges)
    requires SameLinks(edges, edges')
    ensures forall e | e in edges :: SlotOf(infos, edges'[e]) == SlotOf(infos, edges[e])
  {
  }

  lemma SameLinksPointer(infos: Infos, edges: Edges, edges': Edges, slot: Slot, m: map<Node, EdgeId>)
    requires PointerOk(infos, edges, slot, m) && SameLinks(edges, edges')
    ensures PointerOk(infos, edges', slot, m)
  {
    SameLinksSlot(infos, edges, edges');
    hide SlotOf;
    forall e | e in edges
      ensures edges'[e].owner == edges[e].owner && edges'[e].target == edges[e].target
      ensures SlotOf(infos, edges'[e]) == SlotOf(infos, edges[e])
    {
    }
    forall e | Attached(edges', e) && SlotOf(infos, edges'[e]) == slot
      ensures edges'[e].owner in m && m[edges'[e].owner] == e
    {
      assert Attached(edges, e);
    }
  }

  lemma SameLinksOne(infos: Infos, g: Graph, g': Graph)
    requires OnePointer(infos, g) && SameLinks(g.edges, g'.edges) && g' == g.(edges := g'.edges)
    ensures OnePointer(infos, g')
  {
    hide Filtering;
    forall e | e in g.edges ensures Filtering(infos, g'.edges[e]) == Filtering(infos, g.edges[e]) {
      SameFiltering(infos, g.edges[e], g'.edges[e]);
    }
  }

  lemma SameLinksShape(infos: Infos, g: Graph, g': Graph)
    requires Shape(infos, g) && SameLinks(g.edges, g'.edges) && g' == g.(edges := g'.edges)
    ensures Shape(infos, g')
  {
    SameLinksPointer(infos, g.edges, g'.edges, BackingSlot, g.backing);
    SameLinksPointer(infos, g.edges, g'.edges, FileSlot, g.file);
    SameLinksOne(infos, g, g');
    hide PointerOk, OnePointer;
    forall e | Attached(g'.edges, e)
      ensures Attached(g.edges, e) && g'.edges[e].owner == g.edges[e].owner && g'.edges[e].target == g.edges[e].target
      ensures g'.edges[e].movable == g.edges[e].movable
    {
    }
  }

  lemma PermUndo(infos: Infos, g: Graph, e: EdgeId, perm: Perms, shared: Perms)
    requires Shape(infos, g) && e in g.edges
    ensures UndoPre(infos, UndoPerm(e, g.edges[e].perm, g.edges[e].shared), g.(edges := SetPerm(g.edges, e, perm, shared)))
    ensures UndoOne(infos, UndoPerm(e, g.edges[e].perm, g.edges[e].shared),
                    g.(edges := SetPerm(g.edges, e, perm, shared))) == g
  {
    SameLinksShape(infos, g, g.(edges := SetPerm(g.edges, e, perm, shared)));
    PermBack(g.edges, e, perm, shared);
  }

  lemma PermBack(edges: Edges, e: EdgeId, perm: Perms, shared: Perms)
    requires e in edges
    ensures SetPerm(SetPerm(edges, e, perm, shared), e, edges[e].perm, edges[e].shared) == edges
    ensures SameLinks(edges, SetPerm(edges, e, perm, shared))
  {
  }

  lemma PermStep(infos: Infos, log: seq<Undo>, g: Graph, g0: Graph, e: EdgeId, perm: Perms, shared: Perms)
    requires InTran(infos, log, g, g0) && e in g.edges
    ensures InTran(infos, log + [UndoPerm(e, g.edges[e].perm, g.edges[e].shared)],
                   g.(edges := SetPerm(g.edges, e, perm, shared)), g0)
  {
    var a := UndoPerm(e, g.edges[e].perm, g.edges[e].shared);
    var g' := g.(edges := SetPerm(g.edges, e, perm, shared));
    PermUndo(infos, g, e, perm, shared);
    TrackStep(infos, log, a, g, g', g0);
    SameLinksBalance(infos, log, a, g, g', g0);
  }

  lemma SameLinksBalance(infos: Infos, log: seq<Undo>, a: Undo, g: Graph, g': Graph, g0: Graph)
    requires Balanced(log, g, g0) && DropsOk(infos, log, g.edges) && !a.UndoReplace? && !a.Drop?
    requires SameLinks(g.edges, g'.edges) && g'.refs == g.refs
    ensures Balanced(log + [a], g', g0) && DropsOk(infos, log + [a], g'.edges)
  {
    forall n | n in g'.refs ensures Users(g', n) - Held(log + [a], n) == Users(g0, n) {
      HeldSnoc(log, a, n);
      SameLinksParents(g.edges, g'.edges, n);
    }
  }

  lemma InheritsStep(infos: Infos, log: seq<Undo>, g: Graph, g0: Graph, n: Node, from: Option<Node>)
    requires InTran(infos, log, g, g0)
    ensures InTran(infos, log + [UndoInherits(n, if n in g.inherits then Some(g.inherits[n]) else None)],
                   g.(inherits := SetInherits(g.inherits, n, from)), g0)
  {
    var a := UndoInherits(n, if n in g.inherits then Some(g.inherits[n]) else None);
    var g' := g.(inherits := SetInherits(g.inherits, n, from));
    assert SetInherits(g'.inherits, n, a.from) == g.inherits;
    assert UndoOne(infos, a, g') == g;
    TrackStep(infos, log, a, g, g', g0);
    SameLinksBalance(infos, log, a, g, g', g0);
  }

  lemma DropStep(infos: Infos, log: seq<Undo>, g: Graph, g0: Graph, e: EdgeId)
    requires InTran(infos, log, g, g0) && e in g.edges && g.edges[e].target.None?
    ensures InTran(infos, log + [Drop(e)], g, g0)
  {
    TrackStep(infos, log, Drop(e), g, g, g0);
    forall k | k in g.refs ensures Users(g, k) - Held(log + [Drop(e)], k) == Users(g0, k) {
      HeldSnoc(log, Drop(e), k);
    }
  }

  /** bdrv_replace_child_tran on the graph. */
  function Replaced(infos: Infos, g: Graph, e: EdgeId, t: Option<Node>): Graph
    requires e in g.edges
  {
    Redirect(infos, g, e, t).(refs := AddRef(g.refs, t, 1))
  }

  /** The child may be pointed at `t`: not frozen, a different node, and in the same AioContext. */
  predicate MayReplace(infos: Infos, g: Graph, e: EdgeId, t: Option<Node>) {
    && Attached(g.edges, e) && !g.edges[e].frozen && g.edges[e].target != t
    && (t.Some? ==>
          && t.value in infos && t.value in g.ctx && g.edges[e].target.value in g.ctx
          && g.ctx[t.value] == g.ctx[g.edges[e].target.value])
  }

  lemma PointersOnly(infos: Infos, g: Graph, g': Graph)
    requires PointersOk(infos, g) && g'.edges == g.edges && g'.backing == g.backing && g'.file == g.file
    ensures PointersOk(infos, g')
  {
  }

  lemma ReplacedShape(infos: Infos, g: Graph, e: EdgeId, t: Option<Node>)
    requires Shape(infos, g) && MayReplace(infos, g, e, t)
    ensures Shape(infos, Replaced(infos, g, e, t))
  {
    hide PointerOk, SlotOf, Repoint;
    RedirectPointers(infos, g, e, t);
    PointersOnly(infos, Redirect(infos, g, e, t), Replaced(infos, g, e, t));
    var g' := Replaced(infos, g, e, t);
    forall d | Attached(g'.edges, d)
      ensures Attached(g.edges, d) && g'.edges[d].owner == g.edges[d].owner && g'.edges[d].movable == g.edges[d].movable
      ensures g'.edges[d].target == if d == e then t else g.edges[d].target
    {
    }
  }

  lemma ReplacedParents(infos: Infos, g: Graph, e: EdgeId, t: Option<Node>, n: Node)
    requires MayReplace(infos, g, e, t)
    ensures |Parents(Replaced(infos, g, e, t).edges, n)| ==
              |Parents(g.edges, n)| + (if t == Some(n) then 1 else 0) - (if g.edges[e].target == Some(n) then 1 else 0)
  {
    var g' := Replaced(infos, g, e, t);
    var rest := Parents(g.edges, n) - {e};
    assert Parents(g'.edges, n) == if t == Some(n) then rest + {e} else rest;
    assert Parents(g.edges, n) == if g.edges[e].target == Some(n) then rest + {e} else rest;
  }

  lemma ReplaceUndo(infos: Infos, g: Graph, e: EdgeId, t: Option<Node>)
    requires Shape(infos, g) && MayReplace(infos, g, e, t)
    ensures UndoPre(infos, UndoReplace(e, g.edges[e].target), Replaced(infos, g, e, t))
    ensures UndoOne(infos, UndoReplace(e, g.edges[e].target), Replaced(infos, g, e, t)) == g
  {
    var g' := Replaced(infos, g, e, t);
    ReplacedShape(infos, g, e, t);
    RedirectBack(infos, g, e, t);
    ReplaceSlot(infos, g, e, t);
    assert AddRef(g'.refs, t, -1) == g.refs;
  }

  lemma ReplaceUsers(infos: Infos, log: seq<Undo>, g: Graph, e: EdgeId, t: Option<Node>, n: Node)
    requires MayReplace(infos, g, e, t) && g.refs.Keys == infos.Keys && n in infos
    ensures n in Replaced(infos, g, e, t).refs
    ensures Users(Replaced(infos, g, e, t), n) - Held(log + [UndoReplace(e, g.edges[e].target)], n) ==
              Users(g, n) - Held(log, n)
  {
    hide Parents, Redirect, Held;
    HeldSnoc(log, UndoReplace(e, g.edges[e].target), n);
    ReplacedParents(infos, g, e, t, n);
    ReplacedEdges(infos, g, e, t);
  }

  lemma ReplacedEdges(infos: Infos, g: Graph, e: EdgeId, t: Option<Node>)
    requires e in g.edges
    ensures Replaced(infos, g, e, t).edges == g.edges[e := g.edges[e].(target := t)]
    ensures Replaced(infos, g, e, t).refs == AddRef(g.refs, t, 1)
  {
  }

  lemma ReplaceBalance(infos: Infos, log: seq<Undo>, g: Graph, g0: Graph, e: EdgeId, t: Option<Node>)
    requires Balanced(log, g, g0) && DropsOk(infos, log, g.edges) && MayReplace(infos, g, e, t) && g.refs.Keys == infos.Keys
    requires g.edges[e].target.value in infos
    ensures Balanced(log + [UndoReplace(e, g.edges[e].target)], Replaced(infos, g, e, t), g0)
    ensures DropsOk(infos, log + [UndoReplace(e, g.edges[e].target)], Replaced(infos, g, e, t).edges)
  {
    hide Parents, Held, Redirect, Replaced, Users;
    ReplacedEdges(infos, g, e, t);
    forall n | n in g.refs
      ensures Users(Replaced(infos, g, e, t), n) - Held(log + [UndoReplace(e, g.edges[e].target)], n) == Users(g0, n)
    {
      ReplaceUsers(infos, log, g, e, t, n);
    }
  }

  lemma ReplaceStep(infos: Infos, log: seq<Undo>, g: Graph, g0: Graph, e: EdgeId, t: Option<Node>)
    requires InTran(infos, log, g, g0) && MayReplace(infos, g, e, t)
    ensures InTran(infos, log + [UndoReplace(e, g.edges[e].target)], Replaced(infos, g, e, t), g0)
  {
    ReplacedShape(infos, g, e, t);
    ReplaceUndo(infos, g, e, t);
    ReplaceBalance(infos, log, g, g0, e, t);
    TrackStep(infos, log, UndoReplace(e, g.edges[e].target), g, Replaced(infos, g, e, t), g0);
  }

  /** A child that has just been detached finds its pointer free. */
  lemma ReplaceSlot(infos: Infos, g: Graph, e: EdgeId, t: Option<Node>)
    requires Shape(infos, g) && MayReplace(infos, g, e, t)
    ensures t.None? ==> SlotFree(infos, Replaced(infos, g, e, t), Replaced(infos, g, e, t).edges[e])
  {
  }

  // ------------------------------------------------- attaching a new child

  /** The contexts with which a new child `x` can be put on top of node `n`: they agree already, or the component of the
      node moves to the parent, or, if somebody there refuses, the component of the parent moves to the node. */
  ghost predicate AttachCtx(edges: Edges, ctx: map<Node, Ctx>, x: Edge, n: Node, ctx': map<Node, Ctx>)
    requires x.owner in ctx && n in ctx
  {
    if ctx[n] == ctx[x.owner] then ctx' == ctx
    else if CanMoveCtx(edges, ctx, n) then ctx' == MoveCtx(edges, ctx, n, ctx[x.owner])
    else x.movable && CanMoveCtx(edges, ctx, x.owner) && ctx' == MoveCtx(edges, ctx, x.owner, ctx[n])
  }

  /** bdrv_attach_child_common on the graph, once the contexts are settled. */
  function WithChild(infos: Infos, g: Graph, e: EdgeId, x: Edge, n: Node, ctx: map<Node, Ctx>): Graph {
    Graph(g.edges[e := x.(target := Some(n))],
          Repoint(infos, g.backing, BackingSlot, e, x, Some(n)), Repoint(infos, g.file, FileSlot, e, x, Some(n)),
          ctx, g.inherits, AddRef(g.refs, Some(n), 1))
  }

  /** `x` is a new child, not yet attached, whose pointer is free and whose owner keeps the rule on refusing. */
  ghost predicate MayAttach(infos: Infos, g: Graph, e: EdgeId, x: Edge, n: Node) {
    && e !in g.edges && x.target.None? && !x.frozen && x.owner in g.ctx && n in infos
    && SlotFree(infos, g, x)
    && (forall d | d in Children(g.edges, x.owner) :: x.movable && g.edges[d].movable)
    && (x.owner in infos ==> x.movable)
  }

  /** An unattached child makes no difference to the components. */
  lemma SameComponents(edges: Edges, e: EdgeId, x: Edge, ctx: map<Node, Ctx>, n: Node)
    requires e !in edges && x.target.None? && n in ctx
    ensures Component(edges[e := x], ctx.Keys, n) == Component(edges, ctx.Keys, n)
    ensures CanMoveCtx(edges[e := x], ctx, n) <==> CanMoveCtx(edges, ctx, n)
    ensures forall to :: MoveCtx(edges[e := x], ctx, n, to) == MoveCtx(edges, ctx, n, to)
  {
    var edges' := edges[e := x];
    assert forall d :: Attached(edges', d) <==> Attached(edges, d);
    assert forall t :: Closed(edges', t) <==> Closed(edges, t);
    forall m ensures InComponent(edges', n, m) <==> InComponent(edges, n, m) {
      if InComponent(edges', n, m) {
        forall t | n in t && Closed(edges, t) ensures m in t { assert Closed(edges', t); }
      }
      if InComponent(edges, n, m) {
        forall t | n in t && Closed(edges', t) ensures m in t { assert Closed(edges, t); }
      }
    }
    assert Component(edges', ctx.Keys, n) == Component(edges, ctx.Keys, n);
  }

  lemma AttachCtxUniform(edges: Edges, ctx: map<Node, Ctx>, x: Edge, n: Node, ctx': map<Node, Ctx>)
    requires Over(edges, ctx.Keys) && Uniform(edges, ctx) && x.owner in ctx && n in ctx
    requires AttachCtx(edges, ctx, x, n, ctx')
    ensures ctx'.Keys == ctx.Keys && Uniform(edges, ctx') && ctx'[n] == ctx'[x.owner]
    ensures ctx[n] != ctx[x.owner] && CanMoveCtx(edges, ctx, n) ==> ctx'[x.owner] == ctx[x.owner]
    ensures ctx[n] != ctx[x.owner] && !CanMoveCtx(edges, ctx, n) ==> ctx'[n] == ctx[n]
  {
    ComponentIsComponent(edges, ctx.Keys, n);
    ComponentIsComponent(edges, ctx.Keys, x.owner);
    MoveBack(edges, ctx, n, ctx[x.owner]);
    MoveBack(edges, ctx, x.owner, ctx[n]);
    if ctx[n] != ctx[x.owner] {
      if x.owner in Component(edges, ctx.Keys, n) {
        ComponentUniform(edges, ctx, n, Component(edges, ctx.Keys, n), x.owner);
      }
      if n in Component(edges, ctx.Keys, x.owner) {
        ComponentUniform(edges, ctx, x.owner, Component(edges, ctx.Keys, x.owner), n);
      }
    }
  }

  lemma NewPointer(infos: Infos, edges: Edges, m: map<Node, EdgeId>, slot: Slot, e: EdgeId, x: Edge, n: Node)
    requires PointerOk(infos, edges, slot, m) && e !in edges && x.target.None?
    requires SlotOf(infos, x) == slot ==> x.owner !in m
    ensures PointerOk(infos, edges[e := x.(target := Some(n))], slot, Repoint(infos, m, slot, e, x, Some(n)))
    ensures Repoint(infos, Repoint(infos, m, slot, e, x, Some(n)), slot, e, x.(target := Some(n)), None) == m
  {
    assert PointerOk(infos, edges[e := x], slot, m) by {
      assert forall d :: Attached(edges[e := x], d) <==> Attached(edges, d);
    }
    RepointOk(infos, edges[e := x], m, slot, e, Some(n));
    assert edges[e := x][e := x.(target := Some(n))] == edges[e := x.(target := Some(n))];
    var m' := Repoint(infos, m, slot, e, x, Some(n));
    assert x.owner in m && m[x.owner] == e ==> Attached(edges, e);
  }

  lemma AttachOne(infos: Infos, g: Graph, e: EdgeId, x: Edge, n: Node, ctx: map<Node, Ctx>)
    requires OnePointer(infos, g) && e !in g.edges && x.target.None? && SlotFree(infos, g, x)
    requires PointerOk(infos, g.edges, BackingSlot, g.backing) && PointerOk(infos, g.edges, FileSlot, g.file)
    ensures OnePointer(infos, WithChild(infos, g, e, x, n, ctx))
  {
    SameFiltering(infos, x, x.(target := Some(n)));
    hide Filtering, SlotOf;
    var g' := WithChild(infos, g, e, x, n, ctx);
    forall d | d in g.edges ensures g'.edges[d] == g.edges[d] {
    }
  }

  lemma SameFiltering(infos: Infos, x: Edge, y: Edge)
    requires x.owner == y.owner && x.role == y.role
    ensures Filtering(infos, x) == Filtering(infos, y)
  {
  }

  lemma AttachPointers(infos: Infos, g: Graph, e: EdgeId, x: Edge, n: Node, ctx: map<Node, Ctx>)
    requires PointersOk(infos, g) && e !in g.edges && x.target.None? && SlotFree(infos, g, x)
    ensures PointersOk(infos, WithChild(infos, g, e, x, n, ctx))
    ensures var w := WithChild(infos, g, e, x, n, ctx);
            && Detached(w.edges, e) == g.edges[e := x]
            && Repoint(infos, w.backing, BackingSlot, e, w.edges[e], None) == g.backing
            && Repoint(infos, w.file, FileSlot, e, w.edges[e], None) == g.file
  {
    AttachOne(infos, g, e, x, n, ctx);
    hide PointerOk, SlotOf, Repoint, OnePointer;
    NewPointer(infos, g.edges, g.backing, BackingSlot, e, x, n);
    NewPointer(infos, g.edges, g.file, FileSlot, e, x, n);
    assert g.edges[e := x.(target := Some(n))][e := x] == g.edges[e := x];
  }

  lemma AttachMovables(nodes: set<Node>, edges: Edges, e: EdgeId, x: Edge)
    requires Movables(nodes, edges) && e !in edges && x.target.Some? && x.target.value in nodes
    requires forall d | d in Children(edges, x.owner) :: x.movable && edges[d].movable
    requires x.owner in nodes ==> x.movable
    ensures Movables(nodes, edges[e := x])
  {
    var edges' := edges[e := x];
    forall d, d' | Attached(edges', d) && !edges'[d].movable && Attached(edges', d') && edges'[d'].owner == edges'[d].owner
      ensures edges'[d].owner !in nodes && d' == d
    {
      assert d != e ==> Attached(edges, d);
      assert d' != e ==> Attached(edges, d');
      assert d == e && d' != e ==> d' in Children(edges, x.owner);
      assert d != e && d' == e ==> d in Children(edges, x.owner);
    }
  }

  lemma AttachShape(infos: Infos, g: Graph, e: EdgeId, x: Edge, n: Node, ctx: map<Node, Ctx>)
    requires Shape(infos, g) && MayAttach(infos, g, e, x, n) && AttachCtx(g.edges, g.ctx, x, n, ctx)
    ensures Shape(infos, WithChild(infos, g, e, x, n, ctx))
  {
    AttachCtxUniform(g.edges, g.ctx, x, n, ctx);
    AttachPointers(infos, g, e, x, n, ctx);
    AttachMovables(infos.Keys, g.edges, e, x.(target := Some(n)));
    var g' := WithChild(infos, g, e, x, n, ctx);
    forall d | Attached(g'.edges, d) && d != e
      ensures Attached(g.edges, d) && g'.edges[d] == g.edges[d]
    {
    }
  }

  /** Moving back what was moved to make the contexts agree restores them. */
  lemma AttachCtxBack(edges: Edges, ctx: map<Node, Ctx>, x: Edge, n: Node, ctx': map<Node, Ctx>)
    requires Over(edges, ctx.Keys) && Uniform(edges, ctx) && x.owner in ctx && n in ctx
    requires AttachCtx(edges, ctx, x, n, ctx')
    ensures ctx'.Keys == ctx.Keys
    ensures ctx'[n] != ctx[n] ==> CanMoveCtx(edges, ctx', n)
    ensures var back := MoveCtx(edges, ctx', n, ctx[n]);
            && back.Keys == ctx.Keys
            && (back[x.owner] != ctx[x.owner] ==> x.movable && CanMoveCtx(edges, back, x.owner))
            && MoveCtx(edges, back, x.owner, ctx[x.owner]) == ctx
  {
    AttachCtxUniform(edges, ctx, x, n, ctx');
    MoveBack(edges, ctx, n, ctx[x.owner]);
    MoveBack(edges, ctx, x.owner, ctx[n]);
  }

  lemma AttachUndoPre(infos: Infos, g: Graph, e: EdgeId, x: Edge, n: Node, ctx: map<Node, Ctx>)
    requires Shape(infos, g) && MayAttach(infos, g, e, x, n) && AttachCtx(g.edges, g.ctx, x, n, ctx)
    ensures UndoPre(infos, UndoAttach(e, g.ctx[x.owner], g.ctx[n]), WithChild(infos, g, e, x, n, ctx))
  {
    hide PointersOk, SlotOf, Repoint, MoveCtx, CanMoveCtx, Movables, Uniform, Component;
    AttachShape(infos, g, e, x, n, ctx);
    assert g.edges[e := x.(target := Some(n))][e := x] == g.edges[e := x];
    AttachCtxBack(g.edges, g.ctx, x, n, ctx);
    SameComponents(g.edges, e, x, ctx, n);
    SameComponents(g.edges, e, x, MoveCtx(g.edges, ctx, n, g.ctx[n]), x.owner);
  }

  lemma AttachUnwind(edges: Edges, ctx: map<Node, Ctx>, e: EdgeId, x: Edge, n: Node, ctx': map<Node, Ctx>)
    requires Over(edges, ctx.Keys) && Uniform(edges, ctx) && x.owner in ctx && n in ctx && e !in edges && x.target.None?
    requires AttachCtx(edges, ctx, x, n, ctx')
    ensures edges[e := x] - {e} == edges
    ensures ctx'.Keys == ctx.Keys && MoveCtx(edges[e := x], ctx', n, ctx[n]).Keys == ctx.Keys
    ensures MoveCtx(edges[e := x], MoveCtx(edges[e := x], ctx', n, ctx[n]), x.owner, ctx[x.owner]) == ctx
  {
    AttachCtxBack(edges, ctx, x, n, ctx');
    SameComponents(edges, e, x, ctx', n);
    SameComponents(edges, e, x, MoveCtx(edges, ctx', n, ctx[n]), x.owner);
  }

  lemma AttachUndo(infos: Infos, g: Graph, e: EdgeId, x: Edge, n: Node, ctx: map<Node, Ctx>)
    requires Shape(infos, g) && MayAttach(infos, g, e, x, n) && AttachCtx(g.edges, g.ctx, x, n, ctx)
    requires UndoPre(infos, UndoAttach(e, g.ctx[x.owner], g.ctx[n]), WithChild(infos, g, e, x, n, ctx))
    ensures UndoOne(infos, UndoAttach(e, g.ctx[x.owner], g.ctx[n]), WithChild(infos, g, e, x, n, ctx)) == g
  {
    hide Repoint, SlotOf, MoveCtx, CanMoveCtx, Component, Movables, PointerOk, OnePointer;
    AttachPointers(infos, g, e, x, n, ctx);
    AttachUnwind(g.edges, g.ctx, e, x, n, ctx);
    assert AddRef(AddRef(g.refs, Some(n), 1), Some(n), -1) == g.refs;
  }

  lemma NewParent(edges: Edges, e: EdgeId, x: Edge, n: Node, k: Node)
    requires e !in edges && x.target == Some(n)
    ensures |Parents(edges[e := x], k)| == |Parents(edges, k)| + (if k == n then 1 else 0)
  {
    assert Parents(edges[e := x], k) == if k == n then Parents(edges, k) + {e} else Parents(edges, k);
  }

  lemma AttachBalance(infos: Infos, log: seq<Undo>, g: Graph, g': Graph, g0: Graph, e: EdgeId, x: Edge, n: Node,
                      a: Undo)
    requires Balanced(log, g, g0) && DropsOk(infos, log, g.edges) && e !in g.edges && x.target == Some(n) && n in g.refs
    requires g'.edges == g.edges[e := x] && g'.refs == AddRef(g.refs, Some(n), 1) && a.UndoAttach?
    ensures Balanced(log + [a], g', g0) && DropsOk(infos, log + [a], g'.edges)
  {
    hide Parents, Held;
    forall k | k in g'.refs ensures Users(g', k) - Held(log + [a], k) == Users(g0, k) {
      HeldSnoc(log, a, k);
      NewParent(g.edges, e, x, n, k);
    }
  }

  lemma AttachStep(infos: Infos, log: seq<Undo>, g: Graph, g0: Graph, e: EdgeId, x: Edge, n: Node, ctx: map<Node, Ctx>)
    requires InTran(infos, log, g, g0) && MayAttach(infos, g, e, x, n) && AttachCtx(g.edges, g.ctx, x, n, ctx)
    ensures InTran(infos, log + [UndoAttach(e, g.ctx[x.owner], g.ctx[n])], WithChild(infos, g, e, x, n, ctx), g0)
  {
    var a := UndoAttach(e, g.ctx[x.owner], g.ctx[n]);
    AttachShape(infos, g, e, x, n, ctx);
    AttachUndoPre(infos, g, e, x, n, ctx);
    AttachUndo(infos, g, e, x, n, ctx);
    AttachBalance(infos, log, g, WithChild(infos, g, e, x, n, ctx), g0, e, x.(target := Some(n)), n, a);
    TrackStep(infos, log, a, g, WithChild(infos, g, e, x, n, ctx), g0);
  }

  // ---------------------------------------------------------------- commit

  function Dropped(log: seq<Undo>): set<EdgeId> {
    set i | 0 <= i < |log| && log[i].Drop? :: log[i].e
  }

  /** tran_commit: replaced nodes lose the held reference, removed children are freed. */
  function Committed(log: seq<Undo>, g: Graph): Graph {
    g.(edges := g.edges - Dropped(log), refs := map n | n in g.refs :: g.refs[n] - Held(log, n))
  }

  /** The same attached children with the same contents. */
  ghost predicate SameAttached(a: Edges, b: Edges) {
    && (forall e :: Attached(a, e) <==> Attached(b, e))
    && forall e | Attached(a, e) :: a[e] == b[e]
  }

  lemma SameAttachedPointer(infos: Infos, a: Edges, b: Edges, slot: Slot, m: map<Node, EdgeId>)
    requires SameAttached(a, b) && PointerOk(infos, a, slot, m)
    ensures PointerOk(infos, b, slot, m)
  {
  }

  lemma SameAttachedShape(infos: Infos, g: Graph, g': Graph)
    requires Shape(infos, g) && SameAttached(g.edges, g'.edges) && Over(g'.edges, g.ctx.Keys)
    requires g' == g.(edges := g'.edges, refs := g'.refs) && g'.refs.Keys == g.refs.Keys
    ensures Shape(infos, g')
  {
    SameAttachedPointer(infos, g.edges, g'.edges, BackingSlot, g.backing);
    SameAttachedPointer(infos, g.edges, g'.edges, FileSlot, g.file);
  }

  /** After a commit the graph is well-formed and every node has as many outside users as before the transaction. */
  lemma CommitKeeps(infos: Infos, log: seq<Undo>, g: Graph, g0: Graph)
    requires InTran(infos, log, g, g0)
    ensures Shape(infos, Committed(log, g)) && SameAttached(g.edges, Committed(log, g).edges)
    ensures forall n | n in g0.refs :: Users(Committed(log, g), n) == Users(g0, n)
  {
    var g' := Committed(log, g);
    CommitAttached(infos, log, g.edges);
    SameAttachedShape(infos, g, g');
    forall n | n in g0.refs ensures Users(g', n) == Users(g0, n) {
      SameAttachedParents(g.edges, g'.edges, n);
    }
  }

  lemma CommitAttached(infos: Infos, log: seq<Undo>, edges: Edges)
    requires DropsOk(infos, log, edges)
    ensures SameAttached(edges, edges - Dropped(log))
  {
  }

  lemma SameAttachedParents(a: Edges, b: Edges, n: Node)
    requires SameAttached(a, b)
    ensures Parents(a, n) == Parents(b, n) && Children(a, n) == Children(b, n)
  {
    forall e ensures e in Parents(a, n) <==> e in Parents(b, n) {
      assert Attached(a, e) <==> Attached(b, e);
    }
    forall e ensures e in Children(a, n) <==> e in Children(b, n) {
      assert Attached(a, e) <==> Attached(b, e);
    }
  }
}
