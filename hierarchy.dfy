/** The transform state of `geometry` objects, held in an arena: node `i` is
    the `i`-th object constructed, and links between objects are indices.
    This module holds what the source computes without changing anything:
    the ancestor chain, the world accessors and the matrix a node is given. */
module Hierarchy {
  import opened Vectors
  import opened Matrices

  datatype Option<T> = None | Some(value: T)

  type NodeId = nat

  /** One `geometry` object, less its matrix. */
  datatype Node = Node(
    translation: Vec3,
    rotation: Angles,
    scale: Vec3,
    pivot: Vec3,
    parent: Option<NodeId>,
    children: seq<NodeId>,
    vertices: seq<real>)

  /** A parent is always constructed before its children, and no node is
      ever re-parented, so every parent link points to an earlier node. */
  ghost predicate ParentsFirst(nodes: seq<Node>) {
    forall i :: 0 <= i < |nodes| && nodes[i].parent.Some? ==> nodes[i].parent.value < i
  }

  /** A node's children are exactly the nodes that name it as their parent,
      in the order they were constructed. */
  ghost predicate ChildrenMatchParents(nodes: seq<Node>)
    requires ParentsFirst(nodes)
  {
    (forall i, k :: 0 <= i < |nodes| && 0 <= k < |nodes[i].children| ==>
       nodes[i].children[k] < |nodes| && nodes[nodes[i].children[k]].parent == Some(i)) &&
    (forall i, k, l :: 0 <= i < |nodes| && 0 <= k < l < |nodes[i].children| ==>
       nodes[i].children[k] < nodes[i].children[l]) &&
    (forall j :: 0 <= j < |nodes| && nodes[j].parent.Some? ==>
       j in nodes[nodes[j].parent.value].children)
  }

  /** `i` followed by its ancestors, nearest first, ending at a root. */
  function Chain(nodes: seq<Node>, i: NodeId): (c: seq<NodeId>)
    requires ParentsFirst(nodes) && i < |nodes|
    ensures |c| > 0 && c[0] == i
    ensures forall k :: 0 <= k < |c| ==> c[k] <= i
    ensures forall k :: 0 <= k < |c| - 1 ==> nodes[c[k]].parent == Some(c[k + 1])
    ensures nodes[c[|c| - 1]].parent == None
    decreases i
  {
    match nodes[i].parent
    case None => [i]
    case Some(p) => [i] + Chain(nodes, p)
  }

  /** `getWorldTranslate`: the local translation plus the parent's world
      translation. */
  function WorldTranslate(nodes: seq<Node>, i: NodeId): Vec3
    requires ParentsFirst(nodes) && i < |nodes|
    decreases i
  {
    match nodes[i].parent
    case None => nodes[i].translation
    case Some(p) => Add(nodes[i].translation, WorldTranslate(nodes, p))
  }

  /** `getWorldRotate`: the local rotation plus the parent's world rotation,
      not wrapped again. */
  function WorldRotate(nodes: seq<Node>, i: NodeId): Angles
    requires ParentsFirst(nodes) && i < |nodes|
    decreases i
  {
    match nodes[i].parent
    case None => nodes[i].rotation
    case Some(p) => AddAngles(nodes[i].rotation, WorldRotate(nodes, p))
  }

  /** Sum of the local translations of the nodes in `c`. */
  function SumTranslations(nodes: seq<Node>, c: seq<NodeId>): Vec3
    requires forall k :: 0 <= k < |c| ==> c[k] < |nodes|
  {
    if c == [] then Zero else Add(nodes[c[0]].translation, SumTranslations(nodes, c[1..]))
  }

  /** Sum of the local rotations of the nodes in `c`. */
  function SumRotations(nodes: seq<Node>, c: seq<NodeId>): Angles
    requires forall k :: 0 <= k < |c| ==> c[k] < |nodes|
  {
    if c == [] then NoRotation else AddAngles(nodes[c[0]].rotation, SumRotations(nodes, c[1..]))
  }

  /** World translation is the sum of the local translations along the
      ancestor chain; for a root it is the local translation. */
  lemma {:induction false} WorldTranslateIsChainSum(nodes: seq<Node>, i: NodeId)
    requires ParentsFirst(nodes) && i < |nodes|
    ensures WorldTranslate(nodes, i) == SumTranslations(nodes, Chain(nodes, i))
    ensures nodes[i].parent.None? ==> WorldTranslate(nodes, i) == nodes[i].translation
    decreases i
  {
    var c := Chain(nodes, i);
    match nodes[i].parent
    case None =>
      assert c[1..] == [];
    case Some(p) =>
      assert c[1..] == Chain(nodes, p);
      WorldTranslateIsChainSum(nodes, p);
  }

  /** World rotation is the sum of the local rotations along the ancestor
      chain; for a root it is the local rotation. */
  lemma {:induction false} WorldRotateIsChainSum(nodes: seq<Node>, i: NodeId)
    requires ParentsFirst(nodes) && i < |nodes|
    ensures WorldRotate(nodes, i) == SumRotations(nodes, Chain(nodes, i))
    ensures nodes[i].parent.None? ==> WorldRotate(nodes, i) == nodes[i].rotation
    decreases i
  {
    var c := Chain(nodes, i);
    match nodes[i].parent
    case None =>
      assert c[1..] == [];
    case Some(p) =>
      assert c[1..] == Chain(nodes, p);
      WorldRotateIsChainSum(nodes, p);
  }

  /** The parent's local scale, or no scaling for a root. */
  function ParentScale(nodes: seq<Node>, i: NodeId): Vec3
    requires ParentsFirst(nodes) && i < |nodes|
  {
    match nodes[i].parent
    case None => One
    case Some(p) => nodes[p].scale
  }

  /** The parent's world placement, for a node that has a parent. */
  function ParentPart(nodes: seq<Node>, i: NodeId): seq<Op>
    requires ParentsFirst(nodes) && i < |nodes|
  {
    match nodes[i].parent
    case None => []
    case Some(p) => [T(WorldTranslate(nodes, p))] + Rotations(WorldRotate(nodes, p))
  }

  /** The matrix `_updateMatrix` gives node `i`, as its ordered list of
      updates: the parent's world translation and rotation, the offset scaled
      by the parent's local scale, the rotation about the pivot, and the
      node's own scale last. */
  function Compose(nodes: seq<Node>, i: NodeId): (m: seq<Op>)
    requires ParentsFirst(nodes) && i < |nodes|
    ensures |m| == if nodes[i].parent.Some? then 11 else 7
    ensures m[|m| - 1] == S(nodes[i].scale)
  {
    var n := nodes[i];
    ParentPart(nodes, i)
    + [T(Mul(n.translation, ParentScale(nodes, i)))]
    + PivotRotation(n.pivot, n.rotation)
    + [S(n.scale)]
  }

  // ---------------------------------------------------------------------
  // What a node's world state depends on

  /** The world accessors read only the translations, rotations and parent
      links along the chain: nodes that agree there agree on both. */
  lemma {:induction false} WorldFrame(a: seq<Node>, b: seq<Node>, j: NodeId)
    requires ParentsFirst(a) && ParentsFirst(b) && j < |a| && j < |b|
    requires forall k :: k in Chain(a, j) ==>
      a[k].parent == b[k].parent && a[k].translation == b[k].translation && a[k].rotation == b[k].rotation
    ensures Chain(b, j) == Chain(a, j)
    ensures WorldTranslate(b, j) == WorldTranslate(a, j)
    ensures WorldRotate(b, j) == WorldRotate(a, j)
    decreases j
  {
    assert j in Chain(a, j);
    match a[j].parent
    case None =>
    case Some(p) =>
      assert Chain(a, j) == [j] + Chain(a, p);
      WorldFrame(a, b, p);
  }

  /** An object's world state depends on no object constructed after it:
      scenes that agree on the links, translations and rotations of objects
      0 to `j` agree on the world state of `j`, whatever later objects exist
      and whatever the children lists hold. */
  lemma WorldPrefix(a: seq<Node>, b: seq<Node>, j: NodeId)
    requires ParentsFirst(a) && ParentsFirst(b) && j < |a| && j < |b|
    requires forall k :: 0 <= k <= j ==>
      a[k].parent == b[k].parent && a[k].translation == b[k].translation && a[k].rotation == b[k].rotation
    ensures Chain(b, j) == Chain(a, j)
    ensures WorldTranslate(b, j) == WorldTranslate(a, j)
    ensures WorldRotate(b, j) == WorldRotate(a, j)
  {
    WorldFrame(a, b, j);
  }

  /** The local transform a node's matrix depends on. */
  ghost predicate SameTransform(x: Node, y: Node) {
    x.translation == y.translation && x.rotation == y.rotation &&
    x.scale == y.scale && x.pivot == y.pivot && x.parent == y.parent
  }

  /** A node's matrix is determined by its own local transform and those of
      its ancestors. */
  lemma ComposeFrame(a: seq<Node>, b: seq<Node>, j: NodeId)
    requires ParentsFirst(a) && ParentsFirst(b) && j < |a| && j < |b|
    requires forall k :: k in Chain(a, j) ==> SameTransform(a[k], b[k])
    ensures Chain(b, j) == Chain(a, j)
    ensures Compose(b, j) == Compose(a, j)
  {
    WorldFrame(a, b, j);
    assert j in Chain(a, j);
    match a[j].parent
    case None =>
    case Some(p) =>
      assert Chain(a, j) == [j] + Chain(a, p);
      assert p in Chain(a, j);
      WorldFrame(a, b, p);
  }

  /** Of the parent, `_updateMatrix` reads the pivot but does not use it:
      giving any strict ancestor another pivot leaves the matrix as it was. */
  lemma AncestorPivotUnused(nodes: seq<Node>, j: NodeId, a: NodeId, q: Vec3)
    requires ParentsFirst(nodes) && j < |nodes| && a in Chain(nodes, j) && a != j
    ensures ParentsFirst(nodes[a := nodes[a].(pivot := q)])
    ensures Compose(nodes[a := nodes[a].(pivot := q)], j) == Compose(nodes, j)
  {
    var b := nodes[a := nodes[a].(pivot := q)];
    LinksKept(nodes, b);
    EditFrame(nodes, b, j);
  }

  /** Only the parent's own local scale enters a child's matrix: the scale of
      any ancestor further up is not compounded into it. */
  lemma GrandparentScaleUnused(nodes: seq<Node>, j: NodeId, a: NodeId, f: Vec3)
    requires ParentsFirst(nodes) && j < |nodes| && a in Chain(nodes, j)
    requires a != j && nodes[j].parent != Some(a)
    ensures ParentsFirst(nodes[a := nodes[a].(scale := f)])
    ensures Compose(nodes[a := nodes[a].(scale := f)], j) == Compose(nodes, j)
  {
    var b := nodes[a := nodes[a].(scale := f)];
    LinksKept(nodes, b);
    EditFrame(nodes, b, j);
  }

  /** Keeping every parent link keeps the links pointing backwards. */
  lemma LinksKept(a: seq<Node>, b: seq<Node>)
    requires ParentsFirst(a) && |b| == |a|
    requires forall k :: 0 <= k < |a| ==> b[k].parent == a[k].parent
    ensures ParentsFirst(b)
  {
    forall i | 0 <= i < |b| && b[i].parent.Some? ensures b[i].parent.value < i {
      assert a[i].parent == b[i].parent;
    }
  }

  /** Of the parent, only its world translation, its world rotation and its
      local scale enter the child's matrix; with those and the child's own
      local transform kept, the matrix is kept. */
  lemma ParentFrame(a: seq<Node>, b: seq<Node>, j: NodeId)
    requires ParentsFirst(a) && ParentsFirst(b) && j < |a| && j < |b|
    requires SameTransform(a[j], b[j])
    requires a[j].parent.Some? ==>
      var p := a[j].parent.value;
      WorldTranslate(b, p) == WorldTranslate(a, p) && WorldRotate(b, p) == WorldRotate(a, p) &&
      b[p].scale == a[p].scale
    ensures Compose(b, j) == Compose(a, j)
  {
  }

  /** A node's matrix is unchanged by edits that keep every translation,
      rotation and parent link, the node itself and its parent's scale. */
  lemma EditFrame(a: seq<Node>, b: seq<Node>, j: NodeId)
    requires ParentsFirst(a) && ParentsFirst(b) && j < |a| == |b|
    requires forall k :: 0 <= k < |a| ==>
      b[k].parent == a[k].parent && b[k].translation == a[k].translation && b[k].rotation == a[k].rotation
    requires b[j] == a[j]
    requires a[j].parent.Some? ==> b[a[j].parent.value].scale == a[a[j].parent.value].scale
    ensures Compose(b, j) == Compose(a, j)
  {
    match a[j].parent
    case None =>
    case Some(p) =>
      WorldFrame(a, b, p);
    ParentFrame(a, b, j);
  }

  // ---------------------------------------------------------------------
  // Subtrees: `n in Chain(nodes, j)` says that `j` is `n` or a descendant of `n`

  lemma {:induction false} ChainTransitive(nodes: seq<Node>, c: NodeId, j: NodeId)
    requires ParentsFirst(nodes) && j < |nodes| && c in Chain(nodes, j)
    ensures c < |nodes| && forall x :: x in Chain(nodes, c) ==> x in Chain(nodes, j)
    decreases j
  {
    if c != j {
      match nodes[j].parent
      case None =>
      case Some(p) =>
        assert Chain(nodes, j) == [j] + Chain(nodes, p);
        ChainTransitive(nodes, c, p);
    }
  }

  /** `j` lies in the subtree of one of the nodes `cs`. */
  ghost predicate InSubtrees(nodes: seq<Node>, cs: seq<NodeId>, j: NodeId)
    requires ParentsFirst(nodes) && j < |nodes|
  {
    |cs| > 0 && (InSubtrees(nodes, cs[..|cs| - 1], j) || cs[|cs| - 1] in Chain(nodes, j))
  }

  lemma {:induction false} InSubtreesExists(nodes: seq<Node>, cs: seq<NodeId>, j: NodeId)
    requires ParentsFirst(nodes) && j < |nodes|
    ensures InSubtrees(nodes, cs, j) <==> exists m :: 0 <= m < |cs| && cs[m] in Chain(nodes, j)
    decreases |cs|
  {
    if |cs| > 0 {
      var front := cs[..|cs| - 1];
      InSubtreesExists(nodes, front, j);
      assert forall m :: 0 <= m < |front| ==> front[m] == cs[m];
    }
  }

  /** A descendant of `n` lies in the subtree of one of `n`'s children. */
  lemma {:induction false} DescendantUnderChild(nodes: seq<Node>, n: NodeId, j: NodeId)
    requires ParentsFirst(nodes) && ChildrenMatchParents(nodes)
    requires n < |nodes| && j < |nodes| && n in Chain(nodes, j) && j != n
    ensures exists m :: 0 <= m < |nodes[n].children| && nodes[n].children[m] in Chain(nodes, j)
    decreases j
  {
    var cs := nodes[n].children;
    var p := nodes[j].parent.value;
    assert Chain(nodes, j) == [j] + Chain(nodes, p);
    if p == n {
      assert j in cs;
      var m :| 0 <= m < |cs| && cs[m] == j;
      assert cs[m] in Chain(nodes, j);
    } else {
      DescendantUnderChild(nodes, n, p);
      var m :| 0 <= m < |cs| && cs[m] in Chain(nodes, p);
      assert cs[m] in Chain(nodes, j);
    }
  }

  /** The subtree of a child of `n` lies in the subtree of `n`. */
  lemma ChildSubtreeUnderParent(nodes: seq<Node>, n: NodeId, m: nat, j: NodeId)
    requires ParentsFirst(nodes) && ChildrenMatchParents(nodes)
    requires n < |nodes| && j < |nodes| && m < |nodes[n].children|
    requires nodes[n].children[m] in Chain(nodes, j)
    ensures n in Chain(nodes, j)
  {
    var c := nodes[n].children[m];
    ChainTransitive(nodes, c, j);
    assert nodes[c].parent == Some(n);
    assert Chain(nodes, c) == [c] + Chain(nodes, n);
    assert n in Chain(nodes, c);
  }

  /** The subtree of `n` is `n` together with the subtrees of its children,
      which is what `_updateMatrix`'s recursion visits. */
  lemma SubtreeSplit(nodes: seq<Node>, n: NodeId, j: NodeId)
    requires ParentsFirst(nodes) && ChildrenMatchParents(nodes)
    requires n < |nodes| && j < |nodes|
    ensures n in Chain(nodes, j) <==> j == n || InSubtrees(nodes, nodes[n].children, j)
  {
    var cs := nodes[n].children;
    InSubtreesExists(nodes, cs, j);
    if n in Chain(nodes, j) && j != n {
      DescendantUnderChild(nodes, n, j);
    }
    if InSubtrees(nodes, cs, j) {
      var m :| 0 <= m < |cs| && cs[m] in Chain(nodes, j);
      ChildSubtreeUnderParent(nodes, n, m, j);
    }
  }

  // ---------------------------------------------------------------------
  // What the matrix does to a vertex

  /** Where node `i` puts a local vertex after scaling, pivot rotation and
      the scaled offset, before the parent's world placement. */
  function LocalPoint(nodes: seq<Node>, i: NodeId, v: Vec3, trig: Trig): Vec3
    requires ParentsFirst(nodes) && i < |nodes|
  {
    var n := nodes[i];
    Add(Mul(n.translation, ParentScale(nodes, i)),
        Add(n.pivot, Turn(n.rotation, Add(Neg(n.pivot), Mul(n.scale, v)), trig)))
  }

  /** The composed matrix scales a vertex in the node's own frame, rotates
      it about the pivot, moves it by the offset scaled by the parent's local
      scale, then rotates and translates it by the parent's world rotation
      and world translation. */
  lemma ComposeMapsPoint(nodes: seq<Node>, i: NodeId, v: Vec3, trig: Trig)
    requires ParentsFirst(nodes) && i < |nodes|
    ensures Apply(Compose(nodes, i), v, trig) ==
      match nodes[i].parent
      case None => LocalPoint(nodes, i, v, trig)
      case Some(p) =>
        Add(WorldTranslate(nodes, p), Turn(WorldRotate(nodes, p), LocalPoint(nodes, i, v, trig), trig))
  {
    var n := nodes[i];
    var pp := ParentPart(nodes, i);
    var offset := [T(Mul(n.translation, ParentScale(nodes, i)))];
    var pr := PivotRotation(n.pivot, n.rotation);
    var own := [S(n.scale)];
    assert Compose(nodes, i) == pp + (offset + (pr + own));
    ApplyAppend(pp, offset + (pr + own), v, trig);
    ApplyAppend(offset, pr + own, v, trig);
    ApplyAppend(pr, own, v, trig);
    assert Apply(own, v, trig) == Mul(n.scale, v) by {
      assert own[1..] == [];
    }
    ApplyPivotRotation(n.pivot, n.rotation, Mul(n.scale, v), trig);
    var w := Apply(offset + (pr + own), v, trig);
    assert w == LocalPoint(nodes, i, v, trig) by {
      assert offset[1..] == [];
    }
    match n.parent
    case None =>
      assert pp == [];
    case Some(p) =>
      var tp := [T(WorldTranslate(nodes, p))];
      ApplyAppend(tp, Rotations(WorldRotate(nodes, p)), w, trig);
      ApplyRotations(WorldRotate(nodes, p), w, trig);
      assert tp[1..] == [];
  }

  /** Rotation happens about the pivot: the local vertex that scaling takes
      to the pivot lands in the same place whatever rotation the node has. */
  lemma PivotUnmovedByRotation(nodes: seq<Node>, i: NodeId, r: Angles, q: Vec3, trig: Trig)
    requires ParentsFirst(nodes) && i < |nodes|
    requires Mul(nodes[i].scale, q) == nodes[i].pivot
    ensures ParentsFirst(nodes[i := nodes[i].(rotation := r)])
    ensures Apply(Compose(nodes[i := nodes[i].(rotation := r)], i), q, trig) == Apply(Compose(nodes, i), q, trig)
  {
    var b := nodes[i := nodes[i].(rotation := r)];
    assert forall k :: 0 <= k < |b| ==> b[k].parent == nodes[k].parent;
    ComposeMapsPoint(nodes, i, q, trig);
    ComposeMapsPoint(b, i, q, trig);
    LocalPointAtPivot(nodes, i, q, trig);
    LocalPointAtPivot(b, i, q, trig);
    assert ParentScale(b, i) == ParentScale(nodes, i);
    assert LocalPoint(b, i, q, trig) == LocalPoint(nodes, i, q, trig);
    match nodes[i].parent
    case None =>
    case Some(pi) =>
      WorldPrefix(nodes, b, pi);
  }

  /** A vertex that the node's own scale takes to the pivot is not moved by
      the node's rotation, whatever the rotation is. */
  lemma LocalPointAtPivot(nodes: seq<Node>, i: NodeId, q: Vec3, trig: Trig)
    requires ParentsFirst(nodes) && i < |nodes|
    requires Mul(nodes[i].scale, q) == nodes[i].pivot
    ensures LocalPoint(nodes, i, q, trig) == Add(Mul(nodes[i].translation, ParentScale(nodes, i)), nodes[i].pivot)
  {
    var p := nodes[i].pivot;
    assert Add(Neg(p), p) == Zero;
    TurnFixesOrigin(nodes[i].rotation, trig);
    assert Add(p, Zero) == p;
  }

  /** An object with no parent and the default local transform draws every
      vertex where it is: its matrix is the identity. */
  lemma DefaultRootIsIdentity(nodes: seq<Node>, i: NodeId, v: Vec3, trig: Trig)
    requires ParentsFirst(nodes) && i < |nodes| && trig(0) == (1.0, 0.0)
    requires nodes[i].parent.None?
    requires nodes[i].translation == Zero && nodes[i].rotation == NoRotation && nodes[i].scale == One
    ensures Apply(Compose(nodes, i), v, trig) == v
  {
    ComposeMapsPoint(nodes, i, v, trig);
    UnrotatedLocalPoint(nodes, i, v, trig);
  }

  /** Without a rotation of its own, a node puts a vertex at its scaled
      position plus its offset scaled by the parent's local scale; the pivot
      then plays no part. */
  lemma UnrotatedLocalPoint(nodes: seq<Node>, i: NodeId, v: Vec3, trig: Trig)
    requires ParentsFirst(nodes) && i < |nodes| && trig(0) == (1.0, 0.0)
    requires nodes[i].rotation == NoRotation
    ensures LocalPoint(nodes, i, v, trig) == Add(Mul(nodes[i].translation, ParentScale(nodes, i)), Mul(nodes[i].scale, v))
  {
    var n := nodes[i];
    var w := Add(Neg(n.pivot), Mul(n.scale, v));
    assert Turn(n.rotation, w, trig) == w by {
      TurnByNothing(w, trig);
    }
  }

  /** A child of a node whose world rotation is zero is placed at the
      parent's world translation plus its own local placement. */
  lemma UnturnedParentPoint(nodes: seq<Node>, i: NodeId, v: Vec3, trig: Trig)
    requires ParentsFirst(nodes) && i < |nodes| && trig(0) == (1.0, 0.0)
    requires nodes[i].parent.Some? && WorldRotate(nodes, nodes[i].parent.value) == NoRotation
    ensures Apply(Compose(nodes, i), v, trig) == Add(WorldTranslate(nodes, nodes[i].parent.value), LocalPoint(nodes, i, v, trig))
  {
    ComposeMapsPoint(nodes, i, v, trig);
    TurnByNothing(LocalPoint(nodes, i, v, trig), trig);
  }
}
