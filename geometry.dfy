/** The `geometry` class: objects linked into a hierarchy at construction,
    whose mutators replace one local vector and then rebuild the matrix of
    the object and of everything below it. All objects live in one `Scene`;
    an object is its index there. */
module Geometry {
  import opened Vectors
  import opened Rotation
  import opened Matrices
  import opened Hierarchy

  /** An object's `matrix` field: either what the constructor left there
      (not computed by this model) or a composed list of updates. */
  datatype Matrix = Initial | Product(ops: seq<Op>)

  /** Every stored rotation component lies in [0, 360). */
  ghost predicate RotationsWrapped(nodes: seq<Node>) {
    forall i :: 0 <= i < |nodes| ==> InRange(nodes[i].rotation)
  }

  /** No matrix is stale: each is the constructor's or the composition of the
      current local transforms along the node's ancestor chain. */
  ghost predicate MatricesCurrent(nodes: seq<Node>, matrices: seq<Matrix>)
    requires ParentsFirst(nodes)
  {
    |matrices| == |nodes| &&
    forall j :: 0 <= j < |nodes| ==> matrices[j] == Initial || matrices[j] == Product(Compose(nodes, j))
  }

  /** Changing one node's local transform and then recomputing its subtree
      leaves no matrix stale. */
  lemma RefreshKeepsCurrent(a: seq<Node>, b: seq<Node>, n: NodeId, ma: seq<Matrix>, mb: seq<Matrix>)
    requires ParentsFirst(a) && |a| == |b| && n < |a|
    requires forall k :: 0 <= k < |a| ==> b[k].parent == a[k].parent
    requires forall k :: 0 <= k < |a| && k != n ==> b[k] == a[k]
    requires MatricesCurrent(a, ma)
    requires ParentsFirst(b) && |mb| == |b|
    requires forall j :: 0 <= j < |b| ==>
      mb[j] == if n in Chain(b, j) then Product(Compose(b, j)) else ma[j]
    ensures MatricesCurrent(b, mb)
  {
    forall j: nat | j < |b| ensures mb[j] == Initial || mb[j] == Product(Compose(b, j)) {
      if n !in Chain(b, j) {
        WorldFrame(b, a, j);
        ComposeFrame(a, b, j);
      }
    }
  }

  /** Appending a node with the constructor's matrix, and a child to its
      parent's list, leaves no matrix stale. */
  lemma AppendKeepsCurrent(a: seq<Node>, b: seq<Node>, ma: seq<Matrix>)
    requires ParentsFirst(a) && ParentsFirst(b) && |b| == |a| + 1
    requires forall k :: 0 <= k < |a| ==> SameTransform(a[k], b[k])
    requires MatricesCurrent(a, ma)
    ensures MatricesCurrent(b, ma + [Initial])
  {
    var mb := ma + [Initial];
    forall j: nat | j < |b| ensures mb[j] == Initial || mb[j] == Product(Compose(b, j)) {
      if j < |a| {
        ComposeFrame(a, b, j);
      }
    }
  }

  /** Changing what no matrix depends on leaves no matrix stale. */
  lemma SameTransformsKeepCurrent(a: seq<Node>, b: seq<Node>, m: seq<Matrix>)
    requires ParentsFirst(a) && ParentsFirst(b) && |b| == |a|
    requires forall k :: 0 <= k < |a| ==> SameTransform(a[k], b[k])
    requires MatricesCurrent(a, m)
    ensures MatricesCurrent(b, m)
  {
    forall j: nat | j < |b| ensures m[j] == Initial || m[j] == Product(Compose(b, j)) {
      ComposeFrame(a, b, j);
    }
  }

  /** Constructing a node with a parent keeps the links consistent. */
  lemma AttachKeepsLinks(a: seq<Node>, b: seq<Node>, parent: Option<NodeId>)
    requires ParentsFirst(a) && ChildrenMatchParents(a)
    requires parent.Some? ==> parent.value < |a|
    requires |b| == |a| + 1 && b[|a|] == Node(Zero, NoRotation, One, Zero, parent, [], [])
    requires forall j :: 0 <= j < |a| ==>
      b[j] == if parent == Some(j) then a[j].(children := a[j].children + [|a|]) else a[j]
    ensures ParentsFirst(b) && ChildrenMatchParents(b)
  {
    var id := |a|;
    assert ParentsFirst(b) by {
      forall i | 0 <= i < |b| && b[i].parent.Some? ensures b[i].parent.value < i {
        if i < id { assert b[i].parent == a[i].parent; }
      }
    }
    forall i, k | 0 <= i < |b| && 0 <= k < |b[i].children|
      ensures b[i].children[k] < |b| && b[b[i].children[k]].parent == Some(i)
    {
      if k < |a[i].children| {
        assert b[i].children[k] == a[i].children[k];
      }
    }
    forall i, k, l | 0 <= i < |b| && 0 <= k < l < |b[i].children|
      ensures b[i].children[k] < b[i].children[l]
    {
      if l < |a[i].children| {
        assert b[i].children[k] == a[i].children[k] && b[i].children[l] == a[i].children[l];
      } else {
        assert b[i].children[k] == a[i].children[k];
      }
    }
    forall j | 0 <= j < |b| && b[j].parent.Some?
      ensures j in b[b[j].parent.value].children
    {
      var p := b[j].parent.value;
      if j < id {
        assert j in a[p].children;
      }
    }
  }

  class Scene {
    var nodes: seq<Node>
    var matrices: seq<Matrix>

    /** The links between objects are consistent. */
    ghost predicate Linked()
      reads this
    {
      |matrices| == |nodes| && ParentsFirst(nodes) && ChildrenMatchParents(nodes)
    }

    ghost predicate Valid()
      reads this
    {
      Linked() && RotationsWrapped(nodes) && MatricesCurrent(nodes, matrices)
    }

    constructor ()
      ensures Valid() && nodes == [] && matrices == []
    {
      nodes := [];
      matrices := [];
    }

    /** `new geometry(parent)`: identity transform, no children, an empty
        vertex buffer; with a parent, the new object is appended to the
        parent's children. */
    method NewGeometry(parent: Option<NodeId>) returns (id: NodeId)
      requires Valid()
      requires parent.Some? ==> parent.value < |nodes|
      modifies this
      ensures Valid()
      ensures id == |old(nodes)| && |nodes| == id + 1
      ensures nodes[id] == Node(Zero, NoRotation, One, Zero, parent, [], [])
      ensures matrices == old(matrices) + [Initial]
      ensures forall j :: 0 <= j < id ==>
        nodes[j] == if parent == Some(j) then old(nodes[j]).(children := old(nodes[j].children) + [id])
                    else old(nodes[j])
    {
      id := |nodes|;
      var linked := nodes;
      if parent.Some? {
        var p := parent.value;
        linked := linked[p := linked[p].(children := linked[p].children + [id])];
      }
      ghost var before := nodes;
      nodes := linked + [Node(Zero, NoRotation, One, Zero, parent, [], [])];
      matrices := matrices + [Initial];
      AttachKeepsLinks(before, nodes, parent);
      assert forall k :: 0 <= k < id ==> SameTransform(before[k], nodes[k]);
      AppendKeepsCurrent(before, nodes, old(matrices));
    }

    /** `translate(x, y, z)`: replaces the translation only. */
    method Translate(id: NodeId, x: real, y: real, z: real)
      requires Valid() && id < |nodes|
      modifies this
      ensures Valid()
      ensures nodes == old(nodes)[id := old(nodes[id]).(translation := Vec3(x, y, z))]
      ensures forall j :: 0 <= j < |nodes| ==>
        matrices[j] == if id in Chain(nodes, j) then Product(Compose(nodes, j)) else old(matrices[j])
    {
      nodes := nodes[id := nodes[id].(translation := Vec3(x, y, z))];
      UpdateMatrix(id);
      RefreshKeepsCurrent(old(nodes), nodes, id, old(matrices), matrices);
    }

    /** `rotate(x, y, z)`: replaces the rotation only, each axis wrapped into
        [0, 360). */
    method Rotate(id: NodeId, x: int, y: int, z: int)
      requires Valid() && id < |nodes|
      modifies this
      ensures Valid()
      ensures nodes == old(nodes)[id := old(nodes[id]).(rotation := NormalizeAngles(Angles(x, y, z)))]
      ensures forall j :: 0 <= j < |nodes| ==>
        matrices[j] == if id in Chain(nodes, j) then Product(Compose(nodes, j)) else old(matrices[j])
    {
      nodes := nodes[id := nodes[id].(rotation := NormalizeAngles(Angles(x, y, z)))];
      UpdateMatrix(id);
      RefreshKeepsCurrent(old(nodes), nodes, id, old(matrices), matrices);
    }

    /** `scale(x, y, z)`: replaces the scale only. */
    method Scale(id: NodeId, x: real, y: real, z: real)
      requires Valid() && id < |nodes|
      modifies this
      ensures Valid()
      ensures nodes == old(nodes)[id := old(nodes[id]).(scale := Vec3(x, y, z))]
      ensures forall j :: 0 <= j < |nodes| ==>
        matrices[j] == if id in Chain(nodes, j) then Product(Compose(nodes, j)) else old(matrices[j])
    {
      nodes := nodes[id := nodes[id].(scale := Vec3(x, y, z))];
      UpdateMatrix(id);
      RefreshKeepsCurrent(old(nodes), nodes, id, old(matrices), matrices);
    }

    /** `pivot(x, y, z)`: replaces the pivot only. */
    method Pivot(id: NodeId, x: real, y: real, z: real)
      requires Valid() && id < |nodes|
      modifies this
      ensures Valid()
      ensures nodes == old(nodes)[id := old(nodes[id]).(pivot := Vec3(x, y, z))]
      ensures forall j :: 0 <= j < |nodes| ==>
        matrices[j] == if id in Chain(nodes, j) then Product(Compose(nodes, j)) else old(matrices[j])
    {
      nodes := nodes[id := nodes[id].(pivot := Vec3(x, y, z))];
      UpdateMatrix(id);
      RefreshKeepsCurrent(old(nodes), nodes, id, old(matrices), matrices);
    }

    /** The assignment to `this.vertices` a subclass constructor makes. */
    method SetVertices(id: NodeId, buf: seq<real>)
      requires Valid() && id < |nodes|
      modifies this
      ensures Valid()
      ensures nodes == old(nodes)[id := old(nodes[id]).(vertices := buf)]
      ensures matrices == old(matrices)
    {
      ghost var before := nodes;
      nodes := nodes[id := nodes[id].(vertices := buf)];
      assert forall k :: 0 <= k < |nodes| ==> SameTransform(before[k], nodes[k]);
      assert forall k :: 0 <= k < |nodes| ==> nodes[k].children == before[k].children;
      SameTransformsKeepCurrent(before, nodes, matrices);
    }

    /** `getTranslate()`. */
    function GetTranslate(id: NodeId): Vec3
      reads this
      requires id < |nodes|
    {
      nodes[id].translation
    }

    /** `getRotate()`: always wrapped, since every mutation wraps it. */
    function GetRotate(id: NodeId): (r: Angles)
      reads this
      requires Valid() && id < |nodes|
      ensures InRange(r)
    {
      nodes[id].rotation
    }

    /** `getScale()`. */
    function GetScale(id: NodeId): Vec3
      reads this
      requires id < |nodes|
    {
      nodes[id].scale
    }

    /** The first half of `_updateMatrix()`: the object's matrix rebuilt
        from the identity, one update at a time. */
    method BuildMatrix(id: NodeId) returns (m: seq<Op>)
      requires ParentsFirst(nodes) && id < |nodes|
      ensures m == Compose(nodes, id)
    {
      var node := nodes[id];
      m := [];
      var parentScale := One;
      if node.parent.Some? {
        var p := node.parent.value;
        var pt := WorldTranslate(nodes, p);
        var pr := WorldRotate(nodes, p);
        parentScale := nodes[p].scale;
        m := m + [T(pt)];
        m := m + [Rx(pr.x), Ry(pr.y), Rz(pr.z)];
      }
      m := m + [T(Mul(node.translation, parentScale))];
      m := m + [T(node.pivot)];
      m := m + [Rx(node.rotation.x), Ry(node.rotation.y), Rz(node.rotation.z)];
      m := m + [T(Neg(node.pivot))];
      m := m + [S(node.scale)];
    }

    /** `_updateMatrix()`: rebuilds the object's matrix, then does the same
        for every child in turn, so that exactly the matrices of the
        object's subtree are recomputed. */
    method UpdateMatrix(id: NodeId)
      requires Linked() && id < |nodes|
      modifies this`matrices
      ensures Linked()
      ensures forall j :: 0 <= j < |nodes| ==>
        matrices[j] == if id in Chain(nodes, j) then Product(Compose(nodes, j)) else old(matrices[j])
      decreases |nodes| - id
    {
      var m := BuildMatrix(id);
      matrices := matrices[id := Product(m)];

      var children := nodes[id].children;
      var k := 0;
      while k < |children|
        invariant 0 <= k <= |children|
        invariant Linked()
        invariant forall j :: 0 <= j < |nodes| ==>
          matrices[j] == if j == id || InSubtrees(nodes, children[..k], j)
                         then Product(Compose(nodes, j)) else old(matrices[j])
      {
        var c := children[k];
        assert nodes[c].parent == Some(id);
        UpdateMatrix(c);
        assert children[..k + 1][..k] == children[..k];
        forall j: nat | j < |nodes|
          ensures InSubtrees(nodes, children[..k + 1], j) == (InSubtrees(nodes, children[..k], j) || c in Chain(nodes, j))
        {
        }
        k := k + 1;
      }
      assert children[..k] == children;
      forall j | 0 <= j < |nodes| ensures (id in Chain(nodes, j)) == (j == id || InSubtrees(nodes, children, j)) {
        SubtreeSplit(nodes, id, j);
      }
    }
  }
}
