/** Short client programs over the `Scene` API. Each builds a small scene,
    calls the mutators and checks where the matrices they leave put given
    vertices (a child's offset scaled by its parent, a right-handed turn, a
    fixed pivot); the last ones build the animal of the application: its
    links, and each part translated, scaled and rotated. */
module Scenarios {
  import opened Vectors
  import opened Rotation
  import opened Matrices
  import opened Hierarchy
  import opened Geometry
  import opened Triangle

  /** The point a computed matrix of `id` takes `v` to. The constructor's
      matrix is not computed by this model, so it has no such point. */
  function WorldOf(scene: Scene, id: NodeId, v: Vec3, trig: Trig): Vec3
    reads scene
    requires id < |scene.matrices| && scene.matrices[id].Product?
  {
    Apply(scene.matrices[id].ops, v, trig)
  }

  /** A child of a root that sits at the origin unrotated, itself
      unrotated, puts a vertex `v` at its offset scaled by the root's scale
      plus `v` scaled by its own scale: the root's scale is not compounded
      into the child's size. */
  lemma ChildOfUnturnedRoot(nodes: seq<Node>, i: NodeId, v: Vec3, trig: Trig)
    requires ParentsFirst(nodes) && i < |nodes| && trig(0) == (1.0, 0.0)
    requires nodes[i].parent.Some? && nodes[i].rotation == NoRotation
    requires var p := nodes[i].parent.value;
      nodes[p].parent == None && nodes[p].translation == Zero && nodes[p].rotation == NoRotation
    ensures var p := nodes[i].parent.value;
      Apply(Compose(nodes, i), v, trig) == Add(Mul(nodes[i].translation, nodes[p].scale), Mul(nodes[i].scale, v))
  {
    UnturnedParentPoint(nodes, i, v, trig);
    UnrotatedLocalPoint(nodes, i, v, trig);
  }

  /** Under a root at the origin turned 90 degrees about Y, an unrotated
      child's local placement `w` ends at (w.z, w.y, -w.x). */
  lemma ChildOfQuarterTurnedRoot(nodes: seq<Node>, i: NodeId, v: Vec3, trig: Trig)
    requires ParentsFirst(nodes) && i < |nodes|
    requires trig(0) == (1.0, 0.0) && trig(90) == (0.0, 1.0)
    requires nodes[i].parent.Some? && nodes[i].rotation == NoRotation
    requires var p := nodes[i].parent.value;
      nodes[p].parent == None && nodes[p].translation == Zero && nodes[p].rotation == Angles(0, 90, 0)
    ensures var p := nodes[i].parent.value;
      var w := Add(Mul(nodes[i].translation, nodes[p].scale), Mul(nodes[i].scale, v));
      Apply(Compose(nodes, i), v, trig) == Vec3(w.z, w.y, -w.x)
  {
    var p := nodes[i].parent.value;
    ComposeMapsPoint(nodes, i, v, trig);
    UnrotatedLocalPoint(nodes, i, v, trig);
    QuarterTurnAboutY(LocalPoint(nodes, i, v, trig), trig);
  }

  /** A child of an untransformed root, translated by (1, 0, 0) and scaled by
      2: its origin lands at (1, 0, 0) and its local (1, 0, 0) at (3, 0, 0). */
  method TranslateThenScale(trig: Trig) returns (origin: Vec3, unitX: Vec3)
    requires trig(0) == (1.0, 0.0)
    ensures origin == Vec3(1.0, 0.0, 0.0)
    ensures unitX == Vec3(3.0, 0.0, 0.0)
  {
    var scene := new Scene();
    var a := scene.NewGeometry(None);
    var b := scene.NewGeometry(Some(a));
    scene.Translate(b, 1.0, 0.0, 0.0);
    scene.Scale(b, 2.0, 2.0, 2.0);
    assert b in Chain(scene.nodes, b);
    assert scene.matrices[b] == Product(Compose(scene.nodes, b));
    assert scene.nodes[a].scale == One;
    assert scene.nodes[b].scale == Vec3(2.0, 2.0, 2.0) && scene.nodes[b].translation == Vec3(1.0, 0.0, 0.0);
    ChildOfUnturnedRoot(scene.nodes, b, Zero, trig);
    ChildOfUnturnedRoot(scene.nodes, b, Vec3(1.0, 0.0, 0.0), trig);
    origin := WorldOf(scene, b, Zero, trig);
    unitX := WorldOf(scene, b, Vec3(1.0, 0.0, 0.0), trig);
  }

  /** Under a parent turned 90 degrees about Y, a child offset by (1, 0, 0)
      sits at (0, 0, -1): rotations are right-handed. */
  method ChildOfTurnedParent(trig: Trig) returns (origin: Vec3)
    requires trig(0) == (1.0, 0.0) && trig(90) == (0.0, 1.0)
    ensures origin == Vec3(0.0, 0.0, -1.0)
  {
    var scene := new Scene();
    var a := scene.NewGeometry(None);
    var b := scene.NewGeometry(Some(a));
    scene.Translate(b, 1.0, 0.0, 0.0);
    NormalizeAnglesFixesStored(Angles(0, 90, 0));
    scene.Rotate(a, 0, 90, 0);
    assert a in Chain(scene.nodes, b);
    assert scene.matrices[b] == Product(Compose(scene.nodes, b));
    assert scene.nodes[a].scale == One && scene.nodes[a].rotation == Angles(0, 90, 0);
    assert scene.nodes[b].scale == One && scene.nodes[b].translation == Vec3(1.0, 0.0, 0.0);
    ChildOfQuarterTurnedRoot(scene.nodes, b, Zero, trig);
    assert Add(Mul(Vec3(1.0, 0.0, 0.0), One), Mul(One, Zero)) == Vec3(1.0, 0.0, 0.0);
    origin := WorldOf(scene, b, Zero, trig);
  }

  /** A parent scaled by 2 along X doubles its child's X offset but not the
      child's own size: the child's origin is at (2, 0, 0) and its local
      (1, 0, 0) one unit further. */
  method ParentScaleMovesChild(trig: Trig) returns (origin: Vec3, unitX: Vec3)
    requires trig(0) == (1.0, 0.0)
    ensures origin == Vec3(2.0, 0.0, 0.0)
    ensures unitX == Vec3(3.0, 0.0, 0.0)
  {
    var scene := new Scene();
    var a := scene.NewGeometry(None);
    var b := scene.NewGeometry(Some(a));
    scene.Scale(a, 2.0, 1.0, 1.0);
    scene.Translate(b, 1.0, 0.0, 0.0);
    assert b in Chain(scene.nodes, b);
    assert scene.matrices[b] == Product(Compose(scene.nodes, b));
    assert scene.nodes[a].scale == Vec3(2.0, 1.0, 1.0);
    assert scene.nodes[b].scale == One && scene.nodes[b].translation == Vec3(1.0, 0.0, 0.0);
    ChildOfUnturnedRoot(scene.nodes, b, Zero, trig);
    ChildOfUnturnedRoot(scene.nodes, b, Vec3(1.0, 0.0, 0.0), trig);
    origin := WorldOf(scene, b, Zero, trig);
    unitX := WorldOf(scene, b, Vec3(1.0, 0.0, 0.0), trig);
  }

  /** A root given a pivot and then turned half a turn about Y keeps the
      vertex at the pivot where it was, whatever the cosine table says. */
  method TurnAboutPivot(trig: Trig, p: Vec3) returns (image: Vec3)
    ensures image == p
  {
    var scene := new Scene();
    var n := scene.NewGeometry(None);
    scene.Pivot(n, p.x, p.y, p.z);
    scene.Rotate(n, 0, 180, 0);
    ComposeMapsPoint(scene.nodes, n, p, trig);
    assert Mul(One, p) == p;
    assert Add(Neg(p), p) == Zero;
    TurnFixesOrigin(scene.nodes[n].rotation, trig);
    image := WorldOf(scene, n, p, trig);
  }

  /** The vertex buffer of a part: a triangle's shaded template, or nothing
      for a cube, whose buffer this model leaves out. */
  function PartBuffer(color: Option<Vec3>): seq<real> {
    match color
    case None => []
    case Some(c) => Vertices(c.x, c.y, c.z)
  }

  /** One part of the animal: a cube or a triangle of the given colour,
      constructed under `parent` and then translated, scaled and rotated, in
      that order. */
  method AddPart(scene: Scene, parent: NodeId, color: Option<Vec3>, t: Vec3, s: Vec3, r: Angles)
    returns (id: NodeId)
    requires scene.Valid() && parent < |scene.nodes|
    modifies scene
    ensures scene.Valid()
    ensures id == |old(scene.nodes)| && |scene.nodes| == id + 1
    ensures scene.nodes[id] == Node(t, NormalizeAngles(r), s, Zero, Some(parent), [], PartBuffer(color))
    ensures scene.matrices[id] == Product(Compose(scene.nodes, id))
    ensures scene.nodes[..id] ==
              old(scene.nodes)[parent := old(scene.nodes[parent]).(children := old(scene.nodes[parent].children) + [id])]
    ensures scene.nodes[parent] == old(scene.nodes[parent]).(children := old(scene.nodes[parent].children) + [id])
    ensures scene.matrices[..id] == old(scene.matrices)
  {
    match color {
      case None => id := scene.NewGeometry(Some(parent));
      case Some(c) => id := NewTriangle(scene, Some(parent), c.x, c.y, c.z);
    }
    Place(scene, id, t, s, r);
  }

  /** The placement every part of the animal receives: translate, scale,
      then rotate. The object's own matrix is then current. */
  method Place(scene: Scene, id: NodeId, t: Vec3, s: Vec3, r: Angles)
    requires scene.Valid() && id < |scene.nodes|
    modifies scene
    ensures scene.Valid()
    ensures scene.nodes ==
      old(scene.nodes)[id := old(scene.nodes[id]).(translation := t, scale := s, rotation := NormalizeAngles(r))]
    ensures scene.matrices[id] == Product(Compose(scene.nodes, id))
    ensures forall j :: 0 <= j < id ==> scene.matrices[j] == old(scene.matrices[j])
  {
    scene.Translate(id, t.x, t.y, t.z);
    scene.Scale(id, s.x, s.y, s.z);
    scene.Rotate(id, r.x, r.y, r.z);
    assert id in Chain(scene.nodes, id);
  }

  /** The head: the root of the hierarchy, placed like any other part. */
  method AddHead(scene: Scene) returns (id: NodeId)
    requires scene.Valid() && scene.nodes == []
    modifies scene
    ensures scene.Valid() && id == 0 && |scene.nodes| == 1
    ensures scene.nodes[0].parent == None && scene.nodes[0].children == []
  {
    id := scene.NewGeometry(None);
    scene.Translate(id, 0.0, 0.4, 0.0);
    scene.Scale(id, 0.25, 0.25, 0.25);
    scene.Rotate(id, 0, 90, 0);
  }

  /** The two eyes, the head's second and third children. */
  method AddEyes(scene: Scene)
    requires scene.Valid() && |scene.nodes| == 2 && scene.nodes[0].children == [1]
    modifies scene
    ensures scene.Valid() && |scene.nodes| == 4 && scene.nodes[0].children == [1, 2, 3]
    ensures scene.nodes[0].parent == old(scene.nodes[0].parent)
  {
    var eyeLeft := AddPart(scene, 0, Some(Vec3(0.1, 0.1, 0.1)), Vec3(0.1, 0.5, 0.26), Vec3(0.1, 0.2, 1.0), Angles(0, 0, 270));
    assert |scene.nodes| == 3 && scene.nodes[0].children == [1, 2];
    var eyeRight := AddPart(scene, 0, Some(Vec3(0.1, 0.1, 0.1)), Vec3(0.1, 0.5, -0.26), Vec3(0.1, 0.2, 1.0), Angles(0, 0, 270));
  }

  /** The beak and the two eyes, the head's first three children. */
  method AddFace(scene: Scene)
    requires scene.Valid() && |scene.nodes| == 1 && scene.nodes[0].children == []
    modifies scene
    ensures scene.Valid() && |scene.nodes| == 4 && scene.nodes[0].children == [1, 2, 3]
    ensures scene.nodes[0].parent == old(scene.nodes[0].parent)
  {
    var beak := AddPart(scene, 0, Some(Vec3(1.0, 0.95, 0.8)), Vec3(0.26, 0.4, 0.0), Vec3(0.2, 0.3, 1.0), Angles(180, 90, 0));
    AddEyes(scene);
  }

  /** The two wings, the body's children. */
  method AddWings(scene: Scene)
    requires scene.Valid() && |scene.nodes| == 5 && scene.nodes[4].children == []
    modifies scene
    ensures scene.Valid() && |scene.nodes| == 7 && scene.nodes[4].children == [5, 6]
    ensures scene.nodes[0] == old(scene.nodes[0]) && scene.nodes[4] == old(scene.nodes[4]).(children := [5, 6])
    ensures scene.matrices[..5] == old(scene.matrices)
  {
    ghost var head := scene.nodes[0];
    var wingLeft := AddPart(scene, 4, None, Vec3(0.0, -0.2, 0.5), Vec3(0.1, 0.3, 0.5), Angles(0, 0, 0));
    assert scene.nodes[0] == scene.nodes[..5][0] == head;
    var wingRight := AddPart(scene, 4, None, Vec3(0.0, -0.2, -0.5), Vec3(0.1, 0.3, 0.5), Angles(0, 0, 0));
    assert scene.nodes[0] == scene.nodes[..6][0] == head;
  }

  /** The body, the head's fourth child, and the two wings under it. */
  method AddBody(scene: Scene)
    requires scene.Valid() && |scene.nodes| == 4 && scene.nodes[0].children == [1, 2, 3]
    modifies scene
    ensures scene.Valid() && |scene.nodes| == 7 && scene.nodes[0].children == [1, 2, 3, 4]
    ensures scene.nodes[0].parent == old(scene.nodes[0].parent)
    ensures scene.nodes[4] == Node(Vec3(0.0, -0.35, 0.0), NoRotation, Vec3(0.28, 0.5, 0.28), Zero, Some(0), [5, 6], [])
  {
    NormalizeAnglesFixesStored(NoRotation);
    var body := AddPart(scene, 0, None, Vec3(0.0, -0.35, 0.0), Vec3(0.28, 0.5, 0.28), Angles(0, 0, 0));
    AddWings(scene);
  }

  /** The hierarchy the application builds: the head is the root, the beak,
      the eyes and the body are its children, the wings the body's, and the
      body is placed below the head. */
  method BuildAnimal() returns (scene: Scene)
    ensures scene.Valid() && |scene.nodes| == 7
    ensures scene.nodes[0].parent == None && scene.nodes[0].children == [1, 2, 3, 4]
    ensures scene.nodes[4] == Node(Vec3(0.0, -0.35, 0.0), NoRotation, Vec3(0.28, 0.5, 0.28), Zero, Some(0), [5, 6], [])
  {
    scene := new Scene();
    var head := AddHead(scene);
    AddFace(scene);
    AddBody(scene);
  }
}
