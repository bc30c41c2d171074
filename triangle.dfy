/** The `triangle` class: a `geometry` whose vertex buffer is one fixed
    triangle, each corner tinted by the base colour times a fixed factor. */
module Triangle {
  import opened Vectors
  import opened Hierarchy
  import opened Geometry

  /** One vertex of a buffer as the renderer reads it. */
  datatype Vertex = Vertex(position: Vec3, color: Vec3)

  /** The six floats of one vertex: x, y, z, then r, g, b. */
  function Interleave(v: Vertex): seq<real> {
    [v.position.x, v.position.y, v.position.z, v.color.x, v.color.y, v.color.z]
  }

  /** A vertex buffer: the vertices' floats one after another. */
  function Flatten(vs: seq<Vertex>): (buf: seq<real>)
    ensures |buf| == 6 * |vs|
  {
    if vs == [] then [] else Interleave(vs[0]) + Flatten(vs[1..])
  }

  /** The vertices a buffer of whole records holds. */
  function Unflatten(buf: seq<real>): (vs: seq<Vertex>)
    requires |buf| % 6 == 0
    ensures |vs| == |buf| / 6
  {
    if buf == [] then []
    else [Vertex(Vec3(buf[0], buf[1], buf[2]), Vec3(buf[3], buf[4], buf[5]))] + Unflatten(buf[6..])
  }

  lemma {:induction false} UnflattenFlatten(vs: seq<Vertex>)
    ensures |Flatten(vs)| % 6 == 0 && Unflatten(Flatten(vs)) == vs
  {
    if vs != [] {
      var buf := Flatten(vs);
      assert buf[6..] == Flatten(vs[1..]);
      UnflattenFlatten(vs[1..]);
    }
  }

  lemma {:induction false} FlattenUnflatten(buf: seq<real>)
    requires |buf| % 6 == 0
    ensures Flatten(Unflatten(buf)) == buf
  {
    if buf != [] {
      var vs := Unflatten(buf);
      assert vs[1..] == Unflatten(buf[6..]);
      FlattenUnflatten(buf[6..]);
      assert buf == buf[..6] + buf[6..];
    }
  }

  /** `vertices.length / 6`: the vertex count `render` draws. */
  function VertexCount(buf: seq<real>): nat {
    |buf| / 6
  }

  /** The corners of the template, bottom left, bottom right, top. */
  const Corners: seq<Vec3> := [Vec3(-0.5, -0.5, 0.0), Vec3(0.5, -0.5, 0.0), Vec3(0.0, 0.5, 0.0)]

  /** The factor each corner's colour is multiplied by. */
  const Shades: seq<Vec3> := [Vec3(0.9, 0.9, 0.93), One, Vec3(1.1, 1.11, 1.05)]

  /** The buffer `triangle`'s constructor builds from `[r, g, b]`. */
  function Vertices(r: real, g: real, b: real): seq<real> {
    [ -0.5, -0.5, 0.0, r * 0.9, g * 0.9, b * 0.93,
       0.5, -0.5, 0.0, r, g, b,
       0.0,  0.5, 0.0, r * 1.1, g * 1.11, b * 1.05 ]
  }

  /** The buffer holds three whole vertices: corner `k` of the template,
      coloured by the base colour times shade `k`. The second corner takes
      the base colour unchanged. */
  lemma VerticesAreShadedCorners(r: real, g: real, b: real)
    ensures |Vertices(r, g, b)| == 18 && VertexCount(Vertices(r, g, b)) == 3
    ensures var vs := Unflatten(Vertices(r, g, b));
      |vs| == 3 &&
      forall k :: 0 <= k < 3 ==> vs[k] == Vertex(Corners[k], Mul(Vec3(r, g, b), Shades[k]))
    ensures Unflatten(Vertices(r, g, b))[1].color == Vec3(r, g, b)
  {
    var vs := [Vertex(Corners[0], Mul(Vec3(r, g, b), Shades[0])),
               Vertex(Corners[1], Mul(Vec3(r, g, b), Shades[1])),
               Vertex(Corners[2], Mul(Vec3(r, g, b), Shades[2]))];
    assert Flatten(vs[2..]) == Interleave(vs[2]) by {
      assert vs[2..][1..] == [];
    }
    assert Flatten(vs[1..]) == Interleave(vs[1]) + Interleave(vs[2]) by {
      assert vs[1..][1..] == vs[2..];
    }
    assert Flatten(vs) == Interleave(vs[0]) + Interleave(vs[1]) + Interleave(vs[2]);
    assert Flatten(vs) == Vertices(r, g, b);
    UnflattenFlatten(vs);
  }

  /** The corner positions do not depend on the colour. */
  lemma PositionsIgnoreColor(c: Vec3, d: Vec3, k: nat)
    requires k < 3
    ensures Unflatten(Vertices(c.x, c.y, c.z))[k].position == Unflatten(Vertices(d.x, d.y, d.z))[k].position
  {
    VerticesAreShadedCorners(c.x, c.y, c.z);
    VerticesAreShadedCorners(d.x, d.y, d.z);
  }

  /** `new triangle(parent, [r, g, b])`: `super(parent)` links the new object
      exactly as `new geometry(parent)` does, then the vertex buffer is set. */
  method NewTriangle(scene: Scene, parent: Option<NodeId>, r: real, g: real, b: real) returns (id: NodeId)
    requires scene.Valid()
    requires parent.Some? ==> parent.value < |scene.nodes|
    modifies scene
    ensures scene.Valid()
    ensures id == |old(scene.nodes)| && |scene.nodes| == id + 1
    ensures scene.nodes[id] == Node(Zero, NoRotation, One, Zero, parent, [], Vertices(r, g, b))
    ensures scene.matrices == old(scene.matrices) + [Initial]
    ensures forall j :: 0 <= j < id ==>
      scene.nodes[j] == if parent == Some(j) then old(scene.nodes[j]).(children := old(scene.nodes[j].children) + [id])
                        else old(scene.nodes[j])
  {
    id := scene.NewGeometry(parent);
    scene.SetVertices(id, Vertices(r, g, b));
  }
}
