# A verified model of the `geometry` scene graph of asg2

asg2 draws a small animal built from WebGL shapes. Every shape is a
`geometry` object. It has a local translation, rotation, scale and pivot. It
may have a parent, set once at construction, and it keeps a list of
children. Each object keeps a `matrix`, which is the transform its vertices
are drawn with. Every mutator (`translate`, `rotate`, `scale`, `pivot`)
replaces one local vector. It then calls `_updateMatrix`, which rebuilds the
object's matrix from its own transform and its parent's, and recurses into
every child. `triangle` is a `geometry` whose vertex buffer is a fixed
three-vertex template tinted by a colour.

What the model holds:

- **The objects.** All objects live in one `Geometry.Scene`. Its field
  `nodes` holds the local state of each object. An object is its index
  there, in construction order.
- **The matrices.** A parallel field `matrices` holds each object's
  matrix.
- **Matrix form.** A matrix is kept symbolically, as the ordered list of
  `Matrix4` updates `_updateMatrix` applies (`Matrices.Op`). Its action on a
  point is `Matrices.Apply`.
- **Rotations.** How a rotation moves a point depends on a cosine/sine table
  passed in as a parameter (`Trig`). No trigonometry enters the proofs.

Proved properties:

- The hierarchy never becomes cyclic. Children lists agree with parent
  links.
- After every mutator, exactly the matrices of the object's subtree have
  been recomputed. Once an object or an ancestor of it has been mutated,
  its matrix is current. Before that it is the constructor's matrix, which
  this model does not compute.
- Stored rotations lie in [0, 360). The JavaScript wrap formula equals the
  Euclidean remainder.
- The world accessors are sums along the ancestor chain.
- Facts about the composed matrix:
  - a pivot is a fixed point of the rotation about it;
  - the parent's local scale, but no higher ancestor's, scales a child's
    offset;
  - the parent's pivot is read but never used.
- The triangle buffer holds the shaded corners, six floats per vertex.

Reading the source, `geometry.js` and `triangle.js`: the getters
`getTranslate`/`getScale` are `Scene.GetTranslate`/`Scene.GetScale`. The
draw count of `render` (`vertices.length / 6`) is `Triangle.VertexCount`.
`Scenarios` holds short client programs. The last of them build the animal
of `asg2.js`: its parent links, and each part translated, scaled and rotated
with the values found there. Cube vertex buffers are not modelled.

## Model

| member | source | states |
|---|---|---|
| Rotation.JsRem360 | geometry/geometry.js:29 | JavaScript's `v % 360`: the result lies strictly between -360 and 360, has the sign of `v`, and differs from `v` by a multiple of 360 |
| Rotation.JsRem360Unique | geometry/geometry.js:29 | those three properties determine the truncating remainder uniquely |
| Rotation.Normalize | geometry/geometry.js:29 | `((v % 360) + 360) % 360` lies in [0, 360) and is congruent to `v` modulo 360 |
| Rotation.NormalizeIsEuclidean | geometry/geometry.js:29 | the wrap formula equals the Euclidean remainder `v mod 360` for every integer, negative ones included |
| Rotation.NormalizeIdempotent | geometry/geometry.js:29 | wrapping an already wrapped angle changes nothing |
| Rotation.NormalizeFixesRange | geometry/geometry.js:29 | an angle already in [0, 360) is stored as given |
| Rotation.NormalizeAngles | geometry/geometry.js:29-30 | each axis of the stored rotation lies in [0, 360) and is congruent to the argument |
| Rotation.NormalizeAnglesFixesStored | geometry/geometry.js:29-30 | re-applying a stored rotation stores the same rotation |
| Matrices.ApplyAppend | geometry/geometry.js:103-110 | applying a concatenated list of updates applies the later updates first, as post-multiplied `Matrix4` calls do |
| Matrices.ApplyRotations | geometry/geometry.js:108 | the chained X, Y, Z rotations turn a point about Z first, then Y, then X |
| Matrices.ApplyPivotRotation | geometry/geometry.js:107-109 | translate to the pivot, rotate, translate back turns a point about the pivot |
| Matrices.TurnFixesOrigin | geometry/geometry.js:108 | every rotation fixes the origin |
| Matrices.TurnByNothing | geometry/geometry.js:7 | the default zero rotation is the identity when cos 0 = 1 and sin 0 = 0 |
| Matrices.QuarterTurnAboutY | geometry/geometry.js:108 | a right-handed 90-degree turn about Y takes (x, y, z) to (z, y, -x) |
| Matrices.PivotIsFixed | geometry/geometry.js:107-109 | the pivot itself is a fixed point of the rotation about it |
| Hierarchy.Chain | geometry/geometry.js:64-65 | the ancestor chain starts at the node, follows parent links, only visits earlier nodes and ends at a root |
| Hierarchy.WorldTranslate | geometry/geometry.js:62-69 | defines `getWorldTranslate`: the local translation plus the parent's world translation, or the local translation alone for a root; its closed form is `Hierarchy.WorldTranslateIsChainSum` |
| Hierarchy.WorldRotate | geometry/geometry.js:72-79 | defines `getWorldRotate`: the local rotation plus the parent's world rotation, with no wrap; its closed form is `Hierarchy.WorldRotateIsChainSum` |
| Hierarchy.WorldTranslateIsChainSum | geometry/geometry.js:62-69 | `getWorldTranslate` is the sum of the local translations along the ancestor chain, and the local translation for a root |
| Hierarchy.WorldRotateIsChainSum | geometry/geometry.js:72-79 | `getWorldRotate` is the unwrapped sum of the local rotations along the chain, and the local rotation for a root |
| Hierarchy.Compose | geometry/geometry.js:90-110 | the matrix has 11 updates for a child and 7 for a root, and the node's own scale is applied last, i.e. to the vertex first |
| Hierarchy.WorldFrame | geometry/geometry.js:62-79 | the world accessors read only the parent links, translations and rotations along the chain |
| Hierarchy.WorldPrefix | geometry/geometry.js:62-79 | an object's world translation and rotation depend only on the links, translations and rotations of the objects constructed up to it: later objects, and later children appended to it or to its ancestors, change neither |
| Hierarchy.ComposeFrame | geometry/geometry.js:90-110 | a node's matrix depends only on the local transforms along its ancestor chain |
| Hierarchy.ParentFrame | geometry/geometry.js:97-106 | of the parent, only its world translation, world rotation and local scale enter the child's matrix: two scenes that agree on those and on the child's local transform give it the same matrix |
| Hierarchy.EditFrame | geometry/geometry.js:90-110 | an edit that keeps every translation, rotation and parent link, the node itself and its parent's scale keeps the node's matrix |
| Hierarchy.AncestorPivotUnused | geometry/geometry.js:101 | the parent's pivot is read but never used: changing any strict ancestor's pivot leaves the matrix unchanged |
| Hierarchy.GrandparentScaleUnused | geometry/geometry.js:102-106 | only the direct parent's local scale scales the offset: the scale of an ancestor further up does not enter the matrix |
| Hierarchy.LinksKept | geometry/geometry.js:11-13 | keeping every parent link keeps the hierarchy acyclic |
| Hierarchy.ChainTransitive | geometry/geometry.js:111-113 | a descendant of a descendant is a descendant |
| Hierarchy.InSubtreesExists | geometry/geometry.js:111-113 | lying in the subtree of some child of a list is the same as lying in the subtree of one child in it |
| Hierarchy.DescendantUnderChild | geometry/geometry.js:111-113 | every strict descendant of a node lies in the subtree of one of its children |
| Hierarchy.ChildSubtreeUnderParent | geometry/geometry.js:111-113 | the subtree of a child lies in the subtree of its parent |
| Hierarchy.SubtreeSplit | geometry/geometry.js:111-113 | in both directions, a node's subtree is the node plus the subtrees of its children, which is exactly what the recursion visits |
| Hierarchy.ComposeMapsPoint | geometry/geometry.js:103-110 | the matrix scales a vertex, turns it about the pivot, moves it by the offset scaled by the parent's scale, then applies the parent's world rotation and world translation |
| Hierarchy.LocalPointAtPivot | geometry/geometry.js:107-109 | a vertex that the node's scale takes to the pivot is not moved by the node's rotation |
| Hierarchy.PivotUnmovedByRotation | geometry/geometry.js:107-109 | re-rotating a node leaves the world image of its pivot vertex unchanged |
| Hierarchy.DefaultRootIsIdentity | geometry/geometry.js:6-9 | an object with no parent and the default translation, rotation and scale maps every vertex to itself: its matrix is the identity |
| Hierarchy.UnrotatedLocalPoint | geometry/geometry.js:106-110 | without a rotation of its own, a node places a vertex at its scaled position plus its offset scaled by the parent's scale |
| Hierarchy.UnturnedParentPoint | geometry/geometry.js:103-104 | under a parent with no world rotation, the parent's contribution is its world translation alone |
| Geometry.RefreshKeepsCurrent | geometry/geometry.js:22-44 | changing one node and recomputing its subtree keeps every matrix either the constructor's or current |
| Geometry.AppendKeepsCurrent | geometry/geometry.js:2-13 | constructing an object changes no existing matrix |
| Geometry.SameTransformsKeepCurrent | geometry/triangle.js:4-9 | replacing a vertex buffer changes no matrix |
| Geometry.AttachKeepsLinks | geometry/geometry.js:11-13 | constructing an object under a parent keeps links acyclic and children lists consistent, ordered and complete |
| Geometry.Scene.constructor | geometry/geometry.js:2-10 | an empty scene is consistent |
| Geometry.Scene.NewGeometry | geometry/geometry.js:2-13 | the new object has the default transform, no children, an empty buffer and the given parent; it is appended to the parent's children and nothing else changes |
| Geometry.Scene.Translate | geometry/geometry.js:22-25 | only the translation of that object changes; exactly the matrices of its subtree are recomputed; all invariants hold |
| Geometry.Scene.Rotate | geometry/geometry.js:28-32 | only the rotation changes, to the wrapped angles; exactly the subtree's matrices are recomputed |
| Geometry.Scene.Scale | geometry/geometry.js:35-38 | only the scale changes; exactly the subtree's matrices are recomputed |
| Geometry.Scene.Pivot | geometry/geometry.js:41-44 | only the pivot changes; exactly the subtree's matrices are recomputed |
| Geometry.Scene.SetVertices | geometry/triangle.js:4 | only the vertex buffer changes; every matrix is kept |
| Geometry.Scene.GetRotate | geometry/geometry.js:52-54 | the rotation returned always lies in [0, 360) on every axis |
| Geometry.Scene.BuildMatrix | geometry/geometry.js:91-110 | the step-by-step rebuild from the identity yields the composed matrix |
| Geometry.Scene.UpdateMatrix | geometry/geometry.js:90-114 | a node's matrix is recomputed iff the node lies in the subtree of the updated node; all others are kept |
| Triangle.Flatten | geometry/triangle.js:4-9 | a buffer holds six floats per vertex |
| Triangle.Unflatten | geometry/triangle.js:5 | reading a buffer six floats at a time gives one vertex per six floats |
| Triangle.UnflattenFlatten | geometry/triangle.js:5 | reading back a written buffer gives the vertices |
| Triangle.FlattenUnflatten | geometry/triangle.js:5 | writing back a read buffer gives the buffer |
| Triangle.Vertices | geometry/triangle.js:4-9 | defines the buffer literal: the three corners, each followed by its shaded colour; its meaning is stated by `Triangle.VerticesAreShadedCorners` |
| Triangle.VerticesAreShadedCorners | geometry/triangle.js:4-9 | the buffer is 18 floats, 3 drawn vertices, the corners (-0.5,-0.5,0), (0.5,-0.5,0), (0,0.5,0) shaded by (0.9,0.9,0.93), 1 and (1.1,1.11,1.05); the second vertex has the plain colour |
| Triangle.PositionsIgnoreColor | geometry/triangle.js:6-8 | the positions do not depend on the colour |
| Triangle.NewTriangle | geometry/triangle.js:1-11 | a triangle is a new geometry linked like any other whose buffer is the shaded template |
| Scenarios.ChildOfUnturnedRoot | geometry/geometry.js:102-110 | under an unturned root at the origin, a child's vertex is its offset scaled by the parent's scale plus the vertex scaled by the child's own scale |
| Scenarios.ChildOfQuarterTurnedRoot | geometry/geometry.js:103-108 | under a root turned 90 degrees about Y, the child's placement w ends at (w.z, w.y, -w.x) |
| Scenarios.TranslateThenScale | geometry/geometry.js:22-38 | a child translated by (1,0,0) and scaled by 2 puts its origin at (1,0,0) and local (1,0,0) at (3,0,0) |
| Scenarios.ChildOfTurnedParent | geometry/geometry.js:99-104 | rotating the parent after the child recomputes the child: its origin then lies at (0,0,-1) |
| Scenarios.ParentScaleMovesChild | geometry/geometry.js:102-106 | a parent scaled by 2 in X moves its child's origin to (2,0,0) without enlarging the child |
| Scenarios.TurnAboutPivot | geometry/geometry.js:107-109 | a vertex at the pivot stays put under any rotation |
| Scenarios.Place | asg2.js:125-127 | translate, scale, rotate: the object gets exactly that translation, scale and wrapped rotation, and its own matrix is current; the matrices of every object constructed before it are unchanged |
| Scenarios.AddPart | asg2.js:130-163 | one shape constructed under a parent and placed: it has the given translation, scale and wrapped rotation, the parent link, no children and a triangle's buffer or none; its matrix is current; it is appended to the parent's children and every earlier object is otherwise unchanged, matrices included |
| Scenarios.AddHead | asg2.js:124-127 | the head is the root, without children yet |
| Scenarios.AddEyes | asg2.js:136-145 | the two eyes become the head's second and third children |
| Scenarios.AddFace | asg2.js:130-145 | beak and eyes are the head's children 1, 2, 3 |
| Scenarios.AddWings | asg2.js:154-163 | the wings become the body's children 5, 6; the head and the body are otherwise unchanged, and so are the matrices of the five objects constructed before the wings |
| Scenarios.AddBody | asg2.js:148-163 | the body is the head's fourth child, placed at (0, -0.35, 0) with scale (0.28, 0.5, 0.28) and no rotation, and the wings are its children |
| Scenarios.BuildAnimal | asg2.js:124-163 | the application's scene has seven objects, head children [1, 2, 3, 4], and the body placed as above with children [5, 6] |

## Left out

- `render`: the WebGL calls are I/O. Only its draw count is modelled, as `Triangle.VertexCount`.
- `Matrix4` arithmetic: matrices are kept symbolically as the list of updates. The model has no 4×4 floats and no trigonometry. How a rotation moves a point is parameterised by a table of cosines and sines.
- Scalar arithmetic: the model uses exact reals, not 32-bit floats. There is no rounding, NaN or Infinity.
- Rotation angles are integers, in degrees. The wrap `((v % 360) + 360) % 360` is modelled with the truncating JavaScript remainder for divisor 360 only. Fractional angles are not modelled.
- The matrix the constructor leaves: for an object with a parent, the constructor calls `matrix.rotate(prx, pry, prz)` with a parent angle where `Matrix4` expects an axis, and then translates. The model has no `Matrix4` numerics, so this value is the opaque `Initial`. A root is given `Initial` too, although geometry/geometry.js:4 leaves it the identity `new Matrix4()`; that identity is the current matrix of a root with the default transform (`Hierarchy.DefaultRootIsIdentity`). `Geometry.MatricesCurrent` allows `Initial` until the first mutator call.
- `modelMatrix`: it is allocated but never used by the two core classes.
- Aliasing of the getters: `getTranslate` and friends return the live arrays. Here they return values.
- `instanceof` checks: a parent is either absent or an existing object's index.
- Re-parenting: the source has no operation for it.
- `cube.js` and the camera code of `asg2.js` are not part of this model. Cubes in `Scenarios` are plain geometries without a vertex buffer.
- `Geometry.Scene.GetTranslate`, `Geometry.Scene.GetScale`: plain field reads with no property beyond their value.
- `Triangle.VertexCount`: `|buf| / 6`, the draw count, with no contract of its own. `Triangle.VerticesAreShadedCorners` states that it is 3 for a triangle.
- `Scenarios.WorldOf` gives a point only for a computed matrix. It has none for the constructor's matrix, which is not the identity for a child.
