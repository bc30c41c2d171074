/** Rotation wrap-around as `geometry.rotate` does it: every axis is stored as
    `((v % 360) + 360) % 360`, where `%` is JavaScript's remainder. */
module Rotation {
  import opened Vectors

  /** JavaScript's `v % 360` on integers: the remainder of division truncated
      toward zero, so it takes the sign of the dividend. */
  function JsRem360(v: int): (r: int)
    ensures -360 < r < 360
    ensures v >= 0 ==> r >= 0
    ensures v <= 0 ==> r <= 0
    ensures (v - r) % 360 == 0
  {
    if v >= 0 then v % 360 else -((-v) % 360)
  }

  /** The three properties in `JsRem360`'s contract determine the remainder. */
  lemma JsRem360Unique(v: int, r: int)
    requires -360 < r < 360
    requires v > 0 ==> r >= 0
    requires v < 0 ==> r <= 0
    requires (v - r) % 360 == 0
    ensures r == JsRem360(v)
  {
    var q := JsRem360(v);
    assert v - r == 360 * ((v - r) / 360);
    assert v - q == 360 * ((v - q) / 360);
    assert -720 < q - r < 720;
  }

  /** The stored value of one rotation axis. */
  function Normalize(v: int): (r: int)
    ensures 0 <= r < 360
    ensures (r - v) % 360 == 0
  {
    var t := JsRem360(v) + 360;
    assert 0 < t < 720 && (t - v) % 360 == 0;
    JsRem360(t)
  }

  /** The JavaScript expression agrees with Dafny's Euclidean remainder. */
  lemma NormalizeIsEuclidean(v: int)
    ensures Normalize(v) == v % 360
  {
    var r := Normalize(v);
    assert r - v == 360 * ((r - v) / 360);
    assert v == 360 * (v / 360) + v % 360;
  }

  /** Wrapping an already wrapped angle changes nothing. */
  lemma NormalizeIdempotent(v: int)
    ensures Normalize(Normalize(v)) == Normalize(v)
  {
    NormalizeFixesRange(Normalize(v));
  }

  /** Angles already in [0, 360) are stored unchanged. */
  lemma NormalizeFixesRange(v: int)
    requires 0 <= v < 360
    ensures Normalize(v) == v
  {
    NormalizeIsEuclidean(v);
  }

  predicate InRange(a: Angles) {
    0 <= a.x < 360 && 0 <= a.y < 360 && 0 <= a.z < 360
  }

  /** The rotation `rotate(x, y, z)` stores. */
  function NormalizeAngles(a: Angles): (r: Angles)
    ensures InRange(r)
    ensures (r.x - a.x) % 360 == 0 && (r.y - a.y) % 360 == 0 && (r.z - a.z) % 360 == 0
  {
    Angles(Normalize(a.x), Normalize(a.y), Normalize(a.z))
  }

  /** Calling `rotate` with the stored rotation leaves it as it was. */
  lemma NormalizeAnglesFixesStored(a: Angles)
    requires InRange(a)
    ensures NormalizeAngles(a) == a
  {
    NormalizeFixesRange(a.x);
    NormalizeFixesRange(a.y);
    NormalizeFixesRange(a.z);
  }
}
