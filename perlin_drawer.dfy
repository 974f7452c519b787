/** The inspector drawer for Perlin parameters (Editor/PerlinDrawer.cs): the
    clamps it applies to the fields it edits, as one sanitising function. The
    slider widgets are modelled as clamping the stored value into their range. */
module PerlinDrawer {
  import Int32
  import opened Vectors
  import opened NoiseParameters
  import Perlin
  import Worley

  function MaxReal(a: real, b: real): real {
    if a >= b then a else b
  }

  /** `EditorGUILayout.IntSlider(label, value, lo, hi)`. */
  function IntSlider(value: int, lo: int, hi: int): int
    requires lo <= hi
  {
    if value < lo then lo else if value > hi then hi else value
  }

  /** `EditorGUILayout.Slider(label, value, lo, hi)`. */
  function Slider(value: real, lo: real, hi: real): real
    requires lo <= hi
  {
    if value < lo then lo else if value > hi then hi else value
  }

  /** `Vector3Int.Max(cellCount, Vector3Int.one)`: each component raised to at least 1. */
  function ClampCellCount(c: Vec3i): (r: Vec3i)
    ensures r.x >= 1 && r.y >= 1 && r.z >= 1
    ensures c.x >= 1 ==> r.x == c.x
    ensures c.y >= 1 ==> r.y == c.y
    ensures c.z >= 1 ==> r.z == c.z
    ensures c.x < 1 ==> r.x == 1
    ensures c.y < 1 ==> r.y == 1
    ensures c.z < 1 ==> r.z == 1
  {
    Vec3i(Int32.Max(c.x, 1), Int32.Max(c.y, 1), Int32.Max(c.z, 1))
  }

  /** The fields after `OnGUI` has assigned each of them its clamped value:
      cellCount, octaves, lacunarity and persistence in that order; region,
      channel settings and invert are only displayed. */
  function Sanitize(p: Parameters): (q: Parameters)
    ensures q.cellCount == ClampCellCount(p.cellCount)
    ensures 1 <= q.octaves <= 10
    ensures 1 <= p.octaves <= 10 ==> q.octaves == p.octaves
    ensures q.lacunarity >= 0.0
    ensures p.lacunarity >= 0.0 ==> q.lacunarity == p.lacunarity
    ensures p.lacunarity < 0.0 ==> q.lacunarity == 0.0
    ensures 0.0 <= q.persistence <= 1.0
    ensures 0.0 <= p.persistence <= 1.0 ==> q.persistence == p.persistence
    ensures q.region == p.region && q.channels == p.channels && q.invert == p.invert
  {
    p.(cellCount := ClampCellCount(p.cellCount),
       octaves := Int32.Max(1, IntSlider(p.octaves, 1, 10)),
       lacunarity := MaxReal(0.0, p.lacunarity),
       persistence := Slider(p.persistence, 0.0, 1.0))
  }

  /** Parameters within every bound the drawer enforces. */
  predicate Sanitized(p: Parameters) {
    && p.cellCount.x >= 1 && p.cellCount.y >= 1 && p.cellCount.z >= 1
    && 1 <= p.octaves <= 10
    && p.lacunarity >= 0.0
    && 0.0 <= p.persistence <= 1.0
  }

  /** Sanitising yields sanitised parameters, and changes nothing exactly when
      they already are. */
  lemma SanitizeFixedPoints(p: Parameters)
    ensures Sanitized(Sanitize(p))
    ensures Sanitize(p) == p <==> Sanitized(p)
  {
  }

  /** Applying the clamps a second time changes nothing. */
  lemma SanitizeIdempotent(p: Parameters)
    ensures Sanitize(Sanitize(p)) == Sanitize(p)
  {
    SanitizeFixedPoints(p);
    SanitizeFixedPoints(Sanitize(p));
  }

  /** The default parameter sets already meet the drawer's bounds. */
  lemma DefaultsSanitized()
    ensures Sanitize(Perlin.Defaults) == Perlin.Defaults
    ensures Sanitized(Worley.Defaults)
  {
  }
}
