/** The parameter record shared by the Perlin and Worley generators
    (`Perlin.Parameters`, `Worley.Parameters`) and the way both pack it into
    the compute shader's `write_types` and `region` inputs. */
module NoiseParameters {
  import opened Wrappers
  import opened Vectors
  import opened ChannelSettings

  datatype Parameters = Parameters(
    cellCount: Vec3i,
    octaves: int,
    lacunarity: real,
    persistence: real,
    region: Bounds,
    channels: Channels,
    invert: bool)

  /** `new Bounds(new Vector3(0.5f, 0.5f, 0.5f), Vector3.one)`, the default region. */
  const UnitRegion: Bounds := Bounds(Vec3(0.5, 0.5, 0.5), Vec3(1.0, 1.0, 1.0))

  /** The default region is the unit cube. */
  lemma UnitRegionIsUnitCube()
    ensures UnitRegion.Min() == Vec3(0.0, 0.0, 0.0)
    ensures UnitRegion.Max() == Vec3(1.0, 1.0, 1.0)
  {
  }

  /** The `write_types` integers: the ordinals of red, green, blue and alpha, in that order. */
  function WriteTypes(c: Channels): (w: seq<int>)
    ensures |w| == 4
    ensures forall i :: 0 <= i < 4 ==> 0 <= w[i] <= 4
    ensures DecodeWriteTypes(w) == Some(c)
  {
    OrdinalRoundTrip(c.red.writeType);
    OrdinalRoundTrip(c.green.writeType);
    OrdinalRoundTrip(c.blue.writeType);
    OrdinalRoundTrip(c.alpha.writeType);
    [Ordinal(c.red.writeType), Ordinal(c.green.writeType),
     Ordinal(c.blue.writeType), Ordinal(c.alpha.writeType)]
  }

  /** How a reader of `write_types` recovers the channels: slot 0 is red, 1 green,
      2 blue, 3 alpha; any slot outside the five ordinals is rejected. */
  function DecodeWriteTypes(w: seq<int>): Option<Channels> {
    if |w| != 4 then None
    else match (FromOrdinal(w[0]), FromOrdinal(w[1]), FromOrdinal(w[2]), FromOrdinal(w[3]))
      case (Some(r), Some(g), Some(b), Some(a)) =>
        Some(Channels(ChannelSettings(r), ChannelSettings(g), ChannelSettings(b), ChannelSettings(a)))
      case _ => None
  }

  /** The `region` matrix: column k holds (min_k, max_k, 0, 0) for the three axes
      and the fourth column is zero, so row 0 is the minimum corner and row 1 the
      maximum corner. */
  function RegionMatrix(b: Bounds): (m: Matrix4x4)
    ensures forall col :: 0 <= col < 3 ==>
      Entry(m, 0, col) == Axis(b.Min(), col) && Entry(m, 1, col) == Axis(b.Max(), col)
    ensures forall row, col :: 0 <= row < 4 && 0 <= col < 4 && (row >= 2 || col == 3) ==>
      Entry(m, row, col) == 0.0
  {
    var lo, hi := b.Min(), b.Max();
    Matrix4x4(Vec4(lo.x, hi.x, 0.0, 0.0), Vec4(lo.y, hi.y, 0.0, 0.0),
              Vec4(lo.z, hi.z, 0.0, 0.0), Vec4(0.0, 0.0, 0.0, 0.0))
  }

  /** The box corners a reader of `region` sees: row 0 and row 1. */
  function RegionCorners(m: Matrix4x4): (Vec3, Vec3) {
    (Vec3(Entry(m, 0, 0), Entry(m, 0, 1), Entry(m, 0, 2)),
     Vec3(Entry(m, 1, 0), Entry(m, 1, 1), Entry(m, 1, 2)))
  }

  /** Packing the region and reading it back gives the box's minimum and maximum. */
  lemma RegionRoundTrip(b: Bounds)
    ensures RegionCorners(RegionMatrix(b)) == (b.Min(), b.Max())
  {
    var m := RegionMatrix(b);
    assert Entry(m, 0, 0) == Axis(b.Min(), 0) && Entry(m, 0, 1) == Axis(b.Min(), 1) && Entry(m, 0, 2) == Axis(b.Min(), 2);
    assert Entry(m, 1, 0) == Axis(b.Max(), 0) && Entry(m, 1, 1) == Axis(b.Max(), 1) && Entry(m, 1, 2) == Axis(b.Max(), 2);
  }
}
