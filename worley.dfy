/** The CPU side of the cellular-noise generator (Runtime/Worley.cs): the
    point buffer's size, the seeded feature points and everything `Generate`
    binds to the compute shader before dispatching it. */
module Worley {
  import opened Wrappers
  import Int32
  import opened Vectors
  import opened UnityRandom
  import opened ChannelSettings
  import opened NoiseParameters
  import opened Dispatch
  import Perlin

  /** The field initialisers of `Worley.Parameters`. */
  const Defaults: Parameters :=
    Parameters(Vec3i(5, 5, 5), 3, 2.0, 0.25, UnitRegion, AllWrite, false)

  /** The defaults write every channel and place 125 feature points. */
  lemma DefaultsPacking()
    ensures WriteTypes(Defaults.channels) == [4, 4, 4, 4]
    ensures PointCount(Defaults.cellCount) == 125
  {
  }

  /** `cellCount`: x*y*z in wrapping 32-bit arithmetic, for 2D and 3D textures
      alike and for every cell count; equal to the exact product when that fits. */
  function PointCount(c: Vec3i): (n: int)
    ensures n == Int32.Wrap(c.x * c.y * c.z)
    ensures c.x >= 1 && c.y >= 1 && c.z >= 1 && Int32.InRange(c.x * c.y * c.z) ==>
              n == c.x * c.y * c.z
  {
    Perlin.CellPrefixesFit(c, 1);
    Int32.WrapFactor(c.x * c.y, c.z);
    Int32.Mul(Int32.Mul(c.x, c.y), c.z)
  }

  /** Worley's cell count goes through no drawer, so a negative count reaches
      the buffer: (-1, -1, 1) places one point and (65536, 65536, 1) none. */
  lemma PointCountOutsideDrawer()
    ensures PointCount(Vec3i(-1, -1, 1)) == 1
    ensures PointCount(Vec3i(65536, 65536, 1)) == 0
  {
    Int32.WrapUnique(65536 * 65536, 0);
  }

  /** The point count is the 2D gradient count: one entry per grid cell. */
  lemma PointCountIsCellCount(c: Vec3i)
    ensures PointCount(c) == Perlin.GradientCount(c, false)
  {
  }

  predicate InUnitCube(p: Vec3) {
    0.0 <= p.x <= 1.0 && 0.0 <= p.y <= 1.0 && 0.0 <= p.z <= 1.0
  }

  /** Point `i` of a field started at `s`: the unit values of draws 3i, 3i+1, 3i+2. */
  function PointAt(law: RandomLaw, s: RandomState, i: nat): Vec3 {
    Vec3(UnitAt(law, s, 3 * i), UnitAt(law, s, 3 * i + 1), UnitAt(law, s, 3 * i + 2))
  }

  /** The points generated from `seed`: `count` of them, each in the unit cube,
      determined by `seed` and `count` alone. */
  function Points(law: RandomLaw, seed: int, count: nat): (ps: seq<Vec3>)
    ensures |ps| == count
    ensures forall i :: 0 <= i < count ==> InUnitCube(ps[i])
  {
    seq(count, i requires 0 <= i => PointAt(law, law.init(seed), i))
  }

  /** `GeneratePoints(count, seed)`: re-seeds the generator, then fills an array
      with `count` points; a negative `count` makes the allocation throw. */
  method GeneratePoints(rnd: Random, count: int, seed: int) returns (points: Option<array<Vec3>>)
    modifies rnd
    ensures points.None? <==> count < 0
    ensures points.Some? ==> fresh(points.value) && points.value[..] == Points(rnd.law, seed, count)
    ensures rnd.state == if count < 0 then rnd.law.init(seed)
                         else StateAfter(rnd.law, rnd.law.init(seed), 3 * count)
  {
    rnd.InitState(seed);
    if count < 0 {
      return None;
    }
    var a := new Vec3[count];
    ghost var s0 := rnd.state;
    for i := 0 to count
      invariant rnd.state == StateAfter(rnd.law, s0, 3 * i)
      invariant forall j :: 0 <= j < i ==> a[j] == PointAt(rnd.law, s0, j)
    {
      StateAfterNext(rnd.law, s0, 3 * i);
      StateAfterNext(rnd.law, s0, 3 * i + 1);
      StateAfterNext(rnd.law, s0, 3 * i + 2);
      var x := rnd.Value();
      var y := rnd.Value();
      var z := rnd.Value();
      a[i] := Vec3(x, y, z);
    }
    points := Some(a);
  }

  /** Everything `Generate` sets on the shader: the kernel and its name suffix,
      the points, `cell_count`, the FBM parameters, `region`, `write_types`,
      `invert` and the dispatched work groups. */
  datatype Binding = Binding(
    kernel: KernelBinding,
    points: seq<Vec3>,
    cellCount: Vec3i,
    octaves: int,
    lacunarity: real,
    persistence: real,
    region: Matrix4x4,
    writeTypes: seq<int>,
    invert: bool,
    groups: Vec3i)

  /** The point buffer rejects a count that is not positive: it is created
      exactly when the wrapped product is positive, and always for positive
      components whose product fits. */
  predicate Allocates(p: Parameters): (ok: bool)
    ensures ok <==> Int32.Wrap(p.cellCount.x * p.cellCount.y * p.cellCount.z) > 0
    ensures p.cellCount.x >= 1 && p.cellCount.y >= 1 && p.cellCount.z >= 1 &&
            Int32.InRange(p.cellCount.x * p.cellCount.y * p.cellCount.z) ==>
              ok
  {
    Perlin.CellPositive(p.cellCount, 1);
    PointCount(p.cellCount) > 0
  }

  /** What `Generate(texture, parameters)` binds when `Random.state` is `s` on entry. */
  function BindingFor(p: Parameters, t: Texture, law: RandomLaw, s: RandomState): (b: Option<Binding>)
    ensures b.Some? <==> Allocates(p)
    ensures b.Some? ==>
      && b.value.kernel == Kernel(t)
      && |b.value.points| == PointCount(p.cellCount)
      && DecodeWriteTypes(b.value.writeTypes) == Some(p.channels)
      && RegionCorners(b.value.region) == (p.region.Min(), p.region.Max())
      && Covers(b.value.groups, t)
    ensures b.Some? ==>
      && b.value.cellCount == p.cellCount
      && b.value.octaves == p.octaves
      && b.value.lacunarity == p.lacunarity
      && b.value.persistence == p.persistence
      && b.value.invert == p.invert
  {
    var count := PointCount(p.cellCount);
    if count <= 0 then None
    else
      RegionRoundTrip(p.region);
      Some(Binding(Kernel(t), Points(law, SeedFrom(law, s), count), p.cellCount,
                   p.octaves, p.lacunarity, p.persistence,
                   RegionMatrix(p.region), WriteTypes(p.channels), p.invert, ThreadGroups(t)))
  }

  /** `Random.state` after a successful `Generate`: one seed draw, then the
      re-seeded generator advanced by three draws per point. */
  function StateAfterGenerate(p: Parameters, law: RandomLaw, s: RandomState): (r: RandomState)
    requires Allocates(p)
    ensures forall t :: r == StateAfter(law, law.init(SeedFrom(law, s)), 3 * |BindingFor(p, t, law, s).value.points|)
  {
    StateAfter(law, law.init(SeedFrom(law, s)), 3 * PointCount(p.cellCount))
  }

  /** The point set is the same for a 2D and a 3D texture; only the kernel, its
      names and the work groups differ. */
  lemma PointsIgnoreDimension(p: Parameters, t1: Texture, t2: Texture, law: RandomLaw, s: RandomState)
    requires Allocates(p)
    ensures BindingFor(p, t1, law, s).value.points == BindingFor(p, t2, law, s).value.points
  {
  }

  /** The points are a function of the drawn seed alone. */
  lemma BindingDependsOnlyOnSeed(p: Parameters, t: Texture, law: RandomLaw, s1: RandomState, s2: RandomState)
    requires SeedFrom(law, s1) == SeedFrom(law, s2)
    ensures BindingFor(p, t, law, s1) == BindingFor(p, t, law, s2)
    ensures Allocates(p) ==> StateAfterGenerate(p, law, s1) == StateAfterGenerate(p, law, s2)
  {
  }

  /** `Worley.Generate(texture, parameters)`, with the shader calls left out:
      returns what it binds, or `None` where the buffer allocation throws. */
  method Generate(rnd: Random, t: Texture, p: Parameters) returns (b: Option<Binding>)
    modifies rnd
    ensures b == BindingFor(p, t, rnd.law, old(rnd.state))
    ensures b.Some? ==> rnd.state == StateAfterGenerate(p, rnd.law, old(rnd.state))
    ensures b.None? ==> rnd.state == old(rnd.state)
  {
    var kernel := Kernel(t);
    var count := PointCount(p.cellCount);
    if count <= 0 {
      return None;
    }
    var seed := rnd.RangeInt32();
    var points := GeneratePoints(rnd, count, seed);
    var region := RegionMatrix(p.region);
    var writeTypes := WriteTypes(p.channels);
    var groups := ThreadGroups(t);
    b := Some(Binding(kernel, points.value[..], p.cellCount, p.octaves, p.lacunarity, p.persistence,
                      region, writeTypes, p.invert, groups));
  }
}
