/** The CPU side of the gradient-noise generator (Runtime/Perlin.cs): the
    gradient buffer's size, the seeded gradients and everything `Generate`
    binds to the compute shader before dispatching it. */
module Perlin {
  import opened Wrappers
  import Int32
  import opened Vectors
  import opened UnityRandom
  import opened ChannelSettings
  import opened NoiseParameters
  import opened Dispatch

  /** The field initialisers of `Perlin.Parameters`. */
  const Defaults: Parameters :=
    Parameters(Vec3i(5, 5, 1), 3, 2.0, 0.25, UnitRegion, AllWrite, false)

  /** The defaults write every channel and size the buffer for 25 gradients,
      for a 2D and a 3D texture alike since their depth is 1. */
  lemma DefaultsPacking()
    ensures WriteTypes(Defaults.channels) == [4, 4, 4, 4]
    ensures GradientCount(Defaults.cellCount, false) == 25
    ensures GradientCount(Defaults.cellCount, true) == 25
  {
  }

  /** A product of factors that are all at least 1 is at least each partial product. */
  lemma ProductGrows(a: int, b: int)
    requires a >= 1 && b >= 1
    ensures a <= a * b
  {
    assert a * b == a * (b - 1) + a;
    assert a * (b - 1) >= 0;
  }

  /** When the full product of positive factors fits in an `int`, so do its prefixes. */
  lemma PrefixesFit(x: int, y: int, z: int, w: int)
    requires x >= 1 && y >= 1 && z >= 1 && w >= 1
    requires Int32.InRange(x * y * z * w)
    ensures Int32.InRange(x * y) && Int32.InRange(x * y * z)
  {
    ProductGrows(x, y);
    ProductGrows(x * y, z);
    ProductGrows(x * y * z, w);
  }

  lemma CellPrefixesFit(c: Vec3i, w: int)
    ensures c.x >= 1 && c.y >= 1 && c.z >= 1 && w >= 1 && Int32.InRange(c.x * c.y * c.z * w) ==>
      Int32.InRange(c.x * c.y) && Int32.InRange(c.x * c.y * c.z)
  {
    if c.x >= 1 && c.y >= 1 && c.z >= 1 && w >= 1 && Int32.InRange(c.x * c.y * c.z * w) {
      PrefixesFit(c.x, c.y, c.z, w);
    }
  }

  /** The multiplier the source applies on top of x*y*z: z again for a 3D texture. */
  function DepthFactor(c: Vec3i, is3D: bool): int {
    if is3D then c.z else 1
  }

  /** `gradientCount`: x*y*z, multiplied by z once more for a 3D texture, in
      wrapping 32-bit arithmetic, for every cell count; equal to the exact
      product when that fits. */
  function GradientCount(c: Vec3i, is3D: bool): (n: int)
    ensures n == Int32.Wrap(c.x * c.y * c.z * DepthFactor(c, is3D))
    ensures c.x >= 1 && c.y >= 1 && c.z >= 1 &&
            Int32.InRange(c.x * c.y * c.z * DepthFactor(c, is3D)) ==>
              n == c.x * c.y * c.z * DepthFactor(c, is3D)
  {
    CellPrefixesFit(c, DepthFactor(c, is3D));
    Int32.WrapFactor(c.x * c.y, c.z);
    Int32.WrapFactor(c.x * c.y * c.z, c.z);
    var cells := Int32.Mul(Int32.Mul(c.x, c.y), c.z);
    if is3D then Int32.Mul(cells, c.z) else cells
  }

  /** Cell counts outside the drawer's reach: a product of 2^32 wraps to an
      empty buffer, and one just above it to a small positive count. */
  lemma GradientCountWraps()
    ensures GradientCount(Vec3i(65536, 65536, 1), false) == 0
    ensures GradientCount(Vec3i(65537, 65537, 1), false) == 131073
    ensures GradientCount(Vec3i(-1, -1, 1), false) == 1
  {
    Int32.WrapUnique(65536 * 65536, 0);
    Int32.WrapUnique(65537 * 65537, 131073);
  }

  /** For a 3D texture the buffer holds z times as many gradients as there are
      grid cells, so it exceeds the cell count whenever z > 1. */
  lemma GradientCount3D(c: Vec3i)
    requires c.x >= 1 && c.y >= 1 && c.z >= 1
    requires Int32.InRange(c.x * c.y * c.z * c.z)
    ensures GradientCount(c, true) == c.z * GradientCount(c, false)
    ensures GradientCount(c, true) == GradientCount(c, false) <==> c.z == 1
  {
    var cells := c.x * c.y * c.z;
    PrefixesFit(c.x, c.y, c.z, c.z);
    ProductGrows(c.x, c.y);
    ProductGrows(c.x * c.y, c.z);
    assert cells * 1 == cells;
    assert GradientCount(c, false) == cells;
    assert GradientCount(c, true) == cells * c.z;
    assert c.z * cells == cells * c.z;
    if c.z > 1 {
      StrictGrowth(cells, c.z);
    }
  }

  lemma StrictGrowth(a: int, b: int)
    requires a >= 1 && b >= 2
    ensures a * b > a
  {
    assert a * b == a * (b - 1) + a;
    ProductGrows(a, b - 1);
  }

  predicate InSquare(g: Vec2) {
    -1.0 <= g.x <= 1.0 && -1.0 <= g.y <= 1.0
  }

  predicate InCube(g: Vec3) {
    -1.0 <= g.x <= 1.0 && -1.0 <= g.y <= 1.0 && -1.0 <= g.z <= 1.0
  }

  /** Gradient `i` of a 2D field started at `s`: draws 2i and 2i+1, each in [-1, 1]. */
  function Gradient2DAt(law: RandomLaw, s: RandomState, i: nat): Vec2 {
    Vec2(RangeOf(-1.0, 1.0, UnitAt(law, s, 2 * i)), RangeOf(-1.0, 1.0, UnitAt(law, s, 2 * i + 1)))
  }

  /** Gradient `i` of a 3D field started at `s`: draws 3i, 3i+1 and 3i+2. */
  function Gradient3DAt(law: RandomLaw, s: RandomState, i: nat): Vec3 {
    Vec3(RangeOf(-1.0, 1.0, UnitAt(law, s, 3 * i)), RangeOf(-1.0, 1.0, UnitAt(law, s, 3 * i + 1)),
         RangeOf(-1.0, 1.0, UnitAt(law, s, 3 * i + 2)))
  }

  /** The 2D gradients generated from `seed` (before normalisation): `count` of
      them, each in the square [-1, 1]^2, determined by `seed` and `count` alone. */
  function Gradients2D(law: RandomLaw, seed: int, count: nat): (gs: seq<Vec2>)
    ensures |gs| == count
    ensures forall i :: 0 <= i < count ==> InSquare(gs[i])
  {
    seq(count, i requires 0 <= i => Gradient2DAt(law, law.init(seed), i))
  }

  /** The 3D gradients generated from `seed` (before normalisation). */
  function Gradients3D(law: RandomLaw, seed: int, count: nat): (gs: seq<Vec3>)
    ensures |gs| == count
    ensures forall i :: 0 <= i < count ==> InCube(gs[i])
  {
    seq(count, i requires 0 <= i => Gradient3DAt(law, law.init(seed), i))
  }

  /** More gradients from the same seed extend the shorter field without changing it. */
  lemma GradientsPrefix(law: RandomLaw, seed: int, n: nat, m: nat)
    requires n <= m
    ensures Gradients2D(law, seed, m)[..n] == Gradients2D(law, seed, n)
    ensures Gradients3D(law, seed, m)[..n] == Gradients3D(law, seed, n)
  {
  }

  /** `GenerateGradients2D(count, seed)`: re-seeds the generator, then fills an
      array with `count` gradients; a negative `count` makes the allocation throw. */
  method GenerateGradients2D(rnd: Random, count: int, seed: int) returns (gradients: Option<array<Vec2>>)
    modifies rnd
    ensures gradients.None? <==> count < 0
    ensures gradients.Some? ==> fresh(gradients.value) && gradients.value[..] == Gradients2D(rnd.law, seed, count)
    ensures rnd.state == if count < 0 then rnd.law.init(seed)
                         else StateAfter(rnd.law, rnd.law.init(seed), 2 * count)
  {
    rnd.InitState(seed);
    if count < 0 {
      return None;
    }
    var a := new Vec2[count];
    ghost var s0 := rnd.state;
    for i := 0 to count
      invariant rnd.state == StateAfter(rnd.law, s0, 2 * i)
      invariant forall j :: 0 <= j < i ==> a[j] == Gradient2DAt(rnd.law, s0, j)
    {
      StateAfterNext(rnd.law, s0, 2 * i);
      StateAfterNext(rnd.law, s0, 2 * i + 1);
      var x := rnd.Range(-1.0, 1.0);
      var y := rnd.Range(-1.0, 1.0);
      a[i] := Vec2(x, y);
    }
    gradients := Some(a);
  }

  /** `GenerateGradients3D(count, seed)`: as the 2D case, three draws per gradient. */
  method GenerateGradients3D(rnd: Random, count: int, seed: int) returns (gradients: Option<array<Vec3>>)
    modifies rnd
    ensures gradients.None? <==> count < 0
    ensures gradients.Some? ==> fresh(gradients.value) && gradients.value[..] == Gradients3D(rnd.law, seed, count)
    ensures rnd.state == if count < 0 then rnd.law.init(seed)
                         else StateAfter(rnd.law, rnd.law.init(seed), 3 * count)
  {
    rnd.InitState(seed);
    if count < 0 {
      return None;
    }
    var a := new Vec3[count];
    ghost var s0 := rnd.state;
    for i := 0 to count
      invariant rnd.state == StateAfter(rnd.law, s0, 3 * i)
      invariant forall j :: 0 <= j < i ==> a[j] == Gradient3DAt(rnd.law, s0, j)
    {
      StateAfterNext(rnd.law, s0, 3 * i);
      StateAfterNext(rnd.law, s0, 3 * i + 1);
      StateAfterNext(rnd.law, s0, 3 * i + 2);
      var x := rnd.Range(-1.0, 1.0);
      var y := rnd.Range(-1.0, 1.0);
      var z := rnd.Range(-1.0, 1.0);
      a[i] := Vec3(x, y, z);
    }
    gradients := Some(a);
  }

  datatype GradientField = Field2D(g2: seq<Vec2>) | Field3D(g3: seq<Vec3>) {
    function Size(): nat {
      match this
      case Field2D(g) => |g|
      case Field3D(g) => |g|
    }
  }

  /** Everything `Generate` sets on the shader: the kernel and its name suffix,
      the FBM parameters, the gradients, `cell_count`, `region`, `write_types`,
      `invert` and the dispatched work groups. */
  datatype Binding = Binding(
    kernel: KernelBinding,
    octaves: int,
    lacunarity: real,
    persistence: real,
    gradients: GradientField,
    cellCount: Vec3i,
    region: Matrix4x4,
    writeTypes: seq<int>,
    invert: bool,
    groups: Vec3i)

  /** The gradient buffer rejects a count that is not positive: it is created
      exactly when the wrapped product is positive, and always for positive
      components whose product fits. */
  predicate Allocates(p: Parameters, t: Texture): (ok: bool)
    ensures ok <==> Int32.Wrap(p.cellCount.x * p.cellCount.y * p.cellCount.z * DepthFactor(p.cellCount, t.dimension == Tex3D)) > 0
    ensures p.cellCount.x >= 1 && p.cellCount.y >= 1 && p.cellCount.z >= 1 &&
            Int32.InRange(p.cellCount.x * p.cellCount.y * p.cellCount.z * DepthFactor(p.cellCount, t.dimension == Tex3D)) ==>
              ok
  {
    CellPositive(p.cellCount, DepthFactor(p.cellCount, t.dimension == Tex3D));
    GradientCount(p.cellCount, t.dimension == Tex3D) > 0
  }

  lemma CellPositive(c: Vec3i, w: int)
    ensures c.x >= 1 && c.y >= 1 && c.z >= 1 && w >= 1 ==> c.x * c.y * c.z * w >= 1
  {
    if c.x >= 1 && c.y >= 1 && c.z >= 1 && w >= 1 {
      ProductGrows(c.x, c.y);
      ProductGrows(c.x * c.y, c.z);
      ProductGrows(c.x * c.y * c.z, w);
    }
  }

  /** What `Generate(texture, parameters)` binds when `Random.state` is `s` on entry. */
  function BindingFor(p: Parameters, t: Texture, law: RandomLaw, s: RandomState): (b: Option<Binding>)
    ensures b.Some? <==> Allocates(p, t)
    ensures b.Some? ==>
      && b.value.kernel == Kernel(t)
      && (b.value.gradients.Field3D? <==> b.value.kernel.index == 1)
      && b.value.gradients.Size() == GradientCount(p.cellCount, t.dimension == Tex3D)
      && DecodeWriteTypes(b.value.writeTypes) == Some(p.channels)
      && RegionCorners(b.value.region) == (p.region.Min(), p.region.Max())
      && Covers(b.value.groups, t)
    ensures b.Some? ==>
      && b.value.octaves == p.octaves
      && b.value.lacunarity == p.lacunarity
      && b.value.persistence == p.persistence
      && b.value.cellCount == p.cellCount
      && b.value.invert == p.invert
  {
    var is3D := t.dimension == Tex3D;
    var count := GradientCount(p.cellCount, is3D);
    if count <= 0 then None
    else
      var seed := SeedFrom(law, s);
      var field := if is3D then Field3D(Gradients3D(law, seed, count)) else Field2D(Gradients2D(law, seed, count));
      RegionRoundTrip(p.region);
      Some(Binding(Kernel(t), p.octaves, p.lacunarity, p.persistence, field, p.cellCount,
                   RegionMatrix(p.region), WriteTypes(p.channels), p.invert, ThreadGroups(t)))
  }

  /** `Random.state` after a successful `Generate`: one seed draw, then the
      re-seeded generator advanced by two or three draws per gradient. */
  function StateAfterGenerate(p: Parameters, t: Texture, law: RandomLaw, s: RandomState): (r: RandomState)
    requires Allocates(p, t)
    ensures r == StateAfter(law, law.init(SeedFrom(law, s)),
                            (if t.dimension == Tex3D then 3 else 2) * BindingFor(p, t, law, s).value.gradients.Size())
  {
    var is3D := t.dimension == Tex3D;
    var count := GradientCount(p.cellCount, is3D);
    StateAfter(law, law.init(SeedFrom(law, s)), (if is3D then 3 else 2) * count)
  }

  /** The gradients are a function of the drawn seed alone, not of how the
      generator reached the state it drew the seed from. */
  lemma BindingDependsOnlyOnSeed(p: Parameters, t: Texture, law: RandomLaw, s1: RandomState, s2: RandomState)
    requires SeedFrom(law, s1) == SeedFrom(law, s2)
    ensures BindingFor(p, t, law, s1) == BindingFor(p, t, law, s2)
    ensures Allocates(p, t) ==> StateAfterGenerate(p, t, law, s1) == StateAfterGenerate(p, t, law, s2)
  {
  }

  /** `Perlin.Generate(texture, parameters)`, with the shader calls left out:
      returns what it binds, or `None` where the buffer allocation throws. */
  method Generate(rnd: Random, t: Texture, p: Parameters) returns (b: Option<Binding>)
    modifies rnd
    ensures b == BindingFor(p, t, rnd.law, old(rnd.state))
    ensures b.Some? ==> rnd.state == StateAfterGenerate(p, t, rnd.law, old(rnd.state))
    ensures b.None? ==> rnd.state == old(rnd.state)
  {
    var is3D := t.dimension == Tex3D;
    var kernel := Kernel(t);
    var count := GradientCount(p.cellCount, is3D);
    if count <= 0 {
      return None;
    }
    var seed := rnd.RangeInt32();
    var field;
    if is3D {
      var g := GenerateGradients3D(rnd, count, seed);
      field := Field3D(g.value[..]);
    } else {
      var g := GenerateGradients2D(rnd, count, seed);
      field := Field2D(g.value[..]);
    }
    var region := RegionMatrix(p.region);
    var writeTypes := WriteTypes(p.channels);
    var groups := ThreadGroups(t);
    b := Some(Binding(kernel, p.octaves, p.lacunarity, p.persistence, field, p.cellCount,
                      region, writeTypes, p.invert, groups));
  }
}
