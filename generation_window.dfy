/** The editor window's own logic (Editor/GenerationWindow.cs): flattening a
    stack of depth slices into a 3D texture's voxel array, the channel list of
    the overwrite warning, the view-mask update, the automatic file name, and
    `RegenerateTexture`'s resolution fallback, generator selection and
    preserve/advance handling of the random state. */
module GenerationWindow {
  import opened Wrappers
  import Int32
  import opened Text
  import opened Vectors
  import opened UnityRandom
  import opened ChannelSettings
  import opened NoiseParameters
  import opened Dispatch
  import opened ViewChannels
  import Perlin
  import Worley

  // ---------------------------------------------------------------------------
  // Voxel layout of a 3D texture

  /** The product bound behind the voxel layout: `a + m*q` with `a < m` and `q < n` stays below `m*n`. */
  lemma MixedRadixBound(a: int, q: int, m: int, n: int)
    requires 0 <= a < m && 0 <= q < n
    ensures 0 <= a + m * q < m * n
  {
    assert m * q <= m * (n - 1) by {
      assert m * (n - 1) - m * q == m * (n - 1 - q);
      assert m * (n - 1 - q) >= 0;
    }
    assert m * (n - 1) == m * n - m;
    assert m * q >= 0;
  }

  /** A mixed-radix digit pair is unique: `a + m*q` determines `a` and `q`. */
  lemma MixedRadixUnique(a: int, q: int, b: int, r: int, m: int)
    requires 0 <= a < m && 0 <= b < m && q >= 0 && r >= 0
    requires a + m * q == b + m * r
    ensures q == r && a == b
  {
    if q < r {
      assert m * r - m * q == m * (r - q);
      AtLeastOnce(m, r - q);
    } else if r < q {
      assert m * q - m * r == m * (q - r);
      AtLeastOnce(m, q - r);
    }
  }

  lemma AtLeastOnce(m: int, k: int)
    requires m >= 0 && k >= 1
    ensures m * k >= m
  {
    assert m * k == m * (k - 1) + m;
    assert m * (k - 1) >= 0;
  }

  /** The index `ToTexture3D` writes voxel (x, y, z) of a w x h x d volume to:
      `x + w*y + w*h*z`, always a slot of the w*h*d voxel array. */
  function VoxelIndex(w: nat, h: nat, d: nat, x: int, y: int, z: int): (i: nat)
    requires 0 <= x < w && 0 <= y < h && 0 <= z < d
    ensures i < w * h * d
  {
    MixedRadixBound(x, y, w, h);
    MixedRadixBound(x + w * y, z, w * h, d);
    assert w * h * z == (w * h) * z;
    x + w * y + w * h * z
  }

  /** Distinct voxels land in distinct slots. */
  lemma VoxelIndexInjective(w: nat, h: nat, d: nat, x1: int, y1: int, z1: int, x2: int, y2: int, z2: int)
    requires 0 <= x1 < w && 0 <= y1 < h && 0 <= z1 < d
    requires 0 <= x2 < w && 0 <= y2 < h && 0 <= z2 < d
    requires VoxelIndex(w, h, d, x1, y1, z1) == VoxelIndex(w, h, d, x2, y2, z2)
    ensures x1 == x2 && y1 == y2 && z1 == z2
  {
    MixedRadixBound(x1, y1, w, h);
    MixedRadixBound(x2, y2, w, h);
    assert w * h * z1 == (w * h) * z1 && w * h * z2 == (w * h) * z2;
    MixedRadixUnique(x1 + w * y1, z1, x2 + w * y2, z2, w * h);
    MixedRadixUnique(x1, y1, x2, y2, w);
  }

  /** Every slot of the voxel array is the index of some voxel. */
  lemma VoxelIndexOnto(w: nat, h: nat, d: nat, i: int)
    requires 0 <= i < w * h * d
    ensures w > 0 && h > 0
    ensures var z, r := i / (w * h), i % (w * h);
      0 <= r % w < w && 0 <= r / w < h && 0 <= z < d &&
      VoxelIndex(w, h, d, r % w, r / w, z) == i
  {
    var m := w * h;
    var z, r := i / m, i % m;
    assert i == m * z + r;
    var x, y := r % w, r / w;
    assert r == w * y + x;
    assert w * h * z == m * z;
  }

  /** One RGBA float texel. */
  datatype Color = Color(r: real, g: real, b: real, a: real)

  /** A depth slice as `GetPixel(x, y)` reads it: column x, row y. */
  type Slice = seq<seq<Color>>

  predicate IsSlice(s: Slice, w: nat, h: nat) {
    |s| == w && forall x :: 0 <= x < w ==> |s[x]| == h
  }

  /** Every slice of the stack is w x h. */
  predicate IsStack(slices: seq<Slice>, w: nat, h: nat) {
    forall z :: 0 <= z < |slices| ==> |slices[z]| == w && forall x :: 0 <= x < w ==> |slices[z][x]| == h
  }

  /** `ToTexture3D`'s pixel loops: for z, then y, then x, voxel (x, y, z) receives
      pixel (x, y) of slice z, at index `x + w*y + w*h*z`. The slices stand for
      the `CopySlice` copies of the render texture's depth layers. */
  method ToTexture3D(w: nat, h: nat, slices: seq<Slice>) returns (pixels: array<Color>)
    requires IsStack(slices, w, h)
    ensures pixels.Length == w * h * |slices|
    ensures forall x, y, z :: 0 <= x < w && 0 <= y < h && 0 <= z < |slices| ==>
      pixels[VoxelIndex(w, h, |slices|, x, y, z)] == slices[z][x][y]
  {
    var d := |slices|;
    pixels := new Color[w * h * d];
    for z := 0 to d
      invariant forall x', y', z' :: 0 <= x' < w && 0 <= y' < h && 0 <= z' < z ==>
        pixels[VoxelIndex(w, h, d, x', y', z')] == slices[z'][x'][y']
    {
      FillLayer(pixels, w, h, slices, z);
    }
  }

  /** The y and x loops for one depth layer `z`. */
  method FillLayer(pixels: array<Color>, w: nat, h: nat, slices: seq<Slice>, z: nat)
    requires IsStack(slices, w, h) && z < |slices| && pixels.Length == w * h * |slices|
    modifies pixels
    ensures forall x', y' :: 0 <= x' < w && 0 <= y' < h ==>
      pixels[VoxelIndex(w, h, |slices|, x', y', z)] == slices[z][x'][y']
    ensures forall x', y', z' :: 0 <= x' < w && 0 <= y' < h && 0 <= z' < |slices| && z' != z ==>
      pixels[VoxelIndex(w, h, |slices|, x', y', z')] == old(pixels[VoxelIndex(w, h, |slices|, x', y', z')])
  {
    var d := |slices|;
    for y := 0 to h
      invariant forall x', y' :: 0 <= x' < w && 0 <= y' < y ==>
        pixels[VoxelIndex(w, h, d, x', y', z)] == slices[z][x'][y']
      invariant forall x', y', z' :: 0 <= x' < w && 0 <= y' < h && 0 <= z' < d && z' != z ==>
        pixels[VoxelIndex(w, h, d, x', y', z')] == old(pixels[VoxelIndex(w, h, d, x', y', z')])
    {
      FillRow(pixels, w, h, slices, y, z);
    }
  }

  /** The x loop for row `y` of depth layer `z`. */
  method FillRow(pixels: array<Color>, w: nat, h: nat, slices: seq<Slice>, y: nat, z: nat)
    requires IsStack(slices, w, h) && y < h && z < |slices| && pixels.Length == w * h * |slices|
    modifies pixels
    ensures forall x' :: 0 <= x' < w ==>
      pixels[VoxelIndex(w, h, |slices|, x', y, z)] == slices[z][x'][y]
    ensures forall x', y', z' :: 0 <= x' < w && 0 <= y' < h && 0 <= z' < |slices| && (y', z') != (y, z) ==>
      pixels[VoxelIndex(w, h, |slices|, x', y', z')] == old(pixels[VoxelIndex(w, h, |slices|, x', y', z')])
  {
    var d := |slices|;
    for x := 0 to w
      invariant forall x' :: 0 <= x' < x ==>
        pixels[VoxelIndex(w, h, d, x', y, z)] == slices[z][x'][y]
      invariant forall x', y', z' :: 0 <= x' < w && 0 <= y' < h && 0 <= z' < d && (y', z') != (y, z) ==>
        pixels[VoxelIndex(w, h, d, x', y', z')] == old(pixels[VoxelIndex(w, h, d, x', y', z')])
    {
      var index := VoxelIndex(w, h, d, x, y, z);
      forall x', y', z' | 0 <= x' < w && 0 <= y' < h && 0 <= z' < d && (x', y', z') != (x, y, z)
        ensures VoxelIndex(w, h, d, x', y', z') != index
      {
        if VoxelIndex(w, h, d, x', y', z') == index {
          VoxelIndexInjective(w, h, d, x', y', z', x, y, z);
        }
      }
      pixels[index] := slices[z][x][y];
    }
  }

  /** Depth layer `z` of a voxel array, read back as a slice. */
  function Layer(v: seq<Color>, w: nat, h: nat, d: nat, z: nat): (s: Slice)
    requires |v| == w * h * d && z < d
    ensures IsSlice(s, w, h)
  {
    seq(w, x requires 0 <= x < w => seq(h, y requires 0 <= y < h => v[VoxelIndex(w, h, d, x, y, z)]))
  }

  /** The voxel array of `ToTexture3D` holds each slice as its layer, and it is the
      only array of that size that does: every slot is written. */
  lemma LayersRoundTrip(v: seq<Color>, u: seq<Color>, w: nat, h: nat, slices: seq<Slice>)
    requires IsStack(slices, w, h)
    requires |v| == |u| == w * h * |slices|
    requires forall x, y, z :: 0 <= x < w && 0 <= y < h && 0 <= z < |slices| ==>
      v[VoxelIndex(w, h, |slices|, x, y, z)] == slices[z][x][y]
    requires forall x, y, z :: 0 <= x < w && 0 <= y < h && 0 <= z < |slices| ==>
      u[VoxelIndex(w, h, |slices|, x, y, z)] == slices[z][x][y]
    ensures forall z :: 0 <= z < |slices| ==> Layer(v, w, h, |slices|, z) == slices[z]
    ensures v == u
  {
    var d := |slices|;
    forall z | 0 <= z < d
      ensures Layer(v, w, h, d, z) == slices[z]
    {
      var s := Layer(v, w, h, d, z);
      forall x | 0 <= x < w
        ensures s[x] == slices[z][x]
      {
      }
    }
    forall i | 0 <= i < |v|
      ensures v[i] == u[i]
    {
      VoxelIndexOnto(w, h, d, i);
    }
  }

  // ---------------------------------------------------------------------------
  // Overwrite warning

  /** The letters of the channels that a generation writes, red to alpha. */
  function WrittenNames(c: Channels): seq<string> {
    (if c.red.writeType != Keep then ["R"] else []) +
    (if c.green.writeType != Keep then ["G"] else []) +
    (if c.blue.writeType != Keep then ["B"] else []) +
    (if c.alpha.writeType != Keep then ["A"] else [])
  }

  /** The channel list of the overwrite warning. */
  function ChannelList(c: Channels): string {
    Join(WrittenNames(c), ", ")
  }

  /** One `channelString` step: a written channel appends its letter, with
      ", " before it unless the string is still empty. */
  function AppendStep(s: string, written: bool, letter: string): string {
    if !written then s else s + (if s == "" then letter else ", " + letter)
  }

  /** `channelString`: built by appending each written channel's letter, with
      ", " before every letter but the first. */
  method ChannelString(c: Channels) returns (s: string)
    ensures s == ChannelList(c)
  {
    s := "";
    if c.red.writeType != Keep {
      s := s + "R";
    }
    assert s == AppendStep("", c.red.writeType != Keep, "R");
    ghost var s1 := s;
    if c.green.writeType != Keep {
      s := s + (if s == "" then "G" else ", G");
    }
    assert s == AppendStep(s1, c.green.writeType != Keep, "G");
    ghost var s2 := s;
    if c.blue.writeType != Keep {
      s := s + (if s == "" then "B" else ", B");
    }
    assert s == AppendStep(s2, c.blue.writeType != Keep, "B");
    ghost var s3 := s;
    if c.alpha.writeType != Keep {
      s := s + (if s == "" then "A" else ", A");
    }
    assert s == AppendStep(s3, c.alpha.writeType != Keep, "A");
    ChannelSteps(c);
  }

  /** The four steps, red to alpha, from the empty string build the channel list. */
  lemma ChannelSteps(c: Channels)
    ensures AppendStep(AppendStep(AppendStep(AppendStep("", c.red.writeType != Keep, "R"),
              c.green.writeType != Keep, "G"), c.blue.writeType != Keep, "B"),
              c.alpha.writeType != Keep, "A") == ChannelList(c)
  {
    var r := if c.red.writeType != Keep then ["R"] else [];
    var g := if c.green.writeType != Keep then ["G"] else [];
    var b := if c.blue.writeType != Keep then ["B"] else [];
    var a := if c.alpha.writeType != Keep then ["A"] else [];
    assert Join([], ", ") == "";
    AppendChannel([], "", c.red.writeType != Keep, "R");
    AppendChannel(r, Join(r, ", "), c.green.writeType != Keep, "G");
    AppendChannel(r + g, Join(r + g, ", "), c.blue.writeType != Keep, "B");
    AppendChannel(r + g + b, Join(r + g + b, ", "), c.alpha.writeType != Keep, "A");
    assert [] + r == r;
  }

  /** One step of `channelString` joins one more part when the channel is written. */
  lemma AppendChannel(parts: seq<string>, s: string, written: bool, letter: string)
    requires NonEmptyParts(parts) && s == Join(parts, ", ") && letter != ""
    ensures AppendStep(s, written, letter) == Join(parts + (if written then [letter] else []), ", ")
    ensures NonEmptyParts(parts + (if written then [letter] else []))
  {
    if written {
      JoinEmpty(parts, ", ");
      JoinAppend(parts, ", ", letter);
      assert s + (", " + letter) == s + ", " + letter;
    } else {
      assert parts + [] == parts;
    }
  }

  /** The list is empty exactly when every channel is kept. */
  lemma ChannelListEmpty(c: Channels)
    ensures ChannelList(c) == "" <==>
      c.red.writeType == Keep && c.green.writeType == Keep &&
      c.blue.writeType == Keep && c.alpha.writeType == Keep
  {
    JoinEmpty(WrittenNames(c), ", ");
  }

  /** A channel's letter appears in the list exactly when that channel is written. */
  lemma ChannelListNamesWritten(c: Channels)
    ensures 'R' in ChannelList(c) <==> c.red.writeType != Keep
    ensures 'G' in ChannelList(c) <==> c.green.writeType != Keep
    ensures 'B' in ChannelList(c) <==> c.blue.writeType != Keep
    ensures 'A' in ChannelList(c) <==> c.alpha.writeType != Keep
  {
    var parts := WrittenNames(c);
    WrittenLetters(c);
    LetterInJoin(parts, 'R');
    LetterInJoin(parts, 'G');
    LetterInJoin(parts, 'B');
    LetterInJoin(parts, 'A');
  }

  /** The written names are single letters, one per written channel. */
  lemma WrittenLetters(c: Channels)
    ensures forall i :: 0 <= i < |WrittenNames(c)| ==> |WrittenNames(c)[i]| == 1
    ensures "R" in WrittenNames(c) <==> c.red.writeType != Keep
    ensures "G" in WrittenNames(c) <==> c.green.writeType != Keep
    ensures "B" in WrittenNames(c) <==> c.blue.writeType != Keep
    ensures "A" in WrittenNames(c) <==> c.alpha.writeType != Keep
  {
  }

  /** For parts of one letter each, a letter other than the separator's is in
      the joined string exactly when it is one of the parts. */
  lemma LetterInJoin(parts: seq<string>, ch: char)
    requires ch != ',' && ch != ' '
    requires forall i :: 0 <= i < |parts| ==> |parts[i]| == 1
    ensures ch in Join(parts, ", ") <==> [ch] in parts
  {
    JoinMembers(parts, ", ", ch);
    if [ch] in parts {
      var i :| 0 <= i < |parts| && parts[i] == [ch];
      assert ch in parts[i];
    }
    if exists i :: 0 <= i < |parts| && ch in parts[i] {
      var i :| 0 <= i < |parts| && ch in parts[i];
      assert parts[i] == [parts[i][0]];
    }
  }

  // ---------------------------------------------------------------------------
  // Noise kinds and settings

  /** `SettingsEditor.NoiseType`. */
  datatype NoiseType = Perlin | Voronoi | Worley

  /** The kind an underlying enum value denotes; a C# enum can hold other values. */
  function NoiseTypeOf(n: int): (k: Option<NoiseType>)
    ensures k.Some? <==> 0 <= n <= 2
  {
    if n == 0 then Some(Perlin) else if n == 1 then Some(Voronoi) else if n == 2 then Some(Worley) else None
  }

  /** The enum value's `ToString()`: its name, or the number for an undefined value. */
  function NoiseTypeName(n: int): (s: string)
    ensures |s| > 0 && '_' !in s
    ensures 0 <= n <= 2 <==> s[0] in "PVW"
  {
    match NoiseTypeOf(n)
    case Some(Perlin) => "Perlin"
    case Some(Voronoi) => "Voronoi"
    case Some(Worley) => "Worley"
    case None => IntString(n)
  }

  /** The parameter sets of the settings asset. */
  datatype Settings = Settings(perlin: Parameters, voronoi: Channels, worley: Parameters)

  /** The warning's `parameters` switch: the selected kind's channel settings;
      any other value throws `ArgumentOutOfRangeException`. */
  function SelectedChannels(selected: int, settings: Settings): (c: Option<Channels>)
    ensures c.Some? <==> 0 <= selected <= 2
  {
    match NoiseTypeOf(selected)
    case Some(Perlin) => Some(settings.perlin.channels)
    case Some(Voronoi) => Some(settings.voronoi)
    case Some(Worley) => Some(settings.worley.channels)
    case None => None
  }

  /** The text of the overwrite warning for the selected kind. */
  function OverwriteWarning(selected: int, settings: Settings): (m: Option<string>)
    ensures m.Some? <==> 0 <= selected <= 2
    ensures m.Some? ==>
      m.value == "This will overwrite the file with the same name (" + ChannelList(SelectedChannels(selected, settings).value) + ")!"
  {
    match SelectedChannels(selected, settings)
    case Some(c) => Some("This will overwrite the file with the same name (" + ChannelList(c) + ")!")
    case None => None
  }

  // ---------------------------------------------------------------------------
  // File name

  /** `v.x + "x" + v.y + "x" + v.z`. */
  function DimString(v: Vec3i): string {
    IntString(v.x) + ("x" + (IntString(v.y) + ("x" + IntString(v.z))))
  }

  /** The resolution, "_" and the cell count. */
  function ShapeSuffix(resolution: Vec3i, cells: Vec3i): string {
    DimString(resolution) + ("_" + DimString(cells))
  }

  /** The `FileName` property: `_name` unless auto-naming; otherwise the kind's
      name and "_", followed for Perlin and Worley by the resolution, "_" and
      the selected kind's cell count. */
  function FileName(autoName: bool, name: string, selected: int, resolution: Vec3i,
                    perlinCells: Vec3i, worleyCells: Vec3i): (f: string)
    ensures !autoName ==> f == name
    ensures autoName ==>
      |f| > |NoiseTypeName(selected)| && f[..|NoiseTypeName(selected)| + 1] == NoiseTypeName(selected) + "_"
    ensures autoName && selected != 0 && selected != 2 ==> f == NoiseTypeName(selected) + "_"
  {
    if !autoName then name
    else
      var prefix := NoiseTypeName(selected) + "_";
      match NoiseTypeOf(selected)
      case Some(Perlin) => prefix + ShapeSuffix(resolution, perlinCells)
      case Some(Worley) => prefix + ShapeSuffix(resolution, worleyCells)
      case _ => prefix
  }

  /** A rendered integer contains neither separator. */
  lemma IntStringHasNoSeparator(n: int)
    ensures 'x' !in IntString(n) && '_' !in IntString(n)
  {
    var s := IntString(n);
    if n < 0 {
      assert s == [s[0]] + s[1..];
    }
  }

  /** In `p + [c] + r` with no `c` in `p`, the first `c` is at position `|p|`. */
  lemma FirstSeparator(p: string, c: char, r: string)
    requires c !in p
    ensures (p + ([c] + r))[|p|] == c
    ensures forall i :: 0 <= i < |p| ==> (p + ([c] + r))[i] != c
  {
    forall i | 0 <= i < |p|
      ensures (p + ([c] + r))[i] != c
    {
      assert (p + ([c] + r))[i] == p[i];
    }
  }

  /** Splitting at the first occurrence of a separator that the head does not contain. */
  lemma SplitAtSeparator(p1: string, r1: string, p2: string, r2: string, c: char)
    requires c !in p1 && c !in p2
    requires p1 + ([c] + r1) == p2 + ([c] + r2)
    ensures p1 == p2 && r1 == r2
  {
    var s := p1 + ([c] + r1);
    FirstSeparator(p1, c, r1);
    FirstSeparator(p2, c, r2);
    assert |p1| == |p2|;
    assert p1 == s[..|p1|] == p2;
    assert r1 == s[|p1| + 1..] == r2;
  }

  /** An integer followed by a separator and a tail: both are recovered. */
  lemma SplitField(n1: int, r1: string, n2: int, r2: string, c: char)
    requires c == 'x' || c == '_'
    requires IntString(n1) + ([c] + r1) == IntString(n2) + ([c] + r2)
    ensures n1 == n2 && r1 == r2
  {
    IntStringHasNoSeparator(n1);
    IntStringHasNoSeparator(n2);
    SplitAtSeparator(IntString(n1), r1, IntString(n2), r2, c);
    IntStringInjective(n1, n2);
  }

  /** The resolution and cell count are recovered from the shape suffix. */
  lemma ShapeSuffixInjective(r1: Vec3i, c1: Vec3i, r2: Vec3i, c2: Vec3i)
    requires ShapeSuffix(r1, c1) == ShapeSuffix(r2, c2)
    ensures r1 == r2 && c1 == c2
  {
    SplitDims(r1, DimString(c1), r2, DimString(c2), '_');
    SplitField(c1.x, IntString(c1.y) + ("x" + IntString(c1.z)), c2.x, IntString(c2.y) + ("x" + IntString(c2.z)), 'x');
    SplitField(c1.y, IntString(c1.z), c2.y, IntString(c2.z), 'x');
    IntStringInjective(c1.z, c2.z);
  }

  /** `DimString(v)` followed by a tail is the three fields, each behind its
      'x', with the tail after the last one. */
  lemma DimStringThen(v: Vec3i, t: string)
    ensures DimString(v) + t == IntString(v.x) + (['x'] + (IntString(v.y) + (['x'] + (IntString(v.z) + t))))
  {
    var x, y, z := IntString(v.x), IntString(v.y), IntString(v.z);
    var zt := ['x'] + (z + t);
    var yzt := ['x'] + (y + zt);
    assert (['x'] + z) + t == zt;
    assert (y + (['x'] + z)) + t == y + zt;
    assert (['x'] + (y + (['x'] + z))) + t == yzt;
    assert (x + (['x'] + (y + (['x'] + z)))) + t == x + yzt;
  }

  /** `DimString(v)` followed by a separator and a tail, read as three integer fields. */
  lemma SplitDims(a: Vec3i, ta: string, b: Vec3i, tb: string, c: char)
    requires c == 'x' || c == '_'
    requires DimString(a) + ([c] + ta) == DimString(b) + ([c] + tb)
    ensures a == b && ta == tb
  {
    var za := IntString(a.z) + ([c] + ta);
    var zb := IntString(b.z) + ([c] + tb);
    var ya := IntString(a.y) + (['x'] + za);
    var yb := IntString(b.y) + (['x'] + zb);
    DimStringThen(a, [c] + ta);
    DimStringThen(b, [c] + tb);
    SplitField(a.x, ya, b.x, yb, 'x');
    SplitField(a.y, za, b.y, zb, 'x');
    SplitField(a.z, ta, b.z, tb, c);
  }

  /** An automatic name determines the noise kind, and for Perlin and Worley
      also the resolution and the cell count it was made from. The cell count
      is rendered here as an integer; the program renders it as a float, which
      prints the integer only for components of magnitude below 10^7. */
  lemma AutoNameDeterminesShape(name: string, s1: int, r1: Vec3i, p1: Vec3i, w1: Vec3i,
                                s2: int, r2: Vec3i, p2: Vec3i, w2: Vec3i)
    requires 0 <= s1 <= 2 && 0 <= s2 <= 2
    requires FileName(true, name, s1, r1, p1, w1) == FileName(true, name, s2, r2, p2, w2)
    ensures s1 == s2
    ensures s1 != 1 ==> r1 == r2
    ensures s1 == 0 ==> p1 == p2
    ensures s1 == 2 ==> w1 == w2
  {
    var f1 := FileName(true, name, s1, r1, p1, w1);
    var f2 := FileName(true, name, s2, r2, p2, w2);
    assert f1[0] == NoiseTypeName(s1)[0] && f2[0] == NoiseTypeName(s2)[0];
    if s1 != 1 {
      var prefix := NoiseTypeName(s1) + "_";
      var c1 := if s1 == 0 then p1 else w1;
      var c2 := if s1 == 0 then p2 else w2;
      assert f1 == prefix + ShapeSuffix(r1, c1) && f2 == prefix + ShapeSuffix(r2, c2);
      assert ShapeSuffix(r1, c1) == f1[|prefix|..] == f2[|prefix|..] == ShapeSuffix(r2, c2);
      ShapeSuffixInjective(r1, c1, r2, c2);
    }
  }

  // ---------------------------------------------------------------------------
  // Regeneration

  /** The resolution `RegenerateTexture` creates the texture with: a width or
      height that is not positive becomes 128; the depth is left as it is. */
  function FallbackResolution(r: Vec3i): (q: Vec3i)
    ensures q.x >= 1 && q.y >= 1
    ensures r.x > 0 ==> q.x == r.x
    ensures r.y > 0 ==> q.y == r.y
    ensures r.x <= 0 ==> q.x == 128
    ensures r.y <= 0 ==> q.y == 128
    ensures q.z == r.z
  {
    var x := if r.x <= 0 then Int32.Max(r.x, 128) else r.x;
    var y := if r.y <= 0 then Int32.Max(r.y, 128) else r.y;
    Vec3i(x, y, r.z)
  }

  /** The render texture `RegenerateTexture` creates. */
  function TargetTexture(resolution: Vec3i, is3D: bool): (t: Texture)
    ensures (t.width, t.height, t.volumeDepth) == (resolution.x, resolution.y, resolution.z)
    ensures t.dimension == Tex3D <==> is3D
  {
    Texture(resolution.x, resolution.y, resolution.z, if is3D then Tex3D else Tex2D)
  }

  datatype GenerationError =
    | NotImplemented   // `Voronoi.Generate` throws NotImplementedException
    | OutOfRange       // the default branch throws ArgumentOutOfRangeException
    | BufferRejected   // the generator's compute buffer refuses a count that is not positive

  /** What a generator bound to the shader. */
  datatype Generated = PerlinOutput(perlin: Perlin.Binding) | WorleyOutput(worley: Worley.Binding)

  /** The generator switch of `RegenerateTexture`, started with `Random.state`
      equal to `s`: the outcome and the random state afterwards. */
  function Generate(selected: int, settings: Settings, t: Texture, law: RandomLaw, s: RandomState)
    : (out: (Result<Generated, GenerationError>, RandomState))
    ensures selected == 1 ==> out == (Failure(NotImplemented), s)
    ensures !(0 <= selected <= 2) ==> out == (Failure(OutOfRange), s)
    ensures out.0.Failure? ==> out.1 == s
  {
    match NoiseTypeOf(selected)
    case Some(Perlin) =>
      (match Perlin.BindingFor(settings.perlin, t, law, s)
       case Some(b) => (Success(PerlinOutput(b)), Perlin.StateAfterGenerate(settings.perlin, t, law, s))
       case None => (Failure(BufferRejected), s))
    case Some(Voronoi) => (Failure(NotImplemented), s)
    case Some(Worley) =>
      (match Worley.BindingFor(settings.worley, t, law, s)
       case Some(b) => (Success(WorleyOutput(b)), Worley.StateAfterGenerate(settings.worley, law, s))
       case None => (Failure(BufferRejected), s))
    case None => (Failure(OutOfRange), s)
  }

  /** `Random.state` together with the window's `_randomState` snapshot. */
  datatype RandomSlots = RandomSlots(global: RandomState, snapshot: RandomState)

  /** The random-state handling around the switch: with `preserve`, the global
      state is reset to the snapshot first; without it, the snapshot takes the
      state after a generation that did not throw. */
  function Regenerate(selected: int, preserve: bool, settings: Settings, t: Texture,
                      law: RandomLaw, slots: RandomSlots): (out: (Result<Generated, GenerationError>, RandomSlots))
    ensures (out.0, out.1.global) == Generate(selected, settings, t, law, if preserve then slots.snapshot else slots.global)
    ensures preserve || out.0.Failure? ==> out.1.snapshot == slots.snapshot
    ensures !preserve && out.0.Success? ==> out.1.snapshot == out.1.global
  {
    var start := if preserve then slots.snapshot else slots.global;
    var (result, after) := Generate(selected, settings, t, law, start);
    (result, RandomSlots(after, if !preserve && result.Success? then after else slots.snapshot))
  }

  /** With preserve on, every generation starts from the snapshot, the snapshot is
      never overwritten, and so regenerating again gives exactly the same outcome. */
  lemma PreserveRepeats(selected: int, settings: Settings, t: Texture, law: RandomLaw, slots: RandomSlots)
    ensures var (r1, s1) := Regenerate(selected, true, settings, t, law, slots);
      && (r1, s1.global) == Generate(selected, settings, t, law, slots.snapshot)
      && s1.snapshot == slots.snapshot
      && Regenerate(selected, true, settings, t, law, s1) == (r1, s1)
  {
  }

  /** With preserve off, a generation starts from the current global state and a
      successful one leaves the snapshot equal to the state it ended in, so the
      next generation continues from there. */
  lemma AdvanceContinues(selected: int, settings: Settings, t: Texture, law: RandomLaw, slots: RandomSlots)
    ensures var (r1, s1) := Regenerate(selected, false, settings, t, law, slots);
      && (r1, s1.global) == Generate(selected, settings, t, law, slots.global)
      && (r1.Success? ==> s1.snapshot == s1.global)
      && (r1.Failure? ==> s1 == slots)
  {
  }

  /** Selecting Voronoi always fails and touches neither state beyond the
      preserve-mode reset. */
  lemma VoronoiFails(preserve: bool, settings: Settings, t: Texture, law: RandomLaw, slots: RandomSlots)
    ensures var (r, s) := Regenerate(1, preserve, settings, t, law, slots);
      r == Failure(NotImplemented) &&
      s == RandomSlots(if preserve then slots.snapshot else slots.global, slots.snapshot)
  {
  }

  /** The editor window's state that these operations read and update. */
  class Window {
    var is3D: bool
    var resolution: Vec3i
    var name: string
    var autoName: bool
    var preserveState: bool
    var visibleChannels: bv32
    var randomState: RandomState
    var selectedNoise: int
    var settings: Settings
    /** The process-wide `UnityEngine.Random`. */
    const random: Random

    /** A fresh window: `_visibleChannels` starts as RGB and the selected kind as Perlin. */
    constructor (random: Random, settings: Settings)
      ensures this.random == random && this.settings == settings
      ensures visibleChannels == RGB && selectedNoise == 0
      ensures !is3D && !autoName && !preserveState && resolution == Vec3i(0, 0, 0)
    {
      this.random := random;
      this.settings := settings;
      is3D, autoName, preserveState := false, false, false;
      resolution := Vec3i(0, 0, 0);
      name := "";
      visibleChannels := RGB;
      randomState := RandomState(0, 0, 0, 0);
      selectedNoise := 0;
    }

    /** The "View Channels" update of `OnGUI`. */
    method UpdateVisibleChannels(picked: bv32)
      modifies this`visibleChannels
      ensures visibleChannels == ViewMaskUpdate(old(visibleChannels), picked)
    {
      visibleChannels := ViewMaskUpdate(visibleChannels, picked);
    }

    /** `RegenerateTexture`, with texture creation, rehydration from an existing
      asset and the preview left out: returns what was generated or why it threw. */
    method RegenerateTexture() returns (r: Result<Generated, GenerationError>)
      modifies this`resolution, this`randomState, random
      ensures resolution == FallbackResolution(old(resolution))
      ensures (r, RandomSlots(random.state, randomState)) ==
        Regenerate(selectedNoise, preserveState, settings, TargetTexture(resolution, is3D),
                   random.law, RandomSlots(old(random.state), old(randomState)))
    {
      if resolution.x <= 0 {
        resolution := resolution.(x := Int32.Max(resolution.x, 128));
      }
      if resolution.y <= 0 {
        resolution := resolution.(y := Int32.Max(resolution.y, 128));
      }
      var t := TargetTexture(resolution, is3D);

      if preserveState {
        random.state := randomState;
      }
      r := RunSelected(t);
      if r.Failure? {
        return;
      }
      if !preserveState {
        randomState := random.state;
      }
    }

    /** The generator switch of `RegenerateTexture`. */
    method RunSelected(t: Texture) returns (r: Result<Generated, GenerationError>)
      modifies random
      ensures (r, random.state) == Generate(selectedNoise, settings, t, random.law, old(random.state))
    {
      match NoiseTypeOf(selectedNoise) {
      case Some(Perlin) =>
        var b := Perlin.Generate(random, t, settings.perlin);
        if b.None? {
          return Failure(BufferRejected);
        }
        r := Success(PerlinOutput(b.value));
      case Some(Voronoi) =>
        r := Failure(NotImplemented);
      case Some(Worley) =>
        var b := Worley.Generate(random, t, settings.worley);
        if b.None? {
          return Failure(BufferRejected);
        }
        r := Success(WorleyOutput(b.value));
      case None =>
        r := Failure(OutOfRange);
      }
    }
  }
}
