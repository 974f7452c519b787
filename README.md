# Procedural noise generator, CPU side

A Dafny model of the C# code of a Unity tool that fills textures with gradient
(Perlin) and cellular (Worley) noise. The noise itself is computed by compute
shaders, and those are not part of this model. What the C# does before and
after a dispatch is modelled here:

- **Buffer sizes.** The gradient count and the point count, in wrapping 32-bit
  arithmetic.
- **Seeded generation.** The gradient and point arrays are filled after the
  global random generator has been re-seeded.
- **Shader inputs.** Everything `Generate` binds to the shader: the kernel and
  its name suffix, `write_types`, the `region` matrix and the work-group counts.
- **Parameter drawer.** The clamps the inspector applies to Perlin parameters.
- **Generation window.** Its own rules:
  - flattening depth slices into a 3D texture;
  - the overwrite warning;
  - the "View Channels" mask;
  - the automatic file name;
  - the resolution fallback;
  - generator selection;
  - preserving or advancing the random state between generations.

Modules, by file:

- `wrappers.dfy`: `Option` and `Result`.
- `int32.dfy`: C# `int` wrap-around.
- `text.dfy`: decimal rendering of integers and joining strings with a separator.
- `vectors.dfy`: Unity's vectors, `Bounds` and `Matrix4x4`.
- `unity_random.dfy`: `UnityEngine.Random`, as a `Random` class over an abstract law.
  - The law is a set of total functions: seeding, stepping the state, the unit
    value drawn from a state, and the integer bits drawn from a state.
  - Its distribution is not modelled.
  - Each draw reads the current state and then steps it once.
- `channel_settings.dfy`: `WriteType`, `ChannelSettings`, and the four channel
  settings of a parameter set.
- `noise_parameters.dfy`: the parameter record, and how it is packed into
  `write_types` and `region`.
- `dispatch.dfy`: the texture shape, kernel choice and `GetThreadGroups`.
- `perlin.dfy`, `worley.dfy`: the two generators.
- `perlin_drawer.dfy`: the drawer's clamps.
- `view_channels.dfy`: the `Channel` flags and the mask update.
- `generation_window.dfy`: the rest of the editor window.

A point worth knowing about the code:

- **3D gradient buffer size.** One gradient per grid cell would be x*y*z.
  For 3D textures the code (Runtime/Perlin.cs, lines 25-27) multiplies by z
  again. `Perlin.GradientCount` keeps the code's `x*y*z*z`, and
  `Perlin.GradientCount3D` states how that relates to the 2D count.

## Model

| member | source | states |
|---|---|---|
| Int32.Wrap | Runtime/Perlin.cs:25-27 | the result is a 32-bit int, congruent to the input modulo 2^32, and equal to it when the input already fits |
| Int32.Mul | Runtime/Perlin.cs:25-27 | an unchecked C# `int` product: always a 32-bit int, congruent to the exact product modulo 2^32, and equal to it whenever that fits |
| Int32.WrapUnique | Runtime/Perlin.cs:25-27 | an in-range value congruent to v modulo 2^32 is `Wrap(v)`, so a wrapped result is determined by its congruence class |
| Int32.WrapFactor | Runtime/Perlin.cs:25-27 | wrapping an intermediate product before the next multiplication gives the same wrapped result as the exact product, so `(x*y)*z` computed in `int` is `Wrap(x*y*z)` |
| Int32.Max | Editor/GenerationWindow.cs:354-357 | `Mathf.Max` on ints: at least both arguments and equal to one of them |
| Text.NatString | Editor/GenerationWindow.cs:56-63 | a natural number renders as a non-empty string of decimal digits |
| Text.IntString | Editor/GenerationWindow.cs:56-63 | an int renders as a non-empty string: a leading '-' exactly for negative values, digits otherwise |
| Text.ParseNatString | Editor/GenerationWindow.cs:56-63 | reading the digits of a rendered natural number gives the number back |
| Text.IntStringRoundTrip | Editor/GenerationWindow.cs:56-63 | reading a rendered int gives the int back |
| Text.IntStringInjective | Editor/GenerationWindow.cs:56-63 | distinct ints render as distinct strings |
| Text.JoinEmpty | Editor/GenerationWindow.cs:182-190 | a join of non-empty parts is empty exactly when there are no parts |
| Text.JoinAppend | Editor/GenerationWindow.cs:182-190 | appending a part adds it after the separator, or alone when there was nothing before |
| Text.JoinMembers | Editor/GenerationWindow.cs:182-190 | a character is in the join exactly when it is in some part, or in the separator and there are at least two parts |
| UnityRandom.RangeOf | Runtime/Perlin.cs:76 | `Random.Range(lo, hi)` on floats lies in [lo, hi] |
| UnityRandom.SeedFrom | Runtime/Perlin.cs:29 | `Random.Range(int.MinValue, int.MaxValue)` lies in [int.MinValue, int.MaxValue), with the maximum excluded |
| UnityRandom.StateAfterNext | Runtime/Perlin.cs:75-76 | one more draw at the end of n draws steps the final state once more |
| UnityRandom.Random.InitState | Runtime/Perlin.cs:72 | re-seeding sets the state to the law's initial state for the seed, whatever the state was before |
| UnityRandom.Random.Value | Runtime/Worley.cs:72 | returns the unit value of the current state and steps the state once |
| UnityRandom.Random.Range | Runtime/Perlin.cs:76 | returns the range value of the current state's draw and steps the state once |
| UnityRandom.Random.RangeInt32 | Runtime/Perlin.cs:29 | returns the seed drawn from the current state and steps the state once |
| ChannelSettings.Ordinal | Runtime/ChannelSettings.cs:17-24 | every policy's ordinal is in [0, 4], and it is 0 exactly for Keep, the one policy that does not write |
| ChannelSettings.FromOrdinal | Runtime/ChannelSettings.cs:17-24 | an int names a policy exactly when it is in [0, 4] |
| ChannelSettings.FivePolicies | Runtime/ChannelSettings.cs:17-24 | there are exactly five policies, declared in the order Keep, Black, Grey, White, Write with ordinals 0 to 4 |
| ChannelSettings.OrdinalRoundTrip | Runtime/ChannelSettings.cs:17-24 | converting a policy to its ordinal and back gives the policy |
| ChannelSettings.FromOrdinalRoundTrip | Runtime/ChannelSettings.cs:17-24 | every ordinal in [0, 4] names a policy whose ordinal it is |
| ChannelSettings.OrdinalInjective | Runtime/ChannelSettings.cs:17-24 | distinct policies have distinct ordinals |
| ChannelSettings.NewChannelSettings | Runtime/ChannelSettings.cs:10-13 | the constructor stores its argument as `writeType` |
| NoiseParameters.UnitRegionIsUnitCube | Runtime/Perlin.cs:102 | the default region is the box from (0,0,0) to (1,1,1) |
| NoiseParameters.WriteTypes | Runtime/Perlin.cs:45-50 | four ordinals, each in [0, 4]; reading slot 0 as red, 1 as green, 2 as blue and 3 as alpha recovers the channel settings |
| NoiseParameters.RegionMatrix | Runtime/Perlin.cs:36-42 | row 0 holds the region's minimum corner and row 1 its maximum corner in columns 0-2; rows 2-3 and column 3 are zero |
| NoiseParameters.RegionRoundTrip | Runtime/Worley.cs:33-39 | reading rows 0 and 1 of the packed matrix gives back the region's minimum and maximum |
| Dispatch.Kernel | Runtime/Perlin.cs:12-14 | a 3D texture selects kernel 1 with suffix "_3d"; anything else selects kernel 0 with suffix "_2d" |
| Dispatch.CeilDiv | Runtime/Perlin.cs:64-66 | the result is the ceiling of n / 8 |
| Dispatch.GroupCount | Runtime/Perlin.cs:61-68 | at least one group; the groups cover n texels; for n >= 1 there is no spare group |
| Dispatch.GroupCountMinimal | Runtime/Worley.cs:57-64 | no smaller positive group count covers n texels |
| Dispatch.TexelCovered | Runtime/Perlin.cs:61-68 | every texel index falls in a dispatched group |
| Dispatch.ThreadGroups | Runtime/Perlin.cs:61-68 | the per-axis counts cover width, height and depth, and no axis with at least one texel has a spare group |
| Perlin.DefaultsPacking | Runtime/Perlin.cs:98-107 | the defaults pack `write_types` as four Writes and size the buffer for 25 gradients, in 2D and in 3D |
| Perlin.GradientCount | Runtime/Perlin.cs:25-27 | for every cell count, the 32-bit wrap of x*y*z for 2D and of x*y*z*z for 3D; the exact product whenever the components are positive and it fits |
| Perlin.GradientCountWraps | Runtime/Perlin.cs:25-27 | (65536, 65536, 1) wraps to 0 gradients, (65537, 65537, 1) to 131073, and (-1, -1, 1) gives 1 |
| Perlin.GradientCount3D | Runtime/Perlin.cs:25-27 | the 3D count is z times the 2D count, and the two are equal exactly when z is 1 |
| Perlin.Gradients2D | Runtime/Perlin.cs:70-79 | exactly `count` gradients, each component in [-1, 1] before normalisation, a function of the law, seed and count only |
| Perlin.Gradients3D | Runtime/Perlin.cs:81-93 | exactly `count` gradients, each component in [-1, 1] before normalisation, a function of the law, seed and count only |
| Perlin.GradientsPrefix | Runtime/Perlin.cs:74-76 | from the same seed, asking for more gradients extends the shorter field without changing it |
| Perlin.GenerateGradients2D | Runtime/Perlin.cs:70-79 | the allocation throws exactly for a negative count; otherwise a fresh array equal to `Gradients2D(seed, count)`; the state ends 2*count draws after the seed's initial state |
| Perlin.GenerateGradients3D | Runtime/Perlin.cs:81-93 | the same as `GenerateGradients2D`, with 3*count draws |
| Perlin.Allocates | Runtime/Perlin.cs:25-28 | the gradient buffer is created exactly when the wrapped product is positive, and always when the components are positive and their product fits |
| Perlin.BindingFor | Runtime/Perlin.cs:10-59 | binds exactly when the gradient count is positive. The binding has: the texture's kernel, one gradient per counted slot of the right dimension, the parameters' octaves, lacunarity, persistence, cell count and invert flag, `write_types` decoding to the channels, the region corners, and work groups covering the texture |
| Perlin.StateAfterGenerate | Runtime/Perlin.cs:29-30 | after binding, the state is the drawn seed's initial state advanced by two draws per bound gradient in 2D and three in 3D |
| Perlin.BindingDependsOnlyOnSeed | Runtime/Perlin.cs:29-30 | two entry states that draw the same seed give the same binding and the same final state |
| Perlin.Generate | Runtime/Perlin.cs:10-59 | returns `BindingFor` of the entry state. After a binding the state is one seed draw, re-seeding and the gradient draws; after a rejected buffer it is unchanged |
| Worley.DefaultsPacking | Runtime/Worley.cs:80-89 | the defaults pack `write_types` as four Writes and place 125 points |
| Worley.PointCount | Runtime/Worley.cs:20 | for every cell count, the 32-bit wrap of x*y*z, for 2D and 3D alike; the exact product whenever the components are positive and it fits |
| Worley.PointCountOutsideDrawer | Runtime/Worley.cs:20-21 | (-1, -1, 1) gives one point and (65536, 65536, 1) none, so the buffer is rejected |
| Worley.PointCountIsCellCount | Runtime/Worley.cs:20 | the point count equals the Perlin 2D gradient count, one per grid cell |
| Worley.Points | Runtime/Worley.cs:66-75 | exactly `count` points, each in the unit cube, a function of the law, seed and count only |
| Worley.GeneratePoints | Runtime/Worley.cs:66-75 | the allocation throws exactly for a negative count; otherwise a fresh array equal to `Points(seed, count)`; the state ends 3*count draws after the seed's initial state |
| Worley.Allocates | Runtime/Worley.cs:20-21 | the point buffer is created exactly when the wrapped product is positive, and always when the components are positive and their product fits |
| Worley.BindingFor | Runtime/Worley.cs:10-55 | binds exactly when the point count is positive. The binding has: the texture's kernel, exactly that many points, the parameters' cell count, octaves, lacunarity, persistence and invert flag, `write_types` decoding to the channels, the region corners, and covering work groups |
| Worley.StateAfterGenerate | Runtime/Worley.cs:22 | after binding, the state is the drawn seed's initial state advanced by three draws per bound point, whatever the texture |
| Worley.PointsIgnoreDimension | Runtime/Worley.cs:20-22 | the points are the same for a 2D and a 3D texture |
| Worley.BindingDependsOnlyOnSeed | Runtime/Worley.cs:22 | two entry states that draw the same seed give the same binding and the same final state |
| Worley.Generate | Runtime/Worley.cs:10-55 | returns `BindingFor` of the entry state. After a binding the state is one seed draw, re-seeding and three draws per point; after a rejected buffer it is unchanged |
| PerlinDrawer.ClampCellCount | Editor/PerlinDrawer.cs:15 | every component at least 1; components already at least 1 are kept and the others become 1 |
| PerlinDrawer.Sanitize | Editor/PerlinDrawer.cs:13-24 | clamps cellCount; octaves lands in [1, 10] and is kept when already there; lacunarity is max(0, input); persistence lands in [0, 1] and is kept when already there; region, channels and invert are untouched |
| PerlinDrawer.SanitizeFixedPoints | Editor/PerlinDrawer.cs:13-24 | the result always meets the drawer's bounds, and sanitising changes nothing exactly when the input already meets them |
| PerlinDrawer.SanitizeIdempotent | Editor/PerlinDrawer.cs:13-24 | sanitising twice gives the same result as sanitising once |
| PerlinDrawer.DefaultsSanitized | Runtime/Perlin.cs:98-101 | the Perlin defaults are left unchanged by the drawer, and the Worley defaults meet its bounds |
| ViewChannels.ViewMaskUpdate | Editor/GenerationWindow.cs:251-257 | the new mask is Alpha alone, the pick, or the pick without Alpha; the lemmas below say which applies when |
| ViewChannels.AlphaToggleIsolates | Editor/GenerationWindow.cs:253-255 | when the pick toggles Alpha, in either direction, the mask becomes Alpha alone |
| ViewChannels.OtherChangeDropsAlpha | Editor/GenerationWindow.cs:256-257 | when Alpha stays set and other flags change, Alpha is cleared and every other flag of the pick is kept |
| ViewChannels.PlainPickKept | Editor/GenerationWindow.cs:251-257 | with Alpha clear on both sides the pick is taken as it is, and an unchanged pick leaves the mask alone |
| ViewChannels.ViewMaskKeepsAlphaExclusive | Editor/GenerationWindow.cs:251-257 | if Alpha is only ever shown alone before an update, the same holds after it |
| GenerationWindow.VoxelIndex | Editor/GenerationWindow.cs:287 | `x + w*y + w*h*z` lies in [0, w*h*d) for every voxel of a w x h x d volume |
| GenerationWindow.VoxelIndexInjective | Editor/GenerationWindow.cs:281-290 | distinct voxels get distinct indices |
| GenerationWindow.VoxelIndexOnto | Editor/GenerationWindow.cs:281-290 | every slot of the w*h*d array is the index of a voxel, so the loops write every slot |
| GenerationWindow.ToTexture3D | Editor/GenerationWindow.cs:276-291 | the voxel array has w*h*d entries, and voxel (x, y, z) holds pixel (x, y) of slice z |
| GenerationWindow.FillLayer | Editor/GenerationWindow.cs:283-291 | the y and x loops for one layer z: every voxel of layer z holds its slice's pixel, and no voxel of another layer changes |
| GenerationWindow.FillRow | Editor/GenerationWindow.cs:285-290 | the x loop for row y of layer z: every voxel of that row holds its slice's pixel, and no voxel of another row changes |
| GenerationWindow.Layer | Editor/GenerationWindow.cs:276-288 | reading depth layer z back from a voxel array gives a well-shaped w x h slice |
| GenerationWindow.LayersRoundTrip | Editor/GenerationWindow.cs:276-291 | layer z of the filled array is slice z, and any two arrays filled this way are equal |
| GenerationWindow.ChannelString | Editor/GenerationWindow.cs:181-189 | the appended string is the join, with ", ", of the letters of the written channels in the order R, G, B, A |
| GenerationWindow.ChannelSteps | Editor/GenerationWindow.cs:181-189 | the four conditional appends, red to alpha, starting from "", give the ", "-join of the written letters |
| GenerationWindow.AppendChannel | Editor/GenerationWindow.cs:184-189 | one conditional append ("X" into an empty string, ", X" otherwise, nothing for a kept channel) adds that channel's part to the join, or nothing |
| GenerationWindow.ChannelListEmpty | Editor/GenerationWindow.cs:181-189 | the list is empty exactly when all four channels are Keep |
| GenerationWindow.ChannelListNamesWritten | Editor/GenerationWindow.cs:181-189 | each channel's letter appears in the list exactly when that channel is written |
| GenerationWindow.LetterInJoin | Editor/GenerationWindow.cs:181-189 | a one-letter part's letter appears in the join exactly when that part does |
| GenerationWindow.NoiseTypeOf | Editor/SettingsEditor.cs:49-54 | an underlying value names a noise kind exactly when it is 0, 1 or 2 |
| GenerationWindow.NoiseTypeName | Editor/GenerationWindow.cs:56 | the enum's `ToString()` is non-empty, has no '_', and starts with a letter of "PVW" exactly for the three defined kinds (an undefined value renders as its number) |
| GenerationWindow.SelectedChannels | Editor/GenerationWindow.cs:173-179 | the selected kind's channel settings exist exactly for the three defined kinds; any other value throws |
| GenerationWindow.OverwriteWarning | Editor/GenerationWindow.cs:173-192 | the warning text, once the file exists: for a defined kind it quotes that kind's channel list; `None` stands for the throw of the switch's default branch |
| GenerationWindow.FileName | Editor/GenerationWindow.cs:49-76 | without auto-naming the name is `_name`; with it the name starts with the kind's name and "_", and for kinds other than Perlin and Worley that is all of it |
| GenerationWindow.IntStringHasNoSeparator | Editor/GenerationWindow.cs:61-63 | a rendered int contains neither 'x' nor '_' |
| GenerationWindow.SplitAtSeparator | Editor/GenerationWindow.cs:61-63 | a head without the separator is recovered by splitting at the first separator, and so is the tail |
| GenerationWindow.SplitField | Editor/GenerationWindow.cs:61-63 | an int followed by 'x' or '_' and a tail is recovered, and so is the tail |
| GenerationWindow.DimStringThen | Editor/GenerationWindow.cs:61-63 | `x` "x" `y` "x" `z` followed by a tail reads as the three fields, each behind its 'x', then the tail |
| GenerationWindow.SplitDims | Editor/GenerationWindow.cs:61-63 | the three components rendered as `x` "x" `y` "x" `z` are recovered from the string |
| GenerationWindow.ShapeSuffixInjective | Editor/GenerationWindow.cs:61-63 | the resolution and the cell count are recovered from "res_cells" |
| GenerationWindow.AutoNameDeterminesShape | Editor/GenerationWindow.cs:49-76 | equal automatic names have the same kind; for Perlin and Worley they also have the same resolution and the same cell count of that kind |
| GenerationWindow.FallbackResolution | Editor/GenerationWindow.cs:354-357 | a width or height that is not positive becomes 128, positive ones are kept, and the depth is untouched |
| GenerationWindow.TargetTexture | Editor/GenerationWindow.cs:362-371 | the render texture has the resolution's width, height and volume depth, and is 3D exactly when the window is in 3D mode |
| GenerationWindow.Generate | Editor/GenerationWindow.cs:393-409 | Voronoi always fails with NotImplemented; a value outside the three kinds fails with OutOfRange; every failure leaves the random state as it was |
| GenerationWindow.Regenerate | Editor/GenerationWindow.cs:390-412 | the switch runs from the snapshot when preserving and from the global state otherwise; the snapshot is kept when preserving or when the switch throws, and otherwise takes the final global state |
| GenerationWindow.PreserveRepeats | Editor/GenerationWindow.cs:390-412 | with preserve on, generation starts from the snapshot and never overwrites it, so regenerating again gives the same outcome and states |
| GenerationWindow.AdvanceContinues | Editor/GenerationWindow.cs:390-412 | with preserve off, generation starts from the current global state; after a success the snapshot is the final state, and after a failure neither state changes |
| GenerationWindow.VoronoiFails | Editor/GenerationWindow.cs:399-401 | selecting Voronoi throws NotImplemented; the global state is left at the start state (the snapshot when preserving) and the snapshot is untouched |
| GenerationWindow.Window.constructor | Editor/GenerationWindow.cs:17-31 | a new window shows RGB, selects Perlin (the default of `SelectedNoise`, Editor/SettingsEditor.cs:10), and has every flag off and a zero resolution |
| GenerationWindow.Window.UpdateVisibleChannels | Editor/GenerationWindow.cs:251-257 | the visible mask becomes `ViewMaskUpdate` of the old mask and the pick |
| GenerationWindow.Window.RegenerateTexture | Editor/GenerationWindow.cs:352-415 | the resolution becomes its fallback, and the outcome, `Random.state` and the snapshot are those of `Regenerate` on the states at entry |
| GenerationWindow.Window.RunSelected | Editor/GenerationWindow.cs:393-409 | the outcome and the final `Random.state` are those of `Generate` on the state at entry |

## Left out

- Noise evaluation (interpolation, octave sums, cell distances, invert) runs in compute shaders, which are not part of this model.
- The GPU calls themselves are not modelled: the shader `Set*` calls, `Dispatch`, `ComputeBuffer` creation and release, `RenderTexture` creation, `CopySlice`, `Copy`, `Graphics.Blit` and `ReadPixels`. `Generate` is modelled as the record of the values it binds. The slices given to `ToTexture3D` stand for the `CopySlice` results.
- `ComputeBuffer` refuses a count that is not positive. Its code is not shown; the model assumes this rule (`BufferRejected`).
- Rehydration from an existing asset (Editor/GenerationWindow.cs:375-388) is treated as opaque: it only overwrites texture contents, and the model has no texture contents.
- Gradient normalisation (`.normalized`) is floating-point work and is left out. `Perlin.Gradients2D` and `Perlin.Gradients3D` are the raw draws before normalisation.
- The distribution of `Random.Range` and `Random.value` is not modelled. The random law is abstract: only determinism and the order of draws are modelled.
- Dispatch.CeilDiv: uses integer ceiling division. For sizes above 2^24, `CeilToInt(n / 8f)` on floats can differ from it.
- GenerationWindow.FileName: a cell count is rendered as a decimal integer. The source converts it to a `Vector3` and formats floats. That agrees only for components of magnitude below 10^7: a float holds every integer only up to 2^24 (16777217 becomes 16777216), and the default float format can switch to exponent notation from 10^7 on. The drawer keeps every int from 1 up, and Worley's cell count goes through no drawer, so larger components do reach the name.
- GenerationWindow.AutoNameDeterminesShape: its cell-count conclusions (`p1 == p2`, `w1 == w2`) hold of the program only for components of magnitude below 10^7, for the reason given under `FileName`. The kind and resolution conclusions hold for all values, since the resolution is rendered as an int.
- The overwrite warning is drawn only when the path is set and `File.Exists(Path + FileName + ".png")` holds (Editor/GenerationWindow.cs:172). The file system is not modelled: `GenerationWindow.OverwriteWarning` is the text shown once that guard passes.
- PerlinDrawer.Sanitize: floats are modelled as exact reals, with no NaN, infinity or rounding. `Mathf.Max(0, NaN)` returns NaN (Editor/PerlinDrawer.cs:21), so `lacunarity >= 0` after sanitising, `PerlinDrawer.SanitizeFixedPoints` and `PerlinDrawer.SanitizeIdempotent` hold for real-valued inputs only.
- GenerationWindow.VoxelIndex: computed without 32-bit wrap-around. Volumes with more than 2^31 voxels, where the C# index overflows, are outside the model.
- `Perlin.Generate` is called from the window with a rotation argument, but the only overload in Runtime/Perlin.cs takes two arguments. The rotation is not modelled.
- The inspector drawer's IntSlider and Slider widgets are modelled as clamps into their range, because they can only return values in that range.
- The following are GUI and persistence code and are not modelled: IMGUI layout, the preview and its material mask, `EditorPrefs` loading and saving (Editor/GenerationWindow.cs:435-463), and PNG/asset export.
- Runtime/Settings.cs, the asset-loading singleton, is not part of this model. The window holds its three parameter sets directly.
- The Voronoi generator is a stub that throws. It appears only as the `NotImplemented` failure of generator selection.
