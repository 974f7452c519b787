/** The parts of a compute dispatch that both generators share: the target
    texture's shape, the kernel chosen for it and the work-group counts. */
module Dispatch {
  import opened Vectors

  /** Threads per work group along each axis; the group count divides by it. */
  const GroupSize: int := 8

  datatype Dimension = Tex2D | Tex3D

  /** The shape of a `RenderTexture`. */
  datatype Texture = Texture(width: int, height: int, volumeDepth: int, dimension: Dimension)

  /** The kernel entry point and the suffix of every buffer and texture name bound to it. */
  datatype KernelBinding = KernelBinding(index: int, suffix: string)

  /** A 3D texture selects kernel 1 and the "_3d" names, anything else kernel 0 and "_2d". */
  function Kernel(t: Texture): (k: KernelBinding)
    ensures k.index == 0 || k.index == 1
    ensures k.index == 1 <==> t.dimension == Tex3D
    ensures k.suffix == if k.index == 1 then "_3d" else "_2d"
  {
    var is3D := t.dimension == Tex3D;
    KernelBinding(if is3D then 1 else 0, if is3D then "_3d" else "_2d")
  }

  /** `Mathf.CeilToInt(n / 8f)` on an integer `n`: the ceiling of n / 8. */
  function CeilDiv(n: int): (q: int)
    ensures GroupSize * (q - 1) < n <= GroupSize * q
  {
    (n + GroupSize - 1) / GroupSize
  }

  /** `Mathf.Max(Mathf.CeilToInt(n / 8f), 1)`: at least one group, and enough
      groups to cover `n` texels without a spare one. */
  function GroupCount(n: int): (g: int)
    ensures g >= 1
    ensures GroupSize * g >= n
    ensures n >= 1 ==> GroupSize * (g - 1) < n
  {
    var q := CeilDiv(n);
    if q > 1 then q else 1
  }

  /** No smaller positive group count covers `n` texels. */
  lemma GroupCountMinimal(n: int, g: int)
    requires g >= 1 && GroupSize * g >= n
    ensures g >= GroupCount(n)
  {
  }

  /** Texel `v` of an axis of `n` texels falls in a group that is dispatched. */
  lemma TexelCovered(n: int, v: int)
    requires 0 <= v < n
    ensures 0 <= v / GroupSize < GroupCount(n)
  {
  }

  /** The groups dispatched along all three axes. */
  predicate Covers(groups: Vec3i, t: Texture) {
    && groups.x >= 1 && GroupSize * groups.x >= t.width
    && groups.y >= 1 && GroupSize * groups.y >= t.height
    && groups.z >= 1 && GroupSize * groups.z >= t.volumeDepth
  }

  /** `GetThreadGroups(texture)`: the group count of each axis, width, height, depth. */
  function ThreadGroups(t: Texture): (g: Vec3i)
    ensures Covers(g, t)
    ensures t.width >= 1 ==> GroupSize * (g.x - 1) < t.width
    ensures t.height >= 1 ==> GroupSize * (g.y - 1) < t.height
    ensures t.volumeDepth >= 1 ==> GroupSize * (g.z - 1) < t.volumeDepth
  {
    Vec3i(GroupCount(t.width), GroupCount(t.height), GroupCount(t.volumeDepth))
  }
}
