/** The mip levels of a profile picture texture: layouts, extents and what has been written to each level. */
module MipChain {
  import opened Common

  datatype Layout = Undefined | TransferDst | TransferSrc | ShaderReadOnly

  function Max(a: nat, b: nat): nat { if a < b then b else a }

  /** floor(log2(x)) */
  function Log2(x: nat): nat
    requires x >= 1
  {
    if x == 1 then 0 else 1 + Log2(x / 2)
  }

  /** `s_MipLevels` */
  function MipLevels(width: nat, height: nat): nat
    requires width >= 1 && height >= 1
  {
    Log2(Max(width, height)) + 1
  }

  /** x >> n */
  function Shift(x: nat, n: nat): nat {
    if n == 0 then x else Shift(x, n - 1) / 2
  }

  /** The extent of a mip level along one axis. */
  function Extent(size: nat, level: nat): nat { Max(1, Shift(size, level)) }

  lemma {:induction false} Log2Bounds(x: nat)
    requires x >= 1
    ensures Pow2(Log2(x)) <= x < Pow2(Log2(x) + 1)
  {
    if x > 1 {
      Log2Bounds(x / 2);
    }
  }

  /** The shift is the division by a power of two. */
  lemma {:induction false} ShiftDivides(x: nat, n: nat)
    ensures Pow2(n) * Shift(x, n) <= x < Pow2(n) * (Shift(x, n) + 1)
  {
    if n > 0 {
      ShiftDivides(x, n - 1);
      HalfBounds(Pow2(n - 1), x, Shift(x, n - 1));
    }
  }

  lemma HalfBounds(p: nat, x: nat, q: nat)
    requires p * q <= x < p * (q + 1)
    ensures (2 * p) * (q / 2) <= x < (2 * p) * (q / 2 + 1)
  {
    var h := q / 2;
    DoubleTimes(p, h);
    DoubleTimes(p, h + 1);
    Times(p, 2 * h, q);
    Times(p, q + 1, 2 * (h + 1));
  }

  lemma DoubleTimes(p: nat, a: nat)
    ensures (2 * p) * a == p * (2 * a)
  {
  }

  lemma Times(p: nat, a: nat, b: nat)
    requires a <= b
    ensures p * a <= p * b
  {
    assert p * (b - a) >= 0;
  }

  lemma ExtentHalf(size: nat, level: nat)
    ensures Extent(size, level + 1) == if Extent(size, level) > 1 then Extent(size, level) / 2 else 1
  {
  }

  lemma {:induction false} PowMonotone(m: nat, n: nat)
    requires m <= n
    ensures Pow2(m) <= Pow2(n)
    decreases n
  {
    if m < n {
      PowMonotone(m, n - 1);
    }
  }

  lemma ShrunkToOne(x: nat, n: nat)
    ensures Extent(x, n) == 1 <==> x < Pow2(n + 1)
  {
    ShiftDivides(x, n);
    if Shift(x, n) >= 2 {
      Times(Pow2(n), 2, Shift(x, n));
    } else {
      Times(Pow2(n), Shift(x, n) + 1, 2);
    }
  }

  /** The chain ends exactly where both extents have become one. */
  lemma ChainEndsAtOne(width: nat, height: nat, level: nat)
    requires width >= 1 && height >= 1
    ensures Extent(width, level) == 1 && Extent(height, level) == 1 <==> level >= MipLevels(width, height) - 1
  {
    var big := Max(width, height);
    Log2Bounds(big);
    ShrunkToOne(width, level);
    ShrunkToOne(height, level);
    if level >= Log2(big) {
      PowMonotone(Log2(big) + 1, level + 1);
    } else {
      PowMonotone(level + 1, Log2(big));
    }
  }

  // ----- the image on the device, with the conditions Vulkan puts on its use -----

  function Replaced<T>(s: seq<T>, base: nat, count: nat, x: T): seq<T> {
    seq(|s|, i requires 0 <= i < |s| => if base <= i < base + count then x else s[i])
  }

  class Image {
    const width: nat
    const height: nat
    const levels: nat
    ghost var layouts: seq<Layout>
    ghost var whole: seq<bool>      // the level has been written all over

    ghost predicate Valid()
      reads this
    {
      width >= 1 && height >= 1 && levels >= 1 && |layouts| == levels && |whole| == levels
    }

    constructor (width: nat, height: nat, levels: nat)
      requires width >= 1 && height >= 1 && levels >= 1
      ensures Valid() && this.width == width && this.height == height && this.levels == levels
      ensures layouts == seq(levels, i => Undefined) && whole == seq(levels, i => false)
    {
      this.width, this.height, this.levels := width, height, levels;
      layouts, whole := seq(levels, i => Undefined), seq(levels, i => false);
    }

    /** A barrier may only leave the layout the levels are in; leaving none discards their content. */
    method PipelineBarrier(base: nat, count: nat, from: Layout, to: Layout)
      requires Valid() && base + count <= levels
      requires forall i :: base <= i < base + count ==> layouts[i] == from
      modifies this`layouts, this`whole
      ensures Valid()
      ensures layouts == Replaced(old(layouts), base, count, to)
      ensures whole == if from == Undefined then Replaced(old(whole), base, count, false) else old(whole)
    {
      layouts := Replaced(layouts, base, count, to);
      if from == Undefined {
        whole := Replaced(whole, base, count, false);
      }
    }

    /** Level 0 from the staging buffer. */
    method CopyBuffer(w: nat, h: nat)
      requires Valid() && layouts[0] == TransferDst && w <= width && h <= height
      modifies this`whole
      ensures Valid() && whole == old(whole)[0 := old(whole)[0] || (w == width && h == height)]
    {
      whole := whole[0 := whole[0] || (w == width && h == height)];
    }

    /** Scales one region of a level onto one region of another; both regions must lie inside their levels. */
    method BlitImage(src: nat, dst: nat, srcWidth: nat, srcHeight: nat, dstWidth: nat, dstHeight: nat)
      requires Valid() && src < levels && dst < levels && src != dst
      requires layouts[src] == TransferSrc && layouts[dst] == TransferDst
      requires 1 <= srcWidth <= Extent(width, src) && 1 <= srcHeight <= Extent(height, src)
      requires 1 <= dstWidth <= Extent(width, dst) && 1 <= dstHeight <= Extent(height, dst)
      modifies this`whole
      ensures Valid()
      ensures whole == old(whole)[dst := old(whole)[dst] ||
        (old(whole)[src] && srcWidth == Extent(width, src) && srcHeight == Extent(height, src)
         && dstWidth == Extent(width, dst) && dstHeight == Extent(height, dst))]
    {
      whole := whole[dst := whole[dst] ||
        (whole[src] && srcWidth == Extent(width, src) && srcHeight == Extent(height, src)
         && dstWidth == Extent(width, dst) && dstHeight == Extent(height, dst))];
    }
  }

  /**
   * Every level is blitted from the one before, and all end up readable by the shader and completely written.
   * `linear` is the format's support for linear filtering; false comes back for the exception without it.
   */
  method GenerateMipMaps(image: Image, linear: bool) returns (ok: bool)
    requires image.Valid() && image.levels == MipLevels(image.width, image.height)
    requires forall i :: 0 <= i < image.levels ==> image.layouts[i] == TransferDst
    requires image.whole[0]
    modifies image
    ensures image.Valid() && ok == linear
    ensures linear ==> forall i :: 0 <= i < image.levels ==> image.layouts[i] == ShaderReadOnly && image.whole[i]
    ensures !linear ==> image.layouts == old(image.layouts) && image.whole == old(image.whole)
  {
    hide Extent, MipLevels;
    if !linear {
      return false;
    }
    var mipWidth, mipHeight := image.width, image.height;
    FirstExtent(image.width);
    FirstExtent(image.height);
    for i := 1 to image.levels
      invariant image.Valid()
      invariant mipWidth == Extent(image.width, i - 1) && mipHeight == Extent(image.height, i - 1)
      invariant forall k :: 0 <= k < i - 1 ==> image.layouts[k] == ShaderReadOnly
      invariant forall k :: i - 1 <= k < image.levels ==> image.layouts[k] == TransferDst
      invariant forall k :: 0 <= k < i ==> image.whole[k]
    {
      ExtentHalf(image.width, i - 1);
      ExtentHalf(image.height, i - 1);
      ExtentPositive(image.width, i - 1);
      ExtentPositive(image.height, i - 1);
      image.PipelineBarrier(i - 1, 1, TransferDst, TransferSrc);
      image.BlitImage(i - 1, i, mipWidth, mipHeight,
                      if mipWidth > 1 then mipWidth / 2 else 1, if mipHeight > 1 then mipHeight / 2 else 1);
      image.PipelineBarrier(i - 1, 1, TransferSrc, ShaderReadOnly);
      if mipWidth > 1 {
        mipWidth := mipWidth / 2;
      }
      if mipHeight > 1 {
        mipHeight := mipHeight / 2;
      }
    }
    image.PipelineBarrier(image.levels - 1, 1, TransferDst, ShaderReadOnly);
    return true;
  }

  lemma FirstExtent(size: nat)
    requires size >= 1
    ensures Extent(size, 0) == size
  {
  }

  lemma ExtentPositive(size: nat, level: nat)
    ensures Extent(size, level) >= 1
  {
  }

  /** The texture of a picture, from an image without layout to one whose every level can be sampled. */
  method CreateProfilePictureImage(width: nat, height: nat, linear: bool) returns (image: Image, ok: bool)
    requires width >= 1 && height >= 1
    ensures fresh(image) && image.Valid() && image.width == width && image.height == height && ok == linear
    ensures image.levels == MipLevels(width, height)
    ensures ok ==> forall i :: 0 <= i < image.levels ==> image.layouts[i] == ShaderReadOnly && image.whole[i]
  {
    hide Extent;
    image := new Image(width, height, MipLevels(width, height));
    image.PipelineBarrier(0, image.levels, Undefined, TransferDst);
    image.CopyBuffer(width, height);
    ok := GenerateMipMaps(image, linear);
  }
}
