/**
 * One-time transfer operations: buffer-to-buffer copy, buffer-to-image copy
 * and the image layout transitions around them.  Each is a single command
 * recorded into its own one-time command buffer; the model gives the command
 * and the effect the Vulkan specification assigns to it.
 */
module Transfer {
  import opened Vk

  /** VkBufferCopy. */
  datatype BufferCopy = BufferCopy(srcOffset: nat, dstOffset: nat, size: nat)

  /** VkImageSubresourceLayers. */
  datatype SubresourceLayers = SubresourceLayers(aspectMask: bv32, mipLevel: nat, baseArrayLayer: nat, layerCount: nat)

  /** VkImageSubresourceRange. */
  datatype SubresourceRange = SubresourceRange(aspectMask: bv32, baseMipLevel: nat, levelCount: nat, baseArrayLayer: nat, layerCount: nat)

  datatype Offset3D = Offset3D(x: int, y: int, z: int)
  datatype Extent3D = Extent3D(width: u32, height: u32, depth: u32)

  /** VkBufferImageCopy. */
  datatype BufferImageCopy = BufferImageCopy(
    bufferOffset: nat,
    bufferRowLength: u32,
    bufferImageHeight: u32,
    imageSubresource: SubresourceLayers,
    imageOffset: Offset3D,
    imageExtent: Extent3D)

  /** VkImageMemoryBarrier. */
  datatype ImageMemoryBarrier = ImageMemoryBarrier(
    srcAccessMask: bv32,
    dstAccessMask: bv32,
    oldLayout: nat,
    newLayout: nat,
    srcQueueFamilyIndex: u32,
    dstQueueFamilyIndex: u32,
    image: Handle,
    subresourceRange: SubresourceRange)

  /** The commands a one-time transfer command buffer holds. */
  datatype TransferCommand =
    | CmdCopyBuffer(srcBuffer: Handle, dstBuffer: Handle, regions: seq<BufferCopy>)
    | CmdCopyBufferToImage(srcBuffer: Handle, dstImage: Handle, dstImageLayout: nat, imageRegions: seq<BufferImageCopy>)
    | CmdPipelineBarrier(srcStageMask: bv32, dstStageMask: bv32, imageBarriers: seq<ImageMemoryBarrier>)

  // ---------------------------------------------------------------------
  // copyBuffer

  /** The command copyBuffer records: one region covering the first `bufferSize` bytes. */
  function CopyBufferCommand(srcBuffer: Handle, dstBuffer: Handle, bufferSize: nat): TransferCommand {
    CmdCopyBuffer(srcBuffer, dstBuffer, [BufferCopy(0, 0, bufferSize)])
  }

  /** Valid usage of vkCmdCopyBuffer: the region lies inside both buffers. */
  predicate RegionFits(c: BufferCopy, srcSize: nat, dstSize: nat) {
    c.srcOffset + c.size <= srcSize && c.dstOffset + c.size <= dstSize
  }

  /**
   * The contents of the destination buffer after one region is copied:
   * bytes inside the destination range come from the source, the others
   * are untouched.
   */
  function ApplyRegion(src: seq<bv8>, dst: seq<bv8>, c: BufferCopy): (r: seq<bv8>)
    requires RegionFits(c, |src|, |dst|)
    ensures |r| == |dst|
    ensures forall i :: 0 <= i < c.dstOffset ==> r[i] == dst[i]
    ensures forall i :: c.dstOffset <= i < c.dstOffset + c.size ==> r[i] == src[c.srcOffset + (i - c.dstOffset)]
    ensures forall i :: c.dstOffset + c.size <= i < |dst| ==> r[i] == dst[i]
  {
    dst[..c.dstOffset] + src[c.srcOffset..c.srcOffset + c.size] + dst[c.dstOffset + c.size..]
  }

  /** The destination after every region of a vkCmdCopyBuffer is applied in order. */
  function ApplyRegions(src: seq<bv8>, dst: seq<bv8>, regions: seq<BufferCopy>): (r: seq<bv8>)
    requires forall k :: 0 <= k < |regions| ==> RegionFits(regions[k], |src|, |dst|)
    ensures |r| == |dst|
    decreases |regions|
  {
    if regions == [] then dst
    else ApplyRegions(src, ApplyRegion(src, dst, regions[0]), regions[1..])
  }

  /**
   * copyBuffer copies the first `bufferSize` bytes of the source into the
   * start of the destination and leaves the rest of the destination alone.
   */
  lemma CopyBufferCopiesPrefix(src: seq<bv8>, dst: seq<bv8>, srcBuffer: Handle, dstBuffer: Handle, bufferSize: nat)
    requires bufferSize <= |src| && bufferSize <= |dst|
    ensures var cmd := CopyBufferCommand(srcBuffer, dstBuffer, bufferSize);
            cmd.srcBuffer == srcBuffer && cmd.dstBuffer == dstBuffer &&
            var r := ApplyRegions(src, dst, cmd.regions);
            r[..bufferSize] == src[..bufferSize] && r[bufferSize..] == dst[bufferSize..]
  {
    var cmd := CopyBufferCommand(srcBuffer, dstBuffer, bufferSize);
    var once := ApplyRegion(src, dst, cmd.regions[0]);
    assert cmd.regions[1..] == [];
    assert ApplyRegions(src, dst, cmd.regions) == once;
    assert once[..bufferSize] == src[..bufferSize];
    assert once[bufferSize..] == dst[bufferSize..];
  }

  /**
   * The staged upload of a mesh: copying a staging buffer into a
   * device-local buffer of the same size leaves an exact copy of the
   * staged bytes.
   */
  lemma StagedUploadRoundTrip(staged: seq<bv8>, deviceLocal: seq<bv8>, srcBuffer: Handle, dstBuffer: Handle)
    requires |deviceLocal| == |staged|
    ensures ApplyRegions(staged, deviceLocal, CopyBufferCommand(srcBuffer, dstBuffer, |staged|).regions) == staged
  {
    CopyBufferCopiesPrefix(staged, deviceLocal, srcBuffer, dstBuffer, |staged|);
    var r := ApplyRegions(staged, deviceLocal, CopyBufferCommand(srcBuffer, dstBuffer, |staged|).regions);
    assert r == r[..|staged|];
    assert staged == staged[..|staged|];
  }

  // ---------------------------------------------------------------------
  // copyImageBuffer

  /** The region copyImageBuffer uses for a `width` x `height` image. */
  function CopyImageRegion(width: u32, height: u32): BufferImageCopy {
    BufferImageCopy(
      0, 0, 0,
      SubresourceLayers(IMAGE_ASPECT_COLOR_BIT, 0, 0, 1),
      Offset3D(0, 0, 0),
      Extent3D(width, height, 1))
  }

  /** The command copyImageBuffer records; the image must be in TRANSFER_DST_OPTIMAL. */
  function CopyImageCommand(srcBuffer: Handle, dstImage: Handle, width: u32, height: u32): TransferCommand {
    CmdCopyBufferToImage(srcBuffer, dstImage, IMAGE_LAYOUT_TRANSFER_DST_OPTIMAL, [CopyImageRegion(width, height)])
  }

  /** The texel (x, y, z) of the image lies in the region's image box. */
  predicate TexelInRegion(region: BufferImageCopy, x: int, y: int, z: int) {
    region.imageOffset.x <= x < region.imageOffset.x + region.imageExtent.width &&
    region.imageOffset.y <= y < region.imageOffset.y + region.imageExtent.height &&
    region.imageOffset.z <= z < region.imageOffset.z + region.imageExtent.depth
  }

  /** The region writes the given aspect, mip level and array layer. */
  predicate WritesSubresource(region: BufferImageCopy, aspect: bv32, mipLevel: nat, layer: nat) {
    var s := region.imageSubresource;
    aspect == s.aspectMask && mipLevel == s.mipLevel && s.baseArrayLayer <= layer < s.baseArrayLayer + s.layerCount
  }

  /**
   * Buffer address of the texel at (x, y, z) relative to the region's
   * image offset, as the Vulkan specification defines it for
   * vkCmdCopyBufferToImage: a row length or image height of zero means the
   * buffer is tightly packed according to the image extent.
   */
  function TexelAddress(region: BufferImageCopy, x: nat, y: nat, z: nat, texelSize: nat): nat {
    var rowLength := if region.bufferRowLength == 0 then region.imageExtent.width else region.bufferRowLength;
    var imageHeight := if region.bufferImageHeight == 0 then region.imageExtent.height else region.bufferImageHeight;
    region.bufferOffset + ((z * imageHeight + y) * rowLength + x) * texelSize
  }

  /**
   * copyImageBuffer's region covers exactly the whole `width` x `height`
   * single-slice image, and writes colour mip level 0 of layer 0 only.
   */
  lemma ImageRegionCoversImage(width: u32, height: u32, x: int, y: int, z: int, aspect: bv32, mipLevel: nat, layer: nat)
    ensures TexelInRegion(CopyImageRegion(width, height), x, y, z) <==> 0 <= x < width && 0 <= y < height && z == 0
    ensures WritesSubresource(CopyImageRegion(width, height), aspect, mipLevel, layer) <==>
            aspect == IMAGE_ASPECT_COLOR_BIT && mipLevel == 0 && layer == 0
  {
  }

  lemma RowMajorBound(width: nat, height: nat, x: nat, y: nat)
    requires x < width && y < height
    ensures y * width + x + 1 <= width * height
  {
    assert y * width + x + 1 <= y * width + width == (y + 1) * width;
    assert (y + 1) * width <= height * width by {
      assert y + 1 <= height;
    }
  }

  lemma RowMajorOrdered(width: nat, x1: nat, y1: nat, x2: nat, y2: nat)
    requires x1 < width && y1 < y2
    ensures y1 * width + x1 < y2 * width + x2
  {
    assert y1 * width + x1 < (y1 + 1) * width;
    assert (y1 + 1) * width <= y2 * width by {
      assert y1 + 1 <= y2;
    }
  }

  lemma RowMajorInjective(width: nat, x1: nat, y1: nat, x2: nat, y2: nat)
    requires x1 < width && x2 < width
    requires y1 * width + x1 == y2 * width + x2
    ensures x1 == x2 && y1 == y2
  {
    if y1 < y2 {
      RowMajorOrdered(width, x1, y1, x2, y2);
    } else if y2 < y1 {
      RowMajorOrdered(width, x2, y2, x1, y1);
    }
  }

  /**
   * With copyImageBuffer's region the staging buffer is read tightly
   * packed in row-major order: texel (x, y) of a `width` x `height` image
   * starts at byte (y * width + x) * texelSize and lies inside the first
   * width * height * texelSize bytes.
   */
  lemma ImageCopyTightlyPacked(width: u32, height: u32, texelSize: nat, x: nat, y: nat)
    requires x < width && y < height
    ensures var a := TexelAddress(CopyImageRegion(width, height), x, y, 0, texelSize);
            a == (y * width + x) * texelSize && a + texelSize <= width * height * texelSize
  {
    var region := CopyImageRegion(width, height);
    assert TexelAddress(region, x, y, 0, texelSize) == (y * width + x) * texelSize;
    RowMajorBound(width, height, x, y);
    assert (y * width + x) * texelSize + texelSize == (y * width + x + 1) * texelSize;
    assert (y * width + x + 1) * texelSize <= width * height * texelSize by {
      var m := y * width + x + 1;
      assert m <= width * height;
      assert m * texelSize <= (width * height) * texelSize;
    }
  }

  lemma ScaleStrictlyMonotone(a: nat, b: nat, t: nat)
    ensures a < b && t > 0 ==> a * t < b * t
  {
    if a < b && t > 0 {
      var d := b - a;
      assert b * t == a * t + d * t;
      assert d * t >= t;
    }
  }

  /** Distinct texels of the image are read from distinct buffer addresses. */
  lemma ImageCopyInjective(width: u32, height: u32, texelSize: nat, x1: nat, y1: nat, x2: nat, y2: nat)
    requires texelSize > 0
    requires x1 < width && y1 < height && x2 < width && y2 < height
    requires TexelAddress(CopyImageRegion(width, height), x1, y1, 0, texelSize) ==
             TexelAddress(CopyImageRegion(width, height), x2, y2, 0, texelSize)
    ensures x1 == x2 && y1 == y2
  {
    var region := CopyImageRegion(width, height);
    var m1 := y1 * width + x1;
    var m2 := y2 * width + x2;
    assert TexelAddress(region, x1, y1, 0, texelSize) == m1 * texelSize;
    assert TexelAddress(region, x2, y2, 0, texelSize) == m2 * texelSize;
    ScaleStrictlyMonotone(m1, m2, texelSize);
    ScaleStrictlyMonotone(m2, m1, texelSize);
    RowMajorInjective(width, x1, y1, x2, y2);
  }

  // ---------------------------------------------------------------------
  // transitionImageLayout

  /** The two layout transitions the renderer knows how to record. */
  predicate SupportedTransition(oldLayout: nat, newLayout: nat) {
    (oldLayout == IMAGE_LAYOUT_UNDEFINED && newLayout == IMAGE_LAYOUT_TRANSFER_DST_OPTIMAL) ||
    (oldLayout == IMAGE_LAYOUT_TRANSFER_DST_OPTIMAL && newLayout == IMAGE_LAYOUT_SHADER_READ_ONLY_OPTIMAL)
  }

  /**
   * The supported-access table of the Vulkan Synchronization chapter,
   * restricted to the access types this renderer uses: an empty mask is
   * valid with every stage, transfer writes happen in the transfer stage and
   * shader reads in a shader stage.
   */
  predicate AccessAllowedAt(access: bv32, stage: bv32) {
    access == ACCESS_NONE ||
    (access == ACCESS_TRANSFER_WRITE_BIT && stage == PIPELINE_STAGE_TRANSFER_BIT) ||
    (access == ACCESS_SHADER_READ_BIT &&
      (stage == PIPELINE_STAGE_VERTEX_SHADER_BIT || stage == PIPELINE_STAGE_FRAGMENT_SHADER_BIT ||
       stage == PIPELINE_STAGE_COMPUTE_SHADER_BIT))
  }

  /**
   * The pipeline barrier transitionImageLayout records.  Other layout pairs
   * would leave the stage masks uninitialised, so they are excluded.
   */
  function TransitionImageLayout(image: Handle, oldLayout: nat, newLayout: nat): (r: TransferCommand)
    requires SupportedTransition(oldLayout, newLayout)
    ensures r.CmdPipelineBarrier? && |r.imageBarriers| == 1
    ensures var b := r.imageBarriers[0];
            b.oldLayout == oldLayout && b.newLayout == newLayout && b.image == image &&
            b.srcQueueFamilyIndex == QUEUE_FAMILY_IGNORED && b.dstQueueFamilyIndex == QUEUE_FAMILY_IGNORED &&
            b.subresourceRange == SubresourceRange(IMAGE_ASPECT_COLOR_BIT, 0, 1, 0, 1)
    ensures AccessAllowedAt(r.imageBarriers[0].srcAccessMask, r.srcStageMask)
    ensures AccessAllowedAt(r.imageBarriers[0].dstAccessMask, r.dstStageMask)
    ensures oldLayout == IMAGE_LAYOUT_UNDEFINED ==>
      r.imageBarriers[0].srcAccessMask == ACCESS_NONE && r.imageBarriers[0].dstAccessMask == ACCESS_TRANSFER_WRITE_BIT &&
      r.srcStageMask == PIPELINE_STAGE_TOP_OF_PIPE_BIT && r.dstStageMask == PIPELINE_STAGE_TRANSFER_BIT
    ensures oldLayout == IMAGE_LAYOUT_TRANSFER_DST_OPTIMAL ==>
      r.imageBarriers[0].srcAccessMask == ACCESS_TRANSFER_WRITE_BIT && r.imageBarriers[0].dstAccessMask == ACCESS_SHADER_READ_BIT &&
      r.srcStageMask == PIPELINE_STAGE_TRANSFER_BIT && r.dstStageMask == PIPELINE_STAGE_FRAGMENT_SHADER_BIT
  {
    var (srcAccess, dstAccess, srcStage, dstStage) :=
      if oldLayout == IMAGE_LAYOUT_UNDEFINED then
        (ACCESS_NONE, ACCESS_TRANSFER_WRITE_BIT, PIPELINE_STAGE_TOP_OF_PIPE_BIT, PIPELINE_STAGE_TRANSFER_BIT)
      else
        (ACCESS_TRANSFER_WRITE_BIT, ACCESS_SHADER_READ_BIT, PIPELINE_STAGE_TRANSFER_BIT, PIPELINE_STAGE_FRAGMENT_SHADER_BIT);
    var barrier := ImageMemoryBarrier(
      srcAccess, dstAccess, oldLayout, newLayout,
      QUEUE_FAMILY_IGNORED, QUEUE_FAMILY_IGNORED, image,
      SubresourceRange(IMAGE_ASPECT_COLOR_BIT, 0, 1, 0, 1));
    CmdPipelineBarrier(srcStage, dstStage, [barrier])
  }

  /**
   * The three helpers composed as a texture upload would use them:
   * transition to a transfer destination, copy from a staging buffer,
   * transition to shader-readable.  The composition is consistent: the copy finds the image in the layout the first barrier
   * produced, the second barrier starts from that layout, and its source
   * scope (transfer writes in the transfer stage) is exactly what the copy
   * does, so the copy's writes are made visible to fragment-shader reads.
   */
  lemma TextureUploadChain(image: Handle, staging: Handle, width: u32, height: u32)
    ensures var toDst := TransitionImageLayout(image, IMAGE_LAYOUT_UNDEFINED, IMAGE_LAYOUT_TRANSFER_DST_OPTIMAL);
            var copy := CopyImageCommand(staging, image, width, height);
            var toRead := TransitionImageLayout(image, IMAGE_LAYOUT_TRANSFER_DST_OPTIMAL, IMAGE_LAYOUT_SHADER_READ_ONLY_OPTIMAL);
            toDst.imageBarriers[0].newLayout == copy.dstImageLayout == toRead.imageBarriers[0].oldLayout &&
            toDst.dstStageMask == toRead.srcStageMask == PIPELINE_STAGE_TRANSFER_BIT &&
            toDst.imageBarriers[0].dstAccessMask == toRead.imageBarriers[0].srcAccessMask == ACCESS_TRANSFER_WRITE_BIT &&
            toRead.imageBarriers[0].newLayout == IMAGE_LAYOUT_SHADER_READ_ONLY_OPTIMAL
  {
  }
}
