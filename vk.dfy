/** The vocabulary of the graphics API that the resource state tracker records:
    opaque handles, flag masks, image layouts and the barrier descriptors it
    builds. Constants are given for the values the tracker names, and for the
    transfer and shader-read values of the upload-then-sample scenario. */
module Vk {

  newtype u32 = x: int | 0 <= x < 0x1_0000_0000
  newtype u64 = x: int | 0 <= x < 0x1_0000_0000_0000_0000

  /** Opaque native handles. Two handles denote the same object exactly when
      their 64-bit values are equal. */
  datatype Image = Image(handle: u64)
  datatype Buffer = Buffer(handle: u64)
  datatype CommandBuffer = CommandBuffer(handle: u64)

  /** A value-initialised `vk::CommandBuffer` is the null handle. */
  const NullCommandBuffer: CommandBuffer := CommandBuffer(0)

  /** A flag mask is the set of the positions of its set bits: the empty set is
      the empty mask `{}` and bitwise or is set union. */
  newtype Bit64 = b: int | 0 <= b < 64
  newtype Bit32 = b: int | 0 <= b < 32

  type PipelineStageFlags2 = set<Bit64>
  type AccessFlags2 = set<Bit64>
  type ImageAspectFlags = set<Bit32>
  type DependencyFlags = set<Bit32>

  // Bit positions of the pipeline stages the tracker names (VkPipelineStageFlagBits2).
  const StageEarlyFragmentTests: Bit64 := 8      // 0x100
  const StageLateFragmentTests: Bit64 := 9       // 0x200
  const StageColorAttachmentOutput: Bit64 := 10  // 0x400
  const StageTransfer: Bit64 := 12               // 0x1000, all transfer commands
  const StageFragmentShader: Bit64 := 7          // 0x80
  const StageResolve: Bit64 := 33                // 0x2_0000_0000

  // Bit positions of the accesses the tracker names (VkAccessFlagBits2).
  const AccessShaderRead: Bit64 := 5                // 0x20
  const AccessColorAttachmentWrite: Bit64 := 8      // 0x100
  const AccessDepthStencilAttachmentWrite: Bit64 := 10  // 0x400
  const AccessTransferWrite: Bit64 := 12            // 0x1000

  // Bit positions of the image aspects (VkImageAspectFlagBits).
  const AspectColor: Bit32 := 0

  // VkDependencyFlagBits
  const DependencyByRegion: Bit32 := 0

  /** VkImageLayout is a 32-bit enumeration. */
  newtype ImageLayout = x: int | -0x8000_0000 <= x < 0x8000_0000

  const LayoutUndefined: ImageLayout := 0
  const LayoutGeneral: ImageLayout := 1
  const LayoutColorAttachmentOptimal: ImageLayout := 2
  const LayoutDepthStencilAttachmentOptimal: ImageLayout := 3
  const LayoutShaderReadOnlyOptimal: ImageLayout := 5
  const LayoutTransferDstOptimal: ImageLayout := 7

  /** VK_QUEUE_FAMILY_IGNORED, VK_REMAINING_MIP_LEVELS and VK_REMAINING_ARRAY_LAYERS are all ~0U. */
  const QueueFamilyIgnored: u32 := 0xFFFF_FFFF
  const RemainingMipLevels: u32 := 0xFFFF_FFFF
  const RemainingArrayLayers: u32 := 0xFFFF_FFFF

  /** VK_WHOLE_SIZE is ~0ULL. */
  const WholeSize: u64 := 0xFFFF_FFFF_FFFF_FFFF

  datatype ImageSubresourceRange = ImageSubresourceRange(
    aspectMask: ImageAspectFlags,
    baseMipLevel: u32,
    levelCount: u32,
    baseArrayLayer: u32,
    layerCount: u32)

  datatype ImageMemoryBarrier2 = ImageMemoryBarrier2(
    srcStageMask: PipelineStageFlags2,
    srcAccessMask: AccessFlags2,
    dstStageMask: PipelineStageFlags2,
    dstAccessMask: AccessFlags2,
    oldLayout: ImageLayout,
    newLayout: ImageLayout,
    srcQueueFamilyIndex: u32,
    dstQueueFamilyIndex: u32,
    image: Image,
    subresourceRange: ImageSubresourceRange)

  datatype BufferMemoryBarrier2 = BufferMemoryBarrier2(
    srcStageMask: PipelineStageFlags2,
    srcAccessMask: AccessFlags2,
    dstStageMask: PipelineStageFlags2,
    dstAccessMask: AccessFlags2,
    srcQueueFamilyIndex: u32,
    dstQueueFamilyIndex: u32,
    buffer: Buffer,
    offset: u64,
    size: u64)

  /** The descriptor handed to one pipeline-barrier command. A barrier array
      is given with its count; an absent array (a null pointer) is the empty
      sequence. */
  datatype DependencyInfo = DependencyInfo(
    dependencyFlags: DependencyFlags,
    bufferMemoryBarrierCount: u32,
    bufferMemoryBarriers: seq<BufferMemoryBarrier2>,
    imageMemoryBarrierCount: u32,
    imageMemoryBarriers: seq<ImageMemoryBarrier2>)

  /** `static_cast<uint32_t>` of a container size keeps the low 32 bits. */
  function SizeAsU32(n: nat): u32
  {
    (n % 0x1_0000_0000) as u32
  }
}
