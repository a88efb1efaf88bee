/**
 * The parts of the Vulkan 1.0 interface the renderer reads: enumerant
 * values as the Vulkan headers define them, and the structures returned by
 * the surface, queue-family and memory queries.  Handles are opaque numbers;
 * 0 is VK_NULL_HANDLE.
 */
module Vk {

  /** A value of a C `uint32_t`. */
  type u32 = x: int | 0 <= x < 0x1_0000_0000

  const UINT32_MAX: u32 := 0xFFFF_FFFF

  /** `static_cast<uint32_t>` of a C `int`: wraps modulo 2^32. */
  function ToU32(x: int): (r: u32)
    ensures 0 <= x <= UINT32_MAX ==> r == x
    ensures x < 0 && -0x1_0000_0000 <= x ==> r == x + 0x1_0000_0000
  {
    x % 0x1_0000_0000
  }

  type Handle = nat

  const NULL_HANDLE: Handle := 0

  // VkResult, reduced to the cases the renderer distinguishes: success,
  // VK_SUBOPTIMAL_KHR, VK_ERROR_OUT_OF_DATE_KHR, and any other error (for a
  // present, one that does not queue the presentation, such as a lost device).
  datatype VkResult = VkSuccess | VkSuboptimal | VkErrorOutOfDate | VkError

  // VkFormat
  const FORMAT_UNDEFINED: nat := 0
  const FORMAT_R8G8B8A8_UNORM: nat := 37
  const FORMAT_B8G8R8A8_UNORM: nat := 44

  // VkColorSpaceKHR
  const COLOR_SPACE_SRGB_NONLINEAR: nat := 0

  // VkPresentModeKHR
  const PRESENT_MODE_IMMEDIATE: nat := 0
  const PRESENT_MODE_MAILBOX: nat := 1
  const PRESENT_MODE_FIFO: nat := 2
  const PRESENT_MODE_FIFO_RELAXED: nat := 3

  // VkSharingMode
  datatype SharingMode = Exclusive | Concurrent

  // VkQueueFlagBits
  const QUEUE_GRAPHICS_BIT: bv32 := 0x1

  // VkMemoryPropertyFlagBits
  const MEMORY_PROPERTY_DEVICE_LOCAL_BIT: bv32 := 0x1
  const MEMORY_PROPERTY_HOST_VISIBLE_BIT: bv32 := 0x2
  const MEMORY_PROPERTY_HOST_COHERENT_BIT: bv32 := 0x4

  /** VK_MAX_MEMORY_TYPES: the size of the memory-type array of a device. */
  const MAX_MEMORY_TYPES: nat := 32

  // VkImageLayout
  const IMAGE_LAYOUT_UNDEFINED: nat := 0
  const IMAGE_LAYOUT_SHADER_READ_ONLY_OPTIMAL: nat := 5
  const IMAGE_LAYOUT_TRANSFER_DST_OPTIMAL: nat := 7

  // VkAccessFlagBits
  const ACCESS_NONE: bv32 := 0
  const ACCESS_SHADER_READ_BIT: bv32 := 0x20
  const ACCESS_TRANSFER_WRITE_BIT: bv32 := 0x1000

  // VkPipelineStageFlagBits
  const PIPELINE_STAGE_TOP_OF_PIPE_BIT: bv32 := 0x1
  const PIPELINE_STAGE_VERTEX_SHADER_BIT: bv32 := 0x8
  const PIPELINE_STAGE_FRAGMENT_SHADER_BIT: bv32 := 0x80
  const PIPELINE_STAGE_COLOR_ATTACHMENT_OUTPUT_BIT: bv32 := 0x400
  const PIPELINE_STAGE_COMPUTE_SHADER_BIT: bv32 := 0x800
  const PIPELINE_STAGE_TRANSFER_BIT: bv32 := 0x1000

  // VkImageUsageFlagBits
  const IMAGE_USAGE_COLOR_ATTACHMENT_BIT: bv32 := 0x10

  // VkCompositeAlphaFlagBitsKHR
  const COMPOSITE_ALPHA_OPAQUE_BIT: bv32 := 0x1

  // VkImageAspectFlagBits
  const IMAGE_ASPECT_COLOR_BIT: bv32 := 0x1

  /** VK_QUEUE_FAMILY_IGNORED, i.e. (~0U). */
  const QUEUE_FAMILY_IGNORED: u32 := 0xFFFF_FFFF

  datatype IndexType = IndexTypeUint16 | IndexTypeUint32

  datatype Extent2D = Extent2D(width: u32, height: u32)

  datatype SurfaceFormat = SurfaceFormat(format: nat, colorSpace: nat)

  /** VkSurfaceCapabilitiesKHR without the array-layer, supported-transform and usage fields. */
  datatype SurfaceCapabilities = SurfaceCapabilities(
    minImageCount: u32,
    maxImageCount: u32,           // 0: no limit
    currentExtent: Extent2D,      // width UINT32_MAX: the surface size follows the swapchain
    minImageExtent: Extent2D,
    maxImageExtent: Extent2D,
    currentTransform: bv32)

  /**
   * VkQueueFamilyProperties of one family, together with the answer of
   * vkGetPhysicalDeviceSurfaceSupportKHR for that family and the surface.
   */
  datatype QueueFamily = QueueFamily(queueCount: u32, queueFlags: bv32, presentationSupport: bool)

  /** What vkGetBufferMemoryRequirements reports. */
  datatype MemoryRequirements = MemoryRequirements(size: nat, alignment: nat, memoryTypeBits: bv32)
}
