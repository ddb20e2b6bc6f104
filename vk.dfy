/** Vulkan enumerants, flag bits, opaque handles and the renderer's compile-time
    constants (qz/meta/constants.hpp). Enumerants keep their numeric values from
    the Vulkan 1.2 headers, so that a value the renderer does not name is still a
    value of the type. */
module Vk {
  /** A 32-bit flag mask (VkFlags and the *FlagBits enumerations). */
  type Flags = bv32

  /** An opaque Vulkan or VMA object; 0 stands for VK_NULL_HANDLE. */
  type Handle = nat
  const NullHandle: Handle := 0

  /** The largest std::uint32_t, written `-1u` and `~0u` in the source. */
  const Uint32Max: nat := 0xFFFF_FFFF
  const Uint32Modulus: nat := 0x1_0000_0000

  /** meta::in_flight: the number of frame slots. */
  const InFlight: nat := 2
  /** meta::external_subpass (VK_SUBPASS_EXTERNAL). */
  const ExternalSubpass: nat := Uint32Max
  /** meta::family_ignored (VK_QUEUE_FAMILY_IGNORED). */
  const FamilyIgnored: nat := Uint32Max

  /** VkExtent2D. */
  datatype Extent2D = Extent2D(width: nat, height: nat)

  // VkFormat
  type Format = nat
  const FormatUndefined: Format := 0
  const FormatB8G8R8A8Srgb: Format := 50
  const FormatR32Sfloat: Format := 100
  const FormatR32G32Sfloat: Format := 103
  const FormatR32G32B32Sfloat: Format := 106
  const FormatR32G32B32A32Sfloat: Format := 109
  const FormatD16Unorm: Format := 124
  const FormatD32Sfloat: Format := 126
  const FormatS8Uint: Format := 127
  const FormatD16UnormS8Uint: Format := 128
  const FormatD24UnormS8Uint: Format := 129
  const FormatD32SfloatS8Uint: Format := 130

  // VkColorSpaceKHR
  const ColorSpaceSrgbNonlinear: nat := 0

  // VkImageAspectFlagBits
  const AspectColor: Flags := 0x1
  const AspectDepth: Flags := 0x2
  const AspectStencil: Flags := 0x4

  // VkImageLayout
  type ImageLayout = nat
  const LayoutUndefined: ImageLayout := 0
  const LayoutColorAttachmentOptimal: ImageLayout := 2
  const LayoutDepthStencilAttachmentOptimal: ImageLayout := 3
  const LayoutTransferSrcOptimal: ImageLayout := 6
  const LayoutTransferDstOptimal: ImageLayout := 7
  const LayoutDepthAttachmentOptimal: ImageLayout := 1000241000
  const LayoutStencilAttachmentOptimal: ImageLayout := 1000241002
  const LayoutPresentSrc: ImageLayout := 1000001002

  // VkPipelineStageFlagBits
  const StageColorAttachmentOutput: Flags := 0x400
  const StageTransfer: Flags := 0x1000
  const StageBottomOfPipe: Flags := 0x2000

  // VkAccessFlagBits
  const AccessColorAttachmentWrite: Flags := 0x100
  const AccessTransferWrite: Flags := 0x1000

  // VkQueueFlagBits
  const QueueGraphics: Flags := 0x1

  // VkPhysicalDeviceType
  const DeviceTypeOther: nat := 0
  const DeviceTypeIntegratedGpu: nat := 1
  const DeviceTypeDiscreteGpu: nat := 2

  // VkIndexType
  const IndexTypeUint32: nat := 1

  // VkVertexInputRate
  const InputRateVertex: nat := 0

  // VkSampleCountFlagBits
  const SampleCount1: Flags := 0x1
}
