/** The Vulkan 1.0 constants the modelled code uses: queue capability bits,
    memory property bits, buffer and image usage bits, descriptor types and
    the result codes. Flag words are 32-bit masks. */
module Vk {

  // VkQueueFlagBits
  const QueueGraphics: bv32 := 0x1
  const QueueCompute: bv32 := 0x2
  const QueueTransfer: bv32 := 0x4

  // VkMemoryPropertyFlagBits
  const MemoryDeviceLocal: bv32 := 0x1
  const MemoryHostVisible: bv32 := 0x2
  const MemoryHostCoherent: bv32 := 0x4
  const MemoryHostCached: bv32 := 0x8
  const MemoryLazilyAllocated: bv32 := 0x10

  // VkBufferUsageFlagBits
  const BufferTransferSrc: bv32 := 0x1
  const BufferTransferDst: bv32 := 0x2
  const BufferUniform: bv32 := 0x10
  const BufferStorage: bv32 := 0x20
  const BufferVertex: bv32 := 0x80

  // VkImageUsageFlagBits
  const ImageTransferSrc: bv32 := 0x1
  const ImageTransferDst: bv32 := 0x2
  const ImageSampled: bv32 := 0x4
  const ImageStorage: bv32 := 0x8
  const ImageColorAttachment: bv32 := 0x10

  // VkDescriptorType
  const DescriptorStorageImage: int := 3
  const DescriptorUniformBuffer: int := 6
  const DescriptorStorageBuffer: int := 7

  // VkImageAspectFlagBits
  const AspectColor: bv32 := 0x1

  // VkResult
  const Success: int := 0
  const NotReady: int := 1
  const Timeout: int := 2
  const EventSet: int := 3
  const EventReset: int := 4
  const Incomplete: int := 5
  const ErrorOutOfHostMemory: int := -1
  const ErrorOutOfDeviceMemory: int := -2
  const ErrorInitializationFailed: int := -3
  const ErrorDeviceLost: int := -4

  // VK_MAX_MEMORY_TYPES: the size of the memory type table
  const MaxMemoryTypes: nat := 32

  /** Every bit of `required` is set in `flags`. */
  predicate Contains(flags: bv32, required: bv32)
  {
    flags & required == required
  }

  /** `flags` and `mask` share at least one bit. */
  predicate Meets(flags: bv32, mask: bv32)
  {
    flags & mask != 0
  }

  /** Bit number b of a mask. */
  predicate HasBit(flags: bv32, b: nat)
    requires b < 32
  {
    flags & ((1 as bv32) << b) != 0
  }
}
