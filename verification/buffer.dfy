/** The device buffer of src/vk/memory/buffer.cc: the usage and memory
    flags its constructor derives, and the steps `SetData` and `GetData`
    take with and without a staging buffer. The Vulkan calls are left out;
    what is kept is what they are asked for. */
module Buffer {
  import opened Vk
  import opened Wrappers
  import opened Transfer

  /** `VkBufferCreateInfo`: size and usage. */
  datatype BufferInfo = BufferInfo(size: nat, usage: bv32)

  datatype Buffer = Buffer(
    size: nat,
    staging: bool,
    info: BufferInfo,
    stagingInfo: Option<BufferInfo>,
    memoryFlags: bv32,
    stagingMemoryFlags: Option<bv32>)

  const TransferBoth: bv32 := BufferTransferSrc | BufferTransferDst
  const HostMemory: bv32 := MemoryHostVisible | MemoryHostCoherent

  /** The usage the buffer is created with: the caller's usage, plus both
      transfer directions when staging, and no other bit. */
  function Usage(usage: bv32, staging: bool): (u: bv32)
    ensures staging ==>
      && Contains(u, usage)
      && Contains(u, BufferTransferSrc) && Contains(u, BufferTransferDst)
      && u | TransferBoth == usage | TransferBoth
    ensures !staging ==> u == usage
  {
    if staging then
      TransferBits(usage);
      usage | BufferTransferSrc | BufferTransferDst
    else usage
  }

  /** The constructor. */
  function NewBuffer(size: nat, usage: bv32, staging: bool): (b: Buffer)
    ensures b.size == size && b.staging == staging && b.info.size == size
    ensures b.info.usage == Usage(usage, staging)
    // a staging buffer of the same size used only for transfers
    ensures b.stagingInfo.Some? <==> staging
    ensures staging ==> b.stagingInfo.value == BufferInfo(size, BufferTransferSrc | BufferTransferDst)
    // device-local memory behind a staging buffer, host memory otherwise
    ensures b.memoryFlags == (if staging then MemoryDeviceLocal else HostMemory)
    ensures b.stagingMemoryFlags == (if staging then Some(HostMemory) else None)
  {
    var usage' := Usage(usage, staging);
    var stagingInfo := if staging then Some(BufferInfo(size, BufferTransferSrc | BufferTransferDst)) else None;
    var flags := if !staging then MemoryHostVisible | MemoryHostCoherent else MemoryDeviceLocal;
    var stagingFlags := if staging then Some(MemoryHostVisible | MemoryHostCoherent) else None;
    Buffer(size, staging, BufferInfo(size, usage'), stagingInfo, flags, stagingFlags)
  }

  /** The bit facts behind the usage derivation. */
  lemma TransferBits(u: bv32)
    ensures Contains(u | BufferTransferSrc | BufferTransferDst, u)
    ensures Contains(u | BufferTransferSrc | BufferTransferDst, BufferTransferSrc)
    ensures Contains(u | BufferTransferSrc | BufferTransferDst, BufferTransferDst)
    ensures (u | BufferTransferSrc | BufferTransferDst) | TransferBoth == u | TransferBoth
  {
  }

  /** `SetData`: the data goes straight into the buffer's memory, or into
      the staging memory followed by a staging-to-buffer copy. */
  function SetData(b: Buffer): (cs: seq<Command>)
    ensures !b.staging ==> cs == [WriteMemory(Main, b.size)]
    ensures b.staging ==>
      |cs| == 2 && cs[0].WriteMemory? && cs[0].target == Staging && cs[1] == CopyBuffer(Staging, Main, b.size)
  {
    if !b.staging then [WriteMemory(Main, b.size)]
    else [WriteMemory(Staging, b.size), CopyBuffer(Staging, Main, b.size)]
  }

  /** `GetData`: read the buffer's memory, or copy it into the staging
      memory first and read that. */
  function GetData(b: Buffer): (cs: seq<Command>)
    ensures !b.staging ==> cs == [ReadMemory(Main, b.size)]
    ensures b.staging ==>
      |cs| == 2 && cs[0] == CopyBuffer(Main, Staging, b.size) && cs[1].ReadMemory? && cs[1].source == Staging
  {
    if !b.staging then [ReadMemory(Main, b.size)]
    else [CopyBuffer(Main, Staging, b.size), ReadMemory(Staging, b.size)]
  }

  /** The flags of the memory block a role names. */
  function FlagsOf(b: Buffer, r: Role): Option<bv32>
  {
    match r
    case Main => Some(b.memoryFlags)
    case Staging => b.stagingMemoryFlags
  }

  /** For a constructed buffer, every block the host maps in `SetData` or
      `GetData` exists and was requested host-visible and host-coherent. */
  lemma HostOnlyMapsHostMemory(size: nat, usage: bv32, staging: bool)
    ensures var b := NewBuffer(size, usage, staging);
      forall r :: r in Mapped(SetData(b)) + Mapped(GetData(b)) ==>
        FlagsOf(b, r).Some? && Contains(FlagsOf(b, r).value, HostMemory)
  {
    var b := NewBuffer(size, usage, staging);
    var cs := SetData(b) + GetData(b);
    forall r | r in Mapped(SetData(b)) + Mapped(GetData(b))
      ensures r == (if staging then Staging else Main)
    {
    }
  }

  /** The copy `GetData` records is the copy of `SetData` reversed. */
  lemma GetDataReversesSetData(size: nat, usage: bv32)
    ensures var b := NewBuffer(size, usage, true);
      SetData(b)[1].from == GetData(b)[0].to && SetData(b)[1].to == GetData(b)[0].from
      && SetData(b)[1].size == GetData(b)[0].size == size
  {
  }

  /** `GetData` as the source carries it out: its last step copies the
      uninitialised host buffer over the very block the intended read would
      read, and no step reads anything. */
  lemma GetDataAsWritten(b: Buffer)
    ensures var ws := AsWritten(GetData(b));
      && |ws| == |GetData(b)|
      && ws[|ws| - 1] == ClobberMemory((if b.staging then Staging else Main), b.size)
      && GetData(b)[|ws| - 1] == ReadMemory((if b.staging then Staging else Main), b.size)
      && forall i :: 0 <= i < |ws| ==> !ws[i].ReadMemory?
  {
  }
}
