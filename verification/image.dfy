/** The device image of src/vk/memory/image.cc: the usage and memory flags
    its constructor derives, the size it records, the copy region of a
    staged transfer, and the steps `SetData` and `GetData` take.

    The constructor never stores its `staging` argument: the `staging_`
    member keeps its default `false` (include/quavis/vk/memory/image.h:79),
    so a constructed image always takes the direct path. The
    `staging_property_flags_` member the constructor reads is not declared
    in the image header; its value is a parameter. */
module Image {
  import opened Vk
  import opened Wrappers
  import opened Transfer

  /** `VkImageCreateInfo`: format, extent and usage. */
  datatype ImageInfo = ImageInfo(format: int, extent: (nat, nat, nat), usage: bv32)

  datatype Image = Image(
    width: nat,
    height: nat,
    aspect: bv32,
    staging: bool,
    info: ImageInfo,
    stagingInfo: Option<ImageInfo>,
    memoryFlags: bv32,
    stagingMemoryFlags: Option<bv32>,
    memorySize: nat)

  const TransferBoth: bv32 := ImageTransferSrc | ImageTransferDst

  lemma TransferBits(u: bv32)
    ensures Contains(u | ImageTransferSrc | ImageTransferDst, u)
    ensures Contains(u | ImageTransferSrc | ImageTransferDst, ImageTransferSrc)
    ensures Contains(u | ImageTransferSrc | ImageTransferDst, ImageTransferDst)
    ensures (u | ImageTransferSrc | ImageTransferDst) | TransferBoth == u | TransferBoth
  {
  }

  /** The usage of the image: the caller's, plus both transfer directions
      when staging is asked for, and no other bit. The source ORs in the
      buffer transfer bits, which have the same values as the image ones. */
  function Usage(usage: bv32, staging: bool): (u: bv32)
    ensures staging ==>
      && Contains(u, usage)
      && Contains(u, ImageTransferSrc) && Contains(u, ImageTransferDst)
      && u | TransferBoth == usage | TransferBoth
    ensures !staging ==> u == usage
  {
    if staging then
      TransferBits(usage);
      usage | BufferTransferSrc | BufferTransferDst
    else usage
  }

  /** The C++ conversion of a logical-and to an integer: 1 or 0. */
  function BoolBit(b: bool): (x: bv32)
    ensures x == 0 || x == 1
  {
    if b then 1 else 0
  }

  /** The constructor. `mainSize` and `stagingSize` are the sizes
      `vkGetImageMemoryRequirements` reports for the image and for its
      staging image. */
  function NewImage(width: nat, height: nat, usage: bv32, format: int, aspect: bv32, staging: bool,
                    stagingPropertyFlags: bv32, mainSize: nat, stagingSize: nat): (img: Image)
    ensures img.width == width && img.height == height && img.aspect == aspect
    ensures img.info == ImageInfo(format, (width, height, 1), Usage(usage, staging))
    // a staging image of the same format and extent, used only for transfers
    ensures img.stagingInfo.Some? <==> staging
    ensures staging ==> img.stagingInfo.value == ImageInfo(format, (width, height, 1), TransferBoth)
    // the logical-and contributes 0 or 1, and 1 is already DEVICE_LOCAL
    ensures img.memoryFlags == MemoryDeviceLocal
    ensures img.stagingMemoryFlags == (if staging then Some(MemoryDeviceLocal | stagingPropertyFlags) else None)
    // the staging requirement's size overwrites the image's
    ensures img.memorySize == (if staging then stagingSize else mainSize)
    // the member keeps its default
    ensures !img.staging
  {
    var info := ImageInfo(format, (width, height, 1), Usage(usage, staging));
    var stagingInfo := if staging then Some(ImageInfo(format, (width, height, 1), BufferTransferSrc | BufferTransferDst)) else None;
    var flags := MemoryDeviceLocal | BoolBit(staging && stagingPropertyFlags != 0);
    var stagingFlags := if staging then Some(MemoryDeviceLocal | stagingPropertyFlags) else None;
    // `memory_size_` is set from the image, then from the staging image
    var size := if staging then stagingSize else mainSize;
    Image(width, height, aspect, false, info, stagingInfo, flags, stagingFlags, size)
  }

  /** The region a staged transfer copies: the whole first layer of mip
      level 0, from and to the origin. */
  function CopyRegion(img: Image): (r: ImageRegion)
    ensures r.aspectMask == img.aspect && r.mipLevel == 0 && r.baseArrayLayer == 0 && r.layerCount == 1
    ensures r.srcOffset == (0, 0, 0) && r.dstOffset == (0, 0, 0)
    ensures r.extent == (img.width, img.height, 1)
  {
    ImageRegion(img.aspect, 0, 0, 1, (0, 0, 0), (0, 0, 0), (img.width, img.height, 1))
  }

  /** `SetData`: write the image memory, or write the staging memory and
      copy the staging image into the image. */
  function SetData(img: Image): (cs: seq<Command>)
    ensures !img.staging ==> cs == [WriteMemory(Main, img.memorySize)]
    ensures img.staging ==>
      |cs| == 2 && cs[0] == WriteMemory(Staging, img.memorySize) && cs[1].CopyImage?
      && cs[1].from == Staging && cs[1].to == Main
  {
    if !img.staging then [WriteMemory(Main, img.memorySize)]
    else [WriteMemory(Staging, img.memorySize), CopyImage(Staging, Main, CopyRegion(img))]
  }

  /** `GetData`: read the image memory, or copy the image into the staging
      image and read the staging memory. */
  function GetData(img: Image): (cs: seq<Command>)
    ensures !img.staging ==> cs == [ReadMemory(Main, img.memorySize)]
    ensures img.staging ==>
      |cs| == 2 && cs[0].CopyImage? && cs[0].from == Main && cs[0].to == Staging
      && cs[1] == ReadMemory(Staging, img.memorySize)
  {
    if !img.staging then [ReadMemory(Main, img.memorySize)]
    else [CopyImage(Main, Staging, CopyRegion(img)), ReadMemory(Staging, img.memorySize)]
  }

  /** The staged copies of `SetData` and `GetData` run in opposite
      directions over the same region. */
  lemma StagedCopiesMirror(img: Image)
    requires img.staging
    ensures SetData(img)[1].region == GetData(img)[0].region
    ensures SetData(img)[1].from == GetData(img)[0].to && SetData(img)[1].to == GetData(img)[0].from
  {
  }

  /** Whatever was asked of the constructor, the host reads and writes the
      image's own memory, whose flags only ask for DEVICE_LOCAL, and with
      staging requested it moves the staging requirement's size. */
  lemma ConstructedImagesMapMainMemory(width: nat, height: nat, usage: bv32, format: int, aspect: bv32,
                                       staging: bool, spf: bv32, mainSize: nat, stagingSize: nat)
    ensures var img := NewImage(width, height, usage, format, aspect, staging, spf, mainSize, stagingSize);
      && Mapped(SetData(img)) == {Main} && Mapped(GetData(img)) == {Main}
      && !Contains(img.memoryFlags, MemoryHostVisible)
      && SetData(img) == [WriteMemory(Main, if staging then stagingSize else mainSize)]
  {
    var img := NewImage(width, height, usage, format, aspect, staging, spf, mainSize, stagingSize);
    assert MapsRole(SetData(img)[0], Main) && MapsRole(GetData(img)[0], Main);
  }

  /** `GetData` as the source carries it out: its last step copies the
      uninitialised host buffer over the very block the intended read would
      read, and no step reads anything. */
  lemma GetDataAsWritten(img: Image)
    ensures var ws := AsWritten(GetData(img));
      && |ws| == |GetData(img)|
      && ws[|ws| - 1] == ClobberMemory((if img.staging then Staging else Main), img.memorySize)
      && GetData(img)[|ws| - 1] == ReadMemory((if img.staging then Staging else Main), img.memorySize)
      && forall i :: 0 <= i < |ws| ==> !ws[i].ReadMemory?
  {
  }
}
