/** The host-side steps a buffer or image performs when its data is set or
    read: mapping one of its memory blocks to write or read bytes, and
    recording a device copy between its main and its staging object. The
    bytes themselves are not modelled here (the allocator model does that),
    only which memory is touched, how much, and in which direction. A read
    is the evidently intended `Allocator::GetData`; `AsWritten` gives the
    steps as src/vk/memory/allocator.cc:84 actually takes them. */
module Transfer {

  /** The object's own memory, or the host-visible staging copy. */
  datatype Role = Main | Staging

  /** The sub-resource and extent of a `VkImageCopy`. */
  datatype ImageRegion = ImageRegion(
    aspectMask: bv32,
    mipLevel: nat,
    baseArrayLayer: nat,
    layerCount: nat,
    srcOffset: (int, int, int),
    dstOffset: (int, int, int),
    extent: (nat, nat, nat))

  datatype Command =
    | WriteMemory(target: Role, size: nat)
    | ReadMemory(source: Role, size: nat)
      // the host copies an uninitialised buffer over the mapped block
    | ClobberMemory(target: Role, size: nat)
    | CopyBuffer(from: Role, to: Role, size: nat)
    | CopyImage(from: Role, to: Role, region: ImageRegion)

  /** The command makes the host map the memory block `r`. */
  predicate MapsRole(c: Command, r: Role)
  {
    || (c.WriteMemory? && c.target == r)
    || (c.ReadMemory? && c.source == r)
    || (c.ClobberMemory? && c.target == r)
  }

  /** The memory blocks the host maps in a command list. */
  function Mapped(cs: seq<Command>): (roles: set<Role>)
    ensures forall r :: r in roles <==> exists i :: 0 <= i < |cs| && MapsRole(cs[i], r)
  {
    if cs == [] then {}
    else
      var here := match cs[0]
        case WriteMemory(t, _) => {t}
        case ReadMemory(s, _) => {s}
        case ClobberMemory(t, _) => {t}
        case _ => {};
      var rest := Mapped(cs[1..]);
      assert forall r, i :: 0 < i < |cs| && MapsRole(cs[i], r) ==> MapsRole(cs[1..][i - 1], r);
      here + rest
  }

  /** The steps as `Allocator::GetData` carries them out: every read of a
      mapped block becomes a copy of uninitialised bytes into it; all other
      steps are unchanged. Nothing is ever read back, and the same blocks
      are mapped. */
  function AsWritten(cs: seq<Command>): (ws: seq<Command>)
    ensures |ws| == |cs|
    ensures forall i :: 0 <= i < |cs| && cs[i].ReadMemory? ==> ws[i] == ClobberMemory(cs[i].source, cs[i].size)
    ensures forall i :: 0 <= i < |cs| && !cs[i].ReadMemory? ==> ws[i] == cs[i]
    ensures forall i :: 0 <= i < |ws| ==> !ws[i].ReadMemory?
    ensures Mapped(ws) == Mapped(cs)
  {
    var ws := seq(|cs|, i requires 0 <= i < |cs| =>
      if cs[i].ReadMemory? then ClobberMemory(cs[i].source, cs[i].size) else cs[i]);
    assert forall i, r :: 0 <= i < |cs| ==> (MapsRole(ws[i], r) <==> MapsRole(cs[i], r));
    ws
  }
}
