/** The memory allocator of src/vk/memory/allocator.cc: choice of a memory
    type for a requirement, bookkeeping of the allocated blocks, and the
    host copies into and out of a mapped block. The driver's memory type
    table is an input (the property flags of each type, in order) and the
    handle `vkAllocateMemory` hands out is a parameter. A mapped block is
    modelled by its bytes; mapping and unmapping themselves are left out. */
module Allocator {
  import opened Vk

  /** `VkMemoryRequirements`. */
  datatype MemoryRequirements = MemoryRequirements(size: nat, alignment: nat, memoryTypeBits: bv32)

  /** `VkMemoryAllocateInfo`: how much memory, and of which type. */
  datatype AllocateInfo = AllocateInfo(allocationSize: nat, memoryTypeIndex: nat)

  /** The allocator's state: every block handed out so far, in order. */
  datatype State<Memory> = State(blocks: seq<Memory>)

  /** Type i is allowed by the requirement's type bits and has every
      requested property flag. */
  predicate Suitable(types: seq<bv32>, typeBits: bv32, flags: bv32, i: nat)
  {
    i < |types| && i < 32 && HasBit(typeBits, i) && Contains(types[i], flags)
  }

  /** The search loop: the first suitable type, 0 when there is none. */
  method ChooseMemoryType(types: seq<bv32>, typeBits: bv32, flags: bv32) returns (index: nat)
    requires |types| <= MaxMemoryTypes
    ensures (exists i :: 0 <= i < |types| && Suitable(types, typeBits, flags, i)) ==>
      index < |types| && Suitable(types, typeBits, flags, index)
    ensures forall i :: 0 <= i < index ==> !Suitable(types, typeBits, flags, i)
    ensures (forall i :: 0 <= i < |types| ==> !Suitable(types, typeBits, flags, i)) ==> index == 0
  {
    index := 0;
    var i := 0;
    while i < |types|
      invariant 0 <= i <= |types|
      invariant index == 0
      invariant forall j :: 0 <= j < i ==> !Suitable(types, typeBits, flags, j)
    {
      if typeBits & ((1 as bv32) << i) != 0 && types[i] & flags == flags {
        assert Suitable(types, typeBits, flags, i);
        index := i;
        return;
      }
      i := i + 1;
    }
  }

  /** `Allocate`: the allocation covers the requirement's size with the
      chosen type; the new block is remembered after the earlier ones and
      returned. */
  method Allocate<Memory>(a: State<Memory>, req: MemoryRequirements, flags: bv32, types: seq<bv32>, memory: Memory)
    returns (a': State<Memory>, handle: Memory, info: AllocateInfo)
    requires |types| <= MaxMemoryTypes
    ensures info.allocationSize == req.size
    ensures (exists i :: 0 <= i < |types| && Suitable(types, req.memoryTypeBits, flags, i)) ==>
      Suitable(types, req.memoryTypeBits, flags, info.memoryTypeIndex)
    ensures forall i :: 0 <= i < info.memoryTypeIndex ==> !Suitable(types, req.memoryTypeBits, flags, i)
    ensures (forall i :: 0 <= i < |types| ==> !Suitable(types, req.memoryTypeBits, flags, i)) ==>
      info.memoryTypeIndex == 0
    ensures |a'.blocks| == |a.blocks| + 1
    ensures a'.blocks[..|a.blocks|] == a.blocks
    ensures handle == memory && a'.blocks[|a'.blocks| - 1] == handle
  {
    var index := ChooseMemoryType(types, req.memoryTypeBits, flags);
    info := AllocateInfo(req.size, index);
    handle := memory;
    a' := State(a.blocks + [memory]);
  }

  /** `SetData`: the first `size` bytes of the block become the first `size`
      bytes of the host data; the rest of the block is untouched. */
  function SetData(memory: seq<bv8>, data: seq<bv8>, size: nat): (m: seq<bv8>)
    requires size <= |memory| && size <= |data|
    ensures |m| == |memory|
    ensures forall i :: 0 <= i < size ==> m[i] == data[i]
    ensures forall i :: size <= i < |memory| ==> m[i] == memory[i]
  {
    data[..size] + memory[size..]
  }

  /** `GetData` as the evidently intended read: the first `size` bytes of
      the block, which is left as it was. */
  function GetData(memory: seq<bv8>, size: nat): (data: seq<bv8>)
    requires size <= |memory|
    ensures |data| == size
    ensures forall i :: 0 <= i < size ==> data[i] == memory[i]
  {
    memory[..size]
  }

  /** Reading back what was just set yields the data that was set. */
  lemma ReadBackRoundTrip(memory: seq<bv8>, data: seq<bv8>)
    requires |data| <= |memory|
    ensures GetData(SetData(memory, data, |data|), |data|) == data
  {
    var r := GetData(SetData(memory, data, |data|), |data|);
    assert forall i :: 0 <= i < |data| ==> r[i] == data[i];
  }

  /** `GetData` as written: `memcpy(gpu_buffer, data, size)` copies the
      freshly `malloc`ed host buffer, whose bytes `garbage` are indeterminate,
      over the block, and that same buffer is returned. Returns the block
      afterwards and the returned bytes. */
  function GetDataAsWritten(memory: seq<bv8>, size: nat, garbage: seq<bv8>): (r: (seq<bv8>, seq<bv8>))
    requires size <= |memory| && |garbage| == size
    ensures r.1 == garbage
    ensures |r.0| == |memory|
    ensures forall i :: 0 <= i < size ==> r.0[i] == garbage[i]
    ensures forall i :: size <= i < |memory| ==> r.0[i] == memory[i]
  {
    (SetData(memory, garbage, size), garbage)
  }

  /** As written, what `GetData` returns does not depend on the block at
      all, and the block's first `size` bytes are lost. */
  lemma GetDataAsWrittenIgnoresMemory(m1: seq<bv8>, m2: seq<bv8>, size: nat, garbage: seq<bv8>)
    requires size <= |m1| && size <= |m2| && |garbage| == size
    ensures GetDataAsWritten(m1, size, garbage).1 == GetDataAsWritten(m2, size, garbage).1
    ensures GetDataAsWritten(m1, size, garbage).0[..size] == garbage
  {
    var r := GetDataAsWritten(m1, size, garbage).0;
    assert forall i :: 0 <= i < size ==> r[..size][i] == garbage[i];
  }

  /** A one-byte block holding 1, read while the new host buffer happens to
      hold 0: the caller gets 0 and the block now holds 0, where the
      intended read returns 1 and keeps the block. */
  lemma GetDataAsWrittenCounterexample()
    ensures GetDataAsWritten([1], 1, [0]) == ([0], [0])
    ensures GetData([1], 1) == [1]
  {
    var r := GetDataAsWritten([1], 1, [0]);
    assert r.0 == [r.0[0]];
  }
}
