/** The descriptor set builder of src/vk/descriptors/descriptorset.cc.
    Descriptors are added one at a time; each addition appends a layout
    binding and a write record and returns the new binding's index.
    `Create` allocates the set and submits the write records once per
    binding.

    Vulkan handles are natural numbers with 0 for VK_NULL_HANDLE; the
    handle `vkAllocateDescriptorSets` produces is a parameter, and so is the
    indeterminate value the constructor leaves in the handle member. */
module DescriptorSet {
  import opened Vk

  const NullHandle: nat := 0

  /** What a write record points at: an image view with its layout (no
      sampler), or a buffer range. */
  datatype Info =
    | ImageInfo(sampler: nat, view: nat, layout: nat)
    | BufferInfo(buffer: nat, offset: nat, range: nat)

  /** `VkDescriptorSetLayoutBinding`. */
  datatype LayoutBinding = LayoutBinding(binding: nat, descriptorType: int, descriptorCount: nat, stageFlags: bv32)

  /** `VkWriteDescriptorSet`. */
  datatype WriteSet = WriteSet(
    dstSet: nat,
    dstBinding: nat,
    dstArrayElement: nat,
    descriptorType: int,
    descriptorCount: nat,
    info: Info)

  datatype DescriptorSet = DescriptorSet(handle: nat, bindings: seq<LayoutBinding>, writes: seq<WriteSet>)

  /** A fresh builder: no descriptors, and a handle member the constructor
      never assigns, which holds whatever `initial` it happens to hold. */
  function New(initial: nat): (ds: DescriptorSet)
    ensures WellFormed(ds) && ds.handle == initial && ds.bindings == [] && ds.writes == []
  {
    DescriptorSet(initial, [], [])
  }

  /** Binding i and write record i both describe binding number i, with
      the same single descriptor of the same type, at array element 0. */
  predicate WellFormed(ds: DescriptorSet)
  {
    && |ds.bindings| == |ds.writes|
    && forall i :: 0 <= i < |ds.bindings| ==>
      && ds.bindings[i].binding == i
      && ds.writes[i].dstBinding == i
      && ds.bindings[i].descriptorCount == 1
      && ds.writes[i].descriptorCount == 1
      && ds.writes[i].dstArrayElement == 0
      && ds.writes[i].descriptorType == ds.bindings[i].descriptorType
  }

  /** The part every `Add*` shares: a binding and a write record numbered
      by the current binding count, the write aimed at the set's current
      handle. */
  function Add(ds: DescriptorSet, descriptorType: int, stages: bv32, info: Info): (r: (DescriptorSet, nat))
    ensures r.1 == |ds.bindings|
    ensures r.0.handle == ds.handle
    ensures r.0.bindings == ds.bindings + [LayoutBinding(r.1, descriptorType, 1, stages)]
    ensures r.0.writes == ds.writes + [WriteSet(ds.handle, r.1, 0, descriptorType, 1, info)]
  {
    var index := |ds.bindings|;
    var binding := LayoutBinding(index, descriptorType, 1, stages);
    var write := WriteSet(ds.handle, index, 0, descriptorType, 1, info);
    (DescriptorSet(ds.handle, ds.bindings + [binding], ds.writes + [write]), index)
  }

  /** `AddStorageImage`: a storage image descriptor for the image's view in
      its current layout. */
  function AddStorageImage(ds: DescriptorSet, view: nat, layout: nat, stages: bv32): (r: (DescriptorSet, nat))
    ensures r.1 == |ds.bindings|
    ensures r.0.bindings == ds.bindings + [LayoutBinding(r.1, DescriptorStorageImage, 1, stages)]
    ensures r.0.writes == ds.writes + [WriteSet(ds.handle, r.1, 0, DescriptorStorageImage, 1, ImageInfo(NullHandle, view, layout))]
    ensures WellFormed(ds) ==> WellFormed(r.0)
  {
    AddKeepsWellFormed(ds, DescriptorStorageImage, stages, ImageInfo(NullHandle, view, layout));
    Add(ds, DescriptorStorageImage, stages, ImageInfo(NullHandle, view, layout))
  }

  /** `AddUniformBuffer`: the whole buffer, from offset 0. */
  function AddUniformBuffer(ds: DescriptorSet, buffer: nat, size: nat, stages: bv32): (r: (DescriptorSet, nat))
    ensures r.1 == |ds.bindings|
    ensures r.0.bindings == ds.bindings + [LayoutBinding(r.1, DescriptorUniformBuffer, 1, stages)]
    ensures r.0.writes == ds.writes + [WriteSet(ds.handle, r.1, 0, DescriptorUniformBuffer, 1, BufferInfo(buffer, 0, size))]
    ensures WellFormed(ds) ==> WellFormed(r.0)
  {
    AddKeepsWellFormed(ds, DescriptorUniformBuffer, stages, BufferInfo(buffer, 0, size));
    Add(ds, DescriptorUniformBuffer, stages, BufferInfo(buffer, 0, size))
  }

  /** `AddStorageBuffer`: the whole buffer, from offset 0. */
  function AddStorageBuffer(ds: DescriptorSet, buffer: nat, size: nat, stages: bv32): (r: (DescriptorSet, nat))
    ensures r.1 == |ds.bindings|
    ensures r.0.bindings == ds.bindings + [LayoutBinding(r.1, DescriptorStorageBuffer, 1, stages)]
    ensures r.0.writes == ds.writes + [WriteSet(ds.handle, r.1, 0, DescriptorStorageBuffer, 1, BufferInfo(buffer, 0, size))]
    ensures WellFormed(ds) ==> WellFormed(r.0)
  {
    AddKeepsWellFormed(ds, DescriptorStorageBuffer, stages, BufferInfo(buffer, 0, size));
    Add(ds, DescriptorStorageBuffer, stages, BufferInfo(buffer, 0, size))
  }

  /** Every addition keeps bindings and write records in step. */
  lemma AddKeepsWellFormed(ds: DescriptorSet, descriptorType: int, stages: bv32, info: Info)
    ensures WellFormed(ds) ==> WellFormed(Add(ds, descriptorType, stages, info).0)
  {
    var ds' := Add(ds, descriptorType, stages, info).0;
    if WellFormed(ds) {
      forall i | 0 <= i < |ds'.bindings|
        ensures ds'.bindings[i].binding == i && ds'.writes[i].dstBinding == i
      {
        if i < |ds.bindings| {
          assert ds'.bindings[i] == ds.bindings[i] && ds'.writes[i] == ds.writes[i];
        }
      }
    }
  }

  /** One call of an `Add*` function, as a caller issues it. */
  datatype Request =
    | StorageImage(view: nat, layout: nat, stages: bv32)
    | UniformBuffer(buffer: nat, size: nat, stages: bv32)
    | StorageBuffer(buffer: nat, size: nat, stages: bv32)

  function TypeOf(q: Request): int
  {
    match q
    case StorageImage(_, _, _) => DescriptorStorageImage
    case UniformBuffer(_, _, _) => DescriptorUniformBuffer
    case StorageBuffer(_, _, _) => DescriptorStorageBuffer
  }

  function Apply(ds: DescriptorSet, q: Request): (DescriptorSet, nat)
  {
    match q
    case StorageImage(view, layout, stages) => AddStorageImage(ds, view, layout, stages)
    case UniformBuffer(buffer, size, stages) => AddUniformBuffer(ds, buffer, size, stages)
    case StorageBuffer(buffer, size, stages) => AddStorageBuffer(ds, buffer, size, stages)
  }

  /** A builder after a series of `Add*` calls, with the index each call
      returned. */
  function Build(initial: nat, qs: seq<Request>): (r: (DescriptorSet, seq<nat>))
    ensures |r.1| == |qs| && |r.0.bindings| == |qs|
  {
    if qs == [] then (New(initial), [])
    else
      var (ds, indices) := Build(initial, qs[..|qs| - 1]);
      var (ds', index) := Apply(ds, qs[|qs| - 1]);
      (ds', indices + [index])
  }

  /** Building from a fresh set: call k returns k, the set stays
      well-formed, binding k has the type call k asked for, and every write
      is aimed at the handle the set held before any of them, whatever it
      was. */
  lemma {:induction false} BuildNumbersCalls(initial: nat, qs: seq<Request>)
    ensures var (ds, indices) := Build(initial, qs);
      && WellFormed(ds)
      && ds.handle == initial
      && (forall k :: 0 <= k < |qs| ==> indices[k] == k)
      && (forall k :: 0 <= k < |qs| ==> ds.bindings[k].descriptorType == TypeOf(qs[k]))
      && (forall k :: 0 <= k < |qs| ==> ds.writes[k].dstSet == initial)
  {
    if qs != [] {
      var init := qs[..|qs| - 1];
      BuildNumbersCalls(initial, init);
      var (ds, indices) := Build(initial, init);
      forall k | 0 <= k < |init|
        ensures init[k] == qs[k]
      {
      }
    }
  }

  /** `Update(index)`: the index is not used; every write record is
      submitted. */
  function Update(ds: DescriptorSet, index: nat): (submitted: seq<WriteSet>)
    ensures |submitted| == |ds.writes|
    ensures forall i :: 0 <= i < |ds.writes| ==> submitted[i] == ds.writes[i]
  {
    ds.writes
  }

  /** `Create` as written: the set receives its handle, then `Update(i)`
      runs for every binding i. The write records keep the handle they were
      built with. */
  method Create(ds: DescriptorSet, setHandle: nat) returns (ds': DescriptorSet, submissions: seq<seq<WriteSet>>)
    ensures ds'.handle == setHandle && ds'.bindings == ds.bindings && ds'.writes == ds.writes
    ensures |submissions| == |ds.bindings|
    ensures forall i :: 0 <= i < |submissions| ==> submissions[i] == ds.writes
  {
    ds' := ds.(handle := setHandle);
    submissions := [];
    var i := 0;
    while i < |ds'.bindings|
      invariant 0 <= i <= |ds'.bindings|
      invariant |submissions| == i
      invariant forall k :: 0 <= k < i ==> submissions[k] == ds.writes
    {
      submissions := submissions + [Update(ds', i)];
      i := i + 1;
    }
  }

  /** As written, a set built before `Create` submits writes aimed at
      whatever its handle member held before `Create`, not at the set
      `Create` allocated: with a member holding 0, at the null handle. */
  method StaleTargetAsWritten(initial: nat) returns (created: DescriptorSet, submissions: seq<seq<WriteSet>>)
    ensures created.handle == 42
    ensures |submissions| == 1 && |submissions[0]| == 1
    ensures submissions[0][0].dstSet == initial
    ensures initial == NullHandle ==> submissions[0][0].dstSet == NullHandle
  {
    var (ds, _) := AddStorageBuffer(New(initial), 7, 256, 0x20);
    created, submissions := Create(ds, 42);
  }

  /** The evidently intended `Create`: the write records are aimed at the
      allocated set before they are submitted. */
  method CreateCorrected(ds: DescriptorSet, setHandle: nat) returns (ds': DescriptorSet, submissions: seq<seq<WriteSet>>)
    requires WellFormed(ds)
    ensures ds'.handle == setHandle && ds'.bindings == ds.bindings && WellFormed(ds')
    ensures |ds'.writes| == |ds.writes|
    ensures forall i :: 0 <= i < |ds.writes| ==> ds'.writes[i] == ds.writes[i].(dstSet := setHandle)
    ensures |submissions| == |ds.bindings|
    ensures forall i, j :: 0 <= i < |submissions| && 0 <= j < |submissions[i]| ==>
      submissions[i][j].dstSet == setHandle && submissions[i][j].dstBinding == j
  {
    var writes := seq(|ds.writes|, i requires 0 <= i < |ds.writes| => ds.writes[i].(dstSet := setHandle));
    ds' := DescriptorSet(setHandle, ds.bindings, writes);
    submissions := [];
    var i := 0;
    while i < |ds'.bindings|
      invariant 0 <= i <= |ds'.bindings|
      invariant |submissions| == i
      invariant forall k :: 0 <= k < i ==> submissions[k] == writes
    {
      submissions := submissions + [Update(ds', i)];
      i := i + 1;
    }
  }
}
