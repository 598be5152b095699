/** The logical device of src/vk/device/logicaldevice.cc: which queue family
    is used, what queue creation asks for, which queues are fetched and
    which features are switched on. The families' capability masks are an
    input; the driver calls themselves are not modelled. */
module LogicalDevice {
  import opened Vk

  /** The `VkPhysicalDeviceFeatures` switched on. */
  datatype Feature = TessellationShader | GeometryShader | FillModeNonSolid | OtherFeature(name: string)

  /** `VkDeviceQueueCreateInfo`: the family, and one priority per queue. */
  datatype QueueCreateInfo = QueueCreateInfo(familyIndex: nat, queueCount: nat, priorities: seq<real>)

  /** A queue as `vkGetDeviceQueue` names it: its family and its index there. */
  datatype QueueRef = QueueRef(family: nat, index: nat)

  datatype Device = Device(
    features: set<Feature>,
    family: nat,
    createInfos: seq<QueueCreateInfo>,
    queues: seq<QueueRef>)

  const DefaultFlags: bv32 := QueueGraphics | QueueCompute | QueueTransfer

  /** `GetQueueFamily`: the first family sharing any bit with `required`;
      the number of families when none does. */
  method GetQueueFamily(families: seq<bv32>, required: bv32) returns (index: nat)
    ensures index <= |families|
    ensures index < |families| ==> Meets(families[index], required)
    ensures forall j :: 0 <= j < index ==> !Meets(families[j], required)
  {
    index := 0;
    while index < |families|
      invariant 0 <= index <= |families|
      invariant forall j :: 0 <= j < index ==> !Meets(families[j], required)
    {
      if families[index] & required != 0 {
        return;
      }
      index := index + 1;
    }
  }

  /** `GetQueueCreateInfos`: `num` queues of the family, every priority 1. */
  method GetQueueCreateInfo(familyIndex: nat, num: nat) returns (info: QueueCreateInfo)
    ensures info.familyIndex == familyIndex && info.queueCount == num
    ensures |info.priorities| == num
    ensures forall i :: 0 <= i < num ==> info.priorities[i] == 1.0
  {
    var priorities := [];
    var i := 0;
    while i < num
      invariant 0 <= i <= num
      invariant |priorities| == i
      invariant forall k :: 0 <= k < i ==> priorities[k] == 1.0
    {
      priorities := priorities + [1.0];
      i := i + 1;
    }
    info := QueueCreateInfo(familyIndex, num, priorities);
  }

  /** The constructor: features, the family for graphics, compute or
      transfer, one create info for `numQueues` queues of it, and queues
      0 .. numQueues-1 of that family. */
  method NewDevice(families: seq<bv32>, numQueues: nat) returns (d: Device)
    ensures d.features == {TessellationShader, GeometryShader, FillModeNonSolid}
    ensures d.family <= |families|
    ensures d.family < |families| ==> Meets(families[d.family], DefaultFlags)
    ensures forall j :: 0 <= j < d.family ==> !Meets(families[j], DefaultFlags)
    ensures |d.createInfos| == 1
    ensures d.createInfos[0].familyIndex == d.family && d.createInfos[0].queueCount == numQueues
    ensures |d.createInfos[0].priorities| == numQueues
    ensures forall i :: 0 <= i < |d.createInfos[0].priorities| ==> d.createInfos[0].priorities[i] == 1.0
    ensures |d.queues| == numQueues
    ensures forall i :: 0 <= i < numQueues ==> d.queues[i] == QueueRef(d.family, i)
  {
    var features := {TessellationShader, GeometryShader, FillModeNonSolid};
    var family := GetQueueFamily(families, DefaultFlags);
    var info := GetQueueCreateInfo(family, numQueues);
    var queues := [];
    var i := 0;
    while i < numQueues
      invariant 0 <= i <= numQueues
      invariant |queues| == i
      invariant forall k :: 0 <= k < i ==> queues[k] == QueueRef(family, k)
    {
      queues := queues + [QueueRef(family, i)];
      i := i + 1;
    }
    d := Device(features, family, [info], queues);
  }

  /** Any-bit matching: a transfer-only family is taken for the default
      flags even when a later family can do everything. */
  method TransferOnlyFamilyIsTaken() returns (index: nat)
    ensures index == 0
  {
    var families := [QueueTransfer, QueueGraphics | QueueCompute | QueueTransfer];
    index := GetQueueFamily(families, DefaultFlags);
    assert Meets(families[0], DefaultFlags);
  }
}
