/** Physical device selection of src/vk/device/physicaldevice.cc. Device
    handles are ordered values (the source keeps them in a `std::set`,
    ordered by handle); the queue families each device reports are given by
    `familiesOf`, one capability mask per family. */
module PhysicalDevice {
  import opened Wrappers
  import opened Vk

  datatype DeviceError = NoDevices | NoSuitableDevice

  /** The device has at least one family, and among its families some
      family can do graphics, some compute and some transfer (not
      necessarily the same one). */
  predicate Suitable(families: seq<bv32>)
  {
    && |families| > 0
    && (exists g :: 0 <= g < |families| && Meets(families[g], QueueGraphics))
    && (exists c :: 0 <= c < |families| && Meets(families[c], QueueCompute))
    && (exists t :: 0 <= t < |families| && Meets(families[t], QueueTransfer))
  }

  /** The per-device check of the filtering loop: a device without families
      is dropped, otherwise the three `has_*` flags are raised by any family
      and all three must be raised. */
  method KeepDevice(families: seq<bv32>) returns (keep: bool)
    ensures keep <==> Suitable(families)
  {
    if |families| == 0 {
      return false;
    }
    var hasGraphics, hasCompute, hasTransfer := false, false, false;
    var i := 0;
    while i < |families|
      invariant 0 <= i <= |families|
      invariant hasGraphics <==> exists g :: 0 <= g < i && Meets(families[g], QueueGraphics)
      invariant hasCompute <==> exists c :: 0 <= c < i && Meets(families[c], QueueCompute)
      invariant hasTransfer <==> exists t :: 0 <= t < i && Meets(families[t], QueueTransfer)
    {
      if !hasGraphics {
        hasGraphics := families[i] & QueueGraphics != 0;
      }
      if !hasCompute {
        hasCompute := families[i] & QueueCompute != 0;
      }
      if !hasTransfer {
        hasTransfer := families[i] & QueueTransfer != 0;
      }
      i := i + 1;
    }
    keep := hasGraphics && hasCompute && hasTransfer;
  }

  /** The least handle of a non-empty sequence. */
  function Least(hs: seq<nat>): (m: nat)
    requires |hs| > 0
    ensures m in hs
    ensures forall h :: h in hs ==> m <= h
  {
    if |hs| == 1 then hs[0]
    else
      var rest := Least(hs[1..]);
      assert forall h :: h in hs ==> h == hs[0] || h in hs[1..];
      if hs[0] <= rest then hs[0] else rest
  }

  /** The devices that survive the filtering, in enumeration order. */
  function Kept(handles: seq<nat>, familiesOf: nat -> seq<bv32>): (r: seq<nat>)
    ensures forall h :: h in r <==> h in handles && Suitable(familiesOf(h))
  {
    if handles == [] then []
    else
      var rest := Kept(handles[1..], familiesOf);
      assert forall h :: h in handles ==> h == handles[0] || h in handles[1..];
      if Suitable(familiesOf(handles[0])) then [handles[0]] + rest else rest
  }

  /** The constructor: no enumerated device, or no suitable one, is an
      error; otherwise the first device of the ordered set of survivors,
      which is the least suitable handle. */
  function Select(handles: seq<nat>, familiesOf: nat -> seq<bv32>): (r: Result<nat, DeviceError>)
    ensures r == Err(NoDevices) <==> handles == []
    ensures r == Err(NoSuitableDevice) <==>
      handles != [] && forall h :: h in handles ==> !Suitable(familiesOf(h))
    ensures r.Ok? ==> r.value in handles && Suitable(familiesOf(r.value))
    ensures r.Ok? ==> forall h :: h in handles && Suitable(familiesOf(h)) ==> r.value <= h
  {
    if handles == [] then Err(NoDevices)
    else
      var kept := Kept(handles, familiesOf);
      if kept == [] then Err(NoSuitableDevice)
      else Ok(Least(kept))
  }

  /** The choice depends only on which devices were enumerated, not on the
      order or repetition in which the driver listed them. */
  lemma SelectIgnoresOrder(a: seq<nat>, b: seq<nat>, familiesOf: nat -> seq<bv32>)
    requires forall h :: h in a <==> h in b
    ensures Select(a, familiesOf) == Select(b, familiesOf)
  {
    var ra, rb := Select(a, familiesOf), Select(b, familiesOf);
    if ra.Ok? && rb.Ok? {
      assert ra.value <= rb.value && rb.value <= ra.value;
    }
  }

  /** A device without queue families is never chosen. */
  lemma NoFamiliesNoChoice(handles: seq<nat>, familiesOf: nat -> seq<bv32>, h: nat)
    requires familiesOf(h) == []
    ensures Select(handles, familiesOf) != Ok(h)
  {
  }
}
