/** The two `handleVkResult` helpers. The one in namespace `debug`
    (include/quavis/vk/debug.h) rejects every code but VK_SUCCESS; the one
    in namespace `vk` (include/quavis/debug.h) rejects only the negative
    codes, which the Vulkan 1.0 specification (Errors section, Return Codes
    subsection) reserves for errors, and accepts the positive status codes. The thrown
    string is an error value; printing the code is not modelled. */
module VkResult {
  import opened Wrappers
  import opened Vk

  datatype Thrown = Thrown(message: string)

  /** `debug::handleVkResult`. */
  function StrictHandle(result: int): (r: Result<bool, Thrown>)
    ensures r.Ok? <==> result == Success
    ensures r.Ok? ==> r.value
  {
    if result != 0 then Err(Thrown("An error occurred in the gpu initialization:"))
    else Ok(true)
  }

  /** `vk::handleVkResult`. */
  function Handle(result: int): (r: Result<bool, Thrown>)
    ensures r.Ok? <==> result >= 0
    ensures r.Ok? ==> r.value
  {
    if result < 0 then Err(Thrown("An error occurred in the gpu initialization"))
    else Ok(true)
  }

  /** The strict helper accepts a subset of what the other accepts; they
      differ exactly on the positive status codes, such as VK_NOT_READY or
      VK_INCOMPLETE. */
  lemma StrictIsStricter(result: int)
    ensures StrictHandle(result).Ok? ==> Handle(result).Ok?
    ensures Handle(result).Ok? && !StrictHandle(result).Ok? <==> result > 0
  {
  }

  /** Neither helper ever returns false. */
  lemma NeverFalse(result: int)
    ensures StrictHandle(result) != Ok(false) && Handle(result) != Ok(false)
  {
  }

  /** The named codes: success passes both; the status codes pass only the
      lenient helper; the errors pass neither. */
  lemma NamedCodes()
    ensures StrictHandle(Success) == Ok(true) && Handle(Success) == Ok(true)
    ensures forall c :: c in [NotReady, Timeout, EventSet, EventReset, Incomplete] ==>
      StrictHandle(c).Err? && Handle(c) == Ok(true)
    ensures forall c :: c in [ErrorOutOfHostMemory, ErrorOutOfDeviceMemory, ErrorInitializationFailed, ErrorDeviceLost] ==>
      StrictHandle(c).Err? && Handle(c).Err?
  {
  }
}
