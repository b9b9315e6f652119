/**
 * The device-selection rules of main.cpp over integer-coded Vulkan values: the memory-type
 * search, the swapchain surface-format and present-mode choices, and the image-count cap.
 */
module VulkanSelect {
  import opened Wrappers

  /** uint32_t and VkFlags. */
  type U32 = n: int | 0 <= n < 0x1_0000_0000

  /** VK_MAX_MEMORY_TYPES: the size of VkPhysicalDeviceMemoryProperties::memoryTypes. */
  const MaxMemoryTypes := 32

  /** Enumerant values from vulkan_core.h. */
  const FormatB8G8R8A8Srgb := 50
  const ColorSpaceSrgbNonlinear := 0
  const PresentModeMailbox := 1
  const PresentModeFifo := 2

  /** Memory type `i` passes the filter bit and has every required property flag. */
  predicate SuitableMemoryType(typeFilter: bv32, properties: bv32, propertyFlags: seq<bv32>, i: nat)
    requires i < |propertyFlags| <= MaxMemoryTypes
  {
    typeFilter & (1 << i) != 0 && propertyFlags[i] & properties == properties
  }

  /**
   * Game::findMemoryType (main.cpp:1707-1722): the first suitable memory type, or the
   * "failed to find suitable memory type!" error when there is none. `propertyFlags` lists
   * memoryTypes[i].propertyFlags for each of the device's memoryTypeCount types.
   */
  method FindMemoryType(typeFilter: bv32, properties: bv32, propertyFlags: seq<bv32>) returns (r: Result<nat>)
    requires |propertyFlags| <= MaxMemoryTypes
    ensures r.Success? ==> r.value < |propertyFlags| && SuitableMemoryType(typeFilter, properties, propertyFlags, r.value)
    ensures r.Success? ==> forall j :: 0 <= j < r.value ==> !SuitableMemoryType(typeFilter, properties, propertyFlags, j)
    ensures r.Failure? <==> forall j :: 0 <= j < |propertyFlags| ==> !SuitableMemoryType(typeFilter, properties, propertyFlags, j)
  {
    for i := 0 to |propertyFlags|
      invariant forall j :: 0 <= j < i ==> !SuitableMemoryType(typeFilter, properties, propertyFlags, j)
    {
      if typeFilter & (1 << i) != 0 && propertyFlags[i] & properties == properties {
        assert SuitableMemoryType(typeFilter, properties, propertyFlags, i);
        return Success(i);
      }
    }
    return Failure("failed to find suitable memory type!");
  }

  /** VkSurfaceFormatKHR. */
  datatype SurfaceFormat = SurfaceFormat(format: int, colorSpace: int)

  /** The pair the game prefers: 8-bit BGRA sRGB in the non-linear sRGB colour space. */
  const PreferredFormat := SurfaceFormat(FormatB8G8R8A8Srgb, ColorSpaceSrgbNonlinear)

  /**
   * Game::chooseSwapSurfaceFormat (main.cpp:2719-2731): the preferred pair when it is offered,
   * else the first format. The list must be non-empty, since element 0 is read unguarded
   * (isDeviceSuitable only accepts devices offering some format).
   */
  method ChooseSwapSurfaceFormat(availableFormats: seq<SurfaceFormat>) returns (returned: SurfaceFormat)
    requires |availableFormats| > 0
    ensures PreferredFormat in availableFormats ==> returned == PreferredFormat
    ensures PreferredFormat !in availableFormats ==> returned == availableFormats[0]
  {
    returned := availableFormats[0];
    for i := 0 to |availableFormats|
      invariant PreferredFormat in availableFormats[..i] ==> returned == PreferredFormat
      invariant PreferredFormat !in availableFormats[..i] ==> returned == availableFormats[0]
    {
      var availableFormat := availableFormats[i];
      if availableFormat.format == FormatB8G8R8A8Srgb && availableFormat.colorSpace == ColorSpaceSrgbNonlinear {
        returned := availableFormat;
      }
      assert availableFormats[..i + 1] == availableFormats[..i] + [availableFormat];
    }
    assert availableFormats[..|availableFormats|] == availableFormats;
  }

  /**
   * Game::chooseSwapPresentMode (main.cpp:2733-2741): MAILBOX when offered, else FIFO, which
   * every device supports.
   */
  method ChooseSwapPresentMode(availablePresentModes: seq<int>) returns (r: int)
    ensures r == PresentModeMailbox <==> PresentModeMailbox in availablePresentModes
    ensures r != PresentModeMailbox ==> r == PresentModeFifo
  {
    for i := 0 to |availablePresentModes|
      invariant PresentModeMailbox !in availablePresentModes[..i]
    {
      if availablePresentModes[i] == PresentModeMailbox {
        return availablePresentModes[i];
      }
      assert availablePresentModes[..i + 1] == availablePresentModes[..i] + [availablePresentModes[i]];
    }
    assert availablePresentModes[..|availablePresentModes|] == availablePresentModes;
    return PresentModeFifo;
  }

  /**
   * The swapchain image count of createSwapChain (main.cpp:2424-2429): one more than the
   * minimum, in uint32 arithmetic, capped by the maximum when the maximum is non-zero.
   */
  function ImageCount(minImageCount: U32, maxImageCount: U32): (imageCount: U32)
    ensures maxImageCount > 0 ==> imageCount <= maxImageCount
  {
    var imageCount := (minImageCount + 1) % 0x1_0000_0000;
    if maxImageCount > 0 && imageCount > maxImageCount then maxImageCount else imageCount
  }

  /**
   * Without wrap-around the count is min + 1 capped by a non-zero max: it never drops below
   * the minimum while the capabilities are consistent (min <= max when max is set).
   */
  lemma ImageCountBounds(minImageCount: U32, maxImageCount: U32)
    requires minImageCount < 0xFFFF_FFFF
    ensures maxImageCount == 0 ==> ImageCount(minImageCount, maxImageCount) == minImageCount + 1
    ensures maxImageCount > 0 ==> ImageCount(minImageCount, maxImageCount) == if minImageCount + 1 <= maxImageCount then minImageCount + 1 else maxImageCount
    ensures maxImageCount == 0 || minImageCount <= maxImageCount ==> ImageCount(minImageCount, maxImageCount) >= minImageCount
  {
  }

  /** At the top of the uint32 range the increment wraps and no image is asked for. */
  lemma ImageCountWraps()
    ensures ImageCount(0xFFFF_FFFF, 0) == 0
  {
  }
}
