/**
 * The rules createSwapchain applies to the surface queries: surface format,
 * present mode, image extent, image count and image sharing mode.  The
 * window's framebuffer size, which the renderer asks GLFW for, is a
 * parameter.
 */
module SwapchainSelection {
  import opened Vk
  import opened Utilities

  // ---------------------------------------------------------------------
  // Surface format

  /** The format the renderer asks for when the surface accepts any format. */
  const DEFAULT_SURFACE_FORMAT: SurfaceFormat := SurfaceFormat(FORMAT_R8G8B8A8_UNORM, COLOR_SPACE_SRGB_NONLINEAR)

  /** An 8-bit RGBA or BGRA format; the colour space is not looked at. */
  predicate IsPreferredFormat(f: SurfaceFormat) {
    f.format == FORMAT_R8G8B8A8_UNORM || f.format == FORMAT_B8G8R8A8_UNORM
  }

  /**
   * The single-entry UNDEFINED list with which a surface says it accepts
   * every format.
   */
  predicate AcceptsAnyFormat(formats: seq<SurfaceFormat>) {
    |formats| == 1 && formats[0].format == FORMAT_UNDEFINED
  }

  /** Position of the first preferred format, or |formats| if there is none. */
  function FirstPreferredFormat(formats: seq<SurfaceFormat>): (k: nat)
    ensures k <= |formats|
    ensures k < |formats| ==> IsPreferredFormat(formats[k])
    ensures forall j :: 0 <= j < k ==> !IsPreferredFormat(formats[j])
  {
    if formats == [] then 0
    else if IsPreferredFormat(formats[0]) then 0
    else 1 + FirstPreferredFormat(formats[1..])
  }

  /**
   * chooseBestSurfaceFormat: the default format when the surface accepts any
   * format, otherwise the first 8-bit RGBA/BGRA entry, otherwise the first
   * entry.  The list must not be empty (the first entry is read).
   */
  function ChooseBestSurfaceFormat(formats: seq<SurfaceFormat>): (r: SurfaceFormat)
    requires |formats| > 0
    ensures AcceptsAnyFormat(formats) ==> r == DEFAULT_SURFACE_FORMAT
    ensures !AcceptsAnyFormat(formats) ==> r in formats
    ensures !AcceptsAnyFormat(formats) && (exists i :: 0 <= i < |formats| && IsPreferredFormat(formats[i])) ==>
      IsPreferredFormat(r) &&
      exists i :: 0 <= i < |formats| && formats[i] == r && forall j :: 0 <= j < i ==> !IsPreferredFormat(formats[j])
    ensures !AcceptsAnyFormat(formats) && (forall i :: 0 <= i < |formats| ==> !IsPreferredFormat(formats[i])) ==>
      r == formats[0]
  {
    if AcceptsAnyFormat(formats) then DEFAULT_SURFACE_FORMAT
    else
      var k := FirstPreferredFormat(formats);
      if k < |formats| then formats[k] else formats[0]
  }

  /**
   * The colour space is not part of the test: a BGRA entry in a wide-gamut
   * colour space is chosen before a later RGBA entry in sRGB.
   */
  lemma ColourSpaceIsNotChecked()
    ensures var wide := SurfaceFormat(FORMAT_B8G8R8A8_UNORM, 1000104002);
            var srgb := SurfaceFormat(FORMAT_R8G8B8A8_UNORM, COLOR_SPACE_SRGB_NONLINEAR);
            ChooseBestSurfaceFormat([wide, srgb]).colorSpace != COLOR_SPACE_SRGB_NONLINEAR
  {
    var wide := SurfaceFormat(FORMAT_B8G8R8A8_UNORM, 1000104002);
    var srgb := SurfaceFormat(FORMAT_R8G8B8A8_UNORM, COLOR_SPACE_SRGB_NONLINEAR);
    assert FirstPreferredFormat([wide, srgb]) == 0;
  }

  // ---------------------------------------------------------------------
  // Present mode

  /**
   * chooseBestPresentationMode: MAILBOX if the surface offers it, otherwise
   * FIFO, which every surface supports.
   */
  function ChooseBestPresentationMode(presentationModes: seq<nat>): (r: nat)
    ensures r == PRESENT_MODE_MAILBOX <==> PRESENT_MODE_MAILBOX in presentationModes
    ensures r != PRESENT_MODE_MAILBOX ==> r == PRESENT_MODE_FIFO
  {
    if presentationModes == [] then PRESENT_MODE_FIFO
    else if presentationModes[0] == PRESENT_MODE_MAILBOX then PRESENT_MODE_MAILBOX
    else ChooseBestPresentationMode(presentationModes[1..])
  }

  /**
   * On a surface that lists FIFO, as the VK_KHR_surface extension requires of
   * every surface, the chosen mode is one the surface offers.
   */
  lemma PresentationModeIsOffered(presentationModes: seq<nat>)
    requires PRESENT_MODE_FIFO in presentationModes
    ensures ChooseBestPresentationMode(presentationModes) in presentationModes
  {
  }

  // ---------------------------------------------------------------------
  // Extent

  /** currentExtent.width == UINT32_MAX: the surface size follows the swapchain. */
  predicate ExtentIsVariable(caps: SurfaceCapabilities) {
    caps.currentExtent.width == UINT32_MAX
  }

  function Min(a: u32, b: u32): u32 {
    if a <= b then a else b
  }

  function Max(a: u32, b: u32): u32 {
    if a >= b then a else b
  }

  /**
   * chooseSwapExtent as written: the current extent when it is fixed,
   * otherwise `max(maxExtent, min(maxExtent, window))` per component, which
   * is always the maximum extent.  The window size is cast to uint32.
   */
  function ChooseSwapExtent(caps: SurfaceCapabilities, windowWidth: int, windowHeight: int): (r: Extent2D)
    ensures !ExtentIsVariable(caps) ==> r == caps.currentExtent
    ensures ExtentIsVariable(caps) ==> r == caps.maxImageExtent
  {
    if !ExtentIsVariable(caps) then caps.currentExtent
    else
      var width := ToU32(windowWidth);
      var height := ToU32(windowHeight);
      Extent2D(
        Max(caps.maxImageExtent.width, Min(caps.maxImageExtent.width, width)),
        Max(caps.maxImageExtent.height, Min(caps.maxImageExtent.height, height)))
  }

  /** `max(lo, min(hi, v))`: v clamped into [lo, hi]. */
  function Clamp(lo: u32, hi: u32, v: u32): (r: u32)
    ensures lo <= hi ==> lo <= r <= hi
    ensures lo <= v <= hi ==> r == v
    ensures v < lo ==> r == lo
    ensures lo <= hi < v ==> r == hi
  {
    Max(lo, Min(hi, v))
  }

  /**
   * chooseSwapExtent as intended: the window size clamped between the
   * surface's minimum and maximum extents.
   */
  function ChooseSwapExtentClamped(caps: SurfaceCapabilities, windowWidth: int, windowHeight: int): (r: Extent2D)
    ensures !ExtentIsVariable(caps) ==> r == caps.currentExtent
    ensures ExtentIsVariable(caps) && caps.minImageExtent.width <= caps.maxImageExtent.width ==>
      caps.minImageExtent.width <= r.width <= caps.maxImageExtent.width
    ensures ExtentIsVariable(caps) && caps.minImageExtent.height <= caps.maxImageExtent.height ==>
      caps.minImageExtent.height <= r.height <= caps.maxImageExtent.height
    ensures ExtentIsVariable(caps) && caps.minImageExtent.width <= windowWidth <= caps.maxImageExtent.width ==>
      r.width == windowWidth
    ensures ExtentIsVariable(caps) && caps.minImageExtent.height <= windowHeight <= caps.maxImageExtent.height ==>
      r.height == windowHeight
    ensures ExtentIsVariable(caps) && 0 <= windowWidth < caps.minImageExtent.width ==>
      r.width == caps.minImageExtent.width
    ensures ExtentIsVariable(caps) && 0 <= windowHeight < caps.minImageExtent.height ==>
      r.height == caps.minImageExtent.height
    ensures ExtentIsVariable(caps) && caps.minImageExtent.width <= caps.maxImageExtent.width < windowWidth <= UINT32_MAX ==>
      r.width == caps.maxImageExtent.width
    ensures ExtentIsVariable(caps) && caps.minImageExtent.height <= caps.maxImageExtent.height < windowHeight <= UINT32_MAX ==>
      r.height == caps.maxImageExtent.height
  {
    if !ExtentIsVariable(caps) then caps.currentExtent
    else
      Extent2D(
        Clamp(caps.minImageExtent.width, caps.maxImageExtent.width, ToU32(windowWidth)),
        Clamp(caps.minImageExtent.height, caps.maxImageExtent.height, ToU32(windowHeight)))
  }

  /**
   * An 800 x 600 window on a surface whose extent may range from 1 x 1 to
   * 4096 x 4096: the code as written asks for 4096 x 4096 swapchain images,
   * the intended clamp keeps the window size.
   */
  lemma SwapExtentIgnoresWindow()
    ensures var caps := SurfaceCapabilities(2, 8, Extent2D(UINT32_MAX, UINT32_MAX), Extent2D(1, 1), Extent2D(4096, 4096), 1);
            ChooseSwapExtent(caps, 800, 600) == Extent2D(4096, 4096) &&
            ChooseSwapExtentClamped(caps, 800, 600) == Extent2D(800, 600)
  {
  }

  // ---------------------------------------------------------------------
  // Image count

  /**
   * The image count createSwapchain requests: one more than the minimum
   * (in uint32 arithmetic), lowered to the maximum when there is a maximum
   * and it is smaller.
   */
  function ImageCount(caps: SurfaceCapabilities): (r: u32)
    ensures caps.minImageCount < UINT32_MAX && caps.maxImageCount == 0 ==> r == caps.minImageCount + 1
    ensures caps.minImageCount < UINT32_MAX && caps.maxImageCount != 0 ==>
      r == if caps.minImageCount + 1 <= caps.maxImageCount then caps.minImageCount + 1 else caps.maxImageCount
    ensures caps.minImageCount == UINT32_MAX ==> r == 0
  {
    var imageCount := ToU32(caps.minImageCount + 1);
    if caps.maxImageCount > 0 && caps.maxImageCount < imageCount then caps.maxImageCount else imageCount
  }

  /**
   * The Vulkan rule for vkCreateSwapchainKHR: the requested count lies
   * between the surface's minimum and maximum (when there is a maximum), and
   * exceeds the minimum whenever the maximum allows it.
   */
  lemma ImageCountWithinSurfaceLimits(caps: SurfaceCapabilities)
    requires caps.minImageCount < UINT32_MAX
    requires caps.maxImageCount == 0 || caps.minImageCount <= caps.maxImageCount
    ensures caps.minImageCount <= ImageCount(caps)
    ensures caps.maxImageCount != 0 ==> ImageCount(caps) <= caps.maxImageCount
    ensures (caps.maxImageCount == 0 || caps.minImageCount < caps.maxImageCount) ==> ImageCount(caps) == caps.minImageCount + 1
  {
  }

  // ---------------------------------------------------------------------
  // Sharing mode

  /** The sharing fields of VkSwapchainCreateInfoKHR. */
  datatype ImageSharing = ImageSharing(imageSharingMode: SharingMode, queueFamilyIndexCount: nat, queueFamilyIndices: seq<u32>)

  /**
   * Images are shared concurrently between the graphics and presentation
   * families when they differ, and owned exclusively otherwise.  The int
   * indices are cast to uint32.
   */
  function SharingFor(indices: QueueFamilyIndices): (r: ImageSharing)
    ensures r.imageSharingMode == Concurrent <==> indices.graphicsFamily != indices.presentationFamily
    ensures r.queueFamilyIndexCount == |r.queueFamilyIndices|
    ensures r.imageSharingMode == Concurrent ==>
      r.queueFamilyIndices == [ToU32(indices.graphicsFamily), ToU32(indices.presentationFamily)]
    ensures r.imageSharingMode == Exclusive ==> r.queueFamilyIndices == []
  {
    if indices.graphicsFamily != indices.presentationFamily then
      ImageSharing(Concurrent, 2, [ToU32(indices.graphicsFamily), ToU32(indices.presentationFamily)])
    else
      ImageSharing(Exclusive, 0, [])
  }

  /**
   * For valid indices the concurrent family list names exactly the two
   * families, and they are distinct, as vkCreateSwapchainKHR requires of a
   * CONCURRENT list.
   */
  lemma ConcurrentFamiliesDistinct(indices: QueueFamilyIndices)
    requires indices.IsValid()
    requires indices.graphicsFamily <= UINT32_MAX && indices.presentationFamily <= UINT32_MAX
    ensures var r := SharingFor(indices);
            r.imageSharingMode == Concurrent ==>
              r.queueFamilyIndices[0] == indices.graphicsFamily &&
              r.queueFamilyIndices[1] == indices.presentationFamily &&
              r.queueFamilyIndices[0] != r.queueFamilyIndices[1]
  {
  }

  // ---------------------------------------------------------------------
  // Create info

  /** VkSwapchainCreateInfoKHR without the structure type and the flags. */
  datatype SwapchainCreateInfo = SwapchainCreateInfo(
    surface: Handle,
    imageFormat: nat,
    imageColorSpace: nat,
    presentMode: nat,
    imageExtent: Extent2D,
    minImageCount: u32,
    imageArrayLayers: nat,
    imageUsage: bv32,
    preTransform: bv32,
    compositeAlpha: bv32,
    clipped: bool,
    sharing: ImageSharing,
    oldSwapchain: Handle)

  /**
   * The create info createSwapchain assembles from the surface, its
   * details, the queue families and the window size, with the intended
   * extent clamp in place of the one as written.
   */
  function SwapchainCreateInfoFor(surface: Handle, details: SwapchainDetails, indices: QueueFamilyIndices,
                                  windowWidth: int, windowHeight: int): (r: SwapchainCreateInfo)
    requires |details.formats| > 0
    ensures r.surface == surface
    ensures SurfaceFormat(r.imageFormat, r.imageColorSpace) == ChooseBestSurfaceFormat(details.formats)
    ensures r.presentMode == ChooseBestPresentationMode(details.presentationModes)
    ensures r.imageExtent == ChooseSwapExtentClamped(details.surfaceCapabilities, windowWidth, windowHeight)
    ensures r.minImageCount == ImageCount(details.surfaceCapabilities)
    ensures r.imageArrayLayers == 1 && r.imageUsage == IMAGE_USAGE_COLOR_ATTACHMENT_BIT
    ensures r.preTransform == details.surfaceCapabilities.currentTransform
    ensures r.compositeAlpha == COMPOSITE_ALPHA_OPAQUE_BIT && r.clipped
    ensures r.sharing == SharingFor(indices)
    ensures r.oldSwapchain == NULL_HANDLE
  {
    var format := ChooseBestSurfaceFormat(details.formats);
    var caps := details.surfaceCapabilities;
    SwapchainCreateInfo(
      surface,
      format.format, format.colorSpace,
      ChooseBestPresentationMode(details.presentationModes),
      ChooseSwapExtentClamped(caps, windowWidth, windowHeight),
      ImageCount(caps),
      1,
      IMAGE_USAGE_COLOR_ATTACHMENT_BIT,
      caps.currentTransform,
      COMPOSITE_ALPHA_OPAQUE_BIT,
      true,
      SharingFor(indices),
      NULL_HANDLE)
  }

  /**
   * Where the create info's extent agrees with the code as written: on a
   * surface with a fixed current extent, and on a variable one whenever the
   * window is at least as large as the maximum extent.
   */
  lemma CreateInfoExtentAsWritten(surface: Handle, details: SwapchainDetails, indices: QueueFamilyIndices,
                                  windowWidth: int, windowHeight: int)
    requires |details.formats| > 0
    ensures var caps := details.surfaceCapabilities;
            var extent := SwapchainCreateInfoFor(surface, details, indices, windowWidth, windowHeight).imageExtent;
            (!ExtentIsVariable(caps) ||
             (caps.minImageExtent.width <= caps.maxImageExtent.width <= windowWidth <= UINT32_MAX &&
              caps.minImageExtent.height <= caps.maxImageExtent.height <= windowHeight <= UINT32_MAX)) ==>
            extent == ChooseSwapExtent(caps, windowWidth, windowHeight)
  {
  }
}
