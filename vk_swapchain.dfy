/** The swap-chain decisions of nkCreateSwapChain in the Vulkan backend of
    Neko.h: the surface format, the present mode, the extent, the image
    count and the image sharing mode. What the driver reports for the
    surface arrives as values: the format and present-mode lists, and the
    surface capabilities. */
module VkSwapchain {
  import opened Alignment
  import opened VkTypes
  import opened VkDevice

  /** VkPresentModeKHR; `OtherPresentMode` stands for the remaining values,
      and its `code` is never that of a mode named here. */
  datatype VkPresentMode = Immediate | Mailbox | Fifo | FifoRelaxed | OtherPresentMode(code: int)

  /** VkColorSpaceKHR; `OtherColorSpace` stands for the remaining values,
      and its `code` is never that of SRGB_NONLINEAR. */
  datatype VkColorSpace = SrgbNonlinear | OtherColorSpace(code: int)

  /** VkSurfaceFormatKHR */
  datatype SurfaceFormat = SurfaceFormat(format: VkFormat, colorSpace: VkColorSpace)

  /** The surface format the backend asks for. */
  const PREFERRED_FORMAT := SurfaceFormat(B8G8R8A8_SRGB, SrgbNonlinear)

  // Present mode

  /** The present-mode loop from entry `i` on, as written: it stops before
      the last entry, so only the first count-1 entries are looked at. */
  function ScanPresentModes(available: seq<VkPresentMode>, i: nat): (mode: VkPresentMode)
    requires |available| != 0
    ensures mode == Mailbox <==> exists j :: i <= j < |available| - 1 && available[j] == Mailbox
    ensures mode != Mailbox ==> mode == Fifo
    decreases |available| - i
  {
    if i >= |available| - 1 then Fifo
    else if available[i] == Mailbox then available[i]
    else ScanPresentModes(available, i + 1)
  }

  /** nkVkChooseSwapPresentMode, as written. */
  method ChooseSwapPresentMode(available: seq<VkPresentMode>) returns (mode: VkPresentMode)
    requires |available| != 0
    ensures mode == ScanPresentModes(available, 0)
  {
    for i := 0 to |available| - 1
      invariant ScanPresentModes(available, i) == ScanPresentModes(available, 0)
    {
      if available[i] == Mailbox {
        return available[i];
      }
    }
    return Fifo;
  }

  /** The present mode the loop evidently means to pick: MAILBOX when the
      surface offers it, otherwise FIFO, which every surface supports. */
  function PresentMode(available: seq<VkPresentMode>): (mode: VkPresentMode)
    ensures mode == Mailbox <==> Mailbox in available
    ensures Fifo in available ==> mode in available
  {
    if Mailbox in available then Mailbox else Fifo
  }

  /** The loop as written differs from the intended choice exactly when the
      only MAILBOX entry is the last one. */
  lemma {:induction false} PresentModeScanMissesLast(available: seq<VkPresentMode>)
    requires |available| != 0
    ensures ScanPresentModes(available, 0) != PresentMode(available) <==>
              available[|available| - 1] == Mailbox && Mailbox !in available[..|available| - 1]
  {
    var last := |available| - 1;
    if Mailbox in available[..last] {
      var j :| 0 <= j < last && available[..last][j] == Mailbox;
      assert available[j] == Mailbox;
    }
  }

  /** A surface that offers MAILBOX only as its single mode gets FIFO. */
  lemma SingleMailboxIgnored()
    ensures ScanPresentModes([Mailbox], 0) == Fifo
    ensures PresentMode([Mailbox]) == Mailbox
  {
  }

  // Surface format

  /** The surface-format loop from entry `i` on, as written: it stops before
      the last entry, and falls back to the first entry. */
  function ScanSurfaceFormats(available: seq<SurfaceFormat>, i: nat): (format: SurfaceFormat)
    requires |available| != 0
    ensures (exists j :: i <= j < |available| - 1 && available[j] == PREFERRED_FORMAT) ==> format == PREFERRED_FORMAT
    ensures !(exists j :: i <= j < |available| - 1 && available[j] == PREFERRED_FORMAT) ==> format == available[0]
    decreases |available| - i
  {
    if i >= |available| - 1 then available[0]
    else if available[i].format == B8G8R8A8_SRGB && available[i].colorSpace == SrgbNonlinear then available[i]
    else ScanSurfaceFormats(available, i + 1)
  }

  /** nkVkChooseSwapSurfaceFormat, as written. */
  method ChooseSwapSurfaceFormat(available: seq<SurfaceFormat>) returns (format: SurfaceFormat)
    requires |available| != 0
    ensures format == ScanSurfaceFormats(available, 0)
  {
    for i := 0 to |available| - 1
      invariant ScanSurfaceFormats(available, i) == ScanSurfaceFormats(available, 0)
    {
      if available[i].format == B8G8R8A8_SRGB && available[i].colorSpace == SrgbNonlinear {
        return available[i];
      }
    }
    return available[0];
  }

  /** The surface format the loop evidently means to pick: B8G8R8A8_SRGB with
      the SRGB_NONLINEAR color space when the surface offers it, otherwise
      the first format offered. Either way the surface supports it. */
  function SurfaceFormatChoice(available: seq<SurfaceFormat>): (format: SurfaceFormat)
    requires |available| != 0
    ensures format in available
    ensures format == PREFERRED_FORMAT <==> PREFERRED_FORMAT in available
  {
    if PREFERRED_FORMAT in available then PREFERRED_FORMAT else available[0]
  }

  /** The loop as written differs from the intended choice exactly when the
      preferred format is offered only last, and not first. */
  lemma {:induction false} SurfaceFormatScanMissesLast(available: seq<SurfaceFormat>)
    requires |available| != 0
    ensures ScanSurfaceFormats(available, 0) != SurfaceFormatChoice(available) <==>
              && available[|available| - 1] == PREFERRED_FORMAT
              && PREFERRED_FORMAT !in available[..|available| - 1]
              && available[0] != PREFERRED_FORMAT
  {
    var last := |available| - 1;
    if PREFERRED_FORMAT in available[..last] {
      var j :| 0 <= j < last && available[..last][j] == PREFERRED_FORMAT;
      assert available[j] == PREFERRED_FORMAT;
    }
  }

  // Extent

  /** VkExtent2D */
  datatype Extent2D = Extent2D(width: U32, height: U32)

  /** The parts of VkSurfaceCapabilitiesKHR the swap chain reads. */
  datatype SurfaceCapabilities = SurfaceCapabilities(
    minImageCount: U32, maxImageCount: U32,
    currentExtent: Extent2D, minImageExtent: Extent2D, maxImageExtent: Extent2D)

  /** NK_MAX(lo, NK_MIN(hi, x)): when the bounds are ordered, the value of
      [lo, hi] nearest to x. */
  function Clamp(lo: U32, hi: U32, x: U32): (r: U32)
    ensures lo <= r
    ensures lo <= hi ==> r <= hi
    ensures lo <= hi ==> forall w :: lo <= w <= hi ==> Distance(r, x) <= Distance(w, x)
  {
    var smaller := if hi < x then hi else x;
    if lo > smaller then lo else smaller
  }

  function Distance(a: int, b: int): nat
  {
    if a < b then b - a else a - b
  }

  /** nkVkChooseSwapExtent: the surface's current extent, unless its width is
      the UINT32_MAX that lets the swap chain choose; then the requested
      size, each side brought into the surface's range. */
  function ChooseSwapExtent(capabilities: SurfaceCapabilities, width: U32, height: U32): (extent: Extent2D)
    ensures capabilities.currentExtent.width != UINT32_MAX ==> extent == capabilities.currentExtent
    ensures capabilities.currentExtent.width == UINT32_MAX ==>
              && capabilities.minImageExtent.width <= extent.width
              && capabilities.minImageExtent.height <= extent.height
    ensures capabilities.currentExtent.width == UINT32_MAX &&
            capabilities.minImageExtent.width <= capabilities.maxImageExtent.width &&
            capabilities.minImageExtent.height <= capabilities.maxImageExtent.height ==>
              && extent.width <= capabilities.maxImageExtent.width
              && extent.height <= capabilities.maxImageExtent.height
              && (capabilities.minImageExtent.width <= width <= capabilities.maxImageExtent.width ==> extent.width == width)
              && (capabilities.minImageExtent.height <= height <= capabilities.maxImageExtent.height ==> extent.height == height)
  {
    if capabilities.currentExtent.width != UINT32_MAX then capabilities.currentExtent
    else
      Extent2D(Clamp(capabilities.minImageExtent.width, capabilities.maxImageExtent.width, width),
               Clamp(capabilities.minImageExtent.height, capabilities.maxImageExtent.height, height))
  }

  // Image count

  /** The image count of nkCreateSwapChain: one more than the minimum, in
      uint32 arithmetic, capped at the maximum when there is one. */
  function ImageCount(capabilities: SurfaceCapabilities): (count: U32)
    ensures capabilities.maxImageCount > 0 ==> count <= capabilities.maxImageCount
    ensures capabilities.minImageCount < UINT32_MAX &&
            (capabilities.maxImageCount == 0 || capabilities.minImageCount < capabilities.maxImageCount) ==>
              count == capabilities.minImageCount + 1
    ensures capabilities.minImageCount < UINT32_MAX &&
            (capabilities.maxImageCount == 0 || capabilities.minImageCount <= capabilities.maxImageCount) ==>
              capabilities.minImageCount <= count
  {
    var imageCount := Truncate32(capabilities.minImageCount + 1);
    if capabilities.maxImageCount > 0 && imageCount > capabilities.maxImageCount then capabilities.maxImageCount
    else imageCount
  }

  /** A minimum of UINT32_MAX wraps the count around to 0. */
  lemma ImageCountWraps(capabilities: SurfaceCapabilities)
    requires capabilities.minImageCount == UINT32_MAX
    ensures ImageCount(capabilities) == 0
  {
    assert Truncate32(WORD32) == Mod(0, WORD32);
  }

  // Sharing

  /** VkSharingMode */
  datatype SharingMode = Exclusive | Concurrent

  /** The sharing fields of VkSwapchainCreateInfoKHR. */
  datatype ImageSharing = ImageSharing(mode: SharingMode, queueFamilyIndices: seq<U32>)

  /** The swap chain's images are shared between the graphics and the
      present family when these differ, and owned by the one family
      otherwise. */
  function SwapchainSharing(indices: QueueFamilyIndices): (sharing: ImageSharing)
    ensures sharing.mode == Concurrent <==> indices.graphicsFamily != indices.presentFamily
    ensures sharing.mode == Exclusive ==> sharing.queueFamilyIndices == []
    ensures sharing.mode == Concurrent ==>
              && |sharing.queueFamilyIndices| == 2
              && indices.graphicsFamily in sharing.queueFamilyIndices
              && indices.presentFamily in sharing.queueFamilyIndices
  {
    if indices.graphicsFamily != indices.presentFamily then
      ImageSharing(Concurrent, [indices.graphicsFamily, indices.presentFamily])
    else
      ImageSharing(Exclusive, [])
  }

  /** The swap chain shares its images between exactly the queue families the
      device creates queues for, and only when there is more than one. */
  lemma SharingMatchesQueues(indices: QueueFamilyIndices)
    ensures var sharing, queues := SwapchainSharing(indices), QueuesToCreate(indices);
            && (sharing.mode == Concurrent <==> |queues| == 2)
            && (sharing.mode == Concurrent ==>
                  sharing.queueFamilyIndices == [queues[0].queueFamilyIndex, queues[1].queueFamilyIndex])
  {
  }

  // The swap chain's create info

  /** The decisions nkCreateSwapChain feeds into VkSwapchainCreateInfoKHR. */
  datatype SwapchainSettings = SwapchainSettings(
    minImageCount: U32, surfaceFormat: SurfaceFormat, presentMode: VkPresentMode,
    imageExtent: Extent2D, sharing: ImageSharing)

  /** Everything nkCreateSwapChain decides, from what the surface reports,
      the requested size and the queue families, with the two choosers as
      written. The settings only use what the surface supports, even though
      the choosers skip the last entry of each list. */
  function SwapchainSettingsFor(formats: seq<SurfaceFormat>, presentModes: seq<VkPresentMode>,
                                capabilities: SurfaceCapabilities, width: U32, height: U32,
                                indices: QueueFamilyIndices): (settings: SwapchainSettings)
    requires |formats| != 0 && |presentModes| != 0
    ensures settings.surfaceFormat in formats
    ensures Fifo in presentModes ==> settings.presentMode in presentModes
    ensures (exists j :: 0 <= j < |formats| - 1 && formats[j] == PREFERRED_FORMAT) ==>
              settings.surfaceFormat == PREFERRED_FORMAT
    ensures settings.presentMode == Mailbox <==>
              exists j :: 0 <= j < |presentModes| - 1 && presentModes[j] == Mailbox
    ensures capabilities.maxImageCount > 0 ==> settings.minImageCount <= capabilities.maxImageCount
    ensures settings.sharing.mode == Concurrent <==> indices.graphicsFamily != indices.presentFamily
  {
    SwapchainSettings(
      ImageCount(capabilities),
      ScanSurfaceFormats(formats, 0),
      ScanPresentModes(presentModes, 0),
      ChooseSwapExtent(capabilities, width, height),
      SwapchainSharing(indices))
  }

  /** The same decisions with the two choosers as intended: the preferred
      surface format and MAILBOX are taken whenever the surface offers them.
      Only the format and the present mode differ from the settings as
      written. */
  function IntendedSwapchainSettingsFor(formats: seq<SurfaceFormat>, presentModes: seq<VkPresentMode>,
                                        capabilities: SurfaceCapabilities, width: U32, height: U32,
                                        indices: QueueFamilyIndices): (settings: SwapchainSettings)
    requires |formats| != 0 && |presentModes| != 0
    ensures settings.surfaceFormat in formats
    ensures settings.surfaceFormat == PREFERRED_FORMAT <==> PREFERRED_FORMAT in formats
    ensures settings.presentMode == Mailbox <==> Mailbox in presentModes
    ensures Fifo in presentModes ==> settings.presentMode in presentModes
    ensures var written := SwapchainSettingsFor(formats, presentModes, capabilities, width, height, indices);
            settings == written.(surfaceFormat := settings.surfaceFormat, presentMode := settings.presentMode)
  {
    SwapchainSettings(
      ImageCount(capabilities),
      SurfaceFormatChoice(formats),
      PresentMode(presentModes),
      ChooseSwapExtent(capabilities, width, height),
      SwapchainSharing(indices))
  }
}
