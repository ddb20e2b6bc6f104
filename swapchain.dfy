/** Swapchain parameter selection (qz/gfx/swapchain.cpp): image count, extent,
    surface format and the per-image records. The surface, the capabilities,
    the format list, the swapchain handle and its images and views come from
    the device and are parameters here. */
module Swapchains {
  import opened Vk
  import Images
  import RenderPasses

  /** VkSurfaceCapabilitiesKHR, the fields the selection reads. All are uint32. */
  datatype SurfaceCapabilities = SurfaceCapabilities(
    minImageCount: nat,
    maxImageCount: nat,
    currentExtent: Extent2D,
    minImageExtent: Extent2D,
    maxImageExtent: Extent2D)

  /** VkSurfaceFormatKHR. */
  datatype SurfaceFormat = SurfaceFormat(format: Format, colorSpace: nat)

  /** The one surface format the search prefers. */
  const Preferred := SurfaceFormat(FormatB8G8R8A8Srgb, ColorSpaceSrgbNonlinear)

  const UsageTransferDst: Flags := 0x2
  const UsageColorAttachment: Flags := 0x10
  const PresentModeImmediate: nat := 0

  /** The parts of VkSwapchainCreateInfoKHR that the selection decides. */
  datatype SwapchainCreateInfo = SwapchainCreateInfo(
    surface: Handle,
    minImageCount: nat,
    imageFormat: Format,
    imageColorSpace: nat,
    imageExtent: Extent2D,
    imageArrayLayers: nat,
    imageUsage: Flags,
    presentMode: nat)

  /** Swapchain. */
  datatype Swapchain = Swapchain(surface: Handle, handle: Handle, extent: Extent2D, format: Format, images: seq<Images.Image>)

  // ---------------------------------------------------------------- image count

  /** minImageCount + 1 in uint32 arithmetic. */
  function Requested(caps: SurfaceCapabilities): nat {
    (caps.minImageCount + 1) % Uint32Modulus
  }

  /** The image count: one more than the minimum, lowered to the maximum only
      when there is a maximum (maxImageCount > 0) and the request exceeds it. */
  method ChooseImageCount(caps: SurfaceCapabilities) returns (count: nat)
    ensures caps.maxImageCount > 0 ==> count <= caps.maxImageCount
    ensures count == Requested(caps) || (0 < caps.maxImageCount == count < Requested(caps))
  {
    count := (caps.minImageCount + 1) % Uint32Modulus;
    if caps.maxImageCount > 0 && count > caps.maxImageCount {
      count := caps.maxImageCount;
    }
  }

  /** For capabilities within the limits a surface reports (a maximum of 0 or
      at least the minimum, and a minimum below 0xFFFFFFFF) the count lies in
      [minImageCount, maxImageCount] and exceeds the minimum when it can. */
  lemma ImageCountWithinLimits(caps: SurfaceCapabilities, count: nat)
    requires caps.minImageCount < Uint32Max
    requires caps.maxImageCount == 0 || caps.minImageCount <= caps.maxImageCount
    requires caps.maxImageCount > 0 ==> count <= caps.maxImageCount
    requires count == Requested(caps) || (0 < caps.maxImageCount == count < Requested(caps))
    ensures caps.minImageCount <= count
    ensures (caps.maxImageCount == 0 || caps.minImageCount < caps.maxImageCount) ==> count == caps.minImageCount + 1
  {
  }

  // ---------------------------------------------------------------- extent

  /** std::clamp, which requires lo <= hi. */
  function Clamp(v: nat, lo: nat, hi: nat): (r: nat)
    requires lo <= hi
    ensures lo <= r <= hi
    ensures lo <= v <= hi ==> r == v
    ensures v < lo ==> r == lo
    ensures hi < v ==> r == hi
  {
    if v < lo then lo else if hi < v then hi else v
  }

  /** A current width of 0xFFFFFFFF is the special value meaning that the
      surface size is set by the swapchain (Vulkan 1.2, Window System
      Integration chapter, VkSurfaceCapabilitiesKHR). */
  predicate SizeSetBySwapchain(caps: SurfaceCapabilities) {
    caps.currentExtent.width == Uint32Max
  }

  /** The extent: the surface's current extent, or else the window size clamped
      into the supported range, dimension by dimension. */
  function ChooseExtent(caps: SurfaceCapabilities, window: Extent2D): (extent: Extent2D)
    requires SizeSetBySwapchain(caps) ==>
      caps.minImageExtent.width <= caps.maxImageExtent.width && caps.minImageExtent.height <= caps.maxImageExtent.height
    ensures !SizeSetBySwapchain(caps) ==> extent == caps.currentExtent
    ensures SizeSetBySwapchain(caps) ==>
      && caps.minImageExtent.width <= extent.width <= caps.maxImageExtent.width
      && caps.minImageExtent.height <= extent.height <= caps.maxImageExtent.height
    ensures SizeSetBySwapchain(caps) && caps.minImageExtent.width <= window.width <= caps.maxImageExtent.width ==>
      extent.width == window.width
    ensures SizeSetBySwapchain(caps) && caps.minImageExtent.height <= window.height <= caps.maxImageExtent.height ==>
      extent.height == window.height
  {
    if !SizeSetBySwapchain(caps) then caps.currentExtent
    else Extent2D(
      Clamp(window.width, caps.minImageExtent.width, caps.maxImageExtent.width),
      Clamp(window.height, caps.minImageExtent.height, caps.maxImageExtent.height))
  }

  // ---------------------------------------------------------------- format

  /** The format search: the preferred format if the surface offers it, else
      the first one offered. */
  method ChooseFormat(formats: seq<SurfaceFormat>) returns (format: SurfaceFormat)
    requires |formats| > 0
    ensures Preferred in formats ==> format == Preferred
    ensures Preferred !in formats ==> format == formats[0]
  {
    format := formats[0];
    var i := 0;
    while i < |formats|
      invariant 0 <= i <= |formats|
      invariant Preferred !in formats[..i]
      invariant format == formats[0]
    {
      var each := formats[i];
      if each.format == FormatB8G8R8A8Srgb && each.colorSpace == ColorSpaceSrgbNonlinear {
        format := each;
        return;
      }
      assert formats[..i + 1] == formats[..i] + [each];
      i := i + 1;
    }
    assert formats[..i] == formats;
  }

  // ---------------------------------------------------------------- images

  /** The record of swapchain image i. */
  function SwapchainImage(handle: Handle, view: Handle, format: Format, extent: Extent2D): Images.Image {
    Images.Image(handle, view, NullHandle, AspectColor, format, 1, extent.width, extent.height)
  }

  /** The image-record loop: one record per swapchain image, in order. */
  method ImageRecords(handles: seq<Handle>, views: seq<Handle>, format: Format, extent: Extent2D)
    returns (images: seq<Images.Image>)
    requires |views| == |handles|
    ensures |images| == |handles|
    ensures forall i :: 0 <= i < |handles| ==>
      && images[i].handle == handles[i] && images[i].view == views[i] && images[i].allocation == NullHandle
      && images[i].aspect == AspectColor && images[i].mips == 1 && images[i].format == format
      && images[i].width == extent.width && images[i].height == extent.height
  {
    images := [];
    var i := 0;
    while i < |handles|
      invariant 0 <= i <= |handles|
      invariant |images| == i
      invariant forall k :: 0 <= k < i ==> images[k] == SwapchainImage(handles[k], views[k], format, extent)
    {
      images := images + [Images.Image(handles[i], views[i], NullHandle, AspectColor, format, 1, extent.width, extent.height)];
      i := i + 1;
    }
  }

  /** Swapchain::create, the choices and records between the device calls. */
  method Create(surface: Handle, handle: Handle, caps: SurfaceCapabilities, window: Extent2D,
                formats: seq<SurfaceFormat>, imageHandles: seq<Handle>, views: seq<Handle>)
    returns (swapchain: Swapchain, info: SwapchainCreateInfo)
    requires |formats| > 0 && |views| == |imageHandles|
    requires SizeSetBySwapchain(caps) ==>
      caps.minImageExtent.width <= caps.maxImageExtent.width && caps.minImageExtent.height <= caps.maxImageExtent.height
    ensures info.surface == surface && info.imageExtent == ChooseExtent(caps, window)
    ensures caps.maxImageCount > 0 ==> info.minImageCount <= caps.maxImageCount
    ensures info.minImageCount == Requested(caps) || (0 < caps.maxImageCount == info.minImageCount < Requested(caps))
    ensures Preferred in formats ==> info.imageFormat == Preferred.format && info.imageColorSpace == Preferred.colorSpace
    ensures Preferred !in formats ==> info.imageFormat == formats[0].format && info.imageColorSpace == formats[0].colorSpace
    ensures info.imageArrayLayers == 1 && info.imageUsage == UsageColorAttachment | UsageTransferDst
    ensures info.presentMode == PresentModeImmediate
    ensures swapchain.surface == surface && swapchain.handle == handle
    ensures swapchain.extent == info.imageExtent && swapchain.format == info.imageFormat
    ensures |swapchain.images| == |imageHandles|
    ensures forall i :: 0 <= i < |imageHandles| ==>
      swapchain.images[i] == SwapchainImage(imageHandles[i], views[i], swapchain.format, swapchain.extent)
  {
    var count := ChooseImageCount(caps);
    var extent := ChooseExtent(caps, window);
    var format := ChooseFormat(formats);
    info := SwapchainCreateInfo(surface, count, format.format, format.colorSpace, extent, 1,
                                UsageColorAttachment | UsageTransferDst, PresentModeImmediate);
    var images := ImageRecords(imageHandles, views, format.format, extent);
    swapchain := Swapchain(surface, handle, extent, format.format, images);
  }

  /** operator[]. */
  function At(swapchain: Swapchain, idx: nat): Images.Image
    requires idx < |swapchain.images|
  {
    swapchain.images[idx]
  }

  /** Every swapchain image can be bound as a colour attachment: its reference
      layout is COLOR_ATTACHMENT_OPTIMAL and it has one mip level. */
  lemma SwapchainImagesAreColorTargets(handle: Handle, view: Handle, format: Format, extent: Extent2D)
    ensures var image := SwapchainImage(handle, view, format, extent);
      && RenderPasses.ReferenceLayout(image.aspect) == LayoutColorAttachmentOptimal
      && image.mips == 1 && image.width == extent.width && image.height == extent.height
  {
    RenderPasses.ReferenceLayoutCases(AspectColor);
  }
}
