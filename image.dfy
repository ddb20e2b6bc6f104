/** Images (qz/gfx/image.cpp): the aspect a format implies, and the record
    Image::create fills in. The device objects themselves are opaque handles
    returned by VMA and Vulkan. */
module Images {
  import opened Vk

  /** Image::CreateInfo. */
  datatype CreateInfo = CreateInfo(width: nat, height: nat, mips: nat, format: Format, usage: Flags)

  /** Image. */
  datatype Image = Image(
    handle: Handle,
    view: Handle,
    allocation: Handle,
    aspect: Flags,
    format: Format,
    mips: nat,
    width: nat,
    height: nat)

  predicate IsDepthFormat(format: Format) {
    format == FormatD16Unorm || format == FormatD32Sfloat
  }

  predicate IsDepthStencilFormat(format: Format) {
    format == FormatD16UnormS8Uint || format == FormatD24UnormS8Uint || format == FormatD32SfloatS8Uint
  }

  /** aspect_from_format. The result is always one of exactly four aspect masks. */
  function AspectFromFormat(format: Format): (aspect: Flags)
    ensures aspect == AspectDepth || aspect == AspectDepth | AspectStencil
         || aspect == AspectStencil || aspect == AspectColor
  {
    if IsDepthFormat(format) then AspectDepth
    else if IsDepthStencilFormat(format) then AspectDepth | AspectStencil
    else if format == FormatS8Uint then AspectStencil
    else AspectColor
  }

  /** Which formats land on which aspect, in both directions. */
  lemma AspectFromFormatCases(format: Format)
    ensures AspectFromFormat(format) == AspectDepth <==> IsDepthFormat(format)
    ensures AspectFromFormat(format) == AspectDepth | AspectStencil <==> IsDepthStencilFormat(format)
    ensures AspectFromFormat(format) == AspectStencil <==> format == FormatS8Uint
    ensures AspectFromFormat(format) == AspectColor
        <==> !IsDepthFormat(format) && !IsDepthStencilFormat(format) && format != FormatS8Uint
  {
  }

  /** Image::create, given the handles vmaCreateImage and vkCreateImageView return. */
  function Create(info: CreateInfo, handle: Handle, allocation: Handle, view: Handle): (image: Image)
    ensures image.format == info.format && image.width == info.width
    ensures image.height == info.height && image.mips == info.mips
    ensures image.aspect == AspectFromFormat(info.format)
    ensures image.handle == handle && image.allocation == allocation && image.view == view
  {
    Image(handle, view, allocation, AspectFromFormat(info.format), info.format, info.mips, info.width, info.height)
  }
}
