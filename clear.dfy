/** The clear value an attachment is created with (qz/gfx/clear.hpp): a tagged
    union that is either nothing, a colour or a depth/stencil pair. The float
    payloads are kept as opaque 32-bit patterns. */
module ClearValues {
  /** VkClearColorValue: four 32-bit channels. */
  datatype ColorPayload = ColorPayload(r: bv32, g: bv32, b: bv32, a: bv32)

  /** VkClearDepthStencilValue: a float depth (as bits) and a uint32 stencil. */
  datatype DepthStencilPayload = DepthStencilPayload(depth: bv32, stencil: bv32)

  /** VkClearValue as the device reads it. A value-initialised VkClearValue
      (`{}`) zero-initialises its first member, the colour. */
  datatype RawClearValue =
    | ColorValue(color: ColorPayload)
    | DepthStencilValue(depthStencil: DepthStencilPayload)

  const ZeroClearValue: RawClearValue := ColorValue(ColorPayload(0, 0, 0, 0))

  /** ClearColor: a default-constructed one is all zero. */
  datatype ClearColor = ClearColor(value: ColorPayload)
  const DefaultClearColor: ClearColor := ClearColor(ColorPayload(0, 0, 0, 0))

  /** ClearDepth: a default-constructed one is all zero. */
  datatype ClearDepth = ClearDepth(value: DepthStencilPayload)
  const DefaultClearDepth: ClearDepth := ClearDepth(DepthStencilPayload(0, 0))

  /** ClearValue::Kind. */
  datatype Kind = NoneKind | ColorKind | DepthKind

  /** ClearValue: `NoClear` is the default constructor, `OfColor` and `OfDepth`
      the converting constructors from ClearColor and ClearDepth. */
  datatype ClearValue = NoClear | OfColor(color: ClearColor) | OfDepth(depth: ClearDepth) {
    /** ClearValue::type(). */
    function Type(): Kind {
      match this
      case NoClear => NoneKind
      case OfColor(_) => ColorKind
      case OfDepth(_) => DepthKind
    }

    /** ClearValue::value(): the payload the device clears the attachment to. */
    function Value(): RawClearValue {
      match this
      case NoClear => ZeroClearValue
      case OfColor(c) => ColorValue(c.value)
      case OfDepth(d) => DepthStencilValue(d.value)
    }
  }

  const DefaultClearValue: ClearValue := NoClear

  /** The constructors determine the kind, and the kind determines the constructor. */
  lemma KindOfConstructors(v: ClearValue, c: ClearColor, d: ClearDepth)
    ensures DefaultClearValue.Type() == NoneKind
    ensures OfColor(c).Type() == ColorKind
    ensures OfDepth(d).Type() == DepthKind
    ensures v.Type() == NoneKind <==> v == DefaultClearValue
  {
  }

  /** value() gives back the payload the ClearValue was constructed from, and the
      zero value when it holds nothing. */
  lemma ValueRoundTrip(v: ClearValue)
    ensures v.Type() == NoneKind ==> v.Value() == ZeroClearValue
    ensures v.Type() == ColorKind ==> v.Value() == ColorValue(v.color.value)
    ensures v.Type() == DepthKind ==> v.Value() == DepthStencilValue(v.depth.value)
  {
  }

  /** The kind and the raw payload together determine the clear value: two
      values the device cannot tell apart differ at most in their kind. */
  lemma ValueAndTypeDetermineClear(v: ClearValue, w: ClearValue)
    ensures v.Value() == w.Value() && v.Type() == w.Type() ==> v == w
  {
  }

  /** A value that clears nothing and a default colour clear hand the device the
      same bits; only the kind (and so the load op) tells them apart. */
  lemma NoneAndDefaultColorShareValue()
    ensures DefaultClearValue.Value() == OfColor(DefaultClearColor).Value()
    ensures DefaultClearValue.Type() != OfColor(DefaultClearColor).Type()
  {
  }
}
