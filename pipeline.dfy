/** The vertex input layout of Pipeline::create (qz/gfx/pipeline.cpp): one
    binding whose stride is the sum of the attribute sizes, and one attribute
    description per input attribute with consecutive locations and
    prefix-sum offsets. */
module Pipelines {
  import opened Vk

  /** VertexAttribute; its underlying value is its size in bytes. */
  datatype VertexAttribute = Vec1 | Vec2 | Vec3 | Vec4

  /** The enum's underlying value: sizeof(float[n]). */
  function Size(a: VertexAttribute): nat {
    match a
    case Vec1 => 4
    case Vec2 => 8
    case Vec3 => 12
    case Vec4 => 16
  }

  /** The number of 32-bit floats in an attribute. */
  function Components(a: VertexAttribute): nat {
    match a
    case Vec1 => 1
    case Vec2 => 2
    case Vec3 => 3
    case Vec4 => 4
  }

  /** The format switch; its UNDEFINED fallback is never reached. */
  function FormatOf(a: VertexAttribute): (format: Format)
    ensures format != FormatUndefined
    ensures a == Vec1 <==> format == FormatR32Sfloat
    ensures a == Vec2 <==> format == FormatR32G32Sfloat
    ensures a == Vec3 <==> format == FormatR32G32B32Sfloat
    ensures a == Vec4 <==> format == FormatR32G32B32A32Sfloat
  {
    match a
    case Vec1 => FormatR32Sfloat
    case Vec2 => FormatR32G32Sfloat
    case Vec3 => FormatR32G32B32Sfloat
    case Vec4 => FormatR32G32B32A32Sfloat
  }

  /** The std::accumulate fold: sizes added from the left. */
  function Stride(attrs: seq<VertexAttribute>): nat {
    if attrs == [] then 0 else Stride(attrs[..|attrs| - 1]) + Size(attrs[|attrs| - 1])
  }

  /** The number of floats in a vertex, counted front to back. */
  function Floats(attrs: seq<VertexAttribute>): nat {
    if attrs == [] then 0 else Components(attrs[0]) + Floats(attrs[1..])
  }

  lemma {:induction false} FloatsAppend(attrs: seq<VertexAttribute>, a: VertexAttribute)
    ensures Floats(attrs + [a]) == Floats(attrs) + Components(a)
  {
    if attrs == [] {
      assert (attrs + [a])[1..] == [];
    } else {
      assert (attrs + [a])[1..] == attrs[1..] + [a];
      FloatsAppend(attrs[1..], a);
    }
  }

  /** The stride is four bytes per float of the vertex. */
  lemma {:induction false} StrideIsFloatBytes(attrs: seq<VertexAttribute>)
    ensures Stride(attrs) == 4 * Floats(attrs)
  {
    if attrs != [] {
      var p := attrs[..|attrs| - 1];
      StrideIsFloatBytes(p);
      FloatsAppend(p, attrs[|attrs| - 1]);
      assert p + [attrs[|attrs| - 1]] == attrs;
    }
  }

  /** A longer prefix has a strictly larger sum, since every size is positive. */
  lemma {:induction false} StrideGrows(attrs: seq<VertexAttribute>, i: nat, j: nat)
    requires i < j <= |attrs|
    ensures Stride(attrs[..i]) < Stride(attrs[..j])
    decreases j
  {
    assert attrs[..j][..j - 1] == attrs[..j - 1];
    if i < j - 1 {
      StrideGrows(attrs, i, j - 1);
    }
  }

  /** VkVertexInputAttributeDescription. */
  datatype AttributeDescription = AttributeDescription(location: nat, binding: nat, format: Format, offset: nat)

  /** VkVertexInputBindingDescription. */
  datatype BindingDescription = BindingDescription(binding: nat, stride: nat, inputRate: nat)

  /** The attribute loop, with its `location` and `offset` counters. */
  method AttributeDescriptions(attrs: seq<VertexAttribute>) returns (descriptions: seq<AttributeDescription>)
    ensures |descriptions| == |attrs|
    ensures forall i :: 0 <= i < |attrs| ==>
      descriptions[i] == AttributeDescription(i, 0, FormatOf(attrs[i]), Stride(attrs[..i]))
  {
    descriptions := [];
    var location := 0;
    var offset := 0;
    for i := 0 to |attrs|
      invariant location == i && offset == Stride(attrs[..i])
      invariant |descriptions| == i
      invariant forall k :: 0 <= k < i ==>
        descriptions[k] == AttributeDescription(k, 0, FormatOf(attrs[k]), Stride(attrs[..k]))
    {
      var each := attrs[i];
      descriptions := descriptions + [AttributeDescription(location, 0, FormatOf(each), offset)];
      location := location + 1;
      offset := offset + Size(each);
      assert attrs[..i + 1][..i] == attrs[..i];
    }
  }

  /** Offsets increase strictly, each attribute ends where the next begins, and
      the last one ends at the stride. */
  lemma AttributesTileTheStride(attrs: seq<VertexAttribute>)
    ensures forall i, j :: 0 <= i < j < |attrs| ==> Stride(attrs[..i]) < Stride(attrs[..j])
    ensures forall i :: 0 <= i < |attrs| ==> Stride(attrs[..i]) + Size(attrs[i]) == Stride(attrs[..i + 1])
    ensures |attrs| > 0 ==> Stride(attrs[..|attrs| - 1]) + Size(attrs[|attrs| - 1]) == Stride(attrs)
  {
    forall i, j | 0 <= i < j < |attrs|
      ensures Stride(attrs[..i]) < Stride(attrs[..j])
    {
      StrideGrows(attrs, i, j);
    }
    forall i | 0 <= i < |attrs|
      ensures Stride(attrs[..i]) + Size(attrs[i]) == Stride(attrs[..i + 1])
    {
      assert attrs[..i + 1][..i] == attrs[..i];
    }
    assert attrs[..|attrs|] == attrs;
  }

  /** The parts of Pipeline::CreateInfo the layout reads. */
  datatype CreateInfo = CreateInfo(attributes: seq<VertexAttribute>, states: seq<nat>)

  /** The vertex input and dynamic state of the pipeline. */
  datatype VertexInputLayout = VertexInputLayout(
    dynamicStateCount: nat,
    bindings: seq<BindingDescription>,
    attributes: seq<AttributeDescription>)

  /** The layout part of Pipeline::create. */
  method VertexInput(info: CreateInfo) returns (layout: VertexInputLayout)
    ensures layout.dynamicStateCount == |info.states|
    ensures layout.bindings == [BindingDescription(0, 4 * Floats(info.attributes), InputRateVertex)]
    ensures |layout.attributes| == |info.attributes|
    ensures forall i :: 0 <= i < |info.attributes| ==>
      layout.attributes[i] == AttributeDescription(i, 0, FormatOf(info.attributes[i]), Stride(info.attributes[..i]))
  {
    var binding := BindingDescription(0, Stride(info.attributes), InputRateVertex);
    StrideIsFloatBytes(info.attributes);
    var descriptions := AttributeDescriptions(info.attributes);
    layout := VertexInputLayout(|info.states|, [binding], descriptions);
  }
}
