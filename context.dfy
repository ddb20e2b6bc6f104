/** The selection logic of Context::create (qz/gfx/context.cpp): name
    availability checks, the choice of graphics card and of queue family, and
    the queues taken from that family. Enumerations the device performs are
    parameters. */
module Contexts {
  import opened Vk
  import opened Wrappers

  /** The inner any_of: some available name is string-equal to `name`. */
  function AnyNamed(available: seq<string>, name: string): (found: bool)
    ensures found <==> name in available
  {
    if available == [] then false
    else available[0] == name || AnyNamed(available[1..], name)
  }

  /** The outer all_of, shared by query_instance_extension_availability,
      query_layer_availability and query_device_extension_availability. */
  function AllAvailable(requested: seq<string>, available: seq<string>): (ok: bool)
    ensures ok <==> forall k :: 0 <= k < |requested| ==> requested[k] in available
    ensures requested == [] ==> ok
  {
    if requested == [] then true
    else AnyNamed(available, requested[0]) && AllAvailable(requested[1..], available)
  }

  /** A physical device as is_graphics_card_suitable sees it. */
  datatype PhysicalDevice = PhysicalDevice(handle: Handle, deviceType: nat)

  /** is_graphics_card_suitable. */
  predicate IsGraphicsCardSuitable(gpu: PhysicalDevice) {
    gpu.deviceType == DeviceTypeDiscreteGpu
  }

  /** The GPU loop: the first suitable card in enumeration order; None when
      there is none, the case the following assertion rejects. */
  method SelectGpu(cards: seq<PhysicalDevice>) returns (gpu: Option<PhysicalDevice>)
    ensures gpu.None? <==> forall i :: 0 <= i < |cards| ==> cards[i].deviceType != DeviceTypeDiscreteGpu
    ensures gpu.Some? ==> exists i :: (0 <= i < |cards| && cards[i] == gpu.value && IsGraphicsCardSuitable(cards[i])
      && forall j :: 0 <= j < i ==> !IsGraphicsCardSuitable(cards[j]))
  {
    gpu := None;
    for i := 0 to |cards|
      invariant forall j :: 0 <= j < i ==> !IsGraphicsCardSuitable(cards[j])
    {
      if IsGraphicsCardSuitable(cards[i]) {
        gpu := Some(cards[i]);
        return;
      }
    }
  }

  /** The queue-family loop: the index of the first family with the graphics
      bit, or the default 0xFFFFFFFF when none has it. Family counts are
      uint32, so a found index is never the default. */
  method SelectQueueFamily(families: seq<Flags>) returns (family: nat)
    requires |families| <= Uint32Max
    ensures family == Uint32Max <==> forall i :: 0 <= i < |families| ==> families[i] & QueueGraphics == 0
    ensures family != Uint32Max ==>
      family < |families| && families[family] & QueueGraphics != 0
      && forall j :: 0 <= j < family ==> families[j] & QueueGraphics == 0
  {
    family := Uint32Max;
    var index := 0;
    while index < |families|
      invariant 0 <= index <= |families|
      invariant forall j :: 0 <= j < index ==> families[j] & QueueGraphics == 0
    {
      if families[index] & QueueGraphics != 0 {
        family := index;
        return;
      }
      index := index + 1;
    }
  }

  /** The two queue priorities; only their number matters here. */
  const PriorityCount: nat := 2

  /** VkDeviceQueueCreateInfo. */
  datatype QueueCreateInfo = QueueCreateInfo(familyIndex: nat, queueCount: nat)

  /** A queue fetched with vkGetDeviceQueue. */
  datatype QueueRef = QueueRef(family: nat, index: nat)

  /** The queue creation and retrieval of Context::create: one create info
      for the chosen family, then the graphics queue at index 0 and the
      transfer queue at index 1 of it. */
  method Queues(family: nat) returns (info: QueueCreateInfo, graphics: QueueRef, transfer: QueueRef)
    ensures info.familyIndex == family && info.queueCount == PriorityCount
    ensures graphics.family == family && transfer.family == family
    ensures graphics.index < info.queueCount && transfer.index < info.queueCount
    ensures graphics != transfer
    ensures graphics == QueueRef(family, 0) && transfer == QueueRef(family, 1)
  {
    info := QueueCreateInfo(family, PriorityCount);
    graphics := QueueRef(family, 0);
    transfer := QueueRef(family, 1);
  }
}
