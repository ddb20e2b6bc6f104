/** The render-pass compiler (qz/gfx/render_pass.cpp): attachment, subpass and
    dependency descriptions become a compiled pass with attachment descriptions,
    subpass references, dependencies and framebuffers. The VkRenderPass and each
    VkFramebuffer are opaque device objects; the model identifies each of them
    with the create info the device was handed. */
module RenderPasses {
  import opened Vk
  import opened Wrappers
  import opened ClearValues
  import Images

  // ---------------------------------------------------------------- inputs

  /** Attachment::CreateInfo. */
  datatype AttachmentCreateInfo = AttachmentCreateInfo(
    image: Images.Image,
    name: string,
    framebuffer: nat,
    owning: bool,
    discard: bool,
    layout: ImageLayout,
    clear: ClearValue)

  /** SubpassInfo: attachment names bound as colour or depth/stencil, preserved, and read as input. */
  datatype SubpassInfo = SubpassInfo(attachments: seq<string>, preserve: seq<string>, input: seq<string>)

  /** SubpassDependency; `ExternalSubpass` names the outside of the pass. */
  datatype SubpassDependency = SubpassDependency(
    sourceSubpass: nat,
    destSubpass: nat,
    sourceStage: Flags,
    destStage: Flags,
    sourceAccess: Flags,
    destAccess: Flags)

  /** RenderPass::CreateInfo. */
  datatype CreateInfo = CreateInfo(
    attachments: seq<AttachmentCreateInfo>,
    subpasses: seq<SubpassInfo>,
    dependencies: seq<SubpassDependency>)

  // ---------------------------------------------------------------- outputs

  /** VkAttachmentLoadOp and VkAttachmentStoreOp, as far as the compiler uses them. */
  datatype LoadOp = LoadOpLoad | LoadOpClear | LoadOpDontCare
  datatype StoreOp = StoreOpStore | StoreOpDontCare

  /** VkAttachmentDescription (its flags are always empty). */
  datatype AttachmentDescription = AttachmentDescription(
    format: Format,
    samples: Flags,
    loadOp: LoadOp,
    storeOp: StoreOp,
    stencilLoadOp: LoadOp,
    stencilStoreOp: StoreOp,
    initialLayout: ImageLayout,
    finalLayout: ImageLayout)

  /** VkAttachmentReference. */
  datatype AttachmentReference = AttachmentReference(attachment: nat, layout: ImageLayout)

  /** Attachment: a compiled attachment as the pass keeps it. */
  datatype Attachment = Attachment(
    image: Images.Image,
    owning: bool,
    name: string,
    clear: ClearValue,
    framebuffer: nat,
    description: AttachmentDescription,
    reference: AttachmentReference)

  /** VkSubpassDescription (bind point GRAPHICS, no resolve attachments). */
  datatype SubpassDescription = SubpassDescription(
    inputAttachments: seq<AttachmentReference>,
    colorAttachments: seq<AttachmentReference>,
    depthStencilAttachment: Option<AttachmentReference>,
    preserveAttachments: seq<nat>)

  /** VkSubpassDependency. */
  datatype DependencyDescription = DependencyDescription(
    srcSubpass: nat,
    dstSubpass: nat,
    srcStageMask: Flags,
    dstStageMask: Flags,
    srcAccessMask: Flags,
    dstAccessMask: Flags,
    dependencyFlags: Flags)

  /** The VkRenderPass object, identified by its VkRenderPassCreateInfo. */
  datatype PassObject = PassObject(
    attachments: seq<AttachmentDescription>,
    subpasses: seq<SubpassDescription>,
    dependencies: seq<DependencyDescription>)

  /** A VkFramebuffer of the pass, identified by its VkFramebufferCreateInfo. */
  datatype FramebufferObject = FramebufferObject(attachments: seq<Handle>, width: nat, height: nat, layers: nat)

  /** The fatal configuration error: `qz_force_assert("Attachment not found")`. */
  datatype ConfigError = AttachmentNotFound

  /** Everything a successful RenderPass::create leaves behind. */
  datatype Compiled = Compiled(attachments: seq<Attachment>, pass: PassObject, framebuffers: seq<FramebufferObject>)

  // ---------------------------------------------------------------- attachments

  /** deduce_reference_layout: a switch on the exact aspect mask. */
  function ReferenceLayout(aspect: Flags): ImageLayout {
    if aspect == AspectStencil | AspectDepth then LayoutDepthStencilAttachmentOptimal
    else if aspect == AspectColor then LayoutColorAttachmentOptimal
    else if aspect == AspectDepth then LayoutDepthAttachmentOptimal
    else if aspect == AspectStencil then LayoutStencilAttachmentOptimal
    else LayoutUndefined
  }

  lemma ReferenceLayoutCases(aspect: Flags)
    ensures ReferenceLayout(aspect) == LayoutDepthStencilAttachmentOptimal <==> aspect == AspectDepth | AspectStencil
    ensures ReferenceLayout(aspect) == LayoutColorAttachmentOptimal <==> aspect == AspectColor
    ensures ReferenceLayout(aspect) == LayoutDepthAttachmentOptimal <==> aspect == AspectDepth
    ensures ReferenceLayout(aspect) == LayoutStencilAttachmentOptimal <==> aspect == AspectStencil
    ensures ReferenceLayout(aspect) == LayoutUndefined
        <==> aspect != AspectDepth | AspectStencil && aspect != AspectColor
             && aspect != AspectDepth && aspect != AspectStencil
  {
  }

  /** Every image made by Image::create has a defined reference layout, because
      aspect_from_format only yields masks that deduce_reference_layout knows. */
  lemma CreatedImageHasReferenceLayout(info: Images.CreateInfo, handle: Handle, allocation: Handle, view: Handle)
    ensures ReferenceLayout(Images.Create(info, handle, allocation, view).aspect) != LayoutUndefined
  {
    var aspect := Images.Create(info, handle, allocation, view).aspect;
    assert aspect == Images.AspectFromFormat(info.format);
    ReferenceLayoutCases(aspect);
  }

  predicate HasStencil(aspect: Flags) {
    aspect & AspectStencil != 0
  }

  /** The attachment description built for one attachment. */
  function Describe(each: AttachmentCreateInfo): AttachmentDescription {
    AttachmentDescription(
      each.image.format,
      SampleCount1,
      if each.clear.Type() != NoneKind then LoadOpClear else LoadOpLoad,
      if each.discard then StoreOpDontCare else StoreOpStore,
      if HasStencil(each.image.aspect) && each.clear.Type() == DepthKind then LoadOpClear else LoadOpDontCare,
      if HasStencil(each.image.aspect) && each.discard then StoreOpStore else StoreOpDontCare,
      LayoutUndefined,
      each.layout)
  }

  /** Load and store ops in both directions. The stencil store op is STORE only
      when the attachment is discarded, the inverse of storeOp. */
  lemma DescribeOps(each: AttachmentCreateInfo)
    ensures Describe(each).loadOp == LoadOpClear <==> each.clear.Type() != NoneKind
    ensures Describe(each).loadOp == LoadOpLoad <==> each.clear.Type() == NoneKind
    ensures Describe(each).storeOp == StoreOpDontCare <==> each.discard
    ensures Describe(each).storeOp == StoreOpStore <==> !each.discard
    ensures Describe(each).stencilLoadOp == LoadOpClear <==> HasStencil(each.image.aspect) && each.clear.Type() == DepthKind
    ensures Describe(each).stencilLoadOp != LoadOpLoad
    ensures Describe(each).stencilStoreOp == StoreOpStore <==> HasStencil(each.image.aspect) && each.discard
    ensures Describe(each).initialLayout == LayoutUndefined && Describe(each).finalLayout == each.layout
  {
  }

  /** The compiled attachment at position `index` of the input. */
  function CompileAttachment(each: AttachmentCreateInfo, index: nat): Attachment {
    Attachment(
      each.image, each.owning, each.name, each.clear, each.framebuffer,
      Describe(each),
      AttachmentReference(index, ReferenceLayout(each.image.aspect)))
  }

  function CompileAttachments(infos: seq<AttachmentCreateInfo>): seq<Attachment> {
    seq(|infos|, i requires 0 <= i < |infos| => CompileAttachment(infos[i], i))
  }

  function Descriptions(atts: seq<Attachment>): seq<AttachmentDescription> {
    seq(|atts|, i requires 0 <= i < |atts| => atts[i].description)
  }

  /** Compiled attachments keep the input's length, order, names and images, and
      attachment i refers to index i. */
  lemma CompiledAttachmentsKeepInput(infos: seq<AttachmentCreateInfo>)
    ensures |CompileAttachments(infos)| == |infos|
    ensures forall i :: 0 <= i < |infos| ==>
      var a := CompileAttachments(infos)[i];
      && a.name == infos[i].name && a.image == infos[i].image && a.clear == infos[i].clear
      && a.framebuffer == infos[i].framebuffer && a.owning == infos[i].owning
      && a.reference.attachment == i
      && a.reference.layout == ReferenceLayout(infos[i].image.aspect)
      && a.description == Describe(infos[i])
  {
  }

  // ---------------------------------------------------------------- lookup

  /** The position of the first attachment called `name`. */
  function IndexOf(atts: seq<Attachment>, name: string): (r: Option<nat>)
    ensures r.Some? ==> r.value < |atts| && atts[r.value].name == name
    ensures r.Some? ==> forall j :: 0 <= j < r.value ==> atts[j].name != name
    ensures r.None? <==> forall j :: 0 <= j < |atts| ==> atts[j].name != name
  {
    if atts == [] then None
    else if atts[0].name == name then Some(0)
    else match IndexOf(atts[1..], name)
      case None => None
      case Some(k) => Some(k + 1)
  }

  /** In a compiled pass a name resolves to the reference of that same index. */
  lemma NameResolvesToOwnIndex(infos: seq<AttachmentCreateInfo>, name: string)
    requires IndexOf(CompileAttachments(infos), name).Some?
    ensures var k := IndexOf(CompileAttachments(infos), name).value;
      CompileAttachments(infos)[k].reference.attachment == k && infos[k].name == name
  {
  }

  // ---------------------------------------------------------------- subpasses

  predicate AllNamed(atts: seq<Attachment>, names: seq<string>) {
    forall k :: 0 <= k < |names| ==> IndexOf(atts, names[k]).Some?
  }

  /** The attachments the names resolve to, in the order of the names. */
  function Resolve(atts: seq<Attachment>, names: seq<string>): (bound: seq<Attachment>)
    requires AllNamed(atts, names)
  {
    seq(|names|, k requires 0 <= k < |names| => atts[IndexOf(atts, names[k]).value])
  }

  predicate IsDepthStencil(a: Attachment) {
    a.image.aspect & (AspectStencil | AspectDepth) != 0
  }

  datatype Classified = Classified(colors: seq<AttachmentReference>, depth: Option<AttachmentReference>)

  /** The classification loop of a subpass: a depth or stencil attachment
      replaces the depth reference, any other is appended to the colours. */
  function Classify(bound: seq<Attachment>): Classified {
    if bound == [] then Classified([], None)
    else
      var prev := Classify(bound[..|bound| - 1]);
      var last := bound[|bound| - 1];
      if IsDepthStencil(last) then prev.(depth := Some(last.reference))
      else prev.(colors := prev.colors + [last.reference])
  }

  /** The references of the attachments that are neither depth nor stencil, in
      declaration order, written front to back. */
  function ColorReferences(bound: seq<Attachment>): seq<AttachmentReference> {
    if bound == [] then []
    else (if IsDepthStencil(bound[0]) then [] else [bound[0].reference]) + ColorReferences(bound[1..])
  }

  lemma {:induction false} ColorReferencesAppend(bound: seq<Attachment>, a: Attachment)
    ensures ColorReferences(bound + [a]) == ColorReferences(bound) + (if IsDepthStencil(a) then [] else [a.reference])
  {
    if bound != [] {
      assert (bound + [a])[1..] == bound[1..] + [a];
      ColorReferencesAppend(bound[1..], a);
    } else {
      assert (bound + [a])[1..] == [];
    }
  }

  /** The colour references of a subpass are exactly the non-depth/stencil
      attachments, in declaration order. */
  lemma {:induction false} ClassifyColors(bound: seq<Attachment>)
    ensures Classify(bound).colors == ColorReferences(bound)
  {
    if bound != [] {
      var p := bound[..|bound| - 1];
      ClassifyColors(p);
      ColorReferencesAppend(p, bound[|bound| - 1]);
      assert p + [bound[|bound| - 1]] == bound;
    }
  }

  /** The depth reference exists exactly when some bound attachment has a depth
      or stencil aspect, and it is the last such one. */
  lemma {:induction false} ClassifyDepthIsLast(bound: seq<Attachment>)
    ensures Classify(bound).depth.None? <==> forall i :: 0 <= i < |bound| ==> !IsDepthStencil(bound[i])
    ensures Classify(bound).depth.Some? ==>
      exists i :: 0 <= i < |bound| && IsDepthStencil(bound[i])
        && Classify(bound).depth.value == bound[i].reference
        && forall j :: i < j < |bound| ==> !IsDepthStencil(bound[j])
  {
    if bound != [] {
      var p := bound[..|bound| - 1];
      var last := bound[|bound| - 1];
      ClassifyDepthIsLast(p);
      if IsDepthStencil(last) {
        assert Classify(bound).depth.value == bound[|bound| - 1].reference;
      } else if Classify(p).depth.Some? {
        var i :| 0 <= i < |p| && IsDepthStencil(p[i]) && Classify(p).depth.value == p[i].reference
          && forall j :: i < j < |p| ==> !IsDepthStencil(p[j]);
        assert bound[i] == p[i];
      } else {
        assert forall i :: 0 <= i < |bound| - 1 ==> bound[i] == p[i];
      }
    }
  }

  function References(bound: seq<Attachment>): seq<AttachmentReference> {
    seq(|bound|, k requires 0 <= k < |bound| => bound[k].reference)
  }

  function Indices(bound: seq<Attachment>): seq<nat> {
    seq(|bound|, k requires 0 <= k < |bound| => bound[k].reference.attachment)
  }

  /** The description built for one subpass; a name the pass does not have aborts. */
  function DescribeSubpass(atts: seq<Attachment>, info: SubpassInfo): Result<SubpassDescription, ConfigError> {
    if AllNamed(atts, info.attachments) && AllNamed(atts, info.input) && AllNamed(atts, info.preserve) then
      var c := Classify(Resolve(atts, info.attachments));
      Success(SubpassDescription(
        References(Resolve(atts, info.input)),
        c.colors,
        c.depth,
        Indices(Resolve(atts, info.preserve))))
    else Failure(AttachmentNotFound)
  }

  predicate SubpassesResolve(atts: seq<Attachment>, infos: seq<SubpassInfo>) {
    forall i :: 0 <= i < |infos| ==> DescribeSubpass(atts, infos[i]).Success?
  }

  function DescribeSubpasses(atts: seq<Attachment>, infos: seq<SubpassInfo>): seq<SubpassDescription>
    requires SubpassesResolve(atts, infos)
  {
    seq(|infos|, i requires 0 <= i < |infos| => DescribeSubpass(atts, infos[i]).value)
  }

  /** Every reference a compiled subpass holds points at the attachment the name
      resolved to, and carries that attachment's own index and layout. */
  lemma SubpassReferencesResolve(infos: seq<AttachmentCreateInfo>, sp: SubpassInfo)
    requires DescribeSubpass(CompileAttachments(infos), sp).Success?
    ensures var atts := CompileAttachments(infos);
      var d := DescribeSubpass(atts, sp).value;
      && |d.inputAttachments| == |sp.input| && |d.preserveAttachments| == |sp.preserve|
      && (forall k :: 0 <= k < |sp.input| ==>
            var i := IndexOf(atts, sp.input[k]).value;
            d.inputAttachments[k] == AttachmentReference(i, ReferenceLayout(infos[i].image.aspect)))
      && (forall k :: 0 <= k < |sp.preserve| ==> d.preserveAttachments[k] == IndexOf(atts, sp.preserve[k]).value)
      && d.colorAttachments == ColorReferences(Resolve(atts, sp.attachments))
  {
    ClassifyColors(Resolve(CompileAttachments(infos), sp.attachments));
  }

  // ---------------------------------------------------------------- dependencies

  function DescribeDependency(d: SubpassDependency): DependencyDescription {
    DependencyDescription(d.sourceSubpass, d.destSubpass, d.sourceStage, d.destStage, d.sourceAccess, d.destAccess, 0)
  }

  function Dependencies(deps: seq<SubpassDependency>): seq<DependencyDescription> {
    seq(|deps|, i requires 0 <= i < |deps| => DescribeDependency(deps[i]))
  }

  // ---------------------------------------------------------------- framebuffers

  /** One step of the framebuffer grouping loop, with the group list grown so
      that index `framebuffer` exists. */
  function Place(groups: seq<seq<Handle>>, a: Attachment): seq<seq<Handle>> {
    var grown := if |groups| <= a.framebuffer then groups + seq(a.framebuffer + 1 - |groups|, _ => []) else groups;
    grown[a.framebuffer := grown[a.framebuffer] + [a.image.view]]
  }

  /** The image views grouped by framebuffer index, starting from one empty group. */
  function Group(atts: seq<Attachment>): seq<seq<Handle>> {
    if atts == [] then [[]] else Place(Group(atts[..|atts| - 1]), atts[|atts| - 1])
  }

  function MaxFramebuffer(atts: seq<Attachment>): nat {
    if atts == [] then 0
    else
      var m := MaxFramebuffer(atts[..|atts| - 1]);
      var f := atts[|atts| - 1].framebuffer;
      if m < f then f else m
  }

  /** The views of the attachments with framebuffer index `k`, in order. */
  function ViewsAt(atts: seq<Attachment>, k: nat): seq<Handle> {
    if atts == [] then []
    else ViewsAt(atts[..|atts| - 1], k) + (if atts[|atts| - 1].framebuffer == k then [atts[|atts| - 1].image.view] else [])
  }

  lemma {:induction false} ViewsAtBeyondMax(atts: seq<Attachment>, k: nat)
    requires k > MaxFramebuffer(atts)
    ensures ViewsAt(atts, k) == []
  {
    if atts != [] {
      ViewsAtBeyondMax(atts[..|atts| - 1], k);
    }
  }

  /** There are 1 + max(framebuffer index) groups, and group k holds the views of
      exactly the attachments with index k, in attachment order. */
  lemma {:induction false} GroupShape(atts: seq<Attachment>)
    ensures |Group(atts)| == 1 + MaxFramebuffer(atts)
    ensures forall k :: 0 <= k < |Group(atts)| ==> Group(atts)[k] == ViewsAt(atts, k)
  {
    if atts != [] {
      var p := atts[..|atts| - 1];
      GroupShape(p);
      forall k | 0 <= k < |Group(atts)|
        ensures Group(atts)[k] == ViewsAt(atts, k)
      {
        if k >= |Group(p)| {
          ViewsAtBeyondMax(p, k);
        }
      }
    }
  }

  /** With every framebuffer index 0 there is one group, holding every view. */
  lemma {:induction false} AllZeroViews(atts: seq<Attachment>)
    requires forall i :: 0 <= i < |atts| ==> atts[i].framebuffer == 0
    ensures MaxFramebuffer(atts) == 0
    ensures ViewsAt(atts, 0) == seq(|atts|, i requires 0 <= i < |atts| => atts[i].image.view)
  {
    if atts != [] {
      AllZeroViews(atts[..|atts| - 1]);
    }
  }

  /** The grouping loop as the source writes it: the list is resized to
      `framebuffer` (not `framebuffer + 1`) only when it is shorter than
      `framebuffer`, and then indexed at `framebuffer`. `None` stands for the
      out-of-range access. */
  function PlaceAsWritten(groups: seq<seq<Handle>>, a: Attachment): Option<seq<seq<Handle>>> {
    var grown := if |groups| < a.framebuffer then groups + seq(a.framebuffer - |groups|, _ => []) else groups;
    if a.framebuffer < |grown| then Some(grown[a.framebuffer := grown[a.framebuffer] + [a.image.view]])
    else None
  }

  function GroupAsWritten(atts: seq<Attachment>): Option<seq<seq<Handle>>> {
    if atts == [] then Some([[]])
    else match GroupAsWritten(atts[..|atts| - 1])
      case None => None
      case Some(g) => PlaceAsWritten(g, atts[|atts| - 1])
  }

  /** The source's grouping stays in range exactly when every framebuffer index
      is 0, and then it agrees with the corrected grouping. */
  lemma {:induction false} GroupAsWrittenInRangeIff(atts: seq<Attachment>)
    ensures GroupAsWritten(atts).Some? <==> forall i :: 0 <= i < |atts| ==> atts[i].framebuffer == 0
    ensures GroupAsWritten(atts).Some? ==> GroupAsWritten(atts) == Some(Group(atts)) && |Group(atts)| == 1
  {
    if atts != [] {
      var p := atts[..|atts| - 1];
      GroupAsWrittenInRangeIff(p);
      assert forall i :: 0 <= i < |p| ==> p[i] == atts[i];
    }
  }

  /** The input that shows it: one attachment aimed at framebuffer 1 is indexed
      out of range, where the intended grouping makes two framebuffers. */
  lemma GroupAsWrittenSecondFramebuffer(a: Attachment)
    requires a.framebuffer == 1
    ensures GroupAsWritten([a]).None?
    ensures Group([a]) == [[], [a.image.view]]
  {
    assert [a][..0] == [];
    assert Group([a]) == Place([[]], a);
    var empty: seq<seq<Handle>> := [[]];
    var grown := empty + seq(1, _ => []);
    assert grown == [[], []];
    assert Place(empty, a) == grown[1 := grown[1] + [a.image.view]];
    var placed := grown[1 := grown[1] + [a.image.view]];
    assert |placed| == 2 && placed[0] == [] && placed[1] == [a.image.view];
    assert placed == [[], [a.image.view]];
  }

  /** One framebuffer per group, all sized from the LAST attachment's image. */
  function Framebuffers(atts: seq<Attachment>): seq<FramebufferObject>
    requires |atts| > 0
  {
    var last := atts[|atts| - 1].image;
    var groups := Group(atts);
    seq(|groups|, k requires 0 <= k < |groups| => FramebufferObject(groups[k], last.width, last.height, 1))
  }

  // ---------------------------------------------------------------- the whole pass

  /** RenderPass::create, as a function of its input. */
  function Compile(info: CreateInfo): Result<Compiled, ConfigError>
    requires |info.attachments| > 0
  {
    var atts := CompileAttachments(info.attachments);
    if SubpassesResolve(atts, info.subpasses) then
      Success(Compiled(
        atts,
        PassObject(Descriptions(atts), DescribeSubpasses(atts, info.subpasses), Dependencies(info.dependencies)),
        Framebuffers(atts)))
    else Failure(AttachmentNotFound)
  }

  /** Compilation aborts exactly when some subpass names an attachment the pass
      does not have. */
  lemma CompileFailsIffUnknownName(info: CreateInfo)
    requires |info.attachments| > 0
    ensures Compile(info).Failure? <==>
      exists i :: 0 <= i < |info.subpasses| &&
        var s := info.subpasses[i];
        var atts := CompileAttachments(info.attachments);
        !AllNamed(atts, s.attachments) || !AllNamed(atts, s.input) || !AllNamed(atts, s.preserve)
  {
  }

  /** The compiled pass: attachment descriptions follow the attachments, one
      subpass description per subpass, dependencies copied one to one with
      empty flags, and 1 + max(framebuffer index) framebuffers, framebuffer k
      holding the views of the attachments aimed at k, sized from the last
      attachment. */
  lemma CompiledPassShape(info: CreateInfo)
    requires |info.attachments| > 0 && Compile(info).Success?
    ensures var c := Compile(info).value;
      var n := |info.attachments|;
      && c.attachments == CompileAttachments(info.attachments)
      && |c.pass.attachments| == n
      && (forall i :: 0 <= i < n ==> c.pass.attachments[i] == Describe(info.attachments[i]))
      && |c.pass.subpasses| == |info.subpasses|
      && |c.pass.dependencies| == |info.dependencies|
      && (forall i :: 0 <= i < |info.dependencies| ==>
            var d := info.dependencies[i];
            c.pass.dependencies[i] == DependencyDescription(
              d.sourceSubpass, d.destSubpass, d.sourceStage, d.destStage, d.sourceAccess, d.destAccess, 0))
      && |c.framebuffers| == 1 + MaxFramebuffer(c.attachments)
      && (forall k :: 0 <= k < |c.framebuffers| ==>
            c.framebuffers[k] == FramebufferObject(
              ViewsAt(c.attachments, k), info.attachments[n - 1].image.width, info.attachments[n - 1].image.height, 1))
  {
    GroupShape(CompileAttachments(info.attachments));
  }

  /** With every attachment aimed at framebuffer 0 there is exactly one
      framebuffer, holding every view in attachment order. */
  lemma SingleFramebuffer(info: CreateInfo)
    requires |info.attachments| > 0 && Compile(info).Success?
    requires forall i :: 0 <= i < |info.attachments| ==> info.attachments[i].framebuffer == 0
    ensures var c := Compile(info).value;
      && |c.framebuffers| == 1
      && c.framebuffers[0].attachments == seq(|info.attachments|, i requires 0 <= i < |info.attachments| => info.attachments[i].image.view)
  {
    var atts := CompileAttachments(info.attachments);
    GroupShape(atts);
    AllZeroViews(atts);
  }

  /** The clear value handed to the device for each attachment, in order. */
  function ClearValuesOf(atts: seq<Attachment>): seq<RawClearValue> {
    seq(|atts|, i requires 0 <= i < |atts| => atts[i].clear.Value())
  }

  /** The images RenderPass::destroy destroys: those of the owning attachments, in order. */
  function OwnedImages(atts: seq<Attachment>): seq<Images.Image> {
    if atts == [] then []
    else OwnedImages(atts[..|atts| - 1]) + (if atts[|atts| - 1].owning then [atts[|atts| - 1].image] else [])
  }

  /** What RenderPass::destroy hands back to the device. */
  datatype Released = Released(images: seq<Images.Image>, framebuffers: seq<FramebufferObject>, pass: Option<PassObject>)

  /** Resolving one more name appends the attachment it names. */
  lemma ResolveExtend(atts: seq<Attachment>, names: seq<string>, n: nat)
    requires n < |names| && AllNamed(atts, names[..n]) && IndexOf(atts, names[n]).Some?
    ensures AllNamed(atts, names[..n + 1])
    ensures Resolve(atts, names[..n + 1]) == Resolve(atts, names[..n]) + [atts[IndexOf(atts, names[n]).value]]
    ensures Resolve(atts, names[..n + 1])[..n] == Resolve(atts, names[..n])
  {
    assert names[..n + 1][..n] == names[..n];
    assert names[..n + 1][n] == names[n];
  }

  // ---------------------------------------------------------------- the loops of create

  /** The attachment loop of RenderPass::create. `size` is overwritten on every
      iteration, so the framebuffers get the last attachment's size. */
  method CompileAttachmentList(infos: seq<AttachmentCreateInfo>)
    returns (atts: seq<Attachment>, descriptions: seq<AttachmentDescription>, size: Extent2D)
    requires |infos| > 0
    ensures atts == CompileAttachments(infos)
    ensures descriptions == Descriptions(atts)
    ensures size == Extent2D(infos[|infos| - 1].image.width, infos[|infos| - 1].image.height)
  {
    atts := [];
    descriptions := [];
    size := Extent2D(0, 0);
    var index := 0;
    while index < |infos|
      invariant 0 <= index <= |infos|
      invariant |atts| == index && |descriptions| == index
      invariant forall k :: 0 <= k < index ==> atts[k] == CompileAttachment(infos[k], k)
      invariant forall k :: 0 <= k < index ==> descriptions[k] == atts[k].description
      invariant 0 < index ==> size == Extent2D(infos[index - 1].image.width, infos[index - 1].image.height)
    {
      var attachment := CompileAttachment(infos[index], index);
      descriptions := descriptions + [attachment.description];
      atts := atts + [attachment];
      size := Extent2D(attachment.image.width, attachment.image.height);
      index := index + 1;
    }
  }

  /** The dependency loop of RenderPass::create. */
  method DescribeDependencyList(deps: seq<SubpassDependency>) returns (described: seq<DependencyDescription>)
    ensures |described| == |deps|
    ensures forall k :: 0 <= k < |deps| ==>
      && described[k].srcSubpass == deps[k].sourceSubpass && described[k].dstSubpass == deps[k].destSubpass
      && described[k].srcStageMask == deps[k].sourceStage && described[k].dstStageMask == deps[k].destStage
      && described[k].srcAccessMask == deps[k].sourceAccess && described[k].dstAccessMask == deps[k].destAccess
      && described[k].dependencyFlags == 0
    ensures described == Dependencies(deps)
  {
    described := [];
    var d := 0;
    while d < |deps|
      invariant 0 <= d <= |deps|
      invariant |described| == d
      invariant forall k :: 0 <= k < d ==> described[k] == DescribeDependency(deps[k])
    {
      var each := deps[d];
      described := described + [DependencyDescription(
        each.sourceSubpass, each.destSubpass, each.sourceStage, each.destStage, each.sourceAccess, each.destAccess, 0)];
      d := d + 1;
    }
  }

  /** The grouping loop of RenderPass::create, with the resize corrected. */
  method GroupViews(atts: seq<Attachment>) returns (views: seq<seq<Handle>>)
    ensures |views| == 1 + MaxFramebuffer(atts)
    ensures forall k :: 0 <= k < |views| ==> views[k] == ViewsAt(atts, k)
    ensures views == Group(atts)
  {
    views := [[]];
    var a := 0;
    while a < |atts|
      invariant 0 <= a <= |atts|
      invariant views == Group(atts[..a])
    {
      var each := atts[a];
      if |views| <= each.framebuffer {
        views := views + seq(each.framebuffer + 1 - |views|, _ => []);
      }
      views := views[each.framebuffer := views[each.framebuffer] + [each.image.view]];
      assert atts[..a + 1][..a] == atts[..a];
      a := a + 1;
    }
    assert atts[..a] == atts;
    GroupShape(atts);
  }

  /** The framebuffer loop of RenderPass::create: one framebuffer of one layer per group. */
  method CreateFramebuffers(views: seq<seq<Handle>>, size: Extent2D) returns (framebuffers: seq<FramebufferObject>)
    ensures |framebuffers| == |views|
    ensures forall k :: 0 <= k < |views| ==> framebuffers[k] == FramebufferObject(views[k], size.width, size.height, 1)
  {
    framebuffers := [];
    var g := 0;
    while g < |views|
      invariant 0 <= g <= |views|
      invariant |framebuffers| == g
      invariant forall k :: 0 <= k < g ==> framebuffers[k] == FramebufferObject(views[k], size.width, size.height, 1)
    {
      framebuffers := framebuffers + [FramebufferObject(views[g], size.width, size.height, 1)];
      g := g + 1;
    }
  }

  // ---------------------------------------------------------------- the object

  /** RenderPass. `handle` is None while no VkRenderPass exists (nullptr). */
  class RenderPass {
    var handle: Option<PassObject>
    var attachments: seq<Attachment>
    var framebuffers: seq<FramebufferObject>

    /** A default-constructed RenderPass. */
    constructor Empty()
      ensures handle == None && attachments == [] && framebuffers == []
    {
      handle := None;
      attachments := [];
      framebuffers := [];
    }

    /** The compiled state of this pass. */
    function Snapshot(): Compiled
      reads this
      requires handle.Some?
    {
      Compiled(attachments, handle.value, framebuffers)
    }

    /** RenderPass::create. */
    static method Create(info: CreateInfo) returns (r: Result<RenderPass, ConfigError>)
      requires |info.attachments| > 0
      ensures r.Success? <==> Compile(info).Success?
      ensures r.Success? ==> fresh(r.value) && r.value.handle.Some? && r.value.Snapshot() == Compile(info).value
    {
      var pass := new RenderPass.Empty();
      var compiled, descriptions, size := CompileAttachmentList(info.attachments);
      pass.attachments := compiled;
      var subpasses := pass.BuildSubpasses(info.subpasses);
      if subpasses.Failure? {
        return Failure(AttachmentNotFound);
      }
      var dependencies := DescribeDependencyList(info.dependencies);
      pass.handle := Some(PassObject(descriptions, subpasses.value, dependencies));
      var views := GroupViews(compiled);
      var framebuffers := CreateFramebuffers(views, size);
      pass.framebuffers := framebuffers;
      return Success(pass);
    }

    /** The subpass loop of RenderPass::create; the first unknown name aborts. */
    method BuildSubpasses(infos: seq<SubpassInfo>) returns (r: Result<seq<SubpassDescription>, ConfigError>)
      ensures r.Success? <==> SubpassesResolve(attachments, infos)
      ensures r.Success? ==> r.value == DescribeSubpasses(attachments, infos)
    {
      var subpasses: seq<SubpassDescription> := [];
      var i := 0;
      while i < |infos|
        invariant 0 <= i <= |infos|
        invariant |subpasses| == i
        invariant forall k :: 0 <= k < i ==> DescribeSubpass(attachments, infos[k]) == Success(subpasses[k])
      {
        var described := BuildSubpass(infos[i]);
        if described.Failure? {
          return Failure(AttachmentNotFound);
        }
        subpasses := subpasses + [described.value];
        i := i + 1;
      }
      return Success(subpasses);
    }

    /** One subpass: its bound, input and preserved attachments. */
    method BuildSubpass(each: SubpassInfo) returns (r: Result<SubpassDescription, ConfigError>)
      ensures r == DescribeSubpass(attachments, each)
    {
      var bound := BindAttachments(each.attachments);
      if bound.Failure? {
        return Failure(AttachmentNotFound);
      }
      var inputs := InputReferences(each.input);
      if inputs.Failure? {
        return Failure(AttachmentNotFound);
      }
      var preserved := PreservedIndices(each.preserve);
      if preserved.Failure? {
        return Failure(AttachmentNotFound);
      }
      return Success(SubpassDescription(inputs.value, bound.value.colors, bound.value.depth, preserved.value));
    }

    /** The classification loop over a subpass's attachment names. */
    method BindAttachments(names: seq<string>) returns (r: Result<Classified, ConfigError>)
      ensures r.Success? <==> AllNamed(attachments, names)
      ensures r.Success? ==> r.value == Classify(Resolve(attachments, names))
    {
      var colors: seq<AttachmentReference> := [];
      var depth: Option<AttachmentReference> := None;
      var n := 0;
      while n < |names|
        invariant 0 <= n <= |names|
        invariant AllNamed(attachments, names[..n])
        invariant Classify(Resolve(attachments, names[..n])) == Classified(colors, depth)
      {
        var found := Attachment(names[n]);
        if found.Failure? {
          return Failure(AttachmentNotFound);
        }
        var attachment := found.value;
        if attachment.image.aspect & (AspectStencil | AspectDepth) != 0 {
          depth := Some(attachment.reference);
        } else {
          colors := colors + [attachment.reference];
        }
        ResolveExtend(attachments, names, n);
        n := n + 1;
      }
      assert names[..n] == names;
      return Success(Classified(colors, depth));
    }

    /** The input-attachment loop. */
    method InputReferences(names: seq<string>) returns (r: Result<seq<AttachmentReference>, ConfigError>)
      ensures r.Success? <==> AllNamed(attachments, names)
      ensures r.Success? ==> r.value == References(Resolve(attachments, names))
    {
      var inputs: seq<AttachmentReference> := [];
      var n := 0;
      while n < |names|
        invariant 0 <= n <= |names|
        invariant AllNamed(attachments, names[..n])
        invariant inputs == References(Resolve(attachments, names[..n]))
      {
        var found := Attachment(names[n]);
        if found.Failure? {
          return Failure(AttachmentNotFound);
        }
        inputs := inputs + [found.value.reference];
        ResolveExtend(attachments, names, n);
        n := n + 1;
      }
      assert names[..n] == names;
      return Success(inputs);
    }

    /** The preserved-attachment loop. */
    method PreservedIndices(names: seq<string>) returns (r: Result<seq<nat>, ConfigError>)
      ensures r.Success? <==> AllNamed(attachments, names)
      ensures r.Success? ==> r.value == Indices(Resolve(attachments, names))
    {
      var preserved: seq<nat> := [];
      var n := 0;
      while n < |names|
        invariant 0 <= n <= |names|
        invariant AllNamed(attachments, names[..n])
        invariant preserved == Indices(Resolve(attachments, names[..n]))
      {
        var found := Attachment(names[n]);
        if found.Failure? {
          return Failure(AttachmentNotFound);
        }
        preserved := preserved + [found.value.reference.attachment];
        ResolveExtend(attachments, names, n);
        n := n + 1;
      }
      assert names[..n] == names;
      return Success(preserved);
    }

    /** RenderPass::attachment: the first attachment with that name; a missing
        name aborts. */
    method Attachment(name: string) returns (r: Result<Attachment, ConfigError>)
      ensures r.Success? <==> exists i :: 0 <= i < |attachments| && attachments[i].name == name
      ensures r.Success? ==> r.value == attachments[IndexOf(attachments, name).value]
    {
      var i := 0;
      while i < |attachments|
        invariant 0 <= i <= |attachments|
        invariant forall j :: 0 <= j < i ==> attachments[j].name != name
      {
        if attachments[i].name == name {
          return Success(attachments[i]);
        }
        i := i + 1;
      }
      return Failure(AttachmentNotFound);
    }

    /** RenderPass::framebuffer. */
    method Framebuffer(idx: nat) returns (fb: FramebufferObject)
      requires idx < |framebuffers|
      ensures fb == framebuffers[idx]
    {
      fb := framebuffers[idx];
    }

    /** RenderPass::extent: the size of the FIRST attachment's image. */
    function Extent(): Extent2D
      reads this
      requires |attachments| > 0
    {
      Extent2D(attachments[0].image.width, attachments[0].image.height)
    }

    /** RenderPass::clears: one clear value per attachment, in attachment order. */
    method Clears() returns (values: seq<RawClearValue>)
      ensures |values| == |attachments|
      ensures forall i :: 0 <= i < |attachments| ==> values[i] == attachments[i].clear.Value()
    {
      values := [];
      var i := 0;
      while i < |attachments|
        invariant 0 <= i <= |attachments|
        invariant |values| == i
        invariant forall k :: 0 <= k < i ==> values[k] == attachments[k].clear.Value()
      {
        values := values + [attachments[i].clear.Value()];
        i := i + 1;
      }
    }

    /** RenderPass::destroy: destroys the owned images, the framebuffers and the
        pass object, and leaves the pass empty. */
    method Destroy() returns (released: Released)
      modifies this
      ensures released == Released(OwnedImages(old(attachments)), old(framebuffers), old(handle))
      ensures handle == None && attachments == [] && framebuffers == []
    {
      var images: seq<Images.Image> := [];
      var i := 0;
      while i < |attachments|
        invariant 0 <= i <= |attachments|
        invariant images == OwnedImages(attachments[..i])
      {
        if attachments[i].owning {
          images := images + [attachments[i].image];
        }
        assert attachments[..i + 1][..i] == attachments[..i];
        i := i + 1;
      }
      assert attachments[..i] == attachments;
      released := Released(images, framebuffers, handle);
      attachments := [];
      framebuffers := [];
      handle := None;
    }
  }

  // ---------------------------------------------------------------- extent

  /** extent() reads the first attachment while the framebuffers are sized from
      the last; the two agree when all attachment images share one size. */
  lemma ExtentAndFramebufferSize(info: CreateInfo)
    requires |info.attachments| > 0 && Compile(info).Success?
    requires forall i :: 0 <= i < |info.attachments| ==>
      info.attachments[i].image.width == info.attachments[0].image.width
      && info.attachments[i].image.height == info.attachments[0].image.height
    ensures var c := Compile(info).value;
      forall k :: 0 <= k < |c.framebuffers| ==>
        c.framebuffers[k].width == c.attachments[0].image.width
        && c.framebuffers[k].height == c.attachments[0].image.height
  {
  }

  // ---------------------------------------------------------------- scenario

  /** The pass the application builds: one cleared colour attachment "color",
      one subpass binding it, and one dependency from outside the pass. */
  function ScenarioInfo(image: Images.Image): CreateInfo {
    CreateInfo(
      [AttachmentCreateInfo(image, "color", 0, true, false, LayoutTransferSrcOptimal, OfColor(DefaultClearColor))],
      [SubpassInfo(["color"], [], [])],
      [SubpassDependency(ExternalSubpass, 0, StageColorAttachmentOutput, StageColorAttachmentOutput, 0, AccessColorAttachmentWrite)])
  }

  lemma Scenario(image: Images.Image)
    requires image.aspect == AspectColor && image.width == 1280 && image.height == 720
    ensures Compile(ScenarioInfo(image)).Success?
    ensures var c := Compile(ScenarioInfo(image)).value;
      && |c.attachments| == 1 && |c.pass.subpasses| == 1 && |c.framebuffers| == 1
      && c.pass.attachments[0].loadOp == LoadOpClear && c.pass.attachments[0].storeOp == StoreOpStore
      && c.pass.attachments[0].finalLayout == LayoutTransferSrcOptimal
      && c.pass.subpasses[0].colorAttachments == [AttachmentReference(0, LayoutColorAttachmentOptimal)]
      && c.pass.subpasses[0].depthStencilAttachment.None?
      && c.pass.dependencies == [DependencyDescription(
           ExternalSubpass, 0, StageColorAttachmentOutput, StageColorAttachmentOutput, 0, AccessColorAttachmentWrite, 0)]
      && c.framebuffers == [FramebufferObject([image.view], 1280, 720, 1)]
      && ClearValuesOf(c.attachments) == [ZeroClearValue]
  {
    var info := ScenarioInfo(image);
    var atts := CompileAttachments(info.attachments);
    assert atts[0].name == "color";
    assert IndexOf(atts, "color") == Some(0);
    assert AllNamed(atts, ["color"]);
    var bound := Resolve(atts, ["color"]);
    assert bound == [atts[0]];
    assert !IsDepthStencil(atts[0]);
    assert bound[..0] == [];
    assert Classify(bound) == Classified([AttachmentReference(0, LayoutColorAttachmentOptimal)], None);
    assert DescribeSubpass(atts, info.subpasses[0]).Success?;
    assert SubpassesResolve(atts, info.subpasses);
    assert |atts| == 1 && atts[..0] == [];
    var empty: seq<seq<Handle>> := [[]];
    assert Group(atts) == Place(empty, atts[0]);
    assert atts[0].framebuffer == 0 && atts[0].image == image;
    assert Place(empty, atts[0]) == empty[0 := [] + [image.view]];
    assert [] + [image.view] == [image.view];
    assert empty[0 := [image.view]] == [[image.view]];
    assert Group(atts) == [[image.view]];
  }
}
