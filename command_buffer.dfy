/** The command recorder (qz/gfx/command_buffer.cpp). Each recording method
    appends one abstract command, or two for bind_static_mesh, to the log of
    what was recorded into the VkCommandBuffer; parameters are derived from the
    render pass, image or buffer handed in. */
module CommandBuffers {
  import opened Vk
  import opened Wrappers
  import ClearValues
  import Images
  import RenderPasses
  import Assets

  datatype Offset2D = Offset2D(x: int, y: int)
  datatype Rect2D = Rect2D(offset: Offset2D, extent: Extent2D)

  /** VkViewport without its depth range (always 0 to 1 here). */
  datatype Viewport = Viewport(x: int, y: int, width: nat, height: nat)

  datatype Offset3D = Offset3D(x: int, y: int, z: int)
  datatype Extent3D = Extent3D(width: nat, height: nat, depth: nat)

  /** VkImageSubresourceLayers. */
  datatype SubresourceLayers = SubresourceLayers(aspect: Flags, mipLevel: nat, baseArrayLayer: nat, layerCount: nat)

  /** VkImageSubresourceRange. */
  datatype SubresourceRange = SubresourceRange(aspect: Flags, baseMipLevel: nat, levelCount: nat, baseArrayLayer: nat, layerCount: nat)

  /** VkImageCopy. */
  datatype ImageCopy = ImageCopy(
    source: SubresourceLayers, sourceOffset: Offset3D,
    dest: SubresourceLayers, destOffset: Offset3D,
    extent: Extent3D)

  /** VkBufferCopy. */
  datatype BufferCopy = BufferCopy(sourceOffset: nat, destOffset: nat, size: nat)

  /** ImageMemoryBarrier: the caller's description of a layout transition. */
  datatype ImageMemoryBarrier = ImageMemoryBarrier(
    image: Images.Image,
    sourceFamily: nat,
    destFamily: nat,
    sourceStage: Flags,
    destStage: Flags,
    sourceAccess: Flags,
    destAccess: Flags,
    oldLayout: ImageLayout,
    newLayout: ImageLayout)

  /** VkImageMemoryBarrier as handed to the device. */
  datatype Barrier = Barrier(
    sourceAccess: Flags,
    destAccess: Flags,
    oldLayout: ImageLayout,
    newLayout: ImageLayout,
    sourceFamily: nat,
    destFamily: nat,
    image: Handle,
    range: SubresourceRange)

  const OneTimeSubmit: Flags := 0x1

  /** The vkCmd* calls and vkBegin/EndCommandBuffer. */
  datatype Command =
    | Begin(usage: Flags)
    | BeginRenderPass(pass: Option<RenderPasses.PassObject>, framebuffer: RenderPasses.FramebufferObject,
                      renderArea: Rect2D, clearValues: seq<ClearValues.RawClearValue>)
    | SetViewport(viewport: Viewport)
    | SetScissor(scissor: Rect2D)
    | BindPipeline(pipeline: Handle)
    | BindVertexBuffers(firstBinding: nat, buffer: Handle, offset: nat)
    | BindIndexBuffer(buffer: Handle, offset: nat, indexType: nat)
    | Draw(vertexCount: nat, instanceCount: nat, firstVertex: nat, firstInstance: nat)
    | DrawIndexed(indexCount: nat, instanceCount: nat, firstIndex: nat, vertexOffset: int, firstInstance: nat)
    | EndRenderPass
    | CopyImage(source: Handle, sourceLayout: ImageLayout, dest: Handle, destLayout: ImageLayout, imageRegion: ImageCopy)
    | CopyBuffer(source: Handle, dest: Handle, bufferRegion: BufferCopy)
    | PipelineBarrier(sourceStage: Flags, destStage: Flags, dependencyFlags: Flags, barrier: Barrier)
    | End

  /** Whether a render pass is open after the log: the last begin or end decides. */
  function PassOpen(log: seq<Command>): bool {
    if log == [] then false
    else if log[|log| - 1].BeginRenderPass? then true
    else if log[|log| - 1].EndRenderPass? then false
    else PassOpen(log[..|log| - 1])
  }

  /** Every end-of-pass command closes an open pass. */
  predicate Bracketed(log: seq<Command>) {
    log == [] || (Bracketed(log[..|log| - 1]) && (log[|log| - 1].EndRenderPass? ==> PassOpen(log[..|log| - 1])))
  }

  /** In a bracketed log every end-of-pass command has a begin-of-pass command
      before it with no other end in between. */
  lemma {:induction false} EndsMatchBegins(log: seq<Command>, i: nat)
    requires Bracketed(log) && i < |log| && log[i].EndRenderPass?
    ensures exists j :: 0 <= j < i && log[j].BeginRenderPass? && forall k :: j < k < i ==> !log[k].EndRenderPass?
  {
    var p := log[..|log| - 1];
    if i < |log| - 1 {
      EndsMatchBegins(p, i);
      var j :| 0 <= j < i && p[j].BeginRenderPass? && forall k :: j < k < i ==> !p[k].EndRenderPass?;
      assert log[j] == p[j];
      assert forall k :: j < k < i ==> log[k] == p[k];
    } else {
      OpenPassHasBegin(p);
      var j :| 0 <= j < |p| && p[j].BeginRenderPass? && forall k :: j < k < |p| ==> !p[k].EndRenderPass?;
      assert log[j] == p[j];
      assert forall k :: j < k < i ==> log[k] == p[k];
    }
  }

  /** An open pass was begun and not ended since. */
  lemma {:induction false} OpenPassHasBegin(log: seq<Command>)
    requires PassOpen(log)
    ensures exists j :: 0 <= j < |log| && log[j].BeginRenderPass? && forall k :: j < k < |log| ==> !log[k].EndRenderPass?
  {
    var last := log[|log| - 1];
    if !last.BeginRenderPass? {
      var p := log[..|log| - 1];
      OpenPassHasBegin(p);
      var j :| 0 <= j < |p| && p[j].BeginRenderPass? && forall k :: j < k < |p| ==> !p[k].EndRenderPass?;
      assert log[j] == p[j];
      assert forall k :: j < k < |p| ==> log[k] == p[k];
    }
  }

  /** Appending commands other than begin and end keeps the bracketing and the open pass. */
  lemma AppendNeutral(log: seq<Command>, c: Command)
    requires !c.BeginRenderPass? && !c.EndRenderPass?
    ensures PassOpen(log + [c]) == PassOpen(log)
    ensures Bracketed(log + [c]) == Bracketed(log)
  {
    assert (log + [c])[..|log|] == log;
  }

  /** The full-extent rectangle at the origin. */
  function FullArea(extent: Extent2D): Rect2D {
    Rect2D(Offset2D(0, 0), extent)
  }

  /** The copy region of copy_image. */
  function ImageRegion(source: Images.Image, dest: Images.Image): ImageCopy {
    ImageCopy(
      SubresourceLayers(source.aspect, 0, 0, 1), Offset3D(0, 0, 0),
      SubresourceLayers(dest.aspect, 0, 0, 1), Offset3D(0, 0, 0),
      Extent3D(source.width, source.height, 1))
  }

  /** The barrier of insert_layout_transition. */
  function BarrierOf(info: ImageMemoryBarrier): Barrier {
    Barrier(info.sourceAccess, info.destAccess, info.oldLayout, info.newLayout, info.sourceFamily, info.destFamily,
            info.image.handle, SubresourceRange(info.image.aspect, 0, info.image.mips, 0, 1))
  }

  /** The barrier keeps the caller's access masks, layouts and families, and
      covers every mip level of the image's own aspect in one layer. */
  lemma BarrierCoversImage(info: ImageMemoryBarrier)
    ensures var b := BarrierOf(info);
      && b.sourceAccess == info.sourceAccess && b.destAccess == info.destAccess
      && b.oldLayout == info.oldLayout && b.newLayout == info.newLayout
      && b.sourceFamily == info.sourceFamily && b.destFamily == info.destFamily
      && b.image == info.image.handle
      && b.range.baseMipLevel == 0 && b.range.levelCount == info.image.mips
    ensures BarrierOf(info).range.aspect == info.image.aspect && BarrierOf(info).range.layerCount == 1
  {
  }

  /** CommandBuffer: the wrapper around one VkCommandBuffer. */
  class CommandBuffer {
    var activePass: RenderPasses.RenderPass?
    var handle: Handle
    var pool: Handle
    var commands: seq<Command>

    /** A pass is active exactly while the log has an open pass, and every end
        of a pass closed an open one. */
    predicate Valid()
      reads this
    {
      Bracketed(commands) && (activePass != null <==> PassOpen(commands))
    }

    /** from_raw. */
    constructor FromRaw(pool: Handle, handle: Handle)
      ensures Valid()
      ensures this.pool == pool && this.handle == handle && activePass == null && commands == []
    {
      this.pool := pool;
      this.handle := handle;
      activePass := null;
      commands := [];
    }

    /** begin: one-time-submit recording. */
    method Begin()
      requires Valid()
      modifies this
      ensures Valid()
      ensures commands == old(commands) + [Command.Begin(OneTimeSubmit)]
      ensures activePass == old(activePass) && handle == old(handle) && pool == old(pool)
    {
      AppendNeutral(commands, Command.Begin(OneTimeSubmit));
      commands := commands + [Command.Begin(OneTimeSubmit)];
    }

    /** begin_render_pass: the pass becomes active; the render area is the
        pass's extent and the clear values are the pass's clears. */
    method BeginRenderPass(pass: RenderPasses.RenderPass, framebuffer: nat)
      requires Valid()
      requires framebuffer < |pass.framebuffers| && |pass.attachments| > 0
      modifies this
      ensures Valid()
      ensures activePass == pass && handle == old(handle) && pool == old(pool)
      ensures commands == old(commands) + [Command.BeginRenderPass(
        pass.handle, pass.framebuffers[framebuffer], FullArea(pass.Extent()), RenderPasses.ClearValuesOf(pass.attachments))]
    {
      activePass := pass;
      var clearValues := pass.Clears();
      var target := pass.Framebuffer(framebuffer);
      assert clearValues == RenderPasses.ClearValuesOf(pass.attachments);
      var begin := Command.BeginRenderPass(pass.handle, target, Rect2D(Offset2D(0, 0), pass.Extent()), clearValues);
      assert (commands + [begin])[..|commands|] == commands;
      commands := commands + [begin];
    }

    /** set_viewport(viewport_tag): the whole extent of the active pass. */
    method SetFullViewport()
      requires Valid()
      requires activePass != null && |activePass.attachments| > 0
      modifies this
      ensures Valid()
      ensures activePass == old(activePass) && handle == old(handle) && pool == old(pool)
      ensures commands == old(commands) + [SetViewport(Viewport(0, 0, activePass.Extent().width, activePass.Extent().height))]
    {
      var extent := activePass.Extent();
      var c := SetViewport(Viewport(0, 0, extent.width, extent.height));
      AppendNeutral(commands, c);
      commands := commands + [c];
    }

    /** set_viewport(VkViewport). */
    method SetViewportTo(viewport: Viewport)
      requires Valid()
      modifies this
      ensures Valid()
      ensures commands == old(commands) + [SetViewport(viewport)]
      ensures activePass == old(activePass) && handle == old(handle) && pool == old(pool)
    {
      AppendNeutral(commands, SetViewport(viewport));
      commands := commands + [SetViewport(viewport)];
    }

    /** set_scissor(scissor_tag): the whole extent of the active pass. */
    method SetFullScissor()
      requires Valid()
      requires activePass != null && |activePass.attachments| > 0
      modifies this
      ensures Valid()
      ensures activePass == old(activePass) && handle == old(handle) && pool == old(pool)
      ensures commands == old(commands) + [SetScissor(FullArea(activePass.Extent()))]
    {
      var c := SetScissor(Rect2D(Offset2D(0, 0), activePass.Extent()));
      AppendNeutral(commands, c);
      commands := commands + [c];
    }

    /** set_scissor(VkRect2D). */
    method SetScissorTo(scissor: Rect2D)
      requires Valid()
      modifies this
      ensures Valid()
      ensures commands == old(commands) + [SetScissor(scissor)]
      ensures activePass == old(activePass) && handle == old(handle) && pool == old(pool)
    {
      AppendNeutral(commands, SetScissor(scissor));
      commands := commands + [SetScissor(scissor)];
    }

    /** bind_pipeline. */
    method BindPipeline(pipeline: Handle)
      requires Valid()
      modifies this
      ensures Valid()
      ensures commands == old(commands) + [Command.BindPipeline(pipeline)]
      ensures activePass == old(activePass) && handle == old(handle) && pool == old(pool)
    {
      AppendNeutral(commands, Command.BindPipeline(pipeline));
      commands := commands + [Command.BindPipeline(pipeline)];
    }

    /** bind_vertex_buffer: binding 0, offset 0. */
    method BindVertexBuffer(vertex: Assets.Buffer)
      requires Valid()
      modifies this
      ensures Valid()
      ensures commands == old(commands) + [BindVertexBuffers(0, vertex.handle, 0)]
      ensures activePass == old(activePass) && handle == old(handle) && pool == old(pool)
    {
      AppendNeutral(commands, BindVertexBuffers(0, vertex.handle, 0));
      commands := commands + [BindVertexBuffers(0, vertex.handle, 0)];
    }

    /** bind_index_buffer: offset 0, 32-bit indices. */
    method BindIndexBuffer(index: Assets.Buffer)
      requires Valid()
      modifies this
      ensures Valid()
      ensures commands == old(commands) + [Command.BindIndexBuffer(index.handle, 0, IndexTypeUint32)]
      ensures activePass == old(activePass) && handle == old(handle) && pool == old(pool)
    {
      AppendNeutral(commands, Command.BindIndexBuffer(index.handle, 0, IndexTypeUint32));
      commands := commands + [Command.BindIndexBuffer(index.handle, 0, IndexTypeUint32)];
    }

    /** bind_static_mesh: the geometry as vertex buffer, then the indices. */
    method BindStaticMesh(mesh: Assets.StaticMesh)
      requires Valid()
      modifies this
      ensures Valid()
      ensures commands == old(commands) + [
        BindVertexBuffers(0, mesh.geometry.handle, 0),
        Command.BindIndexBuffer(mesh.indices.handle, 0, IndexTypeUint32)]
      ensures activePass == old(activePass) && handle == old(handle) && pool == old(pool)
    {
      BindVertexBuffer(mesh.geometry);
      BindIndexBuffer(mesh.indices);
    }

    /** draw. */
    method Draw(vertices: nat, instances: nat, firstVertex: nat, firstInstance: nat)
      requires Valid()
      modifies this
      ensures Valid()
      ensures commands == old(commands) + [Command.Draw(vertices, instances, firstVertex, firstInstance)]
      ensures activePass == old(activePass) && handle == old(handle) && pool == old(pool)
    {
      var c := Command.Draw(vertices, instances, firstVertex, firstInstance);
      AppendNeutral(commands, c);
      commands := commands + [c];
    }

    /** draw_indexed: the vertex offset is always 0. */
    method DrawIndexed(indices: nat, instances: nat, firstIndex: nat, firstInstance: nat)
      requires Valid()
      modifies this
      ensures Valid()
      ensures commands == old(commands) + [Command.DrawIndexed(indices, instances, firstIndex, 0, firstInstance)]
      ensures activePass == old(activePass) && handle == old(handle) && pool == old(pool)
    {
      var c := Command.DrawIndexed(indices, instances, firstIndex, 0, firstInstance);
      AppendNeutral(commands, c);
      commands := commands + [c];
    }

    /** end_render_pass: needs an active pass, and leaves none. */
    method EndRenderPass()
      requires Valid() && activePass != null
      modifies this
      ensures Valid()
      ensures activePass == null && handle == old(handle) && pool == old(pool)
      ensures commands == old(commands) + [Command.EndRenderPass]
    {
      activePass := null;
      assert (commands + [Command.EndRenderPass])[..|commands|] == commands;
      commands := commands + [Command.EndRenderPass];
    }

    /** copy_image: one region, mip 0 and one layer on each side, each side
        with its own aspect, the source's size, in transfer layouts. */
    method CopyImage(source: Images.Image, dest: Images.Image)
      requires Valid()
      modifies this
      ensures Valid()
      ensures commands == old(commands) + [Command.CopyImage(
        source.handle, LayoutTransferSrcOptimal, dest.handle, LayoutTransferDstOptimal, ImageRegion(source, dest))]
      ensures activePass == old(activePass) && handle == old(handle) && pool == old(pool)
    {
      var region := ImageCopy(
        SubresourceLayers(source.aspect, 0, 0, 1), Offset3D(0, 0, 0),
        SubresourceLayers(dest.aspect, 0, 0, 1), Offset3D(0, 0, 0),
        Extent3D(source.width, source.height, 1));
      var c := Command.CopyImage(source.handle, LayoutTransferSrcOptimal, dest.handle, LayoutTransferDstOptimal, region);
      AppendNeutral(commands, c);
      commands := commands + [c];
    }

    /** copy_buffer: the whole source, from offset 0 to offset 0. */
    method CopyBuffer(source: Assets.Buffer, dest: Assets.Buffer)
      requires Valid()
      modifies this
      ensures Valid()
      ensures commands == old(commands) + [Command.CopyBuffer(source.handle, dest.handle, BufferCopy(0, 0, source.capacity))]
      ensures activePass == old(activePass) && handle == old(handle) && pool == old(pool)
    {
      var c := Command.CopyBuffer(source.handle, dest.handle, BufferCopy(0, 0, source.capacity));
      AppendNeutral(commands, c);
      commands := commands + [c];
    }

    /** insert_layout_transition: one image barrier, no dependency flags. */
    method InsertLayoutTransition(info: ImageMemoryBarrier)
      requires Valid()
      modifies this
      ensures Valid()
      ensures commands == old(commands) + [PipelineBarrier(info.sourceStage, info.destStage, 0, BarrierOf(info))]
      ensures activePass == old(activePass) && handle == old(handle) && pool == old(pool)
    {
      var barrier := Barrier(
        info.sourceAccess, info.destAccess, info.oldLayout, info.newLayout, info.sourceFamily, info.destFamily,
        info.image.handle, SubresourceRange(info.image.aspect, 0, info.image.mips, 0, 1));
      var c := PipelineBarrier(info.sourceStage, info.destStage, 0, barrier);
      AppendNeutral(commands, c);
      commands := commands + [c];
    }

    /** end. */
    method End()
      requires Valid()
      modifies this
      ensures Valid()
      ensures commands == old(commands) + [Command.End]
      ensures activePass == old(activePass) && handle == old(handle) && pool == old(pool)
    {
      AppendNeutral(commands, Command.End);
      commands := commands + [Command.End];
    }
  }
}
