# Quartz renderer core in Dafny

This project models the graphics core of the Quartz Vulkan renderer. It covers:

- **Render passes** (`render_pass.dfy`). A render pass is compiled from named attachments, subpasses and dependencies. The model covers attachment descriptions, load and store ops, reference layouts, name resolution, the colour / depth classification of subpass references, the grouping of image views into framebuffers, and the `attachment`, `framebuffer`, `extent`, `clears` and `destroy` accessors.
- **Images** (`image.dfy`). The aspect deduced from a format, and the image record.
- **Clear values** (`clear.dfy`). The tagged clear value and its raw payload.
- **The mesh registry** (`assets.dfy`). Handles, readiness flags, and the bulk release of every mesh's buffers.
- **The command recorder** (`command_buffer.dfy`). Each recording call appends one command to a log. Every end-render-pass in the log closes an open pass (`EndsMatchBegins`). Neither the source nor the model stops a second begin-render-pass while a pass is open, or an `end()` with a pass still open (`command_buffer.cpp:55-68`, `208-210`).
- **Swapchain parameter selection** (`swapchain.dfy`). Image count, extent, surface format and per-image records.
- **The renderer** (`renderer.dfy`). `InFlight` frame slots used round-robin, each with a command buffer, two semaphores and a fence. Fences are abstract states, and the device calls are kept as a trace.
- **The pipeline's vertex input layout** (`pipeline.dfy`).
- **Context creation** (`context.dfy`). Extension and layer availability, the choice of GPU and queue family, and the two queues.

Vulkan objects are identified by opaque handles (`nat`). A render pass object and a framebuffer are identified by the create info that built them. Whatever the device returns is a parameter: handles, enumerations, surface capabilities, the acquired image index.

Operations that change state in place are classes with `modifies` clauses:

- `RenderPasses.RenderPass`
- `Assets.Registry`, the global per-type storage
- `CommandBuffers.CommandBuffer`
- `Renderers.Renderer`, whose per-slot arrays are Dafny arrays

Each method is proved against a specification function: `Compile`, `Apply` / `Run`, `Group`, `Stride`, and so on. The properties are then proved about those functions.

Two behaviours follow the code rather than the design description:

- The framebuffer size is taken from the last attachment (`render_pass.cpp:55`, assigned in every loop iteration). `RenderPass::extent` instead reports the first attachment. The two agree when all attachments have the same size (`ExtentAndFramebufferSize`).
- `acquire_next_frame` acquires the swapchain image before it waits on the slot's fence (`renderer.cpp:58-59`).

`qz_assert` conditions are preconditions, since they are checked only in `QUARTZ_DEBUG` builds and are no-ops otherwise (`util/macros.hpp:15-21`): out-of-range handles and indices, `end_render_pass` without an active pass. `qz_force_assert` on an unknown attachment name is an error result (`ConfigError.AttachmentNotFound`), which propagates out of `RenderPass::create`.

## Model

| member | source | states |
|---|---|---|
| RenderPasses.ReferenceLayoutCases | src/qz/gfx/render_pass.cpp:7-20 | each of the four aspect combinations maps to its own attachment-optimal layout, in both directions, and every other aspect maps to UNDEFINED |
| RenderPasses.CreatedImageHasReferenceLayout | src/qz/gfx/image.cpp:57 | an image made by `Image::create` always has a defined reference layout, since its aspect is one of the four the deduction knows |
| RenderPasses.DescribeOps | src/qz/gfx/render_pass.cpp:36-46 | load op is CLEAR iff the attachment has a clear value, else LOAD; store op is DONT_CARE iff `discard`; stencil load clears iff the format has stencil and the clear is a depth clear, and is never LOAD; stencil store is STORE iff stencil and discard; initial layout UNDEFINED, final layout as requested |
| RenderPasses.CompiledAttachmentsKeepInput | src/qz/gfx/render_pass.cpp:28-56 | one compiled attachment per input, in order, keeping image, name, ownership, clear and framebuffer index, with reference `(i, reference layout of its aspect)` |
| RenderPasses.IndexOf | src/qz/gfx/render_pass.cpp:175-182 | finds the first attachment with the name; None exactly when no attachment has it |
| RenderPasses.NameResolvesToOwnIndex | src/qz/gfx/render_pass.cpp:48-51 | a name resolves to an attachment whose reference points back at its own position |
| RenderPasses.ColorReferencesAppend | src/qz/gfx/render_pass.cpp:73-81 | appending an attachment adds its reference to the colour list exactly when it is not depth/stencil |
| RenderPasses.ClassifyColors | src/qz/gfx/render_pass.cpp:73-81 | the classification loop collects exactly the references of the colour attachments, in order |
| RenderPasses.ClassifyDepthIsLast | src/qz/gfx/render_pass.cpp:73-81 | the depth reference is absent iff no referenced attachment is depth/stencil; otherwise it is the last such one |
| RenderPasses.SubpassReferencesResolve | src/qz/gfx/render_pass.cpp:70-103 | every colour, input and preserve index in a described subpass points at the attachment with the referenced name |
| RenderPasses.ViewsAtBeyondMax | src/qz/gfx/render_pass.cpp:131-137 | no view belongs to a framebuffer index above the largest one named |
| RenderPasses.GroupShape | src/qz/gfx/render_pass.cpp:131-137 | the grouping has 1 + the largest framebuffer index groups, and group k holds exactly the views of the attachments aimed at k, in attachment order |
| RenderPasses.AllZeroViews | src/qz/gfx/render_pass.cpp:131-137 | when every attachment targets framebuffer 0, that framebuffer holds every view in order |
| RenderPasses.GroupAsWrittenInRangeIff | src/qz/gfx/render_pass.cpp:131-137 | the grouping as written stays in range iff every framebuffer index is 0, and then it equals the corrected grouping with one group |
| RenderPasses.GroupAsWrittenSecondFramebuffer | src/qz/gfx/render_pass.cpp:133-136 | one attachment aimed at framebuffer 1 is indexed out of range as written, where the intended grouping gives `[[], [view]]` |
| RenderPasses.CompileFailsIffUnknownName | src/qz/gfx/render_pass.cpp:70-103 | creation fails iff some subpass names an attachment that does not exist |
| RenderPasses.CompiledPassShape | src/qz/gfx/render_pass.cpp:22-154 | a created pass has one description per attachment, one subpass per subpass info, one dependency per dependency info (flags 0), and framebuffers sized from the last attachment with one layer |
| RenderPasses.SingleFramebuffer | src/qz/gfx/render_pass.cpp:131-151 | with every framebuffer index 0 there is exactly one framebuffer, holding every view in attachment order |
| RenderPasses.ResolveExtend | src/qz/gfx/render_pass.cpp:73-89 | resolving one more known name extends the resolved list by that attachment |
| RenderPasses.CompileAttachmentList | src/qz/gfx/render_pass.cpp:28-56 | the attachment loop yields the compiled attachments, their descriptions, and the last attachment's size |
| RenderPasses.DescribeDependencyList | src/qz/gfx/render_pass.cpp:105-118 | the dependency loop copies each dependency's subpasses, stages and access masks, in order |
| RenderPasses.GroupViews | src/qz/gfx/render_pass.cpp:131-137 | the grouping loop computes the corrected grouping: 1 + max index groups, group k = views aimed at k |
| RenderPasses.CreateFramebuffers | src/qz/gfx/render_pass.cpp:139-151 | one framebuffer per group, with the group's views, the given size and one layer |
| RenderPasses.RenderPass.Empty | src/qz/gfx/render_pass.hpp:15-71 | a pass without handle, attachments or framebuffers |
| RenderPasses.RenderPass.Create | src/qz/gfx/render_pass.cpp:22-154 | creation succeeds iff every subpass name resolves, and then the new object's state is the compiled pass |
| RenderPasses.RenderPass.BuildSubpasses | src/qz/gfx/render_pass.cpp:70-103 | the subpass loop succeeds iff every subpass resolves, and then yields their descriptions |
| RenderPasses.RenderPass.BuildSubpass | src/qz/gfx/render_pass.cpp:71-102 | one subpass's description, or the unknown-name error |
| RenderPasses.RenderPass.BindAttachments | src/qz/gfx/render_pass.cpp:73-81 | succeeds iff every name resolves, and then yields the colour / depth classification of the resolved attachments |
| RenderPasses.RenderPass.InputReferences | src/qz/gfx/render_pass.cpp:83-85 | succeeds iff every name resolves, and then yields their references in order |
| RenderPasses.RenderPass.PreservedIndices | src/qz/gfx/render_pass.cpp:87-89 | succeeds iff every name resolves, and then yields their attachment indices in order |
| RenderPasses.RenderPass.Attachment | src/qz/gfx/render_pass.cpp:175-191 | succeeds iff some attachment has the name, and then returns the first such attachment |
| RenderPasses.RenderPass.Framebuffer | src/qz/gfx/render_pass.cpp:193-201 | for an index in range (the assertion), the framebuffer at that index |
| RenderPasses.RenderPass.Clears | src/qz/gfx/render_pass.cpp:211-219 | one raw clear value per attachment, in attachment order |
| RenderPasses.RenderPass.Destroy | src/qz/gfx/render_pass.cpp:156-173 | releases the owned images, every framebuffer and the pass, and leaves the object empty |
| RenderPasses.ExtentAndFramebufferSize | src/qz/gfx/render_pass.cpp:203-209 | when all attachments have the same size, every framebuffer has the size `extent()` reports |
| RenderPasses.Scenario | src/main.cpp:23-52 | the application's one-attachment pass compiles to one CLEAR/STORE attachment ending in TRANSFER_SRC, one subpass with colour reference 0 and no depth, the external dependency, one 1280x720 framebuffer, and a zero clear value |
| Images.AspectFromFormat | src/qz/gfx/image.cpp:5-19 | the aspect is one of colour, depth, stencil, or depth+stencil |
| Images.AspectFromFormatCases | src/qz/gfx/image.cpp:5-19 | depth formats give DEPTH, combined formats DEPTH\|STENCIL, S8 gives STENCIL, every other format COLOR (each iff) |
| Images.Create | src/qz/gfx/image.cpp:21-83 | the record carries the requested size, mips and format, the given handles, and the aspect deduced from the format |
| ClearValues.KindOfConstructors | src/qz/gfx/clear.hpp:34-48 | the default constructor has type none, colour and depth constructors have their own type, and a value has type none iff it is the default |
| ClearValues.ValueRoundTrip | src/qz/gfx/clear.hpp:38-44 | `value()` gives back the stored colour or depth payload, and zero for none |
| ClearValues.ValueAndTypeDetermineClear | src/qz/gfx/clear.hpp:34-48 | two clear values with the same kind and the same raw payload are the same value |
| ClearValues.NoneAndDefaultColorShareValue | src/qz/gfx/clear.hpp:10-44 | a default clear value and a default colour clear have the same raw payload but different types |
| Assets.ApplyEffects | src/qz/gfx/assets.cpp:21-53 | emplace appends one empty, unfinished entry; store replaces only the mesh; finalize sets only the flag; freeing empties every mesh and keeps the flags |
| Assets.ReadyStaysReady | src/qz/gfx/assets.cpp:34-53 | no sequence of operations shrinks the registry or clears a readiness flag |
| Assets.HandlesConsecutive | src/qz/gfx/assets.cpp:21-25 | the handles issued by a run are the consecutive indices after the initial size |
| Assets.HandlesNeverReused | src/qz/gfx/assets.cpp:21-25 | issued handles are strictly increasing, and each one is in range afterwards |
| Assets.BuffersOfVisitsEveryEntry | src/qz/gfx/assets.cpp:48-53 | freeing destroys the geometry and index buffers of every entry, two per entry, in order |
| Assets.Registry.constructor | src/qz/gfx/assets.cpp:8-12 | the storage starts empty |
| Assets.Registry.EmplaceEmpty | src/qz/gfx/assets.cpp:21-25 | appends an empty entry and returns the old size as the handle |
| Assets.Registry.FromHandle | src/qz/gfx/assets.cpp:27-32 | for a handle in range (the assertion), the stored mesh |
| Assets.Registry.Store | src/qz/gfx/static_mesh.cpp:88-92 | replaces the handle's mesh and nothing else |
| Assets.Registry.Finalize | src/qz/gfx/assets.cpp:34-39 | marks the handle's entry ready and changes nothing else |
| Assets.Registry.IsReady | src/qz/gfx/assets.cpp:41-46 | true iff the entry is finalized |
| Assets.Registry.FreeAllResources | src/qz/gfx/assets.cpp:48-53 | destroys every entry's two buffers in order and resets every mesh |
| Assets.Upload | src/qz/gfx/static_mesh.cpp:88-92 | storing then finalizing leaves the entry holding the mesh, ready, with the size unchanged |
| CommandBuffers.EndsMatchBegins | src/qz/gfx/command_buffer.cpp:55-68 | in a bracketed log every end-render-pass closes an earlier begin with no end in between |
| CommandBuffers.OpenPassHasBegin | src/qz/gfx/command_buffer.cpp:55-68 | while a pass is open, the log holds a begin-render-pass that has not been closed |
| CommandBuffers.AppendNeutral | src/qz/gfx/command_buffer.cpp:70-210 | recording anything other than a pass begin or end leaves the pass state and bracketing unchanged |
| CommandBuffers.BarrierCoversImage | src/qz/gfx/command_buffer.cpp:179-206 | the layout barrier covers all the image's mip levels and one layer, for the image's aspect |
| CommandBuffers.CommandBuffer.FromRaw | src/qz/gfx/command_buffer.cpp:21-27 | wraps a pool and a handle, with no active pass and nothing recorded |
| CommandBuffers.CommandBuffer.Begin | src/qz/gfx/command_buffer.cpp:46-53 | records a one-time-submit begin |
| CommandBuffers.CommandBuffer.BeginRenderPass | src/qz/gfx/command_buffer.cpp:55-68 | records the pass, framebuffer `idx`, the full render area and the pass's clear values, and makes the pass active |
| CommandBuffers.CommandBuffer.SetFullViewport | src/qz/gfx/command_buffer.cpp:70-81 | records a viewport covering the active pass's extent |
| CommandBuffers.CommandBuffer.SetViewportTo | src/qz/gfx/command_buffer.cpp:83-86 | records the given viewport |
| CommandBuffers.CommandBuffer.SetFullScissor | src/qz/gfx/command_buffer.cpp:88-93 | records a scissor covering the active pass's extent |
| CommandBuffers.CommandBuffer.SetScissorTo | src/qz/gfx/command_buffer.cpp:95-98 | records the given scissor |
| CommandBuffers.CommandBuffer.BindPipeline | src/qz/gfx/command_buffer.cpp:100-103 | records the pipeline binding |
| CommandBuffers.CommandBuffer.BindVertexBuffer | src/qz/gfx/command_buffer.cpp:105-109 | records the buffer at binding 0, offset 0 |
| CommandBuffers.CommandBuffer.BindIndexBuffer | src/qz/gfx/command_buffer.cpp:111-114 | records the buffer at offset 0 with 32-bit indices |
| CommandBuffers.CommandBuffer.BindStaticMesh | src/qz/gfx/command_buffer.cpp:116-120 | records the mesh's geometry as vertex buffer, then its indices as index buffer |
| CommandBuffers.CommandBuffer.Draw | src/qz/gfx/command_buffer.cpp:122-128 | records the draw with its counts |
| CommandBuffers.CommandBuffer.DrawIndexed | src/qz/gfx/command_buffer.cpp:130-136 | records the indexed draw with vertex offset 0 |
| CommandBuffers.CommandBuffer.EndRenderPass | src/qz/gfx/command_buffer.cpp:138-143 | with a pass active (the assertion), records the end and clears the active pass |
| CommandBuffers.CommandBuffer.CopyImage | src/qz/gfx/command_buffer.cpp:145-168 | records a whole-image copy from TRANSFER_SRC to TRANSFER_DST layout, mip 0, one layer |
| CommandBuffers.CommandBuffer.CopyBuffer | src/qz/gfx/command_buffer.cpp:170-177 | records a copy of the source's whole capacity, offsets 0 |
| CommandBuffers.CommandBuffer.InsertLayoutTransition | src/qz/gfx/command_buffer.cpp:179-206 | records the barrier for the info's stages, access masks, layouts and families |
| CommandBuffers.CommandBuffer.End | src/qz/gfx/command_buffer.cpp:208-210 | records the end of recording |
| Swapchains.ChooseImageCount | src/qz/gfx/swapchain.cpp:25-30 | the count is min+1 (uint32), lowered to the maximum only when a maximum exists and is exceeded |
| Swapchains.ImageCountWithinLimits | src/qz/gfx/swapchain.cpp:25-30 | for valid capabilities the count is at least the minimum, and exactly min+1 unless capped |
| Swapchains.Clamp | src/qz/gfx/swapchain.cpp:37-38 | `std::clamp`: the result lies in [lo, hi], equals v inside, the nearer bound outside |
| Swapchains.ChooseExtent | src/qz/gfx/swapchain.cpp:33-40 | the current extent unless its width is the special value; otherwise each window dimension clamped to the supported range |
| Swapchains.ChooseFormat | src/qz/gfx/swapchain.cpp:48-56 | B8G8R8A8_SRGB / SRGB_NONLINEAR if offered, otherwise the first format |
| Swapchains.ImageRecords | src/qz/gfx/swapchain.cpp:110-122 | one colour image record per swapchain image, with its view, one mip and the swapchain's size and format |
| Swapchains.Create | src/qz/gfx/swapchain.cpp:10-125 | the create info and the swapchain carry the chosen count, extent and format, one layer, colour-attachment and transfer-dst usage, immediate present mode, and the image records |
| Swapchains.SwapchainImagesAreColorTargets | src/qz/gfx/swapchain.cpp:110-122 | every swapchain image can be a colour attachment: reference layout COLOR_ATTACHMENT_OPTIMAL, one mip |
| Renderers.SyncCallsPerSlot | src/qz/gfx/renderer.cpp:38-42 | slot i creates its image-ready semaphore, then its done semaphore, then a signalled fence |
| Renderers.FrameAfterPresents | src/qz/gfx/renderer.cpp:97 | after k presents the slot is k mod `in_flight` |
| Renderers.Renderer.Create | src/qz/gfx/renderer.cpp:8-45 | allocates `in_flight` command buffers, then every slot's semaphores and signalled fence, starting at slot 0 |
| Renderers.Renderer.AcquireNextFrame | src/qz/gfx/renderer.cpp:57-69 | acquires an image signalling the slot's img_ready, then waits on the slot's fence; hands out that slot's command buffer and frame |
| Renderers.Renderer.PresentFrame | src/qz/gfx/renderer.cpp:71-98 | resets the fence, submits waiting on img_ready at colour output and signalling gfx_done and the fence, presents, and advances the slot |
| Renderers.Renderer.DeviceCompletes | src/qz/gfx/renderer.hpp:24-37 | an environment step, not code of the renderer: the GPU finishing a submission signals that slot's pending fence and touches no other slot |
| Renderers.RenderFrame | src/qz/gfx/renderer.cpp:57-98 | one frame waits on the slot's fence before submitting the slot's command buffer with that same fence, and moves to the next slot |
| Pipelines.FormatOf | src/qz/gfx/pipeline.cpp:95-103 | each attribute maps to its own float format, never UNDEFINED |
| Pipelines.FloatsAppend | src/qz/gfx/pipeline.cpp:84-87 | the float count of a vertex grows by the appended attribute's components |
| Pipelines.StrideIsFloatBytes | src/qz/gfx/pipeline.cpp:84-87 | the stride is four bytes per float of the vertex |
| Pipelines.StrideGrows | src/qz/gfx/pipeline.cpp:104-106 | a longer attribute prefix has a strictly larger size |
| Pipelines.AttributeDescriptions | src/qz/gfx/pipeline.cpp:90-107 | attribute i has location i, binding 0, its format and the sum of the preceding sizes as offset |
| Pipelines.AttributesTileTheStride | src/qz/gfx/pipeline.cpp:82-107 | offsets increase strictly, each attribute ends where the next begins, and the last ends at the stride |
| Pipelines.VertexInput | src/qz/gfx/pipeline.cpp:77-115 | one vertex-rate binding whose stride is 4 bytes per float, the attribute descriptions, and one dynamic state per requested state |
| Contexts.AnyNamed | src/qz/gfx/context.cpp:19-27 | a name is found iff it is among the available names |
| Contexts.AllAvailable | src/qz/gfx/context.cpp:12-69 | the availability checks for instance extensions, layers and device extensions hold iff every requested name is available (vacuously for none) |
| Contexts.SelectGpu | src/qz/gfx/context.cpp:71-81 | the selected card is the first discrete GPU; none iff there is none, the case the assertion at line 192 rejects |
| Contexts.SelectQueueFamily | src/qz/gfx/context.cpp:202-210 | the first family with the graphics bit, or 0xFFFFFFFF iff none has it |
| Contexts.Queues | src/qz/gfx/context.cpp:213-255 | one create info for the family with two queues (one per priority); graphics is queue 0 and transfer is queue 1 of that family, both within the count |

## Left out

- Every Vulkan, VMA and GLFW call is left out. The handles they return, and what they report (capabilities, formats, enumerations, the acquired image index), are parameters.
- The model assumes every device call succeeds. `qz_vulkan_check` aborts on a failed call only in `QUARTZ_DEBUG` builds; release builds drop the result and carry on (`util/macros.hpp:15-21`). For example, a failed submit in `present_frame` leaves the slot's fence unsignalled, so the next wait on that slot never returns. `Renderers.Renderer.Valid` rules that state out.
- The instance, debug-messenger, device, allocator and command-pool creation in `Context::create` is left out, along with the asserts that are not about selection (`glfwInit`). Only the choices are modelled: availability, GPU, queue family, queues.
- The surface presentation-support assert (`swapchain.cpp:18`) is left out, because support is a device answer.
- Floating point is left out: viewport depth bounds, queue priorities and clear-colour payloads. Clear payloads are opaque 32-bit words.
- Shader loading, SPIR-V reflection, descriptor and pipeline state in `Pipeline::create` are left out. Only the vertex input layout and the dynamic state count are kept.
- The scheduler, the window, mutexes, and `StaticMesh`'s asynchronous upload are left out. Only the upload's effect on the registry is kept: store, then finalize.
- The destroy functions other than `RenderPass::destroy` and `free_all_resources` are left out. This covers images, buffers, swapchains, renderers, command buffers and the context. Each only releases device objects.
- `CommandBuffer::allocate`, `Buffer::create` and `wait_queue` are left out: each is a single device call.
- RenderPasses.RenderPass.Create: requires at least one attachment, and so do `RenderPasses.Compile` and `RenderPasses.CompileAttachmentList`. With no attachments the source never assigns `framebuffer_size` (`render_pass.cpp:25`). It still creates one framebuffer with no views and that indeterminate size (`render_pass.cpp:131-151`), which is undefined behaviour, so the model does not describe it.
- Swapchains.At: no contract; `operator[]` is plain indexing, and its range condition is a precondition.
- RenderPasses.RenderPass.Extent: no contract. It reports the first attachment's size, and `ExtentAndFramebufferSize` relates it to the framebuffers.
- Pipelines.AttributeDescriptions: offsets and strides are unbounded. The source's `uint32` sum would wrap only past 4 GiB per vertex.
- Renderers.Renderer.PresentFrame: requires the frame that `acquire_next_frame` just handed out for the current slot, with its fence signalled. The source does not check this.
- Renderers.Renderer.AcquireNextFrame: the fence wait is modelled as returning with the fence signalled. The wait time and the device progress are not modelled.
- The object identity of the `RenderPass` a command buffer records is kept, but the `VkRenderPass` handle is not. The pass is identified by its compiled state.

## Findings

| source | as written | input that shows it | evidently intended | confidence | as-written member | corrected member |
|---|---|---|---|---|---|---|
| src/qz/gfx/render_pass.cpp:131-137 | the view list is grown to `framebuffer` entries when `size() < framebuffer`, then `framebuffer_views[framebuffer]` is indexed, one past the end | a single attachment with `framebuffer = 1` | grow to `framebuffer + 1` entries whenever `size() <= framebuffer`, giving one view group per framebuffer index | not executed | RenderPasses.GroupAsWrittenSecondFramebuffer | RenderPasses.GroupShape |
