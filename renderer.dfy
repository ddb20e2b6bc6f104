/** The frame-slot state machine of the renderer (qz/gfx/renderer.cpp). There
    are InFlight slots, each with a command buffer, two semaphores and a fence,
    used round-robin. Fences are abstract states; the device calls are kept as
    a trace, and the handles the device creates are parameters. */
module Renderers {
  import opened Vk
  import Images
  import Swapchains
  import CommandBuffers

  /** A fence as the host sees it: signalled, unsignalled with nothing
      pending, or guarding a submission the device has not finished. */
  datatype FenceState = Signaled | Unsignaled | Pending

  /** The device calls the renderer makes, in order. */
  datatype DeviceCall =
    | AllocateCommandBuffers(pool: Handle, count: nat)
    | CreateSemaphore(semaphore: Handle)
    | CreateFence(fence: Handle, signaled: bool)
    | AcquireNextImage(swapchain: Handle, signal: Handle)
    | WaitForFence(fence: Handle)
    | ResetFence(fence: Handle)
    | Submit(commandBuffer: Handle, wait: Handle, waitStage: Flags, signal: Handle, fence: Handle)
    | Present(swapchain: Handle, wait: Handle, imageIndex: nat)

  /** FrameInfo. */
  datatype FrameInfo = FrameInfo(
    index: nat,
    imageIdx: nat,
    imgReady: Handle,
    gfxDone: Handle,
    cmdWait: Handle,
    image: Images.Image)

  /** The calls of the synchronisation loop for the first n slots. */
  function SyncCalls(ready: seq<Handle>, done: seq<Handle>, fences: seq<Handle>, n: nat): seq<DeviceCall>
    requires n <= |ready| && n <= |done| && n <= |fences|
  {
    if n == 0 then []
    else
      var slot := [CreateSemaphore(ready[n - 1]), CreateSemaphore(done[n - 1]), CreateFence(fences[n - 1], true)];
      SyncCalls(ready, done, fences, n - 1) + slot
  }

  /** Slot i creates its two semaphores and then its fence, signalled. */
  lemma {:induction false} SyncCallsPerSlot(ready: seq<Handle>, done: seq<Handle>, fences: seq<Handle>, n: nat)
    requires n <= |ready| && n <= |done| && n <= |fences|
    ensures |SyncCalls(ready, done, fences, n)| == 3 * n
    ensures forall i :: 0 <= i < n ==>
      && SyncCalls(ready, done, fences, n)[3 * i] == CreateSemaphore(ready[i])
      && SyncCalls(ready, done, fences, n)[3 * i + 1] == CreateSemaphore(done[i])
      && SyncCalls(ready, done, fences, n)[3 * i + 2] == CreateFence(fences[i], true)
  {
    if n > 0 {
      SyncCallsPerSlot(ready, done, fences, n - 1);
    }
  }

  /** The slot after `frame` when presenting. */
  function NextFrame(frame: nat): nat {
    (frame + 1) % InFlight
  }

  /** The slot after k presents, starting from slot 0. */
  function FrameAfter(k: nat): nat {
    if k == 0 then 0 else NextFrame(FrameAfter(k - 1))
  }

  /** After k presents the slot is k mod InFlight, always below InFlight. */
  lemma {:induction false} FrameAfterPresents(k: nat)
    ensures FrameAfter(k) == k % InFlight
    ensures FrameAfter(k) < InFlight
  {
    if k > 0 {
      FrameAfterPresents(k - 1);
    }
  }

  class Renderer {
    var swapchain: Swapchains.Swapchain
    var imageIdx: nat
    var frameIdx: nat
    const pool: Handle
    const gfxCmds: array<Handle>
    const imgReady: array<Handle>
    const gfxDone: array<Handle>
    const cmdWait: array<Handle>
    const fences: array<FenceState>
    var calls: seq<DeviceCall>

    /** InFlight slots, the current slot in range, and no fence left
        unsignalled without a submission that will signal it. */
    predicate Valid()
      reads this, fences
    {
      && gfxCmds.Length == InFlight && imgReady.Length == InFlight && gfxDone.Length == InFlight
      && cmdWait.Length == InFlight && fences.Length == InFlight
      && frameIdx < InFlight
      && forall i :: 0 <= i < InFlight ==> fences[i] != Unsignaled
    }

    /** Renderer::create: allocates InFlight command buffers, then creates each
        slot's semaphores and its fence, signalled. */
    constructor Create(swapchain: Swapchains.Swapchain, pool: Handle, commandBuffers: seq<Handle>,
                       ready: seq<Handle>, done: seq<Handle>, fenceHandles: seq<Handle>)
      requires |commandBuffers| == InFlight && |ready| == InFlight && |done| == InFlight && |fenceHandles| == InFlight
      ensures Valid() && fresh(fences)
      ensures this.swapchain == swapchain && this.pool == pool && frameIdx == 0 && imageIdx == 0
      ensures gfxCmds[..] == commandBuffers && imgReady[..] == ready && gfxDone[..] == done && cmdWait[..] == fenceHandles
      ensures forall i :: 0 <= i < InFlight ==> fences[i] == Signaled
      ensures calls == [AllocateCommandBuffers(pool, InFlight)] + SyncCalls(ready, done, fenceHandles, InFlight)
    {
      this.swapchain := swapchain;
      imageIdx := 0;
      frameIdx := 0;
      this.pool := pool;
      var log := [AllocateCommandBuffers(pool, InFlight)];
      var cmds := new Handle[InFlight];
      var index := 0;
      while index < InFlight
        invariant 0 <= index <= InFlight
        invariant forall k :: 0 <= k < index ==> cmds[k] == commandBuffers[k]
      {
        cmds[index] := commandBuffers[index];
        index := index + 1;
      }
      var readyArray := new Handle[InFlight];
      var doneArray := new Handle[InFlight];
      var waitArray := new Handle[InFlight];
      var states := new FenceState[InFlight];
      var i := 0;
      while i < InFlight
        invariant 0 <= i <= InFlight
        invariant forall k :: 0 <= k < i ==> readyArray[k] == ready[k] && doneArray[k] == done[k] && waitArray[k] == fenceHandles[k]
        invariant forall k :: 0 <= k < i ==> states[k] == Signaled
        invariant forall k :: 0 <= k < InFlight ==> cmds[k] == commandBuffers[k]
        invariant log == [AllocateCommandBuffers(pool, InFlight)] + SyncCalls(ready, done, fenceHandles, i)
      {
        readyArray[i] := ready[i];
        doneArray[i] := done[i];
        waitArray[i] := fenceHandles[i];
        states[i] := Signaled;
        log := log + [CreateSemaphore(ready[i]), CreateSemaphore(done[i]), CreateFence(fenceHandles[i], true)];
        i := i + 1;
      }
      assert cmds[..] == commandBuffers && readyArray[..] == ready;
      assert doneArray[..] == done && waitArray[..] == fenceHandles;
      gfxCmds := cmds;
      imgReady := readyArray;
      gfxDone := doneArray;
      cmdWait := waitArray;
      fences := states;
      calls := log;
    }

    /** The frame the renderer hands out for its current slot. */
    function CurrentFrame(imageIndex: nat): FrameInfo
      reads this, fences, imgReady, gfxDone, cmdWait
      requires Valid() && imageIndex < |swapchain.images|
    {
      FrameInfo(frameIdx, imageIndex, imgReady[frameIdx], gfxDone[frameIdx], cmdWait[frameIdx], swapchain.images[imageIndex])
    }

    /** acquire_next_frame: acquires an image signalling the slot's img_ready,
        then waits for the slot's fence. `imageIndex` is the index the
        presentation engine returns; the frame's image is swapchain[imageIndex].
        The wait returns once the fence is signalled. */
    method AcquireNextFrame(imageIndex: nat) returns (cmd: CommandBuffers.CommandBuffer, frame: FrameInfo)
      requires Valid() && imageIndex < |swapchain.images|
      modifies this, fences
      ensures Valid()
      ensures frameIdx == old(frameIdx) && imageIdx == imageIndex && swapchain == old(swapchain)
      ensures calls == old(calls) + [AcquireNextImage(swapchain.handle, imgReady[frameIdx]), WaitForFence(cmdWait[frameIdx])]
      ensures fences[frameIdx] == Signaled
      ensures forall i :: 0 <= i < InFlight && i != frameIdx ==> fences[i] == old(fences[i])
      ensures frame == CurrentFrame(imageIndex)
      ensures fresh(cmd) && cmd.Valid() && cmd.handle == gfxCmds[frameIdx] && cmd.pool == pool
      ensures cmd.activePass == null && cmd.commands == []
    {
      calls := calls + [AcquireNextImage(swapchain.handle, imgReady[frameIdx])];
      imageIdx := imageIndex;
      calls := calls + [WaitForFence(cmdWait[frameIdx])];
      fences[frameIdx] := Signaled;
      cmd := new CommandBuffers.CommandBuffer.FromRaw(pool, gfxCmds[frameIdx]);
      frame := FrameInfo(frameIdx, imageIdx, imgReady[frameIdx], gfxDone[frameIdx], cmdWait[frameIdx], Swapchains.At(swapchain, imageIdx));
    }

    /** present_frame: resets the frame's fence and submits the command buffer
        with it, waiting on img_ready at colour-attachment output and signalling
        gfx_done; then presents image_idx once gfx_done is signalled, and
        advances to the next slot. The frame is the one acquire_next_frame
        returned for the current slot, whose fence is signalled. */
    method PresentFrame(cmd: CommandBuffers.CommandBuffer, frame: FrameInfo)
      requires Valid()
      requires frame.index == frameIdx && frame.cmdWait == cmdWait[frameIdx]
      requires fences[frameIdx] == Signaled
      modifies this, fences
      ensures Valid()
      ensures frameIdx == NextFrame(old(frameIdx)) && imageIdx == old(imageIdx) && swapchain == old(swapchain)
      ensures calls == old(calls) + [
        ResetFence(frame.cmdWait),
        Submit(cmd.handle, frame.imgReady, StageColorAttachmentOutput, frame.gfxDone, frame.cmdWait),
        Present(swapchain.handle, frame.gfxDone, frame.imageIdx)]
      ensures fences[old(frameIdx)] == Pending
      ensures forall i :: 0 <= i < InFlight && i != old(frameIdx) ==> fences[i] == old(fences[i])
    {
      calls := calls + [ResetFence(frame.cmdWait)];
      fences[frame.index] := Unsignaled;
      calls := calls + [Submit(cmd.handle, frame.imgReady, StageColorAttachmentOutput, frame.gfxDone, frame.cmdWait)];
      fences[frame.index] := Pending;
      calls := calls + [Present(swapchain.handle, frame.gfxDone, frame.imageIdx)];
      frameIdx := (frameIdx + 1) % InFlight;
    }

    /** The device finishing the submission a fence guards. */
    method DeviceCompletes(slot: nat)
      requires Valid() && slot < InFlight && fences[slot] == Pending
      modifies fences
      ensures Valid()
      ensures fences[slot] == Signaled
      ensures forall i :: 0 <= i < InFlight && i != slot ==> fences[i] == old(fences[i])
    {
      fences[slot] := Signaled;
    }
  }

  /** One frame of the application loop: the command buffer handed out for a
      slot is recorded and submitted with that slot's fence, and the slot
      advances. */
  method RenderFrame(renderer: Renderer, imageIndex: nat)
    requires renderer.Valid() && imageIndex < |renderer.swapchain.images|
    modifies renderer, renderer.fences
    ensures renderer.Valid()
    ensures renderer.frameIdx == NextFrame(old(renderer.frameIdx))
    ensures renderer.fences[old(renderer.frameIdx)] == Pending
    ensures |renderer.calls| == |old(renderer.calls)| + 5
    ensures renderer.calls[|old(renderer.calls)| + 1] == WaitForFence(renderer.cmdWait[old(renderer.frameIdx)])
    ensures renderer.calls[|old(renderer.calls)| + 3].Submit?
    ensures renderer.calls[|old(renderer.calls)| + 3].commandBuffer == renderer.gfxCmds[old(renderer.frameIdx)]
    ensures renderer.calls[|old(renderer.calls)| + 3].fence == renderer.cmdWait[old(renderer.frameIdx)]
  {
    var cmd, frame := renderer.AcquireNextFrame(imageIndex);
    cmd.Begin();
    cmd.End();
    renderer.PresentFrame(cmd, frame);
  }
}
