/** The resource state tracker as the object the rendering context owns: a
    state store and two pending barrier lists that its methods update in
    place. Each method is proved to leave the fields exactly as the matching
    function of module Transitions says. The ghost `emitted` log stands for
    the pipeline-barrier commands recorded into command buffers. */
module Etna {
  import opened Vk
  import opened States
  import opened Transitions
  import Properties

  /** One pipeline-barrier command recorded into `commandBuffer`. */
  datatype RecordedBarrier = PipelineBarrier2(commandBuffer: CommandBuffer, dependencyInfo: DependencyInfo)

  class ResourceStates {
    var currentStates: map<HandleType, State>
    var imageBarriersToFlush: seq<ImageMemoryBarrier2>
    var bufferBarriersToFlush: seq<BufferMemoryBarrier2>
    ghost var emitted: seq<RecordedBarrier>

    /** The three fields as one value. */
    ghost function Fields(): Snapshot
      reads this
    {
      Snapshot(currentStates, imageBarriersToFlush, bufferBarriersToFlush)
    }

    /** A fresh tracker knows no resource and has nothing pending. */
    constructor ()
      ensures Fields() == Snapshot(map[], [], [])
      ensures emitted == []
    {
      currentStates := map[];
      imageBarriersToFlush := [];
      bufferBarriersToFlush := [];
      emitted := [];
    }

    /** The in-place form of `Transitions.SetExternalTextureState`. */
    method SetExternalTextureState(
      image: Image, pipelineStageFlag: PipelineStageFlags2, accessFlags: AccessFlags2, layout: ImageLayout)
      modifies this
      ensures Fields() == Transitions.SetExternalTextureState(old(Fields()), image, pipelineStageFlag, accessFlags, layout)
      ensures emitted == old(emitted)
    {
      var resHandle := ImageKey(image);
      currentStates := currentStates[resHandle := TextureVariant(TextureState(
        piplineStageFlags := pipelineStageFlag,
        accessFlags := accessFlags,
        layout := layout,
        owner := NullCommandBuffer))];
    }

    /** The in-place form of `Transitions.SetExternalBufferState`. */
    method SetExternalBufferState(buffer: Buffer, pipelineStageFlag: PipelineStageFlags2, accessFlags: AccessFlags2)
      modifies this
      ensures Fields() == Transitions.SetExternalBufferState(old(Fields()), buffer, pipelineStageFlag, accessFlags)
      ensures emitted == old(emitted)
    {
      var resHandle := BufferKey(buffer);
      currentStates := currentStates[resHandle := BufferVariant(BufferState(
        piplineStageFlags := pipelineStageFlag,
        accessFlags := accessFlags,
        owner := NullCommandBuffer))];
    }

    /** The in-place form of `Transitions.SetTextureState`. */
    method SetTextureState(
      comBuffer: CommandBuffer, image: Image,
      pipelineStageFlag: PipelineStageFlags2, accessFlags: AccessFlags2,
      layout: ImageLayout, aspectFlags: ImageAspectFlags,
      force: ForceSetState := ForceSetState.False)
      requires TextureOrAbsent(currentStates, ImageKey(image))
      modifies this
      ensures Fields() == Transitions.SetTextureState(
        old(Fields()), comBuffer, image, pipelineStageFlag, accessFlags, layout, aspectFlags, force)
      ensures emitted == old(emitted)
    {
      var resHandle := ImageKey(image);
      if resHandle !in currentStates {
        currentStates := currentStates[resHandle := TextureVariant(TextureState(owner := comBuffer))];
      }
      var newState := TextureState(
        piplineStageFlags := pipelineStageFlag,
        accessFlags := accessFlags,
        layout := layout,
        owner := comBuffer);
      var oldState := currentStates[resHandle].texture;
      if force == ForceSetState.False && newState == oldState {
        return;
      }
      imageBarriersToFlush := imageBarriersToFlush + [TextureBarrier(oldState, newState, image, aspectFlags)];
      currentStates := currentStates[resHandle := TextureVariant(newState)];
    }

    /** The in-place form of `Transitions.SetBufferState`. */
    method SetBufferState(
      comBuffer: CommandBuffer, buffer: Buffer,
      pipelineStageFlag: PipelineStageFlags2, accessFlags: AccessFlags2,
      range: u64 := WholeSize, offset: u64 := 0,
      force: ForceSetState := ForceSetState.False)
      requires BufferOrAbsent(currentStates, BufferKey(buffer))
      modifies this
      ensures Fields() == Transitions.SetBufferState(
        old(Fields()), comBuffer, buffer, pipelineStageFlag, accessFlags, range, offset, force)
      ensures emitted == old(emitted)
    {
      var resHandle := BufferKey(buffer);
      if resHandle !in currentStates {
        currentStates := currentStates[resHandle := BufferVariant(BufferState(owner := comBuffer))];
      }
      var newState := BufferState(
        piplineStageFlags := pipelineStageFlag,
        accessFlags := accessFlags,
        owner := comBuffer);
      var oldState := currentStates[resHandle].buffer;
      if force == ForceSetState.False && newState == oldState {
        return;
      }
      bufferBarriersToFlush := bufferBarriersToFlush + [BufferBarrier(oldState, newState, buffer, offset, range)];
      currentStates := currentStates[resHandle := BufferVariant(newState)];
    }

    /** The in-place form of `Transitions.FlushBarriers`: records at most one
        pipeline-barrier command into `comBuf`, exactly the one the function
        yields, and empties both lists. */
    method FlushBarriers(comBuf: CommandBuffer)
      modifies this
      ensures Fields() == Transitions.FlushBarriers(old(Fields())).after
      ensures emitted == old(emitted) +
        match Transitions.FlushBarriers(old(Fields())).command
        case None => []
        case Some(depInfo) => [PipelineBarrier2(comBuf, depInfo)]
    {
      var noImageBarriers := |imageBarriersToFlush| == 0;
      var noBufferBarriers := |bufferBarriersToFlush| == 0;
      if noImageBarriers && noBufferBarriers {
        return;
      }
      var depInfo := DependencyInfo(
        dependencyFlags := {DependencyByRegion},
        bufferMemoryBarrierCount := SizeAsU32(|bufferBarriersToFlush|),
        bufferMemoryBarriers := if noBufferBarriers then [] else bufferBarriersToFlush,
        imageMemoryBarrierCount := SizeAsU32(|imageBarriersToFlush|),
        imageMemoryBarriers := if noImageBarriers then [] else imageBarriersToFlush);
      emitted := emitted + [PipelineBarrier2(comBuf, depInfo)];
      imageBarriersToFlush := [];
      bufferBarriersToFlush := [];
    }

    /** The in-place form of `Transitions.SetColorTarget`;
        `shouldGenerateBarriersWhen` is the owning context's policy. */
    method SetColorTarget(
      shouldGenerateBarriersWhen: BarrierBehavoir -> bool, comBuffer: CommandBuffer, image: Image,
      behavoir: BarrierBehavoir := BarrierBehavoir.Default)
      requires shouldGenerateBarriersWhen(behavoir) ==> TextureOrAbsent(currentStates, ImageKey(image))
      modifies this
      ensures Fields() == Transitions.SetColorTarget(old(Fields()), shouldGenerateBarriersWhen, comBuffer, image, behavoir)
      ensures emitted == old(emitted)
    {
      if shouldGenerateBarriersWhen(behavoir) {
        SetTextureState(comBuffer, image,
          {StageColorAttachmentOutput}, {AccessColorAttachmentWrite}, LayoutColorAttachmentOptimal, {AspectColor});
      }
    }

    /** The in-place form of `Transitions.SetDepthStencilTarget`. */
    method SetDepthStencilTarget(
      shouldGenerateBarriersWhen: BarrierBehavoir -> bool, comBuffer: CommandBuffer, image: Image,
      aspectFlags: ImageAspectFlags, behavoir: BarrierBehavoir := BarrierBehavoir.Default)
      requires shouldGenerateBarriersWhen(behavoir) ==> TextureOrAbsent(currentStates, ImageKey(image))
      modifies this
      ensures Fields() == Transitions.SetDepthStencilTarget(
        old(Fields()), shouldGenerateBarriersWhen, comBuffer, image, aspectFlags, behavoir)
      ensures emitted == old(emitted)
    {
      if shouldGenerateBarriersWhen(behavoir) {
        SetTextureState(comBuffer, image,
          {StageEarlyFragmentTests} + {StageLateFragmentTests}, {AccessDepthStencilAttachmentWrite},
          LayoutDepthStencilAttachmentOptimal, aspectFlags);
      }
    }

    /** The in-place form of `Transitions.SetResolveTarget`. */
    method SetResolveTarget(
      shouldGenerateBarriersWhen: BarrierBehavoir -> bool, comBuffer: CommandBuffer, image: Image,
      aspectFlags: ImageAspectFlags, behavoir: BarrierBehavoir := BarrierBehavoir.Default)
      requires shouldGenerateBarriersWhen(behavoir) ==> TextureOrAbsent(currentStates, ImageKey(image))
      modifies this
      ensures Fields() == Transitions.SetResolveTarget(
        old(Fields()), shouldGenerateBarriersWhen, comBuffer, image, aspectFlags, behavoir)
      ensures emitted == old(emitted)
    {
      if shouldGenerateBarriersWhen(behavoir) {
        SetTextureState(comBuffer, image,
          {StageResolve}, {AccessTransferWrite}, LayoutGeneral, aspectFlags);
      }
    }
  }

  /** A caller that records an upload and then a sampled read sees, from the
      methods' contracts alone, one command with both barriers, and nothing
      from the flush after it. */
  method UploadThenSampleClient(comBuffer: CommandBuffer, image: Image, aspect: ImageAspectFlags)
  {
    var tracker := new ResourceStates();
    tracker.SetTextureState(comBuffer, image, {StageTransfer}, {AccessTransferWrite}, LayoutTransferDstOptimal, aspect);
    tracker.SetTextureState(comBuffer, image, {StageTransfer}, {AccessTransferWrite}, LayoutTransferDstOptimal, aspect);
    tracker.SetTextureState(comBuffer, image, {StageFragmentShader}, {AccessShaderRead},
      LayoutShaderReadOnlyOptimal, aspect, ForceSetState.True);
    tracker.FlushBarriers(comBuffer);
    tracker.FlushBarriers(comBuffer);
    Properties.UploadThenSample(Snapshot(map[], [], []), comBuffer, image, aspect);
    assert |tracker.emitted| == 1;
    assert tracker.emitted[0].commandBuffer == comBuffer;
    assert |tracker.emitted[0].dependencyInfo.imageMemoryBarriers| == 2;
  }
}
