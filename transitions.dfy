/** The transition engine of the resource state tracker as functions on the
    tracker's three fields: the state store and the two pending barrier lists.
    Each operation of the tracker is a function from the fields before the call
    to the fields after it; the class in module Etna is proved to update its
    fields exactly as these functions say. */
module Transitions {
  import opened Vk
  import opened States

  datatype Option<T> = None | Some(value: T)

  /** Whether a barrier is recorded even when the requested state equals the
      stored one. */
  datatype ForceSetState = False | True

  /** The per-call barrier policy of the shortcuts; the owning context decides
      for each value whether barriers are generated. */
  datatype BarrierBehavoir = Default | GenerateBarriers | SuppressBarriers

  /** The tracker's fields: the state store and the pending barriers, in the
      order they were recorded. */
  datatype Snapshot = Snapshot(
    currentStates: map<HandleType, State>,
    imageBarriersToFlush: seq<ImageMemoryBarrier2>,
    bufferBarriersToFlush: seq<BufferMemoryBarrier2>)

  /** What a flush leaves behind, and the one command it issues, if any. */
  datatype FlushResult = FlushResult(after: Snapshot, command: Option<DependencyInfo>)

  /** The entry of `key` is the only one that may differ, and it exists afterwards. */
  ghost predicate OnlyEntryChanged(before: map<HandleType, State>, after: map<HandleType, State>, key: HandleType)
  {
    && key in after
    && (forall h :: h in after && h != key ==> h in before && after[h] == before[h])
    && (forall h :: h in before && h != key ==> h in after)
  }

  // ---------------------------------------------------------------- textures

  /** The texture state a request is compared against: the stored entry, or,
      on first use, the default entry owned by the requesting command buffer. */
  function PriorTextureState(states: map<HandleType, State>, image: Image, comBuffer: CommandBuffer): TextureState
    requires TextureOrAbsent(states, ImageKey(image))
  {
    if ImageKey(image) in states then states[ImageKey(image)].texture else TextureState(owner := comBuffer)
  }

  /** The image barrier from `prior` to `next`: no queue-family transfer, all
      mip levels and all array layers of the given aspects. */
  function TextureBarrier(prior: TextureState, next: TextureState, image: Image, aspect: ImageAspectFlags): ImageMemoryBarrier2
  {
    ImageMemoryBarrier2(
      srcStageMask := prior.piplineStageFlags,
      srcAccessMask := prior.accessFlags,
      dstStageMask := next.piplineStageFlags,
      dstAccessMask := next.accessFlags,
      oldLayout := prior.layout,
      newLayout := next.layout,
      srcQueueFamilyIndex := QueueFamilyIgnored,
      dstQueueFamilyIndex := QueueFamilyIgnored,
      image := image,
      subresourceRange := ImageSubresourceRange(
        aspectMask := aspect,
        baseMipLevel := 0,
        levelCount := RemainingMipLevels,
        baseArrayLayer := 0,
        layerCount := RemainingArrayLayers))
  }

  /** A tracked texture request for `next`: the entry of the image becomes
      `next`; one barrier from the prior state is appended unless the call is
      not forced and the prior state equals `next` in all four fields; the
      buffer barriers are untouched. */
  ghost predicate IsTextureTransition(
    before: Snapshot, after: Snapshot, comBuffer: CommandBuffer, image: Image,
    next: TextureState, aspect: ImageAspectFlags, force: ForceSetState)
    requires TextureOrAbsent(before.currentStates, ImageKey(image))
  {
    var prior := PriorTextureState(before.currentStates, image, comBuffer);
    && after.currentStates == before.currentStates[ImageKey(image) := TextureVariant(next)]
    && after.bufferBarriersToFlush == before.bufferBarriersToFlush
    && after.imageBarriersToFlush ==
         before.imageBarriersToFlush +
         (if force == ForceSetState.False && prior == next then [] else [TextureBarrier(prior, next, image, aspect)])
  }

  /** External injection of a texture state: the entry is overwritten with the
      given flags and layout and no owner; no barrier is recorded. */
  function SetExternalTextureState(
    t: Snapshot, image: Image, pipelineStageFlag: PipelineStageFlags2,
    accessFlags: AccessFlags2, layout: ImageLayout): (r: Snapshot)
    ensures ImageKey(image) in r.currentStates
    ensures r.currentStates[ImageKey(image)] == TextureVariant(TextureState(pipelineStageFlag, accessFlags, layout, NullCommandBuffer))
    ensures OnlyEntryChanged(t.currentStates, r.currentStates, ImageKey(image))
    ensures r.imageBarriersToFlush == t.imageBarriersToFlush
    ensures r.bufferBarriersToFlush == t.bufferBarriersToFlush
  {
    var resHandle := ImageKey(image);
    t.(currentStates := t.currentStates[resHandle := TextureVariant(TextureState(
      piplineStageFlags := pipelineStageFlag,
      accessFlags := accessFlags,
      layout := layout,
      owner := NullCommandBuffer))])
  }

  /** A tracked texture request. An existing entry of the handle must be a
      texture state (otherwise the variant access fails). */
  function SetTextureState(
    t: Snapshot, comBuffer: CommandBuffer, image: Image,
    pipelineStageFlag: PipelineStageFlags2, accessFlags: AccessFlags2,
    layout: ImageLayout, aspectFlags: ImageAspectFlags,
    force: ForceSetState := ForceSetState.False): (r: Snapshot)
    requires TextureOrAbsent(t.currentStates, ImageKey(image))
    ensures IsTextureTransition(t, r, comBuffer, image,
      TextureState(pipelineStageFlag, accessFlags, layout, comBuffer), aspectFlags, force)
  {
    var resHandle := ImageKey(image);
    var states :=
      if resHandle !in t.currentStates
      then t.currentStates[resHandle := TextureVariant(TextureState(owner := comBuffer))]
      else t.currentStates;
    var newState := TextureState(
      piplineStageFlags := pipelineStageFlag,
      accessFlags := accessFlags,
      layout := layout,
      owner := comBuffer);
    var oldState := states[resHandle].texture;
    if force == ForceSetState.False && newState == oldState then
      t.(currentStates := states)
    else
      t.(imageBarriersToFlush := t.imageBarriersToFlush + [TextureBarrier(oldState, newState, image, aspectFlags)],
         currentStates := states[resHandle := TextureVariant(newState)])
  }

  // ----------------------------------------------------------------- buffers

  /** The buffer state a request is compared against: the stored entry, or,
      on first use, the default entry owned by the requesting command buffer. */
  function PriorBufferState(states: map<HandleType, State>, buffer: Buffer, comBuffer: CommandBuffer): BufferState
    requires BufferOrAbsent(states, BufferKey(buffer))
  {
    if BufferKey(buffer) in states then states[BufferKey(buffer)].buffer else BufferState(owner := comBuffer)
  }

  /** The buffer barrier from `prior` to `next` over `size` bytes at `offset`,
      with no queue-family transfer. */
  function BufferBarrier(prior: BufferState, next: BufferState, buffer: Buffer, offset: u64, size: u64): BufferMemoryBarrier2
  {
    BufferMemoryBarrier2(
      srcStageMask := prior.piplineStageFlags,
      srcAccessMask := prior.accessFlags,
      dstStageMask := next.piplineStageFlags,
      dstAccessMask := next.accessFlags,
      srcQueueFamilyIndex := QueueFamilyIgnored,
      dstQueueFamilyIndex := QueueFamilyIgnored,
      buffer := buffer,
      offset := offset,
      size := size)
  }

  /** A tracked buffer request for `next`, as for textures but without layout
      and over a byte range. */
  ghost predicate IsBufferTransition(
    before: Snapshot, after: Snapshot, comBuffer: CommandBuffer, buffer: Buffer,
    next: BufferState, range: u64, offset: u64, force: ForceSetState)
    requires BufferOrAbsent(before.currentStates, BufferKey(buffer))
  {
    var prior := PriorBufferState(before.currentStates, buffer, comBuffer);
    && after.currentStates == before.currentStates[BufferKey(buffer) := BufferVariant(next)]
    && after.imageBarriersToFlush == before.imageBarriersToFlush
    && after.bufferBarriersToFlush ==
         before.bufferBarriersToFlush +
         (if force == ForceSetState.False && prior == next then [] else [BufferBarrier(prior, next, buffer, offset, range)])
  }

  /** External injection of a buffer state: the entry is overwritten with the
      given flags and no owner; no barrier is recorded. */
  function SetExternalBufferState(
    t: Snapshot, buffer: Buffer, pipelineStageFlag: PipelineStageFlags2, accessFlags: AccessFlags2): (r: Snapshot)
    ensures BufferKey(buffer) in r.currentStates
    ensures r.currentStates[BufferKey(buffer)] == BufferVariant(BufferState(pipelineStageFlag, accessFlags, NullCommandBuffer))
    ensures OnlyEntryChanged(t.currentStates, r.currentStates, BufferKey(buffer))
    ensures r.imageBarriersToFlush == t.imageBarriersToFlush
    ensures r.bufferBarriersToFlush == t.bufferBarriersToFlush
  {
    var resHandle := BufferKey(buffer);
    t.(currentStates := t.currentStates[resHandle := BufferVariant(BufferState(
      piplineStageFlags := pipelineStageFlag,
      accessFlags := accessFlags,
      owner := NullCommandBuffer))])
  }

  /** A tracked buffer request. An existing entry of the handle must be a
      buffer state (otherwise the variant access fails). */
  function SetBufferState(
    t: Snapshot, comBuffer: CommandBuffer, buffer: Buffer,
    pipelineStageFlag: PipelineStageFlags2, accessFlags: AccessFlags2,
    range: u64 := WholeSize, offset: u64 := 0,
    force: ForceSetState := ForceSetState.False): (r: Snapshot)
    requires BufferOrAbsent(t.currentStates, BufferKey(buffer))
    ensures IsBufferTransition(t, r, comBuffer, buffer,
      BufferState(pipelineStageFlag, accessFlags, comBuffer), range, offset, force)
  {
    var resHandle := BufferKey(buffer);
    var states :=
      if resHandle !in t.currentStates
      then t.currentStates[resHandle := BufferVariant(BufferState(owner := comBuffer))]
      else t.currentStates;
    var newState := BufferState(
      piplineStageFlags := pipelineStageFlag,
      accessFlags := accessFlags,
      owner := comBuffer);
    var oldState := states[resHandle].buffer;
    if force == ForceSetState.False && newState == oldState then
      t.(currentStates := states)
    else
      t.(bufferBarriersToFlush := t.bufferBarriersToFlush + [BufferBarrier(oldState, newState, buffer, offset, range)],
         currentStates := states[resHandle := BufferVariant(newState)])
  }

  // ------------------------------------------------------------------- flush

  /** Drains both pending lists. Nothing is issued when both are empty;
      otherwise one by-region dependency carries every pending barrier, in the
      order recorded, with 32-bit counts. The store is not touched. */
  function FlushBarriers(t: Snapshot): (r: FlushResult)
    ensures r.after == t.(imageBarriersToFlush := [], bufferBarriersToFlush := [])
    ensures r.command.None? <==> t.imageBarriersToFlush == [] && t.bufferBarriersToFlush == []
    ensures r.command.None? ==> r.after == t
    ensures r.command.Some? ==>
      && r.command.value.dependencyFlags == {DependencyByRegion}
      && r.command.value.imageMemoryBarriers == t.imageBarriersToFlush
      && r.command.value.bufferMemoryBarriers == t.bufferBarriersToFlush
      && r.command.value.imageMemoryBarrierCount as int == |t.imageBarriersToFlush| % 0x1_0000_0000
      && r.command.value.bufferMemoryBarrierCount as int == |t.bufferBarriersToFlush| % 0x1_0000_0000
  {
    var noImageBarriers := |t.imageBarriersToFlush| == 0;
    var noBufferBarriers := |t.bufferBarriersToFlush| == 0;
    if noImageBarriers && noBufferBarriers then
      FlushResult(t, None)
    else
      var depInfo := DependencyInfo(
        dependencyFlags := {DependencyByRegion},
        bufferMemoryBarrierCount := SizeAsU32(|t.bufferBarriersToFlush|),
        bufferMemoryBarriers := if noBufferBarriers then [] else t.bufferBarriersToFlush,
        imageMemoryBarrierCount := SizeAsU32(|t.imageBarriersToFlush|),
        imageMemoryBarriers := if noImageBarriers then [] else t.imageBarriersToFlush);
      FlushResult(t.(imageBarriersToFlush := [], bufferBarriersToFlush := []), Some(depInfo))
  }

  // --------------------------------------------------------------- shortcuts

  /** The (stage, access, layout) a render-pass role requires, recorded from `comBuffer`. */
  function ColorTargetState(comBuffer: CommandBuffer): TextureState
  {
    TextureState({StageColorAttachmentOutput}, {AccessColorAttachmentWrite}, LayoutColorAttachmentOptimal, comBuffer)
  }

  function DepthStencilTargetState(comBuffer: CommandBuffer): TextureState
  {
    TextureState({StageEarlyFragmentTests} + {StageLateFragmentTests}, {AccessDepthStencilAttachmentWrite},
      LayoutDepthStencilAttachmentOptimal, comBuffer)
  }

  function ResolveTargetState(comBuffer: CommandBuffer): TextureState
  {
    TextureState({StageResolve}, {AccessTransferWrite}, LayoutGeneral, comBuffer)
  }

  /** Prepares an image as a color attachment when the policy says so, and
      otherwise does nothing at all. */
  function SetColorTarget(
    t: Snapshot, shouldGenerateBarriersWhen: BarrierBehavoir -> bool,
    comBuffer: CommandBuffer, image: Image,
    behavoir: BarrierBehavoir := BarrierBehavoir.Default): (r: Snapshot)
    requires shouldGenerateBarriersWhen(behavoir) ==> TextureOrAbsent(t.currentStates, ImageKey(image))
    ensures !shouldGenerateBarriersWhen(behavoir) ==> r == t
    ensures shouldGenerateBarriersWhen(behavoir) ==>
      IsTextureTransition(t, r, comBuffer, image, ColorTargetState(comBuffer), {AspectColor}, ForceSetState.False)
  {
    if shouldGenerateBarriersWhen(behavoir) then
      SetTextureState(t, comBuffer, image,
        {StageColorAttachmentOutput}, {AccessColorAttachmentWrite}, LayoutColorAttachmentOptimal, {AspectColor})
    else
      t
  }

  /** Prepares an image as a depth/stencil attachment (written by early and
      late fragment tests) when the policy says so. */
  function SetDepthStencilTarget(
    t: Snapshot, shouldGenerateBarriersWhen: BarrierBehavoir -> bool,
    comBuffer: CommandBuffer, image: Image, aspectFlags: ImageAspectFlags,
    behavoir: BarrierBehavoir := BarrierBehavoir.Default): (r: Snapshot)
    requires shouldGenerateBarriersWhen(behavoir) ==> TextureOrAbsent(t.currentStates, ImageKey(image))
    ensures !shouldGenerateBarriersWhen(behavoir) ==> r == t
    ensures shouldGenerateBarriersWhen(behavoir) ==>
      IsTextureTransition(t, r, comBuffer, image, DepthStencilTargetState(comBuffer), aspectFlags, ForceSetState.False)
  {
    if shouldGenerateBarriersWhen(behavoir) then
      SetTextureState(t, comBuffer, image,
        {StageEarlyFragmentTests} + {StageLateFragmentTests}, {AccessDepthStencilAttachmentWrite},
        LayoutDepthStencilAttachmentOptimal, aspectFlags)
    else
      t
  }

  /** Prepares an image as the destination of a multisample resolve when the
      policy says so. */
  function SetResolveTarget(
    t: Snapshot, shouldGenerateBarriersWhen: BarrierBehavoir -> bool,
    comBuffer: CommandBuffer, image: Image, aspectFlags: ImageAspectFlags,
    behavoir: BarrierBehavoir := BarrierBehavoir.Default): (r: Snapshot)
    requires shouldGenerateBarriersWhen(behavoir) ==> TextureOrAbsent(t.currentStates, ImageKey(image))
    ensures !shouldGenerateBarriersWhen(behavoir) ==> r == t
    ensures shouldGenerateBarriersWhen(behavoir) ==>
      IsTextureTransition(t, r, comBuffer, image, ResolveTargetState(comBuffer), aspectFlags, ForceSetState.False)
  {
    if shouldGenerateBarriersWhen(behavoir) then
      SetTextureState(t, comBuffer, image,
        {StageResolve}, {AccessTransferWrite}, LayoutGeneral, aspectFlags)
    else
      t
  }
}
