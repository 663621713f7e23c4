/** Properties of the transition engine that relate several calls, or that
    single out the cases the tracker's users rely on: deduplication, forced
    re-emission, first use, external injection and flushing. */
module Properties {
  import opened Vk
  import opened States
  import opened Transitions

  /** Writing back the value a key already holds leaves the map as it was. */
  lemma UpdateSameValue(m: map<HandleType, State>, key: HandleType, v: State)
    requires key in m && m[key] == v
    ensures m[key := v] == m
  {
    assert m[key := v].Keys == m.Keys;
  }

  /** The entry of the requested handle is the only one a texture request
      creates or changes. */
  lemma TextureRequestTouchesOneEntry(
    t: Snapshot, comBuffer: CommandBuffer, image: Image,
    stages: PipelineStageFlags2, access: AccessFlags2, layout: ImageLayout,
    aspect: ImageAspectFlags, force: ForceSetState)
    requires TextureOrAbsent(t.currentStates, ImageKey(image))
    ensures var r := SetTextureState(t, comBuffer, image, stages, access, layout, aspect, force);
      && OnlyEntryChanged(t.currentStates, r.currentStates, ImageKey(image))
      && r.currentStates[ImageKey(image)] == TextureVariant(TextureState(stages, access, layout, comBuffer))
      && r.bufferBarriersToFlush == t.bufferBarriersToFlush
  {
  }

  /** A non-forced request for exactly the stored state, owner included,
      changes nothing at all. */
  lemma TextureDeduplication(
    t: Snapshot, comBuffer: CommandBuffer, image: Image,
    stages: PipelineStageFlags2, access: AccessFlags2, layout: ImageLayout, aspect: ImageAspectFlags)
    requires ImageKey(image) in t.currentStates
    requires t.currentStates[ImageKey(image)] == TextureVariant(TextureState(stages, access, layout, comBuffer))
    ensures SetTextureState(t, comBuffer, image, stages, access, layout, aspect) == t
  {
    UpdateSameValue(t.currentStates, ImageKey(image), TextureVariant(TextureState(stages, access, layout, comBuffer)));
  }

  /** A texture request appends no barrier exactly when it is not forced and
      the prior state equals the requested one; otherwise it appends exactly
      one, from the prior state to the requested one. */
  lemma TextureBarrierIff(
    t: Snapshot, comBuffer: CommandBuffer, image: Image,
    stages: PipelineStageFlags2, access: AccessFlags2, layout: ImageLayout,
    aspect: ImageAspectFlags, force: ForceSetState)
    requires TextureOrAbsent(t.currentStates, ImageKey(image))
    ensures var r := SetTextureState(t, comBuffer, image, stages, access, layout, aspect, force);
      var prior := PriorTextureState(t.currentStates, image, comBuffer);
      var next := TextureState(stages, access, layout, comBuffer);
      && (r.imageBarriersToFlush == t.imageBarriersToFlush <==> force == ForceSetState.False && prior == next)
      && (r.imageBarriersToFlush != t.imageBarriersToFlush ==>
            |r.imageBarriersToFlush| == |t.imageBarriersToFlush| + 1 &&
            r.imageBarriersToFlush[|t.imageBarriersToFlush|] == TextureBarrier(prior, next, image, aspect))
  {
    var r := SetTextureState(t, comBuffer, image, stages, access, layout, aspect, force);
    assert r.imageBarriersToFlush != t.imageBarriersToFlush ==>
      |r.imageBarriersToFlush| == |t.imageBarriersToFlush| + 1;
  }

  /** First use of an image: the comparison runs against the default state
      owned by the requesting command buffer, so the call records nothing
      exactly when it asks, unforced, for empty masks and the undefined layout;
      any barrier it records starts from empty masks and the undefined layout. */
  lemma TextureFirstUse(
    t: Snapshot, comBuffer: CommandBuffer, image: Image,
    stages: PipelineStageFlags2, access: AccessFlags2, layout: ImageLayout,
    aspect: ImageAspectFlags, force: ForceSetState)
    requires ImageKey(image) !in t.currentStates
    ensures var r := SetTextureState(t, comBuffer, image, stages, access, layout, aspect, force);
      && ImageKey(image) in r.currentStates
      && (r.imageBarriersToFlush == t.imageBarriersToFlush <==>
            force == ForceSetState.False && stages == {} && access == {} && layout == LayoutUndefined)
      && (r.imageBarriersToFlush != t.imageBarriersToFlush ==>
            && |r.imageBarriersToFlush| == |t.imageBarriersToFlush| + 1
            && r.imageBarriersToFlush[|t.imageBarriersToFlush|].srcStageMask == {}
            && r.imageBarriersToFlush[|t.imageBarriersToFlush|].srcAccessMask == {}
            && r.imageBarriersToFlush[|t.imageBarriersToFlush|].oldLayout == LayoutUndefined
            && r.imageBarriersToFlush[|t.imageBarriersToFlush|].newLayout == layout)
  {
    TextureBarrierIff(t, comBuffer, image, stages, access, layout, aspect, force);
  }

  /** Two identical non-forced requests in a row have the effect of one: the
      second records nothing and changes nothing, so at most one barrier is
      appended in total. */
  lemma TextureIdempotent(
    t: Snapshot, comBuffer: CommandBuffer, image: Image,
    stages: PipelineStageFlags2, access: AccessFlags2, layout: ImageLayout, aspect: ImageAspectFlags)
    requires TextureOrAbsent(t.currentStates, ImageKey(image))
    ensures var once := SetTextureState(t, comBuffer, image, stages, access, layout, aspect);
      && SetTextureState(once, comBuffer, image, stages, access, layout, aspect) == once
      && |once.imageBarriersToFlush| <= |t.imageBarriersToFlush| + 1
  {
    var once := SetTextureState(t, comBuffer, image, stages, access, layout, aspect);
    TextureDeduplication(once, comBuffer, image, stages, access, layout, aspect);
  }

  /** Forced requests record a barrier every time: two identical forced
      requests append two barriers, the second from the requested state to
      itself. */
  lemma TextureForcedTwice(
    t: Snapshot, comBuffer: CommandBuffer, image: Image,
    stages: PipelineStageFlags2, access: AccessFlags2, layout: ImageLayout, aspect: ImageAspectFlags)
    requires TextureOrAbsent(t.currentStates, ImageKey(image))
    ensures var once := SetTextureState(t, comBuffer, image, stages, access, layout, aspect, ForceSetState.True);
      var twice := SetTextureState(once, comBuffer, image, stages, access, layout, aspect, ForceSetState.True);
      var next := TextureState(stages, access, layout, comBuffer);
      && |twice.imageBarriersToFlush| == |t.imageBarriersToFlush| + 2
      && twice.imageBarriersToFlush[|t.imageBarriersToFlush| + 1] == TextureBarrier(next, next, image, aspect)
      && twice.currentStates == once.currentStates
  {
    var once := SetTextureState(t, comBuffer, image, stages, access, layout, aspect, ForceSetState.True);
    UpdateSameValue(once.currentStates, ImageKey(image), TextureVariant(TextureState(stages, access, layout, comBuffer)));
  }

  /** The owner is part of the comparison: the same (stage, access, layout)
      requested from another command buffer records a barrier whose source and
      destination masks and layouts coincide. */
  lemma TextureOwnerChangeRecordsBarrier(
    t: Snapshot, first: CommandBuffer, second: CommandBuffer, image: Image,
    stages: PipelineStageFlags2, access: AccessFlags2, layout: ImageLayout, aspect: ImageAspectFlags)
    requires ImageKey(image) in t.currentStates
    requires t.currentStates[ImageKey(image)] == TextureVariant(TextureState(stages, access, layout, first))
    requires first != second
    ensures var r := SetTextureState(t, second, image, stages, access, layout, aspect);
      && r.imageBarriersToFlush == t.imageBarriersToFlush +
           [TextureBarrier(TextureState(stages, access, layout, first),
                           TextureState(stages, access, layout, second), image, aspect)]
      && |r.imageBarriersToFlush| == |t.imageBarriersToFlush| + 1
      && r.imageBarriersToFlush[|t.imageBarriersToFlush|].srcStageMask == stages
      && r.imageBarriersToFlush[|t.imageBarriersToFlush|].dstStageMask == stages
      && r.imageBarriersToFlush[|t.imageBarriersToFlush|].srcAccessMask == access
      && r.imageBarriersToFlush[|t.imageBarriersToFlush|].dstAccessMask == access
      && r.imageBarriersToFlush[|t.imageBarriersToFlush|].oldLayout == layout
      && r.imageBarriersToFlush[|t.imageBarriersToFlush|].newLayout == layout
      && r.currentStates[ImageKey(image)].texture.owner == second
  {
  }

  /** External injection records no barrier whatever the handle held before,
      and the next tracked request for the injected triple still records one
      unless it comes from the null command buffer, since the injected owner
      is null. */
  lemma ExternalTextureThenTracked(
    t: Snapshot, comBuffer: CommandBuffer, image: Image,
    stages: PipelineStageFlags2, access: AccessFlags2, layout: ImageLayout, aspect: ImageAspectFlags)
    ensures var injected := SetExternalTextureState(t, image, stages, access, layout);
      var r := SetTextureState(injected, comBuffer, image, stages, access, layout, aspect);
      && injected.imageBarriersToFlush == t.imageBarriersToFlush
      && injected.bufferBarriersToFlush == t.bufferBarriersToFlush
      && (r.imageBarriersToFlush == t.imageBarriersToFlush <==> comBuffer == NullCommandBuffer)
      && (comBuffer != NullCommandBuffer ==>
            r.imageBarriersToFlush == t.imageBarriersToFlush +
              [TextureBarrier(TextureState(stages, access, layout, NullCommandBuffer),
                              TextureState(stages, access, layout, comBuffer), image, aspect)])
  {
    var injected := SetExternalTextureState(t, image, stages, access, layout);
    TextureBarrierIff(injected, comBuffer, image, stages, access, layout, aspect, ForceSetState.False);
  }

  // ------------------------------------------------------------ repetition

  /** `n` identical texture requests in a row. */
  function RepeatSetTextureState(
    t: Snapshot, n: nat, comBuffer: CommandBuffer, image: Image,
    stages: PipelineStageFlags2, access: AccessFlags2, layout: ImageLayout,
    aspect: ImageAspectFlags, force: ForceSetState): (r: Snapshot)
    requires TextureOrAbsent(t.currentStates, ImageKey(image))
    ensures TextureOrAbsent(r.currentStates, ImageKey(image))
    decreases n
  {
    if n == 0 then t
    else
      RepeatSetTextureState(SetTextureState(t, comBuffer, image, stages, access, layout, aspect, force),
        n - 1, comBuffer, image, stages, access, layout, aspect, force)
  }

  /** Once an image holds the requested state, further non-forced requests
      for it change nothing. */
  lemma {:induction false} RepeatAtFixpoint(
    t: Snapshot, n: nat, comBuffer: CommandBuffer, image: Image,
    stages: PipelineStageFlags2, access: AccessFlags2, layout: ImageLayout, aspect: ImageAspectFlags)
    requires ImageKey(image) in t.currentStates
    requires t.currentStates[ImageKey(image)] == TextureVariant(TextureState(stages, access, layout, comBuffer))
    ensures RepeatSetTextureState(t, n, comBuffer, image, stages, access, layout, aspect, ForceSetState.False) == t
    decreases n
  {
    if n > 0 {
      TextureDeduplication(t, comBuffer, image, stages, access, layout, aspect);
      RepeatAtFixpoint(t, n - 1, comBuffer, image, stages, access, layout, aspect);
    }
  }

  /** Any number of identical non-forced requests has the effect of the
      first alone: at most one barrier is recorded. */
  lemma RepeatedRequestsRecordOnce(
    t: Snapshot, n: nat, comBuffer: CommandBuffer, image: Image,
    stages: PipelineStageFlags2, access: AccessFlags2, layout: ImageLayout, aspect: ImageAspectFlags)
    requires TextureOrAbsent(t.currentStates, ImageKey(image))
    requires n >= 1
    ensures var r := RepeatSetTextureState(t, n, comBuffer, image, stages, access, layout, aspect, ForceSetState.False);
      && r == SetTextureState(t, comBuffer, image, stages, access, layout, aspect)
      && |r.imageBarriersToFlush| <= |t.imageBarriersToFlush| + 1
  {
    var once := SetTextureState(t, comBuffer, image, stages, access, layout, aspect);
    RepeatAtFixpoint(once, n - 1, comBuffer, image, stages, access, layout, aspect);
  }

  /** Forced requests for the state an image already holds each append the
      barrier from that state to itself. */
  lemma {:induction false} ForcedRepeatAtState(
    t: Snapshot, n: nat, comBuffer: CommandBuffer, image: Image,
    stages: PipelineStageFlags2, access: AccessFlags2, layout: ImageLayout, aspect: ImageAspectFlags)
    requires ImageKey(image) in t.currentStates
    requires t.currentStates[ImageKey(image)] == TextureVariant(TextureState(stages, access, layout, comBuffer))
    ensures var r := RepeatSetTextureState(t, n, comBuffer, image, stages, access, layout, aspect, ForceSetState.True);
      var next := TextureState(stages, access, layout, comBuffer);
      && r.currentStates == t.currentStates
      && r.bufferBarriersToFlush == t.bufferBarriersToFlush
      && r.imageBarriersToFlush == t.imageBarriersToFlush + seq(n, _ => TextureBarrier(next, next, image, aspect))
    decreases n
  {
    if n > 0 {
      var next := TextureState(stages, access, layout, comBuffer);
      var b := TextureBarrier(next, next, image, aspect);
      var once := SetTextureState(t, comBuffer, image, stages, access, layout, aspect, ForceSetState.True);
      UpdateSameValue(t.currentStates, ImageKey(image), TextureVariant(next));
      assert once.imageBarriersToFlush == t.imageBarriersToFlush + [b];
      ForcedRepeatAtState(once, n - 1, comBuffer, image, stages, access, layout, aspect);
      assert [b] + seq(n - 1, _ => b) == seq(n, _ => b);
    }
  }

  /** `n` forced requests append exactly `n` barriers: the first from the
      prior state, every later one from the requested state to itself. */
  lemma ForcedRequestsRecordEach(
    t: Snapshot, n: nat, comBuffer: CommandBuffer, image: Image,
    stages: PipelineStageFlags2, access: AccessFlags2, layout: ImageLayout, aspect: ImageAspectFlags)
    requires TextureOrAbsent(t.currentStates, ImageKey(image))
    requires n >= 1
    ensures var r := RepeatSetTextureState(t, n, comBuffer, image, stages, access, layout, aspect, ForceSetState.True);
      var prior := PriorTextureState(t.currentStates, image, comBuffer);
      var next := TextureState(stages, access, layout, comBuffer);
      && |r.imageBarriersToFlush| == |t.imageBarriersToFlush| + n
      && r.imageBarriersToFlush ==
           t.imageBarriersToFlush + [TextureBarrier(prior, next, image, aspect)] +
           seq(n - 1, _ => TextureBarrier(next, next, image, aspect))
      && r.currentStates == t.currentStates[ImageKey(image) := TextureVariant(next)]
      && r.bufferBarriersToFlush == t.bufferBarriersToFlush
  {
    var once := SetTextureState(t, comBuffer, image, stages, access, layout, aspect, ForceSetState.True);
    ForcedRepeatAtState(once, n - 1, comBuffer, image, stages, access, layout, aspect);
  }

  // ---------------------------------------------------------------- buffers

  /** The entry of the requested handle is the only one a buffer request
      creates or changes; the image barriers are untouched. */
  lemma BufferRequestTouchesOneEntry(
    t: Snapshot, comBuffer: CommandBuffer, buffer: Buffer,
    stages: PipelineStageFlags2, access: AccessFlags2, range: u64, offset: u64, force: ForceSetState)
    requires BufferOrAbsent(t.currentStates, BufferKey(buffer))
    ensures var r := SetBufferState(t, comBuffer, buffer, stages, access, range, offset, force);
      && OnlyEntryChanged(t.currentStates, r.currentStates, BufferKey(buffer))
      && r.currentStates[BufferKey(buffer)] == BufferVariant(BufferState(stages, access, comBuffer))
      && r.imageBarriersToFlush == t.imageBarriersToFlush
  {
  }

  /** A buffer request appends no barrier exactly when it is not forced and
      the prior state equals the requested one; otherwise it appends one that
      carries the caller's offset and size. */
  lemma BufferBarrierIff(
    t: Snapshot, comBuffer: CommandBuffer, buffer: Buffer,
    stages: PipelineStageFlags2, access: AccessFlags2, range: u64, offset: u64, force: ForceSetState)
    requires BufferOrAbsent(t.currentStates, BufferKey(buffer))
    ensures var r := SetBufferState(t, comBuffer, buffer, stages, access, range, offset, force);
      var prior := PriorBufferState(t.currentStates, buffer, comBuffer);
      var next := BufferState(stages, access, comBuffer);
      && (r.bufferBarriersToFlush == t.bufferBarriersToFlush <==> force == ForceSetState.False && prior == next)
      && (r.bufferBarriersToFlush != t.bufferBarriersToFlush ==>
            && |r.bufferBarriersToFlush| == |t.bufferBarriersToFlush| + 1
            && r.bufferBarriersToFlush[|t.bufferBarriersToFlush|] == BufferBarrier(prior, next, buffer, offset, range)
            && r.bufferBarriersToFlush[|t.bufferBarriersToFlush|].offset == offset
            && r.bufferBarriersToFlush[|t.bufferBarriersToFlush|].size == range)
  {
    var r := SetBufferState(t, comBuffer, buffer, stages, access, range, offset, force);
    assert r.bufferBarriersToFlush != t.bufferBarriersToFlush ==>
      |r.bufferBarriersToFlush| == |t.bufferBarriersToFlush| + 1;
  }

  /** First use of a buffer: nothing is recorded exactly when the request is
      unforced and asks for empty masks. */
  lemma BufferFirstUse(
    t: Snapshot, comBuffer: CommandBuffer, buffer: Buffer,
    stages: PipelineStageFlags2, access: AccessFlags2, range: u64, offset: u64, force: ForceSetState)
    requires BufferKey(buffer) !in t.currentStates
    ensures var r := SetBufferState(t, comBuffer, buffer, stages, access, range, offset, force);
      && BufferKey(buffer) in r.currentStates
      && (r.bufferBarriersToFlush == t.bufferBarriersToFlush <==>
            force == ForceSetState.False && stages == {} && access == {})
      && (r.bufferBarriersToFlush != t.bufferBarriersToFlush ==>
            && r.bufferBarriersToFlush[|t.bufferBarriersToFlush|].srcStageMask == {}
            && r.bufferBarriersToFlush[|t.bufferBarriersToFlush|].srcAccessMask == {})
  {
    BufferBarrierIff(t, comBuffer, buffer, stages, access, range, offset, force);
  }

  /** A non-forced request for exactly the stored buffer state changes nothing. */
  lemma BufferDeduplication(
    t: Snapshot, comBuffer: CommandBuffer, buffer: Buffer,
    stages: PipelineStageFlags2, access: AccessFlags2, range: u64, offset: u64)
    requires BufferKey(buffer) in t.currentStates
    requires t.currentStates[BufferKey(buffer)] == BufferVariant(BufferState(stages, access, comBuffer))
    ensures SetBufferState(t, comBuffer, buffer, stages, access, range, offset) == t
  {
    UpdateSameValue(t.currentStates, BufferKey(buffer), BufferVariant(BufferState(stages, access, comBuffer)));
  }

  /** Two identical non-forced buffer requests have the effect of one; two
      forced ones append two barriers. */
  lemma BufferIdempotentUnlessForced(
    t: Snapshot, comBuffer: CommandBuffer, buffer: Buffer,
    stages: PipelineStageFlags2, access: AccessFlags2, range: u64, offset: u64)
    requires BufferOrAbsent(t.currentStates, BufferKey(buffer))
    ensures var once := SetBufferState(t, comBuffer, buffer, stages, access, range, offset);
      && SetBufferState(once, comBuffer, buffer, stages, access, range, offset) == once
      && |once.bufferBarriersToFlush| <= |t.bufferBarriersToFlush| + 1
    ensures var once := SetBufferState(t, comBuffer, buffer, stages, access, range, offset, ForceSetState.True);
      var twice := SetBufferState(once, comBuffer, buffer, stages, access, range, offset, ForceSetState.True);
      && |twice.bufferBarriersToFlush| == |t.bufferBarriersToFlush| + 2
      && twice.currentStates == once.currentStates
  {
    var once := SetBufferState(t, comBuffer, buffer, stages, access, range, offset);
    BufferDeduplication(once, comBuffer, buffer, stages, access, range, offset);
    var forced := SetBufferState(t, comBuffer, buffer, stages, access, range, offset, ForceSetState.True);
    UpdateSameValue(forced.currentStates, BufferKey(buffer), BufferVariant(BufferState(stages, access, comBuffer)));
  }

  /** External buffer injection records no barrier, and the next tracked
      request for the injected masks records one unless it comes from the
      null command buffer. */
  lemma ExternalBufferThenTracked(
    t: Snapshot, comBuffer: CommandBuffer, buffer: Buffer,
    stages: PipelineStageFlags2, access: AccessFlags2, range: u64, offset: u64)
    ensures var injected := SetExternalBufferState(t, buffer, stages, access);
      var r := SetBufferState(injected, comBuffer, buffer, stages, access, range, offset);
      && injected.imageBarriersToFlush == t.imageBarriersToFlush
      && injected.bufferBarriersToFlush == t.bufferBarriersToFlush
      && (r.bufferBarriersToFlush == t.bufferBarriersToFlush <==> comBuffer == NullCommandBuffer)
  {
    var injected := SetExternalBufferState(t, buffer, stages, access);
    BufferBarrierIff(injected, comBuffer, buffer, stages, access, range, offset, ForceSetState.False);
  }

  // ------------------------------------------------------------------ flush

  /** A flush leaves both lists empty, so a flush right after it issues
      nothing and changes nothing. */
  lemma FlushTwiceIsNoOp(t: Snapshot)
    ensures var first := FlushBarriers(t);
      && first.after.imageBarriersToFlush == [] && first.after.bufferBarriersToFlush == []
      && FlushBarriers(first.after) == FlushResult(first.after, None)
  {
  }

  /** All pending barriers, image and buffer alike, go into the one command a
      flush issues, and its counts are the list lengths below 2^32. */
  lemma FlushCoalescesBatch(t: Snapshot)
    requires |t.imageBarriersToFlush| + |t.bufferBarriersToFlush| > 0
    requires |t.imageBarriersToFlush| < 0x1_0000_0000 && |t.bufferBarriersToFlush| < 0x1_0000_0000
    ensures var r := FlushBarriers(t);
      && r.command.Some?
      && r.command.value.imageMemoryBarriers == t.imageBarriersToFlush
      && r.command.value.bufferMemoryBarriers == t.bufferBarriersToFlush
      && |r.command.value.imageMemoryBarriers| + |r.command.value.bufferMemoryBarriers|
           == |t.imageBarriersToFlush| + |t.bufferBarriersToFlush|
      && r.command.value.imageMemoryBarrierCount as int == |t.imageBarriersToFlush|
      && r.command.value.bufferMemoryBarrierCount as int == |t.bufferBarriersToFlush|
  {
  }

  // -------------------------------------------------------------- shortcuts

  /** Repeating a shortcut with the same policy records at most one barrier. */
  lemma ColorTargetIdempotent(
    t: Snapshot, shouldGenerateBarriersWhen: BarrierBehavoir -> bool,
    comBuffer: CommandBuffer, image: Image, behavoir: BarrierBehavoir)
    requires TextureOrAbsent(t.currentStates, ImageKey(image))
    ensures var once := SetColorTarget(t, shouldGenerateBarriersWhen, comBuffer, image, behavoir);
      && SetColorTarget(once, shouldGenerateBarriersWhen, comBuffer, image, behavoir) == once
      && |once.imageBarriersToFlush| <= |t.imageBarriersToFlush| + 1
  {
    if shouldGenerateBarriersWhen(behavoir) {
      TextureIdempotent(t, comBuffer, image,
        {StageColorAttachmentOutput}, {AccessColorAttachmentWrite}, LayoutColorAttachmentOptimal, {AspectColor});
    }
  }

  /** With the policy on, the depth/stencil shortcut changes only the image's
      entry, to both fragment-test stages, depth/stencil write access and the
      depth/stencil attachment layout owned by `comBuffer`; any barrier it
      records leads into exactly that state over the caller's aspects and the
      full mip and layer range. */
  lemma DepthStencilTargetBarrier(
    t: Snapshot, shouldGenerateBarriersWhen: BarrierBehavoir -> bool,
    comBuffer: CommandBuffer, image: Image, aspectFlags: ImageAspectFlags, behavoir: BarrierBehavoir)
    requires shouldGenerateBarriersWhen(behavoir)
    requires TextureOrAbsent(t.currentStates, ImageKey(image))
    ensures var r := SetDepthStencilTarget(t, shouldGenerateBarriersWhen, comBuffer, image, aspectFlags, behavoir);
      && OnlyEntryChanged(t.currentStates, r.currentStates, ImageKey(image))
      && r.currentStates[ImageKey(image)] == TextureVariant(TextureState(
           {StageEarlyFragmentTests, StageLateFragmentTests}, {AccessDepthStencilAttachmentWrite},
           LayoutDepthStencilAttachmentOptimal, comBuffer))
      && r.bufferBarriersToFlush == t.bufferBarriersToFlush
      && |r.imageBarriersToFlush| <= |t.imageBarriersToFlush| + 1
      && (|r.imageBarriersToFlush| == |t.imageBarriersToFlush| + 1 ==>
            var b := r.imageBarriersToFlush[|t.imageBarriersToFlush|];
            && b.dstStageMask == {StageEarlyFragmentTests, StageLateFragmentTests}
            && b.dstAccessMask == {AccessDepthStencilAttachmentWrite}
            && b.newLayout == LayoutDepthStencilAttachmentOptimal
            && b.image == image
            && b.subresourceRange == ImageSubresourceRange(aspectFlags, 0, RemainingMipLevels, 0, RemainingArrayLayers))
  {
    var r := SetDepthStencilTarget(t, shouldGenerateBarriersWhen, comBuffer, image, aspectFlags, behavoir);
    assert {StageEarlyFragmentTests} + {StageLateFragmentTests} == {StageEarlyFragmentTests, StageLateFragmentTests};
    TextureRequestTouchesOneEntry(t, comBuffer, image,
      {StageEarlyFragmentTests} + {StageLateFragmentTests}, {AccessDepthStencilAttachmentWrite},
      LayoutDepthStencilAttachmentOptimal, aspectFlags, ForceSetState.False);
  }

  // --------------------------------------------------------------- scenario

  /** Upload then sample: the first transfer-destination request records one
      barrier out of the undefined layout, the repeated one records none, the
      forced shader-read request records one more; the flush issues both
      barriers in one command and the flush after it issues nothing. */
  lemma UploadThenSample(t: Snapshot, comBuffer: CommandBuffer, image: Image, aspect: ImageAspectFlags)
    requires ImageKey(image) !in t.currentStates
    requires t.imageBarriersToFlush == [] && t.bufferBarriersToFlush == []
    ensures
      var t1 := SetTextureState(t, comBuffer, image, {StageTransfer}, {AccessTransferWrite}, LayoutTransferDstOptimal, aspect);
      var t2 := SetTextureState(t1, comBuffer, image, {StageTransfer}, {AccessTransferWrite}, LayoutTransferDstOptimal, aspect);
      var t3 := SetTextureState(t2, comBuffer, image, {StageFragmentShader}, {AccessShaderRead},
        LayoutShaderReadOnlyOptimal, aspect, ForceSetState.True);
      var f := FlushBarriers(t3);
      && |t1.imageBarriersToFlush| == 1
      && t1.imageBarriersToFlush[0].oldLayout == LayoutUndefined
      && t1.imageBarriersToFlush[0].newLayout == LayoutTransferDstOptimal
      && t2 == t1
      && |t3.imageBarriersToFlush| == 2
      && f.command.Some?
      && f.command.value.imageMemoryBarriers == t3.imageBarriersToFlush
      && f.command.value.imageMemoryBarrierCount == 2
      && f.command.value.bufferMemoryBarrierCount == 0
      && f.command.value.imageMemoryBarriers[1].oldLayout == LayoutTransferDstOptimal
      && f.command.value.imageMemoryBarriers[1].newLayout == LayoutShaderReadOnlyOptimal
      && FlushBarriers(f.after).command.None?
  {
    var t1 := SetTextureState(t, comBuffer, image, {StageTransfer}, {AccessTransferWrite}, LayoutTransferDstOptimal, aspect);
    TextureFirstUse(t, comBuffer, image, {StageTransfer}, {AccessTransferWrite}, LayoutTransferDstOptimal, aspect, ForceSetState.False);
    TextureIdempotent(t, comBuffer, image, {StageTransfer}, {AccessTransferWrite}, LayoutTransferDstOptimal, aspect);
  }
}
