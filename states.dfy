/** The value types of the tracker's state store: the last recorded
    synchronisation state of an image or a buffer, and the two-variant state
    kept per handle. */
module States {
  import opened Vk

  /** Handles of images and buffers share one 64-bit key space. */
  type HandleType = u64

  /** The default field values are those of a value-initialised state: empty
      masks, undefined layout, no owner. Equality is memberwise, owner included. */
  datatype TextureState = TextureState(
    piplineStageFlags: PipelineStageFlags2 := {},
    accessFlags: AccessFlags2 := {},
    layout: ImageLayout := LayoutUndefined,
    owner: CommandBuffer := NullCommandBuffer)

  datatype BufferState = BufferState(
    piplineStageFlags: PipelineStageFlags2 := {},
    accessFlags: AccessFlags2 := {},
    owner: CommandBuffer := NullCommandBuffer)

  /** Exactly one of the two kinds of state; variant 0 is the texture state. */
  datatype State = TextureVariant(texture: TextureState) | BufferVariant(buffer: BufferState)

  function ImageKey(image: Image): HandleType { image.handle }
  function BufferKey(buffer: Buffer): HandleType { buffer.handle }

  /** `std::get<0>` on the entry of `h` succeeds (or there is no entry yet). */
  predicate TextureOrAbsent(states: map<HandleType, State>, h: HandleType) {
    h in states ==> states[h].TextureVariant?
  }

  /** `std::get<1>` on the entry of `h` succeeds (or there is no entry yet). */
  predicate BufferOrAbsent(states: map<HandleType, State>, h: HandleType) {
    h in states ==> states[h].BufferVariant?
  }

  lemma DefaultTextureState()
    ensures TextureState() == TextureState({}, {}, LayoutUndefined, NullCommandBuffer)
    ensures TextureState().owner.handle == 0
  {
  }

  lemma DefaultBufferState()
    ensures BufferState() == BufferState({}, {}, NullCommandBuffer)
    ensures BufferState().owner.handle == 0
  {
  }

  /** Equality of texture states compares all four fields, so the same
      (stage, access, layout) recorded from another command buffer differs. */
  lemma TextureStateEquality(a: TextureState, b: TextureState)
    ensures a == b <==>
      a.piplineStageFlags == b.piplineStageFlags && a.accessFlags == b.accessFlags &&
      a.layout == b.layout && a.owner == b.owner
    ensures a.owner != b.owner ==> a != b
  {
  }

  lemma BufferStateEquality(a: BufferState, b: BufferState)
    ensures a == b <==>
      a.piplineStageFlags == b.piplineStageFlags && a.accessFlags == b.accessFlags &&
      a.owner == b.owner
    ensures a.owner != b.owner ==> a != b
  {
  }

  /** A state is never both kinds at once. */
  lemma StateIsOneVariant(s: State)
    ensures s.TextureVariant? != s.BufferVariant?
  {
  }
}
