# Resource state tracker of etna, in Dafny

This project models `etna::ResourceStates`, the resource state tracker of the
etna Vulkan helper library. The tracker remembers, for every image and buffer
handle, the last pipeline stage mask, access mask, image layout (images only)
and owning command buffer it recorded. When a caller asks for a resource to be
put into a new state, the tracker compares the request with the stored state
and queues one image or buffer memory barrier if they differ, or if the call is
forced. `flushBarriers` then records all queued barriers as one by-region
pipeline-barrier command and empties both queues. Three shortcuts prepare an
image as a color, depth/stencil or resolve attachment. Each is gated by the
rendering context's barrier policy.

Files and modules:

- `vk.dfy`, module `Vk`: the Vulkan vocabulary the tracker uses.
  - Handles are 64-bit values wrapped per kind (`Image`, `Buffer`,
    `CommandBuffer`), with the null command buffer as handle 0.
  - A flag mask is the set of its bit positions, so `{}` is the empty mask and
    `|` is set union.
  - A layout is a 32-bit enumeration value.
  - The barrier records are plain datatypes, and so is the dependency
    descriptor.
  - The constants are those of the Vulkan headers: `VK_QUEUE_FAMILY_IGNORED`,
    `VK_REMAINING_MIP_LEVELS`, `VK_REMAINING_ARRAY_LAYERS`, `VK_WHOLE_SIZE`
    and the stage, access and aspect bits the tracker names.
- `states.dfy`, module `States`: `TextureState` and `BufferState` with the
  header's default field values and memberwise equality, and the two-variant
  `State`. It also holds the predicates that say `std::get<0>` or
  `std::get<1>` would succeed on an entry.
- `transitions.dfy`, module `Transitions`: every operation of the tracker as a
  function from the tracker's three fields (a `Snapshot`) to the fields after
  the call. The flush also returns the command it issues. Each function's
  contract gives the new state declaratively:
  - `IsTextureTransition` and `IsBufferTransition` give it for tracked
    requests, by comparing with the prior state;
  - `OnlyEntryChanged` gives the frame of the injections;
  - the flush's contract says what it clears and what it issues.
- `properties.dfy`, module `Properties`: lemmas relating calls. Among them:
  - deduplication and its if-and-only-if condition;
  - the first-use rule;
  - idempotence of `n` identical unforced requests, and exactly `n` barriers
    for `n` forced ones;
  - owner sensitivity;
  - injection followed by a tracked request;
  - flushing twice;
  - a complete upload-then-sample scenario.
- `resource_states.dfy`, module `Etna`: class `ResourceStates`.
  - Its fields are `currentStates: map<HandleType, State>`,
    `imageBarriersToFlush` and `bufferBarriersToFlush` (sequences), and a
    ghost log `emitted` of recorded pipeline-barrier commands.
  - Each method updates the fields in place as the C++ code does. It is proved
    to leave them exactly as the matching `Transitions` function says, and to
    touch `emitted` only in `FlushBarriers`.
  - A client method shows what a caller can conclude from these contracts.

Modelling decisions:

- Wrong-kind entries. `std::get` throws when a handle's entry holds the other
  variant (etna/source/StateTracking.cpp:56, :100). The tracked requests
  therefore require that an existing entry is of the expected kind. The
  shortcuts require this only when the policy lets them reach
  `setTextureState`. The external injections overwrite entries of either kind.
- First use. The default entry created on first use has `owner = com_buffer`
  (etna/source/StateTracking.cpp:48, :93). A request from that command buffer
  for exactly the default state (empty masks; undefined layout for images)
  therefore records no barrier. Any other first request records exactly one
  barrier, starting from empty masks and the undefined layout
  (`Properties.TextureFirstUse`, `Properties.BufferFirstUse`).
- Barrier counts. The counts in the dependency descriptor are
  `static_cast<uint32_t>` of the list sizes, so they are modelled as the size
  modulo 2^32. They equal the list lengths whenever the lists are shorter than
  2^32.
- Default arguments. The header's default arguments are Dafny default
  parameter values:
  - `setTextureState` and `setBufferState` default to `force = eFalse`;
  - `setBufferState` defaults to `range = WholeSize` and `offset = 0`;
  - the shortcuts default to `BarrierBehavoir::eDefault`.
- The barrier policy. The context's decision
  `get_context().shouldGenerateBarriersWhen(behavoir)` is a parameter
  `shouldGenerateBarriersWhen: BarrierBehavoir -> bool`. It is evaluated once
  per call.

## Model

| member | source | states |
|---|---|---|
| States.DefaultTextureState | etna/source/StateTracking.hpp:19-22 | a default texture state has empty stage and access masks, the undefined layout and the null owner |
| States.DefaultBufferState | etna/source/StateTracking.hpp:27-29 | a default buffer state has empty masks and the null owner |
| States.TextureStateEquality | etna/source/StateTracking.hpp:23 | texture states are equal iff all four fields are, owner included; states with different owners differ |
| States.BufferStateEquality | etna/source/StateTracking.hpp:30 | buffer states are equal iff stage, access and owner are |
| States.StateIsOneVariant | etna/source/StateTracking.hpp:32-33 | every stored state is exactly one of the texture and buffer variants |
| Transitions.SetExternalTextureState | etna/source/StateTracking.cpp:10-23 | the image's entry becomes the given stage, access and layout with the null owner; no other entry changes; both barrier lists are unchanged |
| Transitions.SetExternalBufferState | etna/source/StateTracking.cpp:25-34 | the buffer's entry becomes the given stage and access with the null owner; no other entry changes; both barrier lists are unchanged |
| Transitions.SetTextureState | etna/source/StateTracking.cpp:36-79 | the entry becomes (stage, access, layout, com_buffer). The prior state is the stored entry or the default entry owned by com_buffer. Exactly one barrier from the prior state is appended unless the call is unforced and the prior state equals the new one; the barrier has ignored queue families and the full mip and layer range of the aspect. The buffer list is unchanged |
| Transitions.SetBufferState | etna/source/StateTracking.cpp:81-115 | the same rule without layout; the barrier carries the caller's offset and size = range; the image list is unchanged |
| Transitions.FlushBarriers | etna/source/StateTracking.cpp:117-135 | afterwards both lists are empty and the store is unchanged. No command is issued iff both lists were empty, and then nothing changes. Otherwise one by-region command carries both lists in order, with counts equal to the lengths modulo 2^32 |
| Transitions.SetColorTarget | etna/source/StateTracking.cpp:137-150 | with the policy off, nothing changes; with it on, an unforced texture transition to (color-attachment-output, color-attachment-write, color-attachment-optimal) with the color aspect |
| Transitions.SetDepthStencilTarget | etna/source/StateTracking.cpp:152-169 | with the policy off, nothing changes; with it on, an unforced transition to (early and late fragment tests, depth-stencil-attachment-write, depth-stencil-attachment-optimal) with the caller's aspect |
| Transitions.SetResolveTarget | etna/source/StateTracking.cpp:171-187 | with the policy off, nothing changes; with it on, an unforced transition to (resolve, transfer-write, general) with the caller's aspect |
| Properties.TextureRequestTouchesOneEntry | etna/source/StateTracking.cpp:45-49 | a texture request creates or changes only the requested handle's entry, which ends as the requested state, and leaves the buffer list alone |
| Properties.TextureDeduplication | etna/source/StateTracking.cpp:50-58 | an unforced request equal to the stored entry in all four fields changes nothing at all |
| Properties.TextureBarrierIff | etna/source/StateTracking.cpp:57-77 | no barrier is appended iff the call is unforced and prior equals requested. Otherwise exactly one is, from the prior state to the requested one |
| Properties.TextureFirstUse | etna/source/StateTracking.cpp:46-49 | on an unseen image, nothing is appended iff the request is unforced for empty masks and the undefined layout. Any appended barrier starts from empty masks and the undefined layout |
| Properties.TextureIdempotent | etna/source/StateTracking.cpp:57-58 | two identical unforced requests equal one, and append at most one barrier |
| Properties.TextureForcedTwice | etna/source/StateTracking.cpp:57 | two identical forced requests append two barriers, the second from the requested state to itself |
| Properties.TextureOwnerChangeRecordsBarrier | etna/source/StateTracking.cpp:50-78 | the same triple requested from another command buffer appends exactly one barrier, from the stored state owned by the first buffer to the same triple owned by the second, so its source and destination stage, access and layout coincide; the owner becomes the new buffer |
| Properties.ExternalTextureThenTracked | etna/source/StateTracking.cpp:10-23 | injection appends nothing. A following tracked request for the same triple appends exactly one barrier unless it comes from the null command buffer |
| Properties.RepeatAtFixpoint | etna/source/StateTracking.cpp:57-58 | once the entry equals the request, any number of unforced repeats changes nothing |
| Properties.RepeatedRequestsRecordOnce | etna/source/StateTracking.cpp:57-58 | n ≥ 1 identical unforced requests have the effect of the first alone |
| Properties.ForcedRepeatAtState | etna/source/StateTracking.cpp:57-78 | forced requests for the stored state append one self-transition barrier each, and change no entry |
| Properties.ForcedRequestsRecordEach | etna/source/StateTracking.cpp:57-78 | n ≥ 1 forced requests append exactly n barriers. The first comes from the prior state, the rest are self-transitions |
| Properties.BufferRequestTouchesOneEntry | etna/source/StateTracking.cpp:90-94 | a buffer request creates or changes only the requested handle's entry, and leaves the image list alone |
| Properties.BufferBarrierIff | etna/source/StateTracking.cpp:101-113 | no buffer barrier is appended iff the call is unforced and prior equals requested. Otherwise exactly one is, with the caller's offset and size |
| Properties.BufferFirstUse | etna/source/StateTracking.cpp:91-94 | on an unseen buffer, nothing is appended iff the request is unforced for empty masks. Any barrier starts from empty masks |
| Properties.BufferDeduplication | etna/source/StateTracking.cpp:95-102 | an unforced request equal to the stored buffer entry changes nothing |
| Properties.BufferIdempotentUnlessForced | etna/source/StateTracking.cpp:101-114 | two identical unforced buffer requests equal one; two forced ones append two barriers |
| Properties.ExternalBufferThenTracked | etna/source/StateTracking.cpp:25-34 | buffer injection appends nothing. A following tracked request for the same masks appends a barrier unless it comes from the null command buffer |
| Properties.FlushTwiceIsNoOp | etna/source/StateTracking.cpp:119-122 | after a flush both lists are empty, and a second flush issues nothing and changes nothing |
| Properties.FlushCoalescesBatch | etna/source/StateTracking.cpp:124-131 | with N + M > 0 pending barriers (both below 2^32), one command is issued whose image and buffer arrays are exactly the pending lists in order, with counts N and M |
| Properties.ColorTargetIdempotent | etna/source/StateTracking.cpp:137-150 | repeating the color shortcut with the same policy changes nothing more and appends at most one barrier in total |
| Properties.DepthStencilTargetBarrier | etna/source/StateTracking.cpp:152-169 | with the policy on, the shortcut changes only the image's entry, to (early and late fragment tests, depth-stencil write, depth-stencil-attachment-optimal) owned by com_buffer; any barrier it appends has those as destination stage, access and layout, with the caller's aspect and the full mip and layer range |
| Properties.UploadThenSample | etna/source/StateTracking.cpp:36-135 | on an unseen image: a transfer-destination request appends one barrier out of the undefined layout; the repeat appends none; a forced shader-read request appends one; the flush issues both in one command; the next flush issues nothing |
| Etna.ResourceStates.constructor | etna/source/StateTracking.hpp:33-35 | a new tracker has an empty store, empty lists and an empty command log |
| Etna.ResourceStates.SetExternalTextureState | etna/source/StateTracking.cpp:10-23 | the fields change exactly as `Transitions.SetExternalTextureState` says, and no command is recorded |
| Etna.ResourceStates.SetExternalBufferState | etna/source/StateTracking.cpp:25-34 | the fields change exactly as `Transitions.SetExternalBufferState` says, and no command is recorded |
| Etna.ResourceStates.SetTextureState | etna/source/StateTracking.cpp:36-79 | the fields change exactly as `Transitions.SetTextureState` says, and no command is recorded |
| Etna.ResourceStates.SetBufferState | etna/source/StateTracking.cpp:81-115 | the fields change exactly as `Transitions.SetBufferState` says, and no command is recorded |
| Etna.ResourceStates.FlushBarriers | etna/source/StateTracking.cpp:117-135 | the fields become the flush function's result. The log gains exactly the one command it issues, recorded into com_buf, or nothing |
| Etna.ResourceStates.SetColorTarget | etna/source/StateTracking.cpp:137-150 | the fields change exactly as `Transitions.SetColorTarget` says |
| Etna.ResourceStates.SetDepthStencilTarget | etna/source/StateTracking.cpp:152-169 | the fields change exactly as `Transitions.SetDepthStencilTarget` says |
| Etna.ResourceStates.SetResolveTarget | etna/source/StateTracking.cpp:171-187 | the fields change exactly as `Transitions.SetResolveTarget` says |

## Left out

- etna/source/Etna.cpp is not part of this model. It is global-context,
  staging-upload, submission and blit plumbing over Vulkan. Its call to
  `setTextureState` with a base mip level and level count
  (etna/source/Etna.cpp:193-194) does not match the signature in
  etna/source/StateTracking.hpp:47-54. The model follows StateTracking.cpp,
  which always covers all mip levels and array layers.
- etna/source/TextureLoader.cpp, etna/include/etna/TextureLoader.hpp and
  etna/include/etna/EtnaConfig.hpp are not part of this model. They cover
  image file decoding, sampler setup, a floating-point mip-count formula and
  configuration constants.
- `get_context().shouldGenerateBarriersWhen` is not shown. It becomes the
  caller-supplied function `shouldGenerateBarriersWhen`. The BarrierBehavoir
  header is not part of this model either: of its enumerators only `eDefault`
  is visible, and the other two values given to `BarrierBehavoir` are
  placeholders that no contract depends on.
- `vk::CommandBuffer::pipelineBarrier2` is not executed. The ghost log
  `emitted` records the command buffer and the dependency descriptor it would
  receive.
- `std::bit_cast` of native handles is the identity on 64-bit handle values.
- Concurrency: the tracker is single-threaded and unlocked. The model is
  sequential.
- The dependency descriptor's global memory barriers (`memoryBarrierCount`,
  `pMemoryBarriers`) are not modelled. The tracker never sets them, so the
  command it issues always carries no global memory barrier.
- The real memory layout of the Vulkan structures (`sType`, `pNext`,
  pointers) is not modelled. An array pointer is modelled as the sequence it
  points to, and a null pointer as the empty sequence.
