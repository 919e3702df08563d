# Capture bookkeeping of the GL framebuffer and renderbuffer entry points

This project models how RenderDoc's OpenGL capture layer tracks state for the
framebuffer and renderbuffer entry points in
`renderdoc/driver/gl/wrappers/gl_framebuffer_funcs.cpp`. Every wrapper
forwards to the real driver and then, depending on the capture state
`m_State`, decides where a serialised chunk goes. The chunk can go to the
framebuffer's own resource record, to the device record, or to the context
record that holds the frame being captured. The wrapper can also add a
dependency edge, mark resources dirty, or update the bound framebuffers, the
bound renderbuffer and the `m_Textures` side table. The model drops the driver
calls and keeps that bookkeeping for one context.

The files:

- `gl_types.dfy` (module `GLTypes`): GL enum values, native handles
  (`GLResource`), resource ids, the capture state with its order, and the
  32-bit conversion the serialiser applies to `GLsizei` values.
- `chunks.dfy` (module `Chunks`): a chunk is an opcode plus the ordered field
  list its `Serialise_*` function writes. `Encode` builds one from a typed
  payload and `Decode` reads it back; the round trip is proved.
- `records.dfy` (module `Records`): a resource record (chunk list plus parent
  ids), `glReadBuffer`'s replacement of a trailing `READ_BUFFER` chunk, and
  the `TextureData` entries of `m_Textures`.
- `mappings.dfy` (module `Mappings`): the replay-side draw-buffer remap and
  the attachment point chosen from a renderbuffer's base format.
- `framebuffer_funcs.dfy` (module `FramebufferFuncs`): the class
  `WrappedOpenGL`. Its fields are the resource manager as maps and sets, the
  per-context bindings and `m_Textures`. It has one method per entry point and
  one per reading-side `Serialise_*` bookkeeping step. The routing is given by
  pure effect functions (`AttachEffect`, `ReadBufferEffect`) whose properties
  are proved as lemmas.

The resource manager is represented by these fields:

- `ids`: the handle to id registration (`GetID`, `RegisterResource`,
  `UnregisterResource`).
- `current`: id to current handle (`GetCurrentResource`).
- `live`: captured id to live handle (`AddLiveResource`, `GetLiveResource`).
- `records`: the resource records, including the device record and the
  context record under two reserved ids.
- `dirty`: the dirty set.
- `nextId`: the id generator.

`Valid()` states seven things:

- registration is a bijection between non-zero handles and minted ids;
- the two special records exist;
- every object record is non-empty;
- every object record belongs to a registered resource;
- no object record ends in more than one `READ_BUFFER` chunk;
- each framebuffer binding holds a minted object id, and while that id is
  registered its resource is a framebuffer;
- the current renderbuffer is the empty id or an object id.

Every method of the class requires and preserves `Valid()`.

Assumptions where the code relies on files that are not part of this model:

- The capture states are ordered READING < EXECUTING < WRITING_IDLE <
  WRITING_CAPFRAME, and "writing" means the last two. The code compares
  `m_State` with `>=`, `<`, `<=` and `==`, but the enum is declared
  elsewhere.
- `GetID` of a handle that is not registered yields the empty id.
  `GetResourceRecord` of such a handle, or of a handle without a record,
  yields no record.
- The device and context records have no current resource. A
  target-selected attach that falls back to the device record therefore
  serialises framebuffer 0, the empty id.
- Ids come from a counter that starts above the two reserved ids.
- `GetLiveID` of an id with no registered live resource yields the empty
  id. This covers the empty id itself, which a replayed detach (texture or
  renderbuffer 0) carries.
- `AddParent`, `MarkParentsDirty` and `ResourceRecord::Delete` are modelled
  by their direct effects: the parent id is inserted, the parents are added
  to the dirty set, and the record is removed. `AddParent`'s cycle handling
  is not modelled.

Two behaviours of the code worth noting:

- `glNamedFramebufferParameteriEXT` appends to the framebuffer's own record
  in both writing states, including while a frame is captured. It never uses
  the context record.
- The reading side of `glRenderbufferStorage(Multisample)` sets width,
  height, depth, samples, type and format, but not `dimension`. The capture
  side sets `dimension` to 2. `ReplayStorage` and `CaptureStorage` keep that
  difference.

## Model

| member | source | states |
|---|---|---|
| GLTypes.WritingStates | renderdoc/driver/gl/wrappers/gl_framebuffer_funcs.cpp:112-130 | the writing states are exactly WRITING_IDLE and WRITING_CAPFRAME, and a state is either writing or at most EXECUTING |
| GLTypes.U32 | renderdoc/driver/gl/wrappers/gl_framebuffer_funcs.cpp:1069-1072 | a GLsizei serialised as uint32_t is kept when in range and wraps by 2^32 when negative |
| Chunks.Encode | renderdoc/driver/gl/wrappers/gl_framebuffer_funcs.cpp:116-117 | each payload is written under the chunk type of its SCOPED_SERIALISE_CONTEXT, never an unknown one |
| Chunks.AttachFieldOrder | renderdoc/driver/gl/wrappers/gl_framebuffer_funcs.cpp:81-84 | a texture attach writes the framebuffer id last and a renderbuffer attach (:462-465) writes it first |
| Chunks.DecodeTextureAttach | renderdoc/driver/gl/wrappers/gl_framebuffer_funcs.cpp:172-178 | a decoded texture attach re-encodes to the very chunk it was read from |
| Chunks.Decode | renderdoc/driver/gl/wrappers/gl_framebuffer_funcs.cpp:827-831 | whatever is decoded re-encodes to the same chunk; a DRAW_BUFFERS chunk whose count disagrees with its array is rejected |
| Chunks.FieldLayout | renderdoc/driver/gl/wrappers/gl_framebuffer_funcs.cpp:1142-1146 | every Serialise_* writes as many elements as its chunk type has (:31, :81-84, :174-178, :270-274, :366-371, :462-465, :549-553, :645-647, :704-705, :756-757, :798, :829-831, :939-948, :989, :1069-1072), with ResourceIds exactly at that type's id positions; the elements between the texture id and the framebuffer id of a texture attach (:83, :176-177, :272-273, :366-371, :551-552) number three less than the chunk's and include no id |
| Chunks.RoundTrip | renderdoc/driver/gl/wrappers/gl_framebuffer_funcs.cpp:79-106 | for every Serialise_* (also :29-45, :172-200, :460-487, :643-659, :702-723, :754-773, :796-812, :827-850, :937-956, :987-1007, :1067-1111, :1140-1185), reading a chunk back in the written order yields the payload that was written |
| Chunks.TextureAttachRoundTrip | renderdoc/driver/gl/wrappers/gl_framebuffer_funcs.cpp:366-371 | a texture attach of each of the five shapes (also :79-84, :172-178, :268-274, :547-553) reads back through its chunk type's shape as the payload it was written from |
| Chunks.EncodeInjective | renderdoc/driver/gl/wrappers/gl_framebuffer_funcs.cpp:460-465 | distinct payloads give distinct chunks |
| Records.CoalesceReadBuffer | renderdoc/driver/gl/wrappers/gl_framebuffer_funcs.cpp:736-746 | the read framebuffer's record grows by at most one chunk, keeps every chunk before the last, ends with the new chunk, and keeps its length exactly when the last chunk was a READ_BUFFER |
| Records.Trailing | renderdoc/driver/gl/wrappers/gl_framebuffer_funcs.cpp:738-743 | counts the run of chunks of one type at the end of a record: all of them have that type and the chunk before the run does not |
| Records.CoalesceKeepsOneReadBuffer | renderdoc/driver/gl/wrappers/gl_framebuffer_funcs.cpp:736-746 | one glReadBuffer on a record ending in at most one READ_BUFFER leaves exactly one, after the same earlier chunks |
| Records.RepeatedReadBuffer | renderdoc/driver/gl/wrappers/gl_framebuffer_funcs.cpp:725-752 | any number of glReadBuffer calls leave the record as before the first one plus exactly one trailing READ_BUFFER, the last call's |
| Mappings.RemapDrawBuffer | renderdoc/driver/gl/wrappers/gl_framebuffer_funcs.cpp:800-806 | BACK_LEFT, BACK_RIGHT, BACK, FRONT_LEFT, FRONT_RIGHT and FRONT become COLOR_ATTACHMENT0, anything else is kept, and no default colour buffer remains |
| Mappings.RemapDrawBufferIdempotent | renderdoc/driver/gl/wrappers/gl_framebuffer_funcs.cpp:804-806 | remapping twice is remapping once |
| Mappings.RemapDrawBuffers | renderdoc/driver/gl/wrappers/gl_framebuffer_funcs.cpp:835-842 | the list remap keeps the length and remaps every element |
| Mappings.RemapDrawBuffersIdempotent | renderdoc/driver/gl/wrappers/gl_framebuffer_funcs.cpp:835-842 | the list remap is idempotent and leaves no default colour buffer |
| Mappings.AttachmentForBaseFormat | renderdoc/driver/gl/wrappers/gl_framebuffer_funcs.cpp:1100-1105 | DEPTH_COMPONENT, STENCIL and DEPTH_STENCIL select the depth, stencil and depth-stencil attachments, anything else COLOR_ATTACHMENT0 |
| Mappings.AttachmentIsAttachmentPoint | renderdoc/driver/gl/wrappers/gl_framebuffer_funcs.cpp:1100-1105 | the chosen attachment is one of the four attachment points and the draw-buffer remap leaves it alone |
| FramebufferFuncs.AttachRecordId | renderdoc/driver/gl/wrappers/gl_framebuffer_funcs.cpp:140-149 | a target-selected attach writes to the draw binding's record for DRAW_FRAMEBUFFER and FRAMEBUFFER and to the read binding's for every other target; with bindings that hold object records, the device record is chosen exactly when the selected binding is unset |
| FramebufferFuncs.SelectedBinding | renderdoc/driver/gl/wrappers/gl_framebuffer_funcs.cpp:684-691 | DRAW_FRAMEBUFFER and FRAMEBUFFER select the draw binding and every other target (READ_FRAMEBUFFER among them) the read binding, as in every target-taking entry point (:142-149, :897-904, :919-926) |
| FramebufferFuncs.AttachRouting | renderdoc/driver/gl/wrappers/gl_framebuffer_funcs.cpp:119-130 | in WRITING_IDLE the chunk is appended to the framebuffer's record, the child's record becomes a parent and only a texture is marked dirty (:500-510 for renderbuffers); in WRITING_CAPFRAME only the context record grows and no edge is added; below writing nothing changes |
| FramebufferFuncs.ReadBufferRouting | renderdoc/driver/gl/wrappers/gl_framebuffer_funcs.cpp:729-750 | with a read framebuffer bound in WRITING_IDLE its record is coalesced and no other record changes; with none bound the device record gets the chunk; in WRITING_CAPFRAME the context record does; no parent set changes |
| FramebufferFuncs.StorageEntries | renderdoc/driver/gl/wrappers/gl_framebuffer_funcs.cpp:1128-1137 | the capture-side entry gets the size, depth 1, the sample count, dimension 2, RENDERBUFFER and the format; the reading-side entry (:1077-1084) gets the same but keeps its dimension |
| FramebufferFuncs.NewNamesPointwise | renderdoc/driver/gl/wrappers/gl_framebuffer_funcs.cpp:49-54 | the names glGen* registers are non-zero, unregistered and pairwise distinct |
| FramebufferFuncs.GenIdsRegisters | renderdoc/driver/gl/wrappers/gl_framebuffer_funcs.cpp:51-54 | glGen* registers exactly the new handles, the i-th under the i-th fresh id, and leaves earlier registrations alone |
| FramebufferFuncs.MintedEntries | renderdoc/driver/gl/wrappers/gl_framebuffer_funcs.cpp:72-75 | the i-th fresh id stands for the i-th new handle (as current resource, and as live resource when not writing) and other ids keep their entries |
| FramebufferFuncs.GenRecordsEntries | renderdoc/driver/gl/wrappers/gl_framebuffer_funcs.cpp:56-70 | while writing every fresh id gets a record holding exactly its GEN chunk and no other record changes |
| FramebufferFuncs.GenChunkIsEncoded | renderdoc/driver/gl/wrappers/gl_framebuffer_funcs.cpp:29-31 | the GEN chunk of a new object (also :59-63) is the encoding of its GEN payload, the object's id, and reads back as that payload |
| FramebufferFuncs.RegisterKeepsRegistry | renderdoc/driver/gl/wrappers/gl_framebuffer_funcs.cpp:54 | registering a new handle under the next id keeps registration a bijection |
| FramebufferFuncs.UnregisterKeepsRegistry | renderdoc/driver/gl/wrappers/gl_framebuffer_funcs.cpp:980 | unregistering a handle keeps registration a bijection |
| FramebufferFuncs.WrappedOpenGL.FramebufferId | renderdoc/driver/gl/wrappers/gl_framebuffer_funcs.cpp:84 | framebuffer 0 and unregistered names are written as the empty id; under Valid() any other id written is an object id whose current resource is exactly that framebuffer |
| FramebufferFuncs.WrappedOpenGL.RecordOf | renderdoc/driver/gl/wrappers/gl_framebuffer_funcs.cpp:114 | a handle has a record exactly when it is registered and its id has one; under Valid() that record is a non-empty object record whose current resource is the handle |
| FramebufferFuncs.WrappedOpenGL.LiveIdOf | renderdoc/driver/gl/wrappers/gl_framebuffer_funcs.cpp:101 | an id without a registered live resource has the empty live id; under Valid() any other id's live id is an object id whose current resource is the id's live handle |
| FramebufferFuncs.WrappedOpenGL.ReadBufferRunOnRecord | renderdoc/driver/gl/wrappers/gl_framebuffer_funcs.cpp:736-746 | every object record of a valid state admits RepeatedReadBuffer: any run of glReadBuffer calls leaves it without its trailing READ_BUFFER plus the last call's chunk |
| FramebufferFuncs.ReadBufferKeepsRecords | renderdoc/driver/gl/wrappers/gl_framebuffer_funcs.cpp:734-750 | glReadBuffer keeps every object record ending in at most one READ_BUFFER, and leaves the bound read framebuffer's record ending in exactly one |
| FramebufferFuncs.CoalesceKeepsRecords | renderdoc/driver/gl/wrappers/gl_framebuffer_funcs.cpp:736-746 | replacing a trailing READ_BUFFER of an object record keeps the records well formed and leaves that record ending in exactly one |
| FramebufferFuncs.AppendKeepsRecords | renderdoc/driver/gl/wrappers/gl_framebuffer_funcs.cpp:127 | appending any chunk but a READ_BUFFER to a record (or any chunk to the device or context record) keeps the records well formed |
| FramebufferFuncs.WrappedOpenGL.SerialisedFramebufferIsRecord | renderdoc/driver/gl/wrappers/gl_framebuffer_funcs.cpp:152-153 | in every valid state, a chunk written through the bound draw or read framebuffer's record names exactly that framebuffer's id; through the device record, or with no draw framebuffer (:880-883), it names the empty id |
| FramebufferFuncs.WrappedOpenGL.BoundFramebufferIsSerialised | renderdoc/driver/gl/wrappers/gl_framebuffer_funcs.cpp:152 | GetID of the current resource's name behind a binding is the binding's own id while the framebuffer exists, and the empty id once it was deleted |
| FramebufferFuncs.WrappedOpenGL.BindZeroReplaysFakeBackbuffer | renderdoc/driver/gl/wrappers/gl_framebuffer_funcs.cpp:756-763 | a bind of framebuffer 0 captured in a frame reads back as the empty id and replays as a bind of the fake backbuffer |
| FramebufferFuncs.WrappedOpenGL.RegisterResource | renderdoc/driver/gl/wrappers/gl_framebuffer_funcs.cpp:54 | a new handle is registered under a fresh id and the state stays valid |
| FramebufferFuncs.WrappedOpenGL.GenObject | renderdoc/driver/gl/wrappers/gl_framebuffer_funcs.cpp:53-75 | one handle is registered; writing gives its id a record of one GEN chunk, otherwise the id's live resource is the handle |
| FramebufferFuncs.WrappedOpenGL.GenStep | renderdoc/driver/gl/wrappers/gl_framebuffer_funcs.cpp:51-75 | one iteration of the glGen* loop takes the state from the first i names registered (with their GEN records or live mappings) to the first i + 1 |
| FramebufferFuncs.WrappedOpenGL.GenObjects | renderdoc/driver/gl/wrappers/gl_framebuffer_funcs.cpp:47-77 | glGenFramebuffers and glGenRenderbuffers (:1009-1039) register every handle and create GEN records while writing or live mappings otherwise, as the Gen* folds give them |
| FramebufferFuncs.WrappedOpenGL.DeleteObject | renderdoc/driver/gl/wrappers/gl_framebuffer_funcs.cpp:975-982 | a handle with a current resource loses its record, if any, and its registration; any other handle is skipped |
| FramebufferFuncs.WrappedOpenGL.DeleteObjects | renderdoc/driver/gl/wrappers/gl_framebuffer_funcs.cpp:971-985 | glDeleteFramebuffers and glDeleteRenderbuffers (:1051-1065) remove exactly the named handles' registrations, current resources and records |
| FramebufferFuncs.WrappedOpenGL.RecordAttach | renderdoc/driver/gl/wrappers/gl_framebuffer_funcs.cpp:119-130 | the shared attach routing once writing, as AttachEffect gives it |
| FramebufferFuncs.WrappedOpenGL.NamedFramebufferTexture | renderdoc/driver/gl/wrappers/gl_framebuffer_funcs.cpp:108-132 | glNamedFramebufferTexture*EXT (also :202-228, :298-324, :395-421, :577-603) routes a FRAMEBUFFER_TEX chunk as AttachEffect gives it: in WRITING_IDLE into the named framebuffer's record, with the texture's record, when it has one, as parent and dirty; in WRITING_CAPFRAME into the context record |
| FramebufferFuncs.WrappedOpenGL.FramebufferTexture | renderdoc/driver/gl/wrappers/gl_framebuffer_funcs.cpp:134-170 | glFramebufferTexture* (also :230-266, :326-362, :423-459, :605-641) records into the target's bound framebuffer, or the device record, naming that framebuffer |
| FramebufferFuncs.WrappedOpenGL.NamedFramebufferRenderbuffer | renderdoc/driver/gl/wrappers/gl_framebuffer_funcs.cpp:489-511 | a FRAMEBUFFER_RENDBUF chunk is routed as for a texture, but the renderbuffer's record only becomes a parent and nothing is marked dirty |
| FramebufferFuncs.WrappedOpenGL.FramebufferRenderbuffer | renderdoc/driver/gl/wrappers/gl_framebuffer_funcs.cpp:513-545 | as above, through the target's bound framebuffer or the device record |
| FramebufferFuncs.WrappedOpenGL.NamedFramebufferParameteri | renderdoc/driver/gl/wrappers/gl_framebuffer_funcs.cpp:661-674 | in either writing state exactly one FRAMEBUFFER_PARAM chunk is appended to the framebuffer's own record; otherwise nothing changes |
| FramebufferFuncs.WrappedOpenGL.FramebufferParameteri | renderdoc/driver/gl/wrappers/gl_framebuffer_funcs.cpp:676-700 | with the target's binding unset nothing is recorded; otherwise one chunk naming that framebuffer goes to its record |
| FramebufferFuncs.WrappedOpenGL.ReadBuffer | renderdoc/driver/gl/wrappers/gl_framebuffer_funcs.cpp:725-752 | the records become ReadBufferEffect of the old ones, for a READ_BUFFER chunk naming the read framebuffer's record (:705) |
| FramebufferFuncs.WrappedOpenGL.FileReadBuffer | renderdoc/driver/gl/wrappers/gl_framebuffer_funcs.cpp:734-750 | once writing, the READ_BUFFER chunk replaces a trailing one in the bound read framebuffer's record while idle, goes to the device record when none is bound, and to the context record while capturing a frame, as ReadBufferEffect gives it |
| FramebufferFuncs.WrappedOpenGL.BindFramebuffer | renderdoc/driver/gl/wrappers/gl_framebuffer_funcs.cpp:775-794 | a BIND_FRAMEBUFFER chunk naming the framebuffer as passed is appended only in WRITING_CAPFRAME; the target's binding becomes the record of the framebuffer actually bound, which below the writing states is the fake backbuffer for 0 (:785-786, via EffectiveFramebuffer), and the other binding is unchanged |
| FramebufferFuncs.WrappedOpenGL.DrawBuffer | renderdoc/driver/gl/wrappers/gl_framebuffer_funcs.cpp:814-825 | only WRITING_CAPFRAME records, one DRAW_BUFFER chunk in the context record |
| FramebufferFuncs.WrappedOpenGL.FramebufferDrawBuffers | renderdoc/driver/gl/wrappers/gl_framebuffer_funcs.cpp:852-871 | the DRAW_BUFFERS chunk goes to the context record in WRITING_CAPFRAME, to the framebuffer's record in WRITING_IDLE for a non-zero framebuffer, and nowhere otherwise |
| FramebufferFuncs.WrappedOpenGL.DrawBuffers | renderdoc/driver/gl/wrappers/gl_framebuffer_funcs.cpp:873-887 | only WRITING_CAPFRAME records, naming the bound draw framebuffer or framebuffer 0 |
| FramebufferFuncs.WrappedOpenGL.InvalidateFramebuffer | renderdoc/driver/gl/wrappers/gl_framebuffer_funcs.cpp:889-935 | glInvalidate(Sub)Framebuffer only act in WRITING_IDLE with the target's binding set, marking that record's parents dirty and writing no chunk |
| FramebufferFuncs.WrappedOpenGL.BlitFramebuffer | renderdoc/driver/gl/wrappers/gl_framebuffer_funcs.cpp:958-969 | only WRITING_CAPFRAME records, one BLIT_FRAMEBUFFER chunk in the context record |
| FramebufferFuncs.WrappedOpenGL.BindRenderbuffer | renderdoc/driver/gl/wrappers/gl_framebuffer_funcs.cpp:1041-1049 | the current renderbuffer becomes the bound handle's id |
| FramebufferFuncs.WrappedOpenGL.RenderbufferStorage | renderdoc/driver/gl/wrappers/gl_framebuffer_funcs.cpp:1113-1138 | glRenderbufferStorage and glRenderbufferStorageMultisample (:1187-1212) append exactly one storage chunk to the current renderbuffer's record while writing, and in every state give its m_Textures entry the new shape |
| FramebufferFuncs.WrappedOpenGL.ReplayGen | renderdoc/driver/gl/wrappers/gl_framebuffer_funcs.cpp:29-45 | while reading, the new driver object is registered under a fresh id and becomes the captured id's live resource; a renderbuffer (:987-1007) also gets its m_Textures resource and type |
| FramebufferFuncs.WrappedOpenGL.ReplayAttach | renderdoc/driver/gl/wrappers/gl_framebuffer_funcs.cpp:99-102 | while reading, the m_Textures entry of the attached texture's or renderbuffer's (:480-483) live id, the empty id for a detach, is flagged as a render target; nothing else changes |
| FramebufferFuncs.WrappedOpenGL.ReplayRenderbufferStorage | renderdoc/driver/gl/wrappers/gl_framebuffer_funcs.cpp:1074-1105 | while reading, the entry of the renderbuffer's live id takes the stored shape (:1147-1157 for multisample) and the attachment for its base format is chosen |
| FramebufferFuncs.WrappedOpenGL.ReplayFramebufferDrawBuffers | renderdoc/driver/gl/wrappers/gl_framebuffer_funcs.cpp:833-842 | below the writing states the draw-buffer array is remapped in place; otherwise it is untouched |

## Left out

- The real driver calls (`m_Real.*`) are foreign. The wrappers treat them as no-ops, and the replay side's GL object creation goes with them. That creation is the read-back texture and the two framebuffers made in `Serialise_glRenderbufferStorage*`. `GetBaseFormat` is a parameter of `ReplayRenderbufferStorage`.
- The byte layout behind the serialisation macros is not modelled. A chunk is an opcode plus an ordered list of typed fields.
- Multiple contexts, `GetCtx`/`GetCtxData` and thread affinity are not modelled. The model has one context and a constant fake-backbuffer name.
- `glBlitFramebuffer`'s geometry and the invalidated attachments or rectangle only reach the driver. `BlitFramebuffer` carries the geometry into its chunk but proves nothing about it.
- Reference counting and parent release inside `ResourceRecord::Delete` live in other files. `DeleteObject` removes the record. Records that still name the deleted id as a parent, and bindings that still hold it, keep that id.
- The replay of the driver-facing parts of each `Serialise_*` is not modelled. This covers binding the live framebuffer for attach, parameter and read-buffer calls, and the `glDrawBuffer` call itself. Only the bookkeeping is modelled: registration, live mappings, `m_Textures` entries, the render-target flag and the draw-buffer remap.
- `FramebufferDrawBuffers` and `DrawBuffers` take the buffers as a sequence, so a negative count `n` is not modelled.
- `RenderbufferStorage` stores width, height and sample count in `m_Textures` as unbounded integers. The field widths of `TextureData` are declared elsewhere.
- `GenObjects` requires the driver's names to be non-zero, unregistered and distinct. What `RegisterResource` does with a name that is already registered is not part of this model.
- `ReplayGen` requires the same of the one name the driver returns while reading, for the same reason.
