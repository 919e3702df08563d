/**
 * The capture-side bookkeeping of the GL framebuffer and renderbuffer entry
 * points, for one context. Each entry point's real driver call is dropped;
 * what is kept is where, depending on the capture state, the call's chunk is
 * put (the framebuffer's own record, the device record or the context record
 * that holds the frame), which dependency edges and dirty marks it leaves,
 * which framebuffer and renderbuffer are current, and the m_Textures side
 * table. The resource manager is reduced to maps and sets held by the object.
 */
module FramebufferFuncs {
  import opened GLTypes
  import opened Chunks
  import opened Records
  import opened Mappings

  /** The ids of m_DeviceRecord and m_ContextRecord (the frame stream). Ids
      minted for GL objects start above them. */
  const DEVICE_RECORD_ID: ResourceId := Rid(0)
  const CONTEXT_RECORD_ID: ResourceId := Rid(1)
  const FIRST_OBJECT_ID: nat := 2

  predicate IsObjectId(id: ResourceId) {
    id.Rid? && id.n >= FIRST_OBJECT_ID
  }

  /** GL_DRAW_FRAMEBUFFER and GL_FRAMEBUFFER address the draw binding; every
      other target addresses the read binding. */
  predicate SelectsDraw(target: GLenum) {
    target == GL_DRAW_FRAMEBUFFER || target == GL_FRAMEBUFFER
  }

  /** The framebuffer record a target selects; None when that binding holds
      no record. */
  function SelectedBinding(target: GLenum, draw: Option<ResourceId>, read: Option<ResourceId>)
    : (b: Option<ResourceId>)
    ensures target == GL_DRAW_FRAMEBUFFER || target == GL_FRAMEBUFFER ==> b == draw
    ensures target != GL_DRAW_FRAMEBUFFER && target != GL_FRAMEBUFFER ==> b == read
  {
    if SelectsDraw(target) then draw else read
  }

  /** The record an attach call through a target writes to: the selected
      binding's record, or the device record when that binding is unset. */
  function AttachRecordId(target: GLenum, draw: Option<ResourceId>, read: Option<ResourceId>)
    : (rid: ResourceId)
    ensures SelectsDraw(target) && draw.Some? ==> rid == draw.value
    ensures !SelectsDraw(target) && read.Some? ==> rid == read.value
    ensures BindingOk(draw) && BindingOk(read) ==>
              (rid == DEVICE_RECORD_ID <==> SelectedBinding(target, draw, read).None?)
  {
    match SelectedBinding(target, draw, read)
    case Some(r) => r
    case None => DEVICE_RECORD_ID
  }

  function Append(records: map<ResourceId, Record>, rid: ResourceId, c: Chunk): map<ResourceId, Record>
    requires rid in records
  {
    records[rid := records[rid].AddChunk(c)]
  }

  /** An attach in the idle-writing state: the child's record, if any,
      becomes a parent, then the chunk is appended. */
  function WithAttach(r: Record, c: Chunk, child: Option<ResourceId>): Record {
    (if child.Some? then r.AddParent(child.value) else r).AddChunk(c)
  }

  /** The records and dirty set after a texture or renderbuffer attach. In
      the idle-writing state the chunk goes to the framebuffer's record and
      the attached object's record becomes its parent (a texture is also
      marked dirty); while a frame is captured the chunk goes to the context
      record only; below the writing states nothing is recorded. */
  function AttachEffect(s: CaptureState, records: map<ResourceId, Record>, dirty: set<ResourceId>,
                        target: Option<ResourceId>, c: Chunk, child: Option<ResourceId>,
                        markChildDirty: bool)
    : (map<ResourceId, Record>, set<ResourceId>)
    requires s == WritingIdle ==> target.Some? && target.value in records
    requires CONTEXT_RECORD_ID in records
  {
    if s == WritingIdle then
      (records[target.value := WithAttach(records[target.value], c, child)],
       if markChildDirty && child.Some? then dirty + {child.value} else dirty)
    else if s == WritingCapframe then
      (Append(records, CONTEXT_RECORD_ID, c), dirty)
    else
      (records, dirty)
  }

  /** What AttachEffect does, record by record. */
  lemma AttachRouting(s: CaptureState, records: map<ResourceId, Record>, dirty: set<ResourceId>,
                      target: Option<ResourceId>, c: Chunk, child: Option<ResourceId>,
                      markChildDirty: bool)
    requires s == WritingIdle ==> target.Some? && target.value in records
    requires CONTEXT_RECORD_ID in records
    ensures var (rs, ds) := AttachEffect(s, records, dirty, target, c, child, markChildDirty);
      && rs.Keys == records.Keys
      && (forall k | k in records :: |rs[k].chunks| >= |records[k].chunks|)
      && (s == WritingIdle ==>
            && rs[target.value].chunks == records[target.value].chunks + [c]
            && rs[target.value].parents == records[target.value].parents
                                           + (if child.Some? then {child.value} else {})
            && (forall k | k in records && k != target.value :: rs[k] == records[k])
            && ds == dirty + (if markChildDirty && child.Some? then {child.value} else {}))
      && (s == WritingCapframe ==>
            && rs[CONTEXT_RECORD_ID].chunks == records[CONTEXT_RECORD_ID].chunks + [c]
            && (forall k | k in records :: rs[k].parents == records[k].parents)
            && (forall k | k in records && k != CONTEXT_RECORD_ID :: rs[k] == records[k])
            && ds == dirty)
      && (!s.IsWriting() ==> rs == records && ds == dirty)
  {
  }

  /** The records after glReadBuffer. In the idle-writing state with a read
      framebuffer bound, a trailing READ_BUFFER chunk in its record is
      replaced; with none bound the chunk is appended to the device record;
      while a frame is captured it is appended to the context record. */
  function ReadBufferEffect(s: CaptureState, records: map<ResourceId, Record>,
                            read: Option<ResourceId>, c: Chunk): map<ResourceId, Record>
    requires DEVICE_RECORD_ID in records && CONTEXT_RECORD_ID in records
    requires s == WritingIdle && read.Some? ==>
               read.value in records && |records[read.value].chunks| > 0
  {
    if s == WritingIdle then
      if read.Some? then
        var r := records[read.value];
        records[read.value := r.(chunks := CoalesceReadBuffer(r.chunks, c))]
      else Append(records, DEVICE_RECORD_ID, c)
    else if s == WritingCapframe then Append(records, CONTEXT_RECORD_ID, c)
    else records
  }

  lemma ReadBufferRouting(s: CaptureState, records: map<ResourceId, Record>,
                          read: Option<ResourceId>, c: Chunk)
    requires DEVICE_RECORD_ID in records && CONTEXT_RECORD_ID in records
    requires s == WritingIdle && read.Some? ==>
               read.value in records && |records[read.value].chunks| > 0
    ensures var rs := ReadBufferEffect(s, records, read, c);
      && rs.Keys == records.Keys
      && (forall k | k in records :: rs[k].parents == records[k].parents)
      && (forall k | k in records && |records[k].chunks| > 0 :: |rs[k].chunks| > 0)
      && (s == WritingIdle && read.Some? ==>
            var old_ := records[read.value].chunks;
            var new_ := rs[read.value].chunks;
            && |old_| <= |new_| <= |old_| + 1
            && new_[..|old_| - 1] == old_[..|old_| - 1]
            && new_[|new_| - 1] == c
            && (forall k | k in records && k != read.value :: rs[k] == records[k]))
      && (s == WritingIdle && read.None? ==>
            rs == Append(records, DEVICE_RECORD_ID, c))
      && (s == WritingCapframe ==> rs == Append(records, CONTEXT_RECORD_ID, c))
      && (!s.IsWriting() ==> rs == records)
  {
  }

  /** The m_Textures entry glRenderbufferStorage(Multisample) writes on the
      capture side. */
  function CaptureStorage(t: TextureData, width: int, height: int, samples: int,
                          format: GLenum): TextureData
  {
    t.(width := width, height := height, depth := 1, samples := samples,
       curType := GL_RENDERBUFFER, dimension := 2, internalFormat := format)
  }

  /** The m_Textures entry the replay of a storage chunk writes: the same
      fields but the dimension. */
  function ReplayStorage(t: TextureData, p: Payload): TextureData
    requires p.RenderbufferStorageP? || p.RenderbufferStorageMSP?
  {
    t.(width := p.width, height := p.height, depth := 1,
       samples := if p.RenderbufferStorageP? then 1 else p.samples,
       curType := GL_RENDERBUFFER, internalFormat := p.format)
  }

  lemma StorageEntries(t: TextureData, width: int, height: int, samples: int, format: GLenum,
                       p: Payload)
    requires p.RenderbufferStorageP? || p.RenderbufferStorageMSP?
    ensures var e := CaptureStorage(t, width, height, samples, format);
      && e.width == width && e.height == height && e.depth == 1 && e.samples == samples
      && e.dimension == 2 && e.curType == GL_RENDERBUFFER && e.internalFormat == format
      && e.resource == t.resource && e.creationFlags == t.creationFlags
    ensures var e := ReplayStorage(t, p);
      && e.width == p.width && e.height == p.height && e.depth == 1
      && e.samples == (if p.RenderbufferStorageMSP? then p.samples else 1)
      && e.curType == GL_RENDERBUFFER && e.internalFormat == p.format
      && e.dimension == t.dimension && e.resource == t.resource
      && e.creationFlags == t.creationFlags
  {
  }

  function GenPayload(kind: ObjectKind, id: ResourceId): Payload {
    if kind == Framebuffer then GenFramebuffersP(id) else GenRenderbuffersP(id)
  }

  /** The chunk glGen* records for a new object, spelled out: its GEN chunk
      type and the one field Serialise_glGen* writes, the id. It equals
      Encode(GenPayload(kind, id)) (GenChunkIsEncoded); the glGen* loop uses
      this literal form so that its proof does not unfold Encode. */
  function GenChunk(kind: ObjectKind, id: ResourceId): Chunk {
    Chunk(if kind == Framebuffer then GenFramebuffers else GenRenderbuffers, [IdField(id)])
  }

  /** The spelled-out GEN chunk is the encoding of the GEN payload, and the
      reading side gets the payload back from it. */
  lemma GenChunkIsEncoded(kind: ObjectKind, id: ResourceId)
    ensures GenChunk(kind, id) == Encode(GenPayload(kind, id))
    ensures Decode(GenChunk(kind, id)) == Some(GenPayload(kind, id))
  {
    RoundTrip(GenPayload(kind, id));
  }

  /** The handles a glDelete* call names. It is the same set as
      HandlesUpTo(kind, names, |names|); glDelete* walks prefixes
      names[..i] and glGen* walks a count, and each form keeps its own
      loop proof free of slicing or counting steps. */
  ghost function Handles(kind: ObjectKind, names: seq<GLuint>): set<GLResource> {
    set n | n in names :: Res(kind, n)
  }

  /** The id minted for the i-th handle of a glGen* call. */
  function MintedId(start: nat, i: nat): ResourceId {
    Rid(start + i)
  }

  ghost function IdRange(start: nat, count: nat): set<ResourceId> {
    set k | start <= k < start + count :: Rid(k)
  }

  /** Whether x is among the first k names. */
  predicate Occurs(names: seq<GLuint>, x: GLuint, k: nat)
    requires k <= |names|
  {
    k > 0 && (names[k - 1] == x || Occurs(names, x, k - 1))
  }

  lemma {:induction false} OccursIsMembership(names: seq<GLuint>, x: GLuint, k: nat)
    requires k <= |names|
    ensures Occurs(names, x, k) <==> x in names[..k]
  {
    if k > 0 {
      OccursIsMembership(names, x, k - 1);
      assert names[..k] == names[..k - 1] + [names[k - 1]];
    }
  }

  /** What the first count names of a glGen* call must be: non-zero, not
      registered yet, and each different from the ones before it. */
  predicate NewNames(ids: map<GLResource, ResourceId>, kind: ObjectKind, names: seq<GLuint>, count: nat)
    requires count <= |names|
  {
    count == 0
    || (NewNames(ids, kind, names, count - 1)
        && names[count - 1] != 0 && Res(kind, names[count - 1]) !in ids
        && !Occurs(names, names[count - 1], count - 1))
  }

  /** NewNames means every name is non-zero and unregistered and no name
      occurs twice. */
  lemma {:induction false} NewNamesPointwise(ids: map<GLResource, ResourceId>, kind: ObjectKind,
                                             names: seq<GLuint>, count: nat)
    requires count <= |names| && NewNames(ids, kind, names, count)
    ensures forall i | 0 <= i < count :: names[i] != 0 && Res(kind, names[i]) !in ids
    ensures forall i, j | 0 <= i < j < count :: names[i] != names[j]
  {
    if count > 0 {
      NewNamesPointwise(ids, kind, names, count - 1);
      OccursIsMembership(names, names[count - 1], count - 1);
      forall i | 0 <= i < count - 1
        ensures names[i] != names[count - 1]
      {
        assert names[..count - 1][i] == names[i];
      }
    }
  }

  lemma {:induction false} NewNamesPrefix(ids: map<GLResource, ResourceId>, kind: ObjectKind,
                                          names: seq<GLuint>, count: nat, k: nat)
    requires k <= count <= |names| && NewNames(ids, kind, names, count)
    ensures NewNames(ids, kind, names, k)
  {
    if k < count {
      NewNamesPrefix(ids, kind, names, count - 1, k);
    }
  }

  /** The handles among the first count names. */
  ghost function HandlesUpTo(kind: ObjectKind, names: seq<GLuint>, count: nat): set<GLResource>
    requires count <= |names|
  {
    set j | 0 <= j < count :: Res(kind, names[j])
  }

  /** The registrations the first count names of a glGen* call add: the
      i-th name under MintedId(start, i). */
  function GenIds(ids: map<GLResource, ResourceId>, kind: ObjectKind, names: seq<GLuint>,
                  start: nat, count: nat): map<GLResource, ResourceId>
    requires count <= |names|
  {
    if count == 0 then ids
    else GenIds(ids, kind, names, start, count - 1)[Res(kind, names[count - 1]) := MintedId(start, count - 1)]
  }

  /** The id -> handle entries the first count names add (to the current
      resources, and to the live resources when not writing). */
  function Minted(m: map<ResourceId, GLResource>, kind: ObjectKind, names: seq<GLuint>,
                  start: nat, count: nat): map<ResourceId, GLResource>
    requires count <= |names|
  {
    if count == 0 then m
    else Minted(m, kind, names, start, count - 1)[MintedId(start, count - 1) := Res(kind, names[count - 1])]
  }

  /** The records count fresh ids get while writing: each holds its GEN
      chunk. */
  function GenRecords(records: map<ResourceId, Record>, kind: ObjectKind, start: nat, count: nat)
    : map<ResourceId, Record>
  {
    if count == 0 then records
    else GenRecords(records, kind, start, count - 1)[MintedId(start, count - 1) :=
           NewRecord(GenChunk(kind, MintedId(start, count - 1)))]
  }

  /** glGen* registers exactly the new handles, the i-th under the i-th
      fresh id, and leaves every earlier registration alone. */
  lemma {:induction false} GenIdsRegisters(ids: map<GLResource, ResourceId>, kind: ObjectKind,
                                           names: seq<GLuint>, start: nat, count: nat)
    requires count <= |names| && NewNames(ids, kind, names, count)
    ensures GenIds(ids, kind, names, start, count).Keys == ids.Keys + HandlesUpTo(kind, names, count)
    ensures forall h | h in ids :: GenIds(ids, kind, names, start, count)[h] == ids[h]
    ensures forall i | 0 <= i < count ::
              GenIds(ids, kind, names, start, count)[Res(kind, names[i])] == MintedId(start, i)
  {
    if count > 0 {
      GenIdsRegisters(ids, kind, names, start, count - 1);
      NewNamesPointwise(ids, kind, names, count);
      assert HandlesUpTo(kind, names, count)
             == HandlesUpTo(kind, names, count - 1) + {Res(kind, names[count - 1])};
    }
  }

  /** The i-th fresh id stands for the i-th new handle; ids outside the
      fresh range keep their entries. */
  lemma {:induction false} MintedEntries(m: map<ResourceId, GLResource>, kind: ObjectKind,
                                         names: seq<GLuint>, start: nat, count: nat)
    requires count <= |names|
    ensures Minted(m, kind, names, start, count).Keys == m.Keys + IdRange(start, count)
    ensures forall k | k in m && k !in IdRange(start, count) :: Minted(m, kind, names, start, count)[k] == m[k]
    ensures forall i | 0 <= i < count :: Minted(m, kind, names, start, count)[MintedId(start, i)] == Res(kind, names[i])
  {
    if count > 0 {
      MintedEntries(m, kind, names, start, count - 1);
      assert IdRange(start, count) == IdRange(start, count - 1) + {MintedId(start, count - 1)};
    }
  }

  /** While writing, glGen* gives each fresh id a record holding only its
      GEN chunk and leaves the other records alone. */
  lemma {:induction false} GenRecordsEntries(records: map<ResourceId, Record>, kind: ObjectKind,
                                             start: nat, count: nat)
    ensures GenRecords(records, kind, start, count).Keys == records.Keys + IdRange(start, count)
    ensures forall k | k in records && k !in IdRange(start, count) ::
              GenRecords(records, kind, start, count)[k] == records[k]
    ensures forall i | 0 <= i < count ::
              GenRecords(records, kind, start, count)[MintedId(start, i)]
              == NewRecord(GenChunk(kind, MintedId(start, i)))
  {
    if count > 0 {
      GenRecordsEntries(records, kind, start, count - 1);
      assert IdRange(start, count) == IdRange(start, count - 1) + {MintedId(start, count - 1)};
    }
  }

  /** The i-th name of a glGen* call is non-zero and not registered by the
      call's earlier names. */
  lemma GenStepFresh(ids: map<GLResource, ResourceId>, kind: ObjectKind, names: seq<GLuint>,
                     start: nat, i: nat)
    requires i < |names| && NewNames(ids, kind, names, |names|)
    ensures names[i] != 0
    ensures Res(kind, names[i]) !in GenIds(ids, kind, names, start, i)
  {
    NewNamesPrefix(ids, kind, names, |names|, i + 1);
    GenIdsRegisters(ids, kind, names, start, i);
    OccursIsMembership(names, names[i], i);
  }

  /** The ids a set of handles was registered under. */
  ghost function Retired(ids: map<GLResource, ResourceId>, hs: set<GLResource>): set<ResourceId> {
    set h | h in ids && h in hs :: ids[h]
  }

  /** Retiring the handles one after another retires the ids of all of
      them; a handle already retired contributes nothing more. */
  lemma RetireStep<V>(ids: map<GLResource, ResourceId>, hs: set<GLResource>, res: GLResource,
                      m: map<ResourceId, V>)
    ensures (ids - hs) - {res} == ids - (hs + {res})
    ensures (m - Retired(ids, hs)) - Retired(ids - hs, {res}) == m - Retired(ids, hs + {res})
  {
    assert Retired(ids, hs + {res}) == Retired(ids, hs) + Retired(ids - hs, {res});
  }

  /** Registration is a bijection between live handles (non-zero names) and
      the object ids minted so far. */
  ghost predicate RegistryOk(ids: map<GLResource, ResourceId>, current: map<ResourceId, GLResource>,
                             nextId: nat)
  {
    && FIRST_OBJECT_ID <= nextId
    && (forall h | h in ids :: h.Res? && h.name != 0 && ids[h] in current && current[ids[h]] == h)
    && (forall i | i in current ::
          current[i] in ids && ids[current[i]] == i && IsObjectId(i) && i.n < nextId)
  }

  /** The device and context records exist, every record's id was minted,
      and every object's record is non-empty and ends in at most one
      READ_BUFFER chunk (glReadBuffer replaces a trailing one rather than
      stacking a second). */
  ghost predicate RecordsOk(records: map<ResourceId, Record>, nextId: nat) {
    && DEVICE_RECORD_ID in records && CONTEXT_RECORD_ID in records
    && (forall i | i in records :: i.Rid? && i.n < nextId)
    && (forall i | i in records && IsObjectId(i) ::
          |records[i].chunks| > 0 && NoStackedReadBuffer(records[i].chunks))
  }

  predicate BindingOk(b: Option<ResourceId>) {
    b.Some? ==> IsObjectId(b.value)
  }

  /** A framebuffer binding holds a minted id, and while that id has a
      current resource the resource is a framebuffer: a binding only goes
      stale when its framebuffer is deleted, and ids are never reused. */
  ghost predicate BoundFramebufferOk(b: Option<ResourceId>, current: map<ResourceId, GLResource>, nextId: nat) {
    b.Some? ==>
      && b.value.Rid? && b.value.n < nextId
      && (b.value in current ==> current[b.value].Res? && current[b.value].kind == Framebuffer)
  }

  /** Every object record belongs to a resource that is still registered:
      records are made for fresh ids and deleted with their resource. */
  ghost predicate RecordsRegistered(records: map<ResourceId, Record>, current: map<ResourceId, GLResource>) {
    forall i | i in records && IsObjectId(i) :: i in current
  }

  /** Registering a new handle under the next id keeps a binding well
      formed: the binding's id is older than the new one. */
  lemma RegisterKeepsBinding(b: Option<ResourceId>, current: map<ResourceId, GLResource>, nextId: nat,
                             res: GLResource)
    requires BoundFramebufferOk(b, current, nextId)
    ensures BoundFramebufferOk(b, current[Rid(nextId) := res], nextId + 1)
  {
  }

  /** Registering a new handle under the next id keeps the registry a
      bijection. */
  lemma RegisterKeepsRegistry(ids: map<GLResource, ResourceId>, current: map<ResourceId, GLResource>,
                              nextId: nat, res: GLResource)
    requires RegistryOk(ids, current, nextId)
    requires res.Res? && res.name != 0 && res !in ids
    ensures Rid(nextId) !in current
    ensures RegistryOk(ids[res := Rid(nextId)], current[Rid(nextId) := res], nextId + 1)
  {
  }

  /** Unregistering a handle keeps the registry a bijection. */
  lemma UnregisterKeepsRegistry(ids: map<GLResource, ResourceId>, current: map<ResourceId, GLResource>,
                                nextId: nat, res: GLResource)
    requires RegistryOk(ids, current, nextId)
    requires res in ids
    ensures RegistryOk(ids - {res}, current - {ids[res]}, nextId)
  {
  }

  /** Appending a chunk to a record keeps the records well formed, unless
      it stacks a READ_BUFFER onto an object's record. */
  lemma AppendKeepsRecords(records: map<ResourceId, Record>, rid: ResourceId, r: Record, c: Chunk,
                           nextId: nat)
    requires RecordsOk(records, nextId) && rid in records && r.chunks == records[rid].chunks
    requires c.op != ReadBuffer || !IsObjectId(rid)
    ensures RecordsOk(records[rid := r.AddChunk(c)], nextId)
  {
  }

  lemma NewRecordKeepsRecords(records: map<ResourceId, Record>, id: ResourceId, c: Chunk, nextId: nat)
    requires RecordsOk(records, nextId) && id.Rid? && id.n < nextId && c.op != ReadBuffer
    ensures RecordsOk(records[id := NewRecord(c)], nextId)
  {
  }

  /** Coalescing a READ_BUFFER chunk into an object's record keeps the
      records well formed and leaves exactly one trailing READ_BUFFER. */
  lemma CoalesceKeepsRecords(records: map<ResourceId, Record>, rid: ResourceId, c: Chunk, nextId: nat)
    requires RecordsOk(records, nextId) && rid in records && IsObjectId(rid) && c.op == ReadBuffer
    ensures |records[rid].chunks| > 0
    ensures Trailing(CoalesceReadBuffer(records[rid].chunks, c), ReadBuffer) == 1
    ensures RecordsOk(records[rid := records[rid].(chunks := CoalesceReadBuffer(records[rid].chunks, c))],
                      nextId)
  {
    NoStackedReadBufferIsTrailing(records[rid].chunks);
    CoalesceKeepsOneReadBuffer(records[rid].chunks, c);
    NoStackedReadBufferIsTrailing(CoalesceReadBuffer(records[rid].chunks, c));
  }

  /** glReadBuffer keeps the records well formed: on a bound read
      framebuffer's record the trailing READ_BUFFER is replaced, so exactly
      one remains. */
  lemma ReadBufferKeepsRecords(s: CaptureState, records: map<ResourceId, Record>,
                               read: Option<ResourceId>, c: Chunk, nextId: nat)
    requires RecordsOk(records, nextId) && BindingOk(read) && c.op == ReadBuffer
    requires s == WritingIdle && read.Some? ==> read.value in records
    ensures RecordsOk(ReadBufferEffect(s, records, read, c), nextId)
    ensures s == WritingIdle && read.Some? ==>
              Trailing(ReadBufferEffect(s, records, read, c)[read.value].chunks, ReadBuffer) == 1
  {
    if s == WritingIdle && read.Some? {
      CoalesceKeepsRecords(records, read.value, c, nextId);
    } else if s == WritingIdle {
      AppendKeepsRecords(records, DEVICE_RECORD_ID, records[DEVICE_RECORD_ID], c, nextId);
    } else if s == WritingCapframe {
      AppendKeepsRecords(records, CONTEXT_RECORD_ID, records[CONTEXT_RECORD_ID], c, nextId);
    }
  }

  class WrappedOpenGL {
    /** m_State; these entry points read it and never change it. */
    var state: CaptureState

    // The resource manager.
    /** Native handle -> id of the current resource (GetID). */
    var ids: map<GLResource, ResourceId>
    /** Id -> current native handle (GetCurrentResource). */
    var current: map<ResourceId, GLResource>
    /** Id read from a capture -> live handle (AddLiveResource). */
    var live: map<ResourceId, GLResource>
    /** Id -> record (GetResourceRecord), including the device and context records. */
    var records: map<ResourceId, Record>
    /** Resources marked dirty (MarkDirtyResource). */
    var dirty: set<ResourceId>
    /** The next id the id generator hands out. */
    var nextId: nat

    // Per-context state.
    var drawFramebufferRecord: Option<ResourceId>
    var readFramebufferRecord: Option<ResourceId>
    var renderbuffer: ResourceId

    /** The m_Textures side table. */
    var textures: map<ResourceId, TextureData>

    /** The framebuffer that stands in for the default framebuffer on replay. */
    const fakeBackbufferFBO: GLuint

    ghost predicate Valid()
      reads this
    {
      && RegistryOk(ids, current, nextId)
      && RecordsOk(records, nextId)
      && RecordsRegistered(records, current)
      && BindingOk(drawFramebufferRecord) && BindingOk(readFramebufferRecord)
      && BoundFramebufferOk(drawFramebufferRecord, current, nextId)
      && BoundFramebufferOk(readFramebufferRecord, current, nextId)
      && (renderbuffer == NullId || IsObjectId(renderbuffer))
    }

    constructor (s: CaptureState, fakeBackbuffer: GLuint)
      ensures Valid()
      ensures state == s && fakeBackbufferFBO == fakeBackbuffer
      ensures ids == map[] && current == map[] && live == map[] && dirty == {}
      ensures nextId == FIRST_OBJECT_ID
      ensures records == map[DEVICE_RECORD_ID := Record([], {}), CONTEXT_RECORD_ID := Record([], {})]
      ensures drawFramebufferRecord.None? && readFramebufferRecord.None? && renderbuffer == NullId
      ensures textures == map[]
    {
      state := s;
      ids, current, live := map[], map[], map[];
      records := map[DEVICE_RECORD_ID := Record([], {}), CONTEXT_RECORD_ID := Record([], {})];
      dirty := {};
      nextId := FIRST_OBJECT_ID;
      drawFramebufferRecord, readFramebufferRecord := None, None;
      renderbuffer := NullId;
      textures := map[];
      fakeBackbufferFBO := fakeBackbuffer;
    }

    // ----- Resource manager lookups -----

    /** GetID: the id of a handle, the empty id when it is not registered. */
    function IdOf(res: GLResource): ResourceId
      reads this
    {
      if res in ids then ids[res] else NullId
    }

    /** How every Serialise_* writes a framebuffer name: 0 as the empty id. */
    function FramebufferId(name: GLuint): (id: ResourceId)
      reads this
      ensures name == 0 || Res(Framebuffer, name) !in ids ==> id == NullId
      ensures Valid() && name != 0 && Res(Framebuffer, name) in ids ==>
                IsObjectId(id) && id in current && current[id] == Res(Framebuffer, name)
    {
      if name == 0 then NullId else IdOf(Res(Framebuffer, name))
    }

    /** GetResourceRecord on a handle; None stands for a null record. */
    function RecordOf(res: GLResource): (r: Option<ResourceId>)
      reads this
      ensures r.Some? <==> res in ids && ids[res] in records
      ensures Valid() && r.Some? ==>
                && IsObjectId(r.value) && r.value in current && current[r.value] == res
                && |records[r.value].chunks| > 0
    {
      if res in ids && ids[res] in records then Some(ids[res]) else None
    }

    /** HasResourceRecord and then GetResourceRecord on an attached object,
        skipped for name 0. */
    function ChildRecord(res: GLResource): Option<ResourceId>
      reads this
      requires res.Res?
    {
      if res.name != 0 then RecordOf(res) else None
    }

    /** GetCurrentResource(id).name, 0 for an id with no current resource. */
    function NameOf(id: ResourceId): GLuint
      reads this
    {
      if id in current && current[id].Res? then current[id].name else 0
    }

    /** GetLiveID: the live id of the resource a captured id stands for; the
        empty id for an id with no registered live resource (the empty id
        itself among them). */
    function LiveIdOf(id: ResourceId): (lid: ResourceId)
      reads this
      ensures id !in live || live[id] !in ids ==> lid == NullId
      ensures Valid() && id in live && live[id] in ids ==>
                IsObjectId(lid) && lid in current && current[lid] == live[id]
    {
      if id in live && live[id] in ids then ids[live[id]] else NullId
    }

    /** The framebuffer glBindFramebuffer binds: 0 is replaced by the fake
        backbuffer below the writing states. */
    function EffectiveFramebuffer(framebuffer: GLuint): (fb: GLuint)
      reads this
      ensures state.IsWriting() || framebuffer != 0 ==> fb == framebuffer
      ensures !state.IsWriting() && framebuffer == 0 ==> fb == fakeBackbufferFBO
    {
      if framebuffer == 0 && !state.IsWriting() then fakeBackbufferFBO else framebuffer
    }

    /** The framebuffer a replayed bind or read-buffer call binds: the fake
        backbuffer for the empty id, the live framebuffer otherwise. */
    function ReplayFramebufferName(id: ResourceId): (name: GLuint)
      reads this
      requires id != NullId ==> id in live && live[id].Res?
      ensures id == NullId ==> name == fakeBackbufferFBO
      ensures id != NullId ==> name == live[id].name
    {
      if id == NullId then fakeBackbufferFBO else live[id].name
    }

    /** The id a chunk writes for the framebuffer behind a binding, the
        GetID of its current resource's name: the binding's own id while the
        framebuffer exists, the empty id once it was deleted. */
    lemma BoundFramebufferIsSerialised(b: Option<ResourceId>)
      requires Valid() && BoundFramebufferOk(b, current, nextId)
      ensures b.Some? && b.value in current ==> FramebufferId(NameOf(b.value)) == b.value
      ensures b.Some? && b.value !in current ==> FramebufferId(NameOf(b.value)) == NullId
    {
      if b.Some? && b.value in current {
        var res := current[b.value];
        assert res in ids && ids[res] == b.value;
        assert res == Res(Framebuffer, res.name) && res.name != 0;
      }
    }

    /** A framebuffer chunk written through the bound draw or read
        framebuffer's record names that framebuffer (a record is only kept
        while its framebuffer is registered); written through the device
        record, it names framebuffer 0, the empty id. */
    lemma SerialisedFramebufferIsRecord()
      requires Valid()
      ensures var d := drawFramebufferRecord;
              d.Some? && d.value in records ==> d.value in current && FramebufferId(NameOf(d.value)) == d.value
      ensures var r := readFramebufferRecord;
              r.Some? && r.value in records ==> r.value in current && FramebufferId(NameOf(r.value)) == r.value
      ensures FramebufferId(NameOf(DEVICE_RECORD_ID)) == NullId
      ensures IdOf(Res(Framebuffer, 0)) == NullId
    {
      BoundFramebufferIsSerialised(drawFramebufferRecord);
      BoundFramebufferIsSerialised(readFramebufferRecord);
    }

    /** A bind of framebuffer 0 captured in a frame replays as a bind of the
        fake backbuffer. */
    lemma BindZeroReplaysFakeBackbuffer(target: GLenum)
      ensures Decode(Encode(BindFramebufferP(target, FramebufferId(0))))
              == Some(BindFramebufferP(target, NullId))
      ensures ReplayFramebufferName(FramebufferId(0)) == fakeBackbufferFBO
    {
      RoundTrip(BindFramebufferP(target, NullId));
    }

    /** Every object record meets what RepeatedReadBuffer needs: any run of
        glReadBuffer calls on a bound read framebuffer in the idle-writing
        state leaves its record as it was before the run, minus its trailing
        READ_BUFFER, plus the last call's chunk. */
    lemma ReadBufferRunOnRecord(i: ResourceId, cs: seq<Chunk>)
      requires Valid() && i in records && IsObjectId(i)
      requires |cs| > 0 && forall k :: 0 <= k < |cs| ==> cs[k].op.ReadBuffer?
      ensures ReadBufferRun(records[i].chunks, cs)
              == DropTrailingReadBuffer(records[i].chunks) + [cs[|cs| - 1]]
      ensures Trailing(ReadBufferRun(records[i].chunks, cs), Opcode.ReadBuffer) == 1
    {
      NoStackedReadBufferIsTrailing(records[i].chunks);
      RepeatedReadBuffer(records[i].chunks, cs);
    }

    // ----- Resource manager updates -----

    /** RegisterResource: mint a fresh id for a new handle. */
    method RegisterResource(res: GLResource) returns (id: ResourceId)
      requires Valid()
      requires res.Res? && res.name != 0 && res !in ids
      modifies this`ids, this`current, this`nextId
      ensures Valid()
      ensures id == Rid(old(nextId)) && nextId == old(nextId) + 1
      ensures ids == old(ids)[res := id] && current == old(current)[id := res]
    {
      id := Rid(nextId);
      RegisterKeepsRegistry(ids, current, nextId, res);
      RegisterKeepsBinding(drawFramebufferRecord, current, nextId, res);
      RegisterKeepsBinding(readFramebufferRecord, current, nextId, res);
      assert RecordsOk(records, nextId + 1);
      ids := ids[res := id];
      current := current[id := res];
      nextId := nextId + 1;
    }

    // ----- Capture-side entry points -----

    /** One iteration of glGen*: register the handle, then either give it a
        record holding its GEN chunk (writing) or make it the live resource
        of its id (not writing). */
    method GenObject(res: GLResource) returns (id: ResourceId)
      requires Valid()
      requires res.Res? && res.kind != Texture && res.name != 0 && res !in ids
      modifies this`ids, this`current, this`live, this`records, this`nextId
      ensures Valid()
      ensures id == Rid(old(nextId)) && nextId == old(nextId) + 1
      ensures ids == old(ids)[res := id] && current == old(current)[id := res]
      ensures state.IsWriting() ==> records == old(records)[id := NewRecord(GenChunk(res.kind, id))] && live == old(live)
      ensures !state.IsWriting() ==> records == old(records) && live == old(live)[id := res]
    {
      ghost var before := records;
      id := RegisterResource(res);
      if state.IsWriting() {
        records := records[id := NewRecord(GenChunk(res.kind, id))];
        NewRecordKeepsRecords(before, id, GenChunk(res.kind, id), nextId);
      } else {
        live := live[id := res];
      }
    }

    /** The state the first i iterations of a glGen* loop leave, from the
        maps it started with: i fresh ids minted, the first i names
        registered, and their GEN records (writing) or live mappings (not
        writing) added. */
    ghost predicate GenDone(ids0: map<GLResource, ResourceId>, current0: map<ResourceId, GLResource>,
                            records0: map<ResourceId, Record>, live0: map<ResourceId, GLResource>,
                            kind: ObjectKind, names: seq<GLuint>, start: nat, i: nat)
      reads this
      requires i <= |names|
    {
      && nextId == start + i
      && ids == GenIds(ids0, kind, names, start, i)
      && current == Minted(current0, kind, names, start, i)
      && (state.IsWriting() ==> records == GenRecords(records0, kind, start, i) && live == live0)
      && (!state.IsWriting() ==> records == records0 && live == Minted(live0, kind, names, start, i))
    }

    /** Iteration i of the glGen* loop: GenObject on the i-th name takes
        the state from GenDone at i to GenDone at i + 1. */
    method GenStep(kind: ObjectKind, names: seq<GLuint>, i: nat, start: nat,
                   ghost ids0: map<GLResource, ResourceId>, ghost current0: map<ResourceId, GLResource>,
                   ghost records0: map<ResourceId, Record>, ghost live0: map<ResourceId, GLResource>)
      requires Valid() && kind != Texture && i < |names|
      requires NewNames(ids0, kind, names, |names|)
      requires GenDone(ids0, current0, records0, live0, kind, names, start, i)
      modifies this`ids, this`current, this`live, this`records, this`nextId
      ensures Valid()
      ensures GenDone(ids0, current0, records0, live0, kind, names, start, i + 1)
    {
      GenStepFresh(ids0, kind, names, start, i);
      var id := GenObject(Res(kind, names[i]));
      assert id == MintedId(start, i);
    }

    /** glGenFramebuffers / glGenRenderbuffers: every handle the driver
        returns gets a fresh id; while writing, each gets a new record holding
        exactly its GEN chunk, otherwise the handle becomes the id's live
        resource and no record is made. */
    method GenObjects(kind: ObjectKind, names: seq<GLuint>)
      requires Valid()
      requires kind != Texture
      requires NewNames(ids, kind, names, |names|)
      modifies this`ids, this`current, this`live, this`records, this`nextId
      ensures Valid()
      ensures nextId == old(nextId) + |names|
      ensures ids == GenIds(old(ids), kind, names, old(nextId), |names|)
      ensures current == Minted(old(current), kind, names, old(nextId), |names|)
      ensures state.IsWriting() ==>
                records == GenRecords(old(records), kind, old(nextId), |names|) && live == old(live)
      ensures !state.IsWriting() ==>
                records == old(records) && live == Minted(old(live), kind, names, old(nextId), |names|)
    {
      var start := nextId;
      ghost var ids0, current0, records0, live0 := ids, current, records, live;
      var i := 0;
      while i < |names|
        invariant 0 <= i <= |names|
        invariant Valid()
        invariant GenDone(ids0, current0, records0, live0, kind, names, start, i)
      {
        GenStep(kind, names, i, start, ids0, current0, records0, live0);
        i := i + 1;
      }
    }

    /** glDeleteFramebuffers / glDeleteRenderbuffers: a handle without a
        current resource is skipped; for the others the record, if any, is
        deleted and the handle is unregistered. No other handle's
        registration changes. */
    method DeleteObjects(kind: ObjectKind, names: seq<GLuint>)
      requires Valid()
      requires kind != Texture
      modifies this`ids, this`current, this`records
      ensures Valid()
      ensures ids == old(ids) - Handles(kind, names)
      ensures current == old(current) - Retired(old(ids), Handles(kind, names))
      ensures records == old(records) - Retired(old(ids), Handles(kind, names))
    {
      var i := 0;
      while i < |names|
        invariant 0 <= i <= |names|
        invariant Valid()
        invariant ids == old(ids) - Handles(kind, names[..i])
        invariant current == old(current) - Retired(old(ids), Handles(kind, names[..i]))
        invariant records == old(records) - Retired(old(ids), Handles(kind, names[..i]))
      {
        var res := Res(kind, names[i]);
        assert names[..i + 1] == names[..i] + [names[i]];
        assert Handles(kind, names[..i + 1]) == Handles(kind, names[..i]) + {res};
        RetireStep(old(ids), Handles(kind, names[..i]), res, old(current));
        RetireStep(old(ids), Handles(kind, names[..i]), res, old(records));
        DeleteObject(res);
        i := i + 1;
      }
      assert names[..|names|] == names;
    }

    /** One iteration of glDelete*: a handle with a current resource loses
        its record, if it has one, and its registration. */
    method DeleteObject(res: GLResource)
      requires Valid()
      modifies this`ids, this`current, this`records
      ensures Valid()
      ensures ids == old(ids) - {res}
      ensures current == old(current) - Retired(old(ids), {res})
      ensures records == old(records) - Retired(old(ids), {res})
    {
      if res in ids {
        var id := ids[res];
        assert Retired(ids, {res}) == {id};
        UnregisterKeepsRegistry(ids, current, nextId, res);
        if id in records {
          records := records - {id};
        }
        ids := ids - {res};
        current := current - {id};
      } else {
        assert Retired(ids, {res}) == {};
      }
    }

    /** glNamedFramebufferTexture*EXT (the plain, 1D, 2D, 3D and layered
        forms, told apart by shape). */
    method NamedFramebufferTexture(framebuffer: GLuint, attachment: GLenum, texture: GLuint,
                                   shape: TexAttachShape, level: int)
      requires Valid()
      requires state == WritingIdle ==> RecordOf(Res(Framebuffer, framebuffer)).Some?
      modifies this`records, this`dirty
      ensures Valid()
      ensures (records, dirty)
              == AttachEffect(state, old(records), old(dirty), old(RecordOf(Res(Framebuffer, framebuffer))),
                              Encode(TextureAttachP(attachment, IdOf(Res(Texture, texture)), shape, level,
                                                    FramebufferId(framebuffer))),
                              old(ChildRecord(Res(Texture, texture))), true)
    {
      if state.IsWriting() {
        var record := RecordOf(Res(Framebuffer, framebuffer));
        var c := Encode(TextureAttachP(attachment, IdOf(Res(Texture, texture)), shape, level,
                                       FramebufferId(framebuffer)));
        RecordAttach(record, c, ChildRecord(Res(Texture, texture)), true);
      }
    }

    /** glFramebufferTexture* (the plain, 1D, 2D, 3D and layered forms):
        the framebuffer is the one bound to the target, or the device record
        when none is. */
    method FramebufferTexture(target: GLenum, attachment: GLenum, texture: GLuint,
                              shape: TexAttachShape, level: int)
      requires Valid()
      requires state.IsWriting() ==>
                 AttachRecordId(target, drawFramebufferRecord, readFramebufferRecord) in records
      modifies this`records, this`dirty
      ensures Valid()
      ensures var rid := AttachRecordId(target, drawFramebufferRecord, readFramebufferRecord);
              (records, dirty)
              == AttachEffect(state, old(records), old(dirty), Some(rid),
                              Encode(TextureAttachP(attachment, IdOf(Res(Texture, texture)), shape, level,
                                                    FramebufferId(NameOf(rid)))),
                              old(ChildRecord(Res(Texture, texture))), true)
    {
      if state.IsWriting() {
        var rid := AttachRecordId(target, drawFramebufferRecord, readFramebufferRecord);
        var c := Encode(TextureAttachP(attachment, IdOf(Res(Texture, texture)), shape, level,
                                       FramebufferId(NameOf(rid))));
        RecordAttach(Some(rid), c, ChildRecord(Res(Texture, texture)), true);
      }
    }

    /** glNamedFramebufferRenderbufferEXT: like a texture attach, but the
        framebuffer id is written first and the renderbuffer is not marked
        dirty. */
    method NamedFramebufferRenderbuffer(framebuffer: GLuint, attachment: GLenum,
                                        renderbufferTarget: GLenum, rb: GLuint)
      requires Valid()
      requires state == WritingIdle ==> RecordOf(Res(Framebuffer, framebuffer)).Some?
      modifies this`records, this`dirty
      ensures Valid()
      ensures (records, dirty)
              == AttachEffect(state, old(records), old(dirty), old(RecordOf(Res(Framebuffer, framebuffer))),
                              Encode(RenderbufferAttachP(FramebufferId(framebuffer), attachment,
                                                         renderbufferTarget, IdOf(Res(Renderbuffer, rb)))),
                              old(ChildRecord(Res(Renderbuffer, rb))), false)
    {
      if state.IsWriting() {
        var record := RecordOf(Res(Framebuffer, framebuffer));
        var c := Encode(RenderbufferAttachP(FramebufferId(framebuffer), attachment,
                                            renderbufferTarget, IdOf(Res(Renderbuffer, rb))));
        RecordAttach(record, c, ChildRecord(Res(Renderbuffer, rb)), false);
      }
    }

    /** glFramebufferRenderbuffer. */
    method FramebufferRenderbuffer(target: GLenum, attachment: GLenum,
                                   renderbufferTarget: GLenum, rb: GLuint)
      requires Valid()
      requires state.IsWriting() ==>
                 AttachRecordId(target, drawFramebufferRecord, readFramebufferRecord) in records
      modifies this`records, this`dirty
      ensures Valid()
      ensures var rid := AttachRecordId(target, drawFramebufferRecord, readFramebufferRecord);
              (records, dirty)
              == AttachEffect(state, old(records), old(dirty), Some(rid),
                              Encode(RenderbufferAttachP(FramebufferId(NameOf(rid)), attachment,
                                                         renderbufferTarget, IdOf(Res(Renderbuffer, rb)))),
                              old(ChildRecord(Res(Renderbuffer, rb))), false)
    {
      if state.IsWriting() {
        var rid := AttachRecordId(target, drawFramebufferRecord, readFramebufferRecord);
        var c := Encode(RenderbufferAttachP(FramebufferId(NameOf(rid)), attachment,
                                            renderbufferTarget, IdOf(Res(Renderbuffer, rb))));
        RecordAttach(Some(rid), c, ChildRecord(Res(Renderbuffer, rb)), false);
      }
    }

    /** The routing shared by the attach entry points, once in a writing
        state. */
    method RecordAttach(target: Option<ResourceId>, c: Chunk, child: Option<ResourceId>,
                        markChildDirty: bool)
      requires Valid() && state.IsWriting()
      requires state == WritingIdle ==> target.Some? && target.value in records
      requires IsTextureAttachOp(c.op) || c.op == FramebufferRendbuf
      modifies this`records, this`dirty
      ensures Valid()
      ensures (records, dirty)
              == AttachEffect(state, old(records), old(dirty), target, c, child, markChildDirty)
    {
      AttachRouting(state, records, dirty, target, c, child, markChildDirty);
      if state == WritingIdle {
        var rid := target.value;
        var r := records[rid];
        if child.Some? {
          r := r.AddParent(child.value);
          if markChildDirty {
            dirty := dirty + {child.value};
          }
        }
        AppendKeepsRecords(records, rid, r, c, nextId);
        records := records[rid := r.AddChunk(c)];
      } else {
        AppendKeepsRecords(records, CONTEXT_RECORD_ID, records[CONTEXT_RECORD_ID], c, nextId);
        records := Append(records, CONTEXT_RECORD_ID, c);
      }
    }

    /** glNamedFramebufferParameteriEXT: while writing, the chunk goes to
        the framebuffer's record, also while a frame is captured. */
    method NamedFramebufferParameteri(framebuffer: GLuint, pname: GLenum, param: int)
      requires Valid()
      requires state.IsWriting() ==> RecordOf(Res(Framebuffer, framebuffer)).Some?
      modifies this`records
      ensures Valid()
      ensures !state.IsWriting() ==> records == old(records)
      ensures state.IsWriting() ==>
                records == Append(old(records), ids[Res(Framebuffer, framebuffer)],
                                  Encode(FramebufferParamP(pname, param, FramebufferId(framebuffer))))
    {
      if state.IsWriting() {
        var rid := RecordOf(Res(Framebuffer, framebuffer)).value;
        var c := Encode(FramebufferParamP(pname, param, FramebufferId(framebuffer)));
        AppendKeepsRecords(records, rid, records[rid], c, nextId);
        records := Append(records, rid, c);
      }
    }

    /** glFramebufferParameteri: with no framebuffer bound to the target
        nothing is recorded (there is no device-record fallback). */
    method FramebufferParameteri(target: GLenum, pname: GLenum, param: int)
      requires Valid()
      requires state.IsWriting() && SelectedBinding(target, drawFramebufferRecord, readFramebufferRecord).Some?
               ==> SelectedBinding(target, drawFramebufferRecord, readFramebufferRecord).value in records
      modifies this`records
      ensures Valid()
      ensures var sel := SelectedBinding(target, drawFramebufferRecord, readFramebufferRecord);
              records == if state.IsWriting() && sel.Some?
                         then Append(old(records), sel.value,
                                     Encode(FramebufferParamP(pname, param, FramebufferId(NameOf(sel.value)))))
                         else old(records)
    {
      if state.IsWriting() {
        var sel := SelectedBinding(target, drawFramebufferRecord, readFramebufferRecord);
        if sel.None? {
          return;
        }
        var c := Encode(FramebufferParamP(pname, param, FramebufferId(NameOf(sel.value))));
        AppendKeepsRecords(records, sel.value, records[sel.value], c, nextId);
        records := Append(records, sel.value, c);
      }
    }

    /** Where glReadBuffer files its chunk c: while idle, the bound read
        framebuffer's record, replacing a trailing READ_BUFFER chunk (the
        device record when none is bound); while capturing a frame, the
        context record. */
    method FileReadBuffer(c: Chunk)
      requires Valid() && state.IsWriting() && c.op == Opcode.ReadBuffer
      requires state == WritingIdle && readFramebufferRecord.Some? ==> readFramebufferRecord.value in records
      modifies this`records
      ensures Valid()
      ensures records == ReadBufferEffect(state, old(records), readFramebufferRecord, c)
    {
      ReadBufferKeepsRecords(state, records, readFramebufferRecord, c, nextId);
      var rs := records;
      if state == WritingIdle {
        if readFramebufferRecord.Some? {
          var rid := readFramebufferRecord.value;
          var r := rs[rid];
          if r.chunks[|r.chunks| - 1].op.ReadBuffer? {
            r := r.PopChunk();
          }
          assert r.AddChunk(c) == records[rid].(chunks := CoalesceReadBuffer(records[rid].chunks, c));
          rs := rs[rid := r.AddChunk(c)];
        } else {
          rs := Append(rs, DEVICE_RECORD_ID, c);
        }
      } else {
        rs := Append(rs, CONTEXT_RECORD_ID, c);
      }
      assert rs == ReadBufferEffect(state, records, readFramebufferRecord, c);
      records := rs;
    }

    /** glReadBuffer. */
    method ReadBuffer(mode: GLenum)
      requires Valid()
      requires state == WritingIdle && readFramebufferRecord.Some? ==> readFramebufferRecord.value in records
      modifies this`records
      ensures Valid()
      ensures records
              == ReadBufferEffect(state, old(records), readFramebufferRecord,
                                  Encode(ReadBufferP(mode, if readFramebufferRecord.Some?
                                                           then readFramebufferRecord.value else NullId)))
    {
      if state.IsWriting() {
        FileReadBuffer(Encode(ReadBufferP(mode, if readFramebufferRecord.Some?
                                                then readFramebufferRecord.value else NullId)));
      }
    }

    /** glBindFramebuffer: a BIND_FRAMEBUFFER chunk is recorded only while a
        frame is captured; the target's binding (and only it) is updated. */
    method BindFramebuffer(target: GLenum, framebuffer: GLuint)
      requires Valid()
      modifies this`records, this`drawFramebufferRecord, this`readFramebufferRecord
      ensures Valid()
      ensures records == if state == WritingCapframe
                         then Append(old(records), CONTEXT_RECORD_ID,
                                     Encode(BindFramebufferP(target, FramebufferId(framebuffer))))
                         else old(records)
      ensures SelectsDraw(target) ==>
                && drawFramebufferRecord == old(RecordOf(Res(Framebuffer, EffectiveFramebuffer(framebuffer))))
                && readFramebufferRecord == old(readFramebufferRecord)
      ensures !SelectsDraw(target) ==>
                && readFramebufferRecord == old(RecordOf(Res(Framebuffer, EffectiveFramebuffer(framebuffer))))
                && drawFramebufferRecord == old(drawFramebufferRecord)
    {
      if state == WritingCapframe {
        var c := Encode(BindFramebufferP(target, FramebufferId(framebuffer)));
        AppendKeepsRecords(records, CONTEXT_RECORD_ID, records[CONTEXT_RECORD_ID], c, nextId);
        records := Append(records, CONTEXT_RECORD_ID, c);
      }
      var fb := framebuffer;
      if fb == 0 && !state.IsWriting() {
        fb := fakeBackbufferFBO;
      }
      if SelectsDraw(target) {
        drawFramebufferRecord := RecordOf(Res(Framebuffer, fb));
      } else {
        readFramebufferRecord := RecordOf(Res(Framebuffer, fb));
      }
    }

    /** glDrawBuffer: recorded only while a frame is captured. */
    method DrawBuffer(buf: GLenum)
      requires Valid()
      modifies this`records
      ensures Valid()
      ensures records == if state == WritingCapframe
                         then Append(old(records), CONTEXT_RECORD_ID, Encode(DrawBufferP(buf)))
                         else old(records)
    {
      if state == WritingCapframe {
        var c := Encode(DrawBufferP(buf));
        AppendKeepsRecords(records, CONTEXT_RECORD_ID, records[CONTEXT_RECORD_ID], c, nextId);
        records := Append(records, CONTEXT_RECORD_ID, c);
      }
    }

    /** glFramebufferDrawBuffersEXT: to the context record while a frame is
        captured, to the framebuffer's record when idle (framebuffer 0 is not
        recorded then). */
    method FramebufferDrawBuffers(framebuffer: GLuint, bufs: seq<GLenum>)
      requires Valid()
      requires state == WritingIdle && framebuffer != 0 ==> RecordOf(Res(Framebuffer, framebuffer)).Some?
      modifies this`records
      ensures Valid()
      ensures var c := Encode(DrawBuffersP(IdOf(Res(Framebuffer, framebuffer)), bufs));
              records == if state == WritingCapframe then Append(old(records), CONTEXT_RECORD_ID, c)
                         else if state == WritingIdle && framebuffer != 0
                         then Append(old(records), ids[Res(Framebuffer, framebuffer)], c)
                         else old(records)
    {
      var c := Encode(DrawBuffersP(IdOf(Res(Framebuffer, framebuffer)), bufs));
      if state == WritingCapframe {
        AppendKeepsRecords(records, CONTEXT_RECORD_ID, records[CONTEXT_RECORD_ID], c, nextId);
        records := Append(records, CONTEXT_RECORD_ID, c);
      } else if state == WritingIdle && framebuffer != 0 {
        var rid := RecordOf(Res(Framebuffer, framebuffer)).value;
        AppendKeepsRecords(records, rid, records[rid], c, nextId);
        records := Append(records, rid, c);
      }
    }

    /** glDrawBuffers: recorded only while a frame is captured, as a
        DRAW_BUFFERS chunk naming the bound draw framebuffer (framebuffer 0
        when none is bound). */
    method DrawBuffers(bufs: seq<GLenum>)
      requires Valid()
      modifies this`records
      ensures Valid()
      ensures var fb := if drawFramebufferRecord.Some? then NameOf(drawFramebufferRecord.value) else 0;
              records == if state == WritingCapframe
                         then Append(old(records), CONTEXT_RECORD_ID,
                                     Encode(DrawBuffersP(IdOf(Res(Framebuffer, fb)), bufs)))
                         else old(records)
    {
      if state == WritingCapframe {
        var fb := if drawFramebufferRecord.Some? then NameOf(drawFramebufferRecord.value) else 0;
        var c := Encode(DrawBuffersP(IdOf(Res(Framebuffer, fb)), bufs));
        AppendKeepsRecords(records, CONTEXT_RECORD_ID, records[CONTEXT_RECORD_ID], c, nextId);
        records := Append(records, CONTEXT_RECORD_ID, c);
      }
    }

    /** glInvalidateFramebuffer and glInvalidateSubFramebuffer (whose extra
        rectangle only reaches the driver): in the idle-writing state the
        parents of the target's framebuffer record are marked dirty; no
        chunk is written. */
    method InvalidateFramebuffer(target: GLenum)
      requires Valid()
      requires state == WritingIdle && SelectedBinding(target, drawFramebufferRecord, readFramebufferRecord).Some?
               ==> SelectedBinding(target, drawFramebufferRecord, readFramebufferRecord).value in records
      modifies this`dirty
      ensures Valid()
      ensures var sel := SelectedBinding(target, drawFramebufferRecord, readFramebufferRecord);
              dirty == if state == WritingIdle && sel.Some?
                       then old(dirty) + records[sel.value].parents
                       else old(dirty)
    {
      if state == WritingIdle {
        var sel := SelectedBinding(target, drawFramebufferRecord, readFramebufferRecord);
        if sel.Some? {
          dirty := dirty + records[sel.value].parents;
        }
      }
    }

    /** glBlitFramebuffer: only a frame capture records it, in the context
        record. */
    method BlitFramebuffer(srcX0: int, srcY0: int, srcX1: int, srcY1: int,
                           dstX0: int, dstY0: int, dstX1: int, dstY1: int,
                           mask: nat, filter: GLenum)
      requires Valid()
      modifies this`records
      ensures Valid()
      ensures records == if state == WritingCapframe
                         then Append(old(records), CONTEXT_RECORD_ID,
                                     Encode(BlitFramebufferP(srcX0, srcY0, srcX1, srcY1,
                                                             dstX0, dstY0, dstX1, dstY1, mask, filter)))
                         else old(records)
    {
      if state == WritingCapframe {
        records := Append(records, CONTEXT_RECORD_ID,
                          Encode(BlitFramebufferP(srcX0, srcY0, srcX1, srcY1,
                                                  dstX0, dstY0, dstX1, dstY1, mask, filter)));
      }
    }

    /** glBindRenderbuffer: only remembers the current renderbuffer's id. */
    method BindRenderbuffer(target: GLenum, rb: GLuint)
      requires Valid()
      modifies this`renderbuffer
      ensures Valid()
      ensures renderbuffer == IdOf(Res(Renderbuffer, rb))
    {
      renderbuffer := IdOf(Res(Renderbuffer, rb));
    }

    /** glRenderbufferStorage (samples = None) and
        glRenderbufferStorageMultisample (samples = Some(n)). While writing,
        exactly one storage chunk is appended to the current renderbuffer's
        record; in every state its m_Textures entry takes the new shape. */
    method RenderbufferStorage(samples: Option<int>, format: GLenum, width: int, height: int)
      requires Valid()
      requires state.IsWriting() ==> renderbuffer in records
      modifies this`records, this`textures
      ensures Valid()
      ensures var c := if samples.None?
                       then Encode(RenderbufferStorageP(renderbuffer, format, U32(width), U32(height)))
                       else Encode(RenderbufferStorageMSP(format, U32(samples.value), U32(width), U32(height),
                                                          renderbuffer));
              records == if state.IsWriting() then Append(old(records), renderbuffer, c) else old(records)
      ensures textures == old(textures)[renderbuffer :=
                CaptureStorage(Entry(old(textures), renderbuffer), width, height,
                               if samples.None? then 1 else samples.value, format)]
    {
      if state.IsWriting() {
        var c := if samples.None?
                 then Encode(RenderbufferStorageP(renderbuffer, format, U32(width), U32(height)))
                 else Encode(RenderbufferStorageMSP(format, U32(samples.value), U32(width), U32(height),
                                                    renderbuffer));
        AppendKeepsRecords(records, renderbuffer, records[renderbuffer], c, nextId);
        records := Append(records, renderbuffer, c);
      }
      var rb := renderbuffer;
      textures := textures[rb := CaptureStorage(Entry(textures, rb), width, height,
                                                if samples.None? then 1 else samples.value, format)];
    }

    // ----- Reading side of the Serialise_* functions -----

    /** Serialise_glGenFramebuffers / Serialise_glGenRenderbuffers while
        reading: the driver's new object gets a fresh live id and stands for
        the captured id; a renderbuffer also gets its m_Textures entry. */
    method ReplayGen(kind: ObjectKind, id: ResourceId, driverName: GLuint)
      requires Valid()
      requires kind != Texture
      requires state == Reading ==> driverName != 0 && Res(kind, driverName) !in ids
      modifies this`ids, this`current, this`nextId, this`live, this`textures
      ensures Valid()
      ensures state != Reading ==>
                ids == old(ids) && current == old(current) && nextId == old(nextId)
                && live == old(live) && textures == old(textures)
      ensures state == Reading ==>
                var lid := Rid(old(nextId));
                && nextId == old(nextId) + 1
                && ids == old(ids)[Res(kind, driverName) := lid]
                && current == old(current)[lid := Res(kind, driverName)]
                && live == old(live)[id := Res(kind, driverName)]
                && LiveIdOf(id) == lid
                && textures == if kind == Renderbuffer
                               then old(textures)[lid := Entry(old(textures), lid).(
                                      resource := Res(kind, driverName), curType := GL_RENDERBUFFER)]
                               else old(textures)
    {
      if state == Reading {
        var res := Res(kind, driverName);
        var lid := RegisterResource(res);
        live := live[id := res];
        if kind == Renderbuffer {
          textures := textures[lid := Entry(textures, lid).(resource := res, curType := GL_RENDERBUFFER)];
        }
      }
    }

    /** Serialise_glNamedFramebufferTexture*EXT and
        Serialise_glNamedFramebufferRenderbufferEXT while reading: the
        attached object is flagged as a render target. */
    method ReplayAttach(p: Payload)
      requires Valid()
      requires p.TextureAttachP? || p.RenderbufferAttachP?
      modifies this`textures
      ensures Valid()
      ensures state != Reading ==> textures == old(textures)
      ensures state == Reading ==>
                var lid := LiveIdOf(if p.TextureAttachP? then p.texture else p.renderbuffer);
                textures == old(textures)[lid := Entry(old(textures), lid).(
                              creationFlags := Entry(old(textures), lid).creationFlags + {CreateRTV})]
    {
      if state == Reading {
        var lid := LiveIdOf(if p.TextureAttachP? then p.texture else p.renderbuffer);
        var t := Entry(textures, lid);
        textures := textures[lid := t.(creationFlags := t.creationFlags + {CreateRTV})];
      }
    }

    /** Serialise_glRenderbufferStorage(Multisample) while reading: the live
        renderbuffer's m_Textures entry takes the stored shape, and the
        attachment for the read-back framebuffers is chosen from the base
        format of the storage format. */
    method ReplayRenderbufferStorage(p: Payload, baseFormat: GLenum) returns (attach: Option<GLenum>)
      requires Valid()
      requires p.RenderbufferStorageP? || p.RenderbufferStorageMSP?
      modifies this`textures
      ensures Valid()
      ensures state != Reading ==> textures == old(textures) && attach.None?
      ensures state == Reading ==>
                var lid := LiveIdOf(p.renderbuffer);
                && textures == old(textures)[lid := ReplayStorage(Entry(old(textures), lid), p)]
                && attach == Some(AttachmentForBaseFormat(baseFormat))
    {
      attach := None;
      if state == Reading {
        var lid := LiveIdOf(p.renderbuffer);
        textures := textures[lid := ReplayStorage(Entry(textures, lid), p)];
        attach := Some(AttachmentForBaseFormat(baseFormat));
      }
    }

    /** Serialise_glFramebufferDrawBuffersEXT below the writing states: the
        deserialised draw-buffer array is rewritten in place. */
    method ReplayFramebufferDrawBuffers(buffers: array<GLenum>)
      requires Valid()
      modifies buffers
      ensures Valid()
      ensures buffers[..] == if state.IsWriting() then old(buffers[..])
                             else RemapDrawBuffers(old(buffers[..]))
    {
      if !state.IsWriting() {
        var i := 0;
        while i < buffers.Length
          invariant 0 <= i <= buffers.Length
          invariant forall k | 0 <= k < i :: buffers[k] == RemapDrawBuffer(old(buffers[k]))
          invariant forall k | i <= k < buffers.Length :: buffers[k] == old(buffers[k])
        {
          if IsDefaultColourBuffer(buffers[i]) {
            buffers[i] := GL_COLOR_ATTACHMENT0;
          }
          i := i + 1;
        }
      }
    }
  }
}
