/**
 * Resource records and the texture side table.
 *
 * A record is the ordered chunk list that rebuilds one resource plus the ids
 * of the records it depends on. The record operations used by the framebuffer
 * entry points (AddChunk, PopChunk, AddParent) are given by their direct effect
 * only. glReadBuffer's replacement of a trailing READ_BUFFER chunk is the one
 * place where a record's list shrinks; its properties are proved here.
 */
module Records {
  import opened GLTypes
  import opened Chunks

  datatype Record = Record(chunks: seq<Chunk>, parents: set<ResourceId>)
  {
    /** ResourceRecord::AddChunk: append, taking ownership. */
    function AddChunk(c: Chunk): Record {
      this.(chunks := chunks + [c])
    }

    /** ResourceRecord::PopChunk: drop the last chunk. */
    function PopChunk(): Record
      requires |chunks| > 0
    {
      this.(chunks := chunks[..|chunks| - 1])
    }

    /** ResourceRecord::AddParent: add a dependency edge. */
    function AddParent(p: ResourceId): Record {
      this.(parents := parents + {p})
    }
  }

  /** The record AddResourceRecord creates, after the creating chunk is added. */
  function NewRecord(c: Chunk): Record {
    Record([c], {})
  }

  /** The chunk list glReadBuffer leaves in a bound read framebuffer's record
      in the idle-writing state: a trailing READ_BUFFER chunk is dropped, then
      the new chunk is appended. The record is never grown by more than one
      chunk, every chunk but the last is kept, and the new chunk is last. */
  function CoalesceReadBuffer(chunks: seq<Chunk>, c: Chunk): (r: seq<Chunk>)
    requires |chunks| > 0
    ensures |chunks| <= |r| <= |chunks| + 1
    ensures r[|r| - 1] == c
    ensures r[..|chunks| - 1] == chunks[..|chunks| - 1]
    ensures |r| == |chunks| <==> chunks[|chunks| - 1].op == ReadBuffer
    ensures chunks[|chunks| - 1].op != ReadBuffer ==> r == chunks + [c]
  {
    var last := |chunks| - 1;
    if chunks[last].op == ReadBuffer then chunks[..last] + [c] else chunks + [c]
  }

  /** The number of consecutive chunks of type op at the end of a list. */
  function Trailing(chunks: seq<Chunk>, op: Opcode): (k: nat)
    ensures k <= |chunks|
    ensures forall i :: |chunks| - k <= i < |chunks| ==> chunks[i].op == op
    ensures k < |chunks| ==> chunks[|chunks| - 1 - k].op != op
  {
    if chunks == [] || chunks[|chunks| - 1].op != op then 0
    else 1 + Trailing(chunks[..|chunks| - 1], op)
  }

  /** The list does not end in two READ_BUFFER chunks in a row. */
  predicate NoStackedReadBuffer(chunks: seq<Chunk>) {
    |chunks| < 2 || chunks[|chunks| - 1].op != ReadBuffer || chunks[|chunks| - 2].op != ReadBuffer
  }

  /** Not ending in two READ_BUFFERs is ending in a run of at most one. */
  lemma NoStackedReadBufferIsTrailing(chunks: seq<Chunk>)
    ensures NoStackedReadBuffer(chunks) <==> Trailing(chunks, ReadBuffer) <= 1
  {
    if |chunks| > 0 && chunks[|chunks| - 1].op == ReadBuffer {
      var init := chunks[..|chunks| - 1];
      assert Trailing(chunks, ReadBuffer) == 1 + Trailing(init, ReadBuffer);
      if |init| > 0 {
        assert init[|init| - 1] == chunks[|chunks| - 2];
      }
    }
  }

  /** The list with its trailing READ_BUFFER chunk, if any, removed. */
  function DropTrailingReadBuffer(chunks: seq<Chunk>): seq<Chunk>
    requires |chunks| > 0
  {
    if chunks[|chunks| - 1].op == ReadBuffer then chunks[..|chunks| - 1] else chunks
  }

  /** One glReadBuffer in a record with at most one trailing READ_BUFFER
      leaves exactly one. */
  lemma {:induction false} CoalesceKeepsOneReadBuffer(chunks: seq<Chunk>, c: Chunk)
    requires |chunks| > 0 && c.op == ReadBuffer
    requires Trailing(chunks, ReadBuffer) <= 1
    ensures CoalesceReadBuffer(chunks, c) == DropTrailingReadBuffer(chunks) + [c]
    ensures Trailing(CoalesceReadBuffer(chunks, c), ReadBuffer) == 1
    ensures DropTrailingReadBuffer(CoalesceReadBuffer(chunks, c)) == DropTrailingReadBuffer(chunks)
  {
    var base := DropTrailingReadBuffer(chunks);
    var r := CoalesceReadBuffer(chunks, c);
    assert r[..|r| - 1] == base;
    assert base == [] || base[|base| - 1].op != ReadBuffer;
    assert Trailing(base, ReadBuffer) == 0;
  }

  /** The record after a sequence of glReadBuffer calls, one chunk each. */
  function ReadBufferRun(chunks: seq<Chunk>, cs: seq<Chunk>): (r: seq<Chunk>)
    requires |chunks| > 0
    ensures |r| > 0
    decreases |cs|
  {
    if cs == [] then chunks
    else ReadBufferRun(CoalesceReadBuffer(chunks, cs[0]), cs[1..])
  }

  /** Repeated glReadBuffer calls leave the record as it was before the first
      of them, plus exactly one trailing READ_BUFFER: the last call's. */
  lemma {:induction false} RepeatedReadBuffer(chunks: seq<Chunk>, cs: seq<Chunk>)
    requires |chunks| > 0 && |cs| > 0
    requires forall i :: 0 <= i < |cs| ==> cs[i].op == ReadBuffer
    requires Trailing(chunks, ReadBuffer) <= 1
    ensures ReadBufferRun(chunks, cs) == DropTrailingReadBuffer(chunks) + [cs[|cs| - 1]]
    ensures Trailing(ReadBufferRun(chunks, cs), ReadBuffer) == 1
    decreases |cs|
  {
    CoalesceKeepsOneReadBuffer(chunks, cs[0]);
    var next := CoalesceReadBuffer(chunks, cs[0]);
    if |cs| > 1 {
      RepeatedReadBuffer(next, cs[1..]);
    }
  }

  /** Flags of TextureData::creationFlags; only the render-target flag is set
      by the framebuffer entry points. */
  datatype CreationFlag = CreateRTV | OtherFlag(bit: nat)

  /** One entry of the m_Textures side table. */
  datatype TextureData = TextureData(
    resource: GLResource,
    width: int,
    height: int,
    depth: int,
    samples: int,
    dimension: int,
    curType: GLenum,
    internalFormat: GLenum,
    creationFlags: set<CreationFlag>)

  /** What m_Textures[id] default-constructs for an id it does not hold. */
  const EMPTY_TEXTURE := TextureData(NoResource, 0, 0, 0, 0, 0, 0, 0, {})

  /** m_Textures[id]: the entry, default-constructed when missing. */
  function Entry(textures: map<ResourceId, TextureData>, id: ResourceId): TextureData {
    if id in textures then textures[id] else EMPTY_TEXTURE
  }
}
