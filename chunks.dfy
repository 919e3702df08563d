/**
 * Chunks: an opcode plus the ordered list of fields one Serialise_* function
 * writes. Each serialised call is described by a Payload; Encode lays its
 * fields out in the order the source writes them, and Decode reads them back
 * in that same order, as the replay side does.
 */
module Chunks {
  import opened GLTypes

  /** Chunk types of the framebuffer entry points; Other stands for the chunk
      types written by the rest of the driver. */
  datatype Opcode =
    | GenFramebuffers
    | GenRenderbuffers
    | FramebufferTex
    | FramebufferTex1D
    | FramebufferTex2D
    | FramebufferTex3D
    | FramebufferTexLayer
    | FramebufferRendbuf
    | FramebufferParam
    | ReadBuffer
    | BindFramebuffer
    | DrawBuffer
    | DrawBuffers
    | BlitFramebuffer
    | RenderbufferStorage
    | RenderbufferStorageMS
    | Other(tag: nat)

  /** One serialised element: SERIALISE_ELEMENT of a GLenum, a ResourceId, an
      int32_t or a uint32_t, or SERIALISE_ELEMENT_ARR of GLenums. */
  datatype Field =
    | EnumField(e: GLenum)
    | IdField(id: ResourceId)
    | IntField(i: int)
    | UIntField(u: nat)
    | EnumArray(es: seq<GLenum>)

  datatype Chunk = Chunk(op: Opcode, fields: seq<Field>)

  /** What distinguishes the five texture-attach entry points: the texture
      target of the 1D/2D/3D forms, the z offset of the 3D form and the layer
      of the layered form. */
  datatype TexAttachShape =
    | Tex
    | Tex1D(texTarget: GLenum)
    | Tex2D(texTarget: GLenum)
    | Tex3D(texTarget: GLenum, zoffset: int)
    | TexLayer(layer: int)

  /** The values one Serialise_* call writes, resource handles already
      turned into ResourceIds. */
  datatype Payload =
    | GenFramebuffersP(id: ResourceId)
    | GenRenderbuffersP(id: ResourceId)
    | TextureAttachP(attachment: GLenum, texture: ResourceId, shape: TexAttachShape,
                     level: int, framebuffer: ResourceId)
    | RenderbufferAttachP(framebuffer: ResourceId, attachment: GLenum,
                          renderbufferTarget: GLenum, renderbuffer: ResourceId)
    | FramebufferParamP(pname: GLenum, param: int, framebuffer: ResourceId)
    | ReadBufferP(mode: GLenum, framebuffer: ResourceId)
    | BindFramebufferP(target: GLenum, framebuffer: ResourceId)
    | DrawBufferP(buffer: GLenum)
    | DrawBuffersP(framebuffer: ResourceId, buffers: seq<GLenum>)
    | BlitFramebufferP(srcX0: int, srcY0: int, srcX1: int, srcY1: int,
                       dstX0: int, dstY0: int, dstX1: int, dstY1: int,
                       mask: nat, filter: GLenum)
    | RenderbufferStorageP(renderbuffer: ResourceId, format: GLenum, width: nat, height: nat)
    | RenderbufferStorageMSP(format: GLenum, samples: nat, width: nat, height: nat,
                             renderbuffer: ResourceId)

  function ShapeOpcode(shape: TexAttachShape): Opcode {
    match shape
    case Tex => FramebufferTex
    case Tex1D(_) => FramebufferTex1D
    case Tex2D(_) => FramebufferTex2D
    case Tex3D(_, _) => FramebufferTex3D
    case TexLayer(_) => FramebufferTexLayer
  }

  /** The chunk type SCOPED_SERIALISE_CONTEXT opens for a payload. */
  function OpcodeOf(p: Payload): Opcode {
    match p
    case GenFramebuffersP(_) => GenFramebuffers
    case GenRenderbuffersP(_) => GenRenderbuffers
    case TextureAttachP(_, _, shape, _, _) => ShapeOpcode(shape)
    case RenderbufferAttachP(_, _, _, _) => FramebufferRendbuf
    case FramebufferParamP(_, _, _) => FramebufferParam
    case ReadBufferP(_, _) => ReadBuffer
    case BindFramebufferP(_, _) => BindFramebuffer
    case DrawBufferP(_) => DrawBuffer
    case DrawBuffersP(_, _) => DrawBuffers
    case BlitFramebufferP(_, _, _, _, _, _, _, _, _, _) => BlitFramebuffer
    case RenderbufferStorageP(_, _, _, _) => RenderbufferStorage
    case RenderbufferStorageMSP(_, _, _, _, _) => RenderbufferStorageMS
  }

  /** How many elements each chunk type's Serialise_* function writes. */
  function FieldCount(op: Opcode): nat {
    match op
    case GenFramebuffers => 1
    case GenRenderbuffers => 1
    case FramebufferTex => 4
    case FramebufferTex1D => 5
    case FramebufferTex2D => 5
    case FramebufferTex3D => 6
    case FramebufferTexLayer => 5
    case FramebufferRendbuf => 4
    case FramebufferParam => 3
    case ReadBuffer => 2
    case BindFramebuffer => 2
    case DrawBuffer => 1
    case DrawBuffers => 3
    case BlitFramebuffer => 10
    case RenderbufferStorage => 4
    case RenderbufferStorageMS => 5
    case Other(_) => 0
  }

  /** The positions at which each chunk type carries a ResourceId: the
      fields the replay side turns back into live objects. */
  function IdPositions(op: Opcode): set<nat> {
    match op
    case GenFramebuffers => {0}
    case GenRenderbuffers => {0}
    case FramebufferTex => {1, 3}
    case FramebufferTex1D => {1, 4}
    case FramebufferTex2D => {1, 4}
    case FramebufferTex3D => {1, 5}
    case FramebufferTexLayer => {1, 4}
    case FramebufferRendbuf => {0, 3}
    case FramebufferParam => {2}
    case ReadBuffer => {1}
    case BindFramebuffer => {1}
    case DrawBuffer => {}
    case DrawBuffers => {0}
    case BlitFramebuffer => {}
    case RenderbufferStorage => {0}
    case RenderbufferStorageMS => {4}
    case Other(_) => {}
  }

  /** The fields between the texture id and the framebuffer id of a texture
      attach: texture target, level, then z offset or layer. */
  function ShapeFields(shape: TexAttachShape, level: int): seq<Field> {
    match shape
    case Tex => [IntField(level)]
    case Tex1D(t) => [EnumField(t), IntField(level)]
    case Tex2D(t) => [EnumField(t), IntField(level)]
    case Tex3D(t, z) => [EnumField(t), IntField(level), IntField(z)]
    case TexLayer(l) => [IntField(level), IntField(l)]
  }

  /** The ordered field list of each Serialise_* function. */
  function Fields(p: Payload): seq<Field> {
    match p
    case GenFramebuffersP(id) => [IdField(id)]
    case GenRenderbuffersP(id) => [IdField(id)]
    case TextureAttachP(a, tex, shape, level, fb) =>
      [EnumField(a), IdField(tex)] + ShapeFields(shape, level) + [IdField(fb)]
    case RenderbufferAttachP(fb, a, rt, rb) =>
      [IdField(fb), EnumField(a), EnumField(rt), IdField(rb)]
    case FramebufferParamP(pname, param, fb) =>
      [EnumField(pname), IntField(param), IdField(fb)]
    case ReadBufferP(mode, fb) => [EnumField(mode), IdField(fb)]
    case BindFramebufferP(target, fb) => [EnumField(target), IdField(fb)]
    case DrawBufferP(b) => [EnumField(b)]
    case DrawBuffersP(fb, bufs) => [IdField(fb), UIntField(|bufs|), EnumArray(bufs)]
    case BlitFramebufferP(sx0, sy0, sx1, sy1, dx0, dy0, dx1, dy1, mask, filter) =>
      [IntField(sx0), IntField(sy0), IntField(sx1), IntField(sy1),
       IntField(dx0), IntField(dy0), IntField(dx1), IntField(dy1),
       UIntField(mask), EnumField(filter)]
    case RenderbufferStorageP(rb, fmt, w, h) =>
      [IdField(rb), EnumField(fmt), UIntField(w), UIntField(h)]
    case RenderbufferStorageMSP(fmt, s, w, h, rb) =>
      [EnumField(fmt), UIntField(s), UIntField(w), UIntField(h), IdField(rb)]
  }

  /** Every Serialise_* writes as many fields as its chunk type has, with
      ResourceIds exactly at that type's id positions; the shape-dependent
      middle of a texture attach holds no id. */
  lemma FieldLayout(p: Payload)
    ensures |Fields(p)| == FieldCount(OpcodeOf(p))
    ensures forall i | 0 <= i < |Fields(p)| :: Fields(p)[i].IdField? <==> i in IdPositions(OpcodeOf(p))
    ensures p.TextureAttachP? ==>
              && |ShapeFields(p.shape, p.level)| + 3 == FieldCount(OpcodeOf(p))
              && forall i | 0 <= i < |ShapeFields(p.shape, p.level)| :: !ShapeFields(p.shape, p.level)[i].IdField?
  {
  }

  function Encode(p: Payload): (c: Chunk)
    ensures c.op == OpcodeOf(p)
    ensures !c.op.Other?
  {
    Chunk(OpcodeOf(p), Fields(p))
  }

  /** The texture attach chunks carry the framebuffer id as their LAST field,
      the renderbuffer attach chunk as its FIRST; the framebuffer is never in
      the same place in the two families. */
  lemma AttachFieldOrder(a: GLenum, tex: ResourceId, shape: TexAttachShape, level: int,
                         fb: ResourceId, rt: GLenum, rb: ResourceId)
    ensures var t := Fields(TextureAttachP(a, tex, shape, level, fb));
            |t| >= 4 && t[|t| - 1] == IdField(fb) && t[0] == EnumField(a) && t[1] == IdField(tex)
    ensures var r := Fields(RenderbufferAttachP(fb, a, rt, rb));
            |r| == 4 && r[0] == IdField(fb) && r[1] == EnumField(a) && r[3] == IdField(rb)
  {
  }

  // ---------------------------------------------------------------------
  // Reading side: the fields are read back in the order they were written.

  function DecodeShape(op: Opcode, mid: seq<Field>): (r: Option<(TexAttachShape, int)>)
    ensures r.Some? ==> ShapeOpcode(r.value.0) == op && ShapeFields(r.value.0, r.value.1) == mid
  {
    match op
    case FramebufferTex =>
      if |mid| == 1 && mid[0].IntField? then Some((Tex, mid[0].i)) else None
    case FramebufferTex1D =>
      if |mid| == 2 && mid[0].EnumField? && mid[1].IntField?
      then Some((Tex1D(mid[0].e), mid[1].i)) else None
    case FramebufferTex2D =>
      if |mid| == 2 && mid[0].EnumField? && mid[1].IntField?
      then Some((Tex2D(mid[0].e), mid[1].i)) else None
    case FramebufferTex3D =>
      if |mid| == 3 && mid[0].EnumField? && mid[1].IntField? && mid[2].IntField?
      then Some((Tex3D(mid[0].e, mid[2].i), mid[1].i)) else None
    case FramebufferTexLayer =>
      if |mid| == 2 && mid[0].IntField? && mid[1].IntField?
      then Some((TexLayer(mid[1].i), mid[0].i)) else None
    case _ => None
  }

  predicate IsTextureAttachOp(op: Opcode) {
    op == FramebufferTex || op == FramebufferTex1D || op == FramebufferTex2D
    || op == FramebufferTex3D || op == FramebufferTexLayer
  }

  function DecodeTextureAttach(c: Chunk): (r: Option<Payload>)
    ensures r.Some? ==> r.value.TextureAttachP? && Encode(r.value) == c
  {
    var f := c.fields;
    if |f| >= 4 && f[0].EnumField? && f[1].IdField? && f[|f| - 1].IdField? then
      match DecodeShape(c.op, f[2..|f| - 1])
      case Some((shape, level)) =>
        var p := TextureAttachP(f[0].e, f[1].id, shape, level, f[|f| - 1].id);
        assert Fields(p) == [f[0], f[1]] + f[2..|f| - 1] + [f[|f| - 1]];
        assert f == [f[0], f[1]] + f[2..|f| - 1] + [f[|f| - 1]];
        assert Encode(p) == Chunk(ShapeOpcode(shape), Fields(p));
        Some(p)
      case None => None
    else None
  }

  /** Decoding a chunk: the reading side dispatches on the opcode and reads
      that opcode's fields in the written order. Chunk types it does not know
      (Other) decode to None. */
  function Decode(c: Chunk): (r: Option<Payload>)
    ensures r.Some? ==> Encode(r.value) == c
  {
    var f := c.fields;
    match c.op
    case GenFramebuffers =>
      if |f| == 1 && f[0].IdField? then Some(GenFramebuffersP(f[0].id)) else None
    case GenRenderbuffers =>
      if |f| == 1 && f[0].IdField? then Some(GenRenderbuffersP(f[0].id)) else None
    case FramebufferRendbuf =>
      if |f| == 4 && f[0].IdField? && f[1].EnumField? && f[2].EnumField? && f[3].IdField?
      then Some(RenderbufferAttachP(f[0].id, f[1].e, f[2].e, f[3].id)) else None
    case FramebufferParam =>
      if |f| == 3 && f[0].EnumField? && f[1].IntField? && f[2].IdField?
      then Some(FramebufferParamP(f[0].e, f[1].i, f[2].id)) else None
    case ReadBuffer =>
      if |f| == 2 && f[0].EnumField? && f[1].IdField?
      then Some(ReadBufferP(f[0].e, f[1].id)) else None
    case BindFramebuffer =>
      if |f| == 2 && f[0].EnumField? && f[1].IdField?
      then Some(BindFramebufferP(f[0].e, f[1].id)) else None
    case DrawBuffer =>
      if |f| == 1 && f[0].EnumField? then Some(DrawBufferP(f[0].e)) else None
    case DrawBuffers =>
      if |f| == 3 && f[0].IdField? && f[1].UIntField? && f[2].EnumArray? && f[1].u == |f[2].es|
      then Some(DrawBuffersP(f[0].id, f[2].es)) else None
    case BlitFramebuffer =>
      if |f| == 10 && f[0].IntField? && f[1].IntField? && f[2].IntField? && f[3].IntField?
         && f[4].IntField? && f[5].IntField? && f[6].IntField? && f[7].IntField?
         && f[8].UIntField? && f[9].EnumField?
      then Some(BlitFramebufferP(f[0].i, f[1].i, f[2].i, f[3].i, f[4].i, f[5].i, f[6].i, f[7].i,
                                 f[8].u, f[9].e))
      else None
    case RenderbufferStorage =>
      if |f| == 4 && f[0].IdField? && f[1].EnumField? && f[2].UIntField? && f[3].UIntField?
      then Some(RenderbufferStorageP(f[0].id, f[1].e, f[2].u, f[3].u)) else None
    case RenderbufferStorageMS =>
      if |f| == 5 && f[0].EnumField? && f[1].UIntField? && f[2].UIntField? && f[3].UIntField?
         && f[4].IdField?
      then Some(RenderbufferStorageMSP(f[0].e, f[1].u, f[2].u, f[3].u, f[4].id)) else None
    case Other(_) => None
    case _ => DecodeTextureAttach(c)
  }

  /** A texture attach chunk reads back through the shape of its chunk
      type. */
  lemma TextureAttachRoundTrip(p: Payload)
    requires p.TextureAttachP?
    ensures DecodeTextureAttach(Encode(p)) == Some(p)
  {
    var f := Encode(p).fields;
    assert f[0] == EnumField(p.attachment) && f[1] == IdField(p.texture);
    assert f[|f| - 1] == IdField(p.framebuffer);
    assert f[2..|f| - 1] == ShapeFields(p.shape, p.level);
    match p.shape
    case Tex =>
    case Tex1D(_) =>
    case Tex2D(_) =>
    case Tex3D(_, _) =>
    case TexLayer(_) =>
  }

  /** Encode/decode symmetry: every payload reads back as itself. */
  lemma RoundTrip(p: Payload)
    ensures Decode(Encode(p)) == Some(p)
  {
    if p.TextureAttachP? {
      TextureAttachRoundTrip(p);
    }
  }

  /** Decode is injective on chunks it accepts, so two different encoded
      payloads never produce the same chunk. */
  lemma EncodeInjective(p: Payload, q: Payload)
    requires Encode(p) == Encode(q)
    ensures p == q
  {
    RoundTrip(p);
    RoundTrip(q);
  }
}
