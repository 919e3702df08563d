/**
 * The two pure mappings of the replay side: the draw-buffer remap that sends
 * the default framebuffer's colour buffers to colour attachment 0 (the replay
 * stands in its own framebuffer for the default one), and the choice of the
 * attachment point for a renderbuffer's base format.
 */
module Mappings {
  import opened GLTypes

  /** A colour buffer of the default framebuffer. */
  predicate IsDefaultColourBuffer(b: GLenum) {
    b == GL_BACK_LEFT || b == GL_BACK_RIGHT || b == GL_BACK
    || b == GL_FRONT_LEFT || b == GL_FRONT_RIGHT || b == GL_FRONT
  }

  function RemapDrawBuffer(b: GLenum): (r: GLenum)
    ensures IsDefaultColourBuffer(b) ==> r == GL_COLOR_ATTACHMENT0
    ensures !IsDefaultColourBuffer(b) ==> r == b
    ensures !IsDefaultColourBuffer(r)
  {
    if IsDefaultColourBuffer(b) then GL_COLOR_ATTACHMENT0 else b
  }

  /** Applying the remap twice is applying it once. */
  lemma RemapDrawBufferIdempotent(b: GLenum)
    ensures RemapDrawBuffer(RemapDrawBuffer(b)) == RemapDrawBuffer(b)
  {
  }

  /** The remap applied to every element of a draw-buffer list. */
  function RemapDrawBuffers(bs: seq<GLenum>): (r: seq<GLenum>)
    ensures |r| == |bs|
    ensures forall i :: 0 <= i < |bs| ==> r[i] == RemapDrawBuffer(bs[i])
  {
    if bs == [] then [] else [RemapDrawBuffer(bs[0])] + RemapDrawBuffers(bs[1..])
  }

  /** The list remap is idempotent, and after it no default colour buffer
      is left in the list. */
  lemma RemapDrawBuffersIdempotent(bs: seq<GLenum>)
    ensures RemapDrawBuffers(RemapDrawBuffers(bs)) == RemapDrawBuffers(bs)
    ensures forall i :: 0 <= i < |bs| ==> !IsDefaultColourBuffer(RemapDrawBuffers(bs)[i])
  {
  }

  /** The attachment point a renderbuffer of the given base format is bound
      to: depth, stencil, depth-stencil, or colour attachment 0 otherwise. */
  function AttachmentForBaseFormat(baseFormat: GLenum): (attach: GLenum)
    ensures baseFormat == GL_DEPTH_COMPONENT ==> attach == GL_DEPTH_ATTACHMENT
    ensures baseFormat == GL_STENCIL ==> attach == GL_STENCIL_ATTACHMENT
    ensures baseFormat == GL_DEPTH_STENCIL ==> attach == GL_DEPTH_STENCIL_ATTACHMENT
    ensures (baseFormat != GL_DEPTH_COMPONENT && baseFormat != GL_STENCIL
             && baseFormat != GL_DEPTH_STENCIL) ==> attach == GL_COLOR_ATTACHMENT0
  {
    if baseFormat == GL_DEPTH_COMPONENT then GL_DEPTH_ATTACHMENT
    else if baseFormat == GL_STENCIL then GL_STENCIL_ATTACHMENT
    else if baseFormat == GL_DEPTH_STENCIL then GL_DEPTH_STENCIL_ATTACHMENT
    else GL_COLOR_ATTACHMENT0
  }

  /** The chosen attachment is one of the four attachment points and is left
      alone by the draw-buffer remap. */
  lemma AttachmentIsAttachmentPoint(baseFormat: GLenum)
    ensures var a := AttachmentForBaseFormat(baseFormat);
            (a == GL_COLOR_ATTACHMENT0 || a == GL_DEPTH_ATTACHMENT
             || a == GL_STENCIL_ATTACHMENT || a == GL_DEPTH_STENCIL_ATTACHMENT)
            && RemapDrawBuffer(a) == a
  {
  }
}
