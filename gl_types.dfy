/**
 * Basic vocabulary of the GL capture layer: the GL enum values the framebuffer
 * entry points compare against, native object handles, logical resource ids,
 * the capture state and the 32-bit unsigned conversion the serialiser applies.
 */
module GLTypes {

  datatype Option<T> = None | Some(value: T)

  /** A GL enumerant (GLenum) and a GL object name (GLuint). */
  type GLenum = nat
  type GLuint = nat

  // Framebuffer binding targets.
  const GL_FRAMEBUFFER: GLenum := 0x8D40
  const GL_READ_FRAMEBUFFER: GLenum := 0x8CA8
  const GL_DRAW_FRAMEBUFFER: GLenum := 0x8CA9
  const GL_RENDERBUFFER: GLenum := 0x8D41

  // Default-framebuffer colour buffers.
  const GL_FRONT_LEFT: GLenum := 0x0400
  const GL_FRONT_RIGHT: GLenum := 0x0401
  const GL_BACK_LEFT: GLenum := 0x0402
  const GL_BACK_RIGHT: GLenum := 0x0403
  const GL_FRONT: GLenum := 0x0404
  const GL_BACK: GLenum := 0x0405

  // Framebuffer attachment points.
  const GL_COLOR_ATTACHMENT0: GLenum := 0x8CE0
  const GL_DEPTH_ATTACHMENT: GLenum := 0x8D00
  const GL_STENCIL_ATTACHMENT: GLenum := 0x8D20
  const GL_DEPTH_STENCIL_ATTACHMENT: GLenum := 0x821A

  // Base internal formats.
  const GL_DEPTH_COMPONENT: GLenum := 0x1902
  const GL_STENCIL: GLenum := 0x1802
  const GL_DEPTH_STENCIL: GLenum := 0x84F9

  /** The kind of GL object a native handle names. */
  datatype ObjectKind = Framebuffer | Renderbuffer | Texture

  /** A native handle (GLResource): object kind plus the driver's name for it.
      NoResource is what a lookup of an unknown id yields. */
  datatype GLResource = NoResource | Res(kind: ObjectKind, name: GLuint)

  /** A logical resource id; NullId is the empty ResourceId(). */
  datatype ResourceId = NullId | Rid(n: nat)

  /** The capture state. The entry points compare it by order
      (>= WRITING, < WRITING, <= EXECUTING), so it carries a rank. */
  datatype CaptureState = Reading | Executing | WritingIdle | WritingCapframe
  {
    function Rank(): (r: nat)
      ensures r <= 3
    {
      match this
      case Reading => 0
      case Executing => 1
      case WritingIdle => 2
      case WritingCapframe => 3
    }

    /** m_State >= WRITING */
    predicate IsWriting() {
      Rank() >= WritingIdle.Rank()
    }

    /** m_State <= EXECUTING */
    predicate AtMostExecuting() {
      Rank() <= Executing.Rank()
    }
  }

  /** The writing states are exactly the two last ones, and a state is either
      writing or at most executing, never both. */
  lemma WritingStates(s: CaptureState)
    ensures s.IsWriting() <==> (s == WritingIdle || s == WritingCapframe)
    ensures s.IsWriting() != s.AtMostExecuting()
    ensures s.AtMostExecuting() <==> (s == Reading || s == Executing)
  {
  }

  const TWO_TO_32: int := 0x1_0000_0000

  /** The conversion a signed GLsizei undergoes when it is serialised as a
      uint32_t: two's-complement wrap-around modulo 2^32. */
  function U32(x: int): (r: nat)
    ensures r < TWO_TO_32
    ensures 0 <= x < TWO_TO_32 ==> r == x
    ensures -TWO_TO_32 <= x < 0 ==> r == x + TWO_TO_32
  {
    x % TWO_TO_32
  }
}
