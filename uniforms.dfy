/**
 * The shader's uniform setters, seen from the scene: each call is recorded,
 * in order, as one write of a slot, a count and a payload.
 */
module Uniforms {
  import opened Glm

  /** One setter call: `set_uniform4v(slot, count, data)` or `set_uniform3vi(slot, count, value)`. */
  datatype UniformWrite =
    | Uniform4v(slot: int, count: int, data: seq<Vec4>)
    | Uniform3vi(slot: int, count: int, value: IVec3)
  {
    function Slot(): int {
      match this
      case Uniform4v(s, _, _) => s
      case Uniform3vi(s, _, _) => s
    }
  }

  /** A shader program, reduced to the sequence of uniform writes it has received. */
  class UniformLog {
    var writes: seq<UniformWrite>

    constructor ()
      ensures writes == []
    {
      writes := [];
    }

    method SetUniform4v(slot: int, count: int, data: seq<Vec4>)
      modifies this
      ensures writes == old(writes) + [Uniform4v(slot, count, data)]
    {
      writes := writes + [Uniform4v(slot, count, data)];
    }

    method SetUniform3vi(slot: int, count: int, value: IVec3)
      modifies this
      ensures writes == old(writes) + [Uniform3vi(slot, count, value)]
    {
      writes := writes + [Uniform3vi(slot, count, value)];
    }
  }
}
