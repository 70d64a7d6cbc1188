/** The GLM vector types the scene stores, with their components as reals. */
module Glm {

  /** `glm::vec4`. */
  datatype Vec4 = Vec4(x: real, y: real, z: real, w: real)

  /** `glm::ivec3`. */
  datatype IVec3 = IVec3(x: int, y: int, z: int)

  /** A default-constructed `glm::vec4`, taken to be all zeros. */
  const ZERO_VEC4: Vec4 := Vec4(0.0, 0.0, 0.0, 0.0)
}
