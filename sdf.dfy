/**
 * The SDF capability of sdf/sdf.h: a shape maps a point to a signed distance. Shapes and
 * the transforms of sdf/transformop.h are kept abstract, as functions.
 */
module Sdf {

  /** glm::vec3 with `float` components modelled as reals. */
  datatype Vec3 = Vec3(x: real, y: real, z: real)

  /** SDF::dist of some primitive. */
  type Shape = Vec3 -> real

  /** SDFTransformOp::operator(): the point in the shape's own space. */
  type Transform = Vec3 -> Vec3
}
