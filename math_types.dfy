/** The glm vector and matrix values the engine passes around. Their numeric
    content is never computed on by the model, so they are plain sequences of
    reals: a vec3 has three components, a mat4 sixteen. */
module MathTypes {
  type Vec2 = seq<real>
  type Vec3 = seq<real>
  type Vec4 = seq<real>
  type Mat4 = seq<real>

  /** glm::vec3(v) and glm::vec4(v) for a scalar v. */
  function Splat(n: nat, v: real): (r: seq<real>)
    ensures |r| == n && forall i :: 0 <= i < n ==> r[i] == v
  {
    seq(n, _ => v)
  }
}
