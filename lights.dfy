/** SceneLight (src/Renderer/Light.h, src/Renderer/Light.cpp): the per-entity
    light description whose setters keep the radius non-negative and the spot
    cone ordered, 0 <= inner <= outer <= pi. */
module Lights {
  import opened MathTypes

  datatype LightType = Point | Directional | Spot

  /** glm::pi<float>(), to the precision the model needs. */
  const Pi: real := 3.14159265358979

  /** glm::radians for degrees. */
  function Radians(degrees: real): real { degrees * Pi / 180.0 }

  /** glm::clamp(x, lo, hi) = min(max(x, lo), hi). */
  function Clamp(x: real, lo: real, hi: real): (r: real)
    requires lo <= hi
    ensures lo <= r <= hi
    ensures lo <= x <= hi ==> r == x
    ensures x < lo ==> r == lo
    ensures hi < x ==> r == hi
  {
    if x < lo then lo else if hi < x then hi else x
  }

  /** glm::max(0.0f, r). */
  function NonNegative(x: real): (r: real)
    ensures r >= 0.0 && r >= x
    ensures x >= 0.0 ==> r == x
  {
    if x < 0.0 then 0.0 else x
  }

  /** The values Renderer3D::DrawLight reads from a light through its getters. */
  datatype LightParams = LightParams(
    lightType: LightType, color: Vec3, intensity: real, castsShadows: bool,
    radius: real, innerConeAngle: real, outerConeAngle: real)

  /** The cone ordering every setter keeps. */
  ghost predicate ConeOrdered(inner: real, outer: real)
  {
    0.0 <= inner <= outer <= Pi
  }

  /** The pair (inner, outer) after SetInnerConeAngle(angle). */
  function AfterSetInner(inner: real, outer: real, angle: real): (real, real)
  {
    var i := Clamp(angle, 0.0, Pi);
    (i, if i > outer then i else outer)
  }

  /** The pair (inner, outer) after SetOuterConeAngle(angle). */
  function AfterSetOuter(inner: real, outer: real, angle: real): (real, real)
  {
    var o := Clamp(angle, 0.0, Pi);
    (if o < inner then o else inner, o)
  }

  /** Either setter, from any starting pair that is ordered, leaves the pair ordered;
      SetInnerConeAngle never lowers the outer angle and SetOuterConeAngle never
      raises the inner one. */
  lemma SettersKeepConeOrdered(inner: real, outer: real, angle: real)
    requires ConeOrdered(inner, outer)
    ensures ConeOrdered(AfterSetInner(inner, outer, angle).0, AfterSetInner(inner, outer, angle).1)
    ensures ConeOrdered(AfterSetOuter(inner, outer, angle).0, AfterSetOuter(inner, outer, angle).1)
    ensures AfterSetInner(inner, outer, angle).0 == Clamp(angle, 0.0, Pi)
    ensures AfterSetInner(inner, outer, angle).1 >= outer
    ensures AfterSetOuter(inner, outer, angle).1 == Clamp(angle, 0.0, Pi)
    ensures AfterSetOuter(inner, outer, angle).0 <= inner
  {
  }

  class SceneLight {
    var lightType: LightType
    var color: Vec3
    var intensity: real
    var castsShadows: bool
    var radius: real
    var innerConeAngle: real
    var outerConeAngle: real

    ghost predicate Valid()
      reads this
    {
      radius >= 0.0 && ConeOrdered(innerConeAngle, outerConeAngle)
    }

    /** The getters' values, as Renderer3D::DrawLight reads them. */
    function Params(): (p: LightParams)
      reads this
      ensures p.lightType == lightType && p.radius == radius
      ensures p.innerConeAngle == innerConeAngle && p.outerConeAngle == outerConeAngle
    {
      LightParams(lightType, color, intensity, castsShadows, radius, innerConeAngle, outerConeAngle)
    }

    /** `SceneLight() = default` with the member initialisers of Light.h. */
    constructor ()
      ensures Valid()
      ensures lightType == Point && color == Splat(3, 1.0) && intensity == 1.0 && !castsShadows
      ensures radius == 1.0
      ensures innerConeAngle == Radians(10.0) && outerConeAngle == Radians(20.0)
    {
      lightType := Point;
      color := Splat(3, 1.0);
      intensity := 1.0;
      castsShadows := false;
      radius := 1.0;
      innerConeAngle := Radians(10.0);
      outerConeAngle := Radians(20.0);
    }

    method SetType(t: LightType)
      requires Valid()
      modifies this
      ensures Valid() && lightType == t
      ensures Params() == old(Params()).(lightType := t)
    {
      lightType := t;
    }

    method SetRadius(r: real)
      requires Valid()
      modifies this
      ensures Valid() && radius == NonNegative(r)
      ensures Params() == old(Params()).(radius := NonNegative(r))
    {
      radius := NonNegative(r);
    }

    method SetInnerConeAngle(angle: real)
      requires Valid()
      modifies this
      ensures Valid()
      ensures (innerConeAngle, outerConeAngle) == AfterSetInner(old(innerConeAngle), old(outerConeAngle), angle)
      ensures Params() == old(Params()).(innerConeAngle := innerConeAngle, outerConeAngle := outerConeAngle)
    {
      SettersKeepConeOrdered(innerConeAngle, outerConeAngle, angle);
      innerConeAngle := Clamp(angle, 0.0, Pi);
      if innerConeAngle > outerConeAngle {
        outerConeAngle := innerConeAngle;
      }
    }

    method SetOuterConeAngle(angle: real)
      requires Valid()
      modifies this
      ensures Valid()
      ensures (innerConeAngle, outerConeAngle) == AfterSetOuter(old(innerConeAngle), old(outerConeAngle), angle)
      ensures Params() == old(Params()).(innerConeAngle := innerConeAngle, outerConeAngle := outerConeAngle)
    {
      SettersKeepConeOrdered(innerConeAngle, outerConeAngle, angle);
      outerConeAngle := Clamp(angle, 0.0, Pi);
      if outerConeAngle < innerConeAngle {
        innerConeAngle := outerConeAngle;
      }
    }
  }
}
