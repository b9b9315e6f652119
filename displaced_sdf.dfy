/** DisplacedSDF of sdf/displacedsdf.h: a surface whose distance is perturbed by a displacement field. */
module DisplacedSdf {
  import opened Sdf
  import opened CombineOp

  /** The two borrowed SDF pointers, as shapes. */
  datatype DisplacedSdf = DisplacedSdf(surface: Shape, displacement: Shape)

  /** DisplacedSDF::dist: both fields are sampled at the same, untransformed point. */
  function Dist(d: DisplacedSdf, point: Vec3): real
  {
    d.surface(point) + d.displacement(point)
  }

  /** The displaced distance is SDFDisplace applied to the two samples. */
  lemma DistIsDisplace(d: DisplacedSdf, point: Vec3)
    ensures Dist(d, point) == CombinedDist(Displace, d.surface(point), d.displacement(point))
  {
  }

  /**
   * Where the displacement vanishes the surface is unchanged, and a displacement bounded
   * by `a` moves the distance by at most `a`.
   */
  lemma DistBounds(d: DisplacedSdf, point: Vec3, a: real)
    ensures d.displacement(point) == 0.0 ==> Dist(d, point) == d.surface(point)
    ensures -a <= d.displacement(point) <= a ==> d.surface(point) - a <= Dist(d, point) <= d.surface(point) + a
  {
    DisplaceBounds(d.surface(point), d.displacement(point), a);
  }
}
