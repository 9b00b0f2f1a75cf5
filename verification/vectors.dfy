/** Points and displacement vectors in 3-space, with exact real coordinates,
    and the optional-value wrapper used for computations that can fail. */
module Vectors {

  datatype Option<+T> = None | Some(value: T)

  /** A point (or displacement) in 3-space; `z` is the helix axis. */
  datatype Vec3 = Vec3(x: real, y: real, z: real)

  const Origin: Vec3 := Vec3(0.0, 0.0, 0.0)

  function Add(a: Vec3, b: Vec3): Vec3
  {
    Vec3(a.x + b.x, a.y + b.y, a.z + b.z)
  }

  function Scale(k: real, a: Vec3): Vec3
  {
    Vec3(k * a.x, k * a.y, k * a.z)
  }

  function Dot(a: Vec3, b: Vec3): real
  {
    a.x * b.x + a.y * b.y + a.z * b.z
  }

  function SqNorm(a: Vec3): real
  {
    Dot(a, a)
  }

  /** The point reached from `p` after `k` unit steps of `u` (`p` itself
      when `k` is not positive). */
  function Along(p: Vec3, k: int, u: Vec3): Vec3
    decreases k
  {
    if k <= 0 then p else Add(Along(p, k - 1, u), u)
  }

  /** `k` unit steps of `u` reach the point `k * u` away. */
  lemma {:induction false} AlongClosedForm(p: Vec3, k: nat, u: Vec3)
    ensures Along(p, k, u) == Add(p, Scale(k as real, u))
  {
    if k > 0 {
      AlongClosedForm(p, k - 1, u);
    }
  }

  /** Steps of a direction with no axial component keep the height. */
  lemma {:induction false} AlongLevel(p: Vec3, k: int, u: Vec3)
    requires u.z == 0.0
    ensures Along(p, k, u).z == p.z
    decreases k
  {
    if k > 0 {
      AlongLevel(p, k - 1, u);
    }
  }
}
