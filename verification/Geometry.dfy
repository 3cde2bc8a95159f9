/** Rigid-body transforms as a unit quaternion and a translation (src/partcad/geom.py).

    Floats are reals.  The sine and cosine of half an angle are any pair with
    c*c + s*s == 1, and the length of an axis is any n with n*n == x*x + y*y + z*z. */
module Geometry {
  import opened Wrappers

  datatype Vec = Vec(x: real, y: real, z: real)
  datatype Quat = Quat(w: real, x: real, y: real, z: real)

  const ORIGIN := Vec(0.0, 0.0, 0.0)
  const ONE := Quat(1.0, 0.0, 0.0, 0.0)

  function Plus(a: Vec, b: Vec): Vec { Vec(a.x + b.x, a.y + b.y, a.z + b.z) }
  function Negate(a: Vec): Vec { Vec(-a.x, -a.y, -a.z) }
  function Dot(a: Vec, b: Vec): real { a.x * b.x + a.y * b.y + a.z * b.z }
  function Cross(a: Vec, b: Vec): Vec {
    Vec(a.y * b.z - a.z * b.y, a.z * b.x - a.x * b.z, a.x * b.y - a.y * b.x)
  }

  /** The Hamilton product. */
  function QuatMul(a: Quat, b: Quat): Quat {
    Quat(a.w * b.w - a.x * b.x - a.y * b.y - a.z * b.z,
         a.w * b.x + a.x * b.w + a.y * b.z - a.z * b.y,
         a.w * b.y - a.x * b.z + a.y * b.w + a.z * b.x,
         a.w * b.z + a.x * b.y - a.y * b.x + a.z * b.w)
  }

  function QuatConj(q: Quat): Quat { Quat(q.w, -q.x, -q.y, -q.z) }

  function NormSquared(q: Quat): real { q.w * q.w + q.x * q.x + q.y * q.y + q.z * q.z }

  predicate Unit(q: Quat) { NormSquared(q) == 1.0 }

  // The rows of the rotation matrix of (w, x, y, z), applied to (a, b, c).
  function RowX(w: real, x: real, y: real, z: real, a: real, b: real, c: real): real {
    (1.0 - 2.0 * (y * y + z * z)) * a + 2.0 * (x * y - w * z) * b + 2.0 * (x * z + w * y) * c
  }
  function RowY(w: real, x: real, y: real, z: real, a: real, b: real, c: real): real {
    2.0 * (x * y + w * z) * a + (1.0 - 2.0 * (x * x + z * z)) * b + 2.0 * (y * z - w * x) * c
  }
  function RowZ(w: real, x: real, y: real, z: real, a: real, b: real, c: real): real {
    2.0 * (x * z - w * y) * a + 2.0 * (y * z + w * x) * b + (1.0 - 2.0 * (x * x + y * y)) * c
  }

  /** Apply the rotation `q` to a vector. */
  function RotateVec(q: Quat, v: Vec): Vec {
    Vec(RowX(q.w, q.x, q.y, q.z, v.x, v.y, v.z),
        RowY(q.w, q.x, q.y, q.z, v.x, v.y, v.z),
        RowZ(q.w, q.x, q.y, q.z, v.x, v.y, v.z))
  }

  /** The unit quaternion of a rotation about an axis; a zero axis is rejected. */
  function AxisAngleToQuat(axis: Vec, norm: real, cosHalf: real, sinHalf: real): Option<Quat>
    requires norm >= 0.0 && norm * norm == Dot(axis, axis)
  {
    if norm == 0.0 then None
    else
      var u := Normalized(axis, norm);
      Some(Quat(cosHalf, u.x * sinHalf, u.y * sinHalf, u.z * sinHalf))
  }

  function Normalized(axis: Vec, norm: real): Vec
    requires norm != 0.0
  {
    Vec(axis.x / norm, axis.y / norm, axis.z / norm)
  }

  datatype Location = Location(q: Quat, t: Vec) {
    function Mul(other: Location): Location {
      Location(QuatMul(q, other.q), Plus(RotateVec(q, other.t), t))
    }

    function Inverse(): Location {
      var conj := QuatConj(q);
      Location(conj, Negate(RotateVec(conj, t)))
    }

    function TransformPoint(p: Vec): Vec { Plus(RotateVec(q, p), t) }

    function RotateVector(v: Vec): Vec { RotateVec(q, v) }

    predicate Valid() { Unit(q) }
  }

  const IDENTITY := Location(ONE, ORIGIN)

  // ---- quaternions ----

  function Pure(v: Vec): Quat { Quat(0.0, v.x, v.y, v.z) }
  function Imaginary(q: Quat): Vec { Vec(q.x, q.y, q.z) }
  function Scale(k: real, q: Quat): Quat { Quat(k * q.w, k * q.x, k * q.y, k * q.z) }

  /** The product (a b) c written out over the entries of its factors. */
  function Product(a: Quat, b: Quat, c: Quat): Quat {
    Quat((a.w * b.w - a.x * b.x - a.y * b.y - a.z * b.z) * c.w - (a.w * b.x + a.x * b.w + a.y * b.z - a.z * b.y) * c.x
         - (a.w * b.y - a.x * b.z + a.y * b.w + a.z * b.x) * c.y - (a.w * b.z + a.x * b.y - a.y * b.x + a.z * b.w) * c.z,
         (a.w * b.w - a.x * b.x - a.y * b.y - a.z * b.z) * c.x + (a.w * b.x + a.x * b.w + a.y * b.z - a.z * b.y) * c.w
         + (a.w * b.y - a.x * b.z + a.y * b.w + a.z * b.x) * c.z - (a.w * b.z + a.x * b.y - a.y * b.x + a.z * b.w) * c.y,
         (a.w * b.w - a.x * b.x - a.y * b.y - a.z * b.z) * c.y - (a.w * b.x + a.x * b.w + a.y * b.z - a.z * b.y) * c.z
         + (a.w * b.y - a.x * b.z + a.y * b.w + a.z * b.x) * c.w + (a.w * b.z + a.x * b.y - a.y * b.x + a.z * b.w) * c.x,
         (a.w * b.w - a.x * b.x - a.y * b.y - a.z * b.z) * c.z + (a.w * b.x + a.x * b.w + a.y * b.z - a.z * b.y) * c.y
         - (a.w * b.y - a.x * b.z + a.y * b.w + a.z * b.x) * c.x + (a.w * b.z + a.x * b.y - a.y * b.x + a.z * b.w) * c.w)
  }

  lemma LeftW(a: Quat, b: Quat, c: Quat) ensures QuatMul(QuatMul(a, b), c).w == Product(a, b, c).w {}
  lemma LeftX(a: Quat, b: Quat, c: Quat) ensures QuatMul(QuatMul(a, b), c).x == Product(a, b, c).x {}
  lemma LeftY(a: Quat, b: Quat, c: Quat) ensures QuatMul(QuatMul(a, b), c).y == Product(a, b, c).y {}
  lemma LeftZ(a: Quat, b: Quat, c: Quat) ensures QuatMul(QuatMul(a, b), c).z == Product(a, b, c).z {}

  lemma FromLeft(a: Quat, b: Quat, c: Quat)
    ensures QuatMul(QuatMul(a, b), c) == Product(a, b, c)
  {
    LeftW(a, b, c);
    LeftX(a, b, c);
    LeftY(a, b, c);
    LeftZ(a, b, c);
  }

  lemma RightW(a: Quat, b: Quat, c: Quat) ensures QuatMul(a, QuatMul(b, c)).w == Product(a, b, c).w {}
  lemma RightX(a: Quat, b: Quat, c: Quat) ensures QuatMul(a, QuatMul(b, c)).x == Product(a, b, c).x {}
  lemma RightY(a: Quat, b: Quat, c: Quat) ensures QuatMul(a, QuatMul(b, c)).y == Product(a, b, c).y {}
  lemma RightZ(a: Quat, b: Quat, c: Quat) ensures QuatMul(a, QuatMul(b, c)).z == Product(a, b, c).z {}

  lemma FromRight(a: Quat, b: Quat, c: Quat)
    ensures QuatMul(a, QuatMul(b, c)) == Product(a, b, c)
  {
    RightW(a, b, c);
    RightX(a, b, c);
    RightY(a, b, c);
    RightZ(a, b, c);
  }

  lemma MulAssociates(a: Quat, b: Quat, c: Quat)
    ensures QuatMul(QuatMul(a, b), c) == QuatMul(a, QuatMul(b, c))
  {
    FromLeft(a, b, c);
    FromRight(a, b, c);
  }

  lemma ConjReal(a: Quat, b: Quat) ensures QuatMul(a, b).w == QuatMul(QuatConj(b), QuatConj(a)).w {}
  lemma ConjX(a: Quat, b: Quat) ensures -QuatMul(a, b).x == QuatMul(QuatConj(b), QuatConj(a)).x {}
  lemma ConjY(a: Quat, b: Quat) ensures -QuatMul(a, b).y == QuatMul(QuatConj(b), QuatConj(a)).y {}
  lemma ConjZ(a: Quat, b: Quat) ensures -QuatMul(a, b).z == QuatMul(QuatConj(b), QuatConj(a)).z {}

  lemma ConjOfProduct(a: Quat, b: Quat)
    ensures QuatConj(QuatMul(a, b)) == QuatMul(QuatConj(b), QuatConj(a))
  {
    ConjReal(a, b);
    ConjX(a, b);
    ConjY(a, b);
    ConjZ(a, b);
  }

  lemma ConjIsInverse(q: Quat)
    ensures QuatMul(q, QuatConj(q)) == Quat(NormSquared(q), 0.0, 0.0, 0.0)
    ensures QuatMul(QuatConj(q), q) == Quat(NormSquared(q), 0.0, 0.0, 0.0)
    ensures NormSquared(QuatConj(q)) == NormSquared(q)
  {}

  lemma OneIsNeutral(q: Quat)
    ensures QuatMul(q, ONE) == q && QuatMul(ONE, q) == q
  {}

  /** The four-square identity, through |q|^2 == q q*. */
  lemma NormIsMultiplicative(a: Quat, b: Quat)
    ensures NormSquared(QuatMul(a, b)) == NormSquared(a) * NormSquared(b)
  {
    var n := Quat(NormSquared(b), 0.0, 0.0, 0.0);
    var ab := QuatMul(a, b);
    calc {
      Quat(NormSquared(ab), 0.0, 0.0, 0.0);
      { ConjIsInverse(ab); }
      QuatMul(ab, QuatConj(ab));
      { ConjOfProduct(a, b); }
      QuatMul(ab, QuatMul(QuatConj(b), QuatConj(a)));
      { MulAssociates(a, b, QuatMul(QuatConj(b), QuatConj(a))); }
      QuatMul(a, QuatMul(b, QuatMul(QuatConj(b), QuatConj(a))));
      { MulAssociates(b, QuatConj(b), QuatConj(a)); ConjIsInverse(b); }
      QuatMul(a, QuatMul(n, QuatConj(a)));
      { RealCommutes(NormSquared(b), a); }
      Quat(NormSquared(a) * NormSquared(b), 0.0, 0.0, 0.0);
    }
  }

  lemma RealCommutes(k: real, a: Quat)
    ensures QuatMul(a, QuatMul(Quat(k, 0.0, 0.0, 0.0), QuatConj(a))) == Quat(NormSquared(a) * k, 0.0, 0.0, 0.0)
  {}

  /** q v q*. */
  function Sandwich(q: Quat, p: Quat): Quat { QuatMul(QuatMul(q, p), QuatConj(q)) }

  /** One entry of q v q*; the others are its cyclic shifts. */
  function Entry(w: real, x: real, y: real, z: real, a: real, b: real, c: real): real {
    (x * a + y * b + z * c) * x + (w * a + y * c - z * b) * w - (w * b - x * c + z * a) * z + (w * c + x * b - y * a) * y
  }

  lemma EntryIsRowX(w: real, x: real, y: real, z: real, a: real, b: real, c: real)
    requires w * w + x * x + y * y + z * z == 1.0
    ensures Entry(w, x, y, z, a, b, c) == RowX(w, x, y, z, a, b, c)
  {
    assert (w * w + x * x + y * y + z * z) * a == a;
  }

  lemma EntryIsRowY(w: real, x: real, y: real, z: real, a: real, b: real, c: real)
    requires w * w + x * x + y * y + z * z == 1.0
    ensures Entry(w, y, z, x, b, c, a) == RowY(w, x, y, z, a, b, c)
  {
    assert (w * w + x * x + y * y + z * z) * b == b;
  }

  lemma EntryIsRowZ(w: real, x: real, y: real, z: real, a: real, b: real, c: real)
    requires w * w + x * x + y * y + z * z == 1.0
    ensures Entry(w, z, x, y, c, a, b) == RowZ(w, x, y, z, a, b, c)
  {
    assert (w * w + x * x + y * y + z * z) * c == c;
  }

  lemma TimesPure(q: Quat, v: Vec)
    ensures QuatMul(q, Pure(v)) == Quat(-(q.x * v.x + q.y * v.y + q.z * v.z),
                                        q.w * v.x + q.y * v.z - q.z * v.y,
                                        q.w * v.y - q.x * v.z + q.z * v.x,
                                        q.w * v.z + q.x * v.y - q.y * v.x)
  {}

  lemma TimesConj(m: Quat, q: Quat)
    ensures QuatMul(m, QuatConj(q)) == Quat(m.w * q.w + m.x * q.x + m.y * q.y + m.z * q.z,
                                            -m.w * q.x + m.x * q.w - m.y * q.z + m.z * q.y,
                                            -m.w * q.y + m.y * q.w - m.z * q.x + m.x * q.z,
                                            -m.w * q.z + m.z * q.w - m.x * q.y + m.y * q.x)
  {}

  // The entries of q v, called (p, r, s, t), times q*: the real one, and one of the others.

  lemma RealOfConjugation(w: real, x: real, y: real, z: real, a: real, b: real, c: real, p: real, r: real, s: real, t: real)
    requires p == -(x * a + y * b + z * c) && r == w * a + y * c - z * b && s == w * b - x * c + z * a && t == w * c + x * b - y * a
    ensures p * w + r * x + s * y + t * z == 0.0
  {
    assert p * w == -(x * a + y * b + z * c) * w && r * x == (w * a + y * c - z * b) * x;
    assert s * y == (w * b - x * c + z * a) * y && t * z == (w * c + x * b - y * a) * z;
  }

  lemma EntryOfConjugation(w: real, x: real, y: real, z: real, a: real, b: real, c: real, p: real, r: real, s: real, t: real)
    requires p == -(x * a + y * b + z * c) && r == w * a + y * c - z * b && s == w * b - x * c + z * a && t == w * c + x * b - y * a
    ensures -p * x + r * w - s * z + t * y == Entry(w, x, y, z, a, b, c)
  {
    assert -p * x == (x * a + y * b + z * c) * x;
  }

  lemma SandwichReal(q: Quat, v: Vec)
    ensures Sandwich(q, Pure(v)).w == 0.0
  {
    var m := QuatMul(q, Pure(v));
    TimesPure(q, v);
    TimesConj(m, q);
    RealOfConjugation(q.w, q.x, q.y, q.z, v.x, v.y, v.z, m.w, m.x, m.y, m.z);
  }

  lemma SandwichX(q: Quat, v: Vec)
    ensures Sandwich(q, Pure(v)).x == Entry(q.w, q.x, q.y, q.z, v.x, v.y, v.z)
  {
    var m := QuatMul(q, Pure(v));
    TimesPure(q, v);
    TimesConj(m, q);
    EntryOfConjugation(q.w, q.x, q.y, q.z, v.x, v.y, v.z, m.w, m.x, m.y, m.z);
  }

  lemma SandwichY(q: Quat, v: Vec)
    ensures Sandwich(q, Pure(v)).y == Entry(q.w, q.y, q.z, q.x, v.y, v.z, v.x)
  {
    var m := QuatMul(q, Pure(v));
    TimesPure(q, v);
    TimesConj(m, q);
    EntryOfConjugation(q.w, q.y, q.z, q.x, v.y, v.z, v.x, m.w, m.y, m.z, m.x);
  }

  lemma SandwichZ(q: Quat, v: Vec)
    ensures Sandwich(q, Pure(v)).z == Entry(q.w, q.z, q.x, q.y, v.z, v.x, v.y)
  {
    var m := QuatMul(q, Pure(v));
    TimesPure(q, v);
    TimesConj(m, q);
    EntryOfConjugation(q.w, q.z, q.x, q.y, v.z, v.x, v.y, m.w, m.z, m.x, m.y);
  }

  lemma RotateX(q: Quat, v: Vec)
    requires Unit(q)
    ensures RotateVec(q, v).x == Entry(q.w, q.x, q.y, q.z, v.x, v.y, v.z)
  {
    EntryIsRowX(q.w, q.x, q.y, q.z, v.x, v.y, v.z);
  }

  lemma RotateY(q: Quat, v: Vec)
    requires Unit(q)
    ensures RotateVec(q, v).y == Entry(q.w, q.y, q.z, q.x, v.y, v.z, v.x)
  {
    EntryIsRowY(q.w, q.x, q.y, q.z, v.x, v.y, v.z);
  }

  lemma RotateZ(q: Quat, v: Vec)
    requires Unit(q)
    ensures RotateVec(q, v).z == Entry(q.w, q.z, q.x, q.y, v.z, v.x, v.y)
  {
    EntryIsRowZ(q.w, q.x, q.y, q.z, v.x, v.y, v.z);
  }

  /** For a unit quaternion the matrix is the conjugation q v q*. */
  lemma RotationIsConjugation(q: Quat, v: Vec)
    requires Unit(q)
    ensures Sandwich(q, Pure(v)) == Pure(RotateVec(q, v))
  {
    SandwichReal(q, v);
    SandwichX(q, v);
    SandwichY(q, v);
    SandwichZ(q, v);
    RotateX(q, v);
    RotateY(q, v);
    RotateZ(q, v);
  }

  // ---- rotations ----

  /** R(a b) is R(a) after R(b). */
  lemma RotationsCompose(a: Quat, b: Quat, v: Vec)
    requires Unit(a) && Unit(b)
    ensures Unit(QuatMul(a, b))
    ensures RotateVec(QuatMul(a, b), v) == RotateVec(a, RotateVec(b, v))
  {
    NormIsMultiplicative(a, b);
    var p, a', b' := Pure(v), QuatConj(a), QuatConj(b);
    calc {
      Pure(RotateVec(QuatMul(a, b), v));
      { RotationIsConjugation(QuatMul(a, b), v); }
      QuatMul(QuatMul(QuatMul(a, b), p), QuatConj(QuatMul(a, b)));
      { ConjOfProduct(a, b); MulAssociates(a, b, p); }
      QuatMul(QuatMul(a, QuatMul(b, p)), QuatMul(b', a'));
      { MulAssociates(QuatMul(a, QuatMul(b, p)), b', a'); MulAssociates(a, QuatMul(b, p), b'); }
      QuatMul(QuatMul(a, Sandwich(b, p)), a');
      { RotationIsConjugation(b, v); }
      Sandwich(a, Pure(RotateVec(b, v)));
      { RotationIsConjugation(a, RotateVec(b, v)); }
      Pure(RotateVec(a, RotateVec(b, v)));
    }
  }

  lemma RowsAreLinear(w: real, x: real, y: real, z: real, a: real, b: real, c: real, d: real, e: real, f: real)
    ensures RowX(w, x, y, z, a + d, b + e, c + f) == RowX(w, x, y, z, a, b, c) + RowX(w, x, y, z, d, e, f)
    ensures RowY(w, x, y, z, a + d, b + e, c + f) == RowY(w, x, y, z, a, b, c) + RowY(w, x, y, z, d, e, f)
    ensures RowZ(w, x, y, z, a + d, b + e, c + f) == RowZ(w, x, y, z, a, b, c) + RowZ(w, x, y, z, d, e, f)
  {}

  lemma RowsAreOdd(w: real, x: real, y: real, z: real, a: real, b: real, c: real)
    ensures RowX(w, x, y, z, -a, -b, -c) == -RowX(w, x, y, z, a, b, c)
    ensures RowY(w, x, y, z, -a, -b, -c) == -RowY(w, x, y, z, a, b, c)
    ensures RowZ(w, x, y, z, -a, -b, -c) == -RowZ(w, x, y, z, a, b, c)
  {}

  lemma RotationIsAdditive(q: Quat, u: Vec, v: Vec)
    ensures RotateVec(q, Plus(u, v)) == Plus(RotateVec(q, u), RotateVec(q, v))
    ensures RotateVec(q, Negate(v)) == Negate(RotateVec(q, v))
    ensures RotateVec(q, ORIGIN) == ORIGIN
  {
    RowsAreLinear(q.w, q.x, q.y, q.z, u.x, u.y, u.z, v.x, v.y, v.z);
    RowsAreOdd(q.w, q.x, q.y, q.z, v.x, v.y, v.z);
  }

  lemma IdentityRotates(v: Vec)
    ensures Unit(ONE) && RotateVec(ONE, v) == v
  {}

  /** The conjugate undoes a rotation, on either side. */
  lemma RotationUndone(q: Quat, v: Vec)
    requires Unit(q)
    ensures Unit(QuatConj(q))
    ensures RotateVec(q, RotateVec(QuatConj(q), v)) == v
    ensures RotateVec(QuatConj(q), RotateVec(q, v)) == v
  {
    ConjIsInverse(q);
    RotationsCompose(q, QuatConj(q), v);
    RotationsCompose(QuatConj(q), q, v);
    IdentityRotates(v);
  }

  lemma ProductOfPure(u: Vec, v: Vec)
    ensures QuatMul(Pure(u), Pure(v)) == Quat(-Dot(u, v), Cross(u, v).x, Cross(u, v).y, Cross(u, v).z)
  {}

  /** q (r + v) q* keeps the real part r and rotates the vector part v. */
  lemma ConjugationKeepsReal(q: Quat, p: Quat)
    requires Unit(q)
    ensures Sandwich(q, p) == Quat(p.w, RotateVec(q, Imaginary(p)).x, RotateVec(q, Imaginary(p)).y, RotateVec(q, Imaginary(p)).z)
  {
    var v := Pure(Imaginary(p));
    RotationIsConjugation(q, Imaginary(p));
    SplitReal(q, p);
    MulDistributes(Scale(p.w, q), QuatMul(q, v), QuatConj(q));
    ScaledByItself(p.w, q);
  }


  lemma SplitReal(q: Quat, p: Quat)
    ensures QuatMul(q, p) == Sum(Scale(p.w, q), QuatMul(q, Pure(Imaginary(p))))
  {
    TimesPure(q, Imaginary(p));
    TimesSplit(q, p);
  }

  lemma TimesSplit(q: Quat, p: Quat)
    ensures QuatMul(q, p) == Quat(p.w * q.w + -(q.x * p.x + q.y * p.y + q.z * p.z),
                                  p.w * q.x + (q.w * p.x + q.y * p.z - q.z * p.y),
                                  p.w * q.y + (q.w * p.y - q.x * p.z + q.z * p.x),
                                  p.w * q.z + (q.w * p.z + q.x * p.y - q.y * p.x))
  {
    SplitEntries(q.w, q.x, q.y, q.z, p.w, p.x, p.y, p.z);
  }

  lemma SplitEntries(w: real, x: real, y: real, z: real, k: real, a: real, b: real, c: real)
    ensures w * k - x * a - y * b - z * c == k * w + -(x * a + y * b + z * c)
    ensures w * a + x * k + y * c - z * b == k * x + (w * a + y * c - z * b)
    ensures w * b - x * c + y * k + z * a == k * y + (w * b - x * c + z * a)
    ensures w * c + x * b - y * a + z * k == k * z + (w * c + x * b - y * a)
  {}

  function Sum(a: Quat, b: Quat): Quat { Quat(a.w + b.w, a.x + b.x, a.y + b.y, a.z + b.z) }

  lemma DistributesW(a: Quat, b: Quat, c: Quat) ensures QuatMul(Sum(a, b), c).w == QuatMul(a, c).w + QuatMul(b, c).w {}
  lemma DistributesX(a: Quat, b: Quat, c: Quat) ensures QuatMul(Sum(a, b), c).x == QuatMul(a, c).x + QuatMul(b, c).x {}
  lemma DistributesY(a: Quat, b: Quat, c: Quat) ensures QuatMul(Sum(a, b), c).y == QuatMul(a, c).y + QuatMul(b, c).y {}
  lemma DistributesZ(a: Quat, b: Quat, c: Quat) ensures QuatMul(Sum(a, b), c).z == QuatMul(a, c).z + QuatMul(b, c).z {}

  lemma MulDistributes(a: Quat, b: Quat, c: Quat)
    ensures QuatMul(Sum(a, b), c) == Sum(QuatMul(a, c), QuatMul(b, c))
  {
    DistributesW(a, b, c);
    DistributesX(a, b, c);
    DistributesY(a, b, c);
    DistributesZ(a, b, c);
  }

  lemma ScaledEntries(k: real, w: real, x: real, y: real, z: real)
    ensures k * w * w + k * x * x + k * y * y + k * z * z == k * (w * w + x * x + y * y + z * z)
    ensures -(k * w) * x + k * x * w - k * y * z + k * z * y == 0.0
  {}

  lemma ScaledByItself(k: real, q: Quat)
    requires Unit(q)
    ensures QuatMul(Scale(k, q), QuatConj(q)) == Quat(k, 0.0, 0.0, 0.0)
  {
    TimesConj(Scale(k, q), q);
    ScaledEntries(k, q.w, q.x, q.y, q.z);
    ScaledEntries(k, q.w, q.y, q.z, q.x);
    ScaledEntries(k, q.w, q.z, q.x, q.y);
  }

  /** A rotation keeps lengths and angles, and does not mirror. */
  lemma RotationIsProper(q: Quat, u: Vec, v: Vec)
    requires Unit(q)
    ensures Dot(RotateVec(q, u), RotateVec(q, v)) == Dot(u, v)
    ensures Cross(RotateVec(q, u), RotateVec(q, v)) == RotateVec(q, Cross(u, v))
  {
    var a, b, q' := Pure(u), Pure(v), QuatConj(q);
    ConjIsInverse(q);
    calc {
      QuatMul(Sandwich(q, a), Sandwich(q, b));
      { MulAssociates(QuatMul(q, a), q', Sandwich(q, b)); MulAssociates(q, b, q'); }
      QuatMul(QuatMul(q, a), QuatMul(q', QuatMul(q, QuatMul(b, q'))));
      { MulAssociates(q', q, QuatMul(b, q')); OneIsNeutral(QuatMul(b, q')); }
      QuatMul(QuatMul(q, a), QuatMul(b, q'));
      { MulAssociates(q, a, QuatMul(b, q')); MulAssociates(a, b, q'); MulAssociates(q, QuatMul(a, b), q'); }
      Sandwich(q, QuatMul(a, b));
    }
    RotationIsConjugation(q, u);
    RotationIsConjugation(q, v);
    ProductOfPure(u, v);
    ProductOfPure(RotateVec(q, u), RotateVec(q, v));
    ConjugationKeepsReal(q, QuatMul(a, b));
  }

  // ---- locations ----

  lemma PositiveProduct(n: real, k: real, m: real)
    requires n > 0.0 && k > 0.0 && m == n * k
    ensures m > 0.0
  {
    assert n * k > 0.0;
  }

  lemma SquareIsPositive(x: real, m: real)
    requires x != 0.0 && m == x * x
    ensures m > 0.0
  {
    if x > 0.0 {
      PositiveProduct(x, x, m);
    } else {
      PositiveProduct(-x, -x, m);
    }
  }

  lemma SumOfSquaresIsZero(x: real, y: real, z: real)
    requires x * x + y * y + z * z == 0.0
    ensures x == 0.0 && y == 0.0 && z == 0.0
  {
    var i, j, k := x * x, y * y, z * z;
    if x != 0.0 { SquareIsPositive(x, i); }
    if y != 0.0 { SquareIsPositive(y, j); }
    if z != 0.0 { SquareIsPositive(z, k); }
  }

  lemma UnitAxis(x: real, y: real, z: real, n: real, a: real, b: real, c: real)
    requires n > 0.0 && n * n == a * a + b * b + c * c
    requires x * n == a && y * n == b && z * n == c
    ensures x * x + y * y + z * z == 1.0
  {
    var m := n * n;
    SquareOfProduct(x, n, a);
    SquareOfProduct(y, n, b);
    SquareOfProduct(z, n, c);
    PositiveProduct(n, n, m);
    Excess(x * x, y * y, z * z, m, a * a, b * b, c * c);
  }

  lemma Excess(x: real, y: real, z: real, m: real, a: real, b: real, c: real)
    requires m > 0.0 && x * m == a && y * m == b && z * m == c && m == a + b + c
    ensures x + y + z == 1.0
  {
    var k := x + y + z - 1.0;
    var p := k * m;
    assert p == x * m + y * m + z * m - m;
    if k > 0.0 { PositiveProduct(k, m, p); }
    if k < 0.0 { PositiveProduct(-k, m, -p); }
  }

  lemma SquareOfProduct(x: real, n: real, a: real)
    requires x * n == a
    ensures x * x * (n * n) == a * a
  {
    assert x * x * (n * n) == x * n * (x * n);
  }

  lemma NormalizedIsUnit(axis: Vec, norm: real)
    requires norm > 0.0 && norm * norm == Dot(axis, axis)
    ensures Dot(Normalized(axis, norm), Normalized(axis, norm)) == 1.0
  {
    var u := Normalized(axis, norm);
    UnitAxis(u.x, u.y, u.z, norm, axis.x, axis.y, axis.z);
  }

  lemma HalfAngleIsUnit(x: real, y: real, z: real, c: real, s: real)
    requires x * x + y * y + z * z == 1.0 && c * c + s * s == 1.0
    ensures c * c + x * s * (x * s) + y * s * (y * s) + z * s * (z * s) == 1.0
  {
    assert x * s * (x * s) + y * s * (y * s) + z * s * (z * s) == (x * x + y * y + z * z) * (s * s);
  }

  lemma TurnAboutUnitAxis(u: Vec, c: real, s: real)
    requires Dot(u, u) == 1.0 && c * c + s * s == 1.0
    ensures Unit(Quat(c, u.x * s, u.y * s, u.z * s))
  {
    HalfAngleIsUnit(u.x, u.y, u.z, c, s);
  }

  lemma ZeroLength(n: real, a: real, b: real, c: real)
    requires n >= 0.0 && n * n == a * a + b * b + c * c
    ensures n == 0.0 <==> a == 0.0 && b == 0.0 && c == 0.0
  {
    if n == 0.0 {
      SumOfSquaresIsZero(a, b, c);
    } else {
      var m := n * n;
      PositiveProduct(n, n, m);
      assert (a == 0.0 ==> a * a == 0.0) && (b == 0.0 ==> b * b == 0.0) && (c == 0.0 ==> c * c == 0.0);
    }
  }

  /** A zero-length axis is rejected, and no other is. */
  lemma OnlyZeroAxisIsRejected(axis: Vec, norm: real, cosHalf: real, sinHalf: real)
    requires norm >= 0.0 && norm * norm == Dot(axis, axis)
    ensures AxisAngleToQuat(axis, norm, cosHalf, sinHalf).None? <==> axis == ORIGIN
  {
    ZeroLength(norm, axis.x, axis.y, axis.z);
    assert norm == 0.0 <==> axis == ORIGIN;
  }

  /** The quaternion of an axis and an angle is a unit one. */
  lemma AxisAngleIsUnit(axis: Vec, norm: real, cosHalf: real, sinHalf: real)
    requires norm > 0.0 && norm * norm == Dot(axis, axis) && cosHalf * cosHalf + sinHalf * sinHalf == 1.0
    ensures AxisAngleToQuat(axis, norm, cosHalf, sinHalf).Some? && Unit(AxisAngleToQuat(axis, norm, cosHalf, sinHalf).value)
  {
    NormalizedIsUnit(axis, norm);
    TurnAboutUnitAxis(Normalized(axis, norm), cosHalf, sinHalf);
  }

  // ---- the axis, the angle and the sense of a turn ----

  /** One entry of a turned vector: (x, y, z) the axis scaled to length one, c and s the
      cosine and sine of half the angle. */
  lemma TurnedEntry(x: real, y: real, z: real, c: real, s: real, a: real, b: real, d: real)
    requires x * x + y * y + z * z == 1.0 && c * c + s * s == 1.0 && x * a + y * b + z * d == 0.0
    ensures (1.0 - 2.0 * (s * y * (s * y) + s * z * (s * z))) * a + 2.0 * (s * x * (s * y) - c * (s * z)) * b + 2.0 * (s * x * (s * z) + c * (s * y)) * d
         == (c * c - s * s) * a + 2.0 * c * s * (y * d - z * b)
  {
    var t := s * s;
    TurnedSquares(x, y, z, t, a, b, d);
    assert s * y * (s * y) == t * (y * y) && s * z * (s * z) == t * (z * z) && s * x * (s * y) == t * (x * y) && s * x * (s * z) == t * (x * z);
    TurnedTerms(x, y, z, c, s, t, a, b, d);
  }

  lemma TurnedSquares(x: real, y: real, z: real, t: real, a: real, b: real, d: real)
    requires x * x + y * y + z * z == 1.0 && x * a + y * b + z * d == 0.0
    ensures t * (y * y) * a + t * (z * z) * a - t * (x * y) * b - t * (x * z) * d == t * a
  {
    assert (y * y + z * z) * a == a - x * x * a;
    assert x * (x * a + y * b + z * d) == 0.0;
    assert x * x * a + x * y * b + x * z * d == x * (x * a + y * b + z * d);
    assert t * (y * y) * a + t * (z * z) * a - t * (x * y) * b - t * (x * z) * d
        == t * ((y * y + z * z) * a - x * y * b - x * z * d);
  }

  lemma TurnedTerms(x: real, y: real, z: real, c: real, s: real, t: real, a: real, b: real, d: real)
    requires t == s * s && c * c + t == 1.0
    requires t * (y * y) * a + t * (z * z) * a - t * (x * y) * b - t * (x * z) * d == t * a
    ensures (1.0 - 2.0 * (t * (y * y) + t * (z * z))) * a + 2.0 * (t * (x * y) - c * (s * z)) * b + 2.0 * (t * (x * z) + c * (s * y)) * d
         == (c * c - s * s) * a + 2.0 * c * s * (y * d - z * b)
  {
    assert (1.0 - 2.0 * (t * (y * y) + t * (z * z))) * a + 2.0 * (t * (x * y)) * b + 2.0 * (t * (x * z)) * d == a - 2.0 * (t * a);
    assert (c * c - t) * a == a - 2.0 * (t * a);
    assert 2.0 * c * s * (y * d - z * b) == 2.0 * (c * (s * y)) * d - 2.0 * (c * (s * z)) * b;
  }

  lemma EntryOfItself(w: real, x: real, y: real, z: real, k: real)
    ensures RowX(w, x * k, y * k, z * k, x, y, z) == x
    ensures RowY(w, x * k, y * k, z * k, x, y, z) == y
    ensures RowZ(w, x * k, y * k, z * k, x, y, z) == z
  {}

  /** A vector along the axis stays as it is. */
  lemma AxisStays(axis: Vec, norm: real, cosHalf: real, sinHalf: real)
    requires norm > 0.0 && norm * norm == Dot(axis, axis)
    ensures RotateVec(AxisAngleToQuat(axis, norm, cosHalf, sinHalf).value, axis) == axis
  {
    var u, k := Normalized(axis, norm), sinHalf / norm;
    assert u.x * sinHalf == axis.x * k && u.y * sinHalf == axis.y * k && u.z * sinHalf == axis.z * k;
    EntryOfItself(cosHalf, axis.x, axis.y, axis.z, k);
  }

  lemma PerpendicularToUnit(axis: Vec, u: Vec, norm: real, v: Vec)
    requires norm > 0.0 && u.x * norm == axis.x && u.y * norm == axis.y && u.z * norm == axis.z
    requires axis.x * v.x + axis.y * v.y + axis.z * v.z == 0.0
    ensures u.x * v.x + u.y * v.y + u.z * v.z == 0.0
  {
    var d := u.x * v.x + u.y * v.y + u.z * v.z;
    assert d * norm == 0.0;
  }

  lemma ScaledBack(n: real, c: real, s: real, p: real, q: real, a: real, y: real, z: real, b: real, d: real, r: real)
    requires p * n == y && q * n == z && r == (c * c - s * s) * a + 2.0 * c * s * (p * d - q * b)
    ensures n * r == n * (c * c - s * s) * a + 2.0 * c * s * (y * d - z * b)
  {
    assert n * (2.0 * c * s * (p * d - q * b)) == 2.0 * c * s * (p * n * d - q * n * b);
  }

  /** A vector at right angles to the axis turns by the whole angle in the plane it is in,
      counterclockwise as seen from the axis' tip: c*c - s*s is the angle's cosine, 2*c*s
      its sine, and the vector ahead by a right angle is the axis crossed with it. */
  lemma PerpendicularTurns(axis: Vec, norm: real, c: real, s: real, q: Quat, v: Vec)
    requires norm > 0.0 && norm * norm == Dot(axis, axis) && c * c + s * s == 1.0
    requires AxisAngleToQuat(axis, norm, c, s) == Some(q)
    requires axis.x * v.x + axis.y * v.y + axis.z * v.z == 0.0
    ensures var r := RotateVec(q, v);
            && norm * r.x == norm * (c * c - s * s) * v.x + 2.0 * c * s * (axis.y * v.z - axis.z * v.y)
            && norm * r.y == norm * (c * c - s * s) * v.y + 2.0 * c * s * (axis.z * v.x - axis.x * v.z)
            && norm * r.z == norm * (c * c - s * s) * v.z + 2.0 * c * s * (axis.x * v.y - axis.y * v.x)
  {
    var u := UnitAlong(axis, norm, c, s, q);
    PerpendicularToUnit(axis, u, norm, v);
    PerpendicularX(axis, u, norm, c, s, v, q);
    PerpendicularY(axis, u, norm, c, s, v, q);
    PerpendicularZ(axis, u, norm, c, s, v, q);
  }

  lemma UnitAlong(axis: Vec, norm: real, c: real, s: real, q: Quat) returns (u: Vec)
    requires norm > 0.0 && norm * norm == Dot(axis, axis) && AxisAngleToQuat(axis, norm, c, s) == Some(q)
    ensures u.x * norm == axis.x && u.y * norm == axis.y && u.z * norm == axis.z
    ensures u.x * u.x + u.y * u.y + u.z * u.z == 1.0 && q == Quat(c, u.x * s, u.y * s, u.z * s)
  {
    u := Normalized(axis, norm);
    NormalizedIsUnit(axis, norm);
  }

  lemma PerpendicularX(axis: Vec, u: Vec, norm: real, c: real, s: real, v: Vec, q: Quat)
    requires u.x * norm == axis.x && u.y * norm == axis.y && u.z * norm == axis.z
    requires u.x * u.x + u.y * u.y + u.z * u.z == 1.0 && c * c + s * s == 1.0 && u.x * v.x + u.y * v.y + u.z * v.z == 0.0
    requires q == Quat(c, u.x * s, u.y * s, u.z * s)
    ensures norm * RotateVec(q, v).x == norm * (c * c - s * s) * v.x + 2.0 * c * s * (axis.y * v.z - axis.z * v.y)
  {
    TurnedAboutX(axis, u, norm, c, s, v, RotateVec(q, v).x);
  }

  lemma PerpendicularY(axis: Vec, u: Vec, norm: real, c: real, s: real, v: Vec, q: Quat)
    requires u.x * norm == axis.x && u.y * norm == axis.y && u.z * norm == axis.z
    requires u.x * u.x + u.y * u.y + u.z * u.z == 1.0 && c * c + s * s == 1.0 && u.x * v.x + u.y * v.y + u.z * v.z == 0.0
    requires q == Quat(c, u.x * s, u.y * s, u.z * s)
    ensures norm * RotateVec(q, v).y == norm * (c * c - s * s) * v.y + 2.0 * c * s * (axis.z * v.x - axis.x * v.z)
  {
    TurnedAboutY(axis, u, norm, c, s, v, RotateVec(q, v).y);
  }

  lemma PerpendicularZ(axis: Vec, u: Vec, norm: real, c: real, s: real, v: Vec, q: Quat)
    requires u.x * norm == axis.x && u.y * norm == axis.y && u.z * norm == axis.z
    requires u.x * u.x + u.y * u.y + u.z * u.z == 1.0 && c * c + s * s == 1.0 && u.x * v.x + u.y * v.y + u.z * v.z == 0.0
    requires q == Quat(c, u.x * s, u.y * s, u.z * s)
    ensures norm * RotateVec(q, v).z == norm * (c * c - s * s) * v.z + 2.0 * c * s * (axis.x * v.y - axis.y * v.x)
  {
    TurnedAboutZ(axis, u, norm, c, s, v, RotateVec(q, v).z);
  }

  lemma TurnedAboutX(axis: Vec, u: Vec, norm: real, c: real, s: real, v: Vec, r: real)
    requires u.x * norm == axis.x && u.y * norm == axis.y && u.z * norm == axis.z
    requires u.x * u.x + u.y * u.y + u.z * u.z == 1.0 && c * c + s * s == 1.0 && u.x * v.x + u.y * v.y + u.z * v.z == 0.0
    requires r == RowX(c, u.x * s, u.y * s, u.z * s, v.x, v.y, v.z)
    ensures norm * r == norm * (c * c - s * s) * v.x + 2.0 * c * s * (axis.y * v.z - axis.z * v.y)
  {
    TurnedEntry(u.x, u.y, u.z, c, s, v.x, v.y, v.z);
    ScaledBack(norm, c, s, u.y, u.z, v.x, axis.y, axis.z, v.y, v.z, r);
  }

  lemma TurnedAboutY(axis: Vec, u: Vec, norm: real, c: real, s: real, v: Vec, r: real)
    requires u.x * norm == axis.x && u.y * norm == axis.y && u.z * norm == axis.z
    requires u.x * u.x + u.y * u.y + u.z * u.z == 1.0 && c * c + s * s == 1.0 && u.x * v.x + u.y * v.y + u.z * v.z == 0.0
    requires r == RowY(c, u.x * s, u.y * s, u.z * s, v.x, v.y, v.z)
    ensures norm * r == norm * (c * c - s * s) * v.y + 2.0 * c * s * (axis.z * v.x - axis.x * v.z)
  {
    TurnedEntry(u.y, u.z, u.x, c, s, v.y, v.z, v.x);
    ScaledBack(norm, c, s, u.z, u.x, v.y, axis.z, axis.x, v.z, v.x, r);
  }

  lemma TurnedAboutZ(axis: Vec, u: Vec, norm: real, c: real, s: real, v: Vec, r: real)
    requires u.x * norm == axis.x && u.y * norm == axis.y && u.z * norm == axis.z
    requires u.x * u.x + u.y * u.y + u.z * u.z == 1.0 && c * c + s * s == 1.0 && u.x * v.x + u.y * v.y + u.z * v.z == 0.0
    requires r == RowZ(c, u.x * s, u.y * s, u.z * s, v.x, v.y, v.z)
    ensures norm * r == norm * (c * c - s * s) * v.z + 2.0 * c * s * (axis.x * v.y - axis.y * v.x)
  {
    TurnedEntry(u.z, u.x, u.y, c, s, v.z, v.x, v.y);
    ScaledBack(norm, c, s, u.x, u.y, v.z, axis.x, axis.y, v.x, v.y, r);
  }

  /** A location turns a point about the origin and then moves it; a vector it only turns. */
  lemma TurnsThenMoves(a: Location, p: Vec)
    ensures var r := RotateVec(a.q, p);
            a.TransformPoint(p) == Vec(r.x + a.t.x, r.y + a.t.y, r.z + a.t.z) && a.RotateVector(p) == r
  {}

  lemma OriginIsMoved(a: Location)
    ensures a.TransformPoint(ORIGIN) == a.t
  {
    RotationIsAdditive(a.q, ORIGIN, ORIGIN);
  }

  lemma TranslationMoves(t: Vec, p: Vec)
    ensures Location(ONE, t).TransformPoint(p) == Vec(p.x + t.x, p.y + t.y, p.z + t.z)
  {
    IdentityRotates(p);
  }

  /** How a location can come about without a CAD kernel. */
  datatype Built =
    | Identity
    | AxisAngle(t: Vec, axis: Vec, norm: real, cosHalf: real, sinHalf: real)
    | Times(a: Built, b: Built)
    | Undo(a: Built)

  predicate Constructible(b: Built) {
    match b
    case Identity => true
    case AxisAngle(t, axis, norm, c, s) =>
      norm > 0.0 && norm * norm == Dot(axis, axis) && c * c + s * s == 1.0
    case Times(x, y) => Constructible(x) && Constructible(y)
    case Undo(x) => Constructible(x)
  }

  function Build(b: Built): Location
    requires Constructible(b)
  {
    match b
    case Identity => IDENTITY
    case AxisAngle(t, axis, norm, c, s) =>
      AxisAngleIsUnit(axis, norm, c, s);
      Location(AxisAngleToQuat(axis, norm, c, s).value, t)
    case Times(x, y) => Build(x).Mul(Build(y))
    case Undo(x) => Build(x).Inverse()
  }

  /** Every location built by the constructors, products and inverses is rigid. */
  lemma {:induction false} BuiltIsRigid(b: Built)
    requires Constructible(b)
    ensures Build(b).Valid()
  {
    match b
    case Identity =>
    case AxisAngle(t, axis, norm, c, s) => AxisAngleIsUnit(axis, norm, c, s);
    case Times(x, y) =>
      BuiltIsRigid(x);
      BuiltIsRigid(y);
      NormIsMultiplicative(Build(x).q, Build(y).q);
    case Undo(x) =>
      BuiltIsRigid(x);
      ConjIsInverse(Build(x).q);
  }

  /** What each of the ways does to a point. */
  lemma BuiltActs(b: Built, p: Vec)
    requires Constructible(b)
    ensures match b
            case Identity => Build(b).TransformPoint(p) == p
            case AxisAngle(t, _, _, _, _) => Build(b).TransformPoint(ORIGIN) == t
            case Times(x, y) => Build(b).TransformPoint(p) == Build(x).TransformPoint(Build(y).TransformPoint(p))
            case Undo(x) => Build(b).TransformPoint(Build(x).TransformPoint(p)) == p
  {
    match b
    case Identity => IdentityRotates(p);
    case AxisAngle(_, _, _, _, _) => OriginIsMoved(Build(b));
    case Times(x, y) =>
      BuiltIsRigid(x);
      BuiltIsRigid(y);
      MulIsComposition(Build(x), Build(y), p);
    case Undo(x) =>
      BuiltIsRigid(x);
      InverseUndoes(Build(x));
      MulIsComposition(Build(x).Inverse(), Build(x), p);
      IdentityRotates(p);
  }

  /** (a * b) applies b first and then a. */
  lemma MulIsComposition(a: Location, b: Location, p: Vec)
    requires a.Valid() && b.Valid()
    ensures a.Mul(b).Valid()
    ensures a.Mul(b).TransformPoint(p) == a.TransformPoint(b.TransformPoint(p))
    ensures a.Mul(b).RotateVector(p) == a.RotateVector(b.RotateVector(p))
  {
    RotationsCompose(a.q, b.q, p);
    RotationIsAdditive(a.q, RotateVec(b.q, p), b.t);
  }

  lemma LocationsAssociate(a: Location, b: Location, c: Location)
    requires a.Valid() && b.Valid() && c.Valid()
    ensures a.Mul(b).Mul(c) == a.Mul(b.Mul(c))
  {
    MulAssociates(a.q, b.q, c.q);
    RotationsCompose(a.q, b.q, c.t);
    RotationIsAdditive(a.q, RotateVec(b.q, c.t), b.t);
  }

  lemma IdentityIsNeutral(a: Location)
    ensures IDENTITY.Valid() && a.Mul(IDENTITY) == a && IDENTITY.Mul(a) == a
  {
    OneIsNeutral(a.q);
    RotationIsAdditive(a.q, ORIGIN, ORIGIN);
    IdentityRotates(a.t);
  }

  lemma InverseUndoes(a: Location)
    requires a.Valid()
    ensures a.Inverse().Valid() && a.Mul(a.Inverse()) == IDENTITY && a.Inverse().Mul(a) == IDENTITY
  {
    ConjIsInverse(a.q);
    RotationUndone(a.q, a.t);
    RotationIsAdditive(a.q, ORIGIN, RotateVec(QuatConj(a.q), a.t));
  }

  /** A placement moves a rigid body: distances and handedness survive. */
  lemma TransformIsRigid(a: Location, p: Vec, r: Vec)
    requires a.Valid()
    ensures var d := Plus(p, Negate(r));
            var d' := Plus(a.TransformPoint(p), Negate(a.TransformPoint(r)));
            d' == a.RotateVector(d) && Dot(d', d') == Dot(d, d)
  {
    RotationIsAdditive(a.q, p, Negate(r));
    RotationIsAdditive(a.q, p, r);
    var d := Plus(p, Negate(r));
    RotationIsProper(a.q, d, d);
  }
}
