/** Affine transforms of space: a matrix, by columns, and an offset. */
module Transforms {
  datatype Vec = Vec(x: real, y: real, z: real)

  datatype Matrix = Matrix(a: Vec, b: Vec, c: Vec)

  datatype Transform = Transform(m: Matrix, offset: Vec)

  const NO_VEC := Vec(0.0, 0.0, 0.0)
  const IDENTITY := Transform(Matrix(Vec(1.0, 0.0, 0.0), Vec(0.0, 1.0, 0.0), Vec(0.0, 0.0, 1.0)), NO_VEC)
  const ZERO := Transform(Matrix(NO_VEC, NO_VEC, NO_VEC), NO_VEC)

  function Add(u: Vec, v: Vec): Vec {
    Vec(u.x + v.x, u.y + v.y, u.z + v.z)
  }

  function Scale(k: real, v: Vec): Vec {
    Vec(k * v.x, k * v.y, k * v.z)
  }

  function Apply(m: Matrix, v: Vec): Vec {
    Add(Add(Scale(v.x, m.a), Scale(v.y, m.b)), Scale(v.z, m.c))
  }

  function MatMul(m: Matrix, n: Matrix): Matrix {
    Matrix(Apply(m, n.a), Apply(m, n.b), Apply(m, n.c))
  }

  /** First t, then s. */
  function Mul(s: Transform, t: Transform): Transform {
    Transform(MatMul(s.m, t.m), Add(Apply(s.m, t.offset), s.offset))
  }

  lemma AddLaws(u: Vec, v: Vec, w: Vec)
    ensures Add(Add(u, v), w) == Add(u, Add(v, w)) && Add(u, v) == Add(v, u)
    ensures Add(u, NO_VEC) == u && Add(NO_VEC, u) == u
  {
  }

  lemma ScaleAdds(k: real, u: Vec, v: Vec)
    ensures Scale(k, Add(u, v)) == Add(Scale(k, u), Scale(k, v))
  {
  }

  lemma ScaleSums(j: real, k: real, u: Vec)
    ensures Scale(j + k, u) == Add(Scale(j, u), Scale(k, u))
  {
  }

  lemma ScaleTwice(j: real, k: real, u: Vec)
    ensures Scale(j * k, u) == Scale(j, Scale(k, u))
  {
  }

  /** Sums of three can be added term by term. */
  lemma AddThree(a: Vec, b: Vec, c: Vec, d: Vec, e: Vec, f: Vec)
    ensures Add(Add(Add(a, b), c), Add(Add(d, e), f)) == Add(Add(Add(a, d), Add(b, e)), Add(c, f))
  {
  }

  lemma ApplyAdds(m: Matrix, u: Vec, v: Vec)
    ensures Apply(m, Add(u, v)) == Add(Apply(m, u), Apply(m, v))
  {
    hide Scale;
    ScaleSums(u.x, v.x, m.a);
    ScaleSums(u.y, v.y, m.b);
    ScaleSums(u.z, v.z, m.c);
    AddThree(Scale(u.x, m.a), Scale(u.y, m.b), Scale(u.z, m.c), Scale(v.x, m.a), Scale(v.y, m.b), Scale(v.z, m.c));
  }

  lemma ApplyOfScaled(m: Matrix, k: real, v: Vec)
    ensures Apply(m, Scale(k, v)) == Add(Add(Scale(k * v.x, m.a), Scale(k * v.y, m.b)), Scale(k * v.z, m.c))
  {
  }

  lemma ApplyScales(m: Matrix, k: real, v: Vec)
    ensures Apply(m, Scale(k, v)) == Scale(k, Apply(m, v))
  {
    hide Scale, Add;
    ApplyOfScaled(m, k, v);
    ScaleTwice(k, v.x, m.a);
    ScaleTwice(k, v.y, m.b);
    ScaleTwice(k, v.z, m.c);
    var p, q, r := Scale(v.x, m.a), Scale(v.y, m.b), Scale(v.z, m.c);
    ScaleAdds(k, Add(p, q), r);
    ScaleAdds(k, p, q);
  }

  lemma ApplyMatMul(m: Matrix, n: Matrix, v: Vec)
    ensures Apply(MatMul(m, n), v) == Apply(m, Apply(n, v))
  {
    hide Scale, Add;
    var p, q, r := Scale(v.x, n.a), Scale(v.y, n.b), Scale(v.z, n.c);
    ApplyAdds(m, Add(p, q), r);
    ApplyAdds(m, p, q);
    ApplyScales(m, v.x, n.a);
    ApplyScales(m, v.y, n.b);
    ApplyScales(m, v.z, n.c);
  }

  lemma MatMulAssociates(l: Matrix, m: Matrix, n: Matrix)
    ensures MatMul(MatMul(l, m), n) == MatMul(l, MatMul(m, n))
  {
    ApplyMatMul(l, m, n.a);
    ApplyMatMul(l, m, n.b);
    ApplyMatMul(l, m, n.c);
    hide Apply;
  }

  /** Composition of transforms is associative. */
  lemma MulAssociates(r: Transform, s: Transform, t: Transform)
    ensures Mul(Mul(r, s), t) == Mul(r, Mul(s, t))
  {
    MatMulAssociates(r.m, s.m, t.m);
    ApplyMatMul(r.m, s.m, t.offset);
    ApplyAdds(r.m, Apply(s.m, t.offset), s.offset);
    AddLaws(Apply(r.m, Apply(s.m, t.offset)), Apply(r.m, s.offset), r.offset);
    hide Apply, Add, MatMul;
  }

  lemma ApplyUnits(m: Matrix, v: Vec)
    ensures Apply(IDENTITY.m, v) == v
    ensures Apply(m, IDENTITY.m.a) == m.a && Apply(m, IDENTITY.m.b) == m.b && Apply(m, IDENTITY.m.c) == m.c
    ensures Apply(m, NO_VEC) == NO_VEC
  {
  }

  lemma IdentityIsNeutral(t: Transform)
    ensures Mul(IDENTITY, t) == t && Mul(t, IDENTITY) == t
  {
    ApplyUnits(t.m, t.offset);
    ApplyUnits(t.m, t.m.a);
    ApplyUnits(t.m, t.m.b);
    ApplyUnits(t.m, t.m.c);
    AddLaws(t.offset, t.offset, t.offset);
    hide Apply, Add;
  }

  /** Without a matrix on the left, the right operand is lost. */
  lemma NoMatrixMul(s: Transform, t: Transform)
    requires s.m == ZERO.m
    ensures Mul(s, t) == s
  {
  }

  lemma MulOfNoMatrix(s: Transform, t: Transform)
    requires t.m == ZERO.m
    ensures Mul(s, t).m == ZERO.m
  {
    ApplyUnits(s.m, NO_VEC);
    hide Apply;
  }

  /** The transform of a point. */
  function Moved(t: Transform, p: Vec): Vec {
    Add(Apply(t.m, p), t.offset)
  }

  /** A product applies its right operand first. */
  lemma MulIsComposition(s: Transform, t: Transform, p: Vec)
    ensures Moved(Mul(s, t), p) == Moved(s, Moved(t, p))
  {
    ApplyMatMul(s.m, t.m, p);
    ApplyAdds(s.m, Apply(t.m, p), t.offset);
    AddLaws(Apply(s.m, Apply(t.m, p)), Apply(s.m, t.offset), s.offset);
    hide Apply, Add, MatMul;
  }
}
