/** Two-component states and 2x2 matrices: the small part of linear algebra
    that the matrix method takes from numpy (`np.array`, `np.dot`). */
module Linear {

  /** A pair of concentrations: iodine-135 and xenon-135. */
  datatype State = State(i: real, xe: real)

  /** The matrix [[a, b], [c, d]]. */
  datatype Mat2 = Mat2(a: real, b: real, c: real, d: real)

  const Zero: State := State(0.0, 0.0)

  const Identity: Mat2 := Mat2(1.0, 0.0, 0.0, 1.0)

  function Add(u: State, v: State): State {
    State(u.i + v.i, u.xe + v.xe)
  }

  function Scale(k: real, v: State): State {
    State(k * v.i, k * v.xe)
  }

  /** The matrix-vector product m·v. */
  function Apply(m: Mat2, v: State): State {
    State(m.a * v.i + m.b * v.xe, m.c * v.i + m.d * v.xe)
  }

  /** The matrix product m·n. */
  function Mul(m: Mat2, n: Mat2): Mat2 {
    Mat2(m.a * n.a + m.b * n.c, m.a * n.b + m.b * n.d,
         m.c * n.a + m.d * n.c, m.c * n.b + m.d * n.d)
  }

  function MatAdd(m: Mat2, n: Mat2): Mat2 {
    Mat2(m.a + n.a, m.b + n.b, m.c + n.c, m.d + n.d)
  }

  function MatScale(k: real, m: Mat2): Mat2 {
    Mat2(k * m.a, k * m.b, k * m.c, k * m.d)
  }

  /** m^k, built by multiplying by m on the left. */
  function Pow(m: Mat2, k: nat): Mat2 {
    if k == 0 then Identity else Mul(m, Pow(m, k - 1))
  }

  /** The degree-4 Taylor polynomial of the matrix exponential,
      I + X + X^2/2 + X^3/6 + X^4/24. */
  function Taylor4(x: Mat2): Mat2 {
    MatAdd(MatAdd(MatAdd(MatAdd(Identity, x),
                         MatScale(1.0 / 2.0, Pow(x, 2))),
                  MatScale(1.0 / 6.0, Pow(x, 3))),
           MatScale(1.0 / 24.0, Pow(x, 4)))
  }

  /** A state as the Python list [I, Xe]. */
  function ToSeq(v: State): (r: seq<real>)
    ensures |r| == 2 && r[0] == v.i && r[1] == v.xe
  {
    [v.i, v.xe]
  }

  /** Multiplication by a matrix is linear. */
  lemma ApplyLinear(m: Mat2, u: State, k: real, v: State)
    ensures Apply(m, Add(u, Scale(k, v))) == Add(Apply(m, u), Scale(k, Apply(m, v)))
  {
  }

  /** Multiplication by a matrix commutes with scaling. */
  lemma ApplyScale(m: Mat2, k: real, v: State)
    ensures Apply(m, Scale(k, v)) == Scale(k, Apply(m, v))
  {
  }

  /** Multiplying by a scaled matrix scales the image. */
  lemma ApplyMatScale(k: real, m: Mat2, v: State)
    ensures Apply(MatScale(k, m), v) == Scale(k, Apply(m, v))
  {
  }

  /** Multiplying by a product is multiplying by each factor in turn. */
  lemma ApplyMul(m: Mat2, n: Mat2, v: State)
    ensures Apply(Mul(m, n), v) == Apply(m, Apply(n, v))
  {
  }

  /** A power of m commutes with m itself when applied to a state. */
  lemma {:induction false} ApplyPowShift(m: Mat2, k: nat, v: State)
    ensures Apply(Pow(m, k), Apply(m, v)) == Apply(m, Apply(Pow(m, k), v))
  {
    if k == 0 {
      assert Apply(Identity, Apply(m, v)) == Apply(m, v);
      assert Apply(Identity, v) == v;
    } else {
      calc {
        Apply(Pow(m, k), Apply(m, v));
        { ApplyMul(m, Pow(m, k - 1), Apply(m, v)); }
        Apply(m, Apply(Pow(m, k - 1), Apply(m, v)));
        { ApplyPowShift(m, k - 1, v); }
        Apply(m, Apply(m, Apply(Pow(m, k - 1), v)));
        { ApplyMul(m, Pow(m, k - 1), v); }
        Apply(m, Apply(Pow(m, k), v));
      }
    }
  }

  /** Applying the Taylor polynomial of x sums the iterated images of v
      with the coefficients 1, 1, 1/2, 1/6, 1/24. */
  lemma ApplyTaylor4(x: Mat2, v: State)
    ensures var w1 := Apply(x, v);
            var w2 := Apply(x, w1);
            var w3 := Apply(x, w2);
            var w4 := Apply(x, w3);
            Apply(Taylor4(x), v) ==
              State(v.i + w1.i + w2.i / 2.0 + w3.i / 6.0 + w4.i / 24.0,
                    v.xe + w1.xe + w2.xe / 2.0 + w3.xe / 6.0 + w4.xe / 24.0)
  {
    var w1 := Apply(x, v);
    var w2 := Apply(x, w1);
    var w3 := Apply(x, w2);
    var w4 := Apply(x, w3);
    assert Apply(Identity, v) == v;
    assert Pow(x, 1) == Mul(x, Identity);
    ApplyMul(x, Identity, v);
    assert Apply(Pow(x, 1), v) == w1;
    ApplyMul(x, Pow(x, 1), v);
    assert Apply(Pow(x, 2), v) == w2;
    ApplyMul(x, Pow(x, 2), v);
    assert Apply(Pow(x, 3), v) == w3;
    ApplyMul(x, Pow(x, 3), v);
    assert Apply(Pow(x, 4), v) == w4;
    var p2 := Pow(x, 2);
    var p3 := Pow(x, 3);
    var p4 := Pow(x, 4);
    var t := Taylor4(x);
    assert t.a == 1.0 + x.a + p2.a / 2.0 + p3.a / 6.0 + p4.a / 24.0;
    assert t.b == 0.0 + x.b + p2.b / 2.0 + p3.b / 6.0 + p4.b / 24.0;
    assert t.c == 0.0 + x.c + p2.c / 2.0 + p3.c / 6.0 + p4.c / 24.0;
    assert t.d == 1.0 + x.d + p2.d / 2.0 + p3.d / 6.0 + p4.d / 24.0;
  }
}
