/**
  Paraxial ray transfer matrix ("ABCD") optics in one meridional plane.

  A ray is the column vector (height, angle); an optical element is a 2x2
  matrix acting on it. Free space of length d is [[1, d], [0, 1]] and a thin
  lens of focal length f is [[1, 0], [-1/f, 1]]. Elements compose by matrix
  product, the rightmost factor acting on the ray first.
 */
module RayOptics {

  /** A paraxial ray: its height above the optical axis and its angle to it. */
  datatype Ray = Ray(height: real, angle: real)

  /** A ray transfer matrix [[a, b], [c, d]]. */
  datatype Mat2 = Mat2(a: real, b: real, c: real, d: real)

  /** The ray that leaves element `m` when ray `r` enters it: the product m * r. */
  function Apply(m: Mat2, r: Ray): Ray {
    Ray(m.a * r.height + m.b * r.angle, m.c * r.height + m.d * r.angle)
  }

  /** Ray arithmetic, used to state that every element acts linearly. */
  function Add(r: Ray, s: Ray): Ray {
    Ray(r.height + s.height, r.angle + s.angle)
  }

  function Scale(k: real, r: Ray): Ray {
    Ray(k * r.height, k * r.angle)
  }

  /** The determinant of a transfer matrix. */
  function Det(m: Mat2): real {
    m.a * m.d - m.b * m.c
  }

  /** The element that passes every ray through unchanged. */
  function Identity(): Mat2 {
    Mat2(1.0, 0.0, 0.0, 1.0)
  }

  /** The element "n, then m": the matrix product m * n. */
  function Compose(m: Mat2, n: Mat2): Mat2 {
    Mat2(m.a * n.a + m.b * n.c, m.a * n.b + m.b * n.d,
         m.c * n.a + m.d * n.c, m.c * n.b + m.d * n.d)
  }

  /** Propagation over a distance d (any sign). */
  function FreeSpace(d: real): (m: Mat2)
    ensures Det(m) == 1.0
  {
    Mat2(1.0, d, 0.0, 1.0)
  }

  /** Refraction by a thin lens of focal length f; f = 0 has no finite matrix. */
  function ThinLens(f: real): (m: Mat2)
    requires f != 0.0
    ensures Det(m) == 1.0
  {
    Mat2(1.0, 0.0, -1.0 / f, 1.0)
  }

  // ----- how the elements act on a ray -----

  /** Free space moves the height by d * angle and leaves the angle alone. */
  lemma FreeSpaceApply(d: real, r: Ray)
    ensures Apply(FreeSpace(d), r) == Ray(r.height + d * r.angle, r.angle)
  {
  }

  /** A thin lens leaves the height alone and bends the angle by -height / f. */
  lemma ThinLensApply(f: real, r: Ray)
    requires f != 0.0
    ensures Apply(ThinLens(f), r) == Ray(r.height, r.angle - r.height / f)
  {
    assert (-1.0 / f) * r.height == -(r.height / f);
  }

  /** The composition law: the product acts as its factors do, the right one first. */
  lemma ComposeApply(m: Mat2, n: Mat2, r: Ray)
    ensures Apply(Compose(m, n), r) == Apply(m, Apply(n, r))
  {
    RowColumn(m.a, m.b, n.a, n.b, n.c, n.d, r.height, r.angle);
    RowColumn(m.c, m.d, n.a, n.b, n.c, n.d, r.height, r.angle);
  }

  /** One entry of the product of a row (x, y), a matrix [[a, b], [c, d]] and a column (u, v), bracketed both ways. */
  lemma RowColumn(x: real, y: real, a: real, b: real, c: real, d: real, u: real, v: real)
    ensures (x * a + y * c) * u + (x * b + y * d) * v == x * (a * u + b * v) + y * (c * u + d * v)
  {
    calc {
      (x * a + y * c) * u + (x * b + y * d) * v;
      x * a * u + y * c * u + x * b * v + y * d * v;
      x * (a * u) + x * (b * v) + y * (c * u) + y * (d * v);
      x * (a * u + b * v) + y * (c * u + d * v);
    }
  }

  // ----- the algebra of elements -----

  lemma FreeSpaceZeroIsIdentity()
    ensures FreeSpace(0.0) == Identity()
  {
  }

  /** Two stretches of free space in a row are one stretch of the summed length. */
  lemma FreeSpaceAdditive(x: real, y: real)
    ensures Compose(FreeSpace(x), FreeSpace(y)) == FreeSpace(x + y)
  {
  }

  /** Two elements that act alike on the unit height ray and the unit angle ray are the same element. */
  lemma ActionDeterminesMatrix(m: Mat2, n: Mat2)
    requires Apply(m, Ray(1.0, 0.0)) == Apply(n, Ray(1.0, 0.0))
    requires Apply(m, Ray(0.0, 1.0)) == Apply(n, Ray(0.0, 1.0))
    ensures m == n
  {
  }

  /** Composition is associative, so a chain of elements needs no parenthesisation. */
  lemma ComposeAssociative(m: Mat2, n: Mat2, p: Mat2)
    ensures Compose(Compose(m, n), p) == Compose(m, Compose(n, p))
  {
    var left, right := Compose(Compose(m, n), p), Compose(m, Compose(n, p));
    forall r: Ray ensures Apply(left, r) == Apply(right, r) {
      calc {
        Apply(left, r);
        { ComposeApply(Compose(m, n), p, r); }
        Apply(Compose(m, n), Apply(p, r));
        { ComposeApply(m, n, Apply(p, r)); }
        Apply(m, Apply(n, Apply(p, r)));
        { ComposeApply(n, p, r); }
        Apply(m, Apply(Compose(n, p), r));
        { ComposeApply(m, Compose(n, p), r); }
        Apply(right, r);
      }
    }
    ActionDeterminesMatrix(left, right);
  }

  /** Every element is a linear map of the ray. */
  lemma ApplyLinear(m: Mat2, k: real, r: Ray, s: Ray)
    ensures Apply(m, Add(Scale(k, r), s)) == Add(Scale(k, Apply(m, r)), Apply(m, s))
  {
  }
}
