/** The 4x4 homogeneous transform of the `ogl` core (`ogl::matrix` in mylib.cpp) and its
    named builders. `Mat4` is the value of a matrix's cell grid; class `Matrix` owns the
    grid as a 4x4 array that its methods fill in place, as the source's loops do. */
module Matrices {
  import opened Vectors

  /** A 4x4 grid of cells (`ogl::matrix4`), indexed [row][column]. */
  type Mat4 = g: seq<seq<real>> | |g| == 4 && forall i :: 0 <= i < 4 ==> |g[i]| == 4
    witness [[1.0, 0.0, 0.0, 0.0], [0.0, 1.0, 0.0, 0.0], [0.0, 0.0, 1.0, 0.0], [0.0, 0.0, 0.0, 1.0]]

  /** The grid `matrix::set_identity` writes. */
  function Identity(): Mat4
  {
    [[1.0, 0.0, 0.0, 0.0],
     [0.0, 1.0, 0.0, 0.0],
     [0.0, 0.0, 1.0, 0.0],
     [0.0, 0.0, 0.0, 1.0]]
  }

  /** `g` with cell (i, j) overwritten by `v`, as the builders do after `set_identity`. */
  function Overwrite(g: Mat4, i: nat, j: nat, v: real): (r: Mat4)
    requires i < 4 && j < 4
  {
    g[i := g[i][j := v]]
  }

  // ---------------------------------------------------------------------------
  // Matrix product

  /** a[i][0]*b[0][j] + ... + a[i][n-1]*b[n-1][j], summed from 0.0 in the order of the
      innermost loop of `matrix::operator*(const matrix&)`. */
  function PartialRowCol(a: Mat4, b: Mat4, i: nat, j: nat, n: nat): real
    requires i < 4 && j < 4 && n <= 4
  {
    if n == 0 then 0.0 else PartialRowCol(a, b, i, j, n - 1) + a[i][n - 1] * b[n - 1][j]
  }

  /** One more step of the innermost loop of the product. */
  lemma PartialRowColStep(a: Mat4, b: Mat4, i: nat, j: nat, k: nat, acc: real, x: real, y: real)
    requires i < 4 && j < 4 && k < 4
    requires acc == PartialRowCol(a, b, i, j, k) && x == a[i][k] && y == b[k][j]
    ensures acc + x * y == PartialRowCol(a, b, i, j, k + 1)
  {
  }

  /** The row-by-column product `a * b`. */
  function Product(a: Mat4, b: Mat4): Mat4
  {
    seq(4, i requires 0 <= i < 4 => seq(4, j requires 0 <= j < 4 => PartialRowCol(a, b, i, j, 4)))
  }

  /** Entry (i, j) of the product is the sum over k of a[i][k] * b[k][j]. */
  lemma ProductAt(a: Mat4, b: Mat4, i: nat, j: nat)
    requires i < 4 && j < 4
    ensures Product(a, b)[i][j]
         == a[i][0] * b[0][j] + a[i][1] * b[1][j] + a[i][2] * b[2][j] + a[i][3] * b[3][j]
  {
    calc {
      Product(a, b)[i][j];
      PartialRowCol(a, b, i, j, 4);
      PartialRowCol(a, b, i, j, 3) + a[i][3] * b[3][j];
      PartialRowCol(a, b, i, j, 2) + a[i][2] * b[2][j] + a[i][3] * b[3][j];
      PartialRowCol(a, b, i, j, 1) + a[i][1] * b[1][j] + a[i][2] * b[2][j] + a[i][3] * b[3][j];
      a[i][0] * b[0][j] + a[i][1] * b[1][j] + a[i][2] * b[2][j] + a[i][3] * b[3][j];
    }
  }

  /** Two grids with equal cells are equal. */
  lemma GridEq(g: Mat4, h: Mat4)
    requires forall i, j :: 0 <= i < 4 && 0 <= j < 4 ==> g[i][j] == h[i][j]
    ensures g == h
  {
    forall i | 0 <= i < 4
      ensures g[i] == h[i]
    {
    }
  }

  /** The identity is a left unit of the product. */
  lemma ProductIdentityLeft(a: Mat4)
    ensures Product(Identity(), a) == a
  {
    forall i, j | 0 <= i < 4 && 0 <= j < 4
      ensures Product(Identity(), a)[i][j] == a[i][j]
    {
      ProductAt(Identity(), a, i, j);
    }
    GridEq(Product(Identity(), a), a);
  }

  /** The identity is a right unit of the product. */
  lemma ProductIdentityRight(a: Mat4)
    ensures Product(a, Identity()) == a
  {
    forall i, j | 0 <= i < 4 && 0 <= j < 4
      ensures Product(a, Identity())[i][j] == a[i][j]
    {
      ProductAt(a, Identity(), i, j);
    }
    GridEq(Product(a, Identity()), a);
  }

  /** Row `r` times the product of `b` and `c` is row `r` times `b`, times `c`:
      one entry of the associativity law, written on plain reals. */
  lemma RowAssociative(r0: real, r1: real, r2: real, r3: real, b: Mat4, c0: real, c1: real, c2: real, c3: real)
    ensures (r0 * b[0][0] + r1 * b[1][0] + r2 * b[2][0] + r3 * b[3][0]) * c0
          + (r0 * b[0][1] + r1 * b[1][1] + r2 * b[2][1] + r3 * b[3][1]) * c1
          + (r0 * b[0][2] + r1 * b[1][2] + r2 * b[2][2] + r3 * b[3][2]) * c2
          + (r0 * b[0][3] + r1 * b[1][3] + r2 * b[2][3] + r3 * b[3][3]) * c3
         == r0 * (b[0][0] * c0 + b[0][1] * c1 + b[0][2] * c2 + b[0][3] * c3)
          + r1 * (b[1][0] * c0 + b[1][1] * c1 + b[1][2] * c2 + b[1][3] * c3)
          + r2 * (b[2][0] * c0 + b[2][1] * c1 + b[2][2] * c2 + b[2][3] * c3)
          + r3 * (b[3][0] * c0 + b[3][1] * c1 + b[3][2] * c2 + b[3][3] * c3)
  {
  }

  /** Replacing the left factors of a four-term sum of products by equal values. */
  lemma SubstLeft(x0: real, x1: real, x2: real, x3: real, y0: real, y1: real, y2: real, y3: real,
                  c0: real, c1: real, c2: real, c3: real)
    requires x0 == y0 && x1 == y1 && x2 == y2 && x3 == y3
    ensures x0 * c0 + x1 * c1 + x2 * c2 + x3 * c3 == y0 * c0 + y1 * c1 + y2 * c2 + y3 * c3
  {
  }

  /** Replacing the right factors of a four-term sum of products by equal values. */
  lemma SubstRight(c0: real, c1: real, c2: real, c3: real, x0: real, x1: real, x2: real, x3: real,
                   y0: real, y1: real, y2: real, y3: real)
    requires x0 == y0 && x1 == y1 && x2 == y2 && x3 == y3
    ensures c0 * x0 + c1 * x1 + c2 * x2 + c3 * x3 == c0 * y0 + c1 * y1 + c2 * y2 + c3 * y3
  {
  }

  /** Entry (i, j) of (a * b) * c, written out over the cells of a, b and c. */
  lemma ProductLeftExpand(a: Mat4, b: Mat4, c: Mat4, i: nat, j: nat)
    requires i < 4 && j < 4
    ensures Product(Product(a, b), c)[i][j]
         == (a[i][0] * b[0][0] + a[i][1] * b[1][0] + a[i][2] * b[2][0] + a[i][3] * b[3][0]) * c[0][j]
         + (a[i][0] * b[0][1] + a[i][1] * b[1][1] + a[i][2] * b[2][1] + a[i][3] * b[3][1]) * c[1][j]
         + (a[i][0] * b[0][2] + a[i][1] * b[1][2] + a[i][2] * b[2][2] + a[i][3] * b[3][2]) * c[2][j]
         + (a[i][0] * b[0][3] + a[i][1] * b[1][3] + a[i][2] * b[2][3] + a[i][3] * b[3][3]) * c[3][j]
  {
    var ab := Product(a, b);
    ProductAt(ab, c, i, j);
    ProductAt(a, b, i, 0);
    ProductAt(a, b, i, 1);
    ProductAt(a, b, i, 2);
    ProductAt(a, b, i, 3);
    SubstLeft(ab[i][0], ab[i][1], ab[i][2], ab[i][3], (a[i][0] * b[0][0] + a[i][1] * b[1][0] + a[i][2] * b[2][0] + a[i][3] * b[3][0]), (a[i][0] * b[0][1] + a[i][1] * b[1][1] + a[i][2] * b[2][1] + a[i][3] * b[3][1]), (a[i][0] * b[0][2] + a[i][1] * b[1][2] + a[i][2] * b[2][2] + a[i][3] * b[3][2]), (a[i][0] * b[0][3] + a[i][1] * b[1][3] + a[i][2] * b[2][3] + a[i][3] * b[3][3]),
              c[0][j], c[1][j], c[2][j], c[3][j]);
  }

  /** Entry (i, j) of a * (b * c), written out over the cells of a, b and c. */
  lemma ProductRightExpand(a: Mat4, b: Mat4, c: Mat4, i: nat, j: nat)
    requires i < 4 && j < 4
    ensures Product(a, Product(b, c))[i][j]
         == a[i][0] * (b[0][0] * c[0][j] + b[0][1] * c[1][j] + b[0][2] * c[2][j] + b[0][3] * c[3][j])
         + a[i][1] * (b[1][0] * c[0][j] + b[1][1] * c[1][j] + b[1][2] * c[2][j] + b[1][3] * c[3][j])
         + a[i][2] * (b[2][0] * c[0][j] + b[2][1] * c[1][j] + b[2][2] * c[2][j] + b[2][3] * c[3][j])
         + a[i][3] * (b[3][0] * c[0][j] + b[3][1] * c[1][j] + b[3][2] * c[2][j] + b[3][3] * c[3][j])
  {
    var bc := Product(b, c);
    ProductAt(a, bc, i, j);
    ProductAt(b, c, 0, j);
    ProductAt(b, c, 1, j);
    ProductAt(b, c, 2, j);
    ProductAt(b, c, 3, j);
    SubstRight(a[i][0], a[i][1], a[i][2], a[i][3], (b[0][0] * c[0][j] + b[0][1] * c[1][j] + b[0][2] * c[2][j] + b[0][3] * c[3][j]), (b[1][0] * c[0][j] + b[1][1] * c[1][j] + b[1][2] * c[2][j] + b[1][3] * c[3][j]), (b[2][0] * c[0][j] + b[2][1] * c[1][j] + b[2][2] * c[2][j] + b[2][3] * c[3][j]), (b[3][0] * c[0][j] + b[3][1] * c[1][j] + b[3][2] * c[2][j] + b[3][3] * c[3][j]),
               bc[0][j], bc[1][j], bc[2][j], bc[3][j]);
  }

  /** One entry of the associativity law. */
  lemma ProductAssociativeAt(a: Mat4, b: Mat4, c: Mat4, i: nat, j: nat)
    requires i < 4 && j < 4
    ensures Product(Product(a, b), c)[i][j] == Product(a, Product(b, c))[i][j]
  {
    calc {
      Product(Product(a, b), c)[i][j];
      { ProductLeftExpand(a, b, c, i, j); }
      (a[i][0] * b[0][0] + a[i][1] * b[1][0] + a[i][2] * b[2][0] + a[i][3] * b[3][0]) * c[0][j]
         + (a[i][0] * b[0][1] + a[i][1] * b[1][1] + a[i][2] * b[2][1] + a[i][3] * b[3][1]) * c[1][j]
         + (a[i][0] * b[0][2] + a[i][1] * b[1][2] + a[i][2] * b[2][2] + a[i][3] * b[3][2]) * c[2][j]
         + (a[i][0] * b[0][3] + a[i][1] * b[1][3] + a[i][2] * b[2][3] + a[i][3] * b[3][3]) * c[3][j];
      { RowAssociative(a[i][0], a[i][1], a[i][2], a[i][3], b, c[0][j], c[1][j], c[2][j], c[3][j]); }
      a[i][0] * (b[0][0] * c[0][j] + b[0][1] * c[1][j] + b[0][2] * c[2][j] + b[0][3] * c[3][j])
         + a[i][1] * (b[1][0] * c[0][j] + b[1][1] * c[1][j] + b[1][2] * c[2][j] + b[1][3] * c[3][j])
         + a[i][2] * (b[2][0] * c[0][j] + b[2][1] * c[1][j] + b[2][2] * c[2][j] + b[2][3] * c[3][j])
         + a[i][3] * (b[3][0] * c[0][j] + b[3][1] * c[1][j] + b[3][2] * c[2][j] + b[3][3] * c[3][j]);
      { ProductRightExpand(a, b, c, i, j); }
      Product(a, Product(b, c))[i][j];
    }
  }

  /** The product is associative. */
  lemma ProductAssociative(a: Mat4, b: Mat4, c: Mat4)
    ensures Product(Product(a, b), c) == Product(a, Product(b, c))
  {
    forall i, j | 0 <= i < 4 && 0 <= j < 4
      ensures Product(Product(a, b), c)[i][j] == Product(a, Product(b, c))[i][j]
    {
      ProductAssociativeAt(a, b, c, i, j);
    }
    GridEq(Product(Product(a, b), c), Product(a, Product(b, c)));
  }

  // ---------------------------------------------------------------------------
  // Transpose

  /** The grid `matrix::transpose` returns: result[i][j] == g[j][i]. */
  function Transposed(g: Mat4): Mat4
  {
    seq(4, i requires 0 <= i < 4 => seq(4, j requires 0 <= j < 4 => g[j][i]))
  }

  /** Transposing twice gives back the original grid. */
  lemma TransposeInvolution(g: Mat4)
    ensures Transposed(Transposed(g)) == g
  {
    GridEq(Transposed(Transposed(g)), g);
  }

  /** Transposition reverses a product. */
  lemma TransposeProduct(a: Mat4, b: Mat4)
    ensures Transposed(Product(a, b)) == Product(Transposed(b), Transposed(a))
  {
    forall i, j | 0 <= i < 4 && 0 <= j < 4
      ensures Transposed(Product(a, b))[i][j] == Product(Transposed(b), Transposed(a))[i][j]
    {
      ProductAt(a, b, j, i);
      ProductAt(Transposed(b), Transposed(a), i, j);
    }
    GridEq(Transposed(Product(a, b)), Product(Transposed(b), Transposed(a)));
  }

  // ---------------------------------------------------------------------------
  // Application to a point

  /** The point promoted to homogeneous coordinates, w = 1. */
  function Homogeneous(p: Point): seq<real>
  {
    [p.x, p.y, p.z, 1.0]
  }

  /** g[i][0]*h[0] + ... + g[i][n-1]*h[n-1], summed from 0.0 in the order of the inner
      loop of `matrix::operator*(const point&)`. */
  function PartialRowDot(g: Mat4, h: seq<real>, i: nat, n: nat): real
    requires |h| == 4 && i < 4 && n <= 4
  {
    if n == 0 then 0.0 else PartialRowDot(g, h, i, n - 1) + g[i][n - 1] * h[n - 1]
  }

  /** One more step of the inner loop of the point application. */
  lemma PartialRowDotStep(g: Mat4, h: seq<real>, i: nat, j: nat, acc: real, x: real, y: real)
    requires |h| == 4 && i < 4 && j < 4
    requires acc == PartialRowDot(g, h, i, j) && x == g[i][j] && y == h[j]
    ensures acc + x * y == PartialRowDot(g, h, i, j + 1)
  {
  }

  /** Component i of g applied to the homogeneous point (p, 1). */
  function HomRow(g: Mat4, p: Point, i: nat): real
    requires i < 4
  {
    PartialRowDot(g, Homogeneous(p), i, 4)
  }

  /** `matrix::operator*(const point&)`: multiply (p, 1) by g, then multiply x, y, z by
      1/w when the resulting w is non-zero, and by 1 when it is zero. */
  function Transform(g: Mat4, p: Point): Point
  {
    var w := HomRow(g, p, 3);
    var wInv := if w != 0.0 then 1.0 / w else 1.0;
    Point(HomRow(g, p, 0) * wInv, HomRow(g, p, 1) * wInv, HomRow(g, p, 2) * wInv)
  }

  lemma HomRowAt(g: Mat4, p: Point, i: nat)
    requires i < 4
    ensures HomRow(g, p, i) == g[i][0] * p.x + g[i][1] * p.y + g[i][2] * p.z + g[i][3]
  {
    var h := Homogeneous(p);
    calc {
      HomRow(g, p, i);
      PartialRowDot(g, h, i, 4);
      PartialRowDot(g, h, i, 3) + g[i][3] * 1.0;
      PartialRowDot(g, h, i, 2) + g[i][2] * p.z + g[i][3] * 1.0;
      PartialRowDot(g, h, i, 1) + g[i][1] * p.y + g[i][2] * p.z + g[i][3] * 1.0;
      g[i][0] * p.x + g[i][1] * p.y + g[i][2] * p.z + g[i][3];
    }
  }

  /** The last row is (0, 0, 0, 1): the matrix is affine. */
  predicate IsAffine(g: Mat4)
  {
    g[3] == [0.0, 0.0, 0.0, 1.0]
  }

  /** An affine matrix leaves w at 1, so the point is never divided: it is mapped to the
      first three rows of g applied to (p, 1). */
  lemma TransformAffine(g: Mat4, p: Point)
    requires IsAffine(g)
    ensures HomRow(g, p, 3) == 1.0
    ensures Transform(g, p) == Point(g[0][0] * p.x + g[0][1] * p.y + g[0][2] * p.z + g[0][3],
                                     g[1][0] * p.x + g[1][1] * p.y + g[1][2] * p.z + g[1][3],
                                     g[2][0] * p.x + g[2][1] * p.y + g[2][2] * p.z + g[2][3])
  {
    HomRowAt(g, p, 0);
    HomRowAt(g, p, 1);
    HomRowAt(g, p, 2);
    HomRowAt(g, p, 3);
  }

  /** The identity maps every point to itself. */
  lemma TransformIdentity(p: Point)
    ensures Transform(Identity(), p) == p
  {
    TransformAffine(Identity(), p);
  }

  /** The product of two affine matrices is affine. */
  lemma ProductAffine(a: Mat4, b: Mat4)
    requires IsAffine(a) && IsAffine(b)
    ensures IsAffine(Product(a, b))
  {
    ProductAt(a, b, 3, 0);
    ProductAt(a, b, 3, 1);
    ProductAt(a, b, 3, 2);
    ProductAt(a, b, 3, 3);
  }

  /** Row i of a * b applied to (p, 1), written out over the cells of a and b. */
  lemma HomRowProductExpand(a: Mat4, b: Mat4, p: Point, i: nat)
    requires i < 4
    ensures HomRow(Product(a, b), p, i)
         == (a[i][0] * b[0][0] + a[i][1] * b[1][0] + a[i][2] * b[2][0] + a[i][3] * b[3][0]) * p.x
         + (a[i][0] * b[0][1] + a[i][1] * b[1][1] + a[i][2] * b[2][1] + a[i][3] * b[3][1]) * p.y
         + (a[i][0] * b[0][2] + a[i][1] * b[1][2] + a[i][2] * b[2][2] + a[i][3] * b[3][2]) * p.z
         + (a[i][0] * b[0][3] + a[i][1] * b[1][3] + a[i][2] * b[2][3] + a[i][3] * b[3][3]) * 1.0
  {
    var ab := Product(a, b);
    HomRowAt(ab, p, i);
    ProductAt(a, b, i, 0);
    ProductAt(a, b, i, 1);
    ProductAt(a, b, i, 2);
    ProductAt(a, b, i, 3);
    SubstLeft(ab[i][0], ab[i][1], ab[i][2], ab[i][3], (a[i][0] * b[0][0] + a[i][1] * b[1][0] + a[i][2] * b[2][0] + a[i][3] * b[3][0]), (a[i][0] * b[0][1] + a[i][1] * b[1][1] + a[i][2] * b[2][1] + a[i][3] * b[3][1]), (a[i][0] * b[0][2] + a[i][1] * b[1][2] + a[i][2] * b[2][2] + a[i][3] * b[3][2]), (a[i][0] * b[0][3] + a[i][1] * b[1][3] + a[i][2] * b[2][3] + a[i][3] * b[3][3]),
              p.x, p.y, p.z, 1.0);
  }

  /** Row i of a applied to the image of p under affine b, written out over the cells of
      a and b. */
  lemma HomRowAffineExpand(a: Mat4, b: Mat4, p: Point, i: nat)
    requires i < 4 && IsAffine(b)
    ensures HomRow(a, Transform(b, p), i)
         == a[i][0] * (b[0][0] * p.x + b[0][1] * p.y + b[0][2] * p.z + b[0][3] * 1.0)
         + a[i][1] * (b[1][0] * p.x + b[1][1] * p.y + b[1][2] * p.z + b[1][3] * 1.0)
         + a[i][2] * (b[2][0] * p.x + b[2][1] * p.y + b[2][2] * p.z + b[2][3] * 1.0)
         + a[i][3] * (b[3][0] * p.x + b[3][1] * p.y + b[3][2] * p.z + b[3][3] * 1.0)
  {
    var q := Transform(b, p);
    TransformAffine(b, p);
    HomRowAt(a, q, i);
    SubstRight(a[i][0], a[i][1], a[i][2], a[i][3], q.x, q.y, q.z, 1.0, (b[0][0] * p.x + b[0][1] * p.y + b[0][2] * p.z + b[0][3] * 1.0), (b[1][0] * p.x + b[1][1] * p.y + b[1][2] * p.z + b[1][3] * 1.0), (b[2][0] * p.x + b[2][1] * p.y + b[2][2] * p.z + b[2][3] * 1.0), (b[3][0] * p.x + b[3][1] * p.y + b[3][2] * p.z + b[3][3] * 1.0));
  }

  /** Applying `a * b` is applying `b` first, then `a`, whenever `b` is affine. */
  lemma TransformProduct(a: Mat4, b: Mat4, p: Point)
    requires IsAffine(b)
    ensures Transform(Product(a, b), p) == Transform(a, Transform(b, p))
  {
    forall i | 0 <= i < 4
      ensures HomRow(Product(a, b), p, i) == HomRow(a, Transform(b, p), i)
    {
      calc {
        HomRow(Product(a, b), p, i);
        { HomRowProductExpand(a, b, p, i); }
        (a[i][0] * b[0][0] + a[i][1] * b[1][0] + a[i][2] * b[2][0] + a[i][3] * b[3][0]) * p.x
         + (a[i][0] * b[0][1] + a[i][1] * b[1][1] + a[i][2] * b[2][1] + a[i][3] * b[3][1]) * p.y
         + (a[i][0] * b[0][2] + a[i][1] * b[1][2] + a[i][2] * b[2][2] + a[i][3] * b[3][2]) * p.z
         + (a[i][0] * b[0][3] + a[i][1] * b[1][3] + a[i][2] * b[2][3] + a[i][3] * b[3][3]) * 1.0;
        { RowAssociative(a[i][0], a[i][1], a[i][2], a[i][3], b, p.x, p.y, p.z, 1.0); }
        a[i][0] * (b[0][0] * p.x + b[0][1] * p.y + b[0][2] * p.z + b[0][3] * 1.0)
         + a[i][1] * (b[1][0] * p.x + b[1][1] * p.y + b[1][2] * p.z + b[1][3] * 1.0)
         + a[i][2] * (b[2][0] * p.x + b[2][1] * p.y + b[2][2] * p.z + b[2][3] * 1.0)
         + a[i][3] * (b[3][0] * p.x + b[3][1] * p.y + b[3][2] * p.z + b[3][3] * 1.0);
        { HomRowAffineExpand(a, b, p, i); }
        HomRow(a, Transform(b, p), i);
      }
    }
  }

  // ---------------------------------------------------------------------------
  // Named builders: the identity with some cells overwritten

  /** `ogl::scale(sx, sy, sz)`: the diagonal cells (0,0), (1,1), (2,2). */
  function ScaleGrid(sx: real, sy: real, sz: real): Mat4
  {
    Overwrite(Overwrite(Overwrite(Identity(), 0, 0, sx), 1, 1, sy), 2, 2, sz)
  }

  /** `ogl::rotate_x(angle)`, given c = cos(angle) and s = sin(angle). */
  function RotateXGrid(c: real, s: real): Mat4
  {
    Overwrite(Overwrite(Overwrite(Overwrite(Identity(), 1, 1, c), 1, 2, -s), 2, 1, s), 2, 2, c)
  }

  /** `ogl::rotate_y(angle)`, given c = cos(angle) and s = sin(angle). */
  function RotateYGrid(c: real, s: real): Mat4
  {
    Overwrite(Overwrite(Overwrite(Overwrite(Identity(), 0, 0, c), 0, 2, s), 2, 0, -s), 2, 2, c)
  }

  /** `ogl::rotate_z(angle)`, given c = cos(angle) and s = sin(angle). */
  function RotateZGrid(c: real, s: real): Mat4
  {
    Overwrite(Overwrite(Overwrite(Overwrite(Identity(), 0, 0, c), 0, 1, -s), 1, 0, s), 1, 1, c)
  }

  /** `ogl::translation(tx, ty, tz)`: the last column's cells (0,3), (1,3), (2,3). */
  function TranslationGrid(tx: real, ty: real, tz: real): Mat4
  {
    Overwrite(Overwrite(Overwrite(Identity(), 0, 3, tx), 1, 3, ty), 2, 3, tz)
  }

  /** `ogl::projection(fov, aspect, near, far)`, given t = tan(fov / 2) in radians. */
  function ProjectionGrid(t: real, aspect: real, near: real, far: real): Mat4
    requires aspect * t != 0.0 && t != 0.0 && far - near != 0.0
  {
    var range := far - near;
    var g := Overwrite(Overwrite(Identity(), 0, 0, 1.0 / (aspect * t)), 1, 1, 1.0 / t);
    var g := Overwrite(Overwrite(g, 2, 2, -(far + near) / range), 2, 3, -2.0 * far * near / range);
    Overwrite(Overwrite(g, 3, 2, -1.0), 3, 3, 0.0)
  }

  /** The projection grid cell by cell. */
  lemma ProjectionCells(t: real, aspect: real, near: real, far: real)
    requires aspect * t != 0.0 && t != 0.0 && far - near != 0.0
    ensures var g, range := ProjectionGrid(t, aspect, near, far), far - near;
            g == [[1.0 / (aspect * t), 0.0, 0.0, 0.0],
                  [0.0, 1.0 / t, 0.0, 0.0],
                  [0.0, 0.0, -(far + near) / range, -2.0 * far * near / range],
                  [0.0, 0.0, -1.0, 0.0]]
  {
    var range := far - near;
    GridEq(ProjectionGrid(t, aspect, near, far),
           [[1.0 / (aspect * t), 0.0, 0.0, 0.0],
            [0.0, 1.0 / t, 0.0, 0.0],
            [0.0, 0.0, -(far + near) / range, -2.0 * far * near / range],
            [0.0, 0.0, -1.0, 0.0]]);
  }

  /** A scale multiplies each coordinate by its factor. */
  lemma TransformScale(sx: real, sy: real, sz: real, p: Point)
    ensures IsAffine(ScaleGrid(sx, sy, sz))
    ensures Transform(ScaleGrid(sx, sy, sz), p) == Point(sx * p.x, sy * p.y, sz * p.z)
  {
    TransformAffine(ScaleGrid(sx, sy, sz), p);
  }

  /** A translation adds its offsets to a point. */
  lemma TransformTranslation(tx: real, ty: real, tz: real, p: Point)
    ensures IsAffine(TranslationGrid(tx, ty, tz))
    ensures Transform(TranslationGrid(tx, ty, tz), p) == Point(p.x + tx, p.y + ty, p.z + tz)
  {
    TransformAffine(TranslationGrid(tx, ty, tz), p);
  }

  /** Translating by t and then by -t gives back the original point. */
  lemma TranslationRoundTrip(tx: real, ty: real, tz: real, p: Point)
    ensures Transform(TranslationGrid(-tx, -ty, -tz), Transform(TranslationGrid(tx, ty, tz), p)) == p
  {
    TransformTranslation(tx, ty, tz, p);
    TransformTranslation(-tx, -ty, -tz, Transform(TranslationGrid(tx, ty, tz), p));
  }

  /** Composing two translations adds their offsets. */
  lemma TranslationProduct(ux: real, uy: real, uz: real, vx: real, vy: real, vz: real)
    ensures Product(TranslationGrid(ux, uy, uz), TranslationGrid(vx, vy, vz))
         == TranslationGrid(ux + vx, uy + vy, uz + vz)
  {
    var a, b := TranslationGrid(ux, uy, uz), TranslationGrid(vx, vy, vz);
    forall i, j | 0 <= i < 4 && 0 <= j < 4
      ensures Product(a, b)[i][j] == TranslationGrid(ux + vx, uy + vy, uz + vz)[i][j]
    {
      ProductAt(a, b, i, j);
    }
    GridEq(Product(a, b), TranslationGrid(ux + vx, uy + vy, uz + vz));
  }

  /** Rotation about x turns (y, z) by the angle and keeps x. */
  lemma TransformRotateX(c: real, s: real, p: Point)
    ensures IsAffine(RotateXGrid(c, s))
    ensures Transform(RotateXGrid(c, s), p) == Point(p.x, c * p.y - s * p.z, s * p.y + c * p.z)
  {
    TransformAffine(RotateXGrid(c, s), p);
  }

  /** Rotation about y turns (z, x) by the angle and keeps y. */
  lemma TransformRotateY(c: real, s: real, p: Point)
    ensures IsAffine(RotateYGrid(c, s))
    ensures Transform(RotateYGrid(c, s), p) == Point(c * p.x + s * p.z, p.y, -s * p.x + c * p.z)
  {
    TransformAffine(RotateYGrid(c, s), p);
  }

  /** Rotation about z turns (x, y) by the angle and keeps z. */
  lemma TransformRotateZ(c: real, s: real, p: Point)
    ensures IsAffine(RotateZGrid(c, s))
    ensures Transform(RotateZGrid(c, s), p) == Point(c * p.x - s * p.y, s * p.x + c * p.y, p.z)
  {
    TransformAffine(RotateZGrid(c, s), p);
  }

  /** A rotation about z keeps the distance from the z axis when (c, s) is the cosine
      and sine of one angle. */
  lemma RotateZKeepsRadius(c: real, s: real, p: Point)
    requires Sq(c) + Sq(s) == 1.0
    ensures var q := Transform(RotateZGrid(c, s), p);
            Sq(q.x) + Sq(q.y) == Sq(p.x) + Sq(p.y) && q.z == p.z
  {
    TransformRotateZ(c, s, p);
    var q := Transform(RotateZGrid(c, s), p);
    RadiusKept(c, s, p.x, p.y, q.x, q.y);
  }

  /** The arithmetic of `RotateZKeepsRadius`, on plain reals. */
  lemma RadiusKept(c: real, s: real, x: real, y: real, qx: real, qy: real)
    requires Sq(c) + Sq(s) == 1.0
    requires qx == c * x - s * y && qy == s * x + c * y
    ensures Sq(qx) + Sq(qy) == Sq(x) + Sq(y)
  {
    RotationIdentity(c, s, x, y);
    UnitFactor(Sq(c) + Sq(s), Sq(x) + Sq(y));
  }

  lemma RotationIdentity(c: real, s: real, x: real, y: real)
    ensures Sq(c * x - s * y) + Sq(s * x + c * y) == (Sq(c) + Sq(s)) * (Sq(x) + Sq(y))
  {
  }

  lemma UnitFactor(k: real, x: real)
    requires k == 1.0
    ensures k * x == x
  {
  }

  /** The projection's w is -z, so a point is divided by -z unless z is 0, in which case
      it is not divided at all. */
  lemma TransformProjection(t: real, aspect: real, near: real, far: real, p: Point)
    requires aspect * t != 0.0 && t != 0.0 && far - near != 0.0
    ensures HomRow(ProjectionGrid(t, aspect, near, far), p, 3) == -p.z
    ensures !IsAffine(ProjectionGrid(t, aspect, near, far))
  {
    HomRowAt(ProjectionGrid(t, aspect, near, far), p, 3);
  }

  // ---------------------------------------------------------------------------
  // The matrix object

  /** `ogl::matrix`: a 4x4 cell array, default-constructed to the identity. The named
      constructors stand for the source's builder subclasses, which add no state. */
  class Matrix {
    var m: array2<real>

    ghost predicate Valid()
      reads this
    {
      m.Length0 == 4 && m.Length1 == 4
    }

    /** The grid the array holds. */
    ghost function Cells(): (g: Mat4)
      reads this, m
      requires Valid()
      ensures forall i, j :: 0 <= i < 4 && 0 <= j < 4 ==> g[i][j] == m[i, j]
    {
      [[m[0, 0], m[0, 1], m[0, 2], m[0, 3]],
       [m[1, 0], m[1, 1], m[1, 2], m[1, 3]],
       [m[2, 0], m[2, 1], m[2, 2], m[2, 3]],
       [m[3, 0], m[3, 1], m[3, 2], m[3, 3]]]
    }

    /** `matrix()`: the identity. */
    constructor ()
      ensures Valid() && fresh(m)
      ensures Cells() == Identity()
    {
      m := new real[4, 4];
      new;
      SetIdentity();
    }

    /** `matrix::set_identity`. */
    method SetIdentity()
      requires Valid()
      modifies m
      ensures Valid()
      ensures Cells() == Identity()
    {
      forall i, j | 0 <= i < 4 && 0 <= j < 4 {
        m[i, j] := if i == j then 1.0 else 0.0;
      }
      GridEq(Cells(), Identity());
    }

    /** `matrix::get`: the cell grid. */
    method Get() returns (g: Mat4)
      requires Valid()
      ensures g == Cells()
    {
      g := [[m[0, 0], m[0, 1], m[0, 2], m[0, 3]],
            [m[1, 0], m[1, 1], m[1, 2], m[1, 3]],
            [m[2, 0], m[2, 1], m[2, 2], m[2, 3]],
            [m[3, 0], m[3, 1], m[3, 2], m[3, 3]]];
    }

    /** `matrix::set`: overwrite every cell. */
    method Set(g: Mat4)
      requires Valid()
      modifies m
      ensures Valid()
      ensures Cells() == g
    {
      forall i, j | 0 <= i < 4 && 0 <= j < 4 {
        m[i, j] := g[i][j];
      }
      GridEq(Cells(), g);
    }

    /** `matrix::operator*(const matrix&)`: a new matrix holding the product. */
    method Mul(other: Matrix) returns (r: Matrix)
      requires Valid() && other.Valid()
      ensures fresh(r) && fresh(r.m) && r.Valid()
      ensures r.Cells() == Product(Cells(), other.Cells())
    {
      ghost var a, b := Cells(), other.Cells();
      r := new Matrix();
      for i := 0 to 4
        invariant r.Valid() && fresh(r.m)
        invariant forall i', j' :: 0 <= i' < i && 0 <= j' < 4 ==> r.m[i', j'] == PartialRowCol(a, b, i', j', 4)
      {
        for j := 0 to 4
          invariant r.Valid() && fresh(r.m)
          invariant forall i', j' :: 0 <= i' < 4 && 0 <= j' < 4 && (i' < i || (i' == i && j' < j))
                      ==> r.m[i', j'] == PartialRowCol(a, b, i', j', 4)
        {
          r.m[i, j] := 0.0;
          for k := 0 to 4
            invariant r.Valid() && fresh(r.m)
            invariant forall i', j' :: 0 <= i' < 4 && 0 <= j' < 4 && (i' < i || (i' == i && j' < j))
                        ==> r.m[i', j'] == PartialRowCol(a, b, i', j', 4)
            invariant r.m[i, j] == PartialRowCol(a, b, i, j, k)
          {
            ghost var acc := r.m[i, j];
            var x, y := m[i, k], other.m[k, j];
            PartialRowColStep(a, b, i, j, k, acc, x, y);
            r.m[i, j] := r.m[i, j] + x * y;
            assert r.m[i, j] == acc + x * y;
          }
        }
      }
      GridEq(r.Cells(), Product(a, b));
    }

    /** `matrix::operator*=`: this matrix becomes `this * other`. */
    method MulAssign(other: Matrix)
      requires Valid() && other.Valid()
      modifies m
      ensures Valid()
      ensures Cells() == Product(old(Cells()), old(other.Cells()))
    {
      var r := Mul(other);
      var g := r.Get();
      Set(g);
    }

    /** `matrix::operator*(const point&)`. */
    method Apply(p: Point) returns (q: Point)
      requires Valid()
      ensures q == Transform(Cells(), p)
    {
      ghost var g, h := Cells(), Homogeneous(p);
      var x := new real[4];
      x[0], x[1], x[2], x[3] := p.x, p.y, p.z, 1.0;
      var result := new real[4](_ => 0.0);
      for i := 0 to 4
        invariant x[..] == h
        invariant forall i' :: 0 <= i' < i ==> result[i'] == PartialRowDot(g, h, i', 4)
        invariant forall i' :: i <= i' < 4 ==> result[i'] == 0.0
      {
        for j := 0 to 4
          invariant x[..] == h
          invariant forall i' :: 0 <= i' < i ==> result[i'] == PartialRowDot(g, h, i', 4)
          invariant forall i' :: i < i' < 4 ==> result[i'] == 0.0
          invariant result[i] == PartialRowDot(g, h, i, j)
        {
          ghost var acc := result[i];
          var cell, coord := m[i, j], x[j];
          PartialRowDotStep(g, h, i, j, acc, cell, coord);
          result[i] := result[i] + cell * coord;
          assert result[i] == acc + cell * coord;
        }
      }
      var wInv := if result[3] != 0.0 then 1.0 / result[3] else 1.0;
      q := Point(result[0] * wInv, result[1] * wInv, result[2] * wInv);
    }

    /** `matrix::transpose`: a new matrix with rows and columns swapped. */
    method Transpose() returns (r: Matrix)
      requires Valid()
      ensures fresh(r) && fresh(r.m) && r.Valid()
      ensures r.Cells() == Transposed(Cells())
    {
      r := new Matrix();
      for i := 0 to 4
        invariant r.Valid() && fresh(r.m)
        invariant forall i', j' :: 0 <= i' < i && 0 <= j' < 4 ==> r.m[i', j'] == m[j', i']
      {
        for j := 0 to 4
          invariant r.Valid() && fresh(r.m)
          invariant forall i', j' :: 0 <= i' < i && 0 <= j' < 4 ==> r.m[i', j'] == m[j', i']
          invariant forall j' :: 0 <= j' < j ==> r.m[i, j'] == m[j', i]
        {
          r.m[i, j] := m[j, i];
        }
      }
      GridEq(r.Cells(), Transposed(Cells()));
    }

    /** `scale(sx, sy, sz)`. */
    constructor Scale(sx: real, sy: real, sz: real)
      ensures Valid() && fresh(m)
      ensures Cells() == ScaleGrid(sx, sy, sz)
    {
      m := new real[4, 4];
      new;
      SetIdentity();
      m[0, 0] := sx;
      m[1, 1] := sy;
      m[2, 2] := sz;
      GridEq(Cells(), ScaleGrid(sx, sy, sz));
    }

    /** `rotate_x(angle)`, given c = cos(angle) and s = sin(angle). */
    constructor RotateX(c: real, s: real)
      requires Sq(c) + Sq(s) == 1.0
      ensures Valid() && fresh(m)
      ensures Cells() == RotateXGrid(c, s)
    {
      m := new real[4, 4];
      new;
      SetIdentity();
      m[1, 1] := c;
      m[1, 2] := -s;
      m[2, 1] := s;
      m[2, 2] := c;
      GridEq(Cells(), RotateXGrid(c, s));
    }

    /** `rotate_y(angle)`, given c = cos(angle) and s = sin(angle). */
    constructor RotateY(c: real, s: real)
      requires Sq(c) + Sq(s) == 1.0
      ensures Valid() && fresh(m)
      ensures Cells() == RotateYGrid(c, s)
    {
      m := new real[4, 4];
      new;
      SetIdentity();
      m[0, 0] := c;
      m[0, 2] := s;
      m[2, 0] := -s;
      m[2, 2] := c;
      GridEq(Cells(), RotateYGrid(c, s));
    }

    /** `rotate_z(angle)`, given c = cos(angle) and s = sin(angle). */
    constructor RotateZ(c: real, s: real)
      requires Sq(c) + Sq(s) == 1.0
      ensures Valid() && fresh(m)
      ensures Cells() == RotateZGrid(c, s)
    {
      m := new real[4, 4];
      new;
      SetIdentity();
      m[0, 0] := c;
      m[0, 1] := -s;
      m[1, 0] := s;
      m[1, 1] := c;
      GridEq(Cells(), RotateZGrid(c, s));
    }

    /** `translation(tx, ty, tz)`. */
    constructor Translation(tx: real, ty: real, tz: real)
      ensures Valid() && fresh(m)
      ensures Cells() == TranslationGrid(tx, ty, tz)
    {
      m := new real[4, 4];
      new;
      SetIdentity();
      m[0, 3] := tx;
      m[1, 3] := ty;
      m[2, 3] := tz;
      GridEq(Cells(), TranslationGrid(tx, ty, tz));
    }

    /** `projection(fov, aspect, near, far)`, given t = tan(fov / 2) in radians. */
    constructor Projection(t: real, aspect: real, near: real, far: real)
      requires aspect * t != 0.0 && t != 0.0 && far - near != 0.0
      ensures Valid() && fresh(m)
      ensures Cells() == ProjectionGrid(t, aspect, near, far)
    {
      m := new real[4, 4];
      new;
      SetIdentity();
      var range := far - near;
      m[0, 0] := 1.0 / (aspect * t);
      m[1, 1] := 1.0 / t;
      m[2, 2] := -(far + near) / range;
      m[2, 3] := -2.0 * far * near / range;
      m[3, 2] := -1.0;
      m[3, 3] := 0.0;
      ProjectionCells(t, aspect, near, far);
      GridEq(Cells(), ProjectionGrid(t, aspect, near, far));
    }
  }
}
