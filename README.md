# ogl geometry core in Dafny

This project models the small homogeneous-coordinate geometry library in namespace
`ogl` (`mylib/src/mylib.cpp`, `mylib/include/mylib.hpp`) and proves properties of it.
The library has three parts:

- **Vectors** (`vectors.dfy`): the `point` and `vector` value types. `vector` has
  `length`, `normalize`, `dot` and `cross`.
- **Matrices** (`matrices.dfy`): `matrix`, a 4x4 grid of cells that a default
  constructor sets to the identity. It has:
  - a row-by-column product and an in-place `*=`;
  - `transpose`;
  - application to a point. The point is promoted to w = 1 and multiplied. x, y and z
    are then divided by w only when w is not zero.
  - builders that start from the identity and overwrite some cells: `scale`,
    `rotate_x/y/z`, `translation` and `projection`.

  `Mat4` is the value of a cell grid, and `Product`, `Transposed` and `Transform` are
  the functions on grids. Class `Matrix` keeps the grid in a 4x4 array. Its methods run
  the source's nested loops over that array and are proved against those functions. The
  builder subclasses add no state, so they are named constructors of `Matrix`.
- **Shapes** (`shapes.dfy`): `shape`, which holds an ordered vertex list, a cached
  centre and a list of index groups. It is a class whose methods update these fields in
  place:
  - `*=` maps every vertex and the centre through a matrix;
  - `*` makes a transformed copy;
  - `rotate_around_center` and `scale_around_center` move the centre to the origin,
    transform, and move back;
  - `update_center` averages the vertices;
  - `get_vertices` and `get_indices` copy the data into caller buffers.

Coordinates and cells are exact reals. `sqrt`, `sin`, `cos` and `tan` are not computed;
their results are passed in as parameters. A length is given with the fact that its
square is the sum of squares. A rotation angle is given as a pair (c, s) with
c² + s² = 1. The projection takes tan(fov / 2).

## Model

| member | source | states |
|---|---|---|
| `Vectors.LengthSquaredZero` | mylib/src/mylib.cpp:9-11 | The sum of squares under `length` is never negative, and it is zero exactly for the zero vector. |
| `Vectors.LengthUnique` | mylib/src/mylib.cpp:9-11 | A vector has exactly one non-negative length. |
| `Vectors.LengthZero` | mylib/src/mylib.cpp:9-11 | The length is zero exactly when the vector is the zero vector. |
| `Vectors.Normalize` | mylib/src/mylib.cpp:13-16 | Each component times the length gives the original component. A non-zero vector comes out with unit length. The zero vector is returned unchanged. |
| `Vectors.Cross` | mylib/src/mylib.cpp:22-28 | The cross product is orthogonal to both operands: its dot product with each is 0. |
| `Vectors.CrossAnticommutative` | mylib/src/mylib.cpp:22-28 | Swapping the operands of `cross` negates the result. |
| `Vectors.DotSelf` | mylib/src/mylib.cpp:18-20 | The dot product of a vector with itself is its squared length. |
| `Matrices.ProductAt` | mylib/src/mylib.cpp:50-61 | Entry (i, j) of the product is the sum over k of a[i][k]·b[k][j], accumulated from 0 in the loop's order. |
| `Matrices.ProductIdentityLeft` | mylib/src/mylib.cpp:50-61 | The identity is a left unit of the product. |
| `Matrices.ProductIdentityRight` | mylib/src/mylib.cpp:50-61 | The identity is a right unit of the product. |
| `Matrices.ProductAssociativeAt` | mylib/src/mylib.cpp:50-61 | Each entry of (a·b)·c equals the same entry of a·(b·c). |
| `Matrices.ProductAssociative` | mylib/src/mylib.cpp:50-61 | The product is associative. |
| `Matrices.ProductAffine` | mylib/src/mylib.cpp:50-61 | The product of two matrices whose last row is (0, 0, 0, 1) also has that last row. |
| `Matrices.TransposeInvolution` | mylib/src/mylib.cpp:82-90 | Transposing twice gives back the original grid. |
| `Matrices.TransposeProduct` | mylib/src/mylib.cpp:82-90 | The transpose of a·b is transpose(b)·transpose(a). |
| `Matrices.HomRowAt` | mylib/src/mylib.cpp:68-80 | Row i applied to the point with w = 1 is g[i][0]·x + g[i][1]·y + g[i][2]·z + g[i][3]. |
| `Matrices.TransformAffine` | mylib/src/mylib.cpp:68-80 | When the last row is (0, 0, 0, 1), the resulting w is 1 and the point is never divided. |
| `Matrices.TransformIdentity` | mylib/src/mylib.cpp:68-80 | The identity maps every point to itself. |
| `Matrices.TransformProduct` | mylib/src/mylib.cpp:68-80 | When b is affine, applying a·b to a point is applying b and then a. |
| `Matrices.ProjectionCells` | mylib/src/mylib.cpp:163-174 | The projection grid has 1/(aspect·t) and 1/t on the diagonal, -(far+near)/range and -2·far·near/range in row 2, and (0, 0, -1, 0) as its last row. |
| `Matrices.TransformScale` | mylib/src/mylib.cpp:112-116 | A scale is affine and multiplies each coordinate by its factor. |
| `Matrices.TransformTranslation` | mylib/src/mylib.cpp:154-158 | A translation is affine and adds (tx, ty, tz) to a point. |
| `Matrices.TranslationRoundTrip` | mylib/src/mylib.cpp:154-158 | Translating by t and then by -t gives back the original point. |
| `Matrices.TranslationProduct` | mylib/src/mylib.cpp:154-158 | The product of two translations is the translation by the sum of their offsets. |
| `Matrices.TransformRotateX` | mylib/src/mylib.cpp:121-129 | rotate_x is affine, keeps x, and turns (y, z) by (c, s). |
| `Matrices.TransformRotateY` | mylib/src/mylib.cpp:131-139 | rotate_y is affine, keeps y, and maps (x, z) to (c·x + s·z, -s·x + c·z). |
| `Matrices.TransformRotateZ` | mylib/src/mylib.cpp:141-149 | rotate_z is affine, keeps z, and turns (x, y) by (c, s). |
| `Matrices.RotateZKeepsRadius` | mylib/src/mylib.cpp:141-149 | When c² + s² = 1, rotate_z keeps a point's distance from the z axis. |
| `Matrices.TransformProjection` | mylib/src/mylib.cpp:163-174 | The projection's w is -z, and its grid is not affine. |
| `Matrices.Matrix.constructor` | mylib/src/mylib.cpp:46-48 | A new matrix holds the identity grid. |
| `Matrices.Matrix.SetIdentity` | mylib/src/mylib.cpp:92-99 | Afterwards the grid is exactly the identity. |
| `Matrices.Matrix.Get` | mylib/src/mylib.cpp:101-103 | Returns the grid the matrix holds. |
| `Matrices.Matrix.Set` | mylib/src/mylib.cpp:105-107 | Afterwards the matrix holds exactly the given grid. |
| `Matrices.Matrix.Mul` | mylib/src/mylib.cpp:50-61 | Returns a new matrix whose grid is the product of the two operands' grids. Neither operand is modified. |
| `Matrices.Matrix.MulAssign` | mylib/src/mylib.cpp:63-66 | Afterwards the matrix holds the product of its old grid and the other operand's old grid. |
| `Matrices.Matrix.Apply` | mylib/src/mylib.cpp:68-80 | Returns the point the grid maps p to: multiply (p, 1), then divide by w only when w is not 0. |
| `Matrices.Matrix.Transpose` | mylib/src/mylib.cpp:82-90 | Returns a new matrix with result[i][j] = m[j][i]. The receiver is not modified. |
| `Matrices.Matrix.Scale` | mylib/src/mylib.cpp:112-116 | The identity with sx, sy and sz on the diagonal. |
| `Matrices.Matrix.RotateX` | mylib/src/mylib.cpp:121-129 | The identity with c, -s, s, c at (1,1), (1,2), (2,1), (2,2). |
| `Matrices.Matrix.RotateY` | mylib/src/mylib.cpp:131-139 | The identity with c, s, -s, c at (0,0), (0,2), (2,0), (2,2). |
| `Matrices.Matrix.RotateZ` | mylib/src/mylib.cpp:141-149 | The identity with c, -s, s, c at (0,0), (0,1), (1,0), (1,1). |
| `Matrices.Matrix.Translation` | mylib/src/mylib.cpp:154-158 | The identity with tx, ty, tz in the last column. |
| `Matrices.Matrix.Projection` | mylib/src/mylib.cpp:163-174 | The identity with the six projection cells overwritten. |
| `Shapes.FlatVerticesLayout` | mylib/src/mylib.cpp:187-194 | The flattened buffer has exactly 3·n entries. Entries 3i, 3i+1 and 3i+2 are vertex i's x, y and z. |
| `Shapes.FlatVerticesAppend` | mylib/src/mylib.cpp:202-204 | After a vertex is added, the flattened buffer is the old one followed by that vertex's three coordinates. |
| `Shapes.FlatVerticesExample` | mylib/src/mylib.cpp:187-194 | Vertices (1,2,3) and (4,5,6) flatten to 1, 2, 3, 4, 5, 6. |
| `Shapes.PivotedLinear` | mylib/include/mylib.hpp:144-151 | A matrix that has no translation part and is affine leaves the pivot where it is, when applied about that pivot. |
| `Shapes.PivotFixed` | mylib/include/mylib.hpp:117-151 | A scale, and a z rotation, applied about a pivot leave the pivot fixed. |
| `Shapes.PivotedScale` | mylib/include/mylib.hpp:144-151 | A scale about c₀ maps v to c₀ + S(v − c₀). |
| `Shapes.PivotedRotateZ` | mylib/include/mylib.hpp:117-130 | A z rotation about c₀ maps v to c₀ + R(v − c₀) and keeps v's z. |
| `Shapes.PivotedRotateZKeepsRadius` | mylib/include/mylib.hpp:117-130 | When c² + s² = 1, rotating about c₀ keeps each vertex's distance from the vertical axis through c₀. |
| `Shapes.SumMapped` | mylib/include/mylib.hpp:103-109 | Summing affinely mapped vertices gives the linear part applied to their sum, plus the translation once per vertex. |
| `Shapes.CentroidMapped` | mylib/include/mylib.hpp:132-142 | The mean of affinely mapped vertices is the mapped mean. So after `*=` with an affine matrix, a centre that was the mean of the vertices still is. |
| `Shapes.CentroidExample` | mylib/include/mylib.hpp:132-142 | (0,0,0), (2,0,0) and (0,2,0) have centre (2/3, 2/3, 0). |
| `Shapes.Shape.constructor` | mylib/src/mylib.cpp:179-181 | A new shape has no vertices, no index groups, and its centre at the origin. |
| `Shapes.Shape.Copy` | mylib/include/mylib.hpp:111-115 | The copy that `operator*` starts from has the same vertices, centre and index groups. |
| `Shapes.Shape.AddVertex` | mylib/src/mylib.cpp:202-204 | Appends the vertex at the end. The centre and index groups are unchanged. |
| `Shapes.Shape.AddIndex` | mylib/src/mylib.cpp:206-208 | Appends the group at the end. The vertices and centre are unchanged. |
| `Shapes.Shape.GetVertices` | mylib/src/mylib.cpp:187-194 | The first 3·n buffer entries are the flattened vertices. The rest of the buffer is untouched. |
| `Shapes.Shape.GetIndices` | mylib/src/mylib.cpp:196-200 | The front of the buffer holds group `base` element for element. The rest is untouched. Requires `base` < number of groups and room in the buffer. |
| `Shapes.Shape.MulAssign` | mylib/include/mylib.hpp:103-109 | Vertex i becomes the matrix applied to old vertex i, and the centre becomes the matrix applied to the old centre. The count, order and index groups are unchanged. |
| `Shapes.Shape.Times` | mylib/include/mylib.hpp:111-115 | Returns a fresh shape equal to what `*=` would produce. The receiver is not modified. |
| `Shapes.Shape.RotateAroundCenter` | mylib/include/mylib.hpp:117-130 | Each vertex v becomes the old centre plus the matrix applied to (v − old centre). The centre ends exactly at its old value, and the index groups are unchanged. |
| `Shapes.Shape.ScaleAroundCenter` | mylib/include/mylib.hpp:144-151 | Vertices are mapped about the old centre. The centre is mapped too, because it is not restored; for a scale, `PivotFixed` shows it ends where it was. The index groups are unchanged. |
| `Shapes.Shape.UpdateCenter` | mylib/include/mylib.hpp:132-142 | The centre becomes the componentwise mean of the vertices, summed front to back. The vertices and index groups are unchanged. |

## Left out

- Floating point: every coordinate and cell is a real. Rounding, overflow, infinities and NaN are not modelled. This includes the small drift of the centre under `scale_around_center`.
- `vector::length` is not computed, because there is no square root over reals. `IsLengthOf` states what a length is, and `Normalize` receives the length as a parameter.
- `Matrices.Matrix.RotateX`, `RotateY`, `RotateZ`: they take the cosine and sine of the angle rather than the angle, because `std::sin` and `std::cos` are not modelled.
- `Matrices.Matrix.Projection`: it takes tan(fov / 2) rather than fov in degrees, so the degree-to-radian conversion with `M_PI` and `std::tan` is not modelled. It requires aspect·t, t and far − near to be non-zero, where the source would divide by zero in floating point.
- `Shapes.Shape.UpdateCenter`: it requires at least one vertex. On an empty shape the source divides 0 by 0 and produces NaN coordinates, which reals cannot represent.
- `Shapes.Shape.RotateAroundCenter` and `Shapes.Shape.ScaleAroundCenter`: they accept any matrix, where the source's parameter types admit only a `rotate_z` and a `scale`. The facts specific to those builders are in `PivotedRotateZ`, `PivotedScale` and `PivotFixed`.
- The references returned by `*=` (which allow chained calls) are not modelled. `matrix::get` returns the grid as a value rather than a reference to it.
- The GPU handle fields `EBOs`, `VAOs` and `VBOs`, and the empty destructor, hold or do nothing the core interprets.
- `mylib/main.cpp` is not part of this model. It is window setup, GPU upload and the render loop. The shader and shape-preset headers are not part of this model either.
- The default arguments of the `point` and `vector` constructors are the constants `Origin` and `Zero`. Copying and assigning them is value semantics.
