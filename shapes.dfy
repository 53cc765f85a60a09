/** The mesh object of the `ogl` core (`ogl::shape` in mylib.hpp / mylib.cpp): a list of
    vertices, a centre and index groups, moved as a whole by 4x4 transforms. */
module Shapes {
  import opened Vectors
  import opened Matrices

  /** An element of an index group: an `unsigned int`. */
  type Index = n: int | 0 <= n < 0x1_0000_0000

  // ---------------------------------------------------------------------------
  // Value-level descriptions of what the shape's methods compute

  /** Every point of `ps` mapped through `g`, in order. */
  function Mapped(g: Mat4, ps: seq<Point>): seq<Point>
  {
    seq(|ps|, i requires 0 <= i < |ps| => Transform(g, ps[i]))
  }

  /** `p` moved so that `c` sits at the origin, mapped through `g`, and moved back: the
      three transforms `rotate_around_center` and `scale_around_center` apply in turn. */
  function Pivoted(g: Mat4, c: Point, p: Point): Point
  {
    Transform(TranslationGrid(c.x, c.y, c.z), Transform(g, Transform(TranslationGrid(-c.x, -c.y, -c.z), p)))
  }

  /** Every point of `ps` pivoted about `c`. */
  function AllPivoted(g: Mat4, c: Point, ps: seq<Point>): seq<Point>
  {
    seq(|ps|, i requires 0 <= i < |ps| => Pivoted(g, c, ps[i]))
  }

  /** The coordinates laid out x, y, z per vertex, as `get_vertices` writes them. */
  function FlatVertices(ps: seq<Point>): seq<real>
  {
    if |ps| == 0 then [] else
      var p := ps[|ps| - 1];
      FlatVertices(ps[..|ps| - 1]) + [p.x, p.y, p.z]
  }

  /** The sum of the points, added up front to back from the origin. */
  function SumPoints(ps: seq<Point>): Point
  {
    if |ps| == 0 then Origin else
      var s, p := SumPoints(ps[..|ps| - 1]), ps[|ps| - 1];
      Point(s.x + p.x, s.y + p.y, s.z + p.z)
  }

  /** The average of the points: the sum divided by their number. */
  function Centroid(ps: seq<Point>): Point
    requires |ps| > 0
  {
    var s, n := SumPoints(ps), |ps| as real;
    Point(s.x / n, s.y / n, s.z / n)
  }

  /** An affine matrix with no translation part: it fixes the origin. */
  predicate IsLinear(g: Mat4)
  {
    IsAffine(g) && g[0][3] == 0.0 && g[1][3] == 0.0 && g[2][3] == 0.0
  }

  // ---------------------------------------------------------------------------
  // Properties of those descriptions

  /** `get_vertices` writes three floats per vertex: x at 3i, y at 3i + 1, z at 3i + 2. */
  lemma {:induction false} FlatVerticesLayout(ps: seq<Point>)
    ensures |FlatVertices(ps)| == 3 * |ps|
    ensures forall i :: 0 <= i < |ps| ==>
              FlatVertices(ps)[3 * i] == ps[i].x &&
              FlatVertices(ps)[3 * i + 1] == ps[i].y &&
              FlatVertices(ps)[3 * i + 2] == ps[i].z
  {
    if |ps| > 0 {
      var front := ps[..|ps| - 1];
      FlatVerticesLayout(front);
      assert forall i :: 0 <= i < |front| ==> front[i] == ps[i];
    }
  }

  /** Adding a vertex appends its three coordinates to the flattened buffer. */
  lemma FlatVerticesAppend(ps: seq<Point>, v: Point)
    ensures FlatVertices(ps + [v]) == FlatVertices(ps) + [v.x, v.y, v.z]
  {
    assert (ps + [v])[..|ps|] == ps;
  }

  /** Two vertices flatten to their six coordinates in order. */
  lemma FlatVerticesExample()
    ensures FlatVertices([Point(1.0, 2.0, 3.0), Point(4.0, 5.0, 6.0)]) == [1.0, 2.0, 3.0, 4.0, 5.0, 6.0]
  {
    var ps := [Point(1.0, 2.0, 3.0), Point(4.0, 5.0, 6.0)];
    assert ps[..1] == [Point(1.0, 2.0, 3.0)];
    assert ps[..1][..0] == [];
  }

  /** A matrix without translation leaves the pivot where it is. */
  lemma PivotedLinear(g: Mat4, c: Point)
    requires IsLinear(g)
    ensures Pivoted(g, c, c) == c
  {
    TransformTranslation(-c.x, -c.y, -c.z, c);
    TransformAffine(g, Origin);
    TransformTranslation(c.x, c.y, c.z, Origin);
  }

  /** Scales and z rotations have no translation part, so they keep the pivot fixed. */
  lemma PivotFixed(sx: real, sy: real, sz: real, co: real, si: real, c: Point)
    ensures Pivoted(ScaleGrid(sx, sy, sz), c, c) == c
    ensures Pivoted(RotateZGrid(co, si), c, c) == c
  {
    PivotedLinear(ScaleGrid(sx, sy, sz), c);
    PivotedLinear(RotateZGrid(co, si), c);
  }

  /** A scale about a pivot keeps the pivot fixed and stretches each offset from it. */
  lemma PivotedScale(sx: real, sy: real, sz: real, c: Point, p: Point)
    ensures Pivoted(ScaleGrid(sx, sy, sz), c, p)
         == Point(c.x + sx * (p.x - c.x), c.y + sy * (p.y - c.y), c.z + sz * (p.z - c.z))
  {
    var q := Transform(TranslationGrid(-c.x, -c.y, -c.z), p);
    var e := Transform(ScaleGrid(sx, sy, sz), q);
    TransformTranslation(-c.x, -c.y, -c.z, p);
    TransformScale(sx, sy, sz, q);
    TransformTranslation(c.x, c.y, c.z, e);
    ScaleOffsets(sx, sy, sz, c, p, q, e, Pivoted(ScaleGrid(sx, sy, sz), c, p));
  }

  /** The arithmetic of `PivotedScale`: offset, scale, offset back. */
  lemma ScaleOffsets(sx: real, sy: real, sz: real, c: Point, p: Point, q: Point, e: Point, r: Point)
    requires q == Point(p.x + -c.x, p.y + -c.y, p.z + -c.z)
    requires e == Point(sx * q.x, sy * q.y, sz * q.z)
    requires r == Point(e.x + c.x, e.y + c.y, e.z + c.z)
    ensures r == Point(c.x + sx * (p.x - c.x), c.y + sy * (p.y - c.y), c.z + sz * (p.z - c.z))
  {
    Distribute(sx, p.x, c.x, q.x);
    Distribute(sy, p.y, c.y, q.y);
    Distribute(sz, p.z, c.z, q.z);
  }

  /** A z rotation about a pivot turns each point's offset from the pivot in the xy plane
      and keeps its z. */
  lemma PivotedRotateZ(co: real, si: real, c: Point, p: Point)
    ensures Pivoted(RotateZGrid(co, si), c, p)
         == Point(c.x + (co * (p.x - c.x) - si * (p.y - c.y)),
                  c.y + (si * (p.x - c.x) + co * (p.y - c.y)),
                  p.z)
  {
    var q := Transform(TranslationGrid(-c.x, -c.y, -c.z), p);
    var e := Transform(RotateZGrid(co, si), q);
    TransformTranslation(-c.x, -c.y, -c.z, p);
    TransformRotateZ(co, si, q);
    TransformTranslation(c.x, c.y, c.z, e);
    RotateOffsets(co, si, c, p, q, e, Pivoted(RotateZGrid(co, si), c, p));
  }

  /** The arithmetic of `PivotedRotateZ`: offset, turn, offset back. */
  lemma RotateOffsets(co: real, si: real, c: Point, p: Point, q: Point, e: Point, r: Point)
    requires q == Point(p.x + -c.x, p.y + -c.y, p.z + -c.z)
    requires e == Point(co * q.x - si * q.y, si * q.x + co * q.y, q.z)
    requires r == Point(e.x + c.x, e.y + c.y, e.z + c.z)
    ensures r == Point(c.x + (co * (p.x - c.x) - si * (p.y - c.y)),
                       c.y + (si * (p.x - c.x) + co * (p.y - c.y)),
                       p.z)
  {
    Distribute(co, p.x, c.x, q.x);
    Distribute(si, p.y, c.y, q.y);
    Distribute(si, p.x, c.x, q.x);
    Distribute(co, p.y, c.y, q.y);
  }

  /** k * (a - b), with the difference already named `d`. */
  lemma Distribute(k: real, a: real, b: real, d: real)
    requires d == a + -b
    ensures k * d == k * a - k * b
  {
  }

  /** Rotating about a pivot keeps every point's distance from the pivot's z axis. */
  lemma PivotedRotateZKeepsRadius(co: real, si: real, c: Point, p: Point)
    requires Sq(co) + Sq(si) == 1.0
    ensures var q := Pivoted(RotateZGrid(co, si), c, p);
            Sq(q.x - c.x) + Sq(q.y - c.y) == Sq(p.x - c.x) + Sq(p.y - c.y) && q.z == p.z
  {
    PivotedRotateZ(co, si, c, p);
    var d := Point(p.x - c.x, p.y - c.y, p.z - c.z);
    RotateZKeepsRadius(co, si, d);
    TransformRotateZ(co, si, d);
  }

  /** Row i of affine `g` applied to a sum `s` of `n` points: the linear part applied to
      `s`, plus the translation `n` times. */
  function RowSum(g: Mat4, i: nat, s: Point, n: real): real
    requires i < 4
  {
    g[i][0] * s.x + g[i][1] * s.y + g[i][2] * s.z + n * g[i][3]
  }

  /** The first three rows of `g` applied to a sum `s` of `n` points. */
  function AffineSum(g: Mat4, s: Point, n: real): Point
  {
    Point(RowSum(g, 0, s, n), RowSum(g, 1, s, n), RowSum(g, 2, s, n))
  }

  /** The sum of affinely mapped points is the affine image of their sum. */
  lemma {:induction false} SumMapped(g: Mat4, ps: seq<Point>)
    requires IsAffine(g)
    ensures SumPoints(Mapped(g, ps)) == AffineSum(g, SumPoints(ps), |ps| as real)
  {
    if |ps| > 0 {
      var front, p := ps[..|ps| - 1], ps[|ps| - 1];
      var s, n := SumPoints(front), |front| as real;
      var a, t := SumPoints(Mapped(g, front)), Transform(g, p);
      assert Mapped(g, ps)[..|ps| - 1] == Mapped(g, front);
      SumMapped(g, front);
      TransformAffineSum(g, p);
      RowSumAdd(g, 0, s, p, n, a.x, t.x);
      RowSumAdd(g, 1, s, p, n, a.y, t.y);
      RowSumAdd(g, 2, s, p, n, a.z, t.z);
    }
  }

  /** An affine matrix maps a point as a sum of one point. */
  lemma TransformAffineSum(g: Mat4, p: Point)
    requires IsAffine(g)
    ensures Transform(g, p) == AffineSum(g, p, 1.0)
  {
    TransformAffine(g, p);
  }

  lemma RowSumAdd(g: Mat4, i: nat, s: Point, p: Point, n: real, u: real, v: real)
    requires i < 4
    requires u == RowSum(g, i, s, n) && v == RowSum(g, i, p, 1.0)
    ensures u + v == RowSum(g, i, Point(s.x + p.x, s.y + p.y, s.z + p.z), n + 1.0)
  {
    RowAdd(g[i][0], g[i][1], g[i][2], g[i][3], s.x, s.y, s.z, p.x, p.y, p.z, n, u, v);
  }

  lemma RowAdd(a: real, b: real, c: real, d: real, x: real, y: real, z: real,
               px: real, py: real, pz: real, n: real, u: real, v: real)
    requires u == a * x + b * y + c * z + n * d
    requires v == a * px + b * py + c * pz + 1.0 * d
    ensures u + v == a * (x + px) + b * (y + py) + c * (z + pz) + (n + 1.0) * d
  {
    calc {
      u + v;
      (a * x + b * y + c * z + n * d) + (a * px + b * py + c * pz + 1.0 * d);
      a * (x + px) + b * (y + py) + c * (z + pz) + (n + 1.0) * d;
    }
  }

  lemma RowSumDivide(g: Mat4, i: nat, s: Point, n: real, u: real)
    requires i < 4 && n != 0.0
    requires u == RowSum(g, i, s, n)
    ensures u / n == RowSum(g, i, Point(s.x / n, s.y / n, s.z / n), 1.0)
  {
    DivideAffine(g[i][0], g[i][1], g[i][2], g[i][3], s.x, s.y, s.z, n, u);
  }

  lemma DivideAffine(a: real, b: real, c: real, d: real, x: real, y: real, z: real, n: real, u: real)
    requires n != 0.0
    requires u == a * x + b * y + c * z + n * d
    ensures u / n == a * (x / n) + b * (y / n) + c * (z / n) + 1.0 * d
  {
    var x', y', z' := x / n, y / n, z / n;
    assert x' * n == x && y' * n == y && z' * n == z;
    calc {
      u;
      a * x + b * y + c * z + n * d;
      (a * x' + b * y' + c * z' + 1.0 * d) * n;
    }
  }

  /** The centroid of affinely mapped points is the mapped centroid. */
  lemma CentroidMapped(g: Mat4, ps: seq<Point>)
    requires IsAffine(g) && |ps| > 0
    ensures Centroid(Mapped(g, ps)) == Transform(g, Centroid(ps))
  {
    var s, n := SumPoints(ps), |ps| as real;
    var m := SumPoints(Mapped(g, ps));
    SumMapped(g, ps);
    RowSumDivide(g, 0, s, n, m.x);
    RowSumDivide(g, 1, s, n, m.y);
    RowSumDivide(g, 2, s, n, m.z);
    TransformAffineSum(g, Centroid(ps));
  }

  /** The centre of a right triangle's corners. */
  lemma CentroidExample()
    ensures Centroid([Point(0.0, 0.0, 0.0), Point(2.0, 0.0, 0.0), Point(0.0, 2.0, 0.0)])
         == Point(2.0 / 3.0, 2.0 / 3.0, 0.0)
  {
    var ps := [Point(0.0, 0.0, 0.0), Point(2.0, 0.0, 0.0), Point(0.0, 2.0, 0.0)];
    assert ps[..2] == [Point(0.0, 0.0, 0.0), Point(2.0, 0.0, 0.0)];
    assert ps[..2][..1] == [Point(0.0, 0.0, 0.0)];
    assert ps[..2][..1][..0] == [];
    assert SumPoints(ps[..2][..1]) == Origin;
    assert SumPoints(ps[..2]) == Point(2.0, 0.0, 0.0);
    assert SumPoints(ps) == Point(2.0, 2.0, 0.0);
  }

  // ---------------------------------------------------------------------------
  // The shape object

  /** `ogl::shape`: vertices, a centre and index groups. The buffer-object handles it
      also holds (EBOs, VAOs, VBOs) are graphics state and are not modelled. */
  class Shape {
    var vertices: seq<Point>
    var center: Point
    var indices: seq<seq<Index>>

    /** `shape()`: no vertices, no index groups, the centre at the origin. */
    constructor ()
      ensures vertices == [] && center == Origin && indices == []
    {
      vertices := [];
      center := Origin;
      indices := [];
    }

    /** The copy `shape operator*` starts from. */
    constructor Copy(s: Shape)
      ensures vertices == s.vertices && center == s.center && indices == s.indices
    {
      vertices := s.vertices;
      center := s.center;
      indices := s.indices;
    }

    /** `shape::add_vertex`: append a vertex; nothing else changes. */
    method AddVertex(v: Point)
      modifies this
      ensures vertices == old(vertices) + [v]
      ensures center == old(center) && indices == old(indices)
    {
      vertices := vertices + [v];
    }

    /** `shape::add_index`: append an index group; nothing else changes. */
    method AddIndex(group: seq<Index>)
      modifies this
      ensures indices == old(indices) + [group]
      ensures vertices == old(vertices) && center == old(center)
    {
      indices := indices + [group];
    }

    /** `shape::get_vertices`: write the flattened coordinates to the front of `ve`,
        which must have room for three floats per vertex. */
    method GetVertices(ve: array<real>)
      requires ve.Length >= 3 * |vertices|
      modifies ve
      ensures ve[..3 * |vertices|] == FlatVertices(vertices)
      ensures ve[3 * |vertices|..] == old(ve[3 * |vertices|..])
    {
      for i := 0 to |vertices|
        invariant ve[..3 * i] == FlatVertices(vertices[..i])
        invariant ve[3 * |vertices|..] == old(ve[3 * |vertices|..])
      {
        var index := i * 3;
        ve[index] := vertices[i].x;
        ve[index + 1] := vertices[i].y;
        ve[index + 2] := vertices[i].z;
        assert vertices[..i + 1][..i] == vertices[..i];
        assert ve[..3 * (i + 1)] == ve[..3 * i] + [vertices[i].x, vertices[i].y, vertices[i].z];
      }
      assert vertices[..|vertices|] == vertices;
    }

    /** `shape::get_indices`: copy index group `base` to the front of `out`, which must
        exist and have room for it. */
    method GetIndices(out: array<Index>, base: nat)
      requires base < |indices| && out.Length >= |indices[base]|
      modifies out
      ensures out[..|indices[base]|] == indices[base]
      ensures out[|indices[base]|..] == old(out[|indices[base]|..])
    {
      for i := 0 to |indices[base]|
        invariant out[..i] == indices[base][..i]
        invariant out[|indices[base]|..] == old(out[|indices[base]|..])
      {
        out[i] := indices[base][i];
      }
    }

    /** `shape::operator*=`: map every vertex and the centre through `t`. */
    method MulAssign(t: Matrix)
      requires t.Valid()
      modifies this
      ensures vertices == Mapped(t.Cells(), old(vertices))
      ensures center == Transform(t.Cells(), old(center))
      ensures indices == old(indices)
    {
      ghost var g := t.Cells();
      var i := 0;
      while i < |vertices|
        invariant 0 <= i <= |vertices| == |old(vertices)|
        invariant forall k :: 0 <= k < i ==> vertices[k] == Transform(g, old(vertices)[k])
        invariant forall k :: i <= k < |vertices| ==> vertices[k] == old(vertices)[k]
        invariant center == old(center) && indices == old(indices)
      {
        var q := t.Apply(vertices[i]);
        vertices := vertices[i := q];
        i := i + 1;
      }
      center := t.Apply(center);
    }

    /** `shape::operator*`: a transformed copy; this shape is left as it is. */
    method Times(t: Matrix) returns (r: Shape)
      requires t.Valid()
      ensures fresh(r)
      ensures r.vertices == Mapped(t.Cells(), vertices)
      ensures r.center == Transform(t.Cells(), center)
      ensures r.indices == indices
    {
      r := new Shape.Copy(this);
      r.MulAssign(t);
    }

    /** `shape::rotate_around_center`: move the centre to the origin, apply `rotation`,
        move back, and restore the centre. */
    method RotateAroundCenter(rotation: Matrix)
      requires rotation.Valid()
      modifies this
      ensures vertices == AllPivoted(rotation.Cells(), old(center), old(vertices))
      ensures center == old(center) && indices == old(indices)
    {
      var currentCenter := center;
      var toOrigin := new Matrix.Translation(-center.x, -center.y, -center.z);
      MulAssign(toOrigin);
      MulAssign(rotation);
      var back := new Matrix.Translation(currentCenter.x, currentCenter.y, currentCenter.z);
      MulAssign(back);
      center := currentCenter;
      assert vertices == AllPivoted(rotation.Cells(), currentCenter, old(vertices));
    }

    /** `shape::scale_around_center`: the same three steps, without restoring the
        centre, which is therefore mapped like a vertex. */
    method ScaleAroundCenter(scaling: Matrix)
      requires scaling.Valid()
      modifies this
      ensures vertices == AllPivoted(scaling.Cells(), old(center), old(vertices))
      ensures center == Pivoted(scaling.Cells(), old(center), old(center))
      ensures indices == old(indices)
    {
      var currentCenter := center;
      var toOrigin := new Matrix.Translation(-center.x, -center.y, -center.z);
      MulAssign(toOrigin);
      MulAssign(scaling);
      var back := new Matrix.Translation(currentCenter.x, currentCenter.y, currentCenter.z);
      MulAssign(back);
      assert vertices == AllPivoted(scaling.Cells(), currentCenter, old(vertices));
    }

    /** `shape::update_center`: the centre becomes the average of the vertices, summed
        into the centre field front to back and then divided by their number. */
    method UpdateCenter()
      requires |vertices| > 0
      modifies this
      ensures vertices == old(vertices) && indices == old(indices)
      ensures center == Centroid(vertices)
    {
      center := Point(0.0, 0.0, 0.0);
      for i := 0 to |vertices|
        invariant vertices == old(vertices) && indices == old(indices)
        invariant center == SumPoints(vertices[..i])
      {
        assert vertices[..i + 1][..i] == vertices[..i];
        center := Point(center.x + vertices[i].x, center.y + vertices[i].y, center.z + vertices[i].z);
      }
      assert vertices[..|vertices|] == vertices;
      var n := |vertices| as real;
      center := Point(center.x / n, center.y / n, center.z / n);
    }
  }
}
