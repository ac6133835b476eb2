/**
 * From grid cells to faces.
 *
 * Both tessellators walk the cells (i, j) of a 2-D patch row by row, look up
 * the four corner handles of each cell and append the cell's faces.  A patch
 * is either the surface grid itself or one of the six sides of a volume's
 * boundary shell (`CornerSource`); the faces a cell yields depend on the
 * tessellator's convention (`CellStyle`): the mesh strategies emit
 * (v1, v2, v3), (v2, v4, v3) or the quad (v1, v2, v4, v3), swapping v2 and v3
 * to invert normals; the matrix builders emit (a0, a3, a2), (a0, a1, a3),
 * swapping a0 and a3 to invert normals.
 */
module Cells {
  import opened Grid
  import opened Options

  /** The corner handles of cell (i, j) of a patch: v1 at (i, j), v2 at (i + 1, j),
      v3 at (i, j + 1), v4 at (i + 1, j + 1) in the patch's own axes. */
  datatype Quad = Quad(v1: int, v2: int, v3: int, v4: int)

  datatype CellStyle =
    | StrategyStyle(meshType: MeshType, invert: bool)
    | MatrixStyle(invert: bool)

  /** The same convention with the invert-normal switch set to `invert`. */
  function WithInvert(style: CellStyle, invert: bool): (s: CellStyle)
    ensures s.invert == invert
  {
    match style
    case StrategyStyle(meshType, _) => StrategyStyle(meshType, invert)
    case MatrixStyle(_) => MatrixStyle(invert)
  }

  /** How many faces one cell yields: one quad, or two triangles. */
  function FacesPerCell(style: CellStyle): nat
  {
    if style.StrategyStyle? && style.meshType == SQUARE_MESH then 1 else 2
  }

  /** The faces of one cell, in emission order.  An unrecognised mesh type
      falls back to the two triangles of TRIANGLE_MESH. */
  function CellFaces(q: Quad, style: CellStyle): (fs: seq<seq<int>>)
    ensures |fs| == FacesPerCell(style)
    ensures forall p :: 0 <= p < |fs| ==> |fs[p]| == (if FacesPerCell(style) == 1 then 4 else 3)
  {
    match style
    case StrategyStyle(meshType, invert) =>
      var v1, v2, v3, v4 := q.v1, if invert then q.v3 else q.v2, if invert then q.v2 else q.v3, q.v4;
      if meshType == TRIANGLE_MESH then [[v1, v2, v3], [v2, v4, v3]]
      else if meshType == SQUARE_MESH then [[v1, v2, v4, v3]]
      else [[v1, v2, v3], [v2, v4, v3]]
    case MatrixStyle(invert) =>
      var a0, a1, a2, a3 := if invert then q.v4 else q.v1, q.v2, q.v3, if invert then q.v1 else q.v4;
      [[a0, a3, a2], [a0, a1, a3]]
  }

  // ---------------------------------------------------------------------
  // Winding
  // ---------------------------------------------------------------------

  function Reverse(f: seq<int>): (r: seq<int>)
    ensures |r| == |f|
    ensures forall p :: 0 <= p < |f| ==> r[p] == f[|f| - 1 - p]
  {
    if f == [] then [] else Reverse(f[1..]) + [f[0]]
  }

  /** g lists the same cycle of corners as f, starting elsewhere. */
  ghost predicate IsRotation(f: seq<int>, g: seq<int>)
  {
    exists r :: 0 <= r < |f| && g == f[r..] + f[..r]
  }

  /** g has the corners of f, each once per occurrence, walked in the opposite direction. */
  ghost predicate OppositeWinding(f: seq<int>, g: seq<int>)
  {
    multiset(g) == multiset(f) && IsRotation(Reverse(f), g)
  }

  lemma {:induction false} ReverseMultiset(f: seq<int>)
    ensures multiset(Reverse(f)) == multiset(f)
    decreases |f|
  {
    if f != [] {
      ReverseMultiset(f[1..]);
      assert f == [f[0]] + f[1..];
    }
  }

  /** A face listed as a rotation of the reverse of f has f's corners and the opposite winding. */
  lemma OppositeByRotation(f: seq<int>, g: seq<int>, r: int)
    requires 0 <= r < |f|
    requires g == Reverse(f)[r..] + Reverse(f)[..r]
    ensures OppositeWinding(f, g)
  {
    ReverseMultiset(f);
    RotationMultiset(Reverse(f), r);
  }

  /** Rotating a sequence keeps its elements. */
  lemma RotationMultiset(s: seq<int>, r: int)
    requires 0 <= r <= |s|
    ensures multiset(s[r..] + s[..r]) == multiset(s)
  {
    assert s == s[..r] + s[r..];
  }

  lemma ReverseTriangle(x: int, y: int, z: int)
    ensures Reverse([x, y, z]) == [z, y, x]
  {
  }

  /** Swapping two corners of a triangle reverses its winding. */
  lemma TriangleSwapReverses(x: int, y: int, z: int)
    ensures OppositeWinding([x, y, z], [x, z, y])
  {
    ReverseTriangle(x, y, z);
    var rev := [z, y, x];
    assert [x, z, y] == rev[2..] + rev[..2];
    OppositeByRotation([x, y, z], [x, z, y], 2);
  }

  lemma TriangleMirrorReverses(x: int, y: int, z: int)
    ensures OppositeWinding([x, y, z], [z, y, x])
  {
    ReverseTriangle(x, y, z);
    var rev := [z, y, x];
    assert [z, y, x] == rev[0..] + rev[..0];
    OppositeByRotation([x, y, z], [z, y, x], 0);
  }

  lemma TriangleFrontSwapReverses(x: int, y: int, z: int)
    ensures OppositeWinding([x, y, z], [y, x, z])
  {
    ReverseTriangle(x, y, z);
    var rev := [z, y, x];
    assert [y, x, z] == rev[1..] + rev[..1];
    OppositeByRotation([x, y, z], [y, x, z], 1);
  }

  /** Swapping the second and fourth corners of a quad reverses its winding. */
  lemma QuadSwapReverses(w: int, x: int, y: int, z: int)
    ensures OppositeWinding([w, x, y, z], [w, z, y, x])
  {
    var rev := Reverse([w, x, y, z]);
    assert rev == [z, y, x, w];
    assert [w, z, y, x] == rev[3..] + rev[..3];
    OppositeByRotation([w, x, y, z], [w, z, y, x], 3);
  }

  /** Two face lists pair up face by face, each with the opposite winding. */
  ghost predicate AllOpposite(fs: seq<seq<int>>, gs: seq<seq<int>>)
  {
    |fs| == |gs| && forall p :: 0 <= p < |fs| ==> OppositeWinding(fs[p], gs[p])
  }

  lemma AllOppositeConcat(fs: seq<seq<int>>, gs: seq<seq<int>>, fs': seq<seq<int>>, gs': seq<seq<int>>)
    requires AllOpposite(fs, gs) && AllOpposite(fs', gs')
    ensures AllOpposite(fs + fs', gs + gs')
  {
    forall p | 0 <= p < |fs + fs'|
      ensures OppositeWinding((fs + fs')[p], (gs + gs')[p])
    {
      if p >= |fs| {
        assert (fs + fs')[p] == fs'[p - |fs|] && (gs + gs')[p] == gs'[p - |fs|];
      }
    }
  }

  lemma AllOppositeOne(f: seq<int>, g: seq<int>)
    requires OppositeWinding(f, g)
    ensures AllOpposite([f], [g])
  {
  }

  lemma AllOppositeTwo(f0: seq<int>, f1: seq<int>, g0: seq<int>, g1: seq<int>)
    requires OppositeWinding(f0, g0) && OppositeWinding(f1, g1)
    ensures AllOpposite([f0, f1], [g0, g1])
  {
    forall p | 0 <= p < 2
      ensures OppositeWinding([f0, f1][p], [g0, g1][p])
    {
      if p == 1 {
        assert [f0, f1][p] == f1 && [g0, g1][p] == g1;
      }
    }
  }

  lemma QuadInvertReverses(q: Quad, meshType: MeshType)
    requires meshType == SQUARE_MESH
    ensures AllOpposite(CellFaces(q, StrategyStyle(meshType, false)), CellFaces(q, StrategyStyle(meshType, true)))
  {
    // (v1, v2, v4, v3) becomes (v1, v3, v4, v2)
    QuadSwapReverses(q.v1, q.v2, q.v4, q.v3);
    AllOppositeOne([q.v1, q.v2, q.v4, q.v3], [q.v1, q.v3, q.v4, q.v2]);
  }

  lemma TrianglePairInvertReverses(q: Quad, meshType: MeshType)
    requires meshType != SQUARE_MESH
    ensures AllOpposite(CellFaces(q, StrategyStyle(meshType, false)), CellFaces(q, StrategyStyle(meshType, true)))
  {
    // (v1, v2, v3) becomes (v1, v3, v2); (v2, v4, v3) becomes (v3, v4, v2)
    TriangleSwapReverses(q.v1, q.v2, q.v3);
    TriangleMirrorReverses(q.v2, q.v4, q.v3);
    AllOppositeTwo([q.v1, q.v2, q.v3], [q.v2, q.v4, q.v3], [q.v1, q.v3, q.v2], [q.v3, q.v4, q.v2]);
  }

  lemma MatrixPairInvertReverses(q: Quad)
    ensures AllOpposite(CellFaces(q, MatrixStyle(false)), CellFaces(q, MatrixStyle(true)))
  {
    // (a0, a3, a2) becomes (a3, a0, a2); (a0, a1, a3) becomes (a3, a1, a0)
    TriangleFrontSwapReverses(q.v1, q.v4, q.v3);
    TriangleMirrorReverses(q.v1, q.v2, q.v4);
    AllOppositeTwo([q.v1, q.v4, q.v3], [q.v1, q.v2, q.v4], [q.v4, q.v1, q.v3], [q.v4, q.v2, q.v1]);
  }

  /** Inverting normals keeps the number and order of a cell's faces and the
      corners of each, and reverses the order in which each face walks them. */
  lemma CellInvertReverses(q: Quad, style: CellStyle)
    ensures AllOpposite(CellFaces(q, WithInvert(style, false)), CellFaces(q, WithInvert(style, true)))
  {
    match style
    case StrategyStyle(meshType, _) =>
      if meshType == SQUARE_MESH {
        QuadInvertReverses(q, meshType);
      } else {
        TrianglePairInvertReverses(q, meshType);
      }
    case MatrixStyle(_) =>
      MatrixPairInvertReverses(q);
  }

  // ---------------------------------------------------------------------
  // Patches
  // ---------------------------------------------------------------------

  /** The six sides of a volume's boundary shell, in emission order. */
  type Side = t: int | 0 <= t < 6

  /** Where the corner handles of a cell come from: the surface grid's map, or
      one side of the volume shell, whose cell (i, j) has the corner keys of
      `SideCornerKeys`. */
  datatype CornerSource =
    | GridCorners(grid: map<Key2, int>)
    | ShellSide(shell: map<Key3, int>, c: Counts, side: Side)

  /** The four grid keys the volume tessellators look up for cell (i, j) of a side. */
  function SideCornerKeys(t: Side, i: int, j: int, c: Counts): (Key3, Key3, Key3, Key3)
  {
    match t
    case 0 => ((0, j, i), (0, j, i + 1), (0, j + 1, i), (0, j + 1, i + 1))
    case 1 => ((i, 0, j), (i + 1, 0, j), (i, 0, j + 1), (i + 1, 0, j + 1))
    case 2 => ((j, i, 0), (j, i + 1, 0), (j + 1, i, 0), (j + 1, i + 1, 0))
    case 3 => ((i, j, c.n2), (i + 1, j, c.n2), (i, j + 1, c.n2), (i + 1, j + 1, c.n2))
    case 4 => ((j, c.n1, i), (j, c.n1, i + 1), (j + 1, c.n1, i), (j + 1, c.n1, i + 1))
    case 5 => ((c.n0, i, j), (c.n0, i + 1, j), (c.n0, i, j + 1), (c.n0, i + 1, j + 1))
  }

  /** The axis a side holds fixed and whether at its maximum (else at 0). */
  function FixedAxis(t: Side): (r: (int, bool))
  {
    match t
    case 0 => (0, false)
    case 1 => (1, false)
    case 2 => (2, false)
    case 3 => (2, true)
    case 4 => (1, true)
    case 5 => (0, true)
  }

  function Coord(k: Key3, axis: int): int
  {
    if axis == 0 then k.0 else if axis == 1 then k.1 else k.2
  }

  function AxisCount(c: Counts, axis: int): int
  {
    if axis == 0 then c.n0 else if axis == 1 then c.n1 else c.n2
  }

  /** Every corner key of side t keeps its fixed axis at 0 (sides 0, 1, 2:
      axis 0, 1, 2) or at that axis's count (sides 3, 4, 5: axis 2, 1, 0). */
  lemma SideCornersOnFixedPlane(t: Side, i: int, j: int, c: Counts)
    ensures var (axis, atMax) := FixedAxis(t);
            var (k1, k2, k3, k4) := SideCornerKeys(t, i, j, c);
            var fixed := if atMax then AxisCount(c, axis) else 0;
            Coord(k1, axis) == fixed && Coord(k2, axis) == fixed && Coord(k3, axis) == fixed && Coord(k4, axis) == fixed
  {
  }

  /** The corner handles of cell (i, j) of a patch, as looked up in its map. */
  function Corners(src: CornerSource, i: int, j: int): Quad
  {
    match src
    case GridCorners(m) =>
      Quad(Lookup(m, (i, j)), Lookup(m, (i + 1, j)), Lookup(m, (i, j + 1)), Lookup(m, (i + 1, j + 1)))
    case ShellSide(m, c, t) =>
      var (k1, k2, k3, k4) := SideCornerKeys(t, i, j, c);
      Quad(Lookup(m, k1), Lookup(m, k2), Lookup(m, k3), Lookup(m, k4))
  }

  /** Faces of cells (i, 0), ..., (i, jEnd - 1), in emission order. */
  function RowFaces(src: CornerSource, i: int, jEnd: int, style: CellStyle): seq<seq<int>>
    decreases jEnd
  {
    if jEnd <= 0 then [] else RowFaces(src, i, jEnd - 1, style) + CellFaces(Corners(src, i, jEnd - 1), style)
  }

  /** Faces of the cells of rows 0 .. iEnd - 1, each row having cells j = 0 .. n1 - 1. */
  function PatchFaces(src: CornerSource, iEnd: int, n1: int, style: CellStyle): seq<seq<int>>
    decreases iEnd
  {
    if iEnd <= 0 then [] else PatchFaces(src, iEnd - 1, n1, style) + RowFaces(src, iEnd - 1, n1, style)
  }

  /** Faces of sides 0 .. tEnd - 1 of a shell, each side an n0 x n1 patch:
      the volume tessellators run i over numSample[0] and j over numSample[1]
      on every side. */
  function ShellFaces(m: map<Key3, int>, c: Counts, tEnd: int, style: CellStyle): seq<seq<int>>
    requires tEnd <= 6
    decreases tEnd
  {
    if tEnd <= 0 then [] else ShellFaces(m, c, tEnd - 1, style) + PatchFaces(ShellSide(m, c, tEnd - 1), c.n0, c.n1, style)
  }

  // ----- lengths and positions -------------------------------------------

  function Clamp(n: int): nat
  {
    if n < 0 then 0 else n
  }

  lemma {:induction false} RowFacesLength(src: CornerSource, i: int, jEnd: int, style: CellStyle)
    ensures |RowFaces(src, i, jEnd, style)| == Clamp(jEnd) * FacesPerCell(style)
    decreases jEnd
  {
    if jEnd > 0 {
      RowFacesLength(src, i, jEnd - 1, style);
      assert Clamp(jEnd) * FacesPerCell(style) == Clamp(jEnd - 1) * FacesPerCell(style) + FacesPerCell(style);
    }
  }

  /** One more cell of a row appends that cell's faces. */
  lemma RowFacesStep(pre: seq<seq<int>>, src: CornerSource, i: int, j: int, style: CellStyle)
    requires j >= 0
    ensures pre + RowFaces(src, i, j + 1, style) == pre + RowFaces(src, i, j, style) + CellFaces(Corners(src, i, j), style)
  {
  }

  /** A patch of iEnd rows of n1 cells has iEnd * n1 * (faces per cell) faces. */
  lemma {:induction false} PatchFacesLength(src: CornerSource, iEnd: int, n1: int, style: CellStyle)
    ensures |PatchFaces(src, iEnd, n1, style)| == Clamp(iEnd) * (Clamp(n1) * FacesPerCell(style))
    decreases iEnd
  {
    if iEnd > 0 {
      PatchFacesLength(src, iEnd - 1, n1, style);
      RowFacesLength(src, iEnd - 1, n1, style);
      MulAddRight(iEnd - 1, 1, Clamp(n1) * FacesPerCell(style));
    }
  }

  /** Six sides of n0 x n1 cells each. */
  lemma {:induction false} ShellFacesLength(m: map<Key3, int>, c: Counts, tEnd: int, style: CellStyle)
    requires tEnd <= 6
    ensures |ShellFaces(m, c, tEnd, style)| == Clamp(tEnd) * SideSize(c, style)
    decreases tEnd
  {
    if tEnd > 0 {
      ShellFacesLength(m, c, tEnd - 1, style);
      PatchFacesLength(ShellSide(m, c, tEnd - 1), c.n0, c.n1, style);
      MulAddRight(tEnd - 1, 1, SideSize(c, style));
    }
  }

  /** The number of faces of one side of a shell. */
  function SideSize(c: Counts, style: CellStyle): nat
  {
    Clamp(c.n0) * (Clamp(c.n1) * FacesPerCell(style))
  }

  lemma {:induction false} RowFaceAt(src: CornerSource, i: int, jEnd: int, style: CellStyle, j: int, q: int)
    requires 0 <= j < jEnd && 0 <= q < FacesPerCell(style)
    ensures j * FacesPerCell(style) + q < |RowFaces(src, i, jEnd, style)|
    ensures RowFaces(src, i, jEnd, style)[j * FacesPerCell(style) + q] == CellFaces(Corners(src, i, j), style)[q]
    decreases jEnd
  {
    var w := FacesPerCell(style);
    RowFacesLength(src, i, jEnd - 1, style);
    RowFacesLength(src, i, jEnd, style);
    if j < jEnd - 1 {
      RowFaceAt(src, i, jEnd - 1, style, j, q);
    } else {
      assert j * w + q == |RowFaces(src, i, jEnd - 1, style)| + q;
    }
  }

  /** Cell (i, j) of rows of n1 cells with w faces each starts at (i * n1 + j) * w. */
  lemma CellOffset(i: int, j: int, q: int, n1: int, w: int)
    requires 0 <= i && 0 <= j < n1 && 0 <= q < w
    ensures (i * n1 + j) * w + q == i * (n1 * w) + (j * w + q)
    ensures 0 <= j * w + q < n1 * w
  {
    MulAddRight(i * n1, j, w);
    MulMonotone(j + 1, n1, w);
  }

  /** Face q of cell (i, j) is face (i * n1 + j) * (faces per cell) + q of the patch. */
  lemma {:induction false} PatchFaceAt(src: CornerSource, iEnd: int, n1: int, style: CellStyle, i: int, j: int, q: int)
    requires 0 <= i < iEnd && 0 <= j < n1 && 0 <= q < FacesPerCell(style)
    ensures 0 <= (i * n1 + j) * FacesPerCell(style) + q < |PatchFaces(src, iEnd, n1, style)|
    ensures PatchFaces(src, iEnd, n1, style)[(i * n1 + j) * FacesPerCell(style) + q] == CellFaces(Corners(src, i, j), style)[q]
    decreases iEnd
  {
    var w := FacesPerCell(style);
    var at := (i * n1 + j) * w + q;
    CellOffset(i, j, q, n1, w);
    if i < iEnd - 1 {
      PatchFaceAt(src, iEnd - 1, n1, style, i, j, q);
      PatchFaceEarlier(src, iEnd, n1, style, at);
    } else {
      PatchFaceInLastRow(src, iEnd, n1, style, j, q, at);
    }
  }

  /** Face q of cell (iEnd - 1, j), at its position in the patch. */
  lemma PatchFaceInLastRow(src: CornerSource, iEnd: int, n1: int, style: CellStyle, j: int, q: int, at: int)
    requires iEnd > 0 && 0 <= j < n1 && 0 <= q < FacesPerCell(style)
    requires at == (iEnd - 1) * (n1 * FacesPerCell(style)) + (j * FacesPerCell(style) + q)
    ensures 0 <= at < |PatchFaces(src, iEnd, n1, style)|
    ensures PatchFaces(src, iEnd, n1, style)[at] == CellFaces(Corners(src, iEnd - 1, j), style)[q]
  {
    PatchFacesLength(src, iEnd - 1, n1, style);
    RowFaceAt(src, iEnd - 1, n1, style, j, q);
    PatchFaceLast(src, iEnd, n1, style, j * FacesPerCell(style) + q);
  }

  /** Appending a row keeps the faces of the rows before it in place. */
  lemma PatchFaceEarlier(src: CornerSource, iEnd: int, n1: int, style: CellStyle, p: int)
    requires iEnd > 0 && 0 <= p < |PatchFaces(src, iEnd - 1, n1, style)|
    ensures p < |PatchFaces(src, iEnd, n1, style)|
    ensures PatchFaces(src, iEnd, n1, style)[p] == PatchFaces(src, iEnd - 1, n1, style)[p]
  {
  }

  /** The faces of the last row follow those of the rows before it. */
  lemma PatchFaceLast(src: CornerSource, iEnd: int, n1: int, style: CellStyle, r: int)
    requires iEnd > 0 && 0 <= r < |RowFaces(src, iEnd - 1, n1, style)|
    ensures |PatchFaces(src, iEnd - 1, n1, style)| + r < |PatchFaces(src, iEnd, n1, style)|
    ensures PatchFaces(src, iEnd, n1, style)[|PatchFaces(src, iEnd - 1, n1, style)| + r] == RowFaces(src, iEnd - 1, n1, style)[r]
  {
    IndexRight(PatchFaces(src, iEnd - 1, n1, style), RowFaces(src, iEnd - 1, n1, style), r);
  }

  /** Index p of the right operand is index |s| + p of a concatenation. */
  lemma IndexRight<T>(s: seq<T>, t: seq<T>, p: int)
    requires 0 <= p < |t|
    ensures (s + t)[|s| + p] == t[p]
  {
  }

  /** Face f of a complete shell, for t * P <= f < (t + 1) * P with P faces per
      side, is face f - t * P of side t: the sides come out as contiguous blocks
      in the order 0 .. 5. */
  lemma {:induction false} ShellFacesBlock(m: map<Key3, int>, c: Counts, tEnd: int, style: CellStyle, t: Side)
    requires t < tEnd <= 6
    ensures var per := SideSize(c, style);
            (t + 1) * per <= |ShellFaces(m, c, tEnd, style)| &&
            ShellFaces(m, c, tEnd, style)[t * per .. (t + 1) * per] == PatchFaces(ShellSide(m, c, t), c.n0, c.n1, style)
    decreases tEnd
  {
    var per := SideSize(c, style);
    var prefix, side := ShellFaces(m, c, tEnd - 1, style), PatchFaces(ShellSide(m, c, tEnd - 1), c.n0, c.n1, style);
    ShellFacesLength(m, c, tEnd - 1, style);
    PatchFacesLength(ShellSide(m, c, tEnd - 1), c.n0, c.n1, style);
    if t < tEnd - 1 {
      ShellFacesBlock(m, c, tEnd - 1, style, t);
      EarlierSide(t, tEnd - 1, per);
      SliceLeft(prefix, side, t * per, (t + 1) * per);
    } else {
      SliceRight(prefix, side);
      assert (t + 1) * per == t * per + per;
    }
  }

  /** Side t of a shell whose first tEnd sides are complete ends within them. */
  lemma EarlierSide(t: int, tEnd: int, per: nat)
    requires 0 <= t < tEnd
    ensures 0 <= t * per <= (t + 1) * per <= Clamp(tEnd) * per
  {
    MulMonotone(t, t + 1, per);
    MulMonotone(t + 1, tEnd, per);
  }

  lemma SliceLeft<T>(s: seq<T>, t: seq<T>, a: int, b: int)
    requires 0 <= a <= b <= |s|
    ensures (s + t)[a..b] == s[a..b]
  {
  }

  lemma SliceRight<T>(s: seq<T>, t: seq<T>)
    ensures (s + t)[|s|..|s| + |t|] == t
  {
  }

  // ----- properties carried from cells to patches --------------------------

  /** Every handle of the quad lies in lo .. hi - 1. */
  predicate QuadWithin(q: Quad, lo: int, hi: int)
  {
    lo <= q.v1 < hi && lo <= q.v2 < hi && lo <= q.v3 < hi && lo <= q.v4 < hi
  }

  /** Every handle of every face lies in lo .. hi - 1. */
  predicate FacesWithin(fs: seq<seq<int>>, lo: int, hi: int)
  {
    forall p, x :: 0 <= p < |fs| && x in fs[p] ==> lo <= x < hi
  }

  lemma FacesWithinConcat(fs: seq<seq<int>>, gs: seq<seq<int>>, lo: int, hi: int)
    requires FacesWithin(fs, lo, hi) && FacesWithin(gs, lo, hi)
    ensures FacesWithin(fs + gs, lo, hi)
  {
    forall p, x | 0 <= p < |fs + gs| && x in (fs + gs)[p]
      ensures lo <= x < hi
    {
      if p >= |fs| {
        assert (fs + gs)[p] == gs[p - |fs|];
      }
    }
  }

  lemma CellFacesWithin(q: Quad, style: CellStyle, lo: int, hi: int)
    requires QuadWithin(q, lo, hi)
    ensures FacesWithin(CellFaces(q, style), lo, hi)
  {
  }

  /** When every cell's corner handles lie in lo .. hi - 1, so do all the patch's face handles. */
  lemma {:induction false} PatchFacesWithin(src: CornerSource, iEnd: int, n1: int, style: CellStyle, lo: int, hi: int)
    requires forall i, j :: 0 <= i < iEnd && 0 <= j < n1 ==> QuadWithin(Corners(src, i, j), lo, hi)
    ensures FacesWithin(PatchFaces(src, iEnd, n1, style), lo, hi)
    decreases iEnd
  {
    if iEnd > 0 {
      PatchFacesWithin(src, iEnd - 1, n1, style, lo, hi);
      RowFacesWithin(src, iEnd - 1, n1, style, lo, hi);
      FacesWithinConcat(PatchFaces(src, iEnd - 1, n1, style), RowFaces(src, iEnd - 1, n1, style), lo, hi);
    }
  }

  lemma {:induction false} RowFacesWithin(src: CornerSource, i: int, jEnd: int, style: CellStyle, lo: int, hi: int)
    requires forall j :: 0 <= j < jEnd ==> QuadWithin(Corners(src, i, j), lo, hi)
    ensures FacesWithin(RowFaces(src, i, jEnd, style), lo, hi)
    decreases jEnd
  {
    if jEnd > 0 {
      RowFacesWithin(src, i, jEnd - 1, style, lo, hi);
      CellFacesWithin(Corners(src, i, jEnd - 1), style, lo, hi);
      FacesWithinConcat(RowFaces(src, i, jEnd - 1, style), CellFaces(Corners(src, i, jEnd - 1), style), lo, hi);
    }
  }

  /** Inverting normals reverses the winding of every face of a row of cells. */
  lemma {:induction false} RowInvertReverses(src: CornerSource, i: int, jEnd: int, style: CellStyle)
    ensures AllOpposite(RowFaces(src, i, jEnd, WithInvert(style, false)), RowFaces(src, i, jEnd, WithInvert(style, true)))
    decreases jEnd
  {
    if jEnd > 0 {
      RowInvertReverses(src, i, jEnd - 1, style);
      CellInvertReverses(Corners(src, i, jEnd - 1), style);
      AllOppositeConcat(
        RowFaces(src, i, jEnd - 1, WithInvert(style, false)), RowFaces(src, i, jEnd - 1, WithInvert(style, true)),
        CellFaces(Corners(src, i, jEnd - 1), WithInvert(style, false)), CellFaces(Corners(src, i, jEnd - 1), WithInvert(style, true)));
    }
  }

  /** Inverting normals keeps the number and order of a patch's faces, and the
      corners of each, while reversing each face's winding. */
  lemma {:induction false} PatchInvertReverses(src: CornerSource, iEnd: int, n1: int, style: CellStyle)
    ensures AllOpposite(PatchFaces(src, iEnd, n1, WithInvert(style, false)), PatchFaces(src, iEnd, n1, WithInvert(style, true)))
    decreases iEnd
  {
    if iEnd > 0 {
      PatchInvertReverses(src, iEnd - 1, n1, style);
      RowInvertReverses(src, iEnd - 1, n1, style);
      AllOppositeConcat(
        PatchFaces(src, iEnd - 1, n1, WithInvert(style, false)), PatchFaces(src, iEnd - 1, n1, WithInvert(style, true)),
        RowFaces(src, iEnd - 1, n1, WithInvert(style, false)), RowFaces(src, iEnd - 1, n1, WithInvert(style, true)));
    }
  }

  lemma {:induction false} ShellInvertReverses(m: map<Key3, int>, c: Counts, tEnd: int, style: CellStyle)
    requires tEnd <= 6
    ensures AllOpposite(ShellFaces(m, c, tEnd, WithInvert(style, false)), ShellFaces(m, c, tEnd, WithInvert(style, true)))
    decreases tEnd
  {
    if tEnd > 0 {
      ShellInvertReverses(m, c, tEnd - 1, style);
      PatchInvertReverses(ShellSide(m, c, tEnd - 1), c.n0, c.n1, style);
      AllOppositeConcat(
        ShellFaces(m, c, tEnd - 1, WithInvert(style, false)), ShellFaces(m, c, tEnd - 1, WithInvert(style, true)),
        PatchFaces(ShellSide(m, c, tEnd - 1), c.n0, c.n1, WithInvert(style, false)),
        PatchFaces(ShellSide(m, c, tEnd - 1), c.n0, c.n1, WithInvert(style, true)));
    }
  }

  /** Two conventions that give every cell the same faces give every patch the same faces. */
  lemma {:induction false} PatchSameCells(src: CornerSource, iEnd: int, n1: int, s1: CellStyle, s2: CellStyle)
    requires forall q :: CellFaces(q, s1) == CellFaces(q, s2)
    ensures PatchFaces(src, iEnd, n1, s1) == PatchFaces(src, iEnd, n1, s2)
    decreases iEnd
  {
    if iEnd > 0 {
      PatchSameCells(src, iEnd - 1, n1, s1, s2);
      RowSameCells(src, iEnd - 1, n1, s1, s2);
    }
  }

  lemma {:induction false} RowSameCells(src: CornerSource, i: int, jEnd: int, s1: CellStyle, s2: CellStyle)
    requires forall q :: CellFaces(q, s1) == CellFaces(q, s2)
    ensures RowFaces(src, i, jEnd, s1) == RowFaces(src, i, jEnd, s2)
    decreases jEnd
  {
    if jEnd > 0 {
      RowSameCells(src, i, jEnd - 1, s1, s2);
    }
  }

  // ----- face sizes --------------------------------------------------------

  /** The number of corners of every face a convention yields: 4 for a quad, 3 for a triangle. */
  function FaceSize(style: CellStyle): nat
  {
    if FacesPerCell(style) == 1 then 4 else 3
  }

  /** Every face of the list has k corners. */
  predicate FacesOfSize(fs: seq<seq<int>>, k: int)
  {
    forall p :: 0 <= p < |fs| ==> |fs[p]| == k
  }

  lemma FacesOfSizeConcat(fs: seq<seq<int>>, gs: seq<seq<int>>, k: int)
    requires FacesOfSize(fs, k) && FacesOfSize(gs, k)
    ensures FacesOfSize(fs + gs, k)
  {
    assert forall p :: 0 <= p < |fs + gs| ==> (fs + gs)[p] == if p < |fs| then fs[p] else gs[p - |fs|];
  }

  lemma {:induction false} RowFacesSize(src: CornerSource, i: int, jEnd: int, style: CellStyle)
    ensures FacesOfSize(RowFaces(src, i, jEnd, style), FaceSize(style))
    decreases jEnd
  {
    if jEnd > 0 {
      RowFacesSize(src, i, jEnd - 1, style);
      FacesOfSizeConcat(RowFaces(src, i, jEnd - 1, style), CellFaces(Corners(src, i, jEnd - 1), style), FaceSize(style));
    }
  }

  lemma {:induction false} PatchFacesSize(src: CornerSource, iEnd: int, n1: int, style: CellStyle)
    ensures FacesOfSize(PatchFaces(src, iEnd, n1, style), FaceSize(style))
    decreases iEnd
  {
    if iEnd > 0 {
      PatchFacesSize(src, iEnd - 1, n1, style);
      RowFacesSize(src, iEnd - 1, n1, style);
      FacesOfSizeConcat(PatchFaces(src, iEnd - 1, n1, style), RowFaces(src, iEnd - 1, n1, style), FaceSize(style));
    }
  }

  lemma {:induction false} ShellFacesSize(m: map<Key3, int>, c: Counts, tEnd: int, style: CellStyle)
    requires tEnd <= 6
    ensures FacesOfSize(ShellFaces(m, c, tEnd, style), FaceSize(style))
    decreases tEnd
  {
    if tEnd > 0 {
      ShellFacesSize(m, c, tEnd - 1, style);
      PatchFacesSize(ShellSide(m, c, tEnd - 1), c.n0, c.n1, style);
      FacesOfSizeConcat(ShellFaces(m, c, tEnd - 1, style), PatchFaces(ShellSide(m, c, tEnd - 1), c.n0, c.n1, style), FaceSize(style));
    }
  }
}
