/**
 * The domain samplers.  A sampler walks an integer grid over the parameter
 * domain, adds one vertex per sampled grid point to a mesh, remembers each
 * point's handle in a map keyed by its grid coordinates, and then turns every
 * grid cell into faces.  The surface sampler uses the whole
 * (n0 + 1) x (n1 + 1) grid; the volume sampler uses only the boundary shell
 * of the (n0 + 1) x (n1 + 1) x (n2 + 1) grid and tessellates its six sides.
 */
module MeshStrategy {
  import opened Grid
  import opened Options
  import opened Cells
  import opened Meshes

  datatype StrategyKind = Surface | VolumeSurface

  /** A sampler: which domain it samples, the face type it emits and its option bits. */
  datatype Strategy = Strategy(kind: StrategyKind, meshType: MeshType, optionFlag: OptionFlag)

  /** The strategy constructors, with their default arguments: triangles and no options. */
  function NewStrategy(kind: StrategyKind, meshType: MeshType := TRIANGLE_MESH, optionFlag: OptionFlag := NO_OPTIONS): (s: Strategy)
    ensures s.kind == kind && s.meshType == meshType && s.optionFlag == optionFlag
  {
    Strategy(kind, meshType, optionFlag)
  }

  /** A default-constructed strategy emits triangles and neither inverts normals nor asks for colour. */
  lemma DefaultStrategy(kind: StrategyKind)
    ensures NewStrategy(kind).meshType == TRIANGLE_MESH
    ensures !Has(NewStrategy(kind).optionFlag, INVERT_NORMAL) && !Has(NewStrategy(kind).optionFlag, WITH_COLOR)
    ensures Style(NewStrategy(kind)) == StrategyStyle(TRIANGLE_MESH, false)
  {
  }

  /** The face convention of a strategy: its mesh type, and whether INVERT_NORMAL is set. */
  function Style(s: Strategy): (style: CellStyle)
    ensures style.StrategyStyle? && style.meshType == s.meshType
    ensures style.invert <==> Has(s.optionFlag, INVERT_NORMAL)
  {
    StrategyStyle(s.meshType, Has(s.optionFlag, INVERT_NORMAL))
  }

  /** The parameter domain: row a holds (min, max) of axis a. */
  type Support = seq<(real, real)>

  /** The unit cube [0, 1]^3, the support of the overload that takes none. */
  const UNIT_CUBE: Support := [(0.0, 1.0), (0.0, 1.0), (0.0, 1.0)]

  /** Sample point i of n along [lo, hi]: lo + i / n * (hi - lo).  For n = 0 the
      source computes 0 / 0.0, which is NaN; reals have no NaN, so that sample
      is placed at lo here. */
  function Lerp(lo: real, hi: real, i: int, n: int): (x: real)
    ensures i == 0 ==> x == lo
    ensures n != 0 && i == n ==> x == hi
  {
    if n == 0 then lo else lo + (i as real) / (n as real) * (hi - lo)
  }

  // ---------------------------------------------------------------------
  // What the samplers add
  // ---------------------------------------------------------------------

  /** The position of surface grid point (i, j): in the plane z = 0. */
  function SurfacePoint(support: Support, n0: int, n1: int, k: Key2): Point
    requires |support| >= 2
  {
    Point(Lerp(support[0].0, support[0].1, k.0, n0), Lerp(support[1].0, support[1].1, k.1, n1), 0.0)
  }

  /** The positions of the surface grid points ks, in order. */
  function SurfacePoints(support: Support, n0: int, n1: int, ks: seq<Key2>): (ps: seq<Point>)
    requires |support| >= 2
    ensures |ps| == |ks|
    decreases |ks|
  {
    if ks == [] then [] else SurfacePoints(support, n0, n1, ks[..|ks| - 1]) + [SurfacePoint(support, n0, n1, ks[|ks| - 1])]
  }

  /** The position of volume grid point (i, j, k). */
  function VolumePoint(support: Support, c: Counts, k: Key3): Point
    requires |support| >= 3
  {
    Point(Lerp(support[0].0, support[0].1, k.0, c.n0), Lerp(support[1].0, support[1].1, k.1, c.n1), Lerp(support[2].0, support[2].1, k.2, c.n2))
  }

  function VolumePoints(support: Support, c: Counts, ks: seq<Key3>): (ps: seq<Point>)
    requires |support| >= 3
    ensures |ps| == |ks|
    decreases |ks|
  {
    if ks == [] then [] else VolumePoints(support, c, ks[..|ks| - 1]) + [VolumePoint(support, c, ks[|ks| - 1])]
  }

  /** The vertex map of the surface sampler over a mesh that already had `base` vertices. */
  function SurfaceMap(base: int, n0: int, n1: int): map<Key2, int>
  {
    IndexMap(base, GridKeys(n0 + 1, n1))
  }

  /** The faces the surface sampler appends. */
  function SurfaceFaces(base: int, n0: int, n1: int, style: CellStyle): seq<seq<int>>
  {
    PatchFaces(GridCorners(SurfaceMap(base, n0, n1)), n0, n1, style)
  }

  /** The vertex map of the volume sampler over a mesh that already had `base` vertices. */
  function VolumeMap(base: int, c: Counts): map<Key3, int>
  {
    IndexMap(base, ShellKeys(c))
  }

  /** The faces the volume sampler appends: sides 0 .. 5, each n0 x n1 cells. */
  function VolumeFaces(base: int, c: Counts, style: CellStyle): seq<seq<int>>
  {
    ShellFaces(VolumeMap(base, c), c, 6, style)
  }

  function SampleCounts(numSample: seq<int>): Counts
    requires |numSample| >= 3
  {
    Counts(numSample[0], numSample[1], numSample[2])
  }

  // ---------------------------------------------------------------------
  // The samplers
  // ---------------------------------------------------------------------

  /** Appends the faces of one cell with corner handles q: two triangles or one
      quad, with v2 and v3 swapped first when normals are inverted. */
  method EmitCell(s: Strategy, mesh: Mesh, q: Quad)
    modifies mesh
    ensures mesh.faces == old(mesh.faces) + CellFaces(q, Style(s))
    ensures mesh.verts == old(mesh.verts)
  {
    var v1, v2, v3, v4 := q.v1, q.v2, q.v3, q.v4;
    if Has(s.optionFlag, INVERT_NORMAL) {
      v2, v3 := v3, v2;
    }
    if s.meshType == TRIANGLE_MESH {
      mesh.AddFace([v1, v2, v3]);
      mesh.AddFace([v2, v4, v3]);
    } else if s.meshType == SQUARE_MESH {
      mesh.AddFace([v1, v2, v4, v3]);
    } else {
      // an unsupported mesh type falls back to triangles
      mesh.AddFace([v1, v2, v3]);
      mesh.AddFace([v2, v4, v3]);
    }
  }

  /** The surface sampler.  It fails, leaving the mesh alone, when fewer than
      two sample counts or support rows are given.  Otherwise it appends the
      grid points in i-major order and then the faces of the n0 x n1 cells, and
      the mesh stays well formed.  A lookup of a grid key that was never
      created yields the null handle (`Lookup`); `std::map::operator[]` also
      inserts that null handle, which later lookups of the key would return anyway. */
  method BuildSurfaceMesh(s: Strategy, mesh: Mesh, support: Support, numSample: seq<int>) returns (ok: bool)
    modifies mesh
    ensures ok <==> |numSample| >= 2 && |support| >= 2
    ensures !ok ==> mesh.verts == old(mesh.verts) && mesh.faces == old(mesh.faces)
    ensures ok ==> mesh.verts == old(mesh.verts) + SurfacePoints(support, numSample[0], numSample[1], GridKeys(numSample[0] + 1, numSample[1]))
    ensures ok ==> mesh.faces == old(mesh.faces) + SurfaceFaces(|old(mesh.verts)|, numSample[0], numSample[1], Style(s))
    ensures old(mesh.WellFormed()) ==> mesh.WellFormed()
  {
    if |numSample| < 2 || |support| < 2 {
      return false;
    }
    var n0, n1 := numSample[0], numSample[1];
    var base := |mesh.verts|;
    ghost var verts0, faces0, wellFormed0 := mesh.verts, mesh.faces, mesh.WellFormed();
    var vertexMap := AddGridVertices(mesh, support, n0, n1);
    EmitGridFaces(s, mesh, vertexMap, n0, n1);
    if wellFormed0 {
      SurfaceFacesWithin(base, n0, n1, Style(s));
      WellFormedAfterAppend(mesh, verts0, faces0, SurfacePoints(support, n0, n1, GridKeys(n0 + 1, n1)), SurfaceFaces(base, n0, n1, Style(s)));
    }
    return true;
  }

  /** The vertex loop of the surface sampler: a vertex for every grid point
      (i, j) with 0 <= i <= n0 and 0 <= j <= n1, i-major. */
  method AddGridVertices(mesh: Mesh, support: Support, n0: int, n1: int) returns (vertexMap: map<Key2, int>)
    requires |support| >= 2
    modifies mesh
    ensures vertexMap == SurfaceMap(|old(mesh.verts)|, n0, n1)
    ensures mesh.verts == old(mesh.verts) + SurfacePoints(support, n0, n1, GridKeys(n0 + 1, n1))
    ensures mesh.faces == old(mesh.faces)
  {
    var base := |mesh.verts|;
    ghost var verts0 := mesh.verts;
    vertexMap := map[];
    ghost var keys: seq<Key2> := [];
    var i := 0;
    while i < n0 + 1
      invariant 0 <= i && (i <= n0 + 1 || i == 0)
      invariant keys == GridKeys(i, n1)
      invariant vertexMap == IndexMap(base, keys)
      invariant mesh.verts == verts0 + SurfacePoints(support, n0, n1, keys)
      invariant |mesh.verts| == base + |keys|
      invariant mesh.faces == old(mesh.faces)
    {
      vertexMap, keys := AddGridRow(mesh, support, n0, n1, i, vertexMap, base, verts0, keys);
      assert keys == GridKeys(i + 1, n1);
      i := i + 1;
    }
  }

  /** The inner surface vertex loop: j = 0 .. n1 at grid row i. */
  method AddGridRow(mesh: Mesh, support: Support, n0: int, n1: int, i: int, vertexMap: map<Key2, int>,
                    ghost base: int, ghost verts0: seq<Point>, ghost keys: seq<Key2>)
    returns (vertexMap': map<Key2, int>, ghost keys': seq<Key2>)
    requires |support| >= 2
    requires vertexMap == IndexMap(base, keys)
    requires mesh.verts == verts0 + SurfacePoints(support, n0, n1, keys) && |mesh.verts| == base + |keys|
    modifies mesh
    ensures keys' == keys + GridRow(i, n1 + 1) && vertexMap' == IndexMap(base, keys')
    ensures mesh.verts == verts0 + SurfacePoints(support, n0, n1, keys') && |mesh.verts| == base + |keys'|
    ensures mesh.faces == old(mesh.faces)
  {
    vertexMap', keys' := vertexMap, keys;
    var j := 0;
    while j < n1 + 1
      invariant 0 <= j && (j <= n1 + 1 || j == 0)
      invariant keys' == keys + GridRow(i, j)
      invariant vertexMap' == IndexMap(base, keys')
      invariant mesh.verts == verts0 + SurfacePoints(support, n0, n1, keys') && |mesh.verts| == base + |keys'|
      invariant mesh.faces == old(mesh.faces)
    {
      vertexMap', keys' := AddGridPoint(mesh, support, n0, n1, (i, j), vertexMap', base, verts0, keys');
      RowStep(keys, i, j);
      j := j + 1;
    }
    assert GridRow(i, j) == GridRow(i, n1 + 1);
  }

  /** One more step of a grid row adds grid point (i, j). */
  lemma RowStep(keys: seq<Key2>, i: int, j: int)
    requires j >= 0
    ensures keys + GridRow(i, j + 1) == keys + GridRow(i, j) + [(i, j)]
  {
  }

  /** One step of the surface vertex loop: adds the vertex of grid point k and records its handle. */
  method AddGridPoint(mesh: Mesh, support: Support, n0: int, n1: int, k: Key2, vertexMap: map<Key2, int>,
                      ghost base: int, ghost verts0: seq<Point>, ghost keys: seq<Key2>)
    returns (vertexMap': map<Key2, int>, ghost keys': seq<Key2>)
    requires |support| >= 2
    requires vertexMap == IndexMap(base, keys)
    requires mesh.verts == verts0 + SurfacePoints(support, n0, n1, keys) && |mesh.verts| == base + |keys|
    modifies mesh
    ensures keys' == keys + [k] && vertexMap' == IndexMap(base, keys')
    ensures mesh.verts == verts0 + SurfacePoints(support, n0, n1, keys') && |mesh.verts| == base + |keys'|
    ensures mesh.faces == old(mesh.faces)
  {
    var v := mesh.AddVertex(SurfacePoint(support, n0, n1, k));
    IndexMapAppend(base, keys, k);
    vertexMap' := vertexMap[k := v];
    SurfacePointsAppend(support, n0, n1, keys, k);
    keys' := keys + [k];
  }

  /** The face loop of the surface sampler: cell (i, j), for 0 <= i < n0 and
      0 <= j < n1, has corners (i, j), (i + 1, j), (i, j + 1), (i + 1, j + 1). */
  method EmitGridFaces(s: Strategy, mesh: Mesh, vertexMap: map<Key2, int>, n0: int, n1: int)
    modifies mesh
    ensures mesh.faces == old(mesh.faces) + PatchFaces(GridCorners(vertexMap), n0, n1, Style(s))
    ensures mesh.verts == old(mesh.verts)
  {
    ghost var src := GridCorners(vertexMap);
    var i := 0;
    while i < n0
      invariant 0 <= i && (i <= n0 || i == 0)
      invariant mesh.verts == old(mesh.verts)
      invariant mesh.faces == old(mesh.faces) + PatchFaces(src, i, n1, Style(s))
    {
      EmitGridRow(s, mesh, vertexMap, i, n1);
      AppendAssoc(old(mesh.faces), PatchFaces(src, i, n1, Style(s)), RowFaces(src, i, n1, Style(s)));
      i := i + 1;
    }
  }

  /** The inner surface face loop: cells (i, 0) .. (i, n1 - 1). */
  method EmitGridRow(s: Strategy, mesh: Mesh, vertexMap: map<Key2, int>, i: int, n1: int)
    modifies mesh
    ensures mesh.faces == old(mesh.faces) + RowFaces(GridCorners(vertexMap), i, n1, Style(s))
    ensures mesh.verts == old(mesh.verts)
  {
    ghost var src := GridCorners(vertexMap);
    var j := 0;
    while j < n1
      invariant 0 <= j && (j <= n1 || j == 0)
      invariant mesh.verts == old(mesh.verts)
      invariant mesh.faces == old(mesh.faces) + RowFaces(src, i, j, Style(s))
    {
      var v1 := Lookup(vertexMap, (i, j));
      var v2 := Lookup(vertexMap, (i + 1, j));
      var v3 := Lookup(vertexMap, (i, j + 1));
      var v4 := Lookup(vertexMap, (i + 1, j + 1));
      EmitCell(s, mesh, Quad(v1, v2, v3, v4));
      AppendAssoc(old(mesh.faces), RowFaces(src, i, j, Style(s)), CellFaces(Corners(src, i, j), Style(s)));
      j := j + 1;
    }
    assert RowFaces(src, i, j, Style(s)) == RowFaces(src, i, n1, Style(s));
  }

  lemma AppendAssoc<T>(a: seq<T>, b: seq<T>, c: seq<T>)
    ensures a + b + c == a + (b + c)
  {
  }

  /** The volume sampler.  It fails, leaving the mesh alone, when fewer than
      three sample counts or support rows are given.  Otherwise it appends the
      boundary points of the grid in (i, j, k) order, then the faces of sides
      0 .. 5, each side running i over 0 .. n0 - 1 and j over 0 .. n1 - 1. */
  method BuildVolumeSurfaceMesh(s: Strategy, mesh: Mesh, support: Support, numSample: seq<int>) returns (ok: bool)
    modifies mesh
    ensures ok <==> |numSample| >= 3 && |support| >= 3
    ensures !ok ==> mesh.verts == old(mesh.verts) && mesh.faces == old(mesh.faces)
    ensures ok ==> mesh.verts == old(mesh.verts) + VolumePoints(support, SampleCounts(numSample), ShellKeys(SampleCounts(numSample)))
    ensures ok ==> mesh.faces == old(mesh.faces) + VolumeFaces(|old(mesh.verts)|, SampleCounts(numSample), Style(s))
    ensures ok && numSample[0] == numSample[1] <= numSample[2] && old(mesh.WellFormed()) ==> mesh.WellFormed()
  {
    if |numSample| < 3 || |support| < 3 {
      return false;
    }
    var c := SampleCounts(numSample);
    var base := |mesh.verts|;
    ghost var verts0, faces0, wellFormed0 := mesh.verts, mesh.faces, mesh.WellFormed();
    var vertexMap := AddBoundaryVertices(mesh, support, c);
    EmitShell(s, mesh, vertexMap, c);
    if wellFormed0 && c.n0 == c.n1 <= c.n2 {
      VolumeFacesWithin(base, c, Style(s));
      WellFormedAfterAppend(mesh, verts0, faces0, VolumePoints(support, c, ShellKeys(c)), VolumeFaces(base, c, Style(s)));
    }
    return true;
  }

  /** The face loop of the volume sampler: sides 0 .. 5 in turn. */
  method EmitShell(s: Strategy, mesh: Mesh, vertexMap: map<Key3, int>, c: Counts)
    modifies mesh
    ensures mesh.faces == old(mesh.faces) + ShellFaces(vertexMap, c, 6, Style(s))
    ensures mesh.verts == old(mesh.verts)
  {
    var t := 0;
    while t < 6
      invariant 0 <= t <= 6
      invariant mesh.verts == old(mesh.verts)
      invariant mesh.faces == old(mesh.faces) + ShellFaces(vertexMap, c, t, Style(s))
    {
      EmitSide(s, mesh, vertexMap, c, t);
      AppendAssoc(old(mesh.faces), ShellFaces(vertexMap, c, t, Style(s)), PatchFaces(ShellSide(vertexMap, c, t), c.n0, c.n1, Style(s)));
      t := t + 1;
    }
  }

  /** The vertex loop of the volume sampler: a vertex for every grid point
      with some coordinate at 0 or at its axis count, in (i, j, k) order. */
  method AddBoundaryVertices(mesh: Mesh, support: Support, c: Counts) returns (vertexMap: map<Key3, int>)
    requires |support| >= 3
    modifies mesh
    ensures vertexMap == VolumeMap(|old(mesh.verts)|, c)
    ensures mesh.verts == old(mesh.verts) + VolumePoints(support, c, ShellKeys(c))
    ensures mesh.faces == old(mesh.faces)
  {
    var base := |mesh.verts|;
    ghost var verts0 := mesh.verts;
    vertexMap := map[];
    ghost var keys: seq<Key3> := [];
    var i := 0;
    while i < c.n0 + 1
      invariant 0 <= i && (i <= c.n0 + 1 || i == 0)
      invariant keys == ShellBlock(i, c)
      invariant vertexMap == IndexMap(base, keys)
      invariant mesh.verts == verts0 + VolumePoints(support, c, keys) && |mesh.verts| == base + |keys|
      invariant mesh.faces == old(mesh.faces)
    {
      vertexMap, keys := AddShellSlab(mesh, support, c, i, vertexMap, base, verts0, keys);
      i := i + 1;
    }
    assert ShellBlock(i, c) == ShellKeys(c);
  }

  /** The middle volume vertex loop: j = 0 .. n1 at grid slab i. */
  method AddShellSlab(mesh: Mesh, support: Support, c: Counts, i: int, vertexMap: map<Key3, int>,
                      ghost base: int, ghost verts0: seq<Point>, ghost keys: seq<Key3>)
    returns (vertexMap': map<Key3, int>, ghost keys': seq<Key3>)
    requires |support| >= 3
    requires vertexMap == IndexMap(base, keys)
    requires mesh.verts == verts0 + VolumePoints(support, c, keys) && |mesh.verts| == base + |keys|
    modifies mesh
    ensures keys' == keys + ShellPlane(i, c.n1 + 1, c) && vertexMap' == IndexMap(base, keys')
    ensures mesh.verts == verts0 + VolumePoints(support, c, keys') && |mesh.verts| == base + |keys'|
    ensures mesh.faces == old(mesh.faces)
  {
    vertexMap', keys' := vertexMap, keys;
    var j := 0;
    while j < c.n1 + 1
      invariant 0 <= j && (j <= c.n1 + 1 || j == 0)
      invariant keys' == keys + ShellPlane(i, j, c)
      invariant vertexMap' == IndexMap(base, keys')
      invariant mesh.verts == verts0 + VolumePoints(support, c, keys') && |mesh.verts| == base + |keys'|
      invariant mesh.faces == old(mesh.faces)
    {
      vertexMap', keys' := AddShellColumn(mesh, support, c, i, j, vertexMap', base, verts0, keys');
      SlabStep(keys, i, j, c);
      j := j + 1;
    }
    assert ShellPlane(i, j, c) == ShellPlane(i, c.n1 + 1, c);
  }

  /** One more column of a slab extends the visiting order by that column. */
  lemma SlabStep(keys: seq<Key3>, i: int, j: int, c: Counts)
    requires j >= 0
    ensures keys + ShellPlane(i, j + 1, c) == keys + ShellPlane(i, j, c) + ShellRow(i, j, c.n2 + 1, c)
  {
  }

  /** The innermost volume vertex loop: k = 0 .. n2 at grid column (i, j),
      adding a vertex only for the boundary points. */
  method AddShellColumn(mesh: Mesh, support: Support, c: Counts, i: int, j: int, vertexMap: map<Key3, int>,
                        ghost base: int, ghost verts0: seq<Point>, ghost keys: seq<Key3>)
    returns (vertexMap': map<Key3, int>, ghost keys': seq<Key3>)
    requires |support| >= 3
    requires vertexMap == IndexMap(base, keys)
    requires mesh.verts == verts0 + VolumePoints(support, c, keys) && |mesh.verts| == base + |keys|
    modifies mesh
    ensures keys' == keys + ShellRow(i, j, c.n2 + 1, c) && vertexMap' == IndexMap(base, keys')
    ensures mesh.verts == verts0 + VolumePoints(support, c, keys') && |mesh.verts| == base + |keys'|
    ensures mesh.faces == old(mesh.faces)
  {
    vertexMap', keys' := vertexMap, keys;
    var k := 0;
    while k < c.n2 + 1
      invariant 0 <= k && (k <= c.n2 + 1 || k == 0)
      invariant keys' == keys + ShellRow(i, j, k, c)
      invariant vertexMap' == IndexMap(base, keys')
      invariant mesh.verts == verts0 + VolumePoints(support, c, keys') && |mesh.verts| == base + |keys'|
      invariant mesh.faces == old(mesh.faces)
    {
      if i == 0 || i == c.n0 || j == 0 || j == c.n1 || k == 0 || k == c.n2 {
        vertexMap', keys' := AddShellPoint(mesh, support, c, (i, j, k), vertexMap', base, verts0, keys');
      }
      ColumnStep(keys, i, j, k, c);
      k := k + 1;
    }
    assert ShellRow(i, j, k, c) == ShellRow(i, j, c.n2 + 1, c);
  }

  /** One more step of a column adds the grid point exactly when it lies on the shell. */
  lemma ColumnStep(keys: seq<Key3>, i: int, j: int, k: int, c: Counts)
    requires k >= 0
    ensures keys + ShellRow(i, j, k + 1, c) == keys + ShellRow(i, j, k, c) + (if OnShell((i, j, k), c) then [(i, j, k)] else [])
  {
  }

  /** One step of the volume vertex loop: adds the vertex of grid point k and records its handle. */
  method AddShellPoint(mesh: Mesh, support: Support, c: Counts, k: Key3, vertexMap: map<Key3, int>,
                       ghost base: int, ghost verts0: seq<Point>, ghost keys: seq<Key3>)
    returns (vertexMap': map<Key3, int>, ghost keys': seq<Key3>)
    requires |support| >= 3
    requires vertexMap == IndexMap(base, keys)
    requires mesh.verts == verts0 + VolumePoints(support, c, keys) && |mesh.verts| == base + |keys|
    modifies mesh
    ensures keys' == keys + [k] && vertexMap' == IndexMap(base, keys')
    ensures mesh.verts == verts0 + VolumePoints(support, c, keys') && |mesh.verts| == base + |keys'|
    ensures mesh.faces == old(mesh.faces)
  {
    var v := mesh.AddVertex(VolumePoint(support, c, k));
    IndexMapAppend(base, keys, k);
    vertexMap' := vertexMap[k := v];
    VolumePointsAppend(support, c, keys, k);
    keys' := keys + [k];
  }

  /** The face loop of the volume sampler for side t: cells (i, j) with
      0 <= i < n0 and 0 <= j < n1, whose corner keys the side determines. */
  method EmitSide(s: Strategy, mesh: Mesh, vertexMap: map<Key3, int>, c: Counts, t: Side)
    modifies mesh
    ensures mesh.faces == old(mesh.faces) + PatchFaces(ShellSide(vertexMap, c, t), c.n0, c.n1, Style(s))
    ensures mesh.verts == old(mesh.verts)
  {
    ghost var src := ShellSide(vertexMap, c, t);
    var i := 0;
    while i < c.n0
      invariant 0 <= i && (i <= c.n0 || i == 0)
      invariant mesh.verts == old(mesh.verts)
      invariant mesh.faces == old(mesh.faces) + PatchFaces(src, i, c.n1, Style(s))
    {
      EmitSideRow(s, mesh, vertexMap, c, t, i);
      AppendAssoc(old(mesh.faces), PatchFaces(src, i, c.n1, Style(s)), RowFaces(src, i, c.n1, Style(s)));
      i := i + 1;
    }
  }

  /** The inner volume face loop for side t: cells (i, 0) .. (i, n1 - 1). */
  method EmitSideRow(s: Strategy, mesh: Mesh, vertexMap: map<Key3, int>, c: Counts, t: Side, i: int)
    modifies mesh
    ensures mesh.faces == old(mesh.faces) + RowFaces(ShellSide(vertexMap, c, t), i, c.n1, Style(s))
    ensures mesh.verts == old(mesh.verts)
  {
    ghost var src := ShellSide(vertexMap, c, t);
    var j := 0;
    while j < c.n1
      invariant 0 <= j && (j <= c.n1 || j == 0)
      invariant mesh.verts == old(mesh.verts)
      invariant mesh.faces == old(mesh.faces) + RowFaces(src, i, j, Style(s))
    {
      var (k1, k2, k3, k4) := SideCornerKeys(t, i, j, c);
      var v1 := Lookup(vertexMap, k1);
      var v2 := Lookup(vertexMap, k2);
      var v3 := Lookup(vertexMap, k3);
      var v4 := Lookup(vertexMap, k4);
      EmitCell(s, mesh, Quad(v1, v2, v3, v4));
      AppendAssoc(old(mesh.faces), RowFaces(src, i, j, Style(s)), CellFaces(Corners(src, i, j), Style(s)));
      j := j + 1;
    }
    assert RowFaces(src, i, j, Style(s)) == RowFaces(src, i, c.n1, Style(s));
  }

  /** The sampler the strategy's kind selects. */
  method BuildMesh(s: Strategy, mesh: Mesh, support: Support, numSample: seq<int>) returns (ok: bool)
    modifies mesh
    ensures s.kind == Surface ==> (ok <==> |numSample| >= 2 && |support| >= 2)
    ensures s.kind == VolumeSurface ==> (ok <==> |numSample| >= 3 && |support| >= 3)
    ensures !ok ==> mesh.verts == old(mesh.verts) && mesh.faces == old(mesh.faces)
    ensures ok && s.kind == Surface ==>
      mesh.verts == old(mesh.verts) + SurfacePoints(support, numSample[0], numSample[1], GridKeys(numSample[0] + 1, numSample[1])) &&
      mesh.faces == old(mesh.faces) + SurfaceFaces(|old(mesh.verts)|, numSample[0], numSample[1], Style(s))
    ensures ok && s.kind == VolumeSurface ==>
      mesh.verts == old(mesh.verts) + VolumePoints(support, SampleCounts(numSample), ShellKeys(SampleCounts(numSample))) &&
      mesh.faces == old(mesh.faces) + VolumeFaces(|old(mesh.verts)|, SampleCounts(numSample), Style(s))
  {
    match s.kind
    case Surface =>
      ok := BuildSurfaceMesh(s, mesh, support, numSample);
    case VolumeSurface =>
      ok := BuildVolumeSurfaceMesh(s, mesh, support, numSample);
  }

  /** The overload taking one sample count: the count vector [n, n, n]. */
  method BuildMeshUniform(s: Strategy, mesh: Mesh, support: Support, numSample: int := 64) returns (ok: bool)
    modifies mesh
    ensures s.kind == Surface ==> (ok <==> |support| >= 2)
    ensures s.kind == VolumeSurface ==> (ok <==> |support| >= 3)
    ensures !ok ==> mesh.verts == old(mesh.verts) && mesh.faces == old(mesh.faces)
    ensures ok && s.kind == Surface ==>
      mesh.verts == old(mesh.verts) + SurfacePoints(support, numSample, numSample, GridKeys(numSample + 1, numSample)) &&
      mesh.faces == old(mesh.faces) + SurfaceFaces(|old(mesh.verts)|, numSample, numSample, Style(s))
    ensures ok && s.kind == VolumeSurface ==>
      mesh.verts == old(mesh.verts) + VolumePoints(support, Counts(numSample, numSample, numSample), ShellKeys(Counts(numSample, numSample, numSample))) &&
      mesh.faces == old(mesh.faces) + VolumeFaces(|old(mesh.verts)|, Counts(numSample, numSample, numSample), Style(s))
  {
    ok := BuildMesh(s, mesh, support, [numSample, numSample, numSample]);
  }

  /** The overload taking no support: the unit cube. */
  method BuildMeshUnitCube(s: Strategy, mesh: Mesh, numSample: int := 64) returns (ok: bool)
    modifies mesh
    ensures ok
    ensures s.kind == Surface ==>
      mesh.verts == old(mesh.verts) + SurfacePoints(UNIT_CUBE, numSample, numSample, GridKeys(numSample + 1, numSample)) &&
      mesh.faces == old(mesh.faces) + SurfaceFaces(|old(mesh.verts)|, numSample, numSample, Style(s))
    ensures s.kind == VolumeSurface ==>
      mesh.verts == old(mesh.verts) + VolumePoints(UNIT_CUBE, Counts(numSample, numSample, numSample), ShellKeys(Counts(numSample, numSample, numSample))) &&
      mesh.faces == old(mesh.faces) + VolumeFaces(|old(mesh.verts)|, Counts(numSample, numSample, numSample), Style(s))
  {
    ok := BuildMeshUniform(s, mesh, UNIT_CUBE, numSample);
  }

  // ---------------------------------------------------------------------
  // Helpers for the loops
  // ---------------------------------------------------------------------

  lemma SurfacePointsAppend(support: Support, n0: int, n1: int, ks: seq<Key2>, k: Key2)
    requires |support| >= 2
    ensures SurfacePoints(support, n0, n1, ks + [k]) == SurfacePoints(support, n0, n1, ks) + [SurfacePoint(support, n0, n1, k)]
  {
    assert (ks + [k])[..|ks|] == ks;
  }

  lemma VolumePointsAppend(support: Support, c: Counts, ks: seq<Key3>, k: Key3)
    requires |support| >= 3
    ensures VolumePoints(support, c, ks + [k]) == VolumePoints(support, c, ks) + [VolumePoint(support, c, k)]
  {
    assert (ks + [k])[..|ks|] == ks;
  }

  lemma GridKeysLength(iEnd: int, n1: int)
    ensures |GridKeys(iEnd, n1)| == (if iEnd >= 0 && n1 >= 0 then iEnd * (n1 + 1) else 0)
  {
    if iEnd >= 0 && n1 >= 0 {
      GridKeysFacts(iEnd, n1);
    } else {
      GridKeysEmpty(iEnd, n1);
    }
  }

  lemma {:induction false} GridKeysEmpty(iEnd: int, n1: int)
    requires iEnd < 0 || n1 < 0
    ensures GridKeys(iEnd, n1) == []
    decreases iEnd
  {
    if iEnd > 0 {
      GridKeysEmpty(iEnd - 1, n1);
    }
  }

  lemma WellFormedAfterAppend(mesh: Mesh, verts0: seq<Point>, faces0: seq<seq<int>>, vs: seq<Point>, fs: seq<seq<int>>)
    requires mesh.verts == verts0 + vs && mesh.faces == faces0 + fs
    requires forall p, h :: 0 <= p < |faces0| && h in faces0[p] ==> 0 <= h < |verts0|
    requires FacesWithin(fs, |verts0|, |verts0| + |vs|)
    ensures mesh.WellFormed()
  {
    forall p, h | 0 <= p < |mesh.faces| && h in mesh.faces[p]
      ensures 0 <= h < |mesh.verts|
    {
      if p >= |faces0| {
        assert mesh.faces[p] == fs[p - |faces0|];
      }
    }
  }

  // ---------------------------------------------------------------------
  // Properties of the surface sampler
  // ---------------------------------------------------------------------

  /** Every face handle the surface sampler emits names one of the vertices it
      added, for every sample count, negative ones included. */
  lemma SurfaceFacesWithin(base: int, n0: int, n1: int, style: CellStyle)
    ensures FacesWithin(SurfaceFaces(base, n0, n1, style), base, base + |GridKeys(n0 + 1, n1)|)
  {
    if n0 >= 0 && n1 >= 0 {
      GridFacesWithin(base, n0, n1, style);
    } else {
      SurfaceFacesEmpty(base, n0, n1, style);
    }
  }

  /** A negative sample count leaves the face loop empty. */
  lemma SurfaceFacesEmpty(base: int, n0: int, n1: int, style: CellStyle)
    requires n0 < 0 || n1 < 0
    ensures SurfaceFaces(base, n0, n1, style) == []
  {
    PatchFacesLength(GridCorners(SurfaceMap(base, n0, n1)), n0, n1, style);
    assert Clamp(n0) == 0 || Clamp(n1) == 0;
  }

  lemma GridFacesWithin(base: int, n0: int, n1: int, style: CellStyle)
    requires n0 >= 0 && n1 >= 0
    ensures FacesWithin(SurfaceFaces(base, n0, n1, style), base, base + |GridKeys(n0 + 1, n1)|)
  {
    GridKeysCount(n0 + 1, n1);
    GridFacesBelow(base, n0, n1, style, base + |GridKeys(n0 + 1, n1)|);
  }

  lemma GridFacesBelow(base: int, n0: int, n1: int, style: CellStyle, hi: int)
    requires n0 >= 0 && n1 >= 0 && hi == base + (n0 + 1) * (n1 + 1)
    ensures FacesWithin(SurfaceFaces(base, n0, n1, style), base, hi)
  {
    var src := GridCorners(SurfaceMap(base, n0, n1));
    forall i, j | 0 <= i < n0 && 0 <= j < n1
      ensures QuadWithin(Corners(src, i, j), base, hi)
    {
      GridCellWithin(base, n0, n1, i, j);
    }
    PatchFacesWithin(src, n0, n1, style, base, hi);
  }

  lemma GridCellWithin(base: int, n0: int, n1: int, i: int, j: int)
    requires n0 >= 0 && n1 >= 0 && 0 <= i < n0 && 0 <= j < n1
    ensures QuadWithin(Corners(GridCorners(SurfaceMap(base, n0, n1)), i, j), base, base + (n0 + 1) * (n1 + 1))
  {
    GridHandleWithin(base, n0, n1, i, j);
    GridHandleWithin(base, n0, n1, i + 1, j);
    GridHandleWithin(base, n0, n1, i, j + 1);
    GridHandleWithin(base, n0, n1, i + 1, j + 1);
  }

  lemma GridHandleWithin(base: int, n0: int, n1: int, a: int, b: int)
    requires n0 >= 0 && n1 >= 0 && 0 <= a <= n0 && 0 <= b <= n1
    ensures base <= Lookup(SurfaceMap(base, n0, n1), (a, b)) < base + (n0 + 1) * (n1 + 1)
  {
    GridHandle(base, n0, n1, a, b);
    MulMonotone(a + 1, n0 + 1, n1 + 1);
    MulAddRight(a, 1, n1 + 1);
  }

  lemma {:induction false} SurfacePointsAt(support: Support, n0: int, n1: int, ks: seq<Key2>, p: int)
    requires |support| >= 2 && 0 <= p < |ks|
    ensures SurfacePoints(support, n0, n1, ks)[p] == SurfacePoint(support, n0, n1, ks[p])
    decreases |ks|
  {
    if p < |ks| - 1 {
      SurfacePointsAt(support, n0, n1, ks[..|ks| - 1], p);
    }
  }

  /** The surface sampler adds (n0 + 1) * (n1 + 1) vertices; grid point (a, b)
      gets handle base + a * (n1 + 1) + b and the position of that grid point. */
  lemma SurfaceVertexLayout(support: Support, base: int, n0: int, n1: int, a: int, b: int)
    requires |support| >= 2
    requires n0 >= 0 && n1 >= 0 && 0 <= a <= n0 && 0 <= b <= n1
    ensures |SurfacePoints(support, n0, n1, GridKeys(n0 + 1, n1))| == (n0 + 1) * (n1 + 1)
    ensures (a, b) in SurfaceMap(base, n0, n1) && SurfaceMap(base, n0, n1)[(a, b)] == base + a * (n1 + 1) + b
    ensures SurfacePoints(support, n0, n1, GridKeys(n0 + 1, n1))[a * (n1 + 1) + b] == SurfacePoint(support, n0, n1, (a, b))
  {
    GridKeysLength(n0 + 1, n1);
    GridHandle(base, n0, n1, a, b);
    GridKeyAt(n0 + 1, n1, a, b);
    SurfacePointsAt(support, n0, n1, GridKeys(n0 + 1, n1), a * (n1 + 1) + b);
  }

  /** The surface sampler emits 2 * n0 * n1 triangles, or n0 * n1 quads. */
  lemma SurfaceFaceCount(base: int, n0: int, n1: int, meshType: MeshType, invert: bool)
    requires n0 >= 0 && n1 >= 0
    ensures |SurfaceFaces(base, n0, n1, StrategyStyle(meshType, invert))| == (if meshType == SQUARE_MESH then n0 * n1 else 2 * n0 * n1)
  {
    var style := StrategyStyle(meshType, invert);
    PatchFacesLength(GridCorners(SurfaceMap(base, n0, n1)), n0, n1, style);
    assert |SurfaceFaces(base, n0, n1, style)| == n0 * (n1 * FacesPerCell(style));
    if meshType == SQUARE_MESH {
      assert FacesPerCell(style) == 1;
    } else {
      assert FacesPerCell(style) == 2;
      Twice(n0, n1);
    }
  }

  lemma Twice(a: int, b: int)
    ensures a * (b * 2) == 2 * a * b
  {
    MulAddRight(b, b, a);
    MulAddRight(a, a, b);
    assert b * 2 == b + b && 2 * a == a + a;
  }

  /** Face q of cell (i, j) is face (i * n1 + j) * (faces per cell) + q, and its
      corners are the handles of grid points (i, j), (i + 1, j), (i, j + 1),
      (i + 1, j + 1), arranged by the cell convention. */
  lemma SurfaceFaceAt(base: int, n0: int, n1: int, style: CellStyle, i: int, j: int, q: int)
    requires 0 <= i < n0 && 0 <= j < n1 && 0 <= q < FacesPerCell(style)
    ensures 0 <= (i * n1 + j) * FacesPerCell(style) + q < |SurfaceFaces(base, n0, n1, style)|
    ensures SurfaceFaces(base, n0, n1, style)[(i * n1 + j) * FacesPerCell(style) + q] ==
            CellFaces(Quad(SurfaceHandle(base, n1, i, j), SurfaceHandle(base, n1, i + 1, j),
                           SurfaceHandle(base, n1, i, j + 1), SurfaceHandle(base, n1, i + 1, j + 1)), style)[q]
  {
    PatchFaceAt(GridCorners(SurfaceMap(base, n0, n1)), n0, n1, style, i, j, q);
    SurfaceCellCorners(base, n0, n1, i, j);
  }

  /** The handle the surface sampler gives grid point (a, b). */
  function SurfaceHandle(base: int, n1: int, a: int, b: int): int
  {
    base + a * (n1 + 1) + b
  }

  lemma SurfaceCellCorners(base: int, n0: int, n1: int, i: int, j: int)
    requires 0 <= i < n0 && 0 <= j < n1
    ensures Corners(GridCorners(SurfaceMap(base, n0, n1)), i, j) ==
            Quad(SurfaceHandle(base, n1, i, j), SurfaceHandle(base, n1, i + 1, j),
                 SurfaceHandle(base, n1, i, j + 1), SurfaceHandle(base, n1, i + 1, j + 1))
  {
    GridHandle(base, n0, n1, i, j);
    GridHandle(base, n0, n1, i + 1, j);
    GridHandle(base, n0, n1, i, j + 1);
    GridHandle(base, n0, n1, i + 1, j + 1);
  }

  /** Inverting normals keeps every surface face's corners and position in the
      face list and reverses its winding. */
  lemma SurfaceInvertReverses(base: int, n0: int, n1: int, meshType: MeshType)
    ensures AllOpposite(SurfaceFaces(base, n0, n1, StrategyStyle(meshType, false)), SurfaceFaces(base, n0, n1, StrategyStyle(meshType, true)))
  {
    PatchInvertReverses(GridCorners(SurfaceMap(base, n0, n1)), n0, n1, StrategyStyle(meshType, false));
  }

  /** An unrecognised mesh type emits exactly what TRIANGLE_MESH emits. */
  lemma SurfaceUnknownTypeIsTriangles(base: int, n0: int, n1: int, meshType: MeshType, invert: bool)
    requires meshType != TRIANGLE_MESH && meshType != SQUARE_MESH
    ensures SurfaceFaces(base, n0, n1, StrategyStyle(meshType, invert)) == SurfaceFaces(base, n0, n1, StrategyStyle(TRIANGLE_MESH, invert))
  {
    PatchSameCells(GridCorners(SurfaceMap(base, n0, n1)), n0, n1, StrategyStyle(meshType, invert), StrategyStyle(TRIANGLE_MESH, invert));
  }

  /** The unit square sampled with n = 1: vertices (0, 0), (0, 1), (1, 0), (1, 1)
      get handles 0 .. 3, and the single cell yields the triangles (0, 2, 1),
      (2, 3, 1), or the quad (0, 2, 3, 1). */
  lemma SurfaceUnitSquare()
    ensures SurfacePoints(UNIT_CUBE, 1, 1, GridKeys(2, 1)) ==
            [Point(0.0, 0.0, 0.0), Point(0.0, 1.0, 0.0), Point(1.0, 0.0, 0.0), Point(1.0, 1.0, 0.0)]
    ensures SurfaceFaces(0, 1, 1, StrategyStyle(TRIANGLE_MESH, false)) == [[0, 2, 1], [2, 3, 1]]
    ensures SurfaceFaces(0, 1, 1, StrategyStyle(SQUARE_MESH, false)) == [[0, 2, 3, 1]]
  {
    UnitSquareKeys();
    UnitSquarePoints();
    UnitSquareCorners();
    SingleCell(GridCorners(SurfaceMap(0, 1, 1)), StrategyStyle(TRIANGLE_MESH, false));
    SingleCell(GridCorners(SurfaceMap(0, 1, 1)), StrategyStyle(SQUARE_MESH, false));
  }

  lemma UnitSquareKeys()
    ensures GridKeys(2, 1) == [(0, 0), (0, 1), (1, 0), (1, 1)]
  {
    assert GridKeys(1, 1) == [(0, 0), (0, 1)];
  }

  lemma UnitSquarePoints()
    ensures SurfacePoints(UNIT_CUBE, 1, 1, [(0, 0), (0, 1), (1, 0), (1, 1)]) ==
            [Point(0.0, 0.0, 0.0), Point(0.0, 1.0, 0.0), Point(1.0, 0.0, 0.0), Point(1.0, 1.0, 0.0)]
  {
    var ks := [(0, 0), (0, 1), (1, 0), (1, 1)];
    assert ks[..3] == [(0, 0), (0, 1), (1, 0)] && ks[..3][..2] == [(0, 0), (0, 1)] && ks[..3][..2][..1] == [(0, 0)];
    assert SurfacePoints(UNIT_CUBE, 1, 1, [(0, 0)]) == [Point(0.0, 0.0, 0.0)];
    assert SurfacePoints(UNIT_CUBE, 1, 1, [(0, 0), (0, 1)]) == [Point(0.0, 0.0, 0.0), Point(0.0, 1.0, 0.0)];
  }

  lemma UnitSquareCorners()
    ensures Corners(GridCorners(SurfaceMap(0, 1, 1)), 0, 0) == Quad(0, 2, 1, 3)
  {
    SurfaceCellCorners(0, 1, 1, 0, 0);
  }

  /** A patch of one cell yields that cell's faces. */
  lemma SingleCell(src: CornerSource, style: CellStyle)
    ensures PatchFaces(src, 1, 1, style) == CellFaces(Corners(src, 0, 0), style)
  {
    assert PatchFaces(src, 1, 1, style) == RowFaces(src, 0, 1, style);
  }

  // ---------------------------------------------------------------------
  // Properties of the volume sampler
  // ---------------------------------------------------------------------

  /** With every count at least 1 the volume sampler adds
      (n0 + 1)(n1 + 1)(n2 + 1) - (n0 - 1)(n1 - 1)(n2 - 1) vertices. */
  lemma VolumeVertexCount(support: Support, c: Counts)
    requires |support| >= 3
    requires c.n0 >= 1 && c.n1 >= 1 && c.n2 >= 1
    ensures |VolumePoints(support, c, ShellKeys(c))| == (c.n0 + 1) * (c.n1 + 1) * (c.n2 + 1) - (c.n0 - 1) * (c.n1 - 1) * (c.n2 - 1)
  {
    ShellKeysCount(c);
  }

  /** A grid point gets a vertex exactly when it lies on the boundary of the
      box, and its handle is one of those the sampler added. */
  lemma VolumeVertexKeys(base: int, c: Counts, k: Key3)
    ensures k in VolumeMap(base, c) <==> InBox(k, c) && OnShell(k, c)
    ensures k in VolumeMap(base, c) ==> base <= VolumeMap(base, c)[k] < base + |ShellKeys(c)|
  {
    ShellKeysExactlyBoundary(c);
    IndexMapDomain(base, ShellKeys(c), k);
    if k in VolumeMap(base, c) {
      IndexMapRange(base, ShellKeys(c), k);
    }
  }

  /** Six sides of n0 x n1 cells: 6 * 2 * n0 * n1 triangles, or 6 * n0 * n1 quads. */
  lemma VolumeFaceCount(base: int, c: Counts, meshType: MeshType, invert: bool)
    requires c.n0 >= 0 && c.n1 >= 0
    ensures |VolumeFaces(base, c, StrategyStyle(meshType, invert))| == 6 * (if meshType == SQUARE_MESH then c.n0 * c.n1 else 2 * c.n0 * c.n1)
  {
    var style := StrategyStyle(meshType, invert);
    ShellFacesLength(VolumeMap(base, c), c, 6, style);
    assert Clamp(c.n0) == c.n0 && Clamp(c.n1) == c.n1;
    if meshType != SQUARE_MESH {
      assert FacesPerCell(style) == 2;
      Twice(c.n0, c.n1);
    } else {
      assert FacesPerCell(style) == 1;
    }
  }

  /** The faces come out side by side: face q of cell (i, j) of side t is face
      t * P + (i * n1 + j) * (faces per cell) + q, with P faces per side. */
  lemma VolumeFaceAt(base: int, c: Counts, style: CellStyle, t: Side, i: int, j: int, q: int)
    requires 0 <= i < c.n0 && 0 <= j < c.n1 && 0 <= q < FacesPerCell(style)
    ensures 0 <= t * SideSize(c, style) + ((i * c.n1 + j) * FacesPerCell(style) + q) < |VolumeFaces(base, c, style)|
    ensures VolumeFaces(base, c, style)[t * SideSize(c, style) + ((i * c.n1 + j) * FacesPerCell(style) + q)] ==
            CellFaces(Corners(ShellSide(VolumeMap(base, c), c, t), i, j), style)[q]
  {
    var src := ShellSide(VolumeMap(base, c), c, t);
    var per := SideSize(c, style);
    PatchFaceAt(src, c.n0, c.n1, style, i, j, q);
    PatchFacesLength(src, c.n0, c.n1, style);
    VolumeSideBlock(base, c, style, t);
    SideOffsets(t, per);
    BlockIndex(VolumeFaces(base, c, style), PatchFaces(src, c.n0, c.n1, style), t * per, (t + 1) * per,
               (i * c.n1 + j) * FacesPerCell(style) + q);
  }

  /** Side t occupies faces t * P .. (t + 1) * P - 1 of the volume faces, P faces per side. */
  lemma VolumeSideBlock(base: int, c: Counts, style: CellStyle, t: Side)
    ensures (t + 1) * SideSize(c, style) <= |VolumeFaces(base, c, style)|
    ensures VolumeFaces(base, c, style)[t * SideSize(c, style) .. (t + 1) * SideSize(c, style)] ==
            PatchFaces(ShellSide(VolumeMap(base, c), c, t), c.n0, c.n1, style)
  {
    ShellFacesBlock(VolumeMap(base, c), c, 6, style, t);
  }

  lemma SideOffsets(t: int, per: int)
    requires 0 <= t && 0 <= per
    ensures 0 <= t * per && (t + 1) * per == t * per + per
  {
    MulAddRight(t, 1, per);
    MulMonotone(0, t, per);
  }

  /** Index x of a block that occupies a .. b - 1 of s is index a + x of s. */
  lemma BlockIndex<T>(s: seq<T>, block: seq<T>, a: int, b: int, x: int)
    requires 0 <= a <= b <= |s| && s[a..b] == block && 0 <= x < |block|
    ensures a + x < |s| && s[a + x] == block[x]
  {
    assert s[a..b][x] == s[a + x];
  }

  /** Inverting normals keeps every volume face's corners and position and reverses its winding. */
  lemma VolumeInvertReverses(base: int, c: Counts, meshType: MeshType)
    ensures AllOpposite(VolumeFaces(base, c, StrategyStyle(meshType, false)), VolumeFaces(base, c, StrategyStyle(meshType, true)))
  {
    ShellInvertReverses(VolumeMap(base, c), c, 6, StrategyStyle(meshType, false));
  }

  /** Every face handle of the volume sampler names one of the vertices it
      added exactly when n0 == n1 <= n2 (for n0, n1 >= 1): the side loops run
      over n0 x n1 cells on every side, so other counts look up grid points
      outside the box and put the null handle into a face. */
  lemma VolumeFacesWithinIff(base: int, c: Counts, meshType: MeshType, invert: bool)
    requires base >= 0 && c.n0 >= 1 && c.n1 >= 1
    ensures FacesWithin(VolumeFaces(base, c, StrategyStyle(meshType, invert)), base, base + |ShellKeys(c)|)
            <==> c.n0 == c.n1 <= c.n2
  {
    if c.n0 == c.n1 <= c.n2 {
      VolumeFacesWithin(base, c, StrategyStyle(meshType, invert));
    } else {
      VolumeMissingCorner(base, c, meshType, invert);
    }
  }

  /** With n0 == n1 <= n2 every corner lookup of every side hits a vertex the sampler added. */
  lemma VolumeFacesWithin(base: int, c: Counts, style: CellStyle)
    requires c.n0 == c.n1 <= c.n2
    ensures FacesWithin(VolumeFaces(base, c, style), base, base + |ShellKeys(c)|)
  {
    var m := VolumeMap(base, c);
    forall t: Side, i, j | 0 <= i < c.n0 && 0 <= j < c.n1
      ensures QuadWithin(Corners(ShellSide(m, c, t), i, j), base, base + |ShellKeys(c)|)
    {
      SideCellWithin(base, c, t, i, j);
    }
    ShellFacesWithin(m, c, 6, style, base, base + |ShellKeys(c)|);
  }

  lemma SideCellWithin(base: int, c: Counts, t: Side, i: int, j: int)
    requires c.n0 == c.n1 <= c.n2 && 0 <= i < c.n0 && 0 <= j < c.n1
    ensures QuadWithin(Corners(ShellSide(VolumeMap(base, c), c, t), i, j), base, base + |ShellKeys(c)|)
  {
    var (k1, k2, k3, k4) := SideCornerKeys(t, i, j, c);
    SideKeysOnShell(t, i, j, c);
    VolumeVertexKeys(base, c, k1);
    VolumeVertexKeys(base, c, k2);
    VolumeVertexKeys(base, c, k3);
    VolumeVertexKeys(base, c, k4);
  }

  /** With n0 == n1 <= n2 the four corner keys of every cell of every side lie on the boundary of the box. */
  lemma SideKeysOnShell(t: Side, i: int, j: int, c: Counts)
    requires c.n0 == c.n1 <= c.n2 && 0 <= i < c.n0 && 0 <= j < c.n1
    ensures var (k1, k2, k3, k4) := SideCornerKeys(t, i, j, c);
            InBox(k1, c) && OnShell(k1, c) && InBox(k2, c) && OnShell(k2, c) &&
            InBox(k3, c) && OnShell(k3, c) && InBox(k4, c) && OnShell(k4, c)
  {
  }

  lemma {:induction false} ShellFacesWithin(m: map<Key3, int>, c: Counts, tEnd: int, style: CellStyle, lo: int, hi: int)
    requires tEnd <= 6
    requires forall t: Side, i, j :: t < tEnd && 0 <= i < c.n0 && 0 <= j < c.n1 ==> QuadWithin(Corners(ShellSide(m, c, t), i, j), lo, hi)
    ensures FacesWithin(ShellFaces(m, c, tEnd, style), lo, hi)
    decreases tEnd
  {
    if tEnd > 0 {
      ShellFacesWithin(m, c, tEnd - 1, style, lo, hi);
      PatchFacesWithin(ShellSide(m, c, tEnd - 1), c.n0, c.n1, style, lo, hi);
      FacesWithinConcat(ShellFaces(m, c, tEnd - 1, style), PatchFaces(ShellSide(m, c, tEnd - 1), c.n0, c.n1, style), lo, hi);
    }
  }

  /** Otherwise some cell has a corner key outside the box, so its first face holds the null handle. */
  lemma VolumeMissingCorner(base: int, c: Counts, meshType: MeshType, invert: bool)
    requires base >= 0 && c.n0 >= 1 && c.n1 >= 1
    requires !(c.n0 == c.n1 <= c.n2)
    ensures !FacesWithin(VolumeFaces(base, c, StrategyStyle(meshType, invert)), base, base + |ShellKeys(c)|)
  {
    var style := StrategyStyle(meshType, invert);
    var m := VolumeMap(base, c);
    var t: Side, i, j, missing;
    if c.n0 > c.n1 {
      // side 2, cell (n0 - 1, 0): v2 is (0, n0, 0), beyond n1
      t, i, j := 2, c.n0 - 1, 0;
      missing := (0, c.n0, 0);
    } else if c.n1 > c.n0 {
      // side 2, cell (0, n1 - 1): v3 is (n1, 0, 0), beyond n0
      t, i, j := 2, 0, c.n1 - 1;
      missing := (c.n1, 0, 0);
    } else {
      // side 0, cell (n0 - 1, 0): v2 is (0, 0, n0), beyond n2
      t, i, j := 0, c.n0 - 1, 0;
      missing := (0, 0, c.n0);
    }
    VolumeVertexKeys(base, c, missing);
    var q := Corners(ShellSide(m, c, t), i, j);
    assert NULL_HANDLE == q.v2 || NULL_HANDLE == q.v3;
    FirstFaceHasMiddleCorners(q, meshType, invert);
    VolumeFaceAt(base, c, style, t, i, j, 0);
  }

  /** The first face of a cell, in every strategy convention, contains v2 and v3. */
  lemma FirstFaceHasMiddleCorners(q: Quad, meshType: MeshType, invert: bool)
    ensures q.v2 in CellFaces(q, StrategyStyle(meshType, invert))[0]
    ensures q.v3 in CellFaces(q, StrategyStyle(meshType, invert))[0]
  {
  }
}
