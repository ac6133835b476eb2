/**
 * The matrix-based tessellators of a loaded spline and the OFF writers built
 * on them.
 *
 * `BuildSurfacetoMatrix` samples the parameter domain on an (n + 1)-point
 * grid per axis (only the boundary points for a volume), evaluates the
 * spline at the samples (the rows of V) and lists two triangles per grid cell
 * (the rows of F), with the vertex numbers the samples got in visiting order.
 * The volume variant can also record, for every face, which of the six sides
 * of the parameter cube it lies on.  `BuildSurfacetoFileOFF` writes V and F
 * as an OFF document.
 */
module SplineProcess {
  import opened Wrappers
  import opened Grid
  import opened Cells
  import opened Meshes
  import opened MeshStrategy
  import opened Text

  /** A loaded spline: the dimension of its parameter domain, the domain (row a
      holds min and max of axis a) and the spline's value at a parameter point.
      A two-dimensional parameter (u, v) is passed as the point (u, v, 0). */
  datatype Spline = Spline(parDim: int, support: Support, eval: Point -> Point)

  datatype ProcessKind = VolumeProcess | SurfaceProcess

  /** The process the command line creates for a spline: volume processing
      for a trivariate spline, surface processing for a bivariate one, none
      (the program exits with a failure) otherwise. */
  function ProcessFor(parDim: int): (k: Option<ProcessKind>)
    ensures k == Some(VolumeProcess) <==> parDim == 3
    ensures k == Some(SurfaceProcess) <==> parDim == 2
    ensures k == None <==> parDim != 2 && parDim != 3
  {
    if parDim == 3 then Some(VolumeProcess)
    else if parDim == 2 then Some(SurfaceProcess)
    else None
  }

  /** The sample counts of the volume tessellator: n cells along every axis. */
  function Cube(n: int): Counts
  {
    Counts(n, n, n)
  }

  /** `eval_into` on the parameter matrix, one value per parameter column. */
  function EvalAll(spline: Spline, params: seq<Point>): seq<Point>
  {
    seq(|params|, p requires 0 <= p < |params| => spline.eval(params[p]))
  }

  /** The parameter points of the volume tessellator: the boundary points of
      the grid, in (i, j, k) order. */
  function VolumeParams(support: Support, n: int): seq<Point>
    requires |support| >= 3
  {
    VolumePoints(support, Cube(n), ShellKeys(Cube(n)))
  }

  /** The parameter points of the surface tessellator: the whole grid, i-major. */
  function SurfaceParams(support: Support, n: int): seq<Point>
    requires |support| >= 2
  {
    SurfacePoints(support, n, n, GridKeys(n + 1, n))
  }

  // ---------------------------------------------------------------------
  // The face-to-side map
  // ---------------------------------------------------------------------

  /** `std::map::insert`: adds the entry unless the key is already present. */
  function InsertEntry(m: map<int, int>, k: int, v: int): (r: map<int, int>)
    ensures k in r && (k !in m ==> r[k] == v)
    ensures forall j :: j in m ==> j in r && r[j] == m[j]
    ensures forall j :: j in r ==> j in m || j == k
  {
    if k in m then m else m[k := v]
  }

  /** The map a caller passes to the volume tessellator to learn the side of each face. */
  class FaceSideMap {
    var entries: map<int, int>

    constructor ()
      ensures entries == map[]
    {
      entries := map[];
    }

    method Insert(k: int, v: int)
      modifies this
      ensures entries == InsertEntry(old(entries), k, v)
    {
      entries := InsertEntry(entries, k, v);
    }

    /** `operator[]`: the value under k, after inserting 0 under k when k is absent. */
    method Get(k: int) returns (v: int)
      modifies this
      ensures entries == InsertEntry(old(entries), k, 0)
      ensures v == SideOf(old(entries), k)
      ensures k in old(entries) ==> v == old(entries)[k]
    {
      if k !in entries {
        entries := entries[k := 0];
      }
      v := entries[k];
    }
  }

  /** What `operator[]` reads under f: the recorded side, or the 0 it inserts. */
  function SideOf(sides: map<int, int>, f: int): int
  {
    if f in sides then sides[f] else 0
  }

  /** Inserting (lo, v), (lo + 1, v), ..., (hi - 1, v) in turn. */
  function InsertRun(m: map<int, int>, lo: int, hi: int, v: int): map<int, int>
    decreases hi - lo
  {
    if hi <= lo then m else InsertEntry(InsertRun(m, lo, hi - 1, v), hi - 1, v)
  }

  /** The entries the volume tessellator inserts for sides 0 .. tEnd - 1 when
      each side has `per` faces: face f of side t is face t * per + f overall. */
  function SideEntries(m: map<int, int>, per: int, tEnd: int): map<int, int>
    decreases tEnd
  {
    if tEnd <= 0 then m else InsertRun(SideEntries(m, per, tEnd - 1), (tEnd - 1) * per, tEnd * per, tEnd - 1)
  }

  lemma {:induction false} InsertRunFacts(m: map<int, int>, lo: int, hi: int, v: int)
    ensures forall k :: k in InsertRun(m, lo, hi, v) <==> k in m || lo <= k < hi
    ensures forall k :: k in m ==> InsertRun(m, lo, hi, v)[k] == m[k]
    ensures forall k :: k !in m && lo <= k < hi ==> InsertRun(m, lo, hi, v)[k] == v
    decreases hi - lo
  {
    if hi > lo {
      InsertRunFacts(m, lo, hi - 1, v);
    }
  }

  /** Entries already present are kept; every other face index below
      tEnd * per gets the side t with t * per <= f < (t + 1) * per. */
  ghost predicate SideEntriesOk(m: map<int, int>, per: int, tEnd: int, e: map<int, int>)
  {
    (forall k :: k in e <==> k in m || 0 <= k < tEnd * per) &&
    (forall k :: k in m ==> e[k] == m[k]) &&
    forall k :: k !in m && 0 <= k < tEnd * per ==>
      0 <= e[k] < tEnd && e[k] * per <= k < (e[k] + 1) * per
  }

  lemma {:induction false} SideEntriesFacts(m: map<int, int>, per: int, tEnd: int)
    requires per >= 0 && tEnd >= 0
    ensures forall k :: k in SideEntries(m, per, tEnd) <==> k in m || 0 <= k < tEnd * per
    ensures forall k :: k in m ==> SideEntries(m, per, tEnd)[k] == m[k]
    ensures forall k :: k !in m && 0 <= k < tEnd * per ==>
              0 <= SideEntries(m, per, tEnd)[k] < tEnd &&
              SideEntries(m, per, tEnd)[k] * per <= k < (SideEntries(m, per, tEnd)[k] + 1) * per
    decreases tEnd
  {
    if tEnd > 0 {
      SideEntriesFacts(m, per, tEnd - 1);
      SideEntriesStep(m, per, tEnd);
    }
  }

  lemma SideEntriesStep(m: map<int, int>, per: int, tEnd: int)
    requires per >= 0 && tEnd > 0
    requires SideEntriesOk(m, per, tEnd - 1, SideEntries(m, per, tEnd - 1))
    ensures SideEntriesOk(m, per, tEnd, SideEntries(m, per, tEnd))
  {
    var prev := SideEntries(m, per, tEnd - 1);
    var lo, hi := (tEnd - 1) * per, tEnd * per;
    InsertRunFacts(prev, lo, hi, tEnd - 1);
    MulAddRight(tEnd - 1, 1, per);
    MulMonotone(0, tEnd - 1, per);
    forall k | k !in m && 0 <= k < hi
      ensures var e := SideEntries(m, per, tEnd); 0 <= e[k] < tEnd && e[k] * per <= k < (e[k] + 1) * per
    {
      SideEntryAt(m, per, tEnd, k, lo, hi);
    }
  }

  /** The side of one new face index, in terms of the bounds of the last run. */
  lemma SideEntryAt(m: map<int, int>, per: int, tEnd: int, k: int, lo: int, hi: int)
    requires per >= 0 && tEnd > 0 && lo == (tEnd - 1) * per && hi == tEnd * per && hi == lo + per && 0 <= lo
    requires SideEntriesOk(m, per, tEnd - 1, SideEntries(m, per, tEnd - 1))
    requires k !in m && 0 <= k < hi
    ensures var e := SideEntries(m, per, tEnd); k in e && 0 <= e[k] < tEnd && e[k] * per <= k < (e[k] + 1) * per
  {
    var prev := SideEntries(m, per, tEnd - 1);
    InsertRunFacts(prev, lo, hi, tEnd - 1);
    if k >= lo {
      assert k !in prev;
    }
  }

  // ---------------------------------------------------------------------
  // The volume tessellator
  // ---------------------------------------------------------------------

  /** `VolumeSplineProcess::BuildSurfacetoMatrix`.  With a side map it also
      inserts (f, t) for each face f it adds on side t, keeping the entries the
      map already had.  The loops rely on at least one cell per axis: with
      numSample < 1 the point count formula exceeds the number of boundary
      points and V would hold unset parameter columns. */
  method VolumeBuildSurfaceToMatrix(spline: Spline, faceIndexMap: FaceSideMap?, numSample: int := 64, invertNormal: bool := false)
    returns (V: seq<Point>, F: seq<seq<int>>)
    requires |spline.support| >= 3
    requires numSample >= 1
    modifies faceIndexMap
    ensures V == EvalAll(spline, VolumeParams(spline.support, numSample))
    ensures F == VolumeFaces(0, Cube(numSample), MatrixStyle(invertNormal))
    ensures faceIndexMap != null ==>
      faceIndexMap.entries == SideEntries(old(faceIndexMap.entries), SideSize(Cube(numSample), MatrixStyle(invertNormal)), 6)
  {
    var pointNum := numSample + 1;
    var pointSumNum := pointNum * pointNum * pointNum - (pointNum - 2) * (pointNum - 2) * (pointNum - 2);
    var param, indexMap := ShellParams(spline.support, numSample);
    var faceNum := (numSample * numSample * 6) * 2;
    VolumePointCount(spline.support, numSample, pointNum, pointSumNum);
    VolumeFaceCount(numSample, invertNormal, faceNum);
    var resultValue := EvalAll(spline, param);
    V := CopyRows(resultValue, pointSumNum);

    ShellCornersIndexed(numSample);
    var faceVec := BuildShell(faceIndexMap, indexMap, numSample, invertNormal);
    // the size check after the loops never reports a mismatch
    assert |faceVec| == faceNum;
    F := faceVec;
  }

  /** The copy of the evaluated columns into the rows of V. */
  method CopyRows(resultValue: seq<Point>, pointSumNum: int) returns (V: seq<Point>)
    requires pointSumNum == |resultValue|
    ensures V == resultValue
  {
    V := [];
    var i := 0;
    while i < pointSumNum
      invariant 0 <= i <= pointSumNum
      invariant V == resultValue[..i]
    {
      V := V + [resultValue[i]];
      i := i + 1;
    }
  }

  /** The vertex loop of the volume tessellator: a parameter column and the
      next index for every boundary point of the grid. */
  method ShellParams(support: Support, numSample: int) returns (param: seq<Point>, indexMap: map<Key3, int>)
    requires |support| >= 3
    ensures param == VolumeParams(support, numSample)
    ensures indexMap == IndexMap(0, ShellKeys(Cube(numSample)))
  {
    var c := Cube(numSample);
    var pointNum := numSample + 1;
    param, indexMap := [], map[];
    var index := 0;
    ghost var keys: seq<Key3> := [];
    var i := 0;
    while i < pointNum
      invariant 0 <= i && (i <= pointNum || i == 0)
      invariant keys == ShellBlock(i, c)
      invariant indexMap == IndexMap(0, keys) && index == |keys|
      invariant param == VolumePoints(support, c, keys)
    {
      param, indexMap, index, keys := ParamSlab(support, c, i, param, indexMap, index, keys);
      BlockStep(i, c);
      i := i + 1;
    }
  }

  /** One more slab of the block adds that slab's shell keys. */
  lemma BlockStep(i: int, c: Counts)
    requires i >= 0
    ensures ShellBlock(i + 1, c) == ShellBlock(i, c) + ShellPlane(i, c.n1 + 1, c)
  {
  }

  /** The middle vertex loop of the volume tessellator: j = 0 .. n at slab i. */
  method ParamSlab(support: Support, c: Counts, i: int, param: seq<Point>, indexMap: map<Key3, int>, index: int, ghost keys: seq<Key3>)
    returns (param': seq<Point>, indexMap': map<Key3, int>, index': int, ghost keys': seq<Key3>)
    requires |support| >= 3 && c.n0 == c.n1 == c.n2
    requires indexMap == IndexMap(0, keys) && index == |keys|
    requires param == VolumePoints(support, c, keys)
    ensures keys' == keys + ShellPlane(i, c.n1 + 1, c)
    ensures indexMap' == IndexMap(0, keys') && index' == |keys'|
    ensures param' == VolumePoints(support, c, keys')
  {
    var pointNum := c.n0 + 1;
    param', indexMap', index', keys' := param, indexMap, index, keys;
    var j := 0;
    while j < pointNum
      invariant 0 <= j && (j <= pointNum || j == 0)
      invariant keys' == keys + ShellPlane(i, j, c)
      invariant indexMap' == IndexMap(0, keys') && index' == |keys'|
      invariant param' == VolumePoints(support, c, keys')
    {
      param', indexMap', index', keys' := ParamColumn(support, c, i, j, param', indexMap', index', keys');
      SlabStep(keys, i, j, c);
      j := j + 1;
    }
  }

  /** The innermost vertex loop of the volume tessellator: k = 0 .. n at
      column (i, j), taking only the boundary points. */
  method ParamColumn(support: Support, c: Counts, i: int, j: int, param: seq<Point>, indexMap: map<Key3, int>, index: int, ghost keys: seq<Key3>)
    returns (param': seq<Point>, indexMap': map<Key3, int>, index': int, ghost keys': seq<Key3>)
    requires |support| >= 3 && c.n0 == c.n1 == c.n2
    requires indexMap == IndexMap(0, keys) && index == |keys|
    requires param == VolumePoints(support, c, keys)
    ensures keys' == keys + ShellRow(i, j, c.n2 + 1, c)
    ensures indexMap' == IndexMap(0, keys') && index' == |keys'|
    ensures param' == VolumePoints(support, c, keys')
  {
    var pointNum := c.n0 + 1;
    param', indexMap', index', keys' := param, indexMap, index, keys;
    var k := 0;
    while k < pointNum
      invariant 0 <= k && (k <= pointNum || k == 0)
      invariant keys' == keys + ShellRow(i, j, k, c)
      invariant indexMap' == IndexMap(0, keys') && index' == |keys'|
      invariant param' == VolumePoints(support, c, keys')
    {
      if i == 0 || i == pointNum - 1 || j == 0 || j == pointNum - 1 || k == 0 || k == pointNum - 1 {
        param', indexMap', index', keys' := AddParam(support, c, (i, j, k), param', indexMap', index', keys');
      }
      ColumnStep(keys, i, j, k, c);
      k := k + 1;
    }
  }

  /** One boundary point: its parameter column, and `index++` recorded under its key. */
  method AddParam(support: Support, c: Counts, key: Key3, param: seq<Point>, indexMap: map<Key3, int>, index: int, ghost keys: seq<Key3>)
    returns (param': seq<Point>, indexMap': map<Key3, int>, index': int, ghost keys': seq<Key3>)
    requires |support| >= 3
    requires indexMap == IndexMap(0, keys) && index == |keys|
    requires param == VolumePoints(support, c, keys)
    ensures keys' == keys + [key]
    ensures indexMap' == IndexMap(0, keys') && index' == |keys'|
    ensures param' == VolumePoints(support, c, keys')
  {
    VolumePointsAppend(support, c, keys, key);
    IndexMapAppend(0, keys, key);
    param' := param + [VolumePoint(support, c, key)];
    indexMap' := indexMap[key := index];
    index' := index + 1;
    keys' := keys + [key];
  }

  /** The face loop of the volume tessellator: sides 0 .. 5 in turn. */
  method BuildShell(faceIndexMap: FaceSideMap?, indexMap: map<Key3, int>, numSample: int, invertNormal: bool)
    returns (faceVec: seq<seq<int>>)
    requires numSample >= 1 && SideCornersIndexed(indexMap, numSample)
    modifies faceIndexMap
    ensures faceVec == ShellFaces(indexMap, Cube(numSample), 6, MatrixStyle(invertNormal))
    ensures faceIndexMap != null ==>
      faceIndexMap.entries == SideEntries(old(faceIndexMap.entries), SideSize(Cube(numSample), MatrixStyle(invertNormal)), 6)
  {
    var c := Cube(numSample);
    var style := MatrixStyle(invertNormal);
    ghost var per: int := SideSize(c, style);
    faceVec := [];
    var t := 0;
    while t < 6
      invariant 0 <= t <= 6
      invariant faceVec == ShellFaces(indexMap, c, t, style)
      invariant |faceVec| == t * per
      invariant faceIndexMap != null ==> faceIndexMap.entries == SideEntries(old(faceIndexMap.entries), per, t)
    {
      faceVec := BuildSide(faceVec, faceIndexMap, indexMap, numSample, t, invertNormal);
      PatchFacesLength(ShellSide(indexMap, c, t), numSample, numSample, style);
      MulAddRight(t, 1, per);
      assert ShellFaces(indexMap, c, t + 1, style) ==
             ShellFaces(indexMap, c, t, style) + PatchFaces(ShellSide(indexMap, c, t), c.n0, c.n1, style);
      t := t + 1;
    }
  }

  /** The face loop of the volume tessellator for side t: rows i = 0 .. n - 1. */
  method BuildSide(faceVec: seq<seq<int>>, faceIndexMap: FaceSideMap?, indexMap: map<Key3, int>, numSample: int, t: Side, invertNormal: bool)
    returns (faceVec': seq<seq<int>>)
    requires numSample >= 1 && SideCornersIndexed(indexMap, numSample)
    modifies faceIndexMap
    ensures faceVec' == faceVec + PatchFaces(ShellSide(indexMap, Cube(numSample), t), numSample, numSample, MatrixStyle(invertNormal))
    ensures faceIndexMap != null ==> faceIndexMap.entries == InsertRun(old(faceIndexMap.entries), |faceVec|, |faceVec'|, t)
  {
    ghost var src := ShellSide(indexMap, Cube(numSample), t);
    ghost var style := MatrixStyle(invertNormal);
    ghost var e0 := if faceIndexMap != null then faceIndexMap.entries else map[];
    faceVec' := faceVec;
    var i := 0;
    while i < numSample
      invariant 0 <= i <= numSample
      invariant faceVec' == faceVec + PatchFaces(src, i, numSample, style) && |faceVec| <= |faceVec'|
      invariant faceIndexMap != null ==> faceIndexMap.entries == InsertRun(e0, |faceVec|, |faceVec'|, t)
    {
      faceVec' := BuildSideRow(faceVec', faceIndexMap, indexMap, numSample, t, i, invertNormal, e0, faceVec);
      i := i + 1;
    }
  }

  /** The cells (i, 0) .. (i, n - 1) of side t. */
  method BuildSideRow(faceVec: seq<seq<int>>, faceIndexMap: FaceSideMap?, indexMap: map<Key3, int>, numSample: int, t: Side, i: int,
                      invertNormal: bool, ghost e0: map<int, int>, ghost pre: seq<seq<int>>)
    returns (faceVec': seq<seq<int>>)
    requires numSample >= 1 && 0 <= i < numSample && SideCornersIndexed(indexMap, numSample)
    requires faceVec == pre + PatchFaces(ShellSide(indexMap, Cube(numSample), t), i, numSample, MatrixStyle(invertNormal))
    requires faceIndexMap != null ==> faceIndexMap.entries == InsertRun(e0, |pre|, |faceVec|, t)
    modifies faceIndexMap
    ensures faceVec' == pre + PatchFaces(ShellSide(indexMap, Cube(numSample), t), i + 1, numSample, MatrixStyle(invertNormal))
    ensures |pre| <= |faceVec'|
    ensures faceIndexMap != null ==> faceIndexMap.entries == InsertRun(e0, |pre|, |faceVec'|, t)
  {
    var c := Cube(numSample);
    ghost var src := ShellSide(indexMap, c, t);
    ghost var style := MatrixStyle(invertNormal);
    ghost var lo := |pre|;
    faceVec' := faceVec;
    var j := 0;
    while j < numSample
      invariant 0 <= j <= numSample
      invariant faceVec' == faceVec + RowFaces(src, i, j, style) && |faceVec| <= |faceVec'|
      invariant faceIndexMap != null ==> faceIndexMap.entries == InsertRun(e0, lo, |faceVec'|, t)
    {
      var (k1, k2, k3, k4) := SideCornerKeys(t, i, j, c);
      assert CellIndexed(indexMap, numSample, t, i, j);
      SideCellCorners(indexMap, numSample, t, i, j);
      faceVec' := EmitTrianglePair(faceVec', faceIndexMap, indexMap[k1], indexMap[k2], indexMap[k3], indexMap[k4], invertNormal, t, e0, lo);
      RowFacesStep(faceVec, src, i, j, style);
      j := j + 1;
    }
    PatchFacesAppend(pre, src, i, numSample, style);
  }

  /** The corners of a side cell whose corner keys all have an index are those indices. */
  lemma SideCellCorners(m: map<Key3, int>, n: int, t: Side, i: int, j: int)
    requires CellIndexed(m, n, t, i, j)
    ensures var (k1, k2, k3, k4) := SideCornerKeys(t, i, j, Cube(n));
            Corners(ShellSide(m, Cube(n), t), i, j) == Quad(m[k1], m[k2], m[k3], m[k4])
  {
  }

  lemma PatchFacesAppend(pre: seq<seq<int>>, src: CornerSource, i: int, n1: int, style: CellStyle)
    requires i >= 0
    ensures (pre + PatchFaces(src, i, n1, style)) + RowFaces(src, i, n1, style) == pre + PatchFaces(src, i + 1, n1, style)
  {
  }

  /** One cell of the volume tessellator with corners a0 .. a3: the optional
      swap of a0 and a3, then (a0, a3, a2) and (a0, a1, a3), each preceded by
      the insertion of its face index and side t. */
  method EmitTrianglePair(faceVec: seq<seq<int>>, faceIndexMap: FaceSideMap?, a0: int, a1: int, a2: int, a3: int,
                          invertNormal: bool, t: int, ghost e0: map<int, int>, ghost lo: int)
    returns (faceVec': seq<seq<int>>)
    requires lo <= |faceVec|
    requires faceIndexMap != null ==> faceIndexMap.entries == InsertRun(e0, lo, |faceVec|, t)
    modifies faceIndexMap
    ensures faceVec' == faceVec + CellFaces(Quad(a0, a1, a2, a3), MatrixStyle(invertNormal))
    ensures faceIndexMap != null ==> faceIndexMap.entries == InsertRun(e0, lo, |faceVec'|, t)
  {
    var a0, a3 := a0, a3;
    if invertNormal {
      a0, a3 := a3, a0;
    }
    faceVec' := faceVec;
    if faceIndexMap != null {
      faceIndexMap.Insert(|faceVec'|, t);
    }
    faceVec' := faceVec' + [[a0, a3, a2]];
    if faceIndexMap != null {
      faceIndexMap.Insert(|faceVec'|, t);
    }
    faceVec' := faceVec' + [[a0, a1, a3]];
  }

  /** The four corner keys of cell (i, j) of side t of an n-cube have an index in m. */
  predicate CellIndexed(m: map<Key3, int>, n: int, t: Side, i: int, j: int)
  {
    var (k1, k2, k3, k4) := SideCornerKeys(t, i, j, Cube(n));
    k1 in m && k2 in m && k3 in m && k4 in m
  }

  /** Every corner key of every cell of every side of an n-cube has an index in m. */
  predicate SideCornersIndexed(m: map<Key3, int>, n: int)
  {
    forall t: Side, i, j | 0 <= i < n && 0 <= j < n :: CellIndexed(m, n, t, i, j)
  }

  /** Every corner key the side loops look up was given an index by the vertex loop. */
  lemma ShellCornersIndexed(n: int)
    ensures SideCornersIndexed(IndexMap(0, ShellKeys(Cube(n))), n)
  {
    forall t: Side, i, j | 0 <= i < n && 0 <= j < n
      ensures CellIndexed(IndexMap(0, ShellKeys(Cube(n))), n, t, i, j)
    {
      SideCornersPresent(n, t, i, j);
    }
  }

  lemma SideCornersPresent(n: int, t: Side, i: int, j: int)
    requires 0 <= i < n && 0 <= j < n
    ensures var (k1, k2, k3, k4) := SideCornerKeys(t, i, j, Cube(n));
            var m := IndexMap(0, ShellKeys(Cube(n)));
            k1 in m && k2 in m && k3 in m && k4 in m
  {
    var (k1, k2, k3, k4) := SideCornerKeys(t, i, j, Cube(n));
    SideKeysOnShell(t, i, j, Cube(n));
    VolumeVertexKeys(0, Cube(n), k1);
    VolumeVertexKeys(0, Cube(n), k2);
    VolumeVertexKeys(0, Cube(n), k3);
    VolumeVertexKeys(0, Cube(n), k4);
  }

  // ---------------------------------------------------------------------
  // The surface tessellator
  // ---------------------------------------------------------------------

  /** `SurfaceSplineProcess::BuildSurfacetoMatrix`.  It takes a side map but
      never writes to it.  With numSample < 0 the point count formula exceeds
      the number of grid points and V would hold unset parameter columns. */
  method SurfaceBuildSurfaceToMatrix(spline: Spline, faceIndexMap: FaceSideMap?, numSample: int := 64, invertNormal: bool := false)
    returns (V: seq<Point>, F: seq<seq<int>>)
    requires |spline.support| >= 2
    requires numSample >= 0
    ensures V == EvalAll(spline, SurfaceParams(spline.support, numSample))
    ensures F == SurfaceFaces(0, numSample, numSample, MatrixStyle(invertNormal))
  {
    var pointNum := numSample + 1;
    var pointSumNum := pointNum * pointNum;
    var param, indexMap := GridParams(spline.support, numSample);
    var faceNum := numSample * numSample * 2;
    SurfaceMatrixCounts(spline.support, numSample, invertNormal, pointNum, pointSumNum, faceNum);
    var resultValue := EvalAll(spline, param);
    V := CopyRows(resultValue, pointSumNum);

    SurfaceGridIndexed(numSample);
    var faceVec := BuildGridFaces(indexMap, numSample, invertNormal);
    // the size check after the loops never reports a mismatch
    assert |faceVec| == faceNum;
    F := faceVec;
  }

  /** The vertex loop of the surface tessellator: every grid point, i-major. */
  method GridParams(support: Support, numSample: int) returns (param: seq<Point>, indexMap: map<Key2, int>)
    requires |support| >= 2 && numSample >= 0
    ensures param == SurfaceParams(support, numSample)
    ensures indexMap == SurfaceMap(0, numSample, numSample)
  {
    var pointNum := numSample + 1;
    param, indexMap := [], map[];
    var index := 0;
    ghost var keys: seq<Key2> := [];
    var i := 0;
    while i < pointNum
      invariant 0 <= i <= pointNum
      invariant keys == GridKeys(i, numSample)
      invariant indexMap == IndexMap(0, keys) && index == |keys|
      invariant param == SurfacePoints(support, numSample, numSample, keys)
    {
      param, indexMap, index, keys := GridParamRow(support, numSample, i, param, indexMap, index, keys);
      i := i + 1;
    }
  }

  /** The inner vertex loop of the surface tessellator: j = 0 .. n on row i. */
  method GridParamRow(support: Support, numSample: int, i: int, param: seq<Point>, indexMap: map<Key2, int>, index: int, ghost keys: seq<Key2>)
    returns (param': seq<Point>, indexMap': map<Key2, int>, index': int, ghost keys': seq<Key2>)
    requires |support| >= 2 && numSample >= 0
    requires indexMap == IndexMap(0, keys) && index == |keys|
    requires param == SurfacePoints(support, numSample, numSample, keys)
    ensures keys' == keys + GridRow(i, numSample + 1)
    ensures indexMap' == IndexMap(0, keys') && index' == |keys'|
    ensures param' == SurfacePoints(support, numSample, numSample, keys')
  {
    var pointNum := numSample + 1;
    param', indexMap', index', keys' := param, indexMap, index, keys;
    var j := 0;
    while j < pointNum
      invariant 0 <= j <= pointNum
      invariant keys' == keys + GridRow(i, j)
      invariant indexMap' == IndexMap(0, keys') && index' == |keys'|
      invariant param' == SurfacePoints(support, numSample, numSample, keys')
    {
      SurfacePointsAppend(support, numSample, numSample, keys', (i, j));
      IndexMapAppend(0, keys', (i, j));
      param' := param' + [SurfacePoint(support, numSample, numSample, (i, j))];
      indexMap' := indexMap'[(i, j) := index'];
      index' := index' + 1;
      keys' := keys' + [(i, j)];
      j := j + 1;
    }
  }

  /** The face loop of the surface tessellator: rows i = 0 .. n - 1. */
  method BuildGridFaces(indexMap: map<Key2, int>, numSample: int, invertNormal: bool) returns (faceVec: seq<seq<int>>)
    requires numSample >= 0 && GridIndexed(indexMap, numSample)
    ensures faceVec == PatchFaces(GridCorners(indexMap), numSample, numSample, MatrixStyle(invertNormal))
  {
    ghost var src := GridCorners(indexMap);
    ghost var style := MatrixStyle(invertNormal);
    faceVec := [];
    var i := 0;
    while i < numSample
      invariant 0 <= i <= numSample
      invariant faceVec == PatchFaces(src, i, numSample, style)
    {
      faceVec := BuildGridRow(faceVec, indexMap, numSample, i, invertNormal);
      i := i + 1;
    }
  }

  /** The cells (i, 0) .. (i, n - 1) of the surface grid: corners a0 = (i, j),
      a1 = (i + 1, j), a2 = (i, j + 1), a3 = (i + 1, j + 1), the optional swap
      of a0 and a3, then (a0, a3, a2) and (a0, a1, a3). */
  method BuildGridRow(faceVec: seq<seq<int>>, indexMap: map<Key2, int>, numSample: int, i: int, invertNormal: bool)
    returns (faceVec': seq<seq<int>>)
    requires 0 <= i < numSample && GridIndexed(indexMap, numSample)
    ensures faceVec' == faceVec + RowFaces(GridCorners(indexMap), i, numSample, MatrixStyle(invertNormal))
  {
    ghost var src := GridCorners(indexMap);
    ghost var style := MatrixStyle(invertNormal);
    faceVec' := faceVec;
    var j := 0;
    while j < numSample
      invariant 0 <= j <= numSample
      invariant faceVec' == faceVec + RowFaces(src, i, j, style)
    {
      assert PointIndexed(indexMap, i, j) && PointIndexed(indexMap, i + 1, j);
      assert PointIndexed(indexMap, i, j + 1) && PointIndexed(indexMap, i + 1, j + 1);
      var a0, a1, a2, a3 := indexMap[(i, j)], indexMap[(i + 1, j)], indexMap[(i, j + 1)], indexMap[(i + 1, j + 1)];
      if invertNormal {
        a0, a3 := a3, a0;
      }
      faceVec' := faceVec' + [[a0, a3, a2], [a0, a1, a3]];
      j := j + 1;
    }
  }

  /** Grid point (a, b) has an index in m. */
  predicate PointIndexed(m: map<Key2, int>, a: int, b: int)
  {
    (a, b) in m
  }

  /** Every point of the (n + 1) x (n + 1) grid has an index in m. */
  predicate GridIndexed(m: map<Key2, int>, n: int)
  {
    forall a, b | 0 <= a <= n && 0 <= b <= n :: PointIndexed(m, a, b)
  }

  /** Every grid point the face loops look up was given an index by the vertex loop. */
  lemma SurfaceGridIndexed(n: int)
    requires n >= 0
    ensures GridIndexed(SurfaceMap(0, n, n), n)
  {
    forall a, b | 0 <= a <= n && 0 <= b <= n
      ensures PointIndexed(SurfaceMap(0, n, n), a, b)
    {
      GridHandle(0, n, n, a, b);
    }
  }

  // ---------------------------------------------------------------------
  // Sizes and layout
  // ---------------------------------------------------------------------

  /** With p = n + 1 points per axis the volume tessellator has p^3 - (p - 2)^3
      boundary points, exactly the point count it allocates. */
  lemma VolumePointCount(support: Support, n: int, p: int, pointSumNum: int)
    requires |support| >= 3 && n >= 1 && p == n + 1
    requires pointSumNum == p * p * p - (p - 2) * (p - 2) * (p - 2)
    ensures |VolumeParams(support, n)| == pointSumNum
  {
    ShellKeysCount(Cube(n));
    assert p - 2 == n - 1;
  }

  /** The volume tessellator emits 12 n^2 triangles, exactly the face count it
      allocates. */
  lemma VolumeFaceCount(n: int, invert: bool, faceNum: int)
    requires n >= 1 && faceNum == (n * n * 6) * 2
    ensures |VolumeFaces(0, Cube(n), MatrixStyle(invert))| == faceNum
  {
    var c := Cube(n);
    ShellFacesLength(VolumeMap(0, c), c, 6, MatrixStyle(invert));
    assert Clamp(n) == n && FacesPerCell(MatrixStyle(invert)) == 2;
    TwoPerCell(n);
    CubeFaceArith(n, SideSize(c, MatrixStyle(invert)), |VolumeFaces(0, c, MatrixStyle(invert))|, faceNum);
  }

  lemma CubeFaceArith(n: int, per: int, total: int, faceNum: int)
    requires per == n * (n * 2) && total == 6 * per && faceNum == (n * n * 6) * 2
    requires n * (n * 2) == n * n + n * n
    ensures total == faceNum
  {
  }

  /** n rows of n cells of two triangles hold n * n + n * n triangles. */
  lemma TwoPerCell(n: int)
    ensures n * (n * 2) == n * n + n * n && (n * n) * 2 == n * n + n * n
  {
    assert n * 2 == n + n;
    MulAddRight(n, n, n);
  }

  /** With p = n + 1 points per axis the surface tessellator has p^2 grid
      points and 2 n^2 triangles, the counts it allocates. */
  lemma SurfaceMatrixCounts(support: Support, n: int, invert: bool, p: int, pointSumNum: int, faceNum: int)
    requires |support| >= 2 && n >= 0 && p == n + 1
    requires pointSumNum == p * p && faceNum == n * n * 2
    ensures |SurfaceParams(support, n)| == pointSumNum
    ensures |SurfaceFaces(0, n, n, MatrixStyle(invert))| == faceNum
  {
    GridKeysLength(n + 1, n);
    PatchFacesLength(GridCorners(SurfaceMap(0, n, n)), n, n, MatrixStyle(invert));
    TwoPerCell(n);
  }

  // ---------------------------------------------------------------------
  // What the tessellators promise
  // ---------------------------------------------------------------------

  /** Every row of the volume tessellator's F is a triangle whose three
      vertex numbers are rows of V. */
  lemma VolumeMatrixFacesValid(support: Support, n: int, invert: bool)
    requires |support| >= 3 && n >= 1
    ensures FacesOfSize(VolumeFaces(0, Cube(n), MatrixStyle(invert)), 3)
    ensures FacesWithin(VolumeFaces(0, Cube(n), MatrixStyle(invert)), 0, |VolumeParams(support, n)|)
  {
    VolumeFacesTriangles(n, invert);
    VolumeFacesWithin(0, Cube(n), MatrixStyle(invert));
  }

  lemma VolumeFacesTriangles(n: int, invert: bool)
    ensures FacesOfSize(VolumeFaces(0, Cube(n), MatrixStyle(invert)), 3)
  {
    ShellFacesSize(VolumeMap(0, Cube(n)), Cube(n), 6, MatrixStyle(invert));
  }

  /** Every row of the surface tessellator's F is a triangle whose three
      vertex numbers are rows of V. */
  lemma SurfaceMatrixFacesValid(support: Support, n: int, invert: bool)
    requires |support| >= 2 && n >= 0
    ensures FacesOfSize(SurfaceFaces(0, n, n, MatrixStyle(invert)), 3)
    ensures FacesWithin(SurfaceFaces(0, n, n, MatrixStyle(invert)), 0, |SurfaceParams(support, n)|)
  {
    PatchFacesSize(GridCorners(SurfaceMap(0, n, n)), n, n, MatrixStyle(invert));
    SurfaceFacesWithin(0, n, n, MatrixStyle(invert));
  }

  /** Row a * (n + 1) + b of the surface tessellator's V is the spline's value
      at grid point (a, b). */
  lemma SurfaceMatrixLayout(spline: Spline, n: int, a: int, b: int)
    requires |spline.support| >= 2 && 0 <= a <= n && 0 <= b <= n
    ensures a * (n + 1) + b < |EvalAll(spline, SurfaceParams(spline.support, n))|
    ensures EvalAll(spline, SurfaceParams(spline.support, n))[a * (n + 1) + b] ==
            spline.eval(SurfacePoint(spline.support, n, n, (a, b)))
  {
    SurfaceVertexLayout(spline.support, 0, n, n, a, b);
    MulAddRight(a, 1, n + 1);
    MulMonotone(a + 1, n + 1, n + 1);
  }

  /** Setting invertNormal keeps the number, order and corners of both
      tessellators' faces and reverses the winding of each. */
  lemma MatrixInvertReverses(n: int)
    ensures AllOpposite(VolumeFaces(0, Cube(n), MatrixStyle(false)), VolumeFaces(0, Cube(n), MatrixStyle(true)))
    ensures AllOpposite(SurfaceFaces(0, n, n, MatrixStyle(false)), SurfaceFaces(0, n, n, MatrixStyle(true)))
  {
    ShellInvertReverses(VolumeMap(0, Cube(n)), Cube(n), 6, MatrixStyle(false));
    PatchInvertReverses(GridCorners(SurfaceMap(0, n, n)), n, n, MatrixStyle(false));
  }

  /** Two sides whose face ranges hold f are the same side. */
  lemma SameSide(per: int, t: int, u: int, f: int)
    requires per > 0
    requires t * per <= f < (t + 1) * per && u * per <= f < (u + 1) * per
    ensures t == u
  {
    if t < u {
      MulMonotone(t + 1, u, per);
    } else if u < t {
      MulMonotone(u + 1, t, per);
    }
  }

  /** Face k of side t in a face list whose sides hold `per` faces each. */
  function SideFace(t: int, per: int, k: int): int
  {
    t * per + k
  }

  /** Starting from a map without entries, side t's faces are mapped to t. */
  lemma {:induction false} SideEntriesBySide(per: int, tEnd: int)
    requires per > 0 && tEnd >= 0
    ensures forall f :: f in SideEntries(map[], per, tEnd) <==> 0 <= f < tEnd * per
    ensures forall t, k | 0 <= t < tEnd && 0 <= k < per ::
              SideFace(t, per, k) in SideEntries(map[], per, tEnd) && SideEntries(map[], per, tEnd)[SideFace(t, per, k)] == t
  {
    var r := SideEntries(map[], per, tEnd);
    SideEntriesFacts(map[], per, tEnd);
    forall t, k | 0 <= t < tEnd && 0 <= k < per
      ensures SideFace(t, per, k) in r && r[SideFace(t, per, k)] == t
    {
      var f := SideFace(t, per, k);
      MulAddRight(t, 1, per);
      MulMonotone(0, t, per);
      MulMonotone(t + 1, tEnd, per);
      SameSide(per, t, r[f], f);
    }
  }

  /** Starting from an empty side map, the volume tessellator leaves exactly
      one entry per face of F, and face k of side t, face t * 2n^2 + k of F,
      is mapped to t. */
  lemma VolumeSideMap(n: int, invert: bool)
    requires n >= 1
    ensures SideSize(Cube(n), MatrixStyle(invert)) == 2 * n * n
    ensures forall f :: f in VolumeSides(n, invert) <==> 0 <= f < |VolumeFaces(0, Cube(n), MatrixStyle(invert))|
    ensures forall t: Side, k | 0 <= k < 2 * n * n ::
              SideFace(t, 2 * n * n, k) in VolumeSides(n, invert) && VolumeSides(n, invert)[SideFace(t, 2 * n * n, k)] == t
  {
    var c, style := Cube(n), MatrixStyle(invert);
    var per := SideSize(c, style);
    Twice(n, n);
    MulMonotone(1, n, n);
    SideEntriesBySide(per, 6);
    ShellFacesLength(VolumeMap(0, c), c, 6, style);
  }

  // ---------------------------------------------------------------------
  // The OFF writers
  // ---------------------------------------------------------------------

  /** 2^64: `operator[]`'s int result is converted to the unsigned size type before `%`. */
  const SIZE_T_MODULUS: int := 0x1_0000_0000_0000_0000

  /** `side % colors.size()` with the int side converted to the unsigned size
      type first, which maps a negative side to side + 2^64. */
  function ColorSlot(side: int, count: int): (k: int)
    requires count > 0
    ensures 0 <= k < count
    ensures side >= 0 ==> k == side % count
    ensures 0 <= side < count ==> k == side
  {
    if side >= 0 then side % count else (side + SIZE_T_MODULUS) % count
  }

  /** The suffix of each face line of the volume writer: with colour, the
      colour of the face's recorded side; without, nothing. */
  function SideColorSuffixes(sides: map<int, int>, colors: seq<Color>, nf: nat, withColor: bool): (s: seq<Line>)
    requires |colors| > 0
    ensures |s| == nf
  {
    seq(nf, f requires 0 <= f < nf => if withColor then ColorTokens(colors[ColorSlot(SideOf(sides, f), |colors|)]) else [])
  }

  /** The suffix of each face line of the surface writer: the one colour, or nothing. */
  function UniformSuffixes(color: Color, nf: nat, withColor: bool): (s: seq<Line>)
    ensures |s| == nf
  {
    seq(nf, f => if withColor then ColorTokens(color) else [])
  }

  /** The side map the volume writer fills: fresh, then filled by the tessellator. */
  function VolumeSides(n: int, invert: bool): map<int, int>
  {
    SideEntries(map[], SideSize(Cube(n), MatrixStyle(invert)), 6)
  }

  /** The document the volume OFF writer produces. */
  function VolumeOffLines(spline: Spline, n: int, withColor: bool, invert: bool): seq<Line>
    requires |spline.support| >= 3 && n >= 1
  {
    var faces := VolumeFaces(0, Cube(n), MatrixStyle(invert));
    OffDocument(EvalAll(spline, VolumeParams(spline.support, n)), faces,
                SideColorSuffixes(VolumeSides(n, invert), SIX_COLORS, |faces|, withColor),
                General(LONG_DOUBLE_DIGITS10))
  }

  /** The document the surface OFF writer produces. */
  function SurfaceOffLines(spline: Spline, n: int, withColor: bool, invert: bool): seq<Line>
    requires |spline.support| >= 2 && n >= 0
  {
    var faces := SurfaceFaces(0, n, n, MatrixStyle(invert));
    OffDocument(EvalAll(spline, SurfaceParams(spline.support, n)), faces,
                UniformSuffixes((255, 0, 0), |faces|, withColor), General(LONG_DOUBLE_DIGITS10))
  }

  /** `VolumeSplineProcess::BuildSurfacetoFileOFF`: tessellates into V and F
      with a fresh side map, then writes `OFF`, the counts line, one line per
      row of V and one `3 a b c` line per row of F, with the colour of the
      face's side appended when withColor is set.  The stream is not checked:
      when it cannot be opened nothing is written. */
  method VolumeBuildSurfaceToFileOff(spline: Spline, fs: FileSystem, filename: string, num: int := 64,
                                     withColor: bool := false, invertNormal: bool := false)
    requires |spline.support| >= 3 && num >= 1
    modifies fs
    ensures fs.files == if filename in fs.writable then old(fs.files)[filename := VolumeOffLines(spline, num, withColor, invertNormal)]
                        else old(fs.files)
  {
    var colors := SIX_COLORS;
    var V, F, faceIndexMap := VolumeMatrixWithSides(spline, num, invertNormal);

    ghost var sides := faceIndexMap.entries;
    var ok := fs.Open(filename);
    var out := WriteVolumeOff(V, F, faceIndexMap, colors, withColor);
    VolumeOffIs(spline, num, withColor, invertNormal, V, F, sides, out);
    if ok {
      fs.Close(filename, out);
      Rewrite(old(fs.files), filename, out);
    }
  }

  /** The tessellation step of the volume writer, into a fresh side map. */
  method VolumeMatrixWithSides(spline: Spline, num: int, invertNormal: bool) returns (V: seq<Point>, F: seq<seq<int>>, faceIndexMap: FaceSideMap)
    requires |spline.support| >= 3 && num >= 1
    ensures fresh(faceIndexMap)
    ensures V == EvalAll(spline, VolumeParams(spline.support, num))
    ensures F == VolumeFaces(0, Cube(num), MatrixStyle(invertNormal)) && FacesOfSize(F, 3)
    ensures faceIndexMap.entries == VolumeSides(num, invertNormal)
  {
    faceIndexMap := new FaceSideMap();
    V, F := VolumeBuildSurfaceToMatrix(spline, faceIndexMap, num, invertNormal);
    VolumeFacesTriangles(num, invertNormal);
  }

  /** The document written from the tessellator's V, F and side map is the volume OFF document. */
  lemma VolumeOffIs(spline: Spline, n: int, withColor: bool, invert: bool, V: seq<Point>, F: seq<seq<int>>, sides: map<int, int>, out: seq<Line>)
    requires |spline.support| >= 3 && n >= 1
    requires V == EvalAll(spline, VolumeParams(spline.support, n))
    requires F == VolumeFaces(0, Cube(n), MatrixStyle(invert))
    requires sides == VolumeSides(n, invert)
    requires out == OffDocument(V, F, SideColorSuffixes(sides, SIX_COLORS, |F|, withColor), General(LONG_DOUBLE_DIGITS10))
    ensures out == VolumeOffLines(spline, n, withColor, invert)
  {
  }

  /** The lines the volume writer streams out: `OFF`, the counts line, the
      vertex lines, then the face lines. */
  method WriteVolumeOff(V: seq<Point>, F: seq<seq<int>>, faceIndexMap: FaceSideMap, colors: seq<Color>, withColor: bool)
    returns (out: seq<Line>)
    requires FacesOfSize(F, 3) && |colors| > 0
    modifies faceIndexMap
    ensures out == OffDocument(V, F, SideColorSuffixes(old(faceIndexMap.entries), colors, |F|, withColor), General(LONG_DOUBLE_DIGITS10))
  {
    out := [[Word("OFF")], [Int(|V|), Int(|F|), Int(0)]];
    out := WriteVertexLines(out, V, [], General(LONG_DOUBLE_DIGITS10));
    out := WriteSideColoredFaces(out, F, faceIndexMap, colors, withColor);
  }

  /** The face loop of the volume writer. */
  method WriteSideColoredFaces(out: seq<Line>, F: seq<seq<int>>, faceIndexMap: FaceSideMap, colors: seq<Color>, withColor: bool)
    returns (out': seq<Line>)
    requires FacesOfSize(F, 3) && |colors| > 0
    modifies faceIndexMap
    ensures out' == out + CountedFaceLines(F, SideColorSuffixes(old(faceIndexMap.entries), colors, |F|, withColor))
    ensures faceIndexMap.entries == if withColor then InsertRun(old(faceIndexMap.entries), 0, |F|, 0) else old(faceIndexMap.entries)
  {
    ghost var sides := faceIndexMap.entries;
    ghost var suffixes := SideColorSuffixes(sides, colors, |F|, withColor);
    out' := out;
    var i := 0;
    while i < |F|
      invariant 0 <= i <= |F|
      invariant out' == out + CountedFaceLines(F[..i], suffixes[..i])
      invariant faceIndexMap.entries == if withColor then InsertRun(sides, 0, i, 0) else sides
    {
      var line := [Int(3), Int(F[i][0]), Int(F[i][1]), Int(F[i][2])];
      assert line == [Int(|F[i]|)] + HandleTokens(F[i], 0);
      if withColor {
        InsertRunFacts(sides, 0, i, 0);
        var side := faceIndexMap.Get(i);
        assert side == SideOf(sides, i);
        var color := colors[ColorSlot(side, |colors|)];
        line := line + [Int(color.0), Int(color.1), Int(color.2)];
      }
      assert line == CountedFaceLine(F[i], suffixes[i]);
      out' := out' + [line];
      assert CountedFaceLines(F[..i + 1], suffixes[..i + 1]) == CountedFaceLines(F[..i], suffixes[..i]) + [CountedFaceLine(F[i], suffixes[i])];
      i := i + 1;
    }
    assert F[..i] == F && suffixes[..i] == suffixes;
  }

  /** `SurfaceSplineProcess::BuildSurfacetoFileOFF`: tessellates into V and F
      without a side map, then writes the OFF document with red appended to
      every face line when withColor is set.  The stream is not checked. */
  method SurfaceBuildSurfaceToFileOff(spline: Spline, fs: FileSystem, filename: string, num: int := 64,
                                      withColor: bool := false, invertNormal: bool := false)
    requires |spline.support| >= 2 && num >= 0
    modifies fs
    ensures fs.files == if filename in fs.writable then old(fs.files)[filename := SurfaceOffLines(spline, num, withColor, invertNormal)]
                        else old(fs.files)
  {
    var color: Color := (255, 0, 0);
    var V, F := SurfaceBuildSurfaceToMatrix(spline, null, num, invertNormal);
    SurfaceMatrixFacesValid(spline.support, num, invertNormal);

    var ok := fs.Open(filename);
    var out: seq<Line> := [[Word("OFF")], [Int(|V|), Int(|F|), Int(0)]];
    out := WriteVertexLines(out, V, [], General(LONG_DOUBLE_DIGITS10));
    out := WriteUniformColoredFaces(out, F, color, withColor);
    if ok {
      fs.Close(filename, out);
      Rewrite(old(fs.files), filename, out);
    }
  }

  /** The face loop of the surface writer. */
  method WriteUniformColoredFaces(out: seq<Line>, F: seq<seq<int>>, color: Color, withColor: bool) returns (out': seq<Line>)
    requires FacesOfSize(F, 3)
    ensures out' == out + CountedFaceLines(F, UniformSuffixes(color, |F|, withColor))
  {
    ghost var suffixes := UniformSuffixes(color, |F|, withColor);
    out' := out;
    var i := 0;
    while i < |F|
      invariant 0 <= i <= |F|
      invariant out' == out + CountedFaceLines(F[..i], suffixes[..i])
    {
      var line := [Int(3), Int(F[i][0]), Int(F[i][1]), Int(F[i][2])];
      assert line == [Int(|F[i]|)] + HandleTokens(F[i], 0);
      if withColor {
        line := line + [Int(color.0), Int(color.1), Int(color.2)];
      }
      assert line == CountedFaceLine(F[i], suffixes[i]);
      out' := out' + [line];
      assert CountedFaceLines(F[..i + 1], suffixes[..i + 1]) == CountedFaceLines(F[..i], suffixes[..i]) + [CountedFaceLine(F[i], suffixes[i])];
      i := i + 1;
    }
    assert F[..i] == F && suffixes[..i] == suffixes;
  }

  // ---------------------------------------------------------------------
  // What the OFF writers promise
  // ---------------------------------------------------------------------

  /** Reading the volume writer's document back gives V, F and the per-face
      colours; its counts line holds p^3 - (p - 2)^3 vertices and 12 n^2 faces. */
  lemma VolumeOffRoundTrip(spline: Spline, n: int, withColor: bool, invert: bool)
    requires |spline.support| >= 3 && n >= 1
    ensures var doc := VolumeOffLines(spline, n, withColor, invert);
            var faces := VolumeFaces(0, Cube(n), MatrixStyle(invert));
            DecodeOff(doc).Some? &&
            DecodeOff(doc).value.verts == EvalAll(spline, VolumeParams(spline.support, n)) &&
            DecodeOff(doc).value.faces == faces &&
            DecodeOff(doc).value.suffixes == SideColorSuffixes(VolumeSides(n, invert), SIX_COLORS, |faces|, withColor)
  {
    var faces := VolumeFaces(0, Cube(n), MatrixStyle(invert));
    var suffixes := SideColorSuffixes(VolumeSides(n, invert), SIX_COLORS, |faces|, withColor);
    OffRoundTrip(EvalAll(spline, VolumeParams(spline.support, n)), faces, suffixes, General(LONG_DOUBLE_DIGITS10));
  }

  /** The counts line of the volume writer's document: p^3 - (p - 2)^3
      vertices with p = n + 1, 12 n^2 faces and 0 edges. */
  lemma VolumeOffCounts(spline: Spline, n: int, withColor: bool, invert: bool)
    requires |spline.support| >= 3 && n >= 1
    ensures VolumeOffLines(spline, n, withColor, invert)[1] ==
            [Int((n + 1) * (n + 1) * (n + 1) - (n + 1 - 2) * (n + 1 - 2) * (n + 1 - 2)), Int((n * n * 6) * 2), Int(0)]
  {
    VolumePointCount(spline.support, n, n + 1, (n + 1) * (n + 1) * (n + 1) - (n + 1 - 2) * (n + 1 - 2) * (n + 1 - 2));
    VolumeFaceCount(n, invert, (n * n * 6) * 2);
  }

  /** With colour, face k of side t carries the t-th of the six colours (red,
      green, blue, yellow, magenta, cyan); without, no face carries one. */
  lemma VolumeOffColorsBySide(n: int, withColor: bool, invert: bool)
    requires n >= 1
    ensures var faces := VolumeFaces(0, Cube(n), MatrixStyle(invert));
            var suffixes := SideColorSuffixes(VolumeSides(n, invert), SIX_COLORS, |faces|, withColor);
            forall t: Side, k | 0 <= k < 2 * n * n ::
              0 <= SideFace(t, 2 * n * n, k) < |faces| &&
              suffixes[SideFace(t, 2 * n * n, k)] == if withColor then ColorTokens(SIX_COLORS[t]) else []
  {
    VolumeSideMap(n, invert);
    var faces := VolumeFaces(0, Cube(n), MatrixStyle(invert));
    var per := 2 * n * n;
    var sides := VolumeSides(n, invert);
    var suffixes := SideColorSuffixes(sides, SIX_COLORS, |faces|, withColor);
    forall t: Side, k | 0 <= k < per
      ensures 0 <= SideFace(t, per, k) < |faces|
      ensures suffixes[SideFace(t, per, k)] == if withColor then ColorTokens(SIX_COLORS[t]) else []
    {
      var f := SideFace(t, per, k);
      assert f in sides && sides[f] == t;
      assert SideOf(sides, f) == t;
    }
  }

  /** Reading the surface writer's document back gives V and F, with red on
      every face when withColor is set and nothing otherwise; its counts line
      holds (n + 1)^2 vertices and 2 n^2 faces. */
  lemma SurfaceOffRoundTrip(spline: Spline, n: int, withColor: bool, invert: bool)
    requires |spline.support| >= 2 && n >= 0
    ensures var doc := SurfaceOffLines(spline, n, withColor, invert);
            var faces := SurfaceFaces(0, n, n, MatrixStyle(invert));
            DecodeOff(doc).Some? &&
            DecodeOff(doc).value.verts == EvalAll(spline, SurfaceParams(spline.support, n)) &&
            DecodeOff(doc).value.faces == faces &&
            |DecodeOff(doc).value.suffixes| == |faces| &&
            forall f :: 0 <= f < |faces| ==> DecodeOff(doc).value.suffixes[f] == if withColor then [Int(255), Int(0), Int(0)] else []
  {
    var faces := SurfaceFaces(0, n, n, MatrixStyle(invert));
    OffRoundTrip(EvalAll(spline, SurfaceParams(spline.support, n)), faces, UniformSuffixes((255, 0, 0), |faces|, withColor),
                 General(LONG_DOUBLE_DIGITS10));
  }

  /** The counts line of the surface writer's document: (n + 1)^2 vertices,
      2 n^2 faces and 0 edges. */
  lemma SurfaceOffCounts(spline: Spline, n: int, withColor: bool, invert: bool)
    requires |spline.support| >= 2 && n >= 0
    ensures SurfaceOffLines(spline, n, withColor, invert)[1] == [Int((n + 1) * (n + 1)), Int(n * n * 2), Int(0)]
  {
    SurfaceMatrixCounts(spline.support, n, invert, n + 1, (n + 1) * (n + 1), n * n * 2);
  }
}
