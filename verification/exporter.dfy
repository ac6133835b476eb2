/**
 * The mesh exporters: OFF, Wavefront OBJ with its MTL material file, and
 * ASCII PLY.  An exporter holds the option flags it was built with and a
 * colour palette that SetColors replaces; exporting reads a mesh and a map
 * from face handle to side index and writes the file (or the two files).
 *
 * The three exporter kinds share their state and differ only in how they
 * write, so they are one class with a constant naming the kind.  A face
 * handle is the face's position in the mesh, and the face-to-side map is a
 * `map<int, int>` over those positions.
 */
module Exporters {
  import opened Wrappers
  import opened Options
  import opened Meshes
  import opened Text

  /** The three exporter kinds. */
  datatype ExportFormat = OffFormat | ObjFormat | PlyFormat

  /** `std::fixed` with `numeric_limits<long double>::digits10` digits: the
      coordinate format of all three writers. */
  const COORDINATE_STYLE: NumStyle := Fixed(LONG_DOUBLE_DIGITS10)

  /** `std::fixed` with six digits: the number format of the material file. */
  const MATERIAL_STYLE: NumStyle := Fixed(6)

  // ---------------------------------------------------------------------
  // What an export does to the files
  // ---------------------------------------------------------------------

  /** A single-file export: it succeeds exactly when the file can be opened,
      and then the file holds `doc`; otherwise no file changes. */
  predicate Wrote(before: map<string, seq<Line>>, after: map<string, seq<Line>>, writable: set<string>,
                  path: string, doc: seq<Line>, ok: bool)
  {
    (ok <==> path in writable) && after == if ok then before[path := doc] else before
  }

  /** The coloured OBJ export: it opens the OBJ file and then the material
      file.  When the first cannot be opened nothing changes; when only the
      second cannot, the first has been truncated and is left empty. */
  predicate WrotePair(before: map<string, seq<Line>>, after: map<string, seq<Line>>, writable: set<string>,
                      obj: string, mtl: string, objDoc: seq<Line>, mtlDoc: seq<Line>, ok: bool)
  {
    (ok <==> obj in writable && mtl in writable) &&
    after == (if obj !in writable then before
              else if mtl !in writable then before[obj := []]
              else before[obj := objDoc][mtl := mtlDoc])
  }

  /** Writing two files after truncating them leaves what was written. */
  lemma Overwrite(files: map<string, seq<Line>>, a: string, b: string, x: seq<Line>, y: seq<Line>)
    ensures files[a := []][b := []][a := x][b := y] == files[a := x][b := y]
  {
  }

  // ---------------------------------------------------------------------
  // The face-to-side map
  // ---------------------------------------------------------------------

  /** Every face of `nf` has a side, and every such side is below `bound`:
      what `_colors[faceIndexMap.at(face)]` needs. */
  predicate Classified(m: map<int, int>, nf: int, bound: int)
  {
    forall p :: 0 <= p < nf ==> p in m && 0 <= m[p] < bound
  }

  /** What the coloured OBJ export needs: a non-empty map whose largest side
      is at least -1 (so the number of groups is not negative) and below the
      palette length, and a non-negative side for every face. */
  predicate ObjColorReady(m: map<int, int>, nf: int, paletteSize: int)
  {
    && (exists k :: k in m && m[k] >= -1)
    && (forall k :: k in m ==> m[k] < paletteSize)
    && (forall p :: 0 <= p < nf ==> p in m && m[p] >= 0)
  }

  /** A non-empty set has an element. */
  lemma NonEmpty(s: set<int>)
    requires s != {}
    ensures exists x :: x in s
  {
    if forall y :: y !in s {
      assert false;
    }
  }

  /** The largest side in a non-empty map. */
  ghost function MaxSide(m: map<int, int>): (r: int)
    requires m.Keys != {}
    ensures exists k :: k in m && m[k] == r
    ensures forall k :: k in m ==> m[k] <= r
    decreases |m|
  {
    NonEmpty(m.Keys);
    var k :| k in m;
    var rest := m - {k};
    assert |rest| < |m| by {
      assert rest.Keys == m.Keys - {k};
    }
    assert forall j :: j in m ==> j == k || j in rest;
    if rest.Keys == {} then m[k]
    else
      var r' := MaxSide(rest);
      assert forall j :: j in rest ==> j in m && rest[j] == m[j];
      if m[k] >= r' then m[k] else r'
  }

  /** The sides of faces 0 .. nf-1, in face order. */
  function FaceSides(m: map<int, int>, nf: nat): seq<int>
    requires forall p :: 0 <= p < nf ==> p in m
  {
    seq(nf, p requires 0 <= p < nf => m[p])
  }

  /** The number of groups of the coloured OBJ export: the largest side plus one. */
  method ColorCount(m: map<int, int>) returns (colorNum: int)
    requires m.Keys != {}
    ensures colorNum == MaxSide(m) + 1
  {
    var keys := m.Keys;
    NonEmpty(keys);
    var k0 :| k0 in keys;
    var best := m[k0];
    ghost var arg := k0;
    keys := keys - {k0};
    while keys != {}
      invariant keys <= m.Keys
      invariant arg in m && m[arg] == best
      invariant forall k :: k in m && k !in keys ==> m[k] <= best
      decreases |keys|
    {
      NonEmpty(keys);
      var k :| k in keys;
      if m[k] > best {
        best := m[k];
        arg := k;
      }
      keys := keys - {k};
    }
    colorNum := best + 1;
  }

  // ---------------------------------------------------------------------
  // Grouping the faces by side
  // ---------------------------------------------------------------------

  /** The ids of the faces on side c, in ascending order. */
  function Bucket(sides: seq<int>, c: int): (b: seq<int>)
    ensures forall j :: 0 <= j < |b| ==> 0 <= b[j] < |sides| && sides[b[j]] == c
    decreases |sides|
  {
    if |sides| == 0 then []
    else
      var n := |sides| - 1;
      Bucket(sides[..n], c) + (if sides[n] == c then [n] else [])
  }

  /** The face ids in the order the coloured OBJ body lists them: the faces
      of side 0, then those of side 1, and so on up to side k-1. */
  function GroupedIds(sides: seq<int>, k: nat): (ids: seq<int>)
    ensures forall j :: 0 <= j < |ids| ==> 0 <= ids[j] < |sides| && 0 <= sides[ids[j]] < k
  {
    if k == 0 then [] else GroupedIds(sides, k - 1) + Bucket(sides, k - 1)
  }

  /** 0, 1, ..., n-1. */
  function FaceIds(n: nat): seq<int>
  {
    seq(n, p => p)
  }

  /** Adding one more face to the list puts its id at the end of its side's bucket. */
  lemma BucketSnoc(sides: seq<int>, p: int, c: int)
    requires 0 <= p < |sides|
    ensures Bucket(sides[..p + 1], c) == Bucket(sides[..p], c) + (if sides[p] == c then [p] else [])
  {
    assert sides[..p + 1][..p] == sides[..p];
  }

  /** A bucket holds every face of its side. */
  lemma {:induction false} BucketComplete(sides: seq<int>, c: int)
    ensures forall p :: 0 <= p < |sides| && sides[p] == c ==> p in Bucket(sides, c)
    decreases |sides|
  {
    if |sides| > 0 {
      var n := |sides| - 1;
      BucketComplete(sides[..n], c);
      forall p | 0 <= p < n && sides[p] == c
        ensures p in Bucket(sides, c)
      {
        assert sides[..n][p] == sides[p];
      }
    }
  }

  /** A bucket lists its faces in ascending id order, so each at most once. */
  lemma {:induction false} BucketAscending(sides: seq<int>, c: int)
    ensures forall i, j :: 0 <= i < j < |Bucket(sides, c)| ==> Bucket(sides, c)[i] < Bucket(sides, c)[j]
    decreases |sides|
  {
    if |sides| > 0 {
      var n := |sides| - 1;
      BucketAscending(sides[..n], c);
    }
  }

  /** The grouped order is by side first and by id within a side: the
      grouping is a stable sort of the faces by side. */
  lemma {:induction false} GroupedIdsOrder(sides: seq<int>, k: nat)
    ensures SidesOrdered(sides, GroupedIds(sides, k))
  {
    if k > 0 {
      GroupedIdsOrder(sides, k - 1);
      GroupedIdsOrderStep(sides, k);
    }
  }

  /** ids lists faces by side first and by id within a side. */
  ghost predicate SidesOrdered(sides: seq<int>, ids: seq<int>)
  {
    (forall p :: 0 <= p < |ids| ==> 0 <= ids[p] < |sides|) &&
    forall i, j :: 0 <= i < j < |ids| ==>
      sides[ids[i]] < sides[ids[j]] || (sides[ids[i]] == sides[ids[j]] && ids[i] < ids[j])
  }

  lemma GroupedIdsOrderStep(sides: seq<int>, k: nat)
    requires k > 0 && SidesOrdered(sides, GroupedIds(sides, k - 1))
    ensures SidesOrdered(sides, GroupedIds(sides, k))
  {
    BucketAscending(sides, k - 1);
    var prev := GroupedIds(sides, k - 1);
    var b := Bucket(sides, k - 1);
    var ids := GroupedIds(sides, k);
    assert ids == prev + b;
    forall i, j | 0 <= i < j < |ids|
      ensures sides[ids[i]] < sides[ids[j]] || (sides[ids[i]] == sides[ids[j]] && ids[i] < ids[j])
    {
      if j < |prev| {
        assert ids[i] == prev[i] && ids[j] == prev[j];
      } else if i < |prev| {
        assert ids[i] == prev[i] && ids[j] == b[j - |prev|];
      } else {
        assert ids[i] == b[i - |prev|] && ids[j] == b[j - |prev|];
      }
    }
  }

  /** A bucket holds each face of its side once and no other face. */
  lemma {:induction false} BucketCount(sides: seq<int>, c: int, x: int)
    ensures multiset(Bucket(sides, c))[x] == if 0 <= x < |sides| && sides[x] == c then 1 else 0
    decreases |sides|
  {
    if |sides| > 0 {
      var n := |sides| - 1;
      var pre := Bucket(sides[..n], c);
      var last: seq<int> := if sides[n] == c then [n] else [];
      assert multiset(Bucket(sides, c)) == multiset(pre) + multiset(last);
      BucketCount(sides[..n], c, x);
      assert multiset(last)[x] == if x == n && sides[n] == c then 1 else 0;
      if 0 <= x < n {
        assert sides[..n][x] == sides[x];
      }
    }
  }

  lemma GroupedIdsCount(sides: seq<int>, k: nat, x: int)
    ensures multiset(GroupedIds(sides, k))[x] == if 0 <= x < |sides| && 0 <= sides[x] < k then 1 else 0
  {
    if k == 0 {
      assert GroupedIds(sides, k) == [];
    } else {
      GroupedIdsCount(sides, k - 1, x);
      GroupedIdsCountStep(sides, k, x);
    }
  }

  lemma GroupedIdsCountStep(sides: seq<int>, k: nat, x: int)
    requires k > 0
    requires multiset(GroupedIds(sides, k - 1))[x] == if 0 <= x < |sides| && 0 <= sides[x] < k - 1 then 1 else 0
    ensures multiset(GroupedIds(sides, k))[x] == if 0 <= x < |sides| && 0 <= sides[x] < k then 1 else 0
  {
    CountAppend(GroupedIds(sides, k - 1), Bucket(sides, k - 1), x);
    BucketCount(sides, k - 1, x);
    var side := if 0 <= x < |sides| then sides[x] else -1;
    CountStepArith(multiset(GroupedIds(sides, k))[x], multiset(GroupedIds(sides, k - 1))[x],
                   multiset(Bucket(sides, k - 1))[x], 0 <= x < |sides|, side, k);
  }

  /** The counting step on plain integers: the groups below k are the groups
      below k - 1 plus group k - 1. */
  lemma CountStepArith(total: int, below: int, here: int, inside: bool, side: int, k: int)
    requires k > 0
    requires total == below + here
    requires below == if inside && 0 <= side < k - 1 then 1 else 0
    requires here == if inside && side == k - 1 then 1 else 0
    ensures total == if inside && 0 <= side < k then 1 else 0
  {
  }

  lemma CountAppend(a: seq<int>, b: seq<int>, x: int)
    ensures multiset(a + b)[x] == multiset(a)[x] + multiset(b)[x]
  {
    assert multiset(a + b) == multiset(a) + multiset(b);
  }

  lemma {:induction false} FaceIdsCount(n: nat, x: int)
    ensures multiset(FaceIds(n))[x] == if 0 <= x < n then 1 else 0
  {
    if n > 0 {
      FaceIdsCount(n - 1, x);
      assert FaceIds(n) == FaceIds(n - 1) + [n - 1];
    }
  }

  /** When every side is one of the k groups, the grouped order lists every
      face exactly once. */
  lemma GroupedIdsPermutation(sides: seq<int>, k: nat)
    requires forall q :: 0 <= q < |sides| ==> 0 <= sides[q] < k
    ensures multiset(GroupedIds(sides, k)) == multiset(FaceIds(|sides|))
  {
    forall x
      ensures multiset(GroupedIds(sides, k))[x] == multiset(FaceIds(|sides|))[x]
    {
      GroupedIdsCount(sides, k, x);
      FaceIdsCount(|sides|, x);
    }
  }

  /** The method that fills `facesWithColor`: one bucket per side, each face
      pushed onto its side's bucket in face order. */
  method CollectBuckets(nf: nat, m: map<int, int>, colorNum: int) returns (buckets: seq<seq<int>>)
    requires colorNum >= 0
    requires Classified(m, nf, colorNum)
    ensures |buckets| == colorNum
    ensures forall c :: 0 <= c < colorNum ==> buckets[c] == Bucket(FaceSides(m, nf), c)
  {
    ghost var sides := FaceSides(m, nf);
    buckets := seq(colorNum, c => []);
    for p := 0 to nf
      invariant |buckets| == colorNum
      invariant forall c :: 0 <= c < colorNum ==> buckets[c] == Bucket(sides[..p], c)
    {
      var side := m[p];
      buckets := buckets[side := buckets[side] + [p]];
      forall c | 0 <= c < colorNum
        ensures buckets[c] == Bucket(sides[..p + 1], c)
      {
        BucketSnoc(sides, p, c);
      }
    }
    assert sides[..nf] == sides;
  }

  // ---------------------------------------------------------------------
  // The documents
  // ---------------------------------------------------------------------

  /** The face suffixes of the OFF and PLY bodies: the colour of the face's
      side when colour is on (no wrap-around), nothing otherwise. */
  function ColorSuffixes(m: map<int, int>, nf: nat, colors: seq<Color>, withColor: bool): seq<Line>
    requires withColor ==> Classified(m, nf, |colors|)
  {
    seq(nf, p requires 0 <= p < nf => if withColor then ColorTokens(colors[m[p]]) else [])
  }

  function OffExportDocument(verts: seq<Point>, faces: seq<seq<int>>, m: map<int, int>, colors: seq<Color>, withColor: bool): seq<Line>
    requires withColor ==> Classified(m, |faces|, |colors|)
  {
    OffDocument(verts, faces, ColorSuffixes(m, |faces|, colors, withColor), COORDINATE_STYLE)
  }

  /** `v x y z` per vertex. */
  function ObjVertexLines(verts: seq<Point>): seq<Line>
  {
    VertexLines(verts, [Word("v")], COORDINATE_STYLE)
  }

  /** `f` and the one-based handles of a face, in winding order. */
  function ObjFaceLine(f: seq<int>): Line
  {
    [Word("f")] + HandleTokens(f, 1)
  }

  function ObjFaceLines(faces: seq<seq<int>>): seq<Line>
  {
    seq(|faces|, p requires 0 <= p < |faces| => ObjFaceLine(faces[p]))
  }

  /** The face lines of the faces with the given ids, in that order. */
  function FaceLinesOf(faces: seq<seq<int>>, ids: seq<int>): seq<Line>
    requires forall j :: 0 <= j < |ids| ==> 0 <= ids[j] < |faces|
  {
    seq(|ids|, j requires 0 <= j < |ids| => ObjFaceLine(faces[ids[j]]))
  }

  function ObjMeshOnlyDocument(verts: seq<Point>, faces: seq<seq<int>>): seq<Line>
  {
    ObjVertexLines(verts) + ObjFaceLines(faces)
  }

  function MtlFileName(filename: string): string
  {
    filename + ".mtl"
  }

  /** The comment block and the `mtllib` line opening the coloured OBJ file. */
  function ObjHeader(filename: string, nv: int, nf: int): seq<Line>
  {
    [[Word("###")],
     [Word("#")],
     [Word("#"), Word("OBJ"), Word("File"), Word(filename)],
     [Word("#"), Word("Exported"), Word("by"), Word("Spline_to_mesh")],
     [Word("#")],
     [Word("#"), Word("Vertices:"), Int(nv)],
     [Word("#"), Word("Faces:"), Int(nf)],
     [Word("#")],
     [Word("###")],
     [Word("mtllib"), Word("./" + MtlFileName(filename))],
     []]
  }

  /** One group: the material it uses, its face lines, an empty line. */
  function GroupBlock(faces: seq<seq<int>>, ids: seq<int>, c: int): seq<Line>
    requires forall j :: 0 <= j < |ids| ==> 0 <= ids[j] < |faces|
  {
    [[Word("usemtl"), Numbered("material_", c)]] + FaceLinesOf(faces, ids) + [[]]
  }

  /** Groups 0 .. k-1 of the coloured OBJ body. */
  function Groups(faces: seq<seq<int>>, sides: seq<int>, k: nat): seq<Line>
    requires |sides| == |faces|
  {
    if k == 0 then [] else Groups(faces, sides, k - 1) + GroupBlock(faces, Bucket(sides, k - 1), k - 1)
  }

  function ObjColorDocument(filename: string, verts: seq<Point>, faces: seq<seq<int>>, sides: seq<int>, colorNum: nat): seq<Line>
    requires |sides| == |faces|
  {
    ObjHeader(filename, |verts|, |faces|) + ObjVertexLines(verts) + [[], []] + Groups(faces, sides, colorNum)
  }

  function MtlHeader(): seq<Line>
  {
    [[Word("#")],
     [Word("#"), Word("Material"), Word("definitions")],
     [Word("#"), Word("Exported"), Word("by"), Word("Spline_to_mesh")],
     [Word("#")],
     []]
  }

  /** The material block of group i, whose diffuse colour is the palette entry scaled to [0, 1]. */
  function MtlBlock(c: Color, i: int): seq<Line>
  {
    [[Word("newmtl"), Numbered("material_", i)],
     [Word("Ka"), Num(0.2, MATERIAL_STYLE), Num(0.2, MATERIAL_STYLE), Num(0.2, MATERIAL_STYLE)],
     [Word("Kd"), Num(c.0 as real / 255.0, MATERIAL_STYLE), Num(c.1 as real / 255.0, MATERIAL_STYLE),
      Num(c.2 as real / 255.0, MATERIAL_STYLE)],
     [Word("Ks"), Num(1.0, MATERIAL_STYLE), Num(1.0, MATERIAL_STYLE), Num(1.0, MATERIAL_STYLE)],
     [Word("Tr"), Num(0.0, MATERIAL_STYLE)],
     [Word("illum"), Int(2)],
     [Word("Ns"), Num(0.0, MATERIAL_STYLE)],
     []]
  }

  function MtlBlocks(colors: seq<Color>, k: nat): seq<Line>
    requires k <= |colors|
  {
    if k == 0 then [] else MtlBlocks(colors, k - 1) + MtlBlock(colors[k - 1], k - 1)
  }

  function MtlDocument(colors: seq<Color>, colorNum: nat): seq<Line>
    requires colorNum <= |colors|
  {
    MtlHeader() + MtlBlocks(colors, colorNum)
  }

  const PLY_XYZ: seq<Line> :=
    [[Word("property"), Word("float"), Word("x")],
     [Word("property"), Word("float"), Word("y")],
     [Word("property"), Word("float"), Word("z")]]

  const PLY_FACE_LIST: Line := [Word("property"), Word("list"), Word("uchar"), Word("int"), Word("vertex_indices")]

  const PLY_COLOR_PROPERTIES: seq<Line> :=
    [[Word("property"), Word("uchar"), Word("red")],
     [Word("property"), Word("uchar"), Word("green")],
     [Word("property"), Word("uchar"), Word("blue")]]

  function PlyHeader(nv: int, nf: int, withColor: bool): seq<Line>
  {
    [[Word("ply")], [Word("format"), Word("ascii"), Word("1.0")], [Word("element"), Word("vertex"), Int(nv)]]
    + PLY_XYZ
    + [[Word("element"), Word("face"), Int(nf)], PLY_FACE_LIST]
    + (if withColor then PLY_COLOR_PROPERTIES else [])
    + [[Word("end_header")]]
  }

  function PlyExportDocument(verts: seq<Point>, faces: seq<seq<int>>, m: map<int, int>, colors: seq<Color>, withColor: bool): seq<Line>
    requires withColor ==> Classified(m, |faces|, |colors|)
  {
    PlyHeader(|verts|, |faces|, withColor) + VertexLines(verts, [], COORDINATE_STYLE)
    + CountedFaceLines(faces, ColorSuffixes(m, |faces|, colors, withColor))
  }

  // ---------------------------------------------------------------------
  // The writing loops
  // ---------------------------------------------------------------------

  /** A line made of `lead` and the handles of a face shifted by `offset`. */
  method HandleLine(lead: Line, f: seq<int>, offset: int) returns (line: Line)
    ensures line == lead + HandleTokens(f, offset)
  {
    line := lead;
    for k := 0 to |f|
      invariant line == lead + HandleTokens(f[..k], offset)
    {
      line := line + [Int(f[k] + offset)];
      assert HandleTokens(f[..k + 1], offset) == HandleTokens(f[..k], offset) + [Int(f[k] + offset)];
    }
    assert f[..|f|] == f;
  }

  /** The face loop of the uncoloured OBJ export. */
  method WriteObjFaces(out: seq<Line>, faces: seq<seq<int>>) returns (out': seq<Line>)
    ensures out' == out + ObjFaceLines(faces)
  {
    out' := out;
    for p := 0 to |faces|
      invariant out' == out + ObjFaceLines(faces[..p])
    {
      var line := HandleLine([Word("f")], faces[p], 1);
      out' := out' + [line];
      assert ObjFaceLines(faces[..p + 1]) == ObjFaceLines(faces[..p]) + [ObjFaceLine(faces[p])];
    }
    assert faces[..|faces|] == faces;
  }

  /** The face lines of one group. */
  method WriteFacesOf(out: seq<Line>, faces: seq<seq<int>>, ids: seq<int>) returns (out': seq<Line>)
    requires forall j :: 0 <= j < |ids| ==> 0 <= ids[j] < |faces|
    ensures out' == out + FaceLinesOf(faces, ids)
  {
    out' := out;
    for j := 0 to |ids|
      invariant out' == out + FaceLinesOf(faces, ids[..j])
    {
      var line := HandleLine([Word("f")], faces[ids[j]], 1);
      out' := out' + [line];
      assert FaceLinesOf(faces, ids[..j + 1]) == FaceLinesOf(faces, ids[..j]) + [ObjFaceLine(faces[ids[j]])];
    }
    assert ids[..|ids|] == ids;
  }

  /** One group of the coloured OBJ export: its `usemtl` line, its face
      lines and an empty line. */
  method WriteGroup(out: seq<Line>, faces: seq<seq<int>>, ids: seq<int>, c: int) returns (out': seq<Line>)
    requires forall j :: 0 <= j < |ids| ==> 0 <= ids[j] < |faces|
    ensures out' == out + GroupBlock(faces, ids, c)
  {
    var use: seq<Line> := [[Word("usemtl"), Numbered("material_", c)]];
    out' := out + use;
    out' := WriteFacesOf(out', faces, ids);
    out' := out' + [[]];
    assert out' == ((out + use) + FaceLinesOf(faces, ids)) + [[]];
  }

  /** The group lines written from a list of buckets, group c from bucket c. */
  function GroupsOf(faces: seq<seq<int>>, buckets: seq<seq<int>>): seq<Line>
    requires forall c, j :: 0 <= c < |buckets| && 0 <= j < |buckets[c]| ==> 0 <= buckets[c][j] < |faces|
  {
    if buckets == [] then []
    else GroupsOf(faces, buckets[..|buckets| - 1]) + GroupBlock(faces, buckets[|buckets| - 1], |buckets| - 1)
  }

  /** Written from the buckets of the sides, the groups are the groups of the sides. */
  lemma {:induction false} GroupsOfBuckets(faces: seq<seq<int>>, buckets: seq<seq<int>>, sides: seq<int>)
    requires |sides| == |faces|
    requires forall c :: 0 <= c < |buckets| ==> buckets[c] == Bucket(sides, c)
    requires forall c, j :: 0 <= c < |buckets| && 0 <= j < |buckets[c]| ==> 0 <= buckets[c][j] < |faces|
    ensures GroupsOf(faces, buckets) == Groups(faces, sides, |buckets|)
    decreases |buckets|
  {
    if buckets != [] {
      var n := |buckets| - 1;
      GroupsOfBuckets(faces, buckets[..n], sides);
    }
  }

  /** The group loop of the coloured OBJ export. */
  method WriteGroups(out: seq<Line>, faces: seq<seq<int>>, buckets: seq<seq<int>>) returns (out': seq<Line>)
    requires forall c, j :: 0 <= c < |buckets| && 0 <= j < |buckets[c]| ==> 0 <= buckets[c][j] < |faces|
    ensures out' == out + GroupsOf(faces, buckets)
  {
    out' := out;
    for c := 0 to |buckets|
      invariant out' == out + GroupsOf(faces, buckets[..c])
    {
      out' := WriteGroup(out', faces, buckets[c], c);
      assert buckets[..c + 1][..c] == buckets[..c];
    }
    assert buckets[..|buckets|] == buckets;
  }

  // ---------------------------------------------------------------------
  // The exporter
  // ---------------------------------------------------------------------

  class MeshExporter {
    const format: ExportFormat
    const optionFlag: OptionFlag
    var colors: seq<Color>

    /** A new exporter keeps the flags it is given (none by default) and starts
        with the six-colour palette. */
    constructor (format: ExportFormat, optionFlag: OptionFlag := NO_OPTIONS)
      ensures this.format == format && this.optionFlag == optionFlag
      ensures colors == SIX_COLORS
    {
      this.format := format;
      this.optionFlag := optionFlag;
      colors := SIX_COLORS;
    }

    /** Replaces the whole palette; the flags are constant. */
    method SetColors(colors: seq<Color>)
      modifies this
      ensures this.colors == colors
    {
      this.colors := colors;
    }

    /** What an export with this exporter's flags needs of the face-to-side map. */
    predicate Ready(m: map<int, int>, nf: int)
      reads this
    {
      Has(optionFlag, WITH_COLOR) ==>
        if format == ObjFormat then ObjColorReady(m, nf, |colors|) else Classified(m, nf, |colors|)
    }

    /** Exporting a mesh in this exporter's format. */
    method ExportMesh(mesh: Mesh, faceIndexMap: map<int, int>, fs: FileSystem, filename: string) returns (ok: bool)
      requires Ready(faceIndexMap, |mesh.faces|)
      modifies fs
      ensures format == OffFormat ==>
        Wrote(old(fs.files), fs.files, fs.writable, filename,
              OffExportDocument(mesh.verts, mesh.faces, faceIndexMap, colors, Has(optionFlag, WITH_COLOR)), ok)
      ensures format == PlyFormat ==>
        Wrote(old(fs.files), fs.files, fs.writable, filename,
              PlyExportDocument(mesh.verts, mesh.faces, faceIndexMap, colors, Has(optionFlag, WITH_COLOR)), ok)
      ensures format == ObjFormat && !Has(optionFlag, WITH_COLOR) ==>
        Wrote(old(fs.files), fs.files, fs.writable, filename, ObjMeshOnlyDocument(mesh.verts, mesh.faces), ok)
      ensures format == ObjFormat && Has(optionFlag, WITH_COLOR) ==>
        WrotePair(old(fs.files), fs.files, fs.writable, filename, MtlFileName(filename),
                  ObjColorDocument(filename, mesh.verts, mesh.faces, FaceSides(faceIndexMap, |mesh.faces|), MaxSide(faceIndexMap) + 1),
                  MtlDocument(colors, MaxSide(faceIndexMap) + 1), ok)
    {
      match format
      case OffFormat =>
        ok := ExportOff(mesh, faceIndexMap, fs, filename);
      case ObjFormat =>
        ok := ExportObj(mesh, faceIndexMap, fs, filename);
      case PlyFormat =>
        ok := ExportPly(mesh, faceIndexMap, fs, filename);
    }

    /** The face loop of the OFF and PLY exports. */
    method WriteColoredFaces(out: seq<Line>, faces: seq<seq<int>>, m: map<int, int>) returns (out': seq<Line>)
      requires Has(optionFlag, WITH_COLOR) ==> Classified(m, |faces|, |colors|)
      ensures out' == out + CountedFaceLines(faces, ColorSuffixes(m, |faces|, colors, Has(optionFlag, WITH_COLOR)))
    {
      ghost var suffixes := ColorSuffixes(m, |faces|, colors, Has(optionFlag, WITH_COLOR));
      out' := out;
      for p := 0 to |faces|
        invariant out' == out + CountedFaceLines(faces[..p], suffixes[..p])
      {
        var line := HandleLine([Int(|faces[p]|)], faces[p], 0);
        if Has(optionFlag, WITH_COLOR) {
          var colorIndex := m[p];
          line := line + [Int(colors[colorIndex].0), Int(colors[colorIndex].1), Int(colors[colorIndex].2)];
        }
        assert line == CountedFaceLine(faces[p], suffixes[p]);
        out' := out' + [line];
        assert CountedFaceLines(faces[..p + 1], suffixes[..p + 1])
            == CountedFaceLines(faces[..p], suffixes[..p]) + [CountedFaceLine(faces[p], suffixes[p])];
      }
      assert faces[..|faces|] == faces && suffixes[..|faces|] == suffixes;
    }

    /** `OffMeshExporter::ExportMesh`. */
    method ExportOff(mesh: Mesh, faceIndexMap: map<int, int>, fs: FileSystem, filename: string) returns (ok: bool)
      requires Has(optionFlag, WITH_COLOR) ==> Classified(faceIndexMap, |mesh.faces|, |colors|)
      modifies fs
      ensures Wrote(old(fs.files), fs.files, fs.writable, filename,
                    OffExportDocument(mesh.verts, mesh.faces, faceIndexMap, colors, Has(optionFlag, WITH_COLOR)), ok)
    {
      ok := fs.Open(filename);
      if !ok {
        return;
      }
      var out := [[Word("OFF")], [Int(|mesh.verts|), Int(|mesh.faces|), Int(0)]];
      out := WriteVertexLines(out, mesh.verts, [], COORDINATE_STYLE);
      out := WriteColoredFaces(out, mesh.faces, faceIndexMap);
      fs.Close(filename, out);
    }

    /** `ObjMeshExporter::ExportMesh`: the coloured export when WITH_COLOR is set. */
    method ExportObj(mesh: Mesh, faceIndexMap: map<int, int>, fs: FileSystem, filename: string) returns (ok: bool)
      requires Has(optionFlag, WITH_COLOR) ==> ObjColorReady(faceIndexMap, |mesh.faces|, |colors|)
      modifies fs
      ensures !Has(optionFlag, WITH_COLOR) ==>
        Wrote(old(fs.files), fs.files, fs.writable, filename, ObjMeshOnlyDocument(mesh.verts, mesh.faces), ok)
      ensures Has(optionFlag, WITH_COLOR) ==>
        WrotePair(old(fs.files), fs.files, fs.writable, filename, MtlFileName(filename),
                  ObjColorDocument(filename, mesh.verts, mesh.faces, FaceSides(faceIndexMap, |mesh.faces|), MaxSide(faceIndexMap) + 1),
                  MtlDocument(colors, MaxSide(faceIndexMap) + 1), ok)
    {
      if Has(optionFlag, WITH_COLOR) {
        ok := ExportMeshWithColor(mesh, faceIndexMap, fs, filename);
      } else {
        ok := ExportMeshOnly(mesh, fs, filename);
      }
    }

    /** `ObjMeshExporter::ExportMeshOnly`. */
    method ExportMeshOnly(mesh: Mesh, fs: FileSystem, filename: string) returns (ok: bool)
      modifies fs
      ensures Wrote(old(fs.files), fs.files, fs.writable, filename, ObjMeshOnlyDocument(mesh.verts, mesh.faces), ok)
    {
      ok := fs.Open(filename);
      if !ok {
        return;
      }
      var out := WriteVertexLines([], mesh.verts, [Word("v")], COORDINATE_STYLE);
      out := WriteObjFaces(out, mesh.faces);
      assert out == ObjMeshOnlyDocument(mesh.verts, mesh.faces);
      fs.Close(filename, out);
    }

    /** `ObjMeshExporter::ExportMeshWithColor`. */
    method ExportMeshWithColor(mesh: Mesh, faceIndexMap: map<int, int>, fs: FileSystem, filename: string) returns (ok: bool)
      requires ObjColorReady(faceIndexMap, |mesh.faces|, |colors|)
      modifies fs
      ensures WrotePair(old(fs.files), fs.files, fs.writable, filename, MtlFileName(filename),
                        ObjColorDocument(filename, mesh.verts, mesh.faces, FaceSides(faceIndexMap, |mesh.faces|), MaxSide(faceIndexMap) + 1),
                        MtlDocument(colors, MaxSide(faceIndexMap) + 1), ok)
    {
      ok := fs.Open(filename);
      if !ok {
        return;
      }
      var mtlName := MtlFileName(filename);
      ok := fs.Open(mtlName);
      if !ok {
        return;
      }
      var out, mat := WriteObjColor(mesh, faceIndexMap, filename);
      fs.Close(filename, out);
      fs.Close(mtlName, mat);
      Overwrite(old(fs.files), filename, mtlName, out, mat);
    }

    /** The text of the two files of the coloured OBJ export. */
    method WriteObjColor(mesh: Mesh, faceIndexMap: map<int, int>, filename: string) returns (out: seq<Line>, mat: seq<Line>)
      requires ObjColorReady(faceIndexMap, |mesh.faces|, |colors|)
      ensures out == ObjColorDocument(filename, mesh.verts, mesh.faces, FaceSides(faceIndexMap, |mesh.faces|), MaxSide(faceIndexMap) + 1)
      ensures mat == MtlDocument(colors, MaxSide(faceIndexMap) + 1)
    {
      out := ObjHeader(filename, |mesh.verts|, |mesh.faces|);
      out := WriteVertexLines(out, mesh.verts, [Word("v")], COORDINATE_STYLE);
      out := out + [[], []];
      var colorNum := ColorCount(faceIndexMap);
      var buckets := CollectBuckets(|mesh.faces|, faceIndexMap, colorNum);
      out := WriteGroups(out, mesh.faces, buckets);
      GroupsOfBuckets(mesh.faces, buckets, FaceSides(faceIndexMap, |mesh.faces|));
      mat := WriteMaterials(colorNum);
    }

    /** The material loop of the coloured OBJ export. */
    method WriteMaterials(colorNum: nat) returns (mat: seq<Line>)
      requires colorNum <= |colors|
      ensures mat == MtlDocument(colors, colorNum)
    {
      mat := MtlHeader();
      for i := 0 to colorNum
        invariant mat == MtlHeader() + MtlBlocks(colors, i)
      {
        mat := mat + MtlBlock(colors[i], i);
      }
    }

    /** `PlyMeshExporter::ExportMesh`. */
    method ExportPly(mesh: Mesh, faceIndexMap: map<int, int>, fs: FileSystem, filename: string) returns (ok: bool)
      requires Has(optionFlag, WITH_COLOR) ==> Classified(faceIndexMap, |mesh.faces|, |colors|)
      modifies fs
      ensures Wrote(old(fs.files), fs.files, fs.writable, filename,
                    PlyExportDocument(mesh.verts, mesh.faces, faceIndexMap, colors, Has(optionFlag, WITH_COLOR)), ok)
    {
      ok := fs.Open(filename);
      if !ok {
        return;
      }
      var out := [[Word("ply")], [Word("format"), Word("ascii"), Word("1.0")],
                  [Word("element"), Word("vertex"), Int(|mesh.verts|)]]
                 + PLY_XYZ
                 + [[Word("element"), Word("face"), Int(|mesh.faces|)], PLY_FACE_LIST];
      if Has(optionFlag, WITH_COLOR) {
        out := out + PLY_COLOR_PROPERTIES;
      }
      out := out + [[Word("end_header")]];
      assert out == PlyHeader(|mesh.verts|, |mesh.faces|, Has(optionFlag, WITH_COLOR));
      out := WriteVertexLines(out, mesh.verts, [], COORDINATE_STYLE);
      out := WriteColoredFaces(out, mesh.faces, faceIndexMap);
      fs.Close(filename, out);
    }
  }

  // ---------------------------------------------------------------------
  // Reading the files back
  // ---------------------------------------------------------------------

  /** Reading an OFF export back yields the mesh's vertices, its faces in
      order and winding, and after each face the colour of its side exactly
      when colour is on. */
  lemma OffExportRoundTrip(verts: seq<Point>, faces: seq<seq<int>>, m: map<int, int>, colors: seq<Color>, withColor: bool)
    requires withColor ==> Classified(m, |faces|, |colors|)
    ensures DecodeOff(OffExportDocument(verts, faces, m, colors, withColor)).Some?
    ensures var c := DecodeOff(OffExportDocument(verts, faces, m, colors, withColor)).value;
      && c.verts == verts && c.faces == faces && |c.suffixes| == |faces|
      && forall p :: 0 <= p < |faces| ==> c.suffixes[p] == if withColor then ColorTokens(colors[m[p]]) else []
  {
    OffRoundTrip(verts, faces, ColorSuffixes(m, |faces|, colors, withColor), COORDINATE_STYLE);
  }

  /** What a PLY document holds. */
  datatype PlyContent = PlyContent(verts: seq<Point>, faces: seq<seq<int>>, suffixes: seq<Line>, colored: bool)

  /** Reads a PLY document whose element counts agree with its length. */
  function DecodePly(doc: seq<Line>): Option<PlyContent>
  {
    if |doc| >= 9 && doc[0] == [Word("ply")] && doc[1] == [Word("format"), Word("ascii"), Word("1.0")]
       && |doc[2]| == 3 && doc[2][0] == Word("element") && doc[2][1] == Word("vertex") && doc[2][2].Int?
       && doc[3..6] == PLY_XYZ
       && |doc[6]| == 3 && doc[6][0] == Word("element") && doc[6][1] == Word("face") && doc[6][2].Int?
       && doc[7] == PLY_FACE_LIST
    then
      var colored := |doc| >= 12 && doc[8..11] == PLY_COLOR_PROPERTIES;
      var h := if colored then 11 else 8;
      var nv := doc[2][2].i;
      var nf := doc[6][2].i;
      if doc[h] == [Word("end_header")] && 0 <= nv && 0 <= nf && |doc| == h + 1 + nv + nf then
        match (DecodePoints(doc[h + 1..h + 1 + nv], []), DecodeCountedFaces(doc[h + 1 + nv..]))
        case (Some(vs), Some((fs, sfx))) => Some(PlyContent(vs, fs, sfx, colored))
        case _ => None
      else None
    else None
  }

  /** Reading a PLY export back yields the vertices, the faces in order and
      winding, whether the colour properties were declared, and after each
      face the colour of its side exactly when colour is on. */
  lemma PlyExportRoundTrip(verts: seq<Point>, faces: seq<seq<int>>, m: map<int, int>, colors: seq<Color>, withColor: bool)
    requires withColor ==> Classified(m, |faces|, |colors|)
    ensures DecodePly(PlyExportDocument(verts, faces, m, colors, withColor))
         == Some(PlyContent(verts, faces, ColorSuffixes(m, |faces|, colors, withColor), withColor))
    ensures forall p :: 0 <= p < |faces| ==>
      ColorSuffixes(m, |faces|, colors, withColor)[p] == if withColor then ColorTokens(colors[m[p]]) else []
  {
    PlyRoundTrip(verts, faces, ColorSuffixes(m, |faces|, colors, withColor), withColor);
  }

  /** Any PLY document laid out as the exporter lays it out reads back as
      its vertices, faces, per-face suffixes and colour declaration. */
  lemma PlyRoundTrip(verts: seq<Point>, faces: seq<seq<int>>, suffixes: seq<Line>, withColor: bool)
    requires |suffixes| == |faces|
    ensures DecodePly(PlyHeader(|verts|, |faces|, withColor) + VertexLines(verts, [], COORDINATE_STYLE) + CountedFaceLines(faces, suffixes))
         == Some(PlyContent(verts, faces, suffixes, withColor))
  {
    var header := PlyHeader(|verts|, |faces|, withColor);
    var vs := VertexLines(verts, [], COORDINATE_STYLE);
    var fs := CountedFaceLines(faces, suffixes);
    var doc := header + vs + fs;
    var h := if withColor then 11 else 8;
    PlyHeaderLayout(|verts|, |faces|, withColor, vs + fs);
    assert doc == header + (vs + fs);
    assert doc[h + 1..h + 1 + |verts|] == vs;
    assert doc[h + 1 + |verts|..] == fs;
    PointsRoundTrip(verts, [], COORDINATE_STYLE);
    CountedFacesRoundTrip(faces, suffixes);
  }

  /** The header fields DecodePly checks, in a header followed by any body. */
  lemma PlyHeaderLayout(nv: int, nf: int, withColor: bool, body: seq<Line>)
    ensures var doc := PlyHeader(nv, nf, withColor) + body;
            var h := if withColor then 11 else 8;
            && |doc| == h + 1 + |body| && doc[h + 1..] == body
            && doc[0] == [Word("ply")] && doc[1] == [Word("format"), Word("ascii"), Word("1.0")]
            && doc[2] == [Word("element"), Word("vertex"), Int(nv)]
            && doc[3..6] == PLY_XYZ
            && doc[6] == [Word("element"), Word("face"), Int(nf)] && doc[7] == PLY_FACE_LIST
            && (|doc| >= 12 && doc[8..11] == PLY_COLOR_PROPERTIES <==> withColor)
            && doc[h] == [Word("end_header")]
  {
    var header := PlyHeader(nv, nf, withColor);
    var doc := header + body;
    var h := if withColor then 11 else 8;
    assert |header| == h + 1;
    assert doc[..h + 1] == header;
    assert doc[3..6] == PLY_XYZ;
    if withColor {
      assert doc[8..11] == PLY_COLOR_PROPERTIES;
    } else {
      assert doc[8] == [Word("end_header")];
      assert doc[8] != PLY_COLOR_PROPERTIES[0];
    }
  }

  /** The material file has its five header lines and then exactly one
      eight-line block per group, block i built from palette entry i. */
  lemma MtlLayout(colors: seq<Color>, n: nat)
    requires n <= |colors|
    ensures |MtlDocument(colors, n)| == 5 + 8 * n
    ensures forall i :: 0 <= i < n ==> MtlDocument(colors, n)[5 + 8 * i..13 + 8 * i] == MtlBlock(colors[i], i)
  {
    MtlBlocksLayout(colors, n);
    var doc := MtlDocument(colors, n);
    forall i | 0 <= i < n
      ensures doc[5 + 8 * i..13 + 8 * i] == MtlBlock(colors[i], i)
    {
      assert doc[5 + 8 * i..13 + 8 * i] == MtlBlocks(colors, n)[8 * i..8 * i + 8];
    }
  }

  /** Block i of the material file names material_i and carries palette
      entry i, scaled to [0, 1], as its diffuse colour. */
  lemma MtlMaterialLines(colors: seq<Color>, n: nat, i: nat)
    requires i < n <= |colors|
    ensures 13 + 8 * i <= |MtlDocument(colors, n)|
    ensures MtlDocument(colors, n)[5 + 8 * i] == [Word("newmtl"), Numbered("material_", i)]
    ensures MtlDocument(colors, n)[7 + 8 * i]
         == [Word("Kd"), Num(colors[i].0 as real / 255.0, MATERIAL_STYLE), Num(colors[i].1 as real / 255.0, MATERIAL_STYLE),
             Num(colors[i].2 as real / 255.0, MATERIAL_STYLE)]
  {
    MtlLayout(colors, n);
    var block := MtlDocument(colors, n)[5 + 8 * i..13 + 8 * i];
    assert block == MtlBlock(colors[i], i);
    assert MtlDocument(colors, n)[5 + 8 * i] == block[0];
    assert MtlDocument(colors, n)[7 + 8 * i] == block[2];
  }

  lemma {:induction false} MtlBlocksLayout(colors: seq<Color>, n: nat)
    requires n <= |colors|
    ensures |MtlBlocks(colors, n)| == 8 * n
    ensures forall i :: 0 <= i < n ==> MtlBlocks(colors, n)[8 * i..8 * i + 8] == MtlBlock(colors[i], i)
  {
    if n > 0 {
      MtlBlocksLayout(colors, n - 1);
      var prev := MtlBlocks(colors, n - 1);
      var all := MtlBlocks(colors, n);
      forall i | 0 <= i < n
        ensures all[8 * i..8 * i + 8] == MtlBlock(colors[i], i)
      {
        if i < n - 1 {
          assert all[8 * i..8 * i + 8] == prev[8 * i..8 * i + 8];
        } else {
          assert all[8 * i..8 * i + 8] == MtlBlock(colors[n - 1], n - 1);
        }
      }
    }
  }

  /** What a reader of an OBJ file collects: the vertices, the faces with
      one-based handles turned back into mesh handles, the material in use
      when each face was read, and the material currently in use. */
  datatype ObjContent = ObjContent(verts: seq<Point>, faces: seq<seq<int>>, materials: seq<Option<int>>, current: Option<int>)

  const OBJ_START: ObjContent := ObjContent([], [], [], None)

  /** Reads one OBJ line: `v` adds a vertex, `f` a face under the current
      material, `usemtl material_<i>` switches the material; comments, the
      `mtllib` line and empty lines change nothing. */
  function ReadObjLine(st: ObjContent, l: Line): ObjContent
  {
    if DecodePoint(l, [Word("v")]).Some? then st.(verts := st.verts + [DecodePoint(l, [Word("v")]).value])
    else if |l| >= 1 && l[0] == Word("f") && DecodeHandles(l[1..], 1).Some? then
      st.(faces := st.faces + [DecodeHandles(l[1..], 1).value], materials := st.materials + [st.current])
    else if |l| == 2 && l[0] == Word("usemtl") && l[1].Numbered? && l[1].prefix == "material_" then
      st.(current := Some(l[1].n))
    else st
  }

  function ReadObj(st: ObjContent, ls: seq<Line>): ObjContent
    decreases |ls|
  {
    if |ls| == 0 then st else ReadObj(ReadObjLine(st, ls[0]), ls[1..])
  }

  lemma {:induction false} ReadObjAppend(st: ObjContent, a: seq<Line>, b: seq<Line>)
    ensures ReadObj(st, a + b) == ReadObj(ReadObj(st, a), b)
    decreases |a|
  {
    if |a| == 0 {
      assert a + b == b;
    } else {
      assert (a + b)[0] == a[0];
      assert (a + b)[1..] == a[1..] + b;
      ReadObjAppend(ReadObjLine(st, a[0]), a[1..], b);
    }
  }

  lemma ReadObjSingle(st: ObjContent, l: Line)
    ensures ReadObj(st, [l]) == ReadObjLine(st, l)
  {
    assert [l][1..] == [];
  }

  /** A line that starts with none of the keywords the reader acts on. */
  predicate Inert(l: Line)
  {
    |l| == 0 || (l[0] != Word("v") && l[0] != Word("f") && l[0] != Word("usemtl"))
  }

  lemma {:induction false} ReadInert(st: ObjContent, ls: seq<Line>)
    requires forall i :: 0 <= i < |ls| ==> Inert(ls[i])
    ensures ReadObj(st, ls) == st
    decreases |ls|
  {
    if |ls| > 0 {
      var l := ls[0];
      assert Inert(l);
      if |l| > 0 {
        assert l[..1][0] == l[0];
      }
      assert ReadObjLine(st, l) == st;
      ReadInert(st, ls[1..]);
    }
  }

  lemma {:induction false} ReadVerts(st: ObjContent, verts: seq<Point>)
    ensures ReadObj(st, ObjVertexLines(verts)) == st.(verts := st.verts + verts)
    decreases |verts|
  {
    if |verts| == 0 {
      assert ObjVertexLines(verts) == [];
    } else {
      var n := |verts| - 1;
      var l := [Word("v")] + PointTokens(verts[n], COORDINATE_STYLE);
      assert ObjVertexLines(verts) == ObjVertexLines(verts[..n]) + [l];
      ReadObjAppend(st, ObjVertexLines(verts[..n]), [l]);
      ReadVerts(st, verts[..n]);
      ReadObjSingle(st.(verts := st.verts + verts[..n]), l);
      assert l[..1] == [Word("v")];
      assert DecodePoint(l, [Word("v")]) == Some(verts[n]);
      assert verts[..n] + [verts[n]] == verts;
    }
  }

  /** A face line reads back as the face, recorded under the current material. */
  lemma ReadFaceLine(st: ObjContent, f: seq<int>)
    ensures ReadObjLine(st, ObjFaceLine(f)) == st.(faces := st.faces + [f], materials := st.materials + [st.current])
  {
    var l := ObjFaceLine(f);
    assert l[..1] == [Word("f")];
    assert l[1..] == HandleTokens(f, 1);
    HandlesRoundTrip(f, 1);
  }

  /** The faces with the given ids, in that order. */
  function FacesAt(faces: seq<seq<int>>, ids: seq<int>): seq<seq<int>>
    requires forall j :: 0 <= j < |ids| ==> 0 <= ids[j] < |faces|
  {
    seq(|ids|, j requires 0 <= j < |ids| => faces[ids[j]])
  }

  /** The sides of the faces with the given ids, as materials. */
  function MaterialsAt(sides: seq<int>, ids: seq<int>): seq<Option<int>>
    requires forall j :: 0 <= j < |ids| ==> 0 <= ids[j] < |sides|
  {
    seq(|ids|, j requires 0 <= j < |ids| => Some(sides[ids[j]]))
  }

  function Repeat<T>(x: T, n: nat): seq<T>
  {
    seq(n, _ => x)
  }

  lemma {:induction false} ReadFaces(st: ObjContent, faces: seq<seq<int>>, ids: seq<int>)
    requires forall j :: 0 <= j < |ids| ==> 0 <= ids[j] < |faces|
    ensures ReadObj(st, FaceLinesOf(faces, ids))
         == st.(faces := st.faces + FacesAt(faces, ids), materials := st.materials + Repeat(st.current, |ids|))
    decreases |ids|
  {
    if |ids| == 0 {
      assert FaceLinesOf(faces, ids) == [];
      assert FacesAt(faces, ids) == [] && Repeat(st.current, 0) == [];
    } else {
      var n := |ids| - 1;
      var f := faces[ids[n]];
      assert FaceLinesOf(faces, ids) == FaceLinesOf(faces, ids[..n]) + [ObjFaceLine(f)];
      ReadObjAppend(st, FaceLinesOf(faces, ids[..n]), [ObjFaceLine(f)]);
      ReadFaces(st, faces, ids[..n]);
      var st1 := st.(faces := st.faces + FacesAt(faces, ids[..n]), materials := st.materials + Repeat(st.current, n));
      ReadObjSingle(st1, ObjFaceLine(f));
      ReadFaceLine(st1, f);
      assert FacesAt(faces, ids) == FacesAt(faces, ids[..n]) + [f];
      assert Repeat(st.current, |ids|) == Repeat(st.current, n) + [st.current];
    }
  }

  /** Reading one group switches to its material and collects its faces under it. */
  lemma ReadGroupBlock(st: ObjContent, faces: seq<seq<int>>, ids: seq<int>, c: int)
    requires forall j :: 0 <= j < |ids| ==> 0 <= ids[j] < |faces|
    ensures ReadObj(st, GroupBlock(faces, ids, c))
         == st.(faces := st.faces + FacesAt(faces, ids), materials := st.materials + Repeat(Some(c), |ids|), current := Some(c))
  {
    var use: Line := [Word("usemtl"), Numbered("material_", c)];
    var lines := FaceLinesOf(faces, ids);
    ReadObjAppend(st, [use] + lines, [[]]);
    ReadObjAppend(st, [use], lines);
    ReadObjSingle(st, use);
    var st1 := st.(current := Some(c));
    assert ReadObjLine(st, use) == st1;
    ReadFaces(st1, faces, ids);
    ReadInert(ReadObj(st1, lines), [[]]);
  }

  lemma FacesAtAppend(faces: seq<seq<int>>, a: seq<int>, b: seq<int>)
    requires forall j :: 0 <= j < |a| ==> 0 <= a[j] < |faces|
    requires forall j :: 0 <= j < |b| ==> 0 <= b[j] < |faces|
    ensures FacesAt(faces, a + b) == FacesAt(faces, a) + FacesAt(faces, b)
  {
    assert FacesAt(faces, a + b) == FacesAt(faces, a) + FacesAt(faces, b);
  }

  /** The faces of group c all carry material c. */
  lemma MaterialsAtGroup(sides: seq<int>, a: seq<int>, c: nat)
    requires forall j :: 0 <= j < |a| ==> 0 <= a[j] < |sides|
    ensures MaterialsAt(sides, a + Bucket(sides, c)) == MaterialsAt(sides, a) + Repeat(Some(c), |Bucket(sides, c)|)
  {
    var b := Bucket(sides, c);
    assert MaterialsAt(sides, a + b) == MaterialsAt(sides, a) + Repeat(Some(c), |b|);
  }

  /** The state after reading groups 0 .. k-1 from `st`. */
  function AfterGroups(st: ObjContent, faces: seq<seq<int>>, sides: seq<int>, k: nat): ObjContent
    requires |sides| == |faces|
  {
    st.(faces := st.faces + FacesAt(faces, GroupedIds(sides, k)),
        materials := st.materials + MaterialsAt(sides, GroupedIds(sides, k)),
        current := if k == 0 then st.current else Some(k - 1))
  }

  lemma ReadNextGroup(st: ObjContent, faces: seq<seq<int>>, sides: seq<int>, c: nat)
    requires |sides| == |faces|
    ensures ReadObj(AfterGroups(st, faces, sides, c), GroupBlock(faces, Bucket(sides, c), c)) == AfterGroups(st, faces, sides, c + 1)
  {
    var b := Bucket(sides, c);
    var prev := GroupedIds(sides, c);
    assert GroupedIds(sides, c + 1) == prev + b;
    ReadGroupBlock(AfterGroups(st, faces, sides, c), faces, b, c);
    FacesAtAppend(faces, prev, b);
    MaterialsAtGroup(sides, prev, c);
    ExtendContent(st, FacesAt(faces, prev), FacesAt(faces, b), MaterialsAt(sides, prev), Repeat(Some(c), |b|), Some(c));
  }

  lemma ExtendContent(st: ObjContent, fa: seq<seq<int>>, fb: seq<seq<int>>, ma: seq<Option<int>>, mb: seq<Option<int>>, m: Option<int>)
    ensures (var st1 := st.(faces := st.faces + fa, materials := st.materials + ma);
             st1.(faces := st1.faces + fb, materials := st1.materials + mb, current := m))
         == st.(faces := st.faces + (fa + fb), materials := st.materials + (ma + mb), current := m)
  {
  }

  /** Reading groups 0 .. k-1 collects the faces in grouped order, each
      under the material of its own side, and leaves the last group's
      material current. */
  lemma {:induction false} ReadGroups(st: ObjContent, faces: seq<seq<int>>, sides: seq<int>, k: nat)
    requires |sides| == |faces|
    ensures ReadObj(st, Groups(faces, sides, k)) == AfterGroups(st, faces, sides, k)
  {
    if k == 0 {
      assert FacesAt(faces, []) == [] && MaterialsAt(sides, []) == [];
    } else {
      var c := k - 1;
      var head := Groups(faces, sides, c);
      var block := GroupBlock(faces, Bucket(sides, c), c);
      assert Groups(faces, sides, k) == head + block;
      ReadGroups(st, faces, sides, c);
      ReadObjAppend(st, head, block);
      ReadNextGroup(st, faces, sides, c);
    }
  }

  /** Reading an uncoloured OBJ export back yields the mesh's vertices and
      its faces in order and winding (the one-based handles shifted back),
      none of them under a material. */
  lemma ObjMeshOnlyRoundTrip(verts: seq<Point>, faces: seq<seq<int>>)
    ensures ReadObj(OBJ_START, ObjMeshOnlyDocument(verts, faces)) == ObjContent(verts, faces, Repeat<Option<int>>(None, |faces|), None)
  {
    var ids := FaceIds(|faces|);
    assert ObjFaceLines(faces) == FaceLinesOf(faces, ids);
    ReadObjAppend(OBJ_START, ObjVertexLines(verts), ObjFaceLines(faces));
    ReadVerts(OBJ_START, verts);
    ReadFaces(OBJ_START.(verts := verts), faces, ids);
    assert FacesAt(faces, ids) == faces;
    var none: seq<Option<int>> := Repeat(None, |faces|);
    assert [] + verts == verts && [] + faces == faces && [] + none == none;
  }

  /** Reading a coloured OBJ export back yields the mesh's vertices and its
      faces in grouped order, each under the material of its own side. */
  lemma ObjColorRoundTrip(filename: string, verts: seq<Point>, faces: seq<seq<int>>, sides: seq<int>, colorNum: nat)
    requires |sides| == |faces|
    ensures ReadObj(OBJ_START, ObjColorDocument(filename, verts, faces, sides, colorNum))
         == ObjContent(verts, FacesAt(faces, GroupedIds(sides, colorNum)), MaterialsAt(sides, GroupedIds(sides, colorNum)),
                       if colorNum == 0 then None else Some(colorNum - 1))
  {
    var preamble := ObjHeader(filename, |verts|, |faces|) + ObjVertexLines(verts) + [[], []];
    ReadObjAppend(OBJ_START, preamble, Groups(faces, sides, colorNum));
    ReadObjPreamble(filename, verts, |faces|);
    var st := OBJ_START.(verts := verts);
    ReadGroups(st, faces, sides, colorNum);
    var ids := GroupedIds(sides, colorNum);
    assert [] + FacesAt(faces, ids) == FacesAt(faces, ids);
    assert [] + MaterialsAt(sides, ids) == MaterialsAt(sides, ids);
  }

  /** The header, vertex lines and gap of the coloured OBJ export read back
      as the vertices alone. */
  lemma ReadObjPreamble(filename: string, verts: seq<Point>, nf: int)
    ensures ReadObj(OBJ_START, ObjHeader(filename, |verts|, nf) + ObjVertexLines(verts) + [[], []]) == OBJ_START.(verts := verts)
  {
    var header := ObjHeader(filename, |verts|, nf);
    var vs := ObjVertexLines(verts);
    var gap: seq<Line> := [[], []];
    ReadObjAppend(OBJ_START, header + vs, gap);
    ReadObjAppend(OBJ_START, header, vs);
    ReadInert(OBJ_START, header);
    ReadVerts(OBJ_START, verts);
    ReadInert(OBJ_START.(verts := verts), gap);
    assert [] + verts == verts;
  }
}
