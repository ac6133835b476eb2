# Spline-to-mesh: samplers, tessellators and exporters

This project models the part of the spline-to-mesh tool that turns a spline's
parameter domain into a polygon mesh and writes that mesh out as text.

- **Samplers** (`SurfaceMeshStrategy::BuildMesh`, `VolumeSurfaceMeshStrategy::BuildMesh`).
  - They walk an integer sample grid: the whole `(n0+1) x (n1+1)` grid of a
    surface, or only the boundary shell of an `(n0+1) x (n1+1) x (n2+1)` grid
    of a volume.
  - They add one vertex per visited grid point to a mesh and remember its
    handle in a map keyed by the grid point.
  - They add two triangles or one quad per cell. An invert flag swaps two corners.
- **Matrix tessellators** (`BuildSurfacetoMatrix`, volume and surface).
  - They compute the same grids with a running index.
  - They emit the triangles `(a0, a3, a2), (a0, a1, a3)` per cell. Inverting swaps `a0` and `a3`.
  - The volume variant can fill a face-index-to-side map.
  - `BuildSurfacetoFileOFF` writes their result as an OFF document.
- **Exporters**: OFF, Wavefront OBJ with its MTL material file, and ASCII PLY.
  They write a mesh and an optional per-face colour taken from a face-to-side
  map and a replaceable six-colour palette.
- **Configuration**: the option bits, the mesh-type enum, the strategy
  defaults and the delegating `BuildMesh` overloads.

Modules, one per concern:

- `Options`: option bits and mesh types.
- `Meshes`: the mutable mesh, a class with `verts` and `faces`.
- `Grid`: visiting orders and the key-to-handle map.
- `Cells`: cell corners to faces, and the invert/winding facts.
- `MeshStrategy`: the samplers.
- `SplineProcess`: the matrix tessellators and OFF writers.
- `Text`: lines of tokens, the file system and the OFF reader.
- `Exporters`: the three exporters, with readers for their output.

The loops of the source are methods with loop invariants. Each method is proved
equal to a specification function, and the promised properties (counts, layout,
in-range handles, winding, grouping, round trips) are proved about those
functions as lemmas. The spline evaluator is an uninterpreted function field
of the `Spline` datatype. Files are modelled as a map from path to lines, plus a
set of paths that can be opened. Numbers in the text keep their value and
their stream format; how a double is turned into digits is not modelled.

Three behaviours of the code are worth knowing:

- The OFF and PLY exporters and the material file index the palette with the
  side itself. Only the volume OFF writer reduces the side modulo the palette size.
- For the unit square with `n = 1` the vertices are added i-major:
  (0,0), (0,1), (1,0), (1,1). The triangles are therefore `[0,2,1], [2,3,1]` and
  the quad is `[0,2,3,1]` (`MeshStrategy.SurfaceUnitSquare`).
- The volume sampler uses `numSample[0]` and `numSample[1]` for every side.
  Its corner lookups all hit created vertices exactly when `n0 == n1 <= n2`
  (`MeshStrategy.VolumeFacesWithinIff`), not for arbitrary counts.

## Model

| member | source | states |
|---|---|---|
| Options.OptionBitsDistinct | src/MeshStrategy.h:12-16 | INVERT_NORMAL and WITH_COLOR are single bits with no bit in common |
| Options.SettingColorKeepsInvert | src/MeshStrategy.h:14-15 | or-ing in WITH_COLOR sets it and leaves the INVERT_NORMAL test unchanged |
| Options.SettingInvertKeepsColor | src/MeshStrategy.h:14-15 | or-ing in INVERT_NORMAL sets it and leaves the WITH_COLOR test unchanged |
| Options.ComposeFlags | src/main.cpp:38-40 | the composed flags test WITH_COLOR exactly when colour was asked for and INVERT_NORMAL exactly when inversion was, and hold no other bit |
| Options.MeshTypeFor | src/main.cpp:41 | the mesh type is SQUARE_MESH iff the square option is given, TRIANGLE_MESH otherwise |
| Meshes.Mesh.constructor | src/MeshStrategy.cpp:3 | a new mesh has no vertices and no faces and is well formed |
| Meshes.Mesh.AddVertex | src/MeshStrategy.cpp:17 | appends the point, returns its position as handle, leaves faces alone, keeps well-formedness |
| Meshes.Mesh.AddFace | src/MeshStrategy.cpp:33-34 | appends the face, leaves the vertices alone, keeps well-formedness when the face's handles are vertices |
| MeshStrategy.NewStrategy | src/MeshStrategy.h:27-28 | a strategy stores the kind, mesh type and option flags it is given |
| MeshStrategy.DefaultStrategy | src/MeshStrategy.h:27-28 | a default strategy emits triangles and has neither INVERT_NORMAL nor WITH_COLOR set |
| MeshStrategy.Style | src/MeshStrategy.cpp:28-31 | the cell convention of a strategy has its mesh type and inverts iff INVERT_NORMAL is set |
| MeshStrategy.Lerp | src/MeshStrategy.cpp:14-15 | sample 0 lies at the lower end of the axis and sample n at the upper end |
| MeshStrategy.EmitCell | src/MeshStrategy.cpp:24-44 | appends exactly the faces of the cell convention (two triangles, one quad, or triangles for an unknown type, after the optional v2/v3 swap) and leaves the vertices alone |
| MeshStrategy.BuildSurfaceMesh | src/MeshStrategy.cpp:3-48 | fails iff fewer than two counts or support rows and then changes nothing; otherwise appends the grid points i-major and the faces of the n0 x n1 cells; keeps the mesh well formed |
| MeshStrategy.AddGridVertices | src/MeshStrategy.cpp:11-20 | the vertex loop appends the points of the grid keys in order and builds the map sending the p-th key to base + p |
| MeshStrategy.AddGridRow | src/MeshStrategy.cpp:12-19 | the inner vertex loop extends the visiting order by row i and keeps map and vertices in step with it |
| MeshStrategy.AddGridPoint | src/MeshStrategy.cpp:13-18 | one step appends the point's vertex and maps its key to the new handle |
| MeshStrategy.EmitGridFaces | src/MeshStrategy.cpp:22-46 | the face loop appends the faces of all cells, row by row, looked up in the vertex map |
| MeshStrategy.EmitGridRow | src/MeshStrategy.cpp:23-45 | the inner face loop appends the faces of cells (i, 0) .. (i, n1 - 1) |
| MeshStrategy.BuildVolumeSurfaceMesh | src/MeshStrategy.cpp:50-146 | fails iff fewer than three counts or support rows and then changes nothing; otherwise appends the boundary points in (i, j, k) order and the faces of sides 0 .. 5; keeps the mesh well formed when n0 == n1 <= n2 |
| MeshStrategy.AddBoundaryVertices | src/MeshStrategy.cpp:58-74 | the vertex loop appends a vertex exactly for the boundary grid points, in (i, j, k) order, and maps each to its handle |
| MeshStrategy.AddShellSlab | src/MeshStrategy.cpp:59-73 | the middle vertex loop extends the visiting order by slab i |
| MeshStrategy.AddShellColumn | src/MeshStrategy.cpp:60-72 | the inner vertex loop extends the visiting order by the boundary points of column (i, j) |
| MeshStrategy.AddShellPoint | src/MeshStrategy.cpp:65-70 | one step appends the point's vertex and maps its key to the new handle |
| MeshStrategy.EmitShell | src/MeshStrategy.cpp:76-144 | the face loop appends the faces of sides 0 .. 5 in turn |
| MeshStrategy.EmitSide | src/MeshStrategy.cpp:77-143 | the face loop of one side appends the faces of its n0 x n1 cells, row by row |
| MeshStrategy.EmitSideRow | src/MeshStrategy.cpp:78-142 | the inner face loop of one side appends the faces of cells (i, 0) .. (i, n1 - 1) with that side's corner keys |
| MeshStrategy.BuildMesh | src/MeshStrategy.h:30 | dispatches to the surface or the volume sampler by kind, with their failure conditions and results |
| MeshStrategy.BuildMeshUniform | src/MeshStrategy.h:31-36 | the one-count overload behaves as the sampler given counts [n, n, n] |
| MeshStrategy.BuildMeshUnitCube | src/MeshStrategy.h:37-42 | the support-less overload succeeds and behaves as the sampler over the unit cube with counts [n, n, n] |
| MeshStrategy.SurfaceFacesWithin | src/MeshStrategy.cpp:22-27 | every face handle of the surface sampler names one of the vertices it added, for any counts |
| MeshStrategy.SurfaceVertexLayout | src/MeshStrategy.cpp:11-20 | the surface sampler adds (n0+1)(n1+1) vertices and grid point (a, b) gets handle base + a(n1+1) + b and that point's position |
| MeshStrategy.SurfaceFaceCount | src/MeshStrategy.cpp:22-44 | the surface sampler emits n0 n1 quads or 2 n0 n1 triangles |
| MeshStrategy.SurfaceFaceAt | src/MeshStrategy.cpp:22-44 | face q of cell (i, j) sits at position (i n1 + j) w + q and is built from handles (i,j), (i+1,j), (i,j+1), (i+1,j+1) |
| MeshStrategy.SurfaceInvertReverses | src/MeshStrategy.cpp:28-30 | with INVERT_NORMAL every surface face keeps its position and corners and has the opposite winding |
| MeshStrategy.SurfaceUnknownTypeIsTriangles | src/MeshStrategy.cpp:39-43 | an unrecognised mesh type emits exactly the faces of TRIANGLE_MESH |
| MeshStrategy.SurfaceUnitSquare | src/MeshStrategy.cpp:11-44 | the unit square with n = 1 yields the four corner points i-major and faces [0,2,1], [2,3,1] or the quad [0,2,3,1] |
| MeshStrategy.VolumeVertexCount | src/MeshStrategy.cpp:58-74 | with all counts at least 1 the volume sampler adds (n0+1)(n1+1)(n2+1) - (n0-1)(n1-1)(n2-1) vertices |
| MeshStrategy.VolumeVertexKeys | src/MeshStrategy.cpp:61-70 | a grid key gets a vertex iff it lies in the box with some coordinate at 0 or at its count, and its handle is one the sampler added |
| MeshStrategy.VolumeFaceCount | src/MeshStrategy.cpp:76-144 | the volume sampler emits 6 n0 n1 quads or 12 n0 n1 triangles |
| MeshStrategy.VolumeFaceAt | src/MeshStrategy.cpp:76-144 | face q of cell (i, j) of side t sits at t P + (i n1 + j) w + q, so sides come out as contiguous blocks in order 0 .. 5 |
| MeshStrategy.VolumeSideBlock | src/MeshStrategy.cpp:76-144 | faces t P .. (t+1) P - 1 of the volume faces are exactly the faces of side t |
| MeshStrategy.VolumeInvertReverses | src/MeshStrategy.cpp:125-127 | with INVERT_NORMAL every volume face keeps its position and corners and has the opposite winding |
| MeshStrategy.VolumeFacesWithinIff | src/MeshStrategy.cpp:76-123 | every corner lookup of the six sides hits a created vertex iff n0 == n1 <= n2 |
| MeshStrategy.VolumeFacesWithin | src/MeshStrategy.cpp:76-123 | with n0 == n1 <= n2 all volume face handles name vertices the sampler added |
| MeshStrategy.SideKeysOnShell | src/MeshStrategy.cpp:80-123 | with n0 == n1 <= n2 the four corner keys of every cell of every side are boundary grid points |
| MeshStrategy.VolumeMissingCorner | src/MeshStrategy.cpp:76-123 | otherwise some face holds a handle outside the added vertices (the null handle of a missing key) |
| MeshStrategy.FirstFaceHasMiddleCorners | src/MeshStrategy.cpp:28-43 | the first face of every cell contains v2 and v3 in every convention |
| Grid.IndexMapAppend | src/MeshStrategy.cpp:17-18 | recording one more key maps exactly that key to the next handle |
| Grid.IndexMapDomain | src/MeshStrategy.cpp:17-18 | the keys of the vertex map are exactly the visited keys |
| Grid.IndexMapAt | src/SplineProcess.cpp:57-58 | with distinct keys, the p-th visited key is mapped to base + p |
| Grid.IndexMapRange | src/SplineProcess.cpp:57-58 | every recorded handle lies in base .. base + count - 1 |
| Grid.Lookup | src/MeshStrategy.cpp:24-27 | `operator[]` yields the recorded handle, or the null handle for a key never created |
| Grid.GridKeysFacts | src/MeshStrategy.cpp:11-12 | the surface visiting order holds each grid point exactly once, iEnd (n1+1) of them |
| Grid.GridKeyAt | src/SplineProcess.cpp:199-205 | grid point (a, b) is visited at position a (n1+1) + b |
| Grid.GridHandle | src/SplineProcess.cpp:199-205 | grid point (a, b) gets index base + a (n1+1) + b |
| Grid.ShellKeysExactlyBoundary | src/SplineProcess.cpp:48-62 | the volume visiting order holds each boundary grid point exactly once and nothing else |
| Grid.ShellKeysCount | src/SplineProcess.cpp:40-42 | the number of boundary points is (n0+1)(n1+1)(n2+1) - (n0-1)(n1-1)(n2-1) |
| Grid.BlockCount | src/SplineProcess.cpp:48-62 | after iEnd slabs the loop has visited (boundary slabs) (n1+1)(n2+1) + (other slabs)(2 n1 + 2 n2) points |
| Cells.CellFaces | src/MeshStrategy.cpp:31-44 | a cell yields as many faces as its convention says, each with 4 corners for a quad and 3 for a triangle |
| Cells.CellInvertReverses | src/SplineProcess.cpp:122-133 | the invert swap keeps a cell's faces, their order and corners, and reverses each face's winding |
| Cells.QuadSwapReverses | src/MeshStrategy.cpp:37 | swapping v2 and v3 in the quad (v1, v2, v4, v3) reverses its winding |
| Cells.TriangleSwapReverses | src/MeshStrategy.cpp:33 | swapping two corners of a triangle reverses its winding |
| Cells.SideCornersOnFixedPlane | src/SplineProcess.cpp:83-120 | the corner keys of side t keep axis 0, 1, 2 at 0 for sides 0, 1, 2 and axis 2, 1, 0 at its count for sides 3, 4, 5 |
| Cells.PatchFacesLength | src/MeshStrategy.cpp:22-23 | a patch of iEnd rows of n1 cells has iEnd n1 w faces |
| Cells.ShellFacesLength | src/MeshStrategy.cpp:76-78 | the first tEnd sides hold tEnd P faces |
| Cells.PatchFaceAt | src/MeshStrategy.cpp:22-44 | face q of cell (i, j) is face (i n1 + j) w + q of the patch |
| Cells.ShellFacesBlock | src/SplineProcess.cpp:77-136 | faces t P .. (t+1) P - 1 of the shell are the faces of side t |
| Cells.PatchFacesWithin | src/MeshStrategy.cpp:22-44 | when every cell's corners lie in a handle range, so do all face handles of the patch |
| Cells.PatchInvertReverses | src/MeshStrategy.cpp:28-30 | inverting keeps the number, order and corners of a patch's faces and reverses each winding |
| Cells.ShellInvertReverses | src/SplineProcess.cpp:122-124 | the same for all sides of a shell |
| Cells.PatchSameCells | src/MeshStrategy.cpp:39-43 | conventions that agree on every cell agree on every patch |
| Cells.PatchFacesSize | src/MeshStrategy.cpp:31-44 | every face of a patch has the corner count of its convention, 4 for quads and 3 for triangles |
| Cells.ReverseMultiset | src/MeshStrategy.cpp:28-30 | reversing a face's winding keeps its set of corners with multiplicity |
| Cells.ShellFacesSize | src/SplineProcess.cpp:129-133 | every shell face has the corner count of its convention |
| SplineProcess.ProcessFor | src/main.cpp:48-55 | a trivariate spline gets volume processing, a bivariate one surface processing, any other none |
| SplineProcess.InsertEntry | src/SplineProcess.cpp:127 | `std::map::insert` adds the key with its value only when absent and keeps every existing entry |
| SplineProcess.FaceSideMap.Insert | src/SplineProcess.cpp:126-132 | an insert changes the map as `std::map::insert` does |
| SplineProcess.FaceSideMap.Get | src/SplineProcess.cpp:178 | `operator[]` returns the recorded side, or inserts and returns 0 |
| SplineProcess.InsertRunFacts | src/SplineProcess.cpp:126-132 | inserting a run of keys adds exactly those keys with the run's value and keeps old entries |
| SplineProcess.SideEntriesFacts | src/SplineProcess.cpp:126-132 | after sides 0 .. tEnd - 1, old entries are kept and every other face f below tEnd P maps to the t with t P <= f < (t+1) P |
| SplineProcess.VolumeBuildSurfaceToMatrix | src/SplineProcess.cpp:36-148 | V is the spline at the boundary parameters in (i, j, k) order, F the shell's triangles, and the side map gains exactly the side entries |
| SplineProcess.CopyRows | src/SplineProcess.cpp:68-73 | copying the evaluated columns into V gives exactly those values |
| SplineProcess.ShellParams | src/SplineProcess.cpp:48-62 | the vertex loop yields the boundary parameters and the map sending the p-th boundary point to p |
| SplineProcess.ParamSlab | src/SplineProcess.cpp:49-61 | the middle loop extends parameters, map and index by slab i |
| SplineProcess.ParamColumn | src/SplineProcess.cpp:50-60 | the inner loop extends them by the boundary points of column (i, j) |
| SplineProcess.AddParam | src/SplineProcess.cpp:54-58 | one boundary point adds its parameter column and records `index++` under its key |
| SplineProcess.BuildShell | src/SplineProcess.cpp:76-136 | the face loop yields the faces of sides 0 .. 5 and inserts every face index with its side |
| SplineProcess.BuildSide | src/SplineProcess.cpp:80-135 | the loop of side t appends its faces and inserts each new face index with side t |
| SplineProcess.BuildSideRow | src/SplineProcess.cpp:81-134 | the inner loop appends row i of side t and inserts each new face index with side t |
| SplineProcess.EmitTrianglePair | src/SplineProcess.cpp:122-133 | one cell appends (a0, a3, a2), (a0, a1, a3) after the optional a0/a3 swap, and inserts both face indices with side t |
| SplineProcess.ShellCornersIndexed | src/SplineProcess.cpp:83-120 | every corner key the side loops look up got an index in the vertex loop |
| SplineProcess.SurfaceBuildSurfaceToMatrix | src/SplineProcess.cpp:188-247 | V is the spline at the grid parameters i-major and F the grid's triangles; the side map is not touched |
| SplineProcess.GridParams | src/SplineProcess.cpp:199-206 | the vertex loop yields the grid parameters and maps (i, j) to i (n+1) + j |
| SplineProcess.GridParamRow | src/SplineProcess.cpp:200-205 | the inner loop extends parameters, map and index by row i |
| SplineProcess.BuildGridFaces | src/SplineProcess.cpp:222-235 | the face loop yields the two triangles of every cell, row by row |
| SplineProcess.BuildGridRow | src/SplineProcess.cpp:223-234 | the inner loop appends the triangles of cells (i, 0) .. (i, n - 1) |
| SplineProcess.SurfaceGridIndexed | src/SplineProcess.cpp:224-227 | every grid point the face loop looks up got an index |
| SplineProcess.VolumePointCount | src/SplineProcess.cpp:40-42 | the boundary point count equals pointSumNum = p^3 - (p-2)^3, so the index ends at pointSumNum |
| SplineProcess.VolumeFaceCount | src/SplineProcess.cpp:67 | the volume tessellator emits faceNum = 12 n^2 triangles, so for the counts the model accepts the size check never fires |
| SplineProcess.SurfaceMatrixCounts | src/SplineProcess.cpp:193 | the surface tessellator has pointSumNum = (n+1)^2 points and faceNum = 2 n^2 triangles |
| SplineProcess.VolumeMatrixFacesValid | src/SplineProcess.cpp:142-146 | every row of the volume F is a triangle whose vertex numbers are rows of V |
| SplineProcess.SurfaceMatrixFacesValid | src/SplineProcess.cpp:242-246 | every row of the surface F is a triangle whose vertex numbers are rows of V |
| SplineProcess.SurfaceMatrixLayout | src/SplineProcess.cpp:199-216 | row a (n+1) + b of the surface V is the spline's value at grid point (a, b) |
| SplineProcess.MatrixInvertReverses | src/SplineProcess.cpp:122-124 | invertNormal keeps the number, order and corners of both tessellators' faces and reverses each winding |
| SplineProcess.SameSide | src/SplineProcess.cpp:126-132 | a face index lies in the range of only one side |
| SplineProcess.SideEntriesBySide | src/SplineProcess.cpp:126-132 | from an empty map, the keys are exactly the faces below tEnd P and face k of side t maps to t |
| SplineProcess.VolumeSideMap | src/SplineProcess.cpp:126-132 | the volume writer's side map has exactly the 12 n^2 face indices, and face k of side t maps to t |
| SplineProcess.ColorSlot | src/SplineProcess.cpp:178 | the palette slot is in range, is side mod size for a non-negative side, and is the side itself below the size |
| SplineProcess.SideColorSuffixes | src/SplineProcess.cpp:177-180 | one suffix per face line |
| SplineProcess.UniformSuffixes | src/SplineProcess.cpp:267-269 | one suffix per face line |
| SplineProcess.VolumeBuildSurfaceToFileOff | src/SplineProcess.cpp:150-186 | when the file can be opened it then holds the volume OFF document; otherwise no file changes |
| SplineProcess.VolumeMatrixWithSides | src/SplineProcess.cpp:163-166 | tessellates into a fresh side map, which ends up holding exactly the side entries |
| SplineProcess.WriteVolumeOff | src/SplineProcess.cpp:169-182 | the writer streams `OFF`, the counts line, the vertex lines and the face lines with side colours |
| SplineProcess.WriteSideColoredFaces | src/SplineProcess.cpp:175-182 | the face loop writes `3 a b c` per face with the colour of its side when colour is on; its `operator[]` fills in missing faces |
| SplineProcess.SurfaceBuildSurfaceToFileOff | src/SplineProcess.cpp:248-275 | when the file can be opened it then holds the surface OFF document; otherwise no file changes |
| SplineProcess.WriteUniformColoredFaces | src/SplineProcess.cpp:265-271 | the face loop writes `3 a b c` per face, with red appended when colour is on |
| SplineProcess.VolumeOffRoundTrip | src/SplineProcess.cpp:168-182 | reading the volume OFF document back gives V, F and each face's colour suffix |
| SplineProcess.VolumeOffCounts | src/SplineProcess.cpp:170 | its counts line is p^3 - (p-2)^3, 12 n^2 and 0 |
| SplineProcess.VolumeOffColorsBySide | src/SplineProcess.cpp:155-162 | with colour, face k of side t carries palette colour t (red, green, blue, yellow, magenta, cyan); without, none |
| SplineProcess.SurfaceOffRoundTrip | src/SplineProcess.cpp:258-271 | reading the surface OFF document back gives V, F, and red on every face exactly when colour is on |
| SplineProcess.SurfaceOffCounts | src/SplineProcess.cpp:260 | its counts line is (n+1)^2, 2 n^2 and 0 |
| Text.SixColorsShape | src/MeshExporter.h:16-23 | the default palette has six distinct colours whose components are all 0 or 255 |
| Text.FileSystem.Open | src/MeshExporter.cpp:69-73 | opening succeeds iff the path is writable, and then truncates the file |
| Text.FileSystem.Close | src/MeshExporter.cpp:94 | closing stores the written lines at the path |
| Text.WriteVertexLines | src/MeshExporter.cpp:77-79 | the vertex loop writes one line of three coordinates per vertex, in mesh order |
| Text.OffRoundTrip | src/MeshExporter.cpp:74-92 | reading an OFF document back gives its vertices, faces in order and winding, and per-face suffixes |
| Exporters.MaxSide | src/MeshExporter.cpp:156-159 | the largest side of a non-empty map is one of its values and bounds all of them |
| Exporters.ColorCount | src/MeshExporter.cpp:156-159 | colorNum is the largest side plus one |
| Exporters.Bucket | src/MeshExporter.cpp:163-166 | a bucket holds only ids of faces of that side |
| Exporters.BucketCount | src/MeshExporter.cpp:163-166 | face x occurs in bucket c once if its side is c and never otherwise |
| Exporters.BucketComplete | src/MeshExporter.cpp:163-166 | every face of the side is in its bucket |
| Exporters.BucketAscending | src/MeshExporter.cpp:163-166 | a bucket lists its faces in increasing id, the original face order |
| Exporters.GroupedIdsOrder | src/MeshExporter.cpp:168-179 | the grouped face order sorts by side and, within a side, by original position |
| Exporters.GroupedIdsCount | src/MeshExporter.cpp:163-179 | a face appears once in the groups below k iff its side is below k, otherwise never |
| Exporters.GroupedIdsPermutation | src/MeshExporter.cpp:163-179 | when every side is below colorNum the groups are a permutation of all face ids |
| Exporters.CollectBuckets | src/MeshExporter.cpp:162-166 | the bucket loop yields colorNum buckets, bucket c holding the faces of side c in order |
| Exporters.HandleLine | src/MeshExporter.cpp:113-117 | a face line is its lead word and the handles shifted by the offset, in stored order |
| Exporters.WriteObjFaces | src/MeshExporter.cpp:112-118 | the OBJ face loop writes an `f` line per face with 1-based handles |
| Exporters.WriteFacesOf | src/MeshExporter.cpp:170-177 | writes the `f` lines of the given face ids in order |
| Exporters.WriteGroup | src/MeshExporter.cpp:169-178 | a group is `usemtl material_c`, its face lines and an empty line |
| Exporters.GroupsOfBuckets | src/MeshExporter.cpp:168-179 | the groups written from the buckets are the groups of faces by side |
| Exporters.WriteGroups | src/MeshExporter.cpp:168-179 | the group loop writes group c from bucket c for every c below colorNum |
| Exporters.MeshExporter.constructor | src/MeshExporter.h:25-26 | a new exporter keeps its format and flags (none by default) and starts with the six-colour palette |
| Exporters.MeshExporter.SetColors | src/MeshExporter.h:28-30 | the palette is replaced by the argument; the flags are constant |
| Exporters.MeshExporter.ExportMesh | src/MeshExporter.h:31-34 | exports in the exporter's format, with each format's success condition and document |
| Exporters.MeshExporter.WriteColoredFaces | src/MeshExporter.cpp:80-92 | the face loop writes counted face lines with the palette colour of each face's side when WITH_COLOR is set |
| Exporters.MeshExporter.ExportOff | src/MeshExporter.cpp:64-96 | succeeds iff the file opens, and then the file holds the OFF document; otherwise nothing changes |
| Exporters.MeshExporter.ExportObj | src/MeshExporter.cpp:203-213 | dispatches on WITH_COLOR to the coloured or the plain OBJ export |
| Exporters.MeshExporter.ExportMeshOnly | src/MeshExporter.cpp:98-121 | succeeds iff the file opens, and then the file holds `v` lines and 1-based `f` lines |
| Exporters.MeshExporter.ExportMeshWithColor | src/MeshExporter.cpp:123-201 | fails with nothing changed if the OBJ file does not open, fails leaving it empty if the MTL file does not open, and otherwise writes both documents |
| Exporters.MeshExporter.WriteObjColor | src/MeshExporter.cpp:138-196 | the coloured export's text is the header, vertices, faces grouped by side, and colorNum material blocks |
| Exporters.MeshExporter.WriteMaterials | src/MeshExporter.cpp:181-196 | the material loop writes the header and one block per material 0 .. colorNum - 1 |
| Exporters.MeshExporter.ExportPly | src/MeshExporter.cpp:215-265 | succeeds iff the file opens, and then the file holds the PLY document; otherwise nothing changes |
| Exporters.OffExportRoundTrip | src/MeshExporter.cpp:74-92 | reading the OFF export back gives the vertices, the faces in order with 0-based handles, and `_colors[side]` on each face exactly when colour is on |
| Exporters.PlyExportRoundTrip | src/MeshExporter.cpp:226-262 | reading the PLY export back gives the vertices, faces and per-face colour of the face's side exactly when colour is on |
| Exporters.PlyRoundTrip | src/MeshExporter.cpp:226-262 | any document laid out as the PLY writer lays it out reads back as its parts |
| Exporters.PlyHeaderLayout | src/MeshExporter.cpp:226-241 | the header is `ply`, `format ascii 1.0`, the vertex element with x, y, z, the face element with its index list, the colour properties iff colour is on, and `end_header` |
| Exporters.MtlLayout | src/MeshExporter.cpp:181-196 | the material file has five header lines and exactly colorNum eight-line blocks, block i from palette entry i |
| Exporters.MtlMaterialLines | src/MeshExporter.cpp:187-191 | block i names material_i and has diffuse colour `_colors[i] / 255` |
| Exporters.ReadObjAppend | src/MeshExporter.cpp:108-118 | reading an OBJ text in two parts reads the whole |
| Exporters.ReadVerts | src/MeshExporter.cpp:108-110 | reading the vertex lines appends the vertices |
| Exporters.ReadFaceLine | src/MeshExporter.cpp:113-117 | reading an `f` line gives back the 0-based face under the current material |
| Exporters.ReadGroups | src/MeshExporter.cpp:168-179 | reading the groups collects the faces in grouped order, each under its group's material |
| Exporters.ObjMeshOnlyRoundTrip | src/MeshExporter.cpp:98-121 | reading the plain OBJ export back gives the vertices and the faces in order, none under a material |
| Exporters.ObjColorRoundTrip | src/MeshExporter.cpp:138-179 | reading the coloured OBJ export back gives the vertices and the faces grouped by side, each under the material of its own side |
| Exporters.ReadObjPreamble | src/MeshExporter.cpp:138-153 | the comment header, `mtllib` line, vertex lines and blank lines read back as the vertices alone |

## Left out

- Loading and saving splines, and `main.cpp` beyond its flag composition and dimension dispatch: file I/O through a foreign library, and command-line parsing.
- The Assimp exporter (`src/MeshExporter.cpp:4-62`): a wrapper over a library that is not part of this model.
- Spline evaluation (`eval_into`): an uninterpreted function field of `Spline`.
- Double arithmetic in the sample positions: `Lerp` uses exact reals, so rounding is not modelled.
- MeshStrategy.Lerp: with a sample count of 0 the source divides 0 by 0.0 and the position or parameter is NaN. The model places that sample at the lower end of the axis; NaN is not modelled. This affects the samplers with a zero count and `SurfaceBuildSurfaceToMatrix` with numSample = 0.
- Digits of numbers in the text: a number token keeps its real value and stream format (`fixed` or general, precision), but the digits are not produced. `LONG_DOUBLE_DIGITS10` is 18, the x87 value; other platforms differ.
- Debug and error messages (`gsInfo`, `std::cout`, `std::cerr`).
- The size mismatch diagnostic of `BuildSurfacetoMatrix`: it is modelled only through `VolumeFaceCount` and `SurfaceMatrixCounts`, which show that it never fires for the counts the model accepts.
- The `format` argument of `ExportMesh`: every exporter ignores it.
- Face handles are face positions. The mesh's face and vertex ids are taken to be their positions in the lists, as they are for a mesh the samplers built from empty.
- Integer overflow: counts and indices are unbounded integers; `int` overflow for very large sample counts is not modelled.
- Exporters.MeshExporter.ExportOff: requires, when WITH_COLOR is set, that every face has a side below the palette length. The source throws from `at` for a missing face and indexes out of bounds for a too-large side; neither error path is modelled.
- Exporters.MeshExporter.ExportPly: the same requirement as the OFF export, for the same reason.
- Exporters.MeshExporter.ExportMeshWithColor: requires a non-empty face-to-side map, a side for every face that is non-negative, and sides below the palette length. The source dereferences `end()` of an empty map and indexes out of range otherwise, which is undefined behaviour.
- Exporters.MeshExporter.ExportMesh: requires what the export for its format requires.
- SplineProcess.VolumeBuildSurfaceToMatrix: requires numSample >= 1. With 0 the allocated point count (2) exceeds the number of boundary points (1), and V would hold an unset column. For a negative count the source allocates p^3 - (p-2)^3 parameter columns and 12 n^2 rows of F (8 and 12 for n = -1) that stay unset, and the size diagnostic reports the mismatch.
- SplineProcess.SurfaceBuildSurfaceToMatrix: requires numSample >= 0. For a negative count the source still allocates (n+1)^2 parameter columns and 2 n^2 rows of F, but builds fewer (none for n = -1). Those stay unset, and the size diagnostic reports the mismatch.
- SplineProcess.VolumeBuildSurfaceToFileOff: inherits numSample >= 1. The source does not check that the stream opened; the model writes nothing when the path cannot be opened, which is what a failed `fstream` does.
- MeshStrategy.BuildVolumeSurfaceMesh: well-formedness of the result is promised only when n0 == n1 <= n2. For other counts some lookups miss, and a null `VertexHandle` is passed to `addFace` (`MeshStrategy.VolumeMissingCorner`). The model records it as `NULL_HANDLE` in the face; what the mesh library does with a null handle beyond that point is not modelled.
- `operator[]` on the sampler's vertex map also inserts the null handle for a missing key. The model's `Lookup` returns the null handle without changing the map, and no later lookup can tell the difference.
