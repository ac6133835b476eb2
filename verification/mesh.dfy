/**
 * The mesh the samplers fill and the exporters read: a list of vertex
 * positions and a list of faces, each face listing vertex handles in winding
 * order.  A vertex handle is the vertex's position in the list, so the i-th
 * vertex added has handle i.
 */
module Meshes {

  /** A vertex position in 3-D space. */
  datatype Point = Point(x: real, y: real, z: real)

  class Mesh {
    var verts: seq<Point>
    var faces: seq<seq<int>>

    /** Every handle of every face names a vertex of the mesh. */
    predicate WellFormed()
      reads this
    {
      forall p, h :: 0 <= p < |faces| && h in faces[p] ==> 0 <= h < |verts|
    }

    /** An empty mesh. */
    constructor ()
      ensures verts == [] && faces == []
      ensures WellFormed()
    {
      verts := [];
      faces := [];
    }

    /** Appends a vertex and returns its handle, the number of vertices before the call. */
    method AddVertex(p: Point) returns (h: int)
      modifies this
      ensures verts == old(verts) + [p] && faces == old(faces)
      ensures h == |old(verts)| && verts[h] == p
      ensures old(WellFormed()) ==> WellFormed()
    {
      h := |verts|;
      verts := verts + [p];
    }

    /** Appends a face with the given corner handles, in winding order. */
    method AddFace(f: seq<int>)
      modifies this
      ensures faces == old(faces) + [f] && verts == old(verts)
      ensures old(WellFormed()) && (forall h :: h in f ==> 0 <= h < |verts|) ==> WellFormed()
    {
      faces := faces + [f];
    }
  }
}
