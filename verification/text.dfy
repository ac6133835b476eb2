/**
 * The text the writers produce and the files they produce it into.
 *
 * A written file is a sequence of lines, and a line a sequence of tokens that
 * the stream separates by single spaces.  A number token keeps its value
 * together with the stream's formatting state (fixed or general notation and
 * the precision); how a double is turned into digits is not modelled.
 */
module Text {
  import opened Wrappers
  import opened Meshes

  /** The stream's floating-point format: `std::fixed` with a precision, or the
      default (general) notation with a precision. */
  datatype NumStyle = Fixed(digits: nat) | General(digits: nat)

  datatype Token =
    | Word(w: string)
    | Int(i: int)
    | Num(r: real, style: NumStyle)
    /** A name with a number glued to it, such as material_3. */
    | Numbered(prefix: string, n: int)

  type Line = seq<Token>

  /** `std::numeric_limits<long double>::digits10` for the x87 80-bit long double. */
  const LONG_DOUBLE_DIGITS10: nat := 18

  /** An RGB colour with integer components. */
  type Color = (int, int, int)

  /** Red, green, blue, yellow, magenta, cyan: the palette of the exporters and
      of the volume OFF writer. */
  const SIX_COLORS: seq<Color> := [(255, 0, 0), (0, 255, 0), (0, 0, 255), (255, 255, 0), (255, 0, 255), (0, 255, 255)]

  lemma SixColorsShape()
    ensures |SIX_COLORS| == 6
    ensures forall p :: 0 <= p < |SIX_COLORS| ==>
      SIX_COLORS[p].0 in {0, 255} && SIX_COLORS[p].1 in {0, 255} && SIX_COLORS[p].2 in {0, 255}
    ensures forall p, q :: 0 <= p < q < |SIX_COLORS| ==> SIX_COLORS[p] != SIX_COLORS[q]
  {
  }

  // ---------------------------------------------------------------------
  // Files
  // ---------------------------------------------------------------------

  /** The files the writers can reach.  Opening a path outside `writable`
      fails; opening one inside truncates it.  A stream's lines reach the file
      when it is closed. */
  class FileSystem {
    var files: map<string, seq<Line>>
    const writable: set<string>

    constructor (writable: set<string>)
      ensures this.writable == writable && files == map[]
    {
      this.writable := writable;
      files := map[];
    }

    /** Opening an output stream on `path`. */
    method Open(path: string) returns (ok: bool)
      modifies this
      ensures ok <==> path in writable
      ensures files == if ok then old(files)[path := []] else old(files)
    {
      ok := path in writable;
      if ok {
        files := files[path := []];
      }
    }

    /** Closing the stream opened on `path` after writing `lines` to it. */
    method Close(path: string, lines: seq<Line>)
      modifies this
      ensures files == old(files)[path := lines]
    {
      files := files[path := lines];
    }
  }

  /** Opening a stream and closing it with `lines` leaves exactly `lines` at `path`. */
  lemma Rewrite(files: map<string, seq<Line>>, path: string, lines: seq<Line>)
    ensures files[path := []][path := lines] == files[path := lines]
  {
  }

  // ---------------------------------------------------------------------
  // Lines shared by the writers
  // ---------------------------------------------------------------------

  /** x y z of a vertex. */
  function PointTokens(p: Point, style: NumStyle): Line
  {
    [Num(p.x, style), Num(p.y, style), Num(p.z, style)]
  }

  /** The handles of a face, each shifted by `offset` (1 for one-based formats). */
  function HandleTokens(f: seq<int>, offset: int): Line
  {
    seq(|f|, k requires 0 <= k < |f| => Int(f[k] + offset))
  }

  function ColorTokens(c: Color): Line
  {
    [Int(c.0), Int(c.1), Int(c.2)]
  }

  /** One line per vertex: `lead` followed by x y z. */
  function VertexLines(verts: seq<Point>, lead: Line, style: NumStyle): seq<Line>
  {
    seq(|verts|, p requires 0 <= p < |verts| => lead + PointTokens(verts[p], style))
  }

  /** A face line of the OFF and PLY bodies: the corner count, the zero-based
      handles in winding order, then the face's suffix (its colour, or nothing). */
  function CountedFaceLine(f: seq<int>, suffix: Line): Line
  {
    [Int(|f|)] + HandleTokens(f, 0) + suffix
  }

  function CountedFaceLines(faces: seq<seq<int>>, suffixes: seq<Line>): seq<Line>
    requires |suffixes| == |faces|
  {
    seq(|faces|, p requires 0 <= p < |faces| => CountedFaceLine(faces[p], suffixes[p]))
  }

  /** An OFF document: the magic word, the counts line, the vertex lines and the face lines. */
  function OffDocument(verts: seq<Point>, faces: seq<seq<int>>, suffixes: seq<Line>, style: NumStyle): seq<Line>
    requires |suffixes| == |faces|
  {
    [[Word("OFF")], [Int(|verts|), Int(|faces|), Int(0)]] + VertexLines(verts, [], style) + CountedFaceLines(faces, suffixes)
  }

  /** The stream loop writing one line per vertex. */
  method WriteVertexLines(out: seq<Line>, verts: seq<Point>, lead: Line, style: NumStyle) returns (out': seq<Line>)
    ensures out' == out + VertexLines(verts, lead, style)
  {
    out' := out;
    var p := 0;
    while p < |verts|
      invariant 0 <= p <= |verts|
      invariant out' == out + VertexLines(verts[..p], lead, style)
    {
      out' := out' + [lead + PointTokens(verts[p], style)];
      assert VertexLines(verts[..p + 1], lead, style) == VertexLines(verts[..p], lead, style) + [lead + PointTokens(verts[p], style)];
      p := p + 1;
    }
    assert verts[..p] == verts;
  }

  // ---------------------------------------------------------------------
  // Reading the lines back
  // ---------------------------------------------------------------------

  /** A vertex line: `lead` followed by three numbers. */
  function DecodePoint(l: Line, lead: Line): Option<Point>
  {
    if |l| == |lead| + 3 && l[..|lead|] == lead && l[|lead|].Num? && l[|lead| + 1].Num? && l[|lead| + 2].Num?
    then Some(Point(l[|lead|].r, l[|lead| + 1].r, l[|lead| + 2].r))
    else None
  }

  function DecodePoints(ls: seq<Line>, lead: Line): Option<seq<Point>>
  {
    if forall p :: 0 <= p < |ls| ==> DecodePoint(ls[p], lead).Some?
    then Some(seq(|ls|, p requires 0 <= p < |ls| && DecodePoint(ls[p], lead).Some? => DecodePoint(ls[p], lead).value))
    else None
  }

  /** Integer tokens read as handles shifted back by `offset`. */
  function DecodeHandles(ts: Line, offset: int): Option<seq<int>>
  {
    if forall k :: 0 <= k < |ts| ==> ts[k].Int?
    then Some(seq(|ts|, k requires 0 <= k < |ts| && ts[k].Int? => ts[k].i - offset))
    else None
  }

  /** A counted face line: its handles and what follows them. */
  function DecodeCountedFace(l: Line): Option<(seq<int>, Line)>
  {
    if |l| >= 1 && l[0].Int? && 0 <= l[0].i < |l| && DecodeHandles(l[1..1 + l[0].i], 0).Some?
    then Some((DecodeHandles(l[1..1 + l[0].i], 0).value, l[1 + l[0].i..]))
    else None
  }

  function DecodeCountedFaces(ls: seq<Line>): Option<(seq<seq<int>>, seq<Line>)>
  {
    if forall p :: 0 <= p < |ls| ==> DecodeCountedFace(ls[p]).Some?
    then Some((seq(|ls|, p requires 0 <= p < |ls| && DecodeCountedFace(ls[p]).Some? => DecodeCountedFace(ls[p]).value.0),
               seq(|ls|, p requires 0 <= p < |ls| && DecodeCountedFace(ls[p]).Some? => DecodeCountedFace(ls[p]).value.1)))
    else None
  }

  /** What an OFF document holds. */
  datatype OffContent = OffContent(verts: seq<Point>, faces: seq<seq<int>>, suffixes: seq<Line>)

  /** Reads an OFF document whose counts line agrees with its length. */
  function DecodeOff(doc: seq<Line>): Option<OffContent>
  {
    if |doc| >= 2 && doc[0] == [Word("OFF")] && |doc[1]| == 3 && doc[1][0].Int? && doc[1][1].Int? && doc[1][2] == Int(0)
       && 0 <= doc[1][0].i && 0 <= doc[1][1].i && |doc| == 2 + doc[1][0].i + doc[1][1].i
    then
      var nv := doc[1][0].i;
      match (DecodePoints(doc[2..2 + nv], []), DecodeCountedFaces(doc[2 + nv..]))
      case (Some(vs), Some((fs, sfx))) => Some(OffContent(vs, fs, sfx))
      case _ => None
    else None
  }

  lemma HandlesRoundTrip(f: seq<int>, offset: int)
    ensures DecodeHandles(HandleTokens(f, offset), offset) == Some(f)
  {
    var ts := HandleTokens(f, offset);
    assert forall k :: 0 <= k < |ts| ==> ts[k].Int?;
    var d := DecodeHandles(ts, offset).value;
    assert |d| == |f| && forall k :: 0 <= k < |f| ==> d[k] == f[k];
    assert d == f;
    assert DecodeHandles(ts, offset).Some?;
  }

  lemma PointsRoundTrip(verts: seq<Point>, lead: Line, style: NumStyle)
    ensures DecodePoints(VertexLines(verts, lead, style), lead) == Some(verts)
  {
    var ls := VertexLines(verts, lead, style);
    forall p | 0 <= p < |ls|
      ensures DecodePoint(ls[p], lead) == Some(verts[p])
    {
      assert ls[p][..|lead|] == lead;
    }
    var d := DecodePoints(ls, lead).value;
    assert |d| == |verts| && forall p :: 0 <= p < |verts| ==> d[p] == verts[p];
    assert d == verts;
    assert DecodePoints(ls, lead).Some?;
  }

  lemma CountedFaceRoundTrip(f: seq<int>, suffix: Line)
    ensures DecodeCountedFace(CountedFaceLine(f, suffix)) == Some((f, suffix))
  {
    var l := CountedFaceLine(f, suffix);
    assert l[1..1 + |f|] == HandleTokens(f, 0);
    assert l[1 + |f|..] == suffix;
    HandlesRoundTrip(f, 0);
  }

  lemma CountedFacesRoundTrip(faces: seq<seq<int>>, suffixes: seq<Line>)
    requires |suffixes| == |faces|
    ensures DecodeCountedFaces(CountedFaceLines(faces, suffixes)) == Some((faces, suffixes))
  {
    var ls := CountedFaceLines(faces, suffixes);
    forall p | 0 <= p < |ls|
      ensures DecodeCountedFace(ls[p]) == Some((faces[p], suffixes[p]))
    {
      CountedFaceRoundTrip(faces[p], suffixes[p]);
    }
    var d := DecodeCountedFaces(ls).value;
    assert |d.0| == |faces| && forall p :: 0 <= p < |faces| ==> d.0[p] == faces[p];
    assert |d.1| == |suffixes| && forall p :: 0 <= p < |suffixes| ==> d.1[p] == suffixes[p];
    assert d.0 == faces && d.1 == suffixes;
    assert DecodeCountedFaces(ls).Some?;
  }

  /** Reading an OFF document back yields the vertices, the faces in their
      order and winding, and each face's suffix. */
  lemma OffRoundTrip(verts: seq<Point>, faces: seq<seq<int>>, suffixes: seq<Line>, style: NumStyle)
    requires |suffixes| == |faces|
    ensures DecodeOff(OffDocument(verts, faces, suffixes, style)) == Some(OffContent(verts, faces, suffixes))
  {
    var doc := OffDocument(verts, faces, suffixes, style);
    var nv := |verts|;
    assert doc[2..2 + nv] == VertexLines(verts, [], style);
    assert doc[2 + nv..] == CountedFaceLines(faces, suffixes);
    PointsRoundTrip(verts, [], style);
    CountedFacesRoundTrip(faces, suffixes);
  }
}
