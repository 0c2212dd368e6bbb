/**
 * `write_to_file`: the lines of the output OBJ file, as records instead of
 * text. The file holds the mesh's vertices, then its triangles, then four
 * red vertices per intersection marker, then one quad face per marker. OBJ
 * numbers vertex lines from 1 in file order, and face lines refer to them.
 */
module ObjWriter {
  import opened Geometry
  import opened Wrappers
  import opened Chunks
  import opened Triangulate

  datatype Rgb = Rgb(r: nat, g: nat, b: nat)

  /** The colour written after every marker vertex. */
  const MARKER_COLOR: Rgb := Rgb(255, 0, 0)

  /** One line of the file: `v x y z [r g b]` or `f i1 i2 ...` with 1-based indices. */
  datatype ObjLine = VertexLine(position: Point3, color: Option<Rgb>) | FaceLine(indices: seq<nat>)

  /** The mesh's own vertices, uncoloured, in order. */
  function BaseVertexLines(vertices: seq<ObjVertex>): seq<ObjLine> {
    seq(|vertices|, i requires 0 <= i < |vertices| => VertexLine(vertices[i].position, None))
  }

  /** One face per complete index triple, each index shifted to 1-based. */
  function BaseFaceLines(indices: seq<Index>): seq<ObjLine> {
    var chunks := ChunksExact(indices, 3);
    ChunksExactAt(indices, 3);
    seq(|chunks|, c requires 0 <= c < |chunks| =>
      FaceLine([chunks[c][0] as nat + 1, chunks[c][1] as nat + 1, chunks[c][2] as nat + 1]))
  }

  /** The four corners of one marker, as red vertices. */
  function SquareLines(square: Square): seq<ObjLine> {
    [VertexLine(square[0], Some(MARKER_COLOR)), VertexLine(square[1], Some(MARKER_COLOR)),
     VertexLine(square[2], Some(MARKER_COLOR)), VertexLine(square[3], Some(MARKER_COLOR))]
  }

  /** The corners of every marker, marker by marker. */
  function MarkerVertexLines(squares: seq<Square>): seq<ObjLine> {
    if squares == [] then [] else SquareLines(squares[0]) + MarkerVertexLines(squares[1..])
  }

  /**
   * The marker faces: the numbers `n+1 ..= n+4k` of the `4k` marker vertices
   * that follow the `n` mesh vertices, cut into groups of four.
   */
  function MarkerFaceLines(vertexCount: nat, squareCount: nat): seq<ObjLine> {
    var ids := InclusiveRange(vertexCount + 1, vertexCount + squareCount * 4);
    var chunks := ChunksExact(ids, 4);
    ChunksExactAt(ids, 4);
    seq(|chunks|, c requires 0 <= c < |chunks| =>
      FaceLine([chunks[c][0], chunks[c][1], chunks[c][2], chunks[c][3]]))
  }

  /** The whole file, in the order the original writes it. */
  function ObjFile(obj: Obj, squares: seq<Square>): seq<ObjLine> {
    BaseVertexLines(obj.vertices) + BaseFaceLines(obj.indices)
    + MarkerVertexLines(squares) + MarkerFaceLines(|obj.vertices|, |squares|)
  }

  /** Face `i` of the mesh is index triple `i`, each index plus one. */
  lemma BaseFaceNumbering(indices: seq<Index>)
    ensures |BaseFaceLines(indices)| == |indices| / 3
    ensures forall i | 0 <= i < |indices| / 3 ::
              BaseFaceLines(indices)[i]
              == FaceLine([indices[3 * i] as nat + 1, indices[3 * i + 1] as nat + 1, indices[3 * i + 2] as nat + 1])
  {
    ChunksExactAt(indices, 3);
  }

  /** Marker `j`'s corners are vertex lines `4j .. 4j+3` of the marker block, in corner order. */
  lemma {:induction false} MarkerVertexOrder(squares: seq<Square>)
    ensures |MarkerVertexLines(squares)| == 4 * |squares|
    ensures forall j, c | 0 <= j < |squares| && 0 <= c < 4 ::
              MarkerVertexLines(squares)[4 * j + c] == VertexLine(squares[j][c], Some(MARKER_COLOR))
  {
    if squares != [] {
      MarkerVertexOrder(squares[1..]);
      var rest := MarkerVertexLines(squares[1..]);
      forall j, c | 0 <= j < |squares| && 0 <= c < 4
        ensures MarkerVertexLines(squares)[4 * j + c] == VertexLine(squares[j][c], Some(MARKER_COLOR))
      {
        if j > 0 {
          assert 4 * j + c - 4 == 4 * (j - 1) + c;
          assert MarkerVertexLines(squares)[4 * j + c] == rest[4 * (j - 1) + c];
        }
      }
    }
  }

  /**
   * There is one marker face per marker, and face `j` is
   * `(n+4j+1, n+4j+2, n+4j+3, n+4j+4)`: the four vertices of marker `j`.
   */
  lemma MarkerFaceNumbering(vertexCount: nat, squareCount: nat)
    ensures |MarkerFaceLines(vertexCount, squareCount)| == squareCount
    ensures forall j | 0 <= j < squareCount ::
              var n := vertexCount;
              MarkerFaceLines(n, squareCount)[j] == FaceLine([n + 4 * j + 1, n + 4 * j + 2, n + 4 * j + 3, n + 4 * j + 4])
  {
    var n := vertexCount;
    var ids := InclusiveRange(n + 1, n + squareCount * 4);
    InclusiveRangeAt(n + 1, n + squareCount * 4);
    ChunksExactAt(ids, 4);
    var chunks := ChunksExact(ids, 4);
    assert |ids| == 4 * squareCount;
    assert |chunks| == squareCount;
    forall j | 0 <= j < squareCount
      ensures MarkerFaceLines(n, squareCount)[j] == FaceLine([n + 4 * j + 1, n + 4 * j + 2, n + 4 * j + 3, n + 4 * j + 4])
    {
      assert chunks[j] == ids[4 * j .. 4 * j + 4];
    }
  }

  /**
   * The emitter: writes the mesh's vertices, its triangles, the markers'
   * vertices and the markers' faces, one loop each, as the original does.
   */
  method WriteToFile(squares: seq<Square>, obj: Obj) returns (lines: seq<ObjLine>)
    ensures lines == ObjFile(obj, squares)
  {
    lines := WriteVertices([], obj.vertices);
    lines := WriteTriangles(lines, obj.indices);
    lines := WriteSquareVertices(lines, squares);
    lines := WriteSquareFaces(lines, |obj.vertices|, squares);
  }

  /** Appends one uncoloured vertex line per mesh vertex. */
  method WriteVertices(written: seq<ObjLine>, vertices: seq<ObjVertex>) returns (lines: seq<ObjLine>)
    ensures lines == written + BaseVertexLines(vertices)
  {
    lines := written;
    for i := 0 to |vertices|
      invariant lines == written + BaseVertexLines(vertices)[..i]
    {
      lines := lines + [VertexLine(vertices[i].position, None)];
    }
  }

  /** Appends one face line per complete index triple, shifted to 1-based numbering. */
  method WriteTriangles(written: seq<ObjLine>, indices: seq<Index>) returns (lines: seq<ObjLine>)
    ensures lines == written + BaseFaceLines(indices)
  {
    lines := written;
    var triples := ChunksExact(indices, 3);
    ChunksExactAt(indices, 3);
    for c := 0 to |triples|
      invariant lines == written + BaseFaceLines(indices)[..c]
    {
      var chunk := triples[c];
      lines := lines + [FaceLine([chunk[0] as nat + 1, chunk[1] as nat + 1, chunk[2] as nat + 1])];
    }
  }

  /** Appends the four corners of every marker as red vertex lines. */
  method WriteSquareVertices(written: seq<ObjLine>, squares: seq<Square>) returns (lines: seq<ObjLine>)
    ensures lines == written + MarkerVertexLines(squares)
  {
    lines := written;
    MarkerVertexOrder(squares);
    for j := 0 to |squares|
      invariant lines == written + MarkerVertexLines(squares)[..4 * j]
    {
      var square := squares[j];
      assert MarkerVertexLines(squares)[..4 * j + 4]
          == MarkerVertexLines(squares)[..4 * j] + SquareLines(square);
      lines := lines + [VertexLine(square[0], Some(MARKER_COLOR))];
      lines := lines + [VertexLine(square[1], Some(MARKER_COLOR))];
      lines := lines + [VertexLine(square[2], Some(MARKER_COLOR))];
      lines := lines + [VertexLine(square[3], Some(MARKER_COLOR))];
    }
  }

  /**
   * Appends one quad face per marker, numbering the marker vertices from
   * `currentVerticesCount + 1`.
   */
  method WriteSquareFaces(written: seq<ObjLine>, currentVerticesCount: nat, squares: seq<Square>)
    returns (lines: seq<ObjLine>)
    ensures lines == written + MarkerFaceLines(currentVerticesCount, |squares|)
  {
    lines := written;
    var squareCount := |squares| * 4;
    var ids := InclusiveRange(currentVerticesCount + 1, currentVerticesCount + squareCount);
    var quads := ChunksExact(ids, 4);
    ChunksExactAt(ids, 4);
    for c := 0 to |quads|
      invariant lines == written + MarkerFaceLines(currentVerticesCount, |squares|)[..c]
    {
      var item := quads[c];
      lines := lines + [FaceLine([item[0], item[1], item[2], item[3]])];
    }
  }

  /** The positions of the vertex lines in file order: OBJ vertex number `k` is element `k-1`. */
  function VertexPositions(lines: seq<ObjLine>): seq<Point3> {
    if lines == [] then []
    else (if lines[0].VertexLine? then [lines[0].position] else []) + VertexPositions(lines[1..])
  }

  /** The index lists of the face lines, in file order. */
  function Faces(lines: seq<ObjLine>): seq<seq<nat>> {
    if lines == [] then []
    else (if lines[0].FaceLine? then [lines[0].indices] else []) + Faces(lines[1..])
  }

  /** A face's corner positions, or None if it names a vertex the file does not have. */
  function ResolveFace(positions: seq<Point3>, face: seq<nat>): Option<seq<Point3>> {
    if forall k | 0 <= k < |face| :: 1 <= face[k] <= |positions| then
      Some(seq(|face|, k requires 0 <= k < |face| && 1 <= face[k] <= |positions| => positions[face[k] - 1]))
    else
      None
  }

  lemma ResolveFaceOf(positions: seq<Point3>, face: seq<nat>, corners: seq<Point3>)
    requires |face| == |corners|
    requires forall k | 0 <= k < |face| :: 1 <= face[k] <= |positions| && positions[face[k] - 1] == corners[k]
    ensures ResolveFace(positions, face) == Some(corners)
  {
    assert forall k | 0 <= k < |face| :: 1 <= face[k] <= |positions|;
    var r := ResolveFace(positions, face).value;
    assert |r| == |corners|;
    assert forall k | 0 <= k < |face| :: r[k] == corners[k];
    assert r == corners;
  }

  function ResolveFaces(positions: seq<Point3>, faces: seq<seq<nat>>): Option<seq<seq<Point3>>> {
    if faces == [] then Some([])
    else
      match (ResolveFace(positions, faces[0]), ResolveFaces(positions, faces[1..]))
      case (Some(face), Some(rest)) => Some([face] + rest)
      case _ => None
  }

  /**
   * How an OBJ reader understands a file: every face as the positions of its
   * corners, or None if some face names a vertex the file does not have.
   */
  function ReadBack(lines: seq<ObjLine>): Option<seq<seq<Point3>>> {
    ResolveFaces(VertexPositions(lines), Faces(lines))
  }

  /** The corners of each triangle, in vertex order. */
  function TriangleCorners(triangles: seq<Triangle>): seq<seq<Point3>> {
    seq(|triangles|, i requires 0 <= i < |triangles| => [triangles[i].v1, triangles[i].v2, triangles[i].v3])
  }

  lemma {:induction false} SplitVertexPositions(a: seq<ObjLine>, b: seq<ObjLine>)
    ensures VertexPositions(a + b) == VertexPositions(a) + VertexPositions(b)
  {
    if a == [] {
      assert a + b == b;
    } else {
      var head := if a[0].VertexLine? then [a[0].position] else [];
      calc {
        VertexPositions(a + b);
        head + VertexPositions((a + b)[1..]);
        { assert (a + b)[1..] == a[1..] + b; }
        head + VertexPositions(a[1..] + b);
        { SplitVertexPositions(a[1..], b); }
        head + (VertexPositions(a[1..]) + VertexPositions(b));
        VertexPositions(a) + VertexPositions(b);
      }
    }
  }

  lemma {:induction false} SplitFaces(a: seq<ObjLine>, b: seq<ObjLine>)
    ensures Faces(a + b) == Faces(a) + Faces(b)
  {
    if a == [] {
      assert a + b == b;
    } else {
      var head := if a[0].FaceLine? then [a[0].indices] else [];
      calc {
        Faces(a + b);
        head + Faces((a + b)[1..]);
        { assert (a + b)[1..] == a[1..] + b; }
        head + Faces(a[1..] + b);
        { SplitFaces(a[1..], b); }
        head + (Faces(a[1..]) + Faces(b));
        Faces(a) + Faces(b);
      }
    }
  }

  lemma {:induction false} OnlyVertices(lines: seq<ObjLine>)
    requires forall i | 0 <= i < |lines| :: lines[i].VertexLine?
    ensures Faces(lines) == []
    ensures |VertexPositions(lines)| == |lines|
    ensures forall i | 0 <= i < |lines| :: VertexPositions(lines)[i] == lines[i].position
  {
    if lines != [] {
      OnlyVertices(lines[1..]);
    }
  }

  lemma {:induction false} OnlyFaces(lines: seq<ObjLine>)
    requires forall i | 0 <= i < |lines| :: lines[i].FaceLine?
    ensures VertexPositions(lines) == []
    ensures |Faces(lines)| == |lines|
    ensures forall i | 0 <= i < |lines| :: Faces(lines)[i] == lines[i].indices
  {
    if lines != [] {
      OnlyFaces(lines[1..]);
    }
  }

  lemma {:induction false} ResolveEach(positions: seq<Point3>, faces: seq<seq<nat>>, resolved: seq<seq<Point3>>)
    requires |faces| == |resolved|
    requires forall i | 0 <= i < |faces| :: ResolveFace(positions, faces[i]) == Some(resolved[i])
    ensures ResolveFaces(positions, faces) == Some(resolved)
  {
    if faces != [] {
      ResolveEach(positions, faces[1..], resolved[1..]);
      assert resolved == [resolved[0]] + resolved[1..];
    }
  }

  lemma BaseVertexBlock(vertices: seq<ObjVertex>)
    ensures Faces(BaseVertexLines(vertices)) == []
    ensures VertexPositions(BaseVertexLines(vertices)) == Positions(vertices)
  {
    OnlyVertices(BaseVertexLines(vertices));
  }

  lemma BaseFacesOnly(indices: seq<Index>)
    ensures VertexPositions(BaseFaceLines(indices)) == []
  {
    OnlyFaces(BaseFaceLines(indices));
  }

  lemma BaseFaceBlock(indices: seq<Index>)
    ensures |Faces(BaseFaceLines(indices))| == |indices| / 3
    ensures forall i | 0 <= i < |indices| / 3 ::
              Faces(BaseFaceLines(indices))[i]
              == [indices[3 * i] as nat + 1, indices[3 * i + 1] as nat + 1, indices[3 * i + 2] as nat + 1]
  {
    BaseFaceNumbering(indices);
    OnlyFaces(BaseFaceLines(indices));
  }

  lemma MarkerLinesAreVertices(squares: seq<Square>)
    ensures forall i | 0 <= i < |MarkerVertexLines(squares)| :: MarkerVertexLines(squares)[i].VertexLine?
  {
    var lines := MarkerVertexLines(squares);
    MarkerVertexOrder(squares);
    forall i | 0 <= i < |lines| ensures lines[i].VertexLine? {
      var j, corner := i / 4, i % 4;
      assert i == 4 * j + corner;
      assert lines[4 * j + corner] == VertexLine(squares[j][corner], Some(MARKER_COLOR));
    }
  }

  lemma MarkerVerticesOnly(squares: seq<Square>)
    ensures Faces(MarkerVertexLines(squares)) == []
  {
    MarkerLinesAreVertices(squares);
    OnlyVertices(MarkerVertexLines(squares));
  }

  lemma MarkerVertexBlock(squares: seq<Square>)
    ensures |VertexPositions(MarkerVertexLines(squares))| == 4 * |squares|
    ensures forall j, c | 0 <= j < |squares| && 0 <= c < 4 ::
              VertexPositions(MarkerVertexLines(squares))[4 * j + c] == squares[j][c]
  {
    var lines := MarkerVertexLines(squares);
    MarkerLinesAreVertices(squares);
    OnlyVertices(lines);
    MarkerVertexOrder(squares);
    forall j, c | 0 <= j < |squares| && 0 <= c < 4
      ensures VertexPositions(lines)[4 * j + c] == squares[j][c]
    {
      assert lines[4 * j + c] == VertexLine(squares[j][c], Some(MARKER_COLOR));
    }
  }

  lemma MarkerFacesOnly(vertexCount: nat, squareCount: nat)
    ensures VertexPositions(MarkerFaceLines(vertexCount, squareCount)) == []
  {
    OnlyFaces(MarkerFaceLines(vertexCount, squareCount));
  }

  lemma MarkerFaceBlock(vertexCount: nat, squareCount: nat)
    ensures |Faces(MarkerFaceLines(vertexCount, squareCount))| == squareCount
    ensures forall j | 0 <= j < squareCount ::
              var n := vertexCount;
              Faces(MarkerFaceLines(n, squareCount))[j] == [n + 4 * j + 1, n + 4 * j + 2, n + 4 * j + 3, n + 4 * j + 4]
  {
    MarkerFaceNumbering(vertexCount, squareCount);
    OnlyFaces(MarkerFaceLines(vertexCount, squareCount));
  }

  /** The vertex lines of the file come from its two vertex blocks. */
  lemma FileVertexBlocks(obj: Obj, squares: seq<Square>)
    ensures VertexPositions(ObjFile(obj, squares))
            == Positions(obj.vertices) + VertexPositions(MarkerVertexLines(squares))
  {
    var a, b := BaseVertexLines(obj.vertices), BaseFaceLines(obj.indices);
    var c, d := MarkerVertexLines(squares), MarkerFaceLines(|obj.vertices|, |squares|);
    SplitVertexPositions(a, b);
    SplitVertexPositions(a + b, c);
    SplitVertexPositions(a + b + c, d);
    BaseVertexBlock(obj.vertices);
    BaseFacesOnly(obj.indices);
    MarkerFacesOnly(|obj.vertices|, |squares|);
  }

  /** The face lines of the file come from its two face blocks. */
  lemma FileFaceBlocks(obj: Obj, squares: seq<Square>)
    ensures Faces(ObjFile(obj, squares))
            == Faces(BaseFaceLines(obj.indices)) + Faces(MarkerFaceLines(|obj.vertices|, |squares|))
  {
    var a, b := BaseVertexLines(obj.vertices), BaseFaceLines(obj.indices);
    var c, d := MarkerVertexLines(squares), MarkerFaceLines(|obj.vertices|, |squares|);
    SplitFaces(a, b);
    SplitFaces(a + b, c);
    SplitFaces(a + b + c, d);
    BaseVertexBlock(obj.vertices);
    MarkerVerticesOnly(squares);
  }

  /**
   * The vertex lines of the file are the mesh's vertex positions followed by
   * the markers' corners: OBJ vertex `n + 4j + c + 1` is corner `c` of marker `j`.
   */
  lemma FileVertices(obj: Obj, squares: seq<Square>)
    ensures var positions := VertexPositions(ObjFile(obj, squares));
            && |positions| == |obj.vertices| + 4 * |squares|
            && (forall i | 0 <= i < |obj.vertices| :: positions[i] == obj.vertices[i].position)
            && (forall j, c | 0 <= j < |squares| && 0 <= c < 4 ::
                  positions[|obj.vertices| + 4 * j + c] == squares[j][c])
  {
    var n := |obj.vertices|;
    FileVertexBlocks(obj, squares);
    MarkerVertexBlock(squares);
    var positions := VertexPositions(ObjFile(obj, squares));
    var markers := VertexPositions(MarkerVertexLines(squares));
    assert positions == Positions(obj.vertices) + markers;
    forall j, c | 0 <= j < |squares| && 0 <= c < 4
      ensures positions[n + 4 * j + c] == squares[j][c]
    {
      assert positions[n + 4 * j + c] == markers[4 * j + c];
    }
  }

  /**
   * The face lines of the file are the mesh's index triples shifted to
   * 1-based numbering, followed by `(n+4j+1, .., n+4j+4)` for each marker `j`.
   */
  lemma FileFaces(obj: Obj, squares: seq<Square>)
    ensures var faces := Faces(ObjFile(obj, squares));
            && |faces| == |obj.indices| / 3 + |squares|
            && (forall i | 0 <= i < |obj.indices| / 3 ::
                  faces[i] == [obj.indices[3 * i] as nat + 1, obj.indices[3 * i + 1] as nat + 1,
                               obj.indices[3 * i + 2] as nat + 1])
            && (forall j | 0 <= j < |squares| ::
                  var n := |obj.vertices|;
                  faces[|obj.indices| / 3 + j] == [n + 4 * j + 1, n + 4 * j + 2, n + 4 * j + 3, n + 4 * j + 4])
  {
    FileFaceBlocks(obj, squares);
    BaseFaceBlock(obj.indices);
    MarkerFaceBlock(|obj.vertices|, |squares|);
  }

  /** Base face `i` of the file resolves to the corners of triangle `i`. */
  lemma ResolveBaseFace(obj: Obj, squares: seq<Square>, i: nat)
    requires IndicesInRange(obj)
    requires i < |obj.indices| / 3
    ensures var faces := Faces(ObjFile(obj, squares));
            && i < |faces|
            && ResolveFace(VertexPositions(ObjFile(obj, squares)), faces[i])
               == Some([Corner(obj, 3 * i), Corner(obj, 3 * i + 1), Corner(obj, 3 * i + 2)])
  {
    FileVertices(obj, squares);
    FileFaces(obj, squares);
    var positions := VertexPositions(ObjFile(obj, squares));
    var face := [obj.indices[3 * i] as nat + 1, obj.indices[3 * i + 1] as nat + 1, obj.indices[3 * i + 2] as nat + 1];
    var corners := [Corner(obj, 3 * i), Corner(obj, 3 * i + 1), Corner(obj, 3 * i + 2)];
    assert Faces(ObjFile(obj, squares))[i] == face;
    assert 3 * i + 2 < |obj.indices| / 3 * 3;
    forall k | 0 <= k < 3 ensures 1 <= face[k] <= |positions| && positions[face[k] - 1] == corners[k] {
      assert obj.indices[3 * i + k] < |obj.vertices|;
    }
    ResolveFaceOf(positions, face, corners);
  }

  /** Marker face `j` of the file resolves to the four corners of marker `j`. */
  lemma ResolveMarkerFace(obj: Obj, squares: seq<Square>, j: nat)
    requires j < |squares|
    ensures var faces := Faces(ObjFile(obj, squares));
            && |obj.indices| / 3 + j < |faces|
            && ResolveFace(VertexPositions(ObjFile(obj, squares)), faces[|obj.indices| / 3 + j]) == Some(squares[j])
  {
    var n := |obj.vertices|;
    FileVertices(obj, squares);
    FileFaces(obj, squares);
    var positions := VertexPositions(ObjFile(obj, squares));
    var face := [n + 4 * j + 1, n + 4 * j + 2, n + 4 * j + 3, n + 4 * j + 4];
    assert Faces(ObjFile(obj, squares))[|obj.indices| / 3 + j] == face;
    forall k | 0 <= k < 4 ensures 1 <= face[k] <= |positions| && positions[face[k] - 1] == squares[j][k] {
      assert face[k] - 1 == n + 4 * j + k;
    }
    ResolveFaceOf(positions, face, squares[j]);
  }

  /**
   * Read back, the file's faces are the mesh's triangles, exactly as
   * `generate_triangles` builds them, followed by one quad per marker whose
   * corners are that marker's points: the numbering of the emitted file is
   * consistent, and every face names an existing vertex.
   */
  lemma ReadBackFile(obj: Obj, squares: seq<Square>)
    requires IndicesInRange(obj)
    ensures ReadBack(ObjFile(obj, squares)) == Some(TriangleCorners(GenerateTriangles(obj)) + squares)
  {
    var n := |obj.vertices|;
    FileVertices(obj, squares);
    FileFaces(obj, squares);
    var positions := VertexPositions(ObjFile(obj, squares));
    var faces := Faces(ObjFile(obj, squares));
    var triangles := GenerateTriangles(obj);
    var resolved := TriangleCorners(triangles) + squares;
    forall i | 0 <= i < |faces| ensures ResolveFace(positions, faces[i]) == Some(resolved[i]) {
      if i < |triangles| {
        ResolveBaseFace(obj, squares, i);
      } else {
        ResolveMarkerFace(obj, squares, i - |triangles|);
      }
    }
    ResolveEach(positions, faces, resolved);
  }
}
