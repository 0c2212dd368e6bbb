/**
 * The scan of `found_intersections`: every triangle of the mesh is tested
 * against the line segment, in mesh order and without stopping early, and
 * each hit contributes one marker square built from the hit point and the
 * triangle that was hit. The marker builder (`create_square_from_intersection`)
 * is a parameter of the model.
 */
module Scan {
  import opened Geometry
  import opened Wrappers
  import opened Intersect
  import opened Triangulate
  import opened ObjWriter

  /** The markers produced by scanning `triangles` in order: one per hit. */
  function Markers(line: LineSegment, triangles: seq<Triangle>, square: (Point3, Triangle) -> Square): seq<Square>
    decreases |triangles|
  {
    if triangles == [] then []
    else
      var last := triangles[|triangles| - 1];
      var markers := Markers(line, triangles[..|triangles| - 1], square);
      match IntersectTriangle(line, last)
      case Some(p) => markers + [square(p, last)]
      case None => markers
  }

  /** The positions, in mesh order, of the triangles the segment hits. */
  function HitIndices(line: LineSegment, triangles: seq<Triangle>): seq<nat>
    decreases |triangles|
  {
    if triangles == [] then []
    else
      var hits := HitIndices(line, triangles[..|triangles| - 1]);
      if IntersectTriangle(line, triangles[|triangles| - 1]).Some? then hits + [|triangles| - 1] else hits
  }

  /**
   * The hit positions are exactly the triangles that `IntersectTriangle`
   * accepts, each once and in increasing order.
   */
  lemma {:induction false} HitIndicesExact(line: LineSegment, triangles: seq<Triangle>)
    ensures |HitIndices(line, triangles)| <= |triangles|
    ensures forall j | 0 <= j < |HitIndices(line, triangles)| ::
              HitIndices(line, triangles)[j] < |triangles|
    ensures forall j, l | 0 <= j < l < |HitIndices(line, triangles)| ::
              HitIndices(line, triangles)[j] < HitIndices(line, triangles)[l]
    ensures forall k | 0 <= k < |triangles| ::
              k in HitIndices(line, triangles) <==> IntersectTriangle(line, triangles[k]).Some?
    decreases |triangles|
  {
    if triangles != [] {
      var init := triangles[..|triangles| - 1];
      HitIndicesExact(line, init);
      forall k | 0 <= k < |init| ensures triangles[k] == init[k] { }
    }
  }

  /** A segment that misses every triangle has no hit position. */
  lemma {:induction false} NoHitIndices(line: LineSegment, triangles: seq<Triangle>)
    requires forall k | 0 <= k < |triangles| :: IntersectTriangle(line, triangles[k]).None?
    ensures HitIndices(line, triangles) == []
    decreases |triangles|
  {
    if triangles != [] {
      var init := triangles[..|triangles| - 1];
      assert forall k | 0 <= k < |init| :: init[k] == triangles[k];
      NoHitIndices(line, init);
    }
  }

  /**
   * Marker `j` is built from the `j`-th hit: from the point where the segment
   * meets triangle `HitIndices[j]`, and from that triangle.
   */
  lemma {:induction false} ScanMarkers(line: LineSegment, triangles: seq<Triangle>, square: (Point3, Triangle) -> Square)
    ensures |Markers(line, triangles, square)| == |HitIndices(line, triangles)|
    ensures |Markers(line, triangles, square)| <= |triangles|
    ensures forall j | 0 <= j < |HitIndices(line, triangles)| ::
              var k := HitIndices(line, triangles)[j];
              && k < |triangles|
              && IntersectTriangle(line, triangles[k]).Some?
              && Markers(line, triangles, square)[j] == square(IntersectTriangle(line, triangles[k]).value, triangles[k])
    decreases |triangles|
  {
    HitIndicesExact(line, triangles);
    if triangles != [] {
      var init := triangles[..|triangles| - 1];
      ScanMarkers(line, init, square);
      HitIndicesExact(line, init);
      forall k | 0 <= k < |init| ensures triangles[k] == init[k] { }
    }
  }

  /**
   * Scanning is compositional: the markers of a mesh split in two are the
   * markers of the first part followed by those of the second, so no hit
   * ends the scan early and the order of the mesh is kept.
   */
  lemma {:induction false} ScanAppend(line: LineSegment, xs: seq<Triangle>, ys: seq<Triangle>, square: (Point3, Triangle) -> Square)
    ensures Markers(line, xs + ys, square) == Markers(line, xs, square) + Markers(line, ys, square)
    decreases |ys|
  {
    if ys == [] {
      assert xs + ys == xs;
    } else {
      var init := ys[..|ys| - 1];
      assert (xs + ys)[..|xs + ys| - 1] == xs + init;
      assert (xs + ys)[|xs + ys| - 1] == ys[|ys| - 1];
      ScanAppend(line, xs, init, square);
    }
  }

  /** A scan that finds no hit produces no marker, and the file is the mesh alone. */
  lemma NoHitsNoMarkers(line: LineSegment, obj: Obj, square: (Point3, Triangle) -> Square)
    requires IndicesInRange(obj)
    requires forall k | 0 <= k < |GenerateTriangles(obj)| :: IntersectTriangle(line, GenerateTriangles(obj)[k]).None?
    ensures Markers(line, GenerateTriangles(obj), square) == []
    ensures ObjFile(obj, Markers(line, GenerateTriangles(obj), square))
            == BaseVertexLines(obj.vertices) + BaseFaceLines(obj.indices)
  {
    var triangles := GenerateTriangles(obj);
    NoHitIndices(line, triangles);
    ScanMarkers(line, triangles, square);
    MarkerFaceNumbering(|obj.vertices|, 0);
  }

  /**
   * `found_intersections` once the mesh is loaded: it triangulates the mesh,
   * tests every triangle in order, collects one marker per hit and writes the
   * mesh followed by the markers. Read back, the written file holds the mesh's
   * triangles followed by the markers.
   */
  method FoundIntersections(line: LineSegment, obj: Obj, square: (Point3, Triangle) -> Square)
    returns (markers: seq<Square>, file: seq<ObjLine>)
    requires IndicesInRange(obj)
    ensures markers == Markers(line, GenerateTriangles(obj), square)
    ensures file == ObjFile(obj, markers)
    ensures ReadBack(file) == Some(TriangleCorners(GenerateTriangles(obj)) + markers)
  {
    var triangles := GenerateTriangles(obj);
    markers := [];
    for i := 0 to |triangles|
      invariant markers == Markers(line, triangles[..i], square)
    {
      assert triangles[..i + 1][..i] == triangles[..i];
      var hit := IntersectTriangle(line, triangles[i]);
      if hit.Some? {
        markers := markers + [square(hit.value, triangles[i])];
      }
    }
    assert triangles[..|triangles|] == triangles;
    file := WriteToFile(markers, obj);
    ReadBackFile(obj, markers);
  }
}
