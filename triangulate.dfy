/**
 * `generate_triangles`: the loaded OBJ mesh (a vertex list and a flat index
 * list) cut into triangles by resolving consecutive index triples against the
 * vertex positions.
 */
module Triangulate {
  import opened Geometry
  import opened Chunks

  /** A vertex record of the obj crate: a position and a normal (the normal is unused here). */
  datatype ObjVertex = ObjVertex(position: Point3, normal: Vector3)

  /** A face index; the obj crate's default index type is `u16`. */
  type Index = i: nat | i < 0x1_0000

  /** A loaded mesh: vertices in file order and the faces' indices (0-based), flattened. */
  datatype Obj = Obj(vertices: seq<ObjVertex>, indices: seq<Index>)

  /** The vertex positions, in vertex order. */
  function Positions(vertices: seq<ObjVertex>): seq<Point3> {
    seq(|vertices|, i requires 0 <= i < |vertices| => vertices[i].position)
  }

  /**
   * Every index in a complete triple names an existing vertex. The original
   * panics when one does not; the one or two indices of an incomplete final
   * triple are never looked at.
   */
  predicate IndicesInRange(obj: Obj) {
    forall i | 0 <= i < |obj.indices| / 3 * 3 :: obj.indices[i] < |obj.vertices|
  }

  /** The position of the vertex named by index slot `k`. */
  function Corner(obj: Obj, k: nat): Point3
    requires k < |obj.indices| && obj.indices[k] < |obj.vertices|
  {
    obj.vertices[obj.indices[k]].position
  }

  /**
   * One triangle per complete index triple, in order: triangle `i` has the
   * positions named by indices `3i`, `3i+1` and `3i+2`, in that order.
   */
  function GenerateTriangles(obj: Obj): (triangles: seq<Triangle>)
    requires IndicesInRange(obj)
    ensures |triangles| == |obj.indices| / 3
    ensures forall i | 0 <= i < |triangles| ::
              triangles[i] == Triangle(Corner(obj, 3 * i), Corner(obj, 3 * i + 1), Corner(obj, 3 * i + 2))
  {
    var positions := Positions(obj.vertices);
    var chunks := ChunksExact(obj.indices, 3);
    ChunksExactAt(obj.indices, 3);
    seq(|chunks|, i requires 0 <= i < |chunks| =>
      Triangle(positions[chunks[i][0]], positions[chunks[i][1]], positions[chunks[i][2]]))
  }

  /**
   * One or two trailing indices after the last complete triple are dropped
   * without being checked: they need not name a vertex and change nothing.
   */
  lemma TrailingIndicesIgnored(obj: Obj, tail: seq<Index>)
    requires |obj.indices| % 3 == 0 && |tail| < 3
    requires IndicesInRange(obj)
    ensures IndicesInRange(Obj(obj.vertices, obj.indices + tail))
    ensures GenerateTriangles(Obj(obj.vertices, obj.indices + tail)) == GenerateTriangles(obj)
  {
    var longer := Obj(obj.vertices, obj.indices + tail);
    assert |longer.indices| / 3 == |obj.indices| / 3;
    assert forall k | 0 <= k < |obj.indices| :: longer.indices[k] == obj.indices[k];
    assert IndicesInRange(longer);
    var a, b := GenerateTriangles(longer), GenerateTriangles(obj);
    assert |a| == |b|;
    forall i | 0 <= i < |a| ensures a[i] == b[i] {
      assert Corner(longer, 3 * i) == Corner(obj, 3 * i);
      assert Corner(longer, 3 * i + 1) == Corner(obj, 3 * i + 1);
      assert Corner(longer, 3 * i + 2) == Corner(obj, 3 * i + 2);
    }
  }
}
