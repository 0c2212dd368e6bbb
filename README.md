# Segment/mesh intersection markers, modelled in Dafny

The library `three-dimensional-model-simulation` loads a triangle mesh from an
OBJ file. It then cuts the mesh's flat index list into triangles and tests a
line segment against every triangle with the Möller–Trumbore algorithm
(Möller & Trumbore, "Fast, Minimum Storage Ray/Triangle Intersection", 1997).
For every hit it builds a small marker square. Finally it writes a new OBJ
file: the original mesh, then four red vertices and one quad face per marker.

This project models that pipeline (`src/lib.rs`):

- `geometry.dfy`: points, vectors, segments and triangles over exact reals.
  `VectorAlgebra` holds the dot/cross-product identities and Cramer's rule
  that the intersection proofs rest on.
- `intersect.dfy`: `intersect_triangle` as its chain of early-return guards.
  It comes with soundness and completeness lemmas and a translation-invariance
  lemma.
- `chunks.dfy`: Rust's `chunks_exact` and the inclusive range `a..=b`, with
  their index characterisations.
- `triangulate.dfy`: `generate_triangles`. The mesh's index panics become a
  precondition.
- `scan.dfy`: the loop of `found_intersections`, as a method with a loop
  proved against an order-preserving filter-map.
- `objwriter.dfy`: `write_to_file`, as a method that builds the sequence of
  OBJ lines (one loop per block, as in the original) and is proved equal to
  the file's specification. A read-back semantics for OBJ files (1-based
  vertex numbering) shows that the numbering the writer emits is consistent.
  Read back, the file's faces are the mesh's triangles followed by the marker
  quads.

All geometry is over Dafny `real`. The original computes in `f32`, so the
geometric statements below (the hit lies in the plane, Cramer's rule,
translation invariance) are statements about the exact-arithmetic algorithm,
not about its floating-point execution.

## Model

| member | source | states |
|---|---|---|
| Intersect.IntersectTriangle | src/lib.rs:13-44 | Returns `None` whenever `-EPSILON < a < EPSILON`. It returns `Some` exactly when all four guards pass (`0 <= u <= 1`, `v >= 0`, `u + v <= 1`, `t > EPSILON`). The point it returns is `start + t*(end - start)`, with no upper bound on `t`. |
| Intersect.ParallelMisses | src/lib.rs:19-27 | A segment whose direction has a dot product with the face normal strictly between `-EPSILON` and `EPSILON` is rejected. The code's `a` is minus that dot product. |
| Intersect.DegenerateMisses | src/lib.rs:19-27 | A zero-area triangle or a zero-length segment never gives a hit. |
| Intersect.SolvesSystem | src/lib.rs:28-39 | Whenever the parallel guard passes, `start + t*dir` equals `v1 + u*edge1 + v*edge2` for the computed `u`, `v`, `t` (Cramer's rule). |
| Intersect.HitLiesOnTriangle | src/lib.rs:28-42 | Soundness. A returned point `p` has `u >= 0`, `v >= 0`, `u + v <= 1` and `t > EPSILON`. It equals both `start + t*dir` and `v1 + u*edge1 + v*edge2`, and it lies in the triangle's plane. |
| Intersect.HitIsFound | src/lib.rs:28-42 | Completeness. If the line meets the triangle at barycentric `(u, v)` inside the triangle, at parameter `t > EPSILON`, and is not rejected as parallel, then the test computes exactly that `u`, `v` and `t` and returns that point. This also holds when `t > 1`, beyond the segment's end. |
| Intersect.CoordinatesUnique | src/lib.rs:28-39 | When the parallel guard passes, any `(u, v, t)` for which `start + t*dir` equals `v1 + u*edge1 + v*edge2` are exactly the computed `u`, `v`, `t`. |
| Intersect.OutsideMisses | src/lib.rs:30-43 | A non-parallel line that meets the triangle's plane outside the triangle (`u < 0`, `v < 0` or `u + v > 1`), or only at `t <= EPSILON`, gets `None`. |
| Intersect.TranslationInvariant | src/lib.rs:13-44 | Moving the segment and the triangle by the same vector moves the result by that vector and changes nothing else. |
| Chunks.ChunksExactAt | src/lib.rs:83-85 | `chunks_exact(n)` gives `c` chunks with `n*c <= |s| < n*c + n`. Chunk `i` is `s[n*i .. n*i+n]`, and the remainder is dropped. |
| Chunks.InclusiveRangeAt | src/lib.rs:162-163 | `lo..=hi` has `hi - lo + 1` elements (none if `lo > hi`), and element `i` is `lo + i`. |
| Triangulate.GenerateTriangles | src/lib.rs:75-98 | There are exactly `|indices| / 3` triangles. Triangle `i` is the positions named by indices `3i`, `3i+1`, `3i+2`, in that order. Every index of a complete triple must name a vertex. |
| Triangulate.TrailingIndicesIgnored | src/lib.rs:83-85 | Appending one or two indices after the last complete triple changes nothing and needs no bounds check. |
| Scan.HitIndicesExact | src/lib.rs:54-55 | There are at most as many hit positions as triangles. The hit positions are strictly increasing and in range. Triangle `k` is among them exactly when `intersect_triangle` returns `Some` for it. |
| Scan.NoHitIndices | src/lib.rs:54-55 | A segment that misses every triangle has no hit positions. |
| Scan.ScanMarkers | src/lib.rs:54-60 | There is one marker per hit, so there are no more markers than triangles. Marker `j` is built from the `j`-th hit triangle (in mesh order) and its hit point. |
| Scan.ScanAppend | src/lib.rs:54-60 | Scanning `xs + ys` gives the markers of `xs` followed by those of `ys`: no early exit, no deduplication, order kept. |
| Scan.NoHitsNoMarkers | src/lib.rs:54-61 | With no hit there are no markers, and the written file is the mesh's vertices and faces alone. |
| Scan.FoundIntersections | src/lib.rs:46-65 | The loop collects exactly the scan's markers, and the file written is the OBJ file of the mesh and those markers. Read back, that file holds the mesh's triangles followed by the markers. |
| ObjWriter.WriteToFile | src/lib.rs:100-168 | The emitted lines are, in order: mesh vertices, mesh faces, marker vertices, marker faces. |
| ObjWriter.WriteVertices | src/lib.rs:111-117 | Appends one uncoloured vertex line per mesh vertex, in order. |
| ObjWriter.WriteTriangles | src/lib.rs:120-125 | Appends one face line per complete index triple, each index plus one. |
| ObjWriter.WriteSquareVertices | src/lib.rs:139-160 | Appends the four corners of every marker, in corner order, coloured `255 0 0`. |
| ObjWriter.WriteSquareFaces | src/lib.rs:136-168 | Appends the marker faces cut from `n+1 ..= n+4k` in groups of four. |
| ObjWriter.BaseFaceNumbering | src/lib.rs:120-125 | There are `|indices| / 3` mesh faces, and face `i` is `(idx[3i]+1, idx[3i+1]+1, idx[3i+2]+1)`. |
| ObjWriter.MarkerVertexOrder | src/lib.rs:139-160 | The marker block has `4k` vertex lines, and line `4j+c` is corner `c` of marker `j`, in red. |
| ObjWriter.MarkerFaceNumbering | src/lib.rs:136-168 | There are exactly `k` marker faces, and face `j` is `(n+4j+1, n+4j+2, n+4j+3, n+4j+4)`. |
| ObjWriter.FileVertices | src/lib.rs:111-160 | The file's vertices are the `n` mesh positions followed by `4k` marker corners. OBJ vertex `n+4j+c+1` is corner `c` of marker `j`. |
| ObjWriter.FileFaces | src/lib.rs:120-168 | The file's faces are the `|indices| / 3` mesh triples made 1-based, followed by the `k` marker quads. |
| ObjWriter.ResolveBaseFace | src/lib.rs:120-125 | Mesh face `i` of the file resolves to the three corners of triangle `i`. |
| ObjWriter.ResolveMarkerFace | src/lib.rs:136-168 | Marker face `j` of the file resolves to the four corners of marker `j`. |
| ObjWriter.ReadBackFile | src/lib.rs:100-168 | Read back with 1-based numbering, every face of the written file names an existing vertex. The faces are `generate_triangles`' triangles followed by the markers. |

## Left out

- File and library I/O. This covers `load_from_file` (src/lib.rs:67-73), the OBJ parser, the file creation and `writeln!` calls, and the `println!` diagnostics. The writer is modelled as the sequence of lines it would emit. The `Result` errors in `found_intersections` and `write_to_file` come only from I/O, so they are not modelled. The `writeln!` results that the original discards with `let _` are not modelled either.
- `create_square_from_intersection` and `triangle_normal` (src/lib.rs:195-223) normalise vectors and use `sqrt` and fixed `f32` offsets. The scan takes the marker builder as a function parameter `(hit point, triangle) -> four points`.
- `f32` arithmetic is not modelled. Rounding, NaN (a NaN determinant passes the parallel guard in `f32`) and infinities are absent, because the model computes over exact reals, and `EPSILON` is the exact real `0.000001`.
- The textual format of a line is not modelled: number formatting, the trailing space after mesh vertex lines, and the `v`/`f` keywords. A line is a record carrying its position, optional colour or indices.
- The vertex normals of the OBJ vertices are carried but unused, as in the original.
- `Triangulate.GenerateTriangles`: an index of a complete triple that names no vertex makes the original panic. The model makes that a precondition rather than an error value.
- `src/main.rs` (a command-line entry point with a fixed segment and path) is not part of this model. Nor are `src/types/vertex.rs` (a rendering vertex), `src/types/tetrahedron.rs` and `src/types/intersection.rs`: nothing in the modelled pipeline uses them.
- Indices are the OBJ crate's `u16`. The `as u32 + 1` and `usize` arithmetic of the writer cannot overflow for such indices and realistic marker counts, so it is modelled on unbounded naturals.
