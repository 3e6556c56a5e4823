/**
 * The full-screen quad: four vertices at the corners of normalised device coordinates,
 * each with the texture coordinate of the same corner, drawn as two triangles.
 * Every coordinate is -1, 0 or 1, so integers represent them exactly.
 */
module Geometry {

  type Point = (int, int)

  /** `Vertex`: a clip-space position and a texture coordinate. */
  datatype Vertex = Vertex(position: Point, uv: Point)

  /** `VERTICES`. */
  const VERTICES: seq<Vertex> := [
    Vertex((-1, -1), (0, 0)),
    Vertex((1, -1), (1, 0)),
    Vertex((1, 1), (1, 1)),
    Vertex((-1, 1), (0, 1))
  ]

  /** `INDICES`, stored as `u16`. */
  const INDICES: seq<nat> := [0, 1, 2, 2, 3, 0]

  /** What `Quad::new` keeps besides the GPU buffers: the data they were filled with and the index count. */
  datatype Quad = Quad(vertexData: seq<Vertex>, indexData: seq<nat>, indexCount: nat)

  /** `Quad::new`: buffers holding `VERTICES` and `INDICES`, and an index count of 6. */
  function NewQuad(): (q: Quad)
    ensures |q.vertexData| == 4 && |q.indexData| == 6
    ensures q.indexCount == |q.indexData|
    ensures forall k :: 0 <= k < |q.indexData| ==> q.indexData[k] < |q.vertexData|
  {
    Quad(VERTICES, INDICES, 6)
  }

  /** Every index names one of the vertices. */
  lemma IndicesInRange()
    ensures forall k :: 0 <= k < |INDICES| ==> INDICES[k] < |VERTICES|
  {
  }

  /** The positions are the four corners of the square [-1, 1] x [-1, 1], each exactly once. */
  lemma CornersOnce()
    ensures forall v :: 0 <= v < |VERTICES| ==> VERTICES[v].position.0 in {-1, 1} && VERTICES[v].position.1 in {-1, 1}
    ensures forall v, w :: 0 <= v < w < |VERTICES| ==> VERTICES[v].position != VERTICES[w].position
  {
  }

  /** Each texture coordinate is the position moved from [-1, 1] to [0, 1]. */
  lemma UvFollowsPosition()
    ensures forall v :: 0 <= v < |VERTICES| ==>
      && VERTICES[v].uv.0 * 2 == VERTICES[v].position.0 + 1
      && VERTICES[v].uv.1 * 2 == VERTICES[v].position.1 + 1
  {
  }

  /** Twice the signed area of the triangle `a`, `b`, `c`: positive when the corners run counter-clockwise. */
  function TwiceSignedArea(a: Point, b: Point, c: Point): int
  {
    (b.0 - a.0) * (c.1 - a.1) - (c.0 - a.0) * (b.1 - a.1)
  }

  /** The triangles a triangle-list index sequence describes, three indices each. */
  function Triangles(indices: seq<nat>): (t: seq<(nat, nat, nat)>)
    requires |indices| % 3 == 0
    ensures |t| * 3 == |indices|
    ensures forall k :: 0 <= k < |t| ==> t[k] == (indices[3 * k], indices[3 * k + 1], indices[3 * k + 2])
    decreases |indices|
  {
    if indices == [] then [] else [(indices[0], indices[1], indices[2])] + Triangles(indices[3..])
  }

  /** The index list is the two triangles (0, 1, 2) and (2, 3, 0), both wound counter-clockwise. */
  lemma TwoCounterClockwiseTriangles()
    ensures Triangles(INDICES) == [(0, 1, 2), (2, 3, 0)]
    ensures forall k :: 0 <= k < 2 ==>
      var t := Triangles(INDICES)[k];
      TwiceSignedArea(VERTICES[t.0].position, VERTICES[t.1].position, VERTICES[t.2].position) > 0
  {
    assert Triangles(INDICES)[0] == (0, 1, 2);
    assert Triangles(INDICES)[1] == (2, 3, 0);
  }

  /** Together the triangles use all four vertices and share exactly the diagonal from vertex 0 to vertex 2. */
  lemma TrianglesCoverQuad()
    ensures var t := Triangles(INDICES);
      && {t[0].0, t[0].1, t[0].2} + {t[1].0, t[1].1, t[1].2} == {0, 1, 2, 3}
      && {t[0].0, t[0].1, t[0].2} * {t[1].0, t[1].1, t[1].2} == {0, 2}
  {
    TwoCounterClockwiseTriangles();
  }
}
