/** The tiny-house model: constant vertex, normal, triangle-index and outline-index tables and
    the two geometries built from them (js/geometry_house.js). */
module TinyHouse {
  import opened GeometryData

  /** A normal component: an exact number, or plus/minus 1/sqrt(2) (the source's `irt`). */
  datatype NormalComponent = Exact(value: real) | Irt(negative: bool)

  const Vertices: seq<real> := [
    0.0,0.0,0.0,  1.0,0.0,0.0,  1.0,0.0,1.0,  0.0,0.0,1.0,              // base
    1.0,0.0,0.0,  1.0,1.0,0.0,  1.0,1.0,1.0,  1.0,0.0,1.0,              // right side
    0.0,0.0,0.0,  0.0,0.0,1.0,  0.0,1.0,1.0,  0.0,1.0,0.0,              // left side
    1.0,1.0,0.0,  0.5,1.5,0.0,  0.5,1.5,1.0,  1.0,1.0,1.0,              // right roof
    0.0,1.0,0.0,  0.0,1.0,1.0,  0.5,1.5,1.0,  0.5,1.5,0.0,              // left roof
    0.0,0.0,1.0,  1.0,0.0,1.0,  1.0,1.0,1.0,  0.5,1.5,1.0, 0.0,1.0,1.0, // front
    0.0,0.0,0.0,  0.0,1.0,0.0,  0.5,1.5,0.0,  1.0,1.0,0.0, 1.0,0.0,0.0  // back
  ]

  const Z := Exact(0.0)
  const P := Exact(1.0)
  const N := Exact(-1.0)
  const PI := Irt(false)
  const NI := Irt(true)

  const Normals: seq<NormalComponent> := [
    Z,N,Z,  Z,N,Z,  Z,N,Z,  Z,N,Z,                     // base
    P,Z,Z,  P,Z,Z,  P,Z,Z,  P,Z,Z,                     // right side
    N,Z,Z,  N,Z,Z,  N,Z,Z,  N,Z,Z,                     // left side
    PI,PI,Z,  PI,PI,Z,  PI,PI,Z,  PI,PI,Z,             // right roof
    NI,PI,Z,  NI,PI,Z,  NI,PI,Z,  NI,PI,Z,             // left roof
    Z,Z,P,  Z,Z,P,  Z,Z,P,  Z,Z,P,  Z,Z,P,             // front
    Z,Z,N,  Z,Z,N,  Z,Z,N,  Z,Z,N,  Z,Z,N              // back
  ]

  // The triangle-index and outline-index tables, one run per face in table order.
  const BaseTriangles: seq<int> := [0, 1, 2,  0, 2, 3]
  const RightTriangles: seq<int> := [4, 5, 6,  4, 6, 7]
  const LeftTriangles: seq<int> := [8, 9, 10,  8, 10, 11]
  const RightRoofTriangles: seq<int> := [12, 13, 14,  12, 14, 15]
  const LeftRoofTriangles: seq<int> := [16, 17, 18,  16, 18, 19]
  const FrontTriangles: seq<int> := [20, 21, 22,  20, 22, 24,  22, 23, 24]
  const BackTriangles: seq<int> := [25, 26, 27,  27, 28, 29,  25, 27, 29]

  const BaseOutline: seq<int> := [0, 1,  1, 2,  2, 3,  3, 0]
  const RightOutline: seq<int> := [4, 5,  5, 6,  6, 7,  7, 4]
  const LeftOutline: seq<int> := [8, 9,  9, 10,  10, 11,  11, 8]
  const RightRoofOutline: seq<int> := [12, 13,  13, 14,  14, 15,  15, 12]
  const LeftRoofOutline: seq<int> := [16, 17,  17, 18,  18, 19,  19, 16]
  const FrontOutline: seq<int> := [20, 21,  21, 22,  22, 23,  23, 24,  24, 20]
  const BackOutline: seq<int> := [25, 26,  26, 27,  27, 28,  28, 29,  29, 25]

  const IndicesTriangles: seq<int> :=
    BaseTriangles + RightTriangles + LeftTriangles + RightRoofTriangles
    + LeftRoofTriangles + FrontTriangles + BackTriangles

  const IndicesOutlines: seq<int> :=
    BaseOutline + RightOutline + LeftOutline + RightRoofOutline
    + LeftRoofOutline + FrontOutline + BackOutline

  /** A face of the house: its vertex group [firstVertex, firstVertex + vertexCount) and its
      runs of the two index tables. */
  datatype Face = Face(firstVertex: nat, vertexCount: nat, triangles: seq<int>, outline: seq<int>)

  /** The faces in table order: base, right, left, right roof, left roof, front, back. */
  const Faces: seq<Face> := [
    Face(0, 4, BaseTriangles, BaseOutline),
    Face(4, 4, RightTriangles, RightOutline),
    Face(8, 4, LeftTriangles, LeftOutline),
    Face(12, 4, RightRoofTriangles, RightRoofOutline),
    Face(16, 4, LeftRoofTriangles, LeftRoofOutline),
    Face(20, 5, FrontTriangles, FrontOutline),
    Face(25, 5, BackTriangles, BackOutline)
  ]

  /** Number of three-component vertices. */
  const VertexCount: nat := |Vertices| / 3

  /** The pairs (a0,a1),(a1,a2),...,(a_{m-1},a0) of a closed polygon outline. */
  predicate ClosedChain(pairs: seq<int>)
  {
    && |pairs| >= 2 && |pairs| % 2 == 0
    && (forall p :: 0 < p < |pairs| / 2 ==> pairs[2 * p] == pairs[2 * p - 1])
    && pairs[|pairs| - 1] == pairs[0]
  }

  predicate InGroup(s: seq<int>, f: Face)
  {
    forall i :: 0 <= i < |s| ==> f.firstVertex <= s[i] < f.firstVertex + f.vertexCount
  }

  /** One (x, y, z) normal per (x, y, z) vertex: 30 of each. */
  lemma TableSizes()
    ensures |Vertices| == |Normals| == 90
    ensures VertexCount == 30 && |Vertices| == 3 * VertexCount
  {
  }

  /** The triangle list indexes existing vertices only and consists of whole triangles. */
  lemma TriangleIndicesValid()
    ensures |IndicesTriangles| == 48 && |IndicesTriangles| % Arity(Triangles) == 0
    ensures AllBelow(IndicesTriangles, VertexCount)
  {
  }

  /** The outline list indexes existing vertices only and consists of whole line segments. */
  lemma OutlineIndicesValid()
    ensures |IndicesOutlines| == 60 && |IndicesOutlines| % Arity(Lines) == 0
    ensures AllBelow(IndicesOutlines, VertexCount)
  {
  }

  /** The faces' vertex groups tile the 30 vertices in order, and the faces' runs make up the
      two index tables. */
  lemma FacesTileVertices()
    ensures Faces[0].firstVertex == 0
    ensures forall f :: 0 < f < |Faces| ==>
      Faces[f].firstVertex == Faces[f - 1].firstVertex + Faces[f - 1].vertexCount
    ensures Faces[|Faces| - 1].firstVertex + Faces[|Faces| - 1].vertexCount == VertexCount
    ensures IndicesTriangles == Faces[0].triangles + Faces[1].triangles + Faces[2].triangles
      + Faces[3].triangles + Faces[4].triangles + Faces[5].triangles + Faces[6].triangles
    ensures IndicesOutlines == Faces[0].outline + Faces[1].outline + Faces[2].outline
      + Faces[3].outline + Faces[4].outline + Faces[5].outline + Faces[6].outline
  {
  }

  /** Each face's triangles use only that face's vertex group, in whole triangles. */
  lemma FaceTrianglesInGroup(f: nat)
    requires f < |Faces|
    ensures |Faces[f].triangles| % 3 == 0
    ensures InGroup(Faces[f].triangles, Faces[f])
  {
  }

  lemma FaceOutlineChain(f: nat)
    requires f < |Faces|
    ensures ClosedChain(Faces[f].outline)
  {
    var o := Faces[f].outline;
    assert |o| == 2 * Faces[f].vertexCount;
    forall p | 0 < p < |o| / 2
      ensures o[2 * p] == o[2 * p - 1]
    {
      if p == 1 {} else if p == 2 {} else if p == 3 {} else {}
    }
  }

  lemma FaceOutlineInGroup(f: nat)
    requires f < |Faces|
    ensures InGroup(Faces[f].outline, Faces[f])
  {
    var o := Faces[f].outline;
    forall i | 0 <= i < |o|
      ensures Faces[f].firstVertex <= o[i] < Faces[f].firstVertex + Faces[f].vertexCount
    {
      if f == 0 {} else if f == 1 {} else if f == 2 {} else if f == 3 {}
      else if f == 4 {} else if f == 5 {} else {}
    }
  }

  /** Each face's outline is a closed chain over that face's vertex group. */
  lemma FaceOutlineClosed(f: nat)
    requires f < |Faces|
    ensures ClosedChain(Faces[f].outline)
    ensures InGroup(Faces[f].outline, Faces[f])
  {
    FaceOutlineChain(f);
    FaceOutlineInGroup(f);
  }

  /** createGeometryHouse: a triangle geometry over the house tables with an 8-bit element
      buffer of the triangle indices. */
  function CreateGeometryHouse(): (g: GeometryBuffers)
    ensures g.topology == Triangles && g.elements.Some?
    ensures g.elements.value.indexType == UnsignedByte
    ensures ElementsWellFormed(g.elements.value, g.topology, VertexCount)
    ensures g.elements.value.indices == IndicesTriangles
    ensures g.attributes == [Attribute("a_Position", |Vertices|), Attribute("a_Normal", |Normals|)]
    ensures |Vertices| == |Normals| == 90
  {
    TriangleIndicesValid();
    GeometryBuffers(
      Triangles,
      [Attribute("a_Position", |Vertices|), Attribute("a_Normal", |Normals|)],
      Some(Elements(Uint8Array(IndicesTriangles), UnsignedByte, |IndicesTriangles|)))
  }

  /** createGeometryHouseWires: a line geometry over the house tables with an 8-bit element
      buffer of the outline indices. */
  function CreateGeometryHouseWires(): (g: GeometryBuffers)
    ensures g.topology == Lines && g.elements.Some?
    ensures g.elements.value.indexType == UnsignedByte
    ensures ElementsWellFormed(g.elements.value, g.topology, VertexCount)
    ensures g.elements.value.indices == IndicesOutlines
    ensures g.attributes == [Attribute("a_Position", |Vertices|), Attribute("a_Normal", |Normals|)]
    ensures |Vertices| == |Normals| == 90
  {
    OutlineIndicesValid();
    GeometryBuffers(
      Lines,
      [Attribute("a_Position", |Vertices|), Attribute("a_Normal", |Normals|)],
      Some(Elements(Uint8Array(IndicesOutlines), UnsignedByte, |IndicesOutlines|)))
  }

  /** `new Uint8Array(list)`: every entry converted modulo 2^8. */
  function Uint8Array(s: seq<int>): (r: seq<int>)
    ensures |r| == |s|
    ensures forall i :: 0 <= i < |s| ==> r[i] == ToUint8(s[i])
    ensures AllBelow(s, MaxIndex(UnsignedByte) + 1) ==> r == s
  {
    seq(|s|, i requires 0 <= i < |s| => ToUint8(s[i]))
  }
}
