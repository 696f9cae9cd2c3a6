/** Records shared by the geometry producers and the renderer: what a producer hands over
    to the scene (attribute arrays, an optional element buffer, a primitive topology). */
module GeometryData {

  datatype Option<T> = None | Some(value: T)

  /** Primitive topology passed to the draw call (gl.TRIANGLES or gl.LINES). */
  datatype Topology = Triangles | Lines

  /** Element index width passed to drawElements. */
  datatype IndexType = UnsignedByte | UnsignedShort

  /** Largest index value an element type can hold. */
  function MaxIndex(t: IndexType): (m: nat)
    ensures m + 1 == (if t == UnsignedByte then 256 else 65536)
  {
    match t
    case UnsignedByte => 255
    case UnsignedShort => 65535
  }

  /** Number of indices one primitive of the topology consumes. */
  function Arity(t: Topology): (k: nat)
    ensures k == (if t == Triangles then 3 else 2)
  {
    match t
    case Triangles => 3
    case Lines => 2
  }

  /** Conversion of a JavaScript number to an element of a Uint8Array (modulo 2^8). */
  function ToUint8(x: int): (r: int)
    ensures 0 <= r <= MaxIndex(UnsignedByte)
    ensures 0 <= x <= MaxIndex(UnsignedByte) ==> r == x
  {
    x % 256
  }

  /** Conversion of a JavaScript number to an element of a Uint16Array (modulo 2^16). */
  function ToUint16(x: int): (r: int)
    ensures 0 <= r <= MaxIndex(UnsignedShort)
    ensures 0 <= x <= MaxIndex(UnsignedShort) ==> r == x
  {
    x % 65536
  }

  /** The argument triple of Geometry.setElements: the index array, its element type and the count. */
  datatype Elements = Elements(indices: seq<int>, indexType: IndexType, count: nat)

  /** One attribute array added with Geometry.addArray: its name and number of floats. */
  datatype Attribute = Attribute(name: string, floats: nat)

  /** What a geometry producer returns. */
  datatype GeometryBuffers = GeometryBuffers(
    topology: Topology,
    attributes: seq<Attribute>,
    elements: Option<Elements>)

  predicate AllBelow(s: seq<int>, bound: int)
  {
    forall i :: 0 <= i < |s| ==> 0 <= s[i] < bound
  }

  /** An element buffer that an indexed draw over `vertices` vertices can consume without
      reading past the vertex arrays, without losing bits in the typed array, and by whole
      primitives. */
  predicate ElementsWellFormed(e: Elements, topology: Topology, vertices: nat)
  {
    && e.count == |e.indices|
    && e.count % Arity(topology) == 0
    && AllBelow(e.indices, vertices)
    && vertices <= MaxIndex(e.indexType) + 1
  }
}
