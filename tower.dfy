/** create_tower and createGeometryTower (js/geometry_tower.js): nested loops over the sides and
    rings fill the vertex, normal and triangle-index arrays of a tower of revolution. Vertex and
    normal coordinates are kept symbolic; the offsets and index values are exact. */
module Tower {
  import opened GeometryData
  import opened TowerLayout

  /** One float of the vertex or normal array. A Float32Array starts out all zero; a written
      coordinate is either the profile's height, or the profile's radius times the cosine
      (`sine == false`) or the sine of the angle of side `side`. */
  datatype Coord = Exact(value: real) | Rotated(radius: real, side: nat, sine: bool)

  /** Component `c` of the profile point `p` = (radius, height) turned to side `i`. */
  function Component(p: (real, real), i: nat, c: nat): Coord
  {
    if c == 0 then Rotated(p.0, i, false)
    else if c == 1 then Exact(p.1)
    else Rotated(p.0, i, true)
  }

  /** The coordinate that slot `j` of the vertex (or normal) array holds once filled from
      `profile`. */
  function VertexAt(n: nat, profile: seq<(real, real)>, j: nat): Coord
    requires n > 0 && j < 3 * (|profile| * n)
  {
    VertexSlotEncode(n, |profile|, j);
    Component(profile[SlotRing(n, j)], SlotSide(n, j), SlotAxis(j))
  }

  /** The filled array holds component c of ring k turned to side i at offset 3 * (k * n + i) + c,
      and that offset lies inside the array. */
  lemma VertexAtSlot(n: nat, profile: seq<(real, real)>, k: nat, i: nat, c: nat)
    requires i < n && k < |profile| && c < 3
    ensures VertexSlot(n, k, i, c) < 3 * (|profile| * n)
    ensures VertexAt(n, profile, VertexSlot(n, k, i, c)) == Component(profile[k], i, c)
  {
    VertexSlotInBounds(n, |profile|, k, i, c);
    VertexSlotDecode(n, k, i, c);
  }

  /** Slot `j` after the sides before `i`, and the rings of side `i` before `k`, are written. */
  function VertexFilled(n: nat, profile: seq<(real, real)>, i: nat, k: nat, j: nat): Coord
    requires n > 0 && j < 3 * (|profile| * n)
  {
    if SlotSide(n, j) < i || (SlotSide(n, j) == i && SlotRing(n, j) < k) then VertexAt(n, profile, j)
    else Exact(0.0)
  }

  /** Writing ring `k` of side `i` fills exactly the three slots starting at 3 * (k * n + i). */
  lemma VertexFillStep(n: nat, profile: seq<(real, real)>, i: nat, k: nat, j: nat)
    requires n > 0 && i < n && k < |profile| && j < 3 * (|profile| * n)
    ensures var u := VertexSlot(n, k, i, 0);
      VertexFilled(n, profile, i, k + 1, j) ==
        if u <= j < u + 3 then Component(profile[k], i, j - u) else VertexFilled(n, profile, i, k, j)
  {
    var u := VertexSlot(n, k, i, 0);
    VertexSlotEncode(n, |profile|, j);
    if u <= j < u + 3 {
      assert j == VertexSlot(n, k, i, j - u);
      VertexSlotDecode(n, k, i, j - u);
    }
  }

  /** Once every ring of side `i` is written, side `i + 1` starts from ring 0. */
  lemma VertexFillSide(n: nat, profile: seq<(real, real)>, i: nat, j: nat)
    requires n > 0 && j < 3 * (|profile| * n)
    ensures VertexFilled(n, profile, i, |profile|, j) == VertexFilled(n, profile, i + 1, 0, j)
  {
    VertexSlotEncode(n, |profile|, j);
  }

  /** Slot `j` of the index array once the sides before `i` are done and, for side `i`, the
      blocks b with 2b < k (k = 0 before its fans, 2 after them, k + 2 after quad k). */
  function IndexFilled(n: nat, rings: nat, i: nat, k: nat, j: nat): int
    requires n > 0 && rings >= 2
  {
    if IndexSide(n, j) < i || (IndexSide(n, j) == i && 2 * IndexBlock(n, j) < k) then
      ToUint16(IndexAt(n, rings, j))
    else 0
  }

  /** The six fan writes of side `i` fill exactly block 0 of side `i`: the bottom fan at slots
      3i .. 3i+2 and the top fan at slots 3n + 3i .. 3n + 3i + 2. */
  lemma IndexFanStep(n: nat, rings: nat, i: nat, j: nat)
    requires n >= 3 && rings >= 4 && i < n
    ensures IndexFilled(n, rings, i, 2, j) ==
      if 3 * i <= j < 3 * i + 3 then ToUint16(BottomFan(n, i, j - 3 * i))
      else if 3 * n + 3 * i <= j < 3 * n + 3 * i + 3 then ToUint16(TopFan(n, rings, i, j - 3 * n - 3 * i))
      else IndexFilled(n, rings, i, 0, j)
  {
    IndexSlotEncode(n, j);
    if 3 * i <= j < 3 * i + 3 {
      IndexSlotDecode(n, 0, i, j - 3 * i);
    } else if 3 * n + 3 * i <= j < 3 * n + 3 * i + 3 {
      IndexSlotDecode(n, 0, i, j - 3 * n - 3 * i + 3);
    }
  }

  /** The six writes of quad k of side `i` fill exactly block k / 2 of side `i`, which starts
      at slot k * 3n + 6i. */
  lemma IndexQuadStep(n: nat, rings: nat, i: nat, k: nat, j: nat)
    requires n >= 3 && rings >= 4 && i < n && k % 2 == 0 && 2 <= k < rings - 2
    ensures var base := k * (3 * n) + i * 6;
      IndexFilled(n, rings, i, k + 2, j) ==
        if base <= j < base + 6 then ToUint16(SideQuad(n, k, i, j - base))
        else IndexFilled(n, rings, i, k, j)
  {
    var base := k * (3 * n) + i * 6;
    var b := k / 2;
    assert 2 * b == k;
    assert base == 6 * n * b + 6 * i;
    IndexSlotEncode(n, j);
    if base <= j < base + 6 {
      IndexSlotDecode(n, b, i, j - base);
    }
  }

  /** After the last quad of side `i`, the rest of that side's blocks stay 0 and side `i + 1`
      starts. */
  lemma IndexFillSide(n: nat, rings: nat, i: nat, k: nat, j: nat)
    requires n >= 3 && rings >= 4 && k >= 2 && k >= rings - 2
    ensures IndexFilled(n, rings, i, k, j) == IndexFilled(n, rings, i + 1, 0, j)
  {
    IndexSlotEncode(n, j);
  }

  /** create_tower for `nSides` sides and the ring profile `yProfile` with normals `yNormals`:
      every vertex and normal slot holds the coordinate of the ring, side and axis it encodes,
      and the index array holds the layout's triangle indices, converted to 16 bits. */
  method CreateTower(nSides: nat, yProfile: seq<(real, real)>, yNormals: seq<(real, real)>)
    returns (vxs: array<Coord>, nms: array<Coord>, idxs: array<int>)
    requires nSides >= 3 && |yProfile| >= 4 && |yNormals| >= |yProfile|
    ensures vxs.Length == nms.Length == 3 * (|yProfile| * nSides)
    ensures idxs.Length == IndexArrayLength(nSides, |yProfile|)
    ensures forall j :: 0 <= j < vxs.Length ==> vxs[j] == VertexAt(nSides, yProfile, j)
    ensures forall j :: 0 <= j < nms.Length ==> nms[j] == VertexAt(nSides, yNormals[..|yProfile|], j)
    ensures forall j :: 0 <= j < idxs.Length ==> idxs[j] == ToUint16(IndexAt(nSides, |yProfile|, j))
  {
    var nRings := |yProfile|;
    var normals := yNormals[..nRings];
    var nVertices := nRings * nSides;
    vxs := new Coord[3 * nVertices](_ => Exact(0.0));
    nms := new Coord[3 * nVertices](_ => Exact(0.0));
    idxs := new int[(3 * nRings - 1) * nSides](_ => 0);

    var i := 0;
    while i < nSides
      invariant i <= nSides
      invariant forall j :: 0 <= j < vxs.Length ==> vxs[j] == VertexFilled(nSides, yProfile, i, 0, j)
      invariant forall j :: 0 <= j < nms.Length ==> nms[j] == VertexFilled(nSides, normals, i, 0, j)
      invariant forall j :: 0 <= j < idxs.Length ==> idxs[j] == IndexFilled(nSides, nRings, i, 0, j)
    {
      FillRings(vxs, nms, nSides, yProfile, normals, i);
      FillFans(idxs, nSides, nRings, i);
      FillQuads(idxs, nSides, nRings, i);
      i := i + 1;
    }
    forall j | 0 <= j < vxs.Length
      ensures VertexFilled(nSides, yProfile, nSides, 0, j) == VertexAt(nSides, yProfile, j)
      ensures VertexFilled(nSides, normals, nSides, 0, j) == VertexAt(nSides, normals, j)
    {
      VertexSlotEncode(nSides, nRings, j);
    }
    forall j | 0 <= j < idxs.Length
      ensures IndexFilled(nSides, nRings, nSides, 0, j) == ToUint16(IndexAt(nSides, nRings, j))
    {
      IndexSlotEncode(nSides, j);
    }
  }

  /** The three writes `a[u + 0..2]` of one profile point turned to side `i`. */
  method WriteComponents(a: array<Coord>, u: nat, p: (real, real), i: nat)
    requires u + 3 <= a.Length
    modifies a
    ensures forall j :: 0 <= j < a.Length ==>
      a[j] == if u <= j < u + 3 then Component(p, i, j - u) else old(a[j])
  {
    var (r, h) := p;
    a[u + 0] := Rotated(r, i, false);
    a[u + 1] := Exact(h);
    a[u + 2] := Rotated(r, i, true);
  }

  /** One pass of the ring loop: ring k of side `i` at offset u = 3 * (k * n_sides + i). */
  method FillRing(vxs: array<Coord>, nms: array<Coord>, nSides: nat,
                  yProfile: seq<(real, real)>, yNormals: seq<(real, real)>, i: nat, k: nat, u: nat)
    requires vxs != nms && 0 < nSides && i < nSides && |yNormals| == |yProfile| && k < |yProfile|
    requires vxs.Length == nms.Length == 3 * (|yProfile| * nSides)
    requires u == VertexSlot(nSides, k, i, 0)
    requires forall j :: 0 <= j < vxs.Length ==> vxs[j] == VertexFilled(nSides, yProfile, i, k, j)
    requires forall j :: 0 <= j < nms.Length ==> nms[j] == VertexFilled(nSides, yNormals, i, k, j)
    modifies vxs, nms
    ensures forall j :: 0 <= j < vxs.Length ==> vxs[j] == VertexFilled(nSides, yProfile, i, k + 1, j)
    ensures forall j :: 0 <= j < nms.Length ==> nms[j] == VertexFilled(nSides, yNormals, i, k + 1, j)
  {
    VertexSlotInBounds(nSides, |yProfile|, k, i, 2);
    WriteComponents(vxs, u, yProfile[k], i);
    WriteComponents(nms, u, yNormals[k], i);
    forall j | 0 <= j < vxs.Length
      ensures vxs[j] == VertexFilled(nSides, yProfile, i, k + 1, j)
    {
      VertexFillStep(nSides, yProfile, i, k, j);
    }
    forall j | 0 <= j < nms.Length
      ensures nms[j] == VertexFilled(nSides, yNormals, i, k + 1, j)
    {
      VertexFillStep(nSides, yNormals, i, k, j);
    }
  }

  /** The ring loop of side `i`: the running offset u steps by 3 * n_sides from ring to ring,
      and each ring receives its three vertex and three normal coordinates. */
  method FillRings(vxs: array<Coord>, nms: array<Coord>, nSides: nat,
                   yProfile: seq<(real, real)>, yNormals: seq<(real, real)>, i: nat)
    requires vxs != nms && 0 < nSides && i < nSides && |yNormals| == |yProfile|
    requires vxs.Length == nms.Length == 3 * (|yProfile| * nSides)
    requires forall j :: 0 <= j < vxs.Length ==> vxs[j] == VertexFilled(nSides, yProfile, i, 0, j)
    requires forall j :: 0 <= j < nms.Length ==> nms[j] == VertexFilled(nSides, yNormals, i, 0, j)
    modifies vxs, nms
    ensures forall j :: 0 <= j < vxs.Length ==> vxs[j] == VertexFilled(nSides, yProfile, i + 1, 0, j)
    ensures forall j :: 0 <= j < nms.Length ==> nms[j] == VertexFilled(nSides, yNormals, i + 1, 0, j)
  {
    var nRings := |yProfile|;
    var nSidesX3 := 3 * nSides;
    var u := 3 * i;
    var k := 0;
    while k < nRings
      invariant k <= nRings && u == VertexSlot(nSides, k, i, 0)
      invariant forall j :: 0 <= j < vxs.Length ==> vxs[j] == VertexFilled(nSides, yProfile, i, k, j)
      invariant forall j :: 0 <= j < nms.Length ==> nms[j] == VertexFilled(nSides, yNormals, i, k, j)
    {
      FillRing(vxs, nms, nSides, yProfile, yNormals, i, k, u);
      u := u + nSidesX3;
      k := k + 1;
    }
    forall j | 0 <= j < vxs.Length
      ensures VertexFilled(nSides, yProfile, i, nRings, j) == VertexFilled(nSides, yProfile, i + 1, 0, j)
      ensures VertexFilled(nSides, yNormals, i, nRings, j) == VertexFilled(nSides, yNormals, i + 1, 0, j)
    {
      VertexFillSide(nSides, yProfile, i, j);
      VertexFillSide(nSides, yNormals, i, j);
    }
  }

  /** Three consecutive index writes `a[at + c] = v_c`, one triangle. */
  method WriteTriangle(a: array<int>, at: nat, v0: int, v1: int, v2: int)
    requires at + 3 <= a.Length
    modifies a
    ensures forall j :: 0 <= j < a.Length ==>
      a[j] == if j == at then v0 else if j == at + 1 then v1 else if j == at + 2 then v2 else old(a[j])
  {
    a[at + 0] := v0;
    a[at + 1] := v1;
    a[at + 2] := v2;
  }

  /** The bottom and top fan triangles of side `i`. */
  method FillFans(idxs: array<int>, nSides: nat, nRings: nat, i: nat)
    requires nSides >= 3 && nRings >= 4 && i < nSides
    requires idxs.Length == IndexArrayLength(nSides, nRings)
    requires forall j :: 0 <= j < idxs.Length ==> idxs[j] == IndexFilled(nSides, nRings, i, 0, j)
    modifies idxs
    ensures forall j :: 0 <= j < idxs.Length ==> idxs[j] == IndexFilled(nSides, nRings, i, 2, j)
  {
    var nSidesX3 := 3 * nSides;
    var iX3 := i * 3;
    var iP1 := (i + 1) % nSides;
    assert nSidesX3 + iX3 + 2 < idxs.Length by {
      MulMonotone(nSides, 11, 3 * nRings - 1);
    }
    WriteTriangle(idxs, iX3, ToUint16(i), ToUint16(nSides + i), ToUint16(nSides + iP1));
    WriteTriangle(idxs, nSidesX3 + iX3, ToUint16((nRings - 2) * nSides + iP1),
                  ToUint16((nRings - 2) * nSides + i), ToUint16((nRings - 1) * nSides));
    assert iP1 == Next(nSides, i);
    forall j | 0 <= j < idxs.Length
      ensures idxs[j] == IndexFilled(nSides, nRings, i, 2, j)
    {
      IndexFanStep(nSides, nRings, i, j);
    }
  }

  /** The quad loop's offset k * 3n + 6i is block k / 2 of side i, and its six slots fit the
      index array. */
  lemma QuadBase(n: nat, rings: nat, i: nat, k: nat)
    requires n >= 3 && rings >= 4 && i < n && k % 2 == 0 && 2 <= k < rings - 2
    ensures k * (3 * n) + i * 6 == IndexSlot(n, k / 2, i, 0)
    ensures k * (3 * n) + i * 6 + 6 <= IndexArrayLength(n, rings)
  {
    assert k * (3 * n) == 6 * n * (k / 2);
    IndexSlotInBounds(n, rings, k / 2, i, 5);
  }

  /** One pass of the quad loop: the two triangles between rings k and k + 1 at side `i`. */
  method FillQuad(idxs: array<int>, nSides: nat, nRings: nat, i: nat, k: nat)
    requires nSides >= 3 && nRings >= 4 && i < nSides && k % 2 == 0 && 2 <= k < nRings - 2
    requires idxs.Length == IndexArrayLength(nSides, nRings)
    requires forall j :: 0 <= j < idxs.Length ==> idxs[j] == IndexFilled(nSides, nRings, i, k, j)
    modifies idxs
    ensures forall j :: 0 <= j < idxs.Length ==> idxs[j] == IndexFilled(nSides, nRings, i, k + 2, j)
  {
    var nSidesX3 := 3 * nSides;
    var iP1 := (i + 1) % nSides;
    var iX6 := i * 6;
    var idx0 := k * nSides + i;
    var idx1 := (k + 1) * nSides + i;
    var idx2 := (k + 1) * nSides + iP1;
    var idx3 := k * nSides + iP1;
    var base := k * nSidesX3 + iX6;
    QuadBase(nSides, nRings, i, k);
    WriteTriangle(idxs, base, ToUint16(idx0), ToUint16(idx1), ToUint16(idx2));
    WriteTriangle(idxs, base + 3, ToUint16(idx0), ToUint16(idx2), ToUint16(idx3));
    assert iP1 == Next(nSides, i);
    forall j | 0 <= j < idxs.Length
      ensures idxs[j] == IndexFilled(nSides, nRings, i, k + 2, j)
    {
      IndexQuadStep(nSides, nRings, i, k, j);
    }
  }

  /** The quad loop of side `i`: k = 2, 4, ... while k < n_rings - 2. */
  method FillQuads(idxs: array<int>, nSides: nat, nRings: nat, i: nat)
    requires nSides >= 3 && nRings >= 4 && i < nSides
    requires idxs.Length == IndexArrayLength(nSides, nRings)
    requires forall j :: 0 <= j < idxs.Length ==> idxs[j] == IndexFilled(nSides, nRings, i, 2, j)
    modifies idxs
    ensures forall j :: 0 <= j < idxs.Length ==> idxs[j] == IndexFilled(nSides, nRings, i + 1, 0, j)
  {
    var k := 2;
    while k < nRings - 2
      invariant 2 <= k && k % 2 == 0
      invariant forall j :: 0 <= j < idxs.Length ==> idxs[j] == IndexFilled(nSides, nRings, i, k, j)
      decreases nRings - k
    {
      FillQuad(idxs, nSides, nRings, i, k);
      k := k + 2;
    }
    forall j | 0 <= j < idxs.Length
      ensures IndexFilled(nSides, nRings, i, k, j) == IndexFilled(nSides, nRings, i + 1, 0, j)
    {
      IndexFillSide(nSides, nRings, i, k, j);
    }
  }

  /** The ring profile of the tower: (radius, height) per ring, bottom centre to apex. */
  const YProfile: seq<(real, real)> := [
    (0.0, 0.0), (0.6, 0.0),
    (0.6, 0.0), (0.6, 0.2), (0.6, 0.2), (0.6, 0.4), (0.6, 0.4), (0.6, 0.6),
    (0.6, 0.6), (0.6, 0.8), (0.6, 0.8), (0.6, 1.0), (0.6, 1.0), (0.6, 1.2),
    (0.6, 1.2), (0.6, 1.4), (0.6, 1.4), (0.6, 1.6), (0.6, 1.6), (0.6, 1.8),
    (0.6, 1.8), (0.4, 2.0), (0.4, 2.0), (0.4, 2.3), (0.4, 2.3), (0.0, 2.7)
  ]

  /** The normal of each ring along the profile, as (radial, vertical) components. */
  const YNormals: seq<(real, real)> := [
    (0.0, -1.0), (0.0, -1.0),
    (1.0, 0.0), (1.0, 0.0), (1.0, 0.0), (1.0, 0.0), (1.0, 0.0), (1.0, 0.0),
    (1.0, 0.0), (1.0, 0.0), (1.0, 0.0), (1.0, 0.0), (1.0, 0.0), (1.0, 0.0),
    (1.0, 0.0), (1.0, 0.0), (1.0, 0.0), (1.0, 0.0), (1.0, 0.0), (1.0, 0.0),
    (1.0, 1.0), (1.0, 1.0), (1.0, 0.0), (1.0, 0.0), (1.0, 1.0), (1.0, 1.0)
  ]

  /** The tower has 8 sides. */
  const TowerSides: nat := 8

  /** Distinct (ring, side, axis) triples have distinct vertex-array slots: no slot is written
      twice. */
  lemma VertexSlotsDistinct(n: nat, k: nat, i: nat, c: nat, k': nat, i': nat, c': nat)
    requires i < n && c < 3 && i' < n && c' < 3
    requires VertexSlot(n, k, i, c) == VertexSlot(n, k', i', c')
    ensures k == k' && i == i' && c == c'
  {
    VertexSlotDecode(n, k, i, c);
    VertexSlotDecode(n, k', i', c');
  }

  /** With at most 65536 vertices every stored index fits a Uint16Array unchanged. */
  lemma TowerIndicesFitUint16(n: nat, rings: nat, j: nat)
    requires n >= 3 && rings >= 4 && rings * n <= MaxIndex(UnsignedShort) + 1
    ensures ToUint16(IndexAt(n, rings, j)) == IndexAt(n, rings, j)
  {
    IndexBelowVertexCount(n, rings, j);
  }

  /** `new Uint16Array(list)`: every entry converted modulo 2^16. */
  function Uint16Array(s: seq<int>): (r: seq<int>)
    ensures |r| == |s|
    ensures forall i :: 0 <= i < |s| ==> r[i] == ToUint16(s[i])
    ensures AllBelow(s, MaxIndex(UnsignedShort) + 1) ==> r == s
  {
    seq(|s|, i requires 0 <= i < |s| => ToUint16(s[i]))
  }

  /** createGeometryTower: a triangle geometry over the 26-ring, 8-side tower with a 16-bit
      element buffer. The count handed over is the whole index array, 616 entries: the 576
      written indices, which all name one of the 208 vertices, and a tail of zeros; 616 is not a
      multiple of 3. */
  method CreateGeometryTower() returns (g: GeometryBuffers)
    ensures g.topology == Triangles && g.elements.Some?
    ensures g.attributes == [Attribute("a_Position", 624), Attribute("a_Normal", 624)]
    ensures var e := g.elements.value;
      && e.indexType == UnsignedShort
      && e.count == |e.indices| == 616 && e.count % Arity(Triangles) == 1
      && AllBelow(e.indices, |YProfile| * TowerSides)
      && (forall j :: 0 <= j < |e.indices| ==> e.indices[j] == IndexAt(TowerSides, |YProfile|, j))
      && (forall j :: WrittenIndexCount(TowerSides, |YProfile|) <= j < |e.indices| ==> e.indices[j] == 0)
    ensures WrittenIndexCount(TowerSides, |YProfile|) == 576
  {
    var vxs, nms, idxs := CreateTower(TowerSides, YProfile, YNormals);
    var indices := idxs[..];
    forall j | 0 <= j < |indices|
      ensures indices[j] == IndexAt(TowerSides, |YProfile|, j) < |YProfile| * TowerSides
      ensures 0 <= indices[j] <= MaxIndex(UnsignedShort)
      ensures j >= WrittenIndexCount(TowerSides, |YProfile|) ==> indices[j] == 0
    {
      TowerIndicesFitUint16(TowerSides, |YProfile|, j);
      IndexBelowVertexCount(TowerSides, |YProfile|, j);
      IndexWrittenPrefix(TowerSides, |YProfile|, j);
    }
    g := GeometryBuffers(
      Triangles,
      [Attribute("a_Position", vxs.Length), Attribute("a_Normal", nms.Length)],
      Some(Elements(Uint16Array(indices), UnsignedShort, idxs.Length)));
  }
}
