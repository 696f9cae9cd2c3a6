/** The slot layout of the tower's vertex, normal and index arrays (js/geometry_tower.js): where
    create_tower writes each vertex coordinate and each triangle index, and which value lands in
    each index slot. */
module TowerLayout {

  // ---------------------------------------------------------------------------------------
  // Arithmetic helpers
  // ---------------------------------------------------------------------------------------

  lemma {:induction false} MulAtLeast(m: int, d: int)
    requires m >= 1 && d > 0
    ensures m * d >= d
  {
    if m > 1 {
      MulAtLeast(m - 1, d);
      assert m * d == (m - 1) * d + d;
    }
  }

  /** Euclidean division is determined by quotient and remainder. */
  lemma DivModUnique(x: int, d: int, q: int, r: int)
    requires d > 0 && 0 <= r < d && x == q * d + r
    ensures x / d == q && x % d == r
  {
    var q', r' := x / d, x % d;
    assert x == q' * d + r';
    if q' < q {
      MulAtLeast(q - q', d);
    } else if q < q' {
      MulAtLeast(q' - q, d);
    }
  }

  lemma DivNonneg(x: int, d: int)
    requires x >= 0 && d > 0
    ensures x / d >= 0 && 0 <= x % d < d
  {
  }

  lemma MulMonotone(d: int, a: int, b: int)
    requires d > 0 && a <= b
    ensures a * d <= b * d
  {
    if a < b {
      MulAtLeast(b - a, d);
      assert b * d == a * d + (b - a) * d;
    }
  }

  /** The next side index around the ring, wrapping the last side back to side 0. */
  function Next(n: nat, i: nat): (r: nat)
    requires i < n
    ensures r < n
    ensures r == if i + 1 == n then 0 else i + 1
    ensures r == (i + 1) % n
  {
    if i + 1 == n then DivModUnique(i + 1, n, 1, 0); 0
    else DivModUnique(i + 1, n, 0, i + 1); (i + 1) % n
  }

  // ---------------------------------------------------------------------------------------
  // Vertex and normal arrays: vertex (ring k, side i) is stored at 3 * (k * n + i)
  // ---------------------------------------------------------------------------------------

  /** Slot of component `c` of the vertex of ring `k`, side `i`, for `n` sides. */
  function VertexSlot(n: nat, k: nat, i: nat, c: nat): nat
  {
    3 * (k * n + i) + c
  }

  function SlotRing(n: nat, j: nat): nat
    requires n > 0
  {
    (j / 3) / n
  }

  function SlotSide(n: nat, j: nat): nat
    requires n > 0
  {
    (j / 3) % n
  }

  function SlotAxis(j: nat): nat
  {
    j % 3
  }

  /** Decoding the slot of (k, i, c) gives back (k, i, c): distinct vertex components never
      share a slot. */
  lemma VertexSlotDecode(n: nat, k: nat, i: nat, c: nat)
    requires i < n && c < 3
    ensures SlotRing(n, VertexSlot(n, k, i, c)) == k
    ensures SlotSide(n, VertexSlot(n, k, i, c)) == i
    ensures SlotAxis(VertexSlot(n, k, i, c)) == c
  {
    var j := VertexSlot(n, k, i, c);
    DivModUnique(j, 3, k * n + i, c);
    DivModUnique(k * n + i, n, k, i);
  }

  /** Every slot of an array of 3 * n * rings numbers is the slot of exactly the component its
      decoding names, and that component lies inside the ring/side grid. */
  lemma VertexSlotEncode(n: nat, rings: nat, j: nat)
    requires n > 0 && j < 3 * (rings * n)
    ensures SlotRing(n, j) < rings && SlotSide(n, j) < n && SlotAxis(j) < 3
    ensures VertexSlot(n, SlotRing(n, j), SlotSide(n, j), SlotAxis(j)) == j
  {
    var v := j / 3;
    assert j == 3 * v + j % 3;
    assert v == (v / n) * n + v % n;
    if rings <= v / n {
      MulMonotone(n, rings, v / n);
    }
  }

  /** Every vertex of the grid has its components inside the array. */
  lemma VertexSlotInBounds(n: nat, rings: nat, k: nat, i: nat, c: nat)
    requires k < rings && i < n && c < 3
    ensures VertexSlot(n, k, i, c) < 3 * (rings * n)
  {
    MulMonotone(n, k + 1, rings);
  }

  // ---------------------------------------------------------------------------------------
  // Index array: blocks of 6 * n slots. Block 0 holds the bottom fan (first 3 * n slots) and
  // the top fan; block b >= 1 holds the side quads between rings 2b and 2b + 1.
  // ---------------------------------------------------------------------------------------

  /** Length of the tower's index array, `(3 * n_rings - 1) * n_sides`. */
  function IndexArrayLength(n: nat, rings: nat): nat
    requires rings >= 1
  {
    (3 * rings - 1) * n
  }

  /** Slot of entry `c` (0..5) of side `s` in block `b`. */
  function IndexSlot(n: nat, b: nat, s: nat, c: nat): nat
  {
    if b == 0 then (if c < 3 then 3 * s + c else 3 * n + 3 * s + (c - 3))
    else 6 * n * b + 6 * s + c
  }

  function IndexBlock(n: nat, j: nat): nat
    requires n > 0
  {
    DivNonneg(j, 6 * n);
    j / (6 * n)
  }

  function IndexSide(n: nat, j: nat): nat
    requires n > 0
  {
    DivNonneg(j, 6 * n);
    var q := j % (6 * n);
    if j / (6 * n) == 0 then (if q < 3 * n then q / 3 else (q - 3 * n) / 3) else q / 6
  }

  function IndexSubslot(n: nat, j: nat): nat
    requires n > 0
  {
    DivNonneg(j, 6 * n);
    var q := j % (6 * n);
    if j / (6 * n) == 0 then (if q < 3 * n then q % 3 else 3 + (q - 3 * n) % 3) else q % 6
  }

  lemma IndexSlotDecode(n: nat, b: nat, s: nat, c: nat)
    requires 0 < n && s < n && c < 6
    ensures IndexBlock(n, IndexSlot(n, b, s, c)) == b
    ensures IndexSide(n, IndexSlot(n, b, s, c)) == s
    ensures IndexSubslot(n, IndexSlot(n, b, s, c)) == c
  {
    var j := IndexSlot(n, b, s, c);
    if b == 0 {
      DivModUnique(j, 6 * n, 0, j);
      if c < 3 {
        DivModUnique(j, 3, s, c);
      } else {
        DivModUnique(j - 3 * n, 3, s, c - 3);
      }
    } else {
      DivModUnique(j, 6 * n, b, 6 * s + c);
      DivModUnique(6 * s + c, 6, s, c);
    }
  }

  lemma IndexSlotEncode(n: nat, j: nat)
    requires n > 0
    ensures IndexSide(n, j) < n && IndexSubslot(n, j) < 6
    ensures IndexSlot(n, IndexBlock(n, j), IndexSide(n, j), IndexSubslot(n, j)) == j
  {
    var b, q := j / (6 * n), j % (6 * n);
    assert j == b * (6 * n) + q;
    if b != 0 {
      assert 6 * n * b == b * (6 * n);
    }
  }

  /** A slot of the index array lies in block `b` of the array only if block `b` fits. */
  lemma IndexSlotInBounds(n: nat, rings: nat, b: nat, s: nat, c: nat)
    requires rings >= 4 && 0 < n && s < n && c < 6 && 2 * b < rings - 2
    ensures IndexSlot(n, b, s, c) < IndexArrayLength(n, rings)
  {
    var j := IndexSlot(n, b, s, c);
    var top := 2 * b + 2;
    assert top <= rings - 1;
    assert j < 6 * n * b + 6 * n;
    assert 6 * n * b + 6 * n == top * (3 * n);
    MulMonotone(3 * n, top, rings - 1);
    assert (rings - 1) * (3 * n) < (3 * rings - 1) * n;
  }

  /** Bottom fan triangle i: (ring 0 vertex i, ring 1 vertex i, ring 1 vertex i+1). */
  function BottomFan(n: nat, i: nat, c: nat): nat
    requires i < n
  {
    if c == 0 then i else if c == 1 then n + i else n + Next(n, i)
  }

  /** Top fan triangle i: (ring R-2 vertex i+1, ring R-2 vertex i, apex). */
  function TopFan(n: nat, rings: nat, i: nat, c: nat): nat
    requires i < n && rings >= 2
  {
    if c == 0 then (rings - 2) * n + Next(n, i)
    else if c == 1 then (rings - 2) * n + i
    else (rings - 1) * n
  }

  /** The two triangles (idx0, idx1, idx2), (idx0, idx2, idx3) of the quad between rings k
      and k + 1 at side i. */
  function SideQuad(n: nat, k: nat, i: nat, c: nat): nat
    requires i < n
  {
    var idx0 := k * n + i;
    var idx1 := (k + 1) * n + i;
    var idx2 := (k + 1) * n + Next(n, i);
    var idx3 := k * n + Next(n, i);
    if c == 0 || c == 3 then idx0
    else if c == 1 then idx1
    else if c == 2 || c == 4 then idx2
    else idx3
  }

  /** The value entry (b, s, c) of the index array receives: 0 for the blocks the generator
      never writes. */
  function IndexValue(n: nat, rings: nat, b: nat, s: nat, c: nat): nat
    requires s < n && rings >= 2
  {
    if b == 0 then (if c < 3 then BottomFan(n, s, c) else TopFan(n, rings, s, c - 3))
    else if 2 * b < rings - 2 then SideQuad(n, 2 * b, s, c)
    else 0
  }

  /** The value create_tower leaves in slot `j` of the index array, before conversion to 16
      bits. */
  function IndexAt(n: nat, rings: nat, j: nat): nat
    requires n > 0 && rings >= 2
  {
    IndexSlotEncode(n, j);
    IndexValue(n, rings, IndexBlock(n, j), IndexSide(n, j), IndexSubslot(n, j))
  }

  /** Number of leading index slots the generator writes: blocks 0 .. (rings - 3) / 2. */
  function WrittenIndexCount(n: nat, rings: nat): nat
    requires rings >= 3
  {
    6 * n * ((rings - 3) / 2 + 1)
  }

  // ---------------------------------------------------------------------------------------
  // Properties of the index layout
  // ---------------------------------------------------------------------------------------

  /** Every index the generator stores names an existing vertex: it is below
      n_vertices = n_rings * n_sides. */
  lemma IndexBelowVertexCount(n: nat, rings: nat, j: nat)
    requires n >= 3 && rings >= 4
    ensures IndexAt(n, rings, j) < rings * n
  {
    IndexSlotEncode(n, j);
    var b, s, c := IndexBlock(n, j), IndexSide(n, j), IndexSubslot(n, j);
    var nx := Next(n, s);
    if b == 0 {
      if c < 3 {
        MulMonotone(n, 2, rings);
      } else {
        assert (rings - 2) * n + n == (rings - 1) * n;
        assert (rings - 1) * n + n == rings * n;
      }
    } else if 2 * b < rings - 2 {
      var k := 2 * b;
      assert (k + 1) * n + n == (k + 2) * n;
      MulMonotone(n, k + 2, rings);
    }
  }

  /** The written prefix fits in the index array. */
  lemma WrittenIndexCountFits(n: nat, rings: nat)
    requires n >= 3 && rings >= 4
    ensures WrittenIndexCount(n, rings) <= IndexArrayLength(n, rings)
  {
    var m := (rings - 3) / 2 + 1;
    assert WrittenIndexCount(n, rings) == m * (6 * n);
    assert m * (6 * n) == (2 * m) * (3 * n);
    MulMonotone(3 * n, 2 * m, rings - 1);
    assert (rings - 1) * (3 * n) < (3 * rings - 1) * n;
  }

  /** A slot lies in the written prefix iff its block is 0 or a block of the quad loop. */
  lemma WrittenBlocks(n: nat, rings: nat, j: nat)
    requires n >= 3 && rings >= 4
    ensures j < WrittenIndexCount(n, rings) <==> (IndexBlock(n, j) == 0 || 2 * IndexBlock(n, j) < rings - 2)
  {
    var m := (rings - 3) / 2 + 1;
    assert WrittenIndexCount(n, rings) == m * (6 * n);
    var b := IndexBlock(n, j);
    DivNonneg(j, 6 * n);
    assert j == b * (6 * n) + j % (6 * n);
    assert b < m <==> (b == 0 || 2 * b < rings - 2);
    if b < m {
      MulMonotone(6 * n, b + 1, m);
    } else {
      MulMonotone(6 * n, m, b);
    }
  }

  /** The written slots are exactly the leading WrittenIndexCount slots: every later slot keeps
      the value 0, and the written prefix fits in the array. */
  lemma IndexWrittenPrefix(n: nat, rings: nat, j: nat)
    requires n >= 3 && rings >= 4
    ensures WrittenIndexCount(n, rings) <= IndexArrayLength(n, rings)
    ensures j < WrittenIndexCount(n, rings) <==> (IndexBlock(n, j) == 0 || 2 * IndexBlock(n, j) < rings - 2)
    ensures j >= WrittenIndexCount(n, rings) ==> IndexAt(n, rings, j) == 0
  {
    WrittenIndexCountFits(n, rings);
    WrittenBlocks(n, rings, j);
  }

  /** With an even number of rings the written prefix is 3 * n_sides * (n_rings - 2) slots. */
  lemma WrittenIndexCountEven(n: nat, rings: nat)
    requires rings >= 4 && rings % 2 == 0
    ensures WrittenIndexCount(n, rings) == 3 * n * (rings - 2)
  {
    assert (rings - 3) / 2 + 1 == (rings - 2) / 2;
    assert 6 * n * ((rings - 2) / 2) == 3 * n * (2 * ((rings - 2) / 2));
  }

  /** Bottom fan: triangle i sits at slots 3i .. 3i+2 and is
      (i, n_sides + i, n_sides + (i + 1) % n_sides). */
  lemma BottomFanAt(n: nat, rings: nat, i: nat, c: nat)
    requires rings >= 4 && i < n && c < 3
    ensures IndexAt(n, rings, 3 * i + c) == BottomFan(n, i, c)
  {
    assert IndexSlot(n, 0, i, c) == 3 * i + c;
    IndexSlotDecode(n, 0, i, c);
  }

  /** Top fan: triangle i sits at slots 3 n_sides + 3i .. and ends at the single apex index
      (n_rings - 1) * n_sides. */
  lemma TopFanAt(n: nat, rings: nat, i: nat, c: nat)
    requires rings >= 4 && i < n && c < 3
    ensures IndexAt(n, rings, 3 * n + 3 * i + c) == TopFan(n, rings, i, c)
    ensures IndexAt(n, rings, 3 * n + 3 * i + 2) == (rings - 1) * n
  {
    assert IndexSlot(n, 0, i, c + 3) == 3 * n + 3 * i + c;
    IndexSlotDecode(n, 0, i, c + 3);
    assert IndexSlot(n, 0, i, 5) == 3 * n + 3 * i + 2;
    IndexSlotDecode(n, 0, i, 5);
  }

  /** Side quads: for even k with 2 <= k < n_rings - 2 the quad between rings k and k + 1 at
      side i is stored at slot k * 3 n_sides + 6i as the triangles (idx0, idx1, idx2) and
      (idx0, idx2, idx3), which share the diagonal idx0-idx2. */
  lemma SideQuadAt(n: nat, rings: nat, k: nat, i: nat, c: nat)
    requires rings >= 4 && i < n && c < 6 && k % 2 == 0 && 2 <= k < rings - 2
    ensures IndexAt(n, rings, k * (3 * n) + 6 * i + c) == SideQuad(n, k, i, c)
    ensures SideQuad(n, k, i, 0) == SideQuad(n, k, i, 3)
    ensures SideQuad(n, k, i, 2) == SideQuad(n, k, i, 4)
  {
    assert k * (3 * n) == 6 * n * (k / 2);
    IndexSlotDecode(n, k / 2, i, c);
  }

  /** The three corners of each triangle the generator writes are distinct vertices. */
  lemma TriangleCornersDistinct(n: nat, rings: nat, b: nat, s: nat, h: nat)
    requires n >= 3 && rings >= 4 && s < n && h < 2 && (b == 0 || 2 * b < rings - 2)
    ensures IndexValue(n, rings, b, s, 3 * h) != IndexValue(n, rings, b, s, 3 * h + 1)
    ensures IndexValue(n, rings, b, s, 3 * h + 1) != IndexValue(n, rings, b, s, 3 * h + 2)
    ensures IndexValue(n, rings, b, s, 3 * h) != IndexValue(n, rings, b, s, 3 * h + 2)
  {
    var nx := Next(n, s);
    if b == 0 && h == 1 {
      assert (rings - 2) * n + n == (rings - 1) * n;
    } else if b != 0 {
      assert (2 * b + 1) * n == 2 * b * n + n;
    }
  }

  /** Triangle h (0 or 1) of side s in block b occupies three consecutive slots starting at a
      multiple of 3. */
  lemma TriangleSlots(n: nat, b: nat, s: nat, h: nat)
    requires n > 0 && s < n && h < 2
    ensures IndexSlot(n, b, s, 3 * h) % 3 == 0
    ensures IndexSlot(n, b, s, 3 * h + 1) == IndexSlot(n, b, s, 3 * h) + 1
    ensures IndexSlot(n, b, s, 3 * h + 2) == IndexSlot(n, b, s, 3 * h) + 2
  {
    var j := IndexSlot(n, b, s, 3 * h);
    if b == 0 {
      assert j == 3 * (h * n + s);
      DivModUnique(j, 3, h * n + s, 0);
    } else {
      assert j == 3 * (2 * n * b + 2 * s + h);
      DivModUnique(j, 3, 2 * n * b + 2 * s + h, 0);
    }
  }

  /** Every stored triangle of the written prefix has three distinct corners. */
  lemma WrittenTriangleNondegenerate(n: nat, rings: nat, b: nat, s: nat, h: nat)
    requires n >= 3 && rings >= 4 && s < n && h < 2 && (b == 0 || 2 * b < rings - 2)
    ensures var j := IndexSlot(n, b, s, 3 * h);
      && IndexAt(n, rings, j) != IndexAt(n, rings, j + 1)
      && IndexAt(n, rings, j + 1) != IndexAt(n, rings, j + 2)
      && IndexAt(n, rings, j) != IndexAt(n, rings, j + 2)
  {
    var j := IndexSlot(n, b, s, 3 * h);
    TriangleSlots(n, b, s, h);
    IndexSlotDecode(n, b, s, 3 * h);
    IndexSlotDecode(n, b, s, 3 * h + 1);
    IndexSlotDecode(n, b, s, 3 * h + 2);
    TriangleCornersDistinct(n, rings, b, s, h);
  }
}
