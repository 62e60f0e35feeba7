/** The index half of Renderer3D::InitSphereGeometry
    (src/Renderer/Renderer3D.cpp): the unit sphere is a grid of
    (XSegments + 1) x (YSegments + 1) vertices drawn as one triangle strip, two
    indices per column and row, snaking left to right on even rows and right to
    left on odd rows. The vertex positions, normals and tangents are floating
    point and not part of this model. */
module SphereGeometry {
  const XSegments: nat := 64
  const YSegments: nat := 64
  /** Vertices per grid row. */
  const RowWidth: nat := XSegments + 1
  const VertexCount: nat := (XSegments + 1) * (YSegments + 1)
  /** Indices per strip row, and the size of the index buffer. */
  const RowLength: nat := 2 * (XSegments + 1)
  const IndexCount: nat := YSegments * 2 * (XSegments + 1)

  /** The i-th column pair of row y: the vertex above it on this row and the one
      on the next row, in the order the row's direction needs. Even rows walk x
      upwards and put row y first; odd rows walk x downwards and put row y + 1
      first. */
  function Pair(y: nat, i: nat): seq<int>
  {
    if y % 2 == 0 then [y * RowWidth + i, (y + 1) * RowWidth + i]
    else [(y + 1) * RowWidth + (XSegments - i), y * RowWidth + (XSegments - i)]
  }

  /** The first `n` column pairs of row y. */
  function RowStrip(y: nat, n: nat): (r: seq<int>)
    ensures |r| == 2 * n
  {
    if n == 0 then [] else RowStrip(y, n - 1) + Pair(y, n - 1)
  }

  /** The whole strip of the first `rows` rows. */
  function Strip(rows: nat): (r: seq<int>)
    ensures |r| == rows * RowLength
  {
    if rows == 0 then [] else Strip(rows - 1) + RowStrip(rows - 1, XSegments + 1)
  }

  /** Independent closed form of entry k of the strip: row k / RowLength, pair
      (k % RowLength) / 2 within the row, and which of its two vertices. */
  function StripIndexAt(k: nat): int
  {
    var y := k / RowLength;
    var i := (k % RowLength) / 2;
    var second := (k % RowLength) % 2 == 1;
    var x := if y % 2 == 0 then i else XSegments - i;
    var upperFirst := y % 2 == 0;
    if upperFirst != second then y * RowWidth + x else (y + 1) * RowWidth + x
  }

  /** The index loop: fills `indices` in place, advancing the write position k
      two entries per column. */
  method BuildSphereIndices() returns (indices: array<int>, k: nat)
    ensures fresh(indices)
    ensures indices.Length == IndexCount && k == IndexCount
    ensures indices[..] == Strip(YSegments)
  {
    indices := new int[YSegments * 2 * (XSegments + 1)];
    k := 0;
    var oddRow := false;
    for y := 0 to YSegments
      invariant k == y * RowLength
      invariant oddRow == (y % 2 == 1)
      invariant indices[..k] == Strip(y)
    {
      ghost var before := indices[..k];
      if !oddRow {
        k := WriteEvenRow(indices, y, k);
      } else {
        k := WriteOddRow(indices, y, k);
      }
      assert indices[..k] == before + RowStrip(y, XSegments + 1) == Strip(y + 1);
      oddRow := !oddRow;
    }
    assert indices[..] == indices[..k];
  }

  /** An even row: columns left to right, row y before row y + 1. */
  method WriteEvenRow(indices: array<int>, y: nat, k0: nat) returns (k: nat)
    requires y % 2 == 0 && k0 + RowLength <= indices.Length
    modifies indices
    ensures k == k0 + RowLength
    ensures indices[..k] == old(indices[..k0]) + RowStrip(y, XSegments + 1)
  {
    k := k0;
    for x := 0 to XSegments + 1
      invariant k == k0 + 2 * x
      invariant indices[..k] == old(indices[..k0]) + RowStrip(y, x)
    {
      indices[k] := y * (XSegments + 1) + x;
      indices[k + 1] := (y + 1) * (XSegments + 1) + x;
      assert indices[..k + 2] == indices[..k] + Pair(y, x);
      k := k + 2;
    }
  }

  /** An odd row: columns right to left, row y + 1 before row y. */
  method WriteOddRow(indices: array<int>, y: nat, k0: nat) returns (k: nat)
    requires y % 2 == 1 && k0 + RowLength <= indices.Length
    modifies indices
    ensures k == k0 + RowLength
    ensures indices[..k] == old(indices[..k0]) + RowStrip(y, XSegments + 1)
  {
    k := k0;
    var x: int := XSegments;
    while x >= 0
      invariant -1 <= x <= XSegments
      invariant k == k0 + 2 * (XSegments - x)
      invariant indices[..k] == old(indices[..k0]) + RowStrip(y, XSegments - x)
    {
      indices[k] := (y + 1) * (XSegments + 1) + x;
      indices[k + 1] := y * (XSegments + 1) + x;
      assert indices[..k + 2] == indices[..k] + Pair(y, XSegments - x);
      k := k + 2;
      x := x - 1;
    }
  }

  /** The closed form at offset j of row y picks pair j / 2 of that row. */
  lemma StripIndexAtRow(y: nat, j: nat)
    requires j < RowLength
    ensures StripIndexAt(y * RowLength + j) == Pair(y, j / 2)[j % 2]
  {
    var k := y * RowLength + j;
    assert k / RowLength == y && k % RowLength == j;
  }

  /** Entry j of a row agrees with the closed form for row y. */
  lemma {:induction false} RowStripAt(y: nat, n: nat, j: nat)
    requires n <= XSegments + 1 && j < 2 * n
    ensures RowStrip(y, n)[j] == StripIndexAt(y * RowLength + j)
    decreases n
  {
    if j < 2 * (n - 1) {
      RowStripAt(y, n - 1, j);
    } else {
      StripIndexAtRow(y, j);
      assert RowStrip(y, n)[j] == Pair(y, n - 1)[j - 2 * (n - 1)];
    }
  }

  /** The strip is its closed form, entry by entry. */
  lemma {:induction false} StripMatchesClosedForm(rows: nat, k: nat)
    requires k < rows * RowLength
    ensures Strip(rows)[k] == StripIndexAt(k)
    decreases rows
  {
    if k < (rows - 1) * RowLength {
      StripMatchesClosedForm(rows - 1, k);
    } else {
      RowStripAt(rows - 1, XSegments + 1, k - (rows - 1) * RowLength);
    }
  }

  /** Every entry of a row names a vertex of row y or row y + 1, in column order
      for the row's direction. */
  lemma {:induction false} RowStripVertices(y: nat, n: nat)
    requires n <= XSegments + 1
    ensures forall j :: 0 <= j < 2 * n ==> y * RowWidth <= RowStrip(y, n)[j] < (y + 2) * RowWidth
    decreases n
  {
    if n > 0 {
      RowStripVertices(y, n - 1);
      var r := RowStrip(y, n);
      forall j | 0 <= j < 2 * n ensures y * RowWidth <= r[j] < (y + 2) * RowWidth {
        if j < 2 * (n - 1) {
          assert r[j] == RowStrip(y, n - 1)[j];
        }
      }
    }
  }

  /** Every index of the strip names one of the sphere's vertices. */
  lemma {:induction false} StripIndicesInRange(rows: nat)
    requires rows <= YSegments
    ensures forall j :: 0 <= j < |Strip(rows)| ==> 0 <= Strip(rows)[j] < VertexCount
    decreases rows
  {
    if rows > 0 {
      StripIndicesInRange(rows - 1);
      RowStripVertices(rows - 1, XSegments + 1);
      assert (rows + 1) * RowWidth <= VertexCount by {
        assert (rows + 1) * RowWidth == (rows + 1) * 65 && VertexCount == 65 * 65;
      }
      var s := Strip(rows);
      forall j | 0 <= j < |s| ensures 0 <= s[j] < VertexCount {
        if j < |Strip(rows - 1)| {
          assert s[j] == Strip(rows - 1)[j];
        } else {
          assert s[j] == RowStrip(rows - 1, XSegments + 1)[j - |Strip(rows - 1)|];
        }
      }
    }
  }

  /** Each column pair joins a vertex with the one directly below it: the two
      differ by exactly one grid row. */
  lemma PairsAreVertical(y: nat, i: nat)
    requires i <= XSegments
    ensures var p := Pair(y, i);
      |p| == 2 && (if y % 2 == 0 then p[1] - p[0] else p[0] - p[1]) == RowWidth
  {
  }
}
