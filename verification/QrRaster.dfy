// The 1-bit raster behind the QR image: one filter byte per row, eight pixels per byte,
// leftmost pixel in the high bit (section 2.3 of RFC 2083), 1 = white.
module QrRaster {

  const QR_SCALE: nat := 6
  const QR_QUIET_MODULES: nat := 4

  type Matrix = seq<seq<bool>>

  function Size(matrix: Matrix): nat {
    (|matrix| + QR_QUIET_MODULES * 2) * QR_SCALE
  }

  function Stride(matrix: Matrix): (s: nat)
    ensures Size(matrix) <= 8 * s < Size(matrix) + 8
  {
    (Size(matrix) + 7) / 8
  }

  // Rows and columns outside the matrix are light, as is a column past a short row.
  predicate DarkModule(matrix: Matrix, my: int, mx: int) {
    0 <= my < |matrix| && 0 <= mx < |matrix[my]| && matrix[my][mx]
  }

  predicate DarkPixel(matrix: Matrix, y: nat, x: nat) {
    DarkModule(matrix, y / QR_SCALE - QR_QUIET_MODULES, x / QR_SCALE - QR_QUIET_MODULES)
  }

  // ---- bits of a byte, leftmost first ----

  predicate HighBit(b: bv8, j: nat)
    requires j < 8
  {
    (b >> (7 - j)) & 1 == 1
  }

  function Cleared(b: bv8, k: nat): bv8
    requires k < 8
  {
    b & !(0x80 >> k)
  }

  function AllBut(k: nat): bv8
    requires k < 8
  {
    if k == 0 then 0x7F else if k == 1 then 0xBF else if k == 2 then 0xDF else if k == 3 then 0xEF
    else if k == 4 then 0xF7 else if k == 5 then 0xFB else if k == 6 then 0xFD else 0xFE
  }

  lemma ClearedMask(b: bv8, k: nat)
    requires k < 8
    ensures Cleared(b, k) == b & AllBut(k)
  {
  }

  lemma MaskedLow(b: bv8, k: nat)
    requires k < 8
    ensures HighBit(b & AllBut(k), 0) == (k != 0 && HighBit(b, 0))
            && HighBit(b & AllBut(k), 1) == (k != 1 && HighBit(b, 1))
    ensures HighBit(b & AllBut(k), 2) == (k != 2 && HighBit(b, 2))
            && HighBit(b & AllBut(k), 3) == (k != 3 && HighBit(b, 3))
  {
  }

  lemma MaskedHigh(b: bv8, k: nat)
    requires k < 8
    ensures HighBit(b & AllBut(k), 4) == (k != 4 && HighBit(b, 4))
            && HighBit(b & AllBut(k), 5) == (k != 5 && HighBit(b, 5))
    ensures HighBit(b & AllBut(k), 6) == (k != 6 && HighBit(b, 6))
            && HighBit(b & AllBut(k), 7) == (k != 7 && HighBit(b, 7))
  {
  }

  lemma ClearedBit(b: bv8, k: nat, j: nat)
    requires k < 8 && j < 8
    ensures HighBit(Cleared(b, k), j) == (j != k && HighBit(b, j))
  {
    hide HighBit, Cleared, AllBut;
    ClearedMask(b, k);
    if j < 4 {
      MaskedLow(b, k);
    } else {
      MaskedHigh(b, k);
    }
  }

  lemma WhiteBits(j: nat)
    requires j < 8
    ensures HighBit(0xFF, j)
  {
  }

  // ---- one row ----

  // Pixel x of the row that starts at `row`: true = white.
  predicate White(raw: seq<bv8>, row: nat, x: nat)
    requires row + 1 + x / 8 < |raw|
  {
    HighBit(raw[row + 1 + x / 8], x % 8)
  }

  // The row is filter type 0, paints exactly the dark pixels of y, and leaves padding white.
  ghost predicate RowOk(raw: seq<bv8>, row: nat, matrix: Matrix, y: nat) {
    && row + 1 + Stride(matrix) <= |raw|
    && raw[row] == 0
    && forall x :: 0 <= x < 8 * Stride(matrix) ==> White(raw, row, x) == !(x < Size(matrix) && DarkPixel(matrix, y, x))
  }

  ghost predicate Blank(raw: seq<bv8>, from: nat) {
    forall i :: from <= i < |raw| ==> raw[i] == 0xFF
  }

  ghost predicate Painted(raw: seq<bv8>, row: nat, matrix: Matrix, y: nat, n: nat)
    requires row + 1 + Stride(matrix) <= |raw|
  {
    forall x :: 0 <= x < 8 * Stride(matrix) ==> White(raw, row, x) == !(x < n && DarkPixel(matrix, y, x))
  }

  lemma PaintStep(raw: seq<bv8>, row: nat, matrix: Matrix, y: nat, n: nat)
    requires row + 1 + Stride(matrix) <= |raw| && n < Size(matrix) && Painted(raw, row, matrix, y, n)
    ensures n / 8 < Stride(matrix)
    ensures var at := row + 1 + n / 8;
            Painted(if DarkPixel(matrix, y, n) then raw[at := Cleared(raw[at], n % 8)] else raw, row, matrix, y, n + 1)
  {
    var at := row + 1 + n / 8;
    hide HighBit, Cleared, DarkPixel;
    if DarkPixel(matrix, y, n) {
      var next := raw[at := Cleared(raw[at], n % 8)];
      forall x | 0 <= x < 8 * Stride(matrix) ensures White(next, row, x) == !(x < n + 1 && DarkPixel(matrix, y, x)) {
        assert White(raw, row, x) == !(x < n && DarkPixel(matrix, y, x));
        if x / 8 == n / 8 {
          ClearedBit(raw[at], n % 8, x % 8);
        }
      }
    }
  }

  method PaintRow(raw: array<bv8>, row: nat, matrix: Matrix, y: nat)
    requires row + 1 + Stride(matrix) <= raw.Length && Blank(raw[..], row)
    modifies raw
    ensures RowOk(raw[..], row, matrix, y)
    ensures forall i :: 0 <= i < raw.Length && !(row <= i < row + 1 + Stride(matrix)) ==> raw[i] == old(raw[i])
  {
    raw[row] := 0;
    var my := y / QR_SCALE - QR_QUIET_MODULES;
    StartWhite(raw[..], row, matrix, y);
    hide HighBit, Cleared, Painted;
    for x := 0 to Size(matrix)
      invariant raw[row] == 0
      invariant Painted(raw[..], row, matrix, y, x)
      invariant forall i :: 0 <= i < raw.Length && !(row <= i < row + 1 + Stride(matrix)) ==> raw[i] == old(raw[i])
    {
      PaintStep(raw[..], row, matrix, y, x);
      var mx := x / QR_SCALE - QR_QUIET_MODULES;
      if DarkModule(matrix, my, mx) {
        ghost var before := raw[..];
        raw[row + 1 + x / 8] := Cleared(raw[row + 1 + x / 8], x % 8);
        assert raw[..] == before[row + 1 + x / 8 := Cleared(before[row + 1 + x / 8], x % 8)];
      }
    }
    PaintedRow(raw[..], row, matrix, y);
  }

  lemma StartWhite(raw: seq<bv8>, row: nat, matrix: Matrix, y: nat)
    requires row + 1 + Stride(matrix) <= |raw| && Blank(raw, row + 1)
    ensures Painted(raw, row, matrix, y, 0)
  {
    forall x | 0 <= x < 8 * Stride(matrix) ensures White(raw, row, x) {
      WhiteBits(x % 8);
    }
  }

  lemma PaintedRow(raw: seq<bv8>, row: nat, matrix: Matrix, y: nat)
    requires row + 1 + Stride(matrix) <= |raw| && raw[row] == 0 && Painted(raw, row, matrix, y, Size(matrix))
    ensures RowOk(raw, row, matrix, y)
  {
    hide White;
  }

  // ---- the whole buffer ----

  function RowStart(matrix: Matrix, y: nat): nat {
    y * (Stride(matrix) + 1)
  }

  ghost predicate RasterOk(raw: seq<bv8>, matrix: Matrix) {
    && |raw| == RowStart(matrix, Size(matrix))
    && forall y :: 0 <= y < Size(matrix) ==> RowOk(raw, RowStart(matrix, y), matrix, y)
  }

  lemma RowsApart(matrix: Matrix, a: nat, b: nat)
    requires a < b
    ensures RowStart(matrix, a) + Stride(matrix) + 1 <= RowStart(matrix, b)
    ensures RowStart(matrix, a + 1) == RowStart(matrix, a) + Stride(matrix) + 1
  {
    MulGap(a, b, Stride(matrix) + 1);
  }

  lemma MulStep(a: nat, s: nat)
    ensures (a + 1) * s == a * s + s
  {
  }

  lemma {:induction false} MulGap(a: nat, b: nat, s: nat)
    requires a < b
    ensures a * s + s <= b * s && (a + 1) * s == a * s + s
  {
    MulStep(a, s);
    if b > a + 1 {
      MulGap(a, b - 1, s);
      MulStep(b - 1, s);
    }
  }

  lemma RowKept(raw: seq<bv8>, next: seq<bv8>, row: nat, matrix: Matrix, y: nat)
    requires RowOk(raw, row, matrix, y) && |raw| == |next|
    requires forall i :: row <= i < row + 1 + Stride(matrix) ==> next[i] == raw[i]
    ensures RowOk(next, row, matrix, y)
  {
    hide HighBit, DarkPixel;
    forall x | 0 <= x < 8 * Stride(matrix) ensures White(next, row, x) == White(raw, row, x) {
      assert row + 1 + x / 8 < row + 1 + Stride(matrix);
    }
  }

  // Every pixel, filter byte and padding bit of the buffer handed to the compressor.
  method Raster(matrix: Matrix) returns (raw: array<bv8>)
    ensures fresh(raw) && RasterOk(raw[..], matrix)
  {
    var size := Size(matrix);
    var stride := Stride(matrix);
    raw := new bv8[(stride + 1) * size](_ => 0xFF);
    assert raw.Length == RowStart(matrix, size);
    for y := 0 to size
      invariant forall p :: 0 <= p < y ==> RowOk(raw[..], RowStart(matrix, p), matrix, p)
      invariant Blank(raw[..], RowStart(matrix, y))
    {
      var row := y * (stride + 1);
      RowsApart(matrix, y, size);
      ghost var before := raw[..];
      hide RowOk;
      PaintRow(raw, row, matrix, y);
      assert row == RowStart(matrix, y) && RowStart(matrix, y + 1) == row + stride + 1;
      hide RowStart;
      forall p | 0 <= p < y ensures RowOk(raw[..], RowStart(matrix, p), matrix, p) {
        RowsApart(matrix, p, y);
        RowKept(before, raw[..], RowStart(matrix, p), matrix, p);
      }
    }
  }

  // ---- modules and pixels ----

  // Module (r, c) is a block of six by six pixels, the first one four modules in from the top and
  // the left.
  lemma ModuleBlock(matrix: Matrix, r: nat, c: nat, i: nat, j: nat)
    requires r < |matrix| && c < |matrix[r]| && i < 6 && j < 6
    ensures DarkPixel(matrix, (r + 4) * 6 + i, (c + 4) * 6 + j) <==> matrix[r][c]
    ensures Size(matrix) == 6 * |matrix| + 48
  {
    assert ((r + 4) * 6 + i) / 6 == r + 4 && ((c + 4) * 6 + j) / 6 == c + 4;
  }

  // ---- the quiet zone ----

  predicate InQuietZone(matrix: Matrix, y: nat, x: nat) {
    var edge := QR_QUIET_MODULES * QR_SCALE;
    y < edge || x < edge || y >= Size(matrix) - edge || x >= Size(matrix) - edge
  }

  // The border is white for every matrix exactly unless a row longer than the matrix is
  // high reaches into the right margin with a dark module.
  lemma QuietZoneIff(matrix: Matrix)
    ensures (forall y, x :: 0 <= y < Size(matrix) && 0 <= x < Size(matrix) && InQuietZone(matrix, y, x) ==>
                            !DarkPixel(matrix, y, x)) <==>
            (forall r, c :: 0 <= r < |matrix| && |matrix| <= c < |matrix| + QR_QUIET_MODULES
                ==> !DarkModule(matrix, r, c))
  {
    if forall r, c :: 0 <= r < |matrix| && |matrix| <= c < |matrix| + QR_QUIET_MODULES ==> !DarkModule(matrix, r, c) {
      forall y, x | 0 <= y < Size(matrix) && 0 <= x < Size(matrix) && InQuietZone(matrix, y, x)
          ensures !DarkPixel(matrix, y, x) {
        var r, c := y / QR_SCALE - QR_QUIET_MODULES, x / QR_SCALE - QR_QUIET_MODULES;
        if 0 <= r < |matrix| && c >= |matrix| {
          assert !DarkModule(matrix, r, c);
        }
      }
    } else {
      var r, c :| 0 <= r < |matrix| && |matrix| <= c < |matrix| + QR_QUIET_MODULES && DarkModule(matrix, r, c);
      var y, x := (r + QR_QUIET_MODULES) * QR_SCALE, (c + QR_QUIET_MODULES) * QR_SCALE;
      assert y / QR_SCALE == r + QR_QUIET_MODULES && x / QR_SCALE == c + QR_QUIET_MODULES;
      assert DarkPixel(matrix, y, x) && InQuietZone(matrix, y, x);
    }
  }

  // It happens for a ragged matrix: one row of two modules, the second one dark.
  lemma RaggedRowShows()
    ensures var matrix := [[false, true]];
            exists y, x :: 0 <= y < Size(matrix) && 0 <= x < Size(matrix) && InQuietZone(matrix, y, x)
                && DarkPixel(matrix, y, x)
  {
    var matrix := [[false, true]];
    assert DarkModule(matrix, 0, 1);
    QuietZoneIff(matrix);
  }

  // It cannot happen for a square one, which is what the QR encoder makes.
  lemma SquareIsClean(matrix: Matrix, y: nat, x: nat)
    requires forall r :: 0 <= r < |matrix| ==> |matrix[r]| == |matrix|
    requires y < Size(matrix) && x < Size(matrix) && InQuietZone(matrix, y, x)
    ensures !DarkPixel(matrix, y, x)
  {
    QuietZoneIff(matrix);
  }
}
