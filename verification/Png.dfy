// The PNG container around the raster: chunk layout (section 3.2 of RFC 2083), and a
// reader of the format that gets the QR image back.
module Png {
  import opened Crc32
  import opened QrRaster

  const LIMIT: int := 0x1_0000_0000

  type Bytes = seq<bv8>

  // ---- 32-bit big-endian fields ----

  function Byte(n: int): bv8
    requires 0 <= n < 256
  {
    n as bv8
  }

  // setUint32 keeps the low 32 bits.
  function Uint32(n: nat): (b: Bytes)
    ensures |b| == 4
  {
    var m := n % LIMIT;
    [Byte(m / 0x100_0000), Byte(m / 0x1_0000 % 0x100), Byte(m / 0x100 % 0x100), Byte(m % 0x100)]
  }

  function ReadUint32(b: Bytes): nat
    requires |b| >= 4
  {
    (b[0] as int) * 0x100_0000 + (b[1] as int) * 0x1_0000 + (b[2] as int) * 0x100 + (b[3] as int)
  }

  function CountedByte(n: nat): (b: bv8)
    requires n < 256
    ensures b as int == n
  {
    if n == 0 then 0 else CountedByte(n - 1) + 1
  }

  lemma WideBack(b: bv8)
    ensures (b as int) as bv8 == b
  {
  }

  lemma NarrowBack(n: int)
    requires 0 <= n < 256
    ensures (n as bv8) as int == n
  {
    WideBack(CountedByte(n));
  }

  lemma DigitsBack(m: nat)
    requires m < LIMIT
    ensures m / 0x100_0000 < 0x100
    ensures (m / 0x100_0000) * 0x100_0000 + (m / 0x1_0000 % 0x100) * 0x1_0000 + (m / 0x100 % 0x100) * 0x100
            + m % 0x100 == m
  {
    var a, b := m / 0x100, m / 0x1_0000;
    assert m == a * 0x100 + m % 0x100;
    assert a / 0x100 == b;
    assert a == b * 0x100 + a % 0x100;
    assert b / 0x100 == m / 0x100_0000;
    assert b == (b / 0x100) * 0x100 + b % 0x100;
  }

  lemma Uint32Back(n: nat, rest: Bytes)
    ensures ReadUint32(Uint32(n) + rest) == n % LIMIT
  {
    var m := n % LIMIT;
    DigitsBack(m);
    NarrowBack(m / 0x100_0000);
    NarrowBack(m / 0x1_0000 % 0x100);
    NarrowBack(m / 0x100 % 0x100);
    NarrowBack(m % 0x100);
    FieldDigits(Uint32(n) + rest, m / 0x100_0000, m / 0x1_0000 % 0x100, m / 0x100 % 0x100, m % 0x100);
  }

  lemma FieldDigits(b: Bytes, d3: nat, d2: nat, d1: nat, d0: nat)
    requires |b| >= 4 && b[0] as int == d3 && b[1] as int == d2 && b[2] as int == d1 && b[3] as int == d0
    ensures ReadUint32(b) == d3 * 0x100_0000 + d2 * 0x1_0000 + d1 * 0x100 + d0
  {
  }

  function CrcField(bytes: Bytes): (b: Bytes)
    ensures |b| == 4
  {
    Uint32(Crc(bytes) as int)
  }

  // ---- chunks ----

  function Chunk(kind: Bytes, data: Bytes): Bytes {
    Uint32(|data|) + kind + data + CrcField(kind + data)
  }

  // `after` is `before` with `bytes` written at `at`.
  ghost predicate Put(before: Bytes, after: Bytes, bytes: Bytes, at: nat) {
    && |after| == |before| && at + |bytes| <= |after|
    && (forall i {:trigger after[i]} :: at <= i < at + |bytes| ==> after[i] == bytes[i - at])
    && (forall i {:trigger after[i]} :: 0 <= i < |after| && !(at <= i < at + |bytes|) ==> after[i] == before[i])
  }

  method PutAt(out: array<bv8>, bytes: Bytes, at: nat)
    requires at + |bytes| <= out.Length
    modifies out
    ensures Put(old(out[..]), out[..], bytes, at)
  {
    for k := 0 to |bytes|
      invariant forall i :: 0 <= i < k ==> out[at + i] == bytes[i]
      invariant forall i :: 0 <= i < out.Length && !(at <= i < at + k) ==> out[i] == old(out[i])
    {
      out[at + k] := bytes[k];
    }
  }

  lemma Placed(before: Bytes, after: Bytes, bytes: Bytes, at: nat)
    requires Put(before, after, bytes, at)
    ensures |after| == |before| && at + |bytes| <= |after| && after[at..at + |bytes|] == bytes
  {
  }

  lemma Kept(before: Bytes, after: Bytes, bytes: Bytes, at: nat, lo: nat, hi: nat)
    requires Put(before, after, bytes, at) && lo <= hi <= |before| && (hi <= at || at + |bytes| <= lo)
    ensures hi <= |after| && after[lo..hi] == before[lo..hi]
  {
  }

  lemma Joined(s: Bytes, lo: nat, mid: nat, hi: nat)
    requires lo <= mid <= hi <= |s|
    ensures s[lo..hi] == s[lo..mid] + s[mid..hi]
  {
  }

  // Length, type and data as they lie in the buffer before the CRC is written.
  lemma BodyLaid(s0: Bytes, s1: Bytes, s2: Bytes, s3: Bytes, len: Bytes, kind: Bytes, data: Bytes)
    requires |s0| == 12 + |data| && |len| == 4 && |kind| == 4
    requires Put(s0, s1, len, 0) && Put(s1, s2, kind, 4) && Put(s2, s3, data, 8)
    ensures |s3| == |s0| && s3[0..4] == len && s3[4..8 + |data|] == kind + data
  {
    Placed(s0, s1, len, 0);
    Placed(s1, s2, kind, 4);
    Placed(s2, s3, data, 8);
    Kept(s1, s2, kind, 4, 0, 4);
    Kept(s2, s3, data, 8, 0, 4);
    Kept(s2, s3, data, 8, 4, 8);
    hide Put;
    Joined(s3, 4, 8, 8 + |data|);
  }

  lemma ChunkLaid(s3: Bytes, s4: Bytes, len: Bytes, kind: Bytes, data: Bytes, field: Bytes)
    requires |s3| == 12 + |data| && |len| == 4 && |kind| == 4 && |field| == 4
    requires s3[0..4] == len && s3[4..8 + |data|] == kind + data && Put(s3, s4, field, 8 + |data|)
    ensures s4 == len + kind + data + field
  {
    var n := |data|;
    Placed(s3, s4, field, 8 + n);
    Kept(s3, s4, field, 8 + n, 0, 4);
    Kept(s3, s4, field, 8 + n, 4, 8 + n);
    hide Put;
    Joined(s4, 0, 4, 8 + n);
    Joined(s4, 0, 8 + n, 12 + n);
    Layout(s4, len, kind, data, field);
  }

  // Length, type and data are laid out first; the CRC is taken over what lies in the buffer.
  method PngChunk(table: array<bv32>, kind: Bytes, data: Bytes) returns (out: array<bv8>)
    requires IsTable(table[..]) && |kind| == 4
    ensures fresh(out) && out[..] == Chunk(kind, data)
  {
    hide Uint32, Crc, IsTable, Put;
    var n := |data|;
    out := new bv8[12 + n](_ => 0);
    ghost var s0 := out[..];
    PutAt(out, Uint32(n), 0);
    ghost var s1 := out[..];
    PutAt(out, kind, 4);
    ghost var s2 := out[..];
    PutAt(out, data, 8);
    ghost var s3 := out[..];
    BodyLaid(s0, s1, s2, s3, Uint32(n), kind, data);
    var crc := Crc32Of(table, out[4..8 + n]);
    var field := Uint32(crc as int);
    PutAt(out, field, 8 + n);
    ChunkLaid(s3, out[..], Uint32(n), kind, data, field);
  }

  lemma Layout(s: Bytes, len: Bytes, kind: Bytes, data: Bytes, field: Bytes)
    requires |s| == 12 + |data| && |len| == 4
    requires s[0..12 + |data|] == s[0..8 + |data|] + s[8 + |data|..12 + |data|]
    requires s[0..8 + |data|] == s[0..4] + s[4..8 + |data|]
    requires s[0..4] == len && s[4..8 + |data|] == kind + data && s[8 + |data|..12 + |data|] == field
    ensures s == len + kind + data + field
  {
    assert s == s[0..12 + |data|];
    assert len + (kind + data) == len + kind + data;
  }

  // ---- a reader of the format ----

  datatype Read = Bad | Good(kind: Bytes, data: Bytes, rest: Bytes)

  function ReadChunk(b: Bytes): Read {
    if |b| < 12 then Bad
    else
      var n := ReadUint32(b);
      if |b| < 12 + n then Bad
      else if b[8 + n..12 + n] != CrcField(b[4..8 + n]) then Bad
      else Good(b[4..8], b[8..8 + n], b[12 + n..])
  }

  ghost predicate Framed(b: Bytes, kind: Bytes, data: Bytes, crc: Bytes, rest: Bytes) {
    var n := |data|;
    && |b| >= 12 + n
    && b[4..8] == kind && b[8..8 + n] == data && b[8 + n..12 + n] == crc && b[12 + n..] == rest
    && b[4..8 + n] == kind + data
  }

  lemma ChunkFramed(len: Bytes, kind: Bytes, data: Bytes, crc: Bytes, rest: Bytes)
    requires |len| == 4 && |kind| == 4 && |crc| == 4
    ensures var b := len + kind + data + crc + rest;
            Framed(b, kind, data, crc, rest) && b == len + (kind + data + crc + rest)
  {
  }

  lemma FramedReads(b: Bytes, kind: Bytes, data: Bytes, rest: Bytes)
    requires Framed(b, kind, data, CrcField(kind + data), rest) && ReadUint32(b) == |data|
    ensures ReadChunk(b) == Good(kind, data, rest)
  {
    hide ReadUint32, CrcField;
  }

  // A written chunk reads back, and reading goes on right behind it.
  lemma ChunkRoundTrip(kind: Bytes, data: Bytes, rest: Bytes)
    requires |kind| == 4 && |data| < LIMIT
    ensures ReadChunk(Chunk(kind, data) + rest) == Good(kind, data, rest)
  {
    ChunkReads(Uint32(|data|), kind, data, CrcField(kind + data), rest);
  }

  lemma ChunkReads(len: Bytes, kind: Bytes, data: Bytes, crc: Bytes, rest: Bytes)
    requires |kind| == 4 && |data| < LIMIT && len == Uint32(|data|) && crc == CrcField(kind + data)
    ensures ReadChunk(len + kind + data + crc + rest) == Good(kind, data, rest)
  {
    hide Uint32, ReadUint32, CrcField, ReadChunk, Framed;
    LengthBack(|data|, kind + data + crc + rest);
    ChunkFramed(len, kind, data, crc, rest);
    FramedReads(len + kind + data + crc + rest, kind, data, rest);
  }

  lemma LengthBack(n: nat, tail: Bytes)
    requires n < LIMIT
    ensures ReadUint32(Uint32(n) + tail) == n
  {
    Uint32Back(n, tail);
    hide Uint32, ReadUint32;
  }

  // The fields of a chunk, each at its place: the length of the data, the type, the data, and the
  // CRC over type and data.
  lemma ChunkFields(kind: Bytes, data: Bytes)
    requires |kind| == 4 && |data| < LIMIT
    ensures var c, n := Chunk(kind, data), |data|;
            && |c| == 12 + n && ReadUint32(c) == n && c[4..8] == kind && c[8..8 + n] == data
            && ReadUint32(c[8 + n..]) == Crc(c[4..8 + n]) as int
  {
    var len, crc, n := Uint32(|data|), CrcField(kind + data), |data|;
    LengthBack(n, kind + data + crc);
    LengthBack(Crc(kind + data) as int, []);
    assert crc + [] == crc;
    hide Uint32, ReadUint32, Crc;
    ChunkFramed(len, kind, data, crc, []);
    assert len + kind + data + crc + [] == len + kind + data + crc;
    assert len + (kind + data + crc + []) == len + (kind + data + crc);
  }

  // The most significant byte of a field comes first.
  lemma HighByteFirst(b: Bytes)
    requires |b| == 4
    ensures ReadUint32(b) == ((b[0] as int * 256 + b[1] as int) * 256 + b[2] as int) * 256 + b[3] as int
  {
  }

  const SIGNATURE: Bytes := [0x89, 0x50, 0x4E, 0x47, 0x0D, 0x0A, 0x1A, 0x0A]
  const IHDR: Bytes := [0x49, 0x48, 0x44, 0x52]
  const IDAT: Bytes := [0x49, 0x44, 0x41, 0x54]
  const IEND: Bytes := [0x49, 0x45, 0x4E, 0x44]

  // Width, height, bit depth 1, grayscale, and the three zero method bytes.
  function Header(size: nat): Bytes {
    Uint32(size) + Uint32(size) + [1, 0, 0, 0, 0]
  }

  function Flatten(parts: seq<Bytes>): Bytes {
    if parts == [] then [] else Flatten(parts[..|parts| - 1]) + parts[|parts| - 1]
  }

  lemma {:induction false} FlattenPrefix(parts: seq<Bytes>, k: nat)
    requires k <= |parts|
    ensures |Flatten(parts[..k])| <= |Flatten(parts)|
    decreases |parts| - k
  {
    if k < |parts| {
      assert parts[..k + 1][..k] == parts[..k];
      FlattenPrefix(parts, k + 1);
    } else {
      assert parts[..k] == parts;
    }
  }

  lemma FlattenStep(parts: seq<Bytes>, i: nat)
    requires i < |parts|
    ensures Flatten(parts[..i + 1]) == Flatten(parts[..i]) + parts[i]
  {
    assert parts[..i + 1][..i] == parts[..i];
  }

  lemma Appended(before: Bytes, after: Bytes, bytes: Bytes, at: nat)
    requires Put(before, after, bytes, at)
    ensures |after| == |before| && at + |bytes| <= |after| && after[..at + |bytes|] == before[..at] + bytes
  {
    Placed(before, after, bytes, at);
    Kept(before, after, bytes, at, 0, at);
    Joined(after, 0, at, at + |bytes|);
    hide Put;
  }

  method Assemble(parts: seq<Bytes>) returns (out: array<bv8>)
    ensures fresh(out) && out[..] == Flatten(parts)
  {
    hide Put, Flatten;
    var n := 0;
    assert Flatten(parts[..0]) == [] && parts[..|parts|] == parts by {
      FlattenNone();
    }
    for i := 0 to |parts|
      invariant n == |Flatten(parts[..i])|
    {
      FlattenStep(parts, i);
      n := n + |parts[i]|;
    }
    out := new bv8[n](_ => 0);
    var at := 0;
    for i := 0 to |parts|
      invariant at == |Flatten(parts[..i])| <= n
      invariant out[..at] == Flatten(parts[..i])
    {
      FlattenStep(parts, i);
      FlattenPrefix(parts, i + 1);
      ghost var before := out[..];
      PutAt(out, parts[i], at);
      Appended(before, out[..], parts[i], at);
      assert before[..at] == Flatten(parts[..i]);
      assert out[..][..at + |parts[i]|] == out[..at + |parts[i]|];
      at := at + |parts[i]|;
    }
    assert out[..at] == out[..];
  }

  lemma FlattenNone()
    ensures Flatten([]) == []
  {
  }

  function File(size: nat, compressed: Bytes): Bytes {
    Flatten([SIGNATURE, Chunk(IHDR, Header(size)), Chunk(IDAT, compressed), Chunk(IEND, [])])
  }

  method MatrixToPng(table: array<bv32>, matrix: Matrix, deflate: Bytes -> Bytes) returns (out: array<bv8>)
    requires IsTable(table[..])
    ensures exists raw :: RasterOk(raw, matrix) && out[..] == File(Size(matrix), deflate(raw))
  {
    var size := Size(matrix);
    hide IsTable, Chunk, Header, RasterOk, Flatten;
    var raw := Raster(matrix);
    ghost var pixels := raw[..];
    var ihdr := PngChunk(table, IHDR, Header(size));
    var compressed := deflate(raw[..]);
    var idat := PngChunk(table, IDAT, compressed);
    var iend := PngChunk(table, IEND, []);
    out := Assemble([SIGNATURE, ihdr[..], idat[..], iend[..]]);
    assert RasterOk(pixels, matrix) && out[..] == File(size, deflate(pixels));
  }

  // Decoding as far as the QR image needs it.
  datatype Image = NotPng | Image(width: nat, height: nat, depth: nat, colour: nat, raw: Bytes)

  function Decode(inflate: Bytes -> Bytes, file: Bytes): Image {
    if |file| < 8 || file[..8] != SIGNATURE then NotPng
    else
      match ReadChunk(file[8..])
      case Bad => NotPng
      case Good(kind, header, rest) =>
        if kind != IHDR || |header| != 13 || header[10..] != [0, 0, 0] then NotPng
        else
          match ReadChunk(rest)
          case Bad => NotPng
          case Good(kind2, data, rest2) =>
            if kind2 != IDAT || ReadChunk(rest2) != Good(IEND, [], []) then NotPng
            else Image(ReadUint32(header), ReadUint32(header[4..]), header[8] as int, header[9] as int, inflate(data))
  }

  lemma FileLayout(size: nat, compressed: Bytes)
    ensures var end := Chunk(IEND, []);
            File(size, compressed) == SIGNATURE + (Chunk(IHDR, Header(size)) + (Chunk(IDAT, compressed) + end))
  {
    var a, b, c, d := SIGNATURE, Chunk(IHDR, Header(size)), Chunk(IDAT, compressed), Chunk(IEND, []);
    hide Chunk, Header;
    FlattenFour(a, b, c, d);
  }

  lemma FlattenFour(a: Bytes, b: Bytes, c: Bytes, d: Bytes)
    ensures Flatten([a, b, c, d]) == a + (b + (c + d))
  {
    hide Flatten;
    FlattenNone();
    FlattenSnoc([], a);
    FlattenSnoc([a], b);
    FlattenSnoc([a, b], c);
    FlattenSnoc([a, b, c], d);
    assert [] + [a] == [a] && [a] + [b] == [a, b] && [a, b] + [c] == [a, b, c] && [a, b, c] + [d] == [a, b, c, d];
    FourParts(a, b, c, d);
  }

  lemma FlattenSnoc(parts: seq<Bytes>, x: Bytes)
    ensures Flatten(parts + [x]) == Flatten(parts) + x
  {
    assert (parts + [x])[..|parts|] == parts;
  }

  lemma FourParts(a: Bytes, b: Bytes, c: Bytes, d: Bytes)
    ensures [] + a + b + c + d == a + (b + (c + d))
  {
  }

  lemma HeaderBack(size: nat)
    requires size < LIMIT
    ensures |Header(size)| == 13 && ReadUint32(Header(size)) == size && ReadUint32(Header(size)[4..]) == size
    ensures Header(size)[8] == 1 && Header(size)[9] == 0 && Header(size)[10..] == [0, 0, 0]
  {
    var tail: Bytes := [1, 0, 0, 0, 0];
    Uint32Back(size, Uint32(size) + tail);
    Uint32Back(size, tail);
    hide Uint32, ReadUint32;
    assert Header(size) == Uint32(size) + (Uint32(size) + tail);
    assert Header(size)[4..] == Uint32(size) + tail;
  }

  // Reading the file back gives the dimensions and the raster that went in.
  lemma FileRoundTrip(inflate: Bytes -> Bytes, size: nat, compressed: Bytes)
    requires size < LIMIT && |compressed| < LIMIT
    ensures Decode(inflate, File(size, compressed)) == Image(size, size, 1, 0, inflate(compressed))
  {
    hide Chunk, Header, File, ReadChunk, ReadUint32;
    FileLayout(size, compressed);
    HeaderBack(size);
    var end := Chunk(IEND, []);
    var file := File(size, compressed);
    assert file[..8] == SIGNATURE && file[8..] == Chunk(IHDR, Header(size)) + (Chunk(IDAT, compressed) + end);
    ChunkRoundTrip(IHDR, Header(size), Chunk(IDAT, compressed) + end);
    ChunkRoundTrip(IDAT, compressed, end);
    ChunkRoundTrip(IEND, [], []);
    assert end + [] == end;
  }

  // The pixel a decoder reads at column x of the row that starts at `row`.
  predicate ReadsDark(image: Image, row: nat, x: nat) {
    image.Image? && row + 1 + x / 8 < |image.raw| && !White(image.raw, row, x)
  }

  // Every pixel of the decoded image is dark exactly where the scaled, bordered matrix is.
  lemma QrRoundTrip(matrix: Matrix, raw: Bytes, deflate: Bytes -> Bytes, inflate: Bytes -> Bytes)
    requires RasterOk(raw, matrix) && inflate(deflate(raw)) == raw
    requires Size(matrix) < LIMIT && |deflate(raw)| < LIMIT
    ensures var image := Decode(inflate, File(Size(matrix), deflate(raw)));
            && image == Image(Size(matrix), Size(matrix), 1, 0, raw)
            && forall y, x :: 0 <= y < Size(matrix) && 0 <= x < Size(matrix) ==>
                 (ReadsDark(image, RowStart(matrix, y), x) <==> DarkPixel(matrix, y, x))
  {
    FileRoundTrip(inflate, Size(matrix), deflate(raw));
    var image := Decode(inflate, File(Size(matrix), deflate(raw)));
    hide File, Decode;
    forall y, x | 0 <= y < Size(matrix) && 0 <= x < Size(matrix)
      ensures ReadsDark(image, RowStart(matrix, y), x) <==> DarkPixel(matrix, y, x)
    {
      PixelOf(raw, matrix, y, x);
    }
  }

  lemma PixelOf(raw: Bytes, matrix: Matrix, y: nat, x: nat)
    requires RasterOk(raw, matrix) && y < Size(matrix) && x < Size(matrix)
    ensures RowStart(matrix, y) + 1 + x / 8 < |raw|
    ensures White(raw, RowStart(matrix, y), x) <==> !DarkPixel(matrix, y, x)
  {
    hide RowStart, HighBit, DarkPixel;
    assert RowOk(raw, RowStart(matrix, y), matrix, y);
  }

  // The four bytes of a chunk type, by its letters.
  predicate Spells(b: Bytes, text: string) {
    |b| == |text| && forall i :: 0 <= i < |b| ==> b[i] as int == text[i] as int
  }

  lemma SmallFields()
    ensures Uint32(0) == [0, 0, 0, 0] && Uint32(13) == [0, 0, 0, 13]
  {
  }

  lemma EndField()
    ensures Uint32(0xAE426082) == [0xAE, 0x42, 0x60, 0x82]
  {
    assert 0xAE426082 / 0x100_0000 == 0xAE && 0xAE426082 / 0x1_0000 % 0x100 == 0x42;
    assert 0xAE426082 / 0x100 % 0x100 == 0x60 && 0xAE426082 % 0x100 == 0x82;
  }

  lemma EndChunk()
    ensures Chunk(IEND, []) == [0, 0, 0, 0] + IEND + [] + [0xAE, 0x42, 0x60, 0x82]
  {
    SmallFields();
    EndField();
    IendCrc();
    assert IEND + [] == IEND;
    hide Crc, Uint32;
    assert CrcField(IEND) == Uint32(0xAE426082);
  }

  lemma TypesSpelled()
    ensures Spells(IHDR, "IHDR") && Spells(IDAT, "IDAT") && Spells(IEND, "IEND")
  {
  }

  // What every PNG file starts and ends with (section 3.1 of RFC 2083): the eight bytes of the
  // signature and the header chunk first, the empty end chunk with its fixed CRC last.
  lemma FileEnds(size: nat, compressed: Bytes)
    ensures var f := File(size, compressed);
            && |f| >= 45 && f[..8] == [137, 80, 78, 71, 13, 10, 26, 10]
            && f[8..12] == [0, 0, 0, 13] && Spells(f[12..16], "IHDR")
            && f[|f| - 12..|f| - 8] == [0, 0, 0, 0] && Spells(f[|f| - 8..|f| - 4], "IEND")
            && f[|f| - 4..] == [0xAE, 0x42, 0x60, 0x82]
  {
    FileLayout(size, compressed);
    SmallFields();
    EndChunk();
    TypesSpelled();
    var head, tail := Header(size), CrcField(IHDR + Header(size));
    assert Chunk(IHDR, head) == [0, 0, 0, 13] + IHDR + head + tail && |head| == 13;
    hide Chunk, Header, CrcField, File, Spells, Uint32;
    EndsOf(SIGNATURE, [0, 0, 0, 13], IHDR, head + tail, Chunk(IDAT, compressed), [0, 0, 0, 0], IEND,
           [0xAE, 0x42, 0x60, 0x82]);
    assert [0, 0, 0, 13] + IHDR + (head + tail) == [0, 0, 0, 13] + IHDR + head + tail;
    assert [0, 0, 0, 0] + IEND + [] + [0xAE, 0x42, 0x60, 0x82] == [0, 0, 0, 0] + IEND + [0xAE, 0x42, 0x60, 0x82];
  }

  lemma EndsOf(a: Bytes, b: Bytes, c: Bytes, d: Bytes, e: Bytes, x: Bytes, y: Bytes, z: Bytes)
    requires |a| == 8 && |b| == |c| == |x| == |y| == |z| == 4
    ensures var f := a + (b + c + d + (e + (x + y + z)));
            && f[..8] == a && f[8..12] == b && f[12..16] == c
            && f[|f| - 12..|f| - 8] == x && f[|f| - 8..|f| - 4] == y && f[|f| - 4..] == z
  {
  }
}
