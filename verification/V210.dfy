/** Packing of 10-bit 4:2:2 pictures into v210 words and back (avs_core/core/AviHelper.cpp). */
module V210 {
  /** A 16-bit sample; a picture's own samples have 10 bits, its padding may hold anything. */
  type Sample = x: bv32 | x <= 0xFFFF

  predicate Is10Bit(x: Sample) {
    x < 0x400
  }

  // ----- Words -----

  function Pack3(a: Sample, b: Sample, c: Sample): (w: bv32) {
    a | (b as bv32 << 10) | (c as bv32 << 20)
  }

  function Low(w: bv32): (x: Sample) {
    w & 0x3FF
  }

  function Mid(w: bv32): (x: Sample) {
    (w >> 10) & 0x3FF
  }

  function High(w: bv32): (x: Sample) {
    (w >> 20) & 0x3FF
  }

  /** A field survives whatever lies in the fields above it. */
  lemma FieldsSurvive(a: Sample, b: Sample, c: Sample)
    ensures Is10Bit(a) ==> Low(Pack3(a, b, c)) == a
    ensures Is10Bit(a) && Is10Bit(b) ==> Mid(Pack3(a, b, c)) == b
    ensures Is10Bit(a) && Is10Bit(b) && Is10Bit(c) ==> High(Pack3(a, b, c)) == c
  {
  }

  // ----- Where things lie -----

  /** Groups of six pixels that a row of words must hold. */
  function Groups(width: nat): (n: nat)
    ensures 6 * n - 6 < width <= 6 * n || width == n == 0
  {
    (width + 5) / 6
  }

  /** Words from one row to the next: rows are padded to 128 bytes. */
  function OutPitch(width: nat): (n: nat)
    ensures n % 32 == 0 && 4 * Groups(width) <= n < 4 * Groups(width) + 32
  {
    (16 * Groups(width) + 127) / 128 * 32
  }

  /** The writer's loop runs while x < width + 5. */
  function WrittenGroups(width: nat): (n: nat) {
    (width + 5 + 5) / 6
  }

  /** That is one group more than the row holds, unless a single pixel is left over for its last group. */
  lemma OneGroupTooMany(width: nat)
    ensures WrittenGroups(width) == Groups(width) + if width % 6 == 1 then 0 else 1
  {
  }

  /** The words written for a row end within its padding exactly when there is padding left for one more group. */
  lemma StaysInRowExactly(width: nat)
    ensures 4 * WrittenGroups(width) <= OutPitch(width) <==> width % 6 == 1 || Groups(width) % 8 != 0
    ensures 4 * WrittenGroups(width) <= OutPitch(width) + 4
  {
    var g := Groups(width);
    assert OutPitch(width) == (g + 7) / 8 * 32;
    OneGroupTooMany(width);
  }

  /** Full HD is such a width: each row writes four words into the next one. */
  lemma FullHdSpills()
    ensures 4 * WrittenGroups(1920) == OutPitch(1920) + 4
  {
  }

  /** A destination of exactly `height` rows holds all that is written exactly when a row's words end within it. */
  lemma FitsDestinationExactly(width: nat, height: nat)
    requires height > 0
    ensures WrittenEnd(width, height) <= RowAt(height, OutPitch(width)) <==> width % 6 == 1 || Groups(width) % 8 != 0
  {
    StaysInRowExactly(width);
    assert height * OutPitch(width) == (height - 1) * OutPitch(width) + OutPitch(width);
  }

  /** Behind the last word written for a picture. */
  function WrittenEnd(width: nat, height: nat): (n: nat) {
    if height == 0 then 0 else RowAt(height - 1, OutPitch(width)) + 4 * WrittenGroups(width)
  }

  /** A row of a plane or of words: where it starts. */
  function RowAt(row: nat, pitch: nat): (i: nat) {
    row * pitch
  }

  lemma RowsApart(r: nat, s: nat, pitch: nat)
    requires r < s
    ensures RowAt(r, pitch) + pitch <= RowAt(s, pitch)
  {
    assert (s - r - 1) * pitch >= 0;
    assert s * pitch == r * pitch + pitch + (s - r - 1) * pitch;
  }

  /** The three planes of one row. */
  datatype Row = Row(y: seq<Sample>, u: seq<Sample>, v: seq<Sample>)

  /** The samples of group g of a row, as the writer packs them. */
  ghost predicate GroupPacked(words: seq<bv32>, row: Row, g: nat) {
    && 4 * g + 3 < |words| && 6 * g + 5 < |row.y| && 3 * g + 2 < |row.u| && 3 * g + 2 < |row.v|
    && words[4 * g] == Pack3(row.u[3 * g], row.y[6 * g], row.v[3 * g])
    && words[4 * g + 1] == Pack3(row.y[6 * g + 1], row.u[3 * g + 1], row.y[6 * g + 2])
    && words[4 * g + 2] == Pack3(row.v[3 * g + 1], row.y[6 * g + 3], row.u[3 * g + 2])
    && words[4 * g + 3] == Pack3(row.y[6 * g + 4], row.v[3 * g + 2], row.y[6 * g + 5])
  }

  ghost predicate RowPacked(words: seq<bv32>, row: Row, groups: nat) {
    forall g :: 0 <= g < groups ==> GroupPacked(words, row, g)
  }

  /** What the reader finds in a row of words at luma column c, or chroma column c. */
  function YAt(words: seq<bv32>, c: nat): (x: Sample) {
    var g, k := 4 * (c / 6), c % 6;
    if g + 3 >= |words| then 0
    else if k == 0 then Mid(words[g])
    else if k == 1 then Low(words[g + 1])
    else if k == 2 then High(words[g + 1])
    else if k == 3 then Mid(words[g + 2])
    else if k == 4 then Low(words[g + 3])
    else High(words[g + 3])
  }

  function UAt(words: seq<bv32>, c: nat): (x: Sample) {
    var g, k := 4 * (c / 3), c % 3;
    if g + 3 >= |words| then 0
    else if k == 0 then Low(words[g]) else if k == 1 then Mid(words[g + 1]) else High(words[g + 2])
  }

  function VAt(words: seq<bv32>, c: nat): (x: Sample) {
    var g, k := 4 * (c / 3), c % 3;
    if g + 3 >= |words| then 0
    else if k == 0 then High(words[g]) else if k == 1 then Low(words[g + 2]) else Mid(words[g + 3])
  }

  lemma YColumns(words: seq<bv32>, g: nat)
    requires 4 * g + 3 < |words|
    ensures YAt(words, 6 * g) == Mid(words[4 * g]) && YAt(words, 6 * g + 1) == Low(words[4 * g + 1])
    ensures YAt(words, 6 * g + 2) == High(words[4 * g + 1]) && YAt(words, 6 * g + 3) == Mid(words[4 * g + 2])
    ensures YAt(words, 6 * g + 4) == Low(words[4 * g + 3]) && YAt(words, 6 * g + 5) == High(words[4 * g + 3])
  {
  }

  lemma UVColumns(words: seq<bv32>, g: nat)
    requires 4 * g + 3 < |words|
    ensures UAt(words, 3 * g) == Low(words[4 * g]) && VAt(words, 3 * g) == High(words[4 * g])
    ensures UAt(words, 3 * g + 1) == Mid(words[4 * g + 1]) && VAt(words, 3 * g + 1) == Low(words[4 * g + 2])
    ensures UAt(words, 3 * g + 2) == High(words[4 * g + 2]) && VAt(words, 3 * g + 2) == Mid(words[4 * g + 3])
  {
  }

  // ----- The format -----

  /** A word stores three components, from the low bits up. */
  function Field(w: bv32, f: nat): (x: Sample) {
    if f == 0 then w & 0x3FF else if f == 1 then (w >> 10) & 0x3FF else (w >> 20) & 0x3FF
  }

  /** The components of pixel pair i, in the order of the format: U, Y, V, Y. */
  function OfPair(row: Row, i: nat, j: nat): (x: Sample)
    requires i < |row.u| && i < |row.v| && 2 * i + 1 < |row.y|
  {
    if j == 0 then row.u[i] else if j == 1 then row.y[2 * i] else if j == 2 then row.v[i] else row.y[2 * i + 1]
  }

  /** What the reader takes for them. */
  function PairRead(words: seq<bv32>, i: nat, j: nat): (x: Sample) {
    if j == 0 then UAt(words, i) else if j == 1 then YAt(words, 2 * i) else if j == 2 then VAt(words, i) else YAt(words, 2 * i + 1)
  }

  ghost predicate AllTenBit(row: Row) {
    && (forall i :: 0 <= i < |row.y| ==> Is10Bit(row.y[i]))
    && (forall i :: 0 <= i < |row.u| ==> Is10Bit(row.u[i]))
    && (forall i :: 0 <= i < |row.v| ==> Is10Bit(row.v[i]))
  }

  lemma GroupFields(words: seq<bv32>, row: Row, g: nat)
    requires GroupPacked(words, row, g) && AllTenBit(row)
    ensures Low(words[4 * g]) == row.u[3 * g] && Mid(words[4 * g]) == row.y[6 * g] && High(words[4 * g]) == row.v[3 * g]
    ensures Low(words[4 * g + 1]) == row.y[6 * g + 1] && Mid(words[4 * g + 1]) == row.u[3 * g + 1]
    ensures High(words[4 * g + 1]) == row.y[6 * g + 2] && Low(words[4 * g + 2]) == row.v[3 * g + 1]
    ensures Mid(words[4 * g + 2]) == row.y[6 * g + 3] && High(words[4 * g + 2]) == row.u[3 * g + 2]
    ensures Low(words[4 * g + 3]) == row.y[6 * g + 4] && Mid(words[4 * g + 3]) == row.v[3 * g + 2]
    ensures High(words[4 * g + 3]) == row.y[6 * g + 5]
  {
    FieldsSurvive(row.u[3 * g], row.y[6 * g], row.v[3 * g]);
    FieldsSurvive(row.y[6 * g + 1], row.u[3 * g + 1], row.y[6 * g + 2]);
    FieldsSurvive(row.v[3 * g + 1], row.y[6 * g + 3], row.u[3 * g + 2]);
    FieldsSurvive(row.y[6 * g + 4], row.v[3 * g + 2], row.y[6 * g + 5]);
  }

  /** Which word and field of group g hold component j of its pair r. */
  lemma WhichField(g: nat, r: nat, j: nat, w: nat, f: nat)
    requires r < 3 && j < 4 && f < 3 && 3 * w + f == 4 * (3 * g + r) + j
    ensures r == 0 ==> w == (if j < 3 then 4 * g else 4 * g + 1) && f == if j < 3 then j else 0
    ensures r == 1 ==> w == (if j < 2 then 4 * g + 1 else 4 * g + 2) && f == if j < 2 then j + 1 else j - 2
    ensures r == 2 ==> w == (if j < 1 then 4 * g + 2 else 4 * g + 3) && f == if j < 1 then 2 else j - 1
  {
  }

  /** A packed row of ten-bit samples stores its components one after the other in the order of the format: component j
      of pair i is component 4i + j of the row, and so field f of word w for 3w + f = 4i + j. */
  lemma PackedInOrder(words: seq<bv32>, row: Row, groups: nat, i: nat, j: nat, w: nat, f: nat)
    requires RowPacked(words, row, groups) && AllTenBit(row) && i < 3 * groups && j < 4 && f < 3 && 3 * w + f == 4 * i + j
    ensures w < |words| && i < |row.u| && i < |row.v| && 2 * i + 1 < |row.y|
    ensures Field(words[w], f) == OfPair(row, i, j)
  {
    var g, r := i / 3, i % 3;
    assert i == 3 * g + r && GroupPacked(words, row, g);
    GroupFields(words, row, g);
    WhichField(g, r, j, w, f);
  }

  lemma ReadFirst(words: seq<bv32>, g: nat, j: nat, w: nat, f: nat)
    requires j < 4 && f < 3 && 3 * w + f == 4 * (3 * g + 0) + j && 4 * g + 3 < |words|
    ensures w < |words| && Field(words[w], f) == PairRead(words, 3 * g + 0, j)
  {
    WhichField(g, 0, j, w, f);
    YColumns(words, g);
    UVColumns(words, g);
  }

  lemma ReadSecond(words: seq<bv32>, g: nat, j: nat, w: nat, f: nat)
    requires j < 4 && f < 3 && 3 * w + f == 4 * (3 * g + 1) + j && 4 * g + 3 < |words|
    ensures w < |words| && Field(words[w], f) == PairRead(words, 3 * g + 1, j)
  {
    WhichField(g, 1, j, w, f);
    YColumns(words, g);
    UVColumns(words, g);
  }

  lemma ReadThird(words: seq<bv32>, g: nat, j: nat, w: nat, f: nat)
    requires j < 4 && f < 3 && 3 * w + f == 4 * (3 * g + 2) + j && 4 * g + 3 < |words|
    ensures w < |words| && Field(words[w], f) == PairRead(words, 3 * g + 2, j)
  {
    WhichField(g, 2, j, w, f);
    YColumns(words, g);
    UVColumns(words, g);
  }

  /** And the reader takes them from there. */
  lemma ReadInOrder(words: seq<bv32>, i: nat, j: nat, w: nat, f: nat)
    requires j < 4 && f < 3 && 3 * w + f == 4 * i + j && 4 * (i / 3) + 3 < |words|
    ensures w < |words| && Field(words[w], f) == PairRead(words, i, j)
  {
    var g, r := i / 3, i % 3;
    assert i == 3 * g + r;
    if r == 0 {
      ReadFirst(words, g, j, w, f);
    } else if r == 1 {
      ReadSecond(words, g, j, w, f);
    } else {
      ReadThird(words, g, j, w, f);
    }
  }

  /** The visible samples of a row have ten bits; what follows them in memory is not the writer's business. */
  ghost predicate Visible10Bit(row: Row, width: nat) {
    && width <= |row.y| && width / 2 <= |row.u| && width / 2 <= |row.v|
    && (forall c :: 0 <= c < width ==> Is10Bit(row.y[c]))
    && (forall c :: 0 <= c < width / 2 ==> Is10Bit(row.u[c]) && Is10Bit(row.v[c]))
  }

  /** What a packed group of visible samples reads as, column by column; the visible ones come first. */
  lemma GroupReturns(words: seq<bv32>, row: Row, g: nat)
    requires GroupPacked(words, row, g)
    ensures Is10Bit(row.u[3 * g]) ==> UAt(words, 3 * g) == row.u[3 * g]
    ensures Is10Bit(row.u[3 * g]) && Is10Bit(row.y[6 * g]) ==> YAt(words, 6 * g) == row.y[6 * g]
    ensures Is10Bit(row.u[3 * g]) && Is10Bit(row.y[6 * g]) && Is10Bit(row.v[3 * g]) ==> VAt(words, 3 * g) == row.v[3 * g]
    ensures Is10Bit(row.y[6 * g + 1]) ==> YAt(words, 6 * g + 1) == row.y[6 * g + 1]
    ensures Is10Bit(row.y[6 * g + 1]) && Is10Bit(row.u[3 * g + 1]) ==> UAt(words, 3 * g + 1) == row.u[3 * g + 1]
    ensures Is10Bit(row.y[6 * g + 1]) && Is10Bit(row.u[3 * g + 1]) && Is10Bit(row.y[6 * g + 2]) ==> YAt(words, 6 * g + 2) == row.y[6 * g + 2]
    ensures Is10Bit(row.v[3 * g + 1]) ==> VAt(words, 3 * g + 1) == row.v[3 * g + 1]
    ensures Is10Bit(row.v[3 * g + 1]) && Is10Bit(row.y[6 * g + 3]) ==> YAt(words, 6 * g + 3) == row.y[6 * g + 3]
    ensures Is10Bit(row.v[3 * g + 1]) && Is10Bit(row.y[6 * g + 3]) && Is10Bit(row.u[3 * g + 2]) ==> UAt(words, 3 * g + 2) == row.u[3 * g + 2]
    ensures Is10Bit(row.y[6 * g + 4]) ==> YAt(words, 6 * g + 4) == row.y[6 * g + 4]
    ensures Is10Bit(row.y[6 * g + 4]) && Is10Bit(row.v[3 * g + 2]) ==> VAt(words, 3 * g + 2) == row.v[3 * g + 2]
    ensures Is10Bit(row.y[6 * g + 4]) && Is10Bit(row.v[3 * g + 2]) && Is10Bit(row.y[6 * g + 5]) ==> YAt(words, 6 * g + 5) == row.y[6 * g + 5]
  {
    YColumns(words, g);
    UVColumns(words, g);
    FieldsSurvive(row.u[3 * g], row.y[6 * g], row.v[3 * g]);
    FieldsSurvive(row.y[6 * g + 1], row.u[3 * g + 1], row.y[6 * g + 2]);
    FieldsSurvive(row.v[3 * g + 1], row.y[6 * g + 3], row.u[3 * g + 2]);
    FieldsSurvive(row.y[6 * g + 4], row.v[3 * g + 2], row.y[6 * g + 5]);
  }

  /** Reading a packed row of even width gives back every visible sample, whatever padding was packed with them. */
  lemma LumaReturns(words: seq<bv32>, row: Row, width: nat, c: nat)
    requires width % 2 == 0 && Visible10Bit(row, width) && RowPacked(words, row, Groups(width)) && c < width
    ensures YAt(words, c) == row.y[c]
  {
    var g, k := c / 6, c % 6;
    assert GroupPacked(words, row, g);
    GroupReturns(words, row, g);
    match k
    case 0 => assert c == 6 * g;
    case 1 => assert c == 6 * g + 1;
    case 2 => assert c == 6 * g + 2;
    case 3 => assert c == 6 * g + 3;
    case 4 => assert c == 6 * g + 4;
    case _ => assert c == 6 * g + 5;
  }

  lemma ChromaReturns(words: seq<bv32>, row: Row, width: nat, c: nat)
    requires width % 2 == 0 && Visible10Bit(row, width) && RowPacked(words, row, Groups(width)) && c < width / 2
    ensures UAt(words, c) == row.u[c] && VAt(words, c) == row.v[c]
  {
    var g, k := c / 3, c % 3;
    assert GroupPacked(words, row, g);
    GroupReturns(words, row, g);
    match k
    case 0 => assert c == 3 * g;
    case 1 => assert c == 3 * g + 1;
    case _ => assert c == 3 * g + 2;
  }

  // ----- The writer -----

  lemma GroupStays(before: seq<bv32>, after: seq<bv32>, row: Row, g: nat)
    requires GroupPacked(before, row, g) && |after| == |before|
    requires forall i :: 4 * g <= i < 4 * g + 4 ==> after[i] == before[i]
    ensures GroupPacked(after, row, g)
  {
  }

  lemma RowStays(before: seq<bv32>, after: seq<bv32>, row: Row, groups: nat)
    requires RowPacked(before, row, groups) && |after| == |before|
    requires forall i :: 0 <= i < 4 * groups && i < |before| ==> after[i] == before[i]
    ensures RowPacked(after, row, groups)
  {
    forall g | 0 <= g < groups ensures GroupPacked(after, row, g) {
      assert GroupPacked(before, row, g);
      GroupStays(before, after, row, g);
    }
  }

  method PackGroup(dst: array<bv32>, at: nat, row: Row, yi: nat, ci: nat, ghost out: nat, ghost g: nat)
    requires at + 4 <= dst.Length && yi + 6 <= |row.y| && ci + 3 <= |row.u| && ci + 3 <= |row.v|
    requires at == out + 4 * g && yi == 6 * g && ci == 3 * g
    modifies dst
    ensures GroupPacked(dst[out..], row, g)
    ensures forall i :: 0 <= i < dst.Length && !(at <= i < at + 4) ==> dst[i] == old(dst[i])
  {
    dst[at] := Pack3(row.u[ci], row.y[yi], row.v[ci]);
    dst[at + 1] := Pack3(row.y[yi + 1], row.u[ci + 1], row.y[yi + 2]);
    dst[at + 2] := Pack3(row.v[ci + 1], row.y[yi + 3], row.u[ci + 2]);
    dst[at + 3] := Pack3(row.y[yi + 4], row.v[ci + 2], row.y[yi + 5]);
  }

  /** Packs one row, and the group too many behind it; touches nothing else. */
  method PackRow(dst: array<bv32>, out: nat, row: Row, width: nat)
    requires out + 4 * WrittenGroups(width) <= dst.Length
    requires 6 * WrittenGroups(width) <= |row.y| && 3 * WrittenGroups(width) <= |row.u| && 3 * WrittenGroups(width) <= |row.v|
    modifies dst
    ensures RowPacked(dst[out..], row, WrittenGroups(width))
    ensures forall i :: 0 <= i < dst.Length && !(out <= i < out + 4 * WrittenGroups(width)) ==> dst[i] == old(dst[i])
  {
    var outLine, yLine, cLine := out, 0, 0;
    var x := 0;
    ghost var g := 0;
    while x < width + 5
      invariant x == 6 * g && yLine == 6 * g && cLine == 3 * g && outLine == out + 4 * g && g <= WrittenGroups(width)
      invariant RowPacked(dst[out..], row, g)
      invariant forall i :: 0 <= i < dst.Length && !(out <= i < out + 4 * g) ==> dst[i] == old(dst[i])
      decreases width + 5 - x
    {
      ghost var before := dst[out..];
      PackGroup(dst, outLine, row, yLine, cLine, out, g);
      RowStays(before, dst[out..], row, g);
      outLine, yLine, cLine, x := outLine + 4, yLine + 6, cLine + 3, x + 6;
      g := g + 1;
    }
  }

  /** Row r of a picture whose planes are stored with the given pitches, up to the end of the planes. */
  function SourceRow(y: seq<Sample>, u: seq<Sample>, v: seq<Sample>, pitchY: nat, pitchUV: nat, r: nat): (row: Row)
    requires RowAt(r, pitchY) <= |y| && RowAt(r, pitchUV) <= |u| && RowAt(r, pitchUV) <= |v|
  {
    Row(y[RowAt(r, pitchY)..], u[RowAt(r, pitchUV)..], v[RowAt(r, pitchUV)..])
  }

  /** All groups the writer reads of row r lie inside the planes. */
  ghost predicate Readable(y: seq<Sample>, u: seq<Sample>, v: seq<Sample>, pitchY: nat, pitchUV: nat, width: nat, r: nat) {
    && RowAt(r, pitchY) + 6 * WrittenGroups(width) <= |y|
    && RowAt(r, pitchUV) + 3 * WrittenGroups(width) <= |u|
    && RowAt(r, pitchUV) + 3 * WrittenGroups(width) <= |v|
  }

  /** Row r of the destination holds row r of the picture. */
  ghost predicate HoldsRow(dst: seq<bv32>, y: seq<Sample>, u: seq<Sample>, v: seq<Sample>, pitchY: nat, pitchUV: nat, width: nat, r: nat) {
    && RowAt(r, OutPitch(width)) <= |dst| && Readable(y, u, v, pitchY, pitchUV, width, r)
    && RowPacked(dst[RowAt(r, OutPitch(width))..], SourceRow(y, u, v, pitchY, pitchUV, r), Groups(width))
  }

  /** What was written last: row r with all its groups, the one too many included. */
  ghost predicate LastRowSpilt(dst: seq<bv32>, y: seq<Sample>, u: seq<Sample>, v: seq<Sample>, pitchY: nat, pitchUV: nat, width: nat, r: nat) {
    && RowAt(r, OutPitch(width)) <= |dst| && Readable(y, u, v, pitchY, pitchUV, width, r)
    && RowPacked(dst[RowAt(r, OutPitch(width))..], SourceRow(y, u, v, pitchY, pitchUV, r), WrittenGroups(width))
  }

  /** The row a later row's writer leaves alone: everything before its own start. */
  lemma EarlierRowStays(before: seq<bv32>, after: seq<bv32>, y: seq<Sample>, u: seq<Sample>, v: seq<Sample>,
                        pitchY: nat, pitchUV: nat, width: nat, r: nat, s: nat)
    requires r < s && HoldsRow(before, y, u, v, pitchY, pitchUV, width, r) && |after| == |before|
    requires forall i :: 0 <= i < RowAt(s, OutPitch(width)) && i < |before| ==> after[i] == before[i]
    ensures HoldsRow(after, y, u, v, pitchY, pitchUV, width, r)
  {
    RowsApart(r, s, OutPitch(width));
    var o := RowAt(r, OutPitch(width));
    RowStays(before[o..], after[o..], SourceRow(y, u, v, pitchY, pitchUV, r), Groups(width));
  }

  /** Rows are written top down, so a group too many that spills over the pitch is overwritten by the next row; behind
      the last row it stays, and nothing behind it is touched. */
  method Yuv422p10ToV210(dst: array<bv32>, y: seq<Sample>, u: seq<Sample>, v: seq<Sample>, pitchY: nat, pitchUV: nat,
                         width: nat, height: nat)
    requires width % 2 == 0
    requires forall r :: 0 <= r < height ==> Readable(y, u, v, pitchY, pitchUV, width, r)
    requires WrittenEnd(width, height) <= dst.Length
    modifies dst
    ensures forall r :: 0 <= r < height ==> HoldsRow(dst[..], y, u, v, pitchY, pitchUV, width, r)
    ensures height > 0 ==> LastRowSpilt(dst[..], y, u, v, pitchY, pitchUV, width, height - 1)
    ensures forall i :: WrittenEnd(width, height) <= i < dst.Length ==> dst[i] == old(dst[i])
  {
    OneGroupTooMany(width);
    var outbuf := 0;
    for r := 0 to height
      invariant outbuf == RowAt(r, OutPitch(width))
      invariant forall k :: 0 <= k < r ==> HoldsRow(dst[..], y, u, v, pitchY, pitchUV, width, k)
      invariant r > 0 ==> LastRowSpilt(dst[..], y, u, v, pitchY, pitchUV, width, r - 1)
      invariant forall i :: WrittenEnd(width, r) <= i < dst.Length ==> dst[i] == old(dst[i])
    {
      assert Readable(y, u, v, pitchY, pitchUV, width, r);
      if r < height - 1 { RowsApart(r, height - 1, OutPitch(width)); }
      ghost var before := dst[..];
      PackRow(dst, outbuf, SourceRow(y, u, v, pitchY, pitchUV, r), width);
      forall k | 0 <= k < r ensures HoldsRow(dst[..], y, u, v, pitchY, pitchUV, width, k) {
        EarlierRowStays(before, dst[..], y, u, v, pitchY, pitchUV, width, k, r);
      }
      assert dst[..][outbuf..] == dst[outbuf..];
      outbuf := outbuf + OutPitch(width);
      assert RowAt(r + 1, OutPitch(width)) == outbuf;
    }
  }

  // ----- The reader -----

  /** The luma columns of a row from `from` up to `to` have been read. */
  ghost predicate LumaRead(words: seq<bv32>, y: seq<Sample>, yo: nat, from: nat, to: nat) {
    && yo + to <= |y|
    && forall i :: yo + from <= i < yo + to ==> y[i] == YAt(words, i - yo)
  }

  ghost predicate ChromaRead(words: seq<bv32>, u: seq<Sample>, v: seq<Sample>, co: nat, from: nat, to: nat) {
    && co + to <= |u| && co + to <= |v|
    && forall i :: co + from <= i < co + to ==> u[i] == UAt(words, i - co) && v[i] == VAt(words, i - co)
  }

  /** The n luma columns of group g stand in the plane. */
  ghost predicate LumaGroup(words: seq<bv32>, y: seq<Sample>, yi: nat, g: nat, n: nat) {
    && 4 * g + 3 < |words| && (n == 2 || n == 4 || n == 6) && yi + n <= |y|
    && y[yi] == Mid(words[4 * g]) && y[yi + 1] == Low(words[4 * g + 1])
    && (n >= 4 ==> y[yi + 2] == High(words[4 * g + 1]) && y[yi + 3] == Mid(words[4 * g + 2]))
    && (n == 6 ==> y[yi + 4] == Low(words[4 * g + 3]) && y[yi + 5] == High(words[4 * g + 3]))
  }

  lemma LumaColumn(words: seq<bv32>, y: seq<Sample>, yi: nat, g: nat, n: nat, k: nat)
    requires LumaGroup(words, y, yi, g, n) && k < n
    ensures y[yi + k] == YAt(words, 6 * g + k)
  {
    YColumns(words, g);
  }

  lemma LumaGroupRead(words: seq<bv32>, y: seq<Sample>, yo: nat, g: nat, n: nat)
    requires LumaGroup(words, y, yo + 6 * g, g, n)
    ensures LumaRead(words, y, yo, 6 * g, 6 * g + n)
  {
    forall i | yo + 6 * g <= i < yo + 6 * g + n ensures y[i] == YAt(words, i - yo) {
      LumaColumn(words, y, yo + 6 * g, g, n, i - yo - 6 * g);
    }
  }

  lemma ChromaGroupRead(words: seq<bv32>, u: seq<Sample>, v: seq<Sample>, co: nat, g: nat, n: nat)
    requires 4 * g + 3 < |words| && 1 <= n <= 3 && co + 3 * g + n <= |u| && co + 3 * g + n <= |v|
    requires u[co + 3 * g] == Low(words[4 * g]) && v[co + 3 * g] == High(words[4 * g])
    requires n >= 2 ==> u[co + 3 * g + 1] == Mid(words[4 * g + 1]) && v[co + 3 * g + 1] == Low(words[4 * g + 2])
    requires n == 3 ==> u[co + 3 * g + 2] == High(words[4 * g + 2]) && v[co + 3 * g + 2] == Mid(words[4 * g + 3])
    ensures ChromaRead(words, u, v, co, 3 * g, 3 * g + n)
  {
    UVColumns(words, g);
    forall i | co + 3 * g <= i < co + 3 * g + n ensures u[i] == UAt(words, i - co) && v[i] == VAt(words, i - co) {
      match i - co - 3 * g
      case 0 => assert i - co == 3 * g;
      case 1 => assert i - co == 3 * g + 1;
      case _ => assert i - co == 3 * g + 2;
    }
  }

  method UnpackLuma(words: seq<bv32>, g: nat, n: nat, y: array<Sample>, yo: nat)
    requires 4 * g + 3 < |words| && (n == 2 || n == 4 || n == 6) && yo + 6 * g + n <= y.Length
    modifies y
    ensures LumaRead(words, y[..], yo, 6 * g, 6 * g + n)
    ensures forall i :: 0 <= i < yo + 6 * g ==> y[i] == old(y[i])
  {
    var yi := yo + 6 * g;
    y[yi] := (words[4 * g] >> 10) & 0x3FF;
    y[yi + 1] := words[4 * g + 1] & 0x3FF;
    if n >= 4 {
      y[yi + 2] := (words[4 * g + 1] >> 20) & 0x3FF;
      y[yi + 3] := (words[4 * g + 2] >> 10) & 0x3FF;
    }
    if n == 6 {
      y[yi + 4] := words[4 * g + 3] & 0x3FF;
      y[yi + 5] := (words[4 * g + 3] >> 20) & 0x3FF;
    }
    LumaGroupRead(words, y[..], yo, g, n);
  }

  method UnpackChroma(words: seq<bv32>, g: nat, n: nat, u: array<Sample>, v: array<Sample>, co: nat)
    requires 4 * g + 3 < |words| && 1 <= n <= 3 && co + 3 * g + n <= u.Length && co + 3 * g + n <= v.Length && u != v
    modifies u, v
    ensures ChromaRead(words, u[..], v[..], co, 3 * g, 3 * g + n)
    ensures forall i :: 0 <= i < co + 3 * g ==> u[i] == old(u[i]) && v[i] == old(v[i])
  {
    var ci := co + 3 * g;
    u[ci] := words[4 * g] & 0x3FF;
    v[ci] := (words[4 * g] >> 20) & 0x3FF;
    if n >= 2 {
      u[ci + 1] := (words[4 * g + 1] >> 10) & 0x3FF;
      v[ci + 1] := words[4 * g + 2] & 0x3FF;
    }
    if n == 3 {
      u[ci + 2] := (words[4 * g + 2] >> 20) & 0x3FF;
      v[ci + 2] := (words[4 * g + 3] >> 10) & 0x3FF;
    }
    ChromaGroupRead(words, u[..], v[..], co, g, n);
  }

  lemma LumaJoins(words: seq<bv32>, before: seq<Sample>, after: seq<Sample>, yo: nat, x: nat, n: nat)
    requires LumaRead(words, before, yo, 0, x) && LumaRead(words, after, yo, x, x + n)
    requires forall i :: 0 <= i < yo + x && i < |after| ==> after[i] == before[i]
    ensures LumaRead(words, after, yo, 0, x + n)
  {
  }

  lemma ChromaJoins(words: seq<bv32>, u0: seq<Sample>, v0: seq<Sample>, u: seq<Sample>, v: seq<Sample>, co: nat, x: nat, n: nat)
    requires ChromaRead(words, u0, v0, co, 0, x) && ChromaRead(words, u, v, co, x, x + n)
    requires forall i :: 0 <= i < co + x && i < |u| && i < |v| ==> u[i] == u0[i] && v[i] == v0[i]
    ensures ChromaRead(words, u, v, co, 0, x + n)
  {
  }

  /** Reads group g of a row: 2, 4 or 6 luma columns and the chroma columns that go with them. */
  method UnpackGroup(words: seq<bv32>, g: nat, n: nat, y: array<Sample>, u: array<Sample>, v: array<Sample>, yo: nat, co: nat)
    requires 4 * g + 3 < |words| && (n == 2 || n == 4 || n == 6) && y != u && y != v && u != v
    requires yo + 6 * g + n <= y.Length && co + 3 * g + n / 2 <= u.Length && co + 3 * g + n / 2 <= v.Length
    requires LumaRead(words, y[..], yo, 0, 6 * g) && ChromaRead(words, u[..], v[..], co, 0, 3 * g)
    modifies y, u, v
    ensures LumaRead(words, y[..], yo, 0, 6 * g + n) && ChromaRead(words, u[..], v[..], co, 0, 3 * g + n / 2)
    ensures forall i :: 0 <= i < yo ==> y[i] == old(y[i])
    ensures forall i :: 0 <= i < co ==> u[i] == old(u[i]) && v[i] == old(v[i])
  {
    UnpackLuma(words, g, n, y, yo);
    LumaJoins(words, old(y[..]), y[..], yo, 6 * g, n);
    UnpackChroma(words, g, n / 2, u, v, co);
    ChromaJoins(words, old(u[..]), old(v[..]), u[..], v[..], co, 3 * g, n / 2);
  }

  method UnpackRow(words: seq<bv32>, y: array<Sample>, u: array<Sample>, v: array<Sample>, yo: nat, co: nat, width: nat)
    requires width % 2 == 0 && 4 * Groups(width) <= |words|
    requires y != u && y != v && u != v
    requires yo + width <= y.Length && co + width / 2 <= u.Length && co + width / 2 <= v.Length
    modifies y, u, v
    ensures LumaRead(words, y[..], yo, 0, width) && ChromaRead(words, u[..], v[..], co, 0, width / 2)
    ensures forall i :: 0 <= i < yo ==> y[i] == old(y[i])
    ensures forall i :: 0 <= i < co ==> u[i] == old(u[i]) && v[i] == old(v[i])
  {
    var width6 := width / 6 * 6;
    var rest := width - width6;
    var x, g := 0, 0;
    while x < width6
      invariant x == 6 * g <= width6
      invariant LumaRead(words, y[..], yo, 0, x) && ChromaRead(words, u[..], v[..], co, 0, 3 * g)
      invariant forall i :: 0 <= i < yo ==> y[i] == old(y[i])
      invariant forall i :: 0 <= i < co ==> u[i] == old(u[i]) && v[i] == old(v[i])
    {
      UnpackGroup(words, g, 6, y, u, v, yo, co);
      x, g := x + 6, g + 1;
    }
    if rest >= 2 {
      UnpackGroup(words, g, rest, y, u, v, yo, co);
    }
  }

  /** Row r of the picture has been read into the planes. */
  ghost predicate RowRead(src: seq<bv32>, y: seq<Sample>, u: seq<Sample>, v: seq<Sample>, pitchY: nat, pitchUV: nat, width: nat, r: nat) {
    && RowAt(r, OutPitch(width)) <= |src|
    && LumaRead(src[RowAt(r, OutPitch(width))..], y, RowAt(r, pitchY), 0, width)
    && ChromaRead(src[RowAt(r, OutPitch(width))..], u, v, RowAt(r, pitchUV), 0, width / 2)
  }

  lemma RowReadStays(src: seq<bv32>, y0: seq<Sample>, u0: seq<Sample>, v0: seq<Sample>, y: seq<Sample>, u: seq<Sample>,
                     v: seq<Sample>, pitchY: nat, pitchUV: nat, width: nat, r: nat, s: nat)
    requires r < s && RowRead(src, y0, u0, v0, pitchY, pitchUV, width, r) && width <= pitchY && width / 2 <= pitchUV
    requires |y| == |y0| && |u| == |u0| && |v| == |v0|
    requires forall i :: 0 <= i < RowAt(s, pitchY) && i < |y| ==> y[i] == y0[i]
    requires forall i :: 0 <= i < RowAt(s, pitchUV) && i < |u| ==> u[i] == u0[i]
    requires forall i :: 0 <= i < RowAt(s, pitchUV) && i < |v| ==> v[i] == v0[i]
    ensures RowRead(src, y, u, v, pitchY, pitchUV, width, r)
  {
    RowsApart(r, s, pitchY);
    RowsApart(r, s, pitchUV);
  }

  method V210ToYuv422p10(src: seq<bv32>, y: array<Sample>, u: array<Sample>, v: array<Sample>, pitchY: nat, pitchUV: nat,
                         width: nat, height: nat)
    requires width % 2 == 0 && width <= pitchY && width / 2 <= pitchUV && y != u && y != v && u != v
    requires forall r :: 0 <= r < height ==>
      && RowAt(r, OutPitch(width)) + 4 * Groups(width) <= |src| && RowAt(r, pitchY) + width <= y.Length
      && RowAt(r, pitchUV) + width / 2 <= u.Length && RowAt(r, pitchUV) + width / 2 <= v.Length
    modifies y, u, v
    ensures forall r :: 0 <= r < height ==> RowRead(src, y[..], u[..], v[..], pitchY, pitchUV, width, r)
  {
    for r := 0 to height
      invariant forall k :: 0 <= k < r ==> RowRead(src, y[..], u[..], v[..], pitchY, pitchUV, width, k)
    {
      ghost var y0, u0, v0 := y[..], u[..], v[..];
      UnpackRow(src[RowAt(r, OutPitch(width))..], y, u, v, RowAt(r, pitchY), RowAt(r, pitchUV), width);
      forall k | 0 <= k < r ensures RowRead(src, y[..], u[..], v[..], pitchY, pitchUV, width, k) {
        RowReadStays(src, y0, u0, v0, y[..], u[..], v[..], pitchY, pitchUV, width, k, r);
      }
    }
  }

  /** The visible part of a picture: all samples of all rows have ten bits. */
  ghost predicate TenBitPicture(y: seq<Sample>, u: seq<Sample>, v: seq<Sample>, pitchY: nat, pitchUV: nat, width: nat, height: nat) {
    forall r :: 0 <= r < height ==>
      && RowAt(r, pitchY) <= |y| && RowAt(r, pitchUV) <= |u| && RowAt(r, pitchUV) <= |v|
      && Visible10Bit(SourceRow(y, u, v, pitchY, pitchUV, r), width)
  }

  lemma LumaRowReturns(words: seq<bv32>, row: Row, y: seq<Sample>, yo: nat, width: nat)
    requires width % 2 == 0 && Visible10Bit(row, width) && RowPacked(words, row, Groups(width)) && LumaRead(words, y, yo, 0, width)
    ensures y[yo..yo + width] == row.y[..width]
  {
    forall c | 0 <= c < width ensures y[yo..yo + width][c] == row.y[..width][c] {
      LumaReturns(words, row, width, c);
      assert y[yo..yo + width][c] == y[yo + c];
    }
  }

  lemma ChromaRowReturns(words: seq<bv32>, row: Row, u: seq<Sample>, v: seq<Sample>, co: nat, width: nat)
    requires width % 2 == 0 && Visible10Bit(row, width) && RowPacked(words, row, Groups(width))
    requires ChromaRead(words, u, v, co, 0, width / 2)
    ensures u[co..co + width / 2] == row.u[..width / 2] && v[co..co + width / 2] == row.v[..width / 2]
  {
    forall c | 0 <= c < width / 2
      ensures u[co..co + width / 2][c] == row.u[..width / 2][c] && v[co..co + width / 2][c] == row.v[..width / 2][c]
    {
      ChromaReturns(words, row, width, c);
      assert u[co..co + width / 2][c] == u[co + c] && v[co..co + width / 2][c] == v[co + c];
    }
  }

  /** A picture of even width packed into words and read back is the same picture, row by row and plane by plane. */
  lemma RoundTrip(words: seq<bv32>, y: seq<Sample>, u: seq<Sample>, v: seq<Sample>, pitchY: nat, pitchUV: nat,
                  y': seq<Sample>, u': seq<Sample>, v': seq<Sample>, pitchY': nat, pitchUV': nat, width: nat, height: nat, r: nat)
    requires width % 2 == 0 && r < height && TenBitPicture(y, u, v, pitchY, pitchUV, width, height)
    requires HoldsRow(words, y, u, v, pitchY, pitchUV, width, r)
    requires RowRead(words, y', u', v', pitchY', pitchUV', width, r)
    ensures y'[RowAt(r, pitchY')..RowAt(r, pitchY') + width] == SourceRow(y, u, v, pitchY, pitchUV, r).y[..width]
    ensures u'[RowAt(r, pitchUV')..RowAt(r, pitchUV') + width / 2] == SourceRow(y, u, v, pitchY, pitchUV, r).u[..width / 2]
    ensures v'[RowAt(r, pitchUV')..RowAt(r, pitchUV') + width / 2] == SourceRow(y, u, v, pitchY, pitchUV, r).v[..width / 2]
  {
    LumaRowReturns(words[RowAt(r, OutPitch(width))..], SourceRow(y, u, v, pitchY, pitchUV, r), y', RowAt(r, pitchY'), width);
    ChromaRowReturns(words[RowAt(r, OutPitch(width))..], SourceRow(y, u, v, pitchY, pitchUV, r), u', v', RowAt(r, pitchUV'), width);
  }

  lemma RowsFit(r: nat, height: nat, pitch: nat)
    requires r < height
    ensures RowAt(r, pitch) + pitch <= RowAt(height, pitch)
  {
    RowsApart(r, height, pitch);
  }

  /** Row r of the tightly stored planes is row r of the picture. */
  ghost predicate RowReturned(y: seq<Sample>, u: seq<Sample>, v: seq<Sample>, pitchY: nat, pitchUV: nat,
                              y': seq<Sample>, u': seq<Sample>, v': seq<Sample>, width: nat, r: nat) {
    && RowAt(r, pitchY) + width <= |y| && RowAt(r, pitchUV) + width / 2 <= |u| && RowAt(r, pitchUV) + width / 2 <= |v|
    && RowAt(r, width) + width <= |y'| && RowAt(r, width / 2) + width / 2 <= |u'| && RowAt(r, width / 2) + width / 2 <= |v'|
    && y'[RowAt(r, width)..RowAt(r, width) + width] == y[RowAt(r, pitchY)..RowAt(r, pitchY) + width]
    && u'[RowAt(r, width / 2)..RowAt(r, width / 2) + width / 2] == u[RowAt(r, pitchUV)..RowAt(r, pitchUV) + width / 2]
    && v'[RowAt(r, width / 2)..RowAt(r, width / 2) + width / 2] == v[RowAt(r, pitchUV)..RowAt(r, pitchUV) + width / 2]
  }

  lemma RowComesBack(words: seq<bv32>, y: seq<Sample>, u: seq<Sample>, v: seq<Sample>, pitchY: nat, pitchUV: nat,
                     y': seq<Sample>, u': seq<Sample>, v': seq<Sample>, width: nat, height: nat, r: nat)
    requires width % 2 == 0 && r < height && TenBitPicture(y, u, v, pitchY, pitchUV, width, height)
    requires HoldsRow(words, y, u, v, pitchY, pitchUV, width, r)
    requires RowRead(words, y', u', v', width, width / 2, width, r)
    ensures RowReturned(y, u, v, pitchY, pitchUV, y', u', v', width, r)
  {
    assert Visible10Bit(SourceRow(y, u, v, pitchY, pitchUV, r), width);
    RoundTrip(words, y, u, v, pitchY, pitchUV, y', u', v', width, width / 2, width, height, r);
    SliceOfTail(y, RowAt(r, pitchY), width);
    SliceOfTail(u, RowAt(r, pitchUV), width / 2);
    SliceOfTail(v, RowAt(r, pitchUV), width / 2);
  }

  lemma SliceOfTail(s: seq<Sample>, from: nat, n: nat)
    requires from + n <= |s|
    ensures s[from..][..n] == s[from..from + n]
  {
  }

  method Pack(y: seq<Sample>, u: seq<Sample>, v: seq<Sample>, pitchY: nat, pitchUV: nat, width: nat, height: nat)
    returns (words: seq<bv32>)
    requires width % 2 == 0 && forall r :: 0 <= r < height ==> Readable(y, u, v, pitchY, pitchUV, width, r)
    ensures |words| == RowAt(height, OutPitch(width)) + 4
    ensures forall r :: 0 <= r < height ==> HoldsRow(words, y, u, v, pitchY, pitchUV, width, r)
  {
    var dst := new bv32[RowAt(height, OutPitch(width)) + 4](_ => 0);
    if height > 0 {
      RowsFit(height - 1, height, OutPitch(width));
    }
    Yuv422p10ToV210(dst, y, u, v, pitchY, pitchUV, width, height);
    words := dst[..];
  }

  method Unpack(words: seq<bv32>, width: nat, height: nat) returns (y: seq<Sample>, u: seq<Sample>, v: seq<Sample>)
    requires width % 2 == 0 && |words| >= RowAt(height, OutPitch(width))
    ensures forall r :: 0 <= r < height ==> RowRead(words, y, u, v, width, width / 2, width, r)
  {
    var a := new Sample[RowAt(height, width)](_ => 0);
    var b := new Sample[RowAt(height, width / 2)](_ => 0);
    var c := new Sample[RowAt(height, width / 2)](_ => 0);
    forall r | 0 <= r < height
      ensures RowAt(r, OutPitch(width)) + 4 * Groups(width) <= |words|
      ensures RowAt(r, width) + width <= a.Length && RowAt(r, width / 2) + width / 2 <= b.Length
    {
      RowsFit(r, height, OutPitch(width));
      RowsFit(r, height, width);
      RowsFit(r, height, width / 2);
    }
    V210ToYuv422p10(words, a, b, c, width, width / 2, width, height);
    y, u, v := a[..], b[..], c[..];
  }

  /** The writer and then the reader, on any picture of even width and ten-bit samples: all rows of all planes return. */
  method PackAndUnpack(y: seq<Sample>, u: seq<Sample>, v: seq<Sample>, pitchY: nat, pitchUV: nat, width: nat, height: nat)
    returns (y': seq<Sample>, u': seq<Sample>, v': seq<Sample>)
    requires width % 2 == 0 && TenBitPicture(y, u, v, pitchY, pitchUV, width, height)
    requires forall r :: 0 <= r < height ==> Readable(y, u, v, pitchY, pitchUV, width, r)
    ensures forall r :: 0 <= r < height ==> RowReturned(y, u, v, pitchY, pitchUV, y', u', v', width, r)
  {
    var words := Pack(y, u, v, pitchY, pitchUV, width, height);
    y', u', v' := Unpack(words, width, height);
    forall r | 0 <= r < height ensures RowReturned(y, u, v, pitchY, pitchUV, y', u', v', width, r) {
      RowComesBack(words, y, u, v, pitchY, pitchUV, y', u', v', width, height, r);
    }
  }
}
