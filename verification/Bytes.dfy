/** Little-endian integers in byte strings, and records laid out as rows of eight bytes. */
module Bytes {
  import opened DebugState

  function Pow256(n: nat): (p: nat)
    ensures p > 0
  {
    if n == 0 then 1 else 256 * Pow256(n - 1)
  }

  /** The `n` low bytes of `x`, least significant first. */
  function LittleEndian(x: nat, n: nat): (bytes: seq<U8>)
    ensures |bytes| == n
  {
    if n == 0 then [] else [x % 256] + LittleEndian(x / 256, n - 1)
  }

  /** `struct.unpack_from("<...", data, offset)` for an unsigned integer of `n` bytes. */
  function ReadLE(data: seq<U8>, offset: nat, n: nat): (x: nat)
    requires offset + n <= |data|
    decreases n
  {
    if n == 0 then 0 else data[offset] + 256 * ReadLE(data, offset + 1, n - 1)
  }

  lemma {:induction false} ReadIsLocal(data: seq<U8>, a: nat, b: nat, offset: nat, n: nat)
    requires a <= b <= |data| && offset + n <= b - a
    ensures ReadLE(data, a + offset, n) == ReadLE(data[a..b], offset, n)
    decreases n
  {
    if n > 0 {
      ReadIsLocal(data, a, b, offset + 1, n - 1);
    }
  }

  lemma {:induction false} ReadBack(before: seq<U8>, x: nat, n: nat, after: seq<U8>)
    requires x < Pow256(n)
    ensures ReadLE(before + LittleEndian(x, n) + after, |before|, n) == x
    decreases n
  {
    if n > 0 {
      var data := before + LittleEndian(x, n) + after;
      var head := before + [x % 256];
      ReadBack(head, x / 256, n - 1, after);
      assert data == head + LittleEndian(x / 256, n - 1) + after;
      assert data[|before|] == x % 256;
    }
  }

  lemma {:induction false} ReadFitsWidth(data: seq<U8>, offset: nat, n: nat)
    requires offset + n <= |data|
    ensures ReadLE(data, offset, n) < Pow256(n)
    decreases n
  {
    if n > 0 {
      ReadFitsWidth(data, offset + 1, n - 1);
    }
  }

  lemma Pow256Values()
    ensures Pow256(1) == 0x100 && Pow256(2) == 0x1_0000 && Pow256(4) == 0x1_0000_0000
    ensures Pow256(6) == 0x1_0000_0000_0000 && Pow256(7) == 0x100_0000_0000_0000
    ensures Pow256(8) == 0x1_0000_0000_0000_0000
  {
    assert Pow256(3) == 0x100_0000;
    assert Pow256(5) == 0x100_0000_0000;
    assert Pow256(6) == 0x1_0000_0000_0000;
  }

  function ReadU16(data: seq<U8>, offset: nat): U16 requires offset + 2 <= |data| {
    ReadFitsWidth(data, offset, 2); Pow256Values(); ReadLE(data, offset, 2)
  }

  function ReadU32(data: seq<U8>, offset: nat): U32 requires offset + 4 <= |data| {
    ReadFitsWidth(data, offset, 4); Pow256Values(); ReadLE(data, offset, 4)
  }

  function ReadU64(data: seq<U8>, offset: nat): U64 requires offset + 8 <= |data| {
    ReadFitsWidth(data, offset, 8); Pow256Values(); ReadLE(data, offset, 8)
  }

  // --- Rows --------------------------------------------------------------------------------

  type Row = r: seq<U8> | |r| == 8 witness [0, 0, 0, 0, 0, 0, 0, 0]

  function Row64(x: U64): Row { LittleEndian(x, 8) }
  function Row32(a: U32, b: U32): Row { LittleEndian(a, 4) + LittleEndian(b, 4) }
  function Row16(a: U16, b: U16, c: U16, d: U16): Row {
    LittleEndian(a, 2) + LittleEndian(b, 2) + LittleEndian(c, 2) + LittleEndian(d, 2)
  }
  function Row1616_32(a: U16, b: U16, c: U32): Row { LittleEndian(a, 2) + LittleEndian(b, 2) + LittleEndian(c, 4) }
  function Row32_1616(a: U32, b: U16, c: U16): Row { LittleEndian(a, 4) + LittleEndian(b, 2) + LittleEndian(c, 2) }
  function Row8(a: U8): Row { LittleEndian(a, 1) + LittleEndian(0, 7) }

  function Flatten(rows: seq<Row>): (data: seq<U8>)
    ensures |data| == 8 * |rows|
  {
    if rows == [] then [] else Flatten(rows[..|rows| - 1]) + rows[|rows| - 1]
  }

  lemma {:induction false} FlattenAppend(a: seq<Row>, b: seq<Row>)
    ensures Flatten(a + b) == Flatten(a) + Flatten(b)
    decreases |b|
  {
    if b == [] {
      assert a + b == a;
    } else {
      var front, last := b[..|b| - 1], b[|b| - 1];
      assert (a + b)[..|a + b| - 1] == a + front && (a + b)[|a + b| - 1] == last;
      FlattenAppend(a, front);
    }
  }

  /** Rows `a..b` are bytes `8 * a..8 * b`. */
  lemma FlattenSlice(rows: seq<Row>, a: nat, b: nat)
    requires a <= b <= |rows|
    ensures Flatten(rows)[8 * a..8 * b] == Flatten(rows[a..b])
  {
    SplitTwice(rows, a, b);
    FlattenMiddle(rows[..a], rows[a..b], rows[b..], 8 * a, 8 * b);
  }

  lemma SplitTwice<T>(s: seq<T>, a: nat, b: nat)
    requires a <= b <= |s|
    ensures s == s[..a] + s[a..b] + s[b..] && |s[..a]| == a && |s[a..b]| == b - a
  {
  }

  lemma FlattenMiddle(x: seq<Row>, y: seq<Row>, z: seq<Row>, from: nat, to: nat)
    requires from == 8 * |x| && to == 8 * |x| + 8 * |y|
    ensures to <= |Flatten(x + y + z)| && Flatten(x + y + z)[from..to] == Flatten(y)
  {
    FlattenAppend(x + y, z);
    FlattenAppend(x, y);
    ThreeParts(Flatten(x + y + z), Flatten(x), Flatten(y), Flatten(z));
  }

  /** Byte strings one after the other, found again by their offsets. */
  lemma ThreeParts<T>(data: seq<T>, a: seq<T>, b: seq<T>, c: seq<T>)
    requires data == a + b + c
    ensures data[..|a|] == a && data[|a|..|a| + |b|] == b && data[|a| + |b|..|a| + |b| + |c|] == c
    ensures |data| == |a| + |b| + |c|
  {
  }

  lemma FlattenRow(rows: seq<Row>, k: nat)
    requires k < |rows|
    ensures Flatten(rows)[8 * k..8 * k + 8] == rows[k]
  {
    FlattenSlice(rows, k, k + 1);
    assert rows[k..k + 1] == [rows[k]];
    FlattenOne(rows[k]);
  }

  lemma FlattenOne(row: Row)
    ensures Flatten([row]) == row
  {
    assert [row][..0] == [];
  }

  /** Reading `n` bytes at `offset` yields `x`. */
  predicate FieldIs(data: seq<U8>, offset: nat, n: nat, x: nat) {
    offset + n <= |data| && ReadLE(data, offset, n) == x
  }

  lemma ReadInRow(data: seq<U8>, start: nat, row: Row, before: seq<U8>, x: nat, n: nat, after: seq<U8>)
    requires start + 8 <= |data| && data[start..start + 8] == row
    requires row == before + LittleEndian(x, n) + after && x < Pow256(n)
    ensures FieldIs(data, start + |before|, n, x)
  {
    assert |row| == |before| + n + |after|;
    ReadIsLocal(data, start, start + 8, |before|, n);
    ReadBack(before, x, n, after);
  }

  /** A field that starts `|before|` bytes into row `k`. */
  lemma ReadRow(rows: seq<Row>, k: nat, before: seq<U8>, x: nat, n: nat, after: seq<U8>)
    requires k < |rows| && rows[k] == before + LittleEndian(x, n) + after && x < Pow256(n)
    ensures FieldIs(Flatten(rows), 8 * k + |before|, n, x)
  {
    FlattenRow(rows, k);
    ReadInRow(Flatten(rows), 8 * k, rows[k], before, x, n, after);
  }

  lemma ReadRow64(rows: seq<Row>, k: nat, x: U64)
    requires k < |rows| && rows[k] == Row64(x)
    ensures ReadU64(Flatten(rows), 8 * k) == x
  {
    Pow256Values();
    assert rows[k] == [] + LittleEndian(x, 8) + [];
    ReadRow(rows, k, [], x, 8, []);
  }

  lemma ReadRow32(rows: seq<Row>, k: nat, a: U32, b: U32)
    requires k < |rows| && rows[k] == Row32(a, b)
    ensures ReadU32(Flatten(rows), 8 * k) == a && ReadU32(Flatten(rows), 8 * k + 4) == b
  {
    Pow256Values();
    var x, y := LittleEndian(a, 4), LittleEndian(b, 4);
    assert rows[k] == [] + x + y == x + y + [];
    ReadRow(rows, k, [], a, 4, y);
    ReadRow(rows, k, x, b, 4, []);
  }

  lemma FourFields(w: seq<U8>, x: seq<U8>, y: seq<U8>, z: seq<U8>)
    ensures w + x + y + z == [] + w + (x + y + z) == w + x + (y + z)
    ensures w + x + y + z == (w + x) + y + z == (w + x + y) + z + []
  {
  }

  lemma ReadRow16(rows: seq<Row>, k: nat, a: U16, b: U16, c: U16, d: U16)
    requires k < |rows| && rows[k] == Row16(a, b, c, d)
    ensures ReadU16(Flatten(rows), 8 * k) == a && ReadU16(Flatten(rows), 8 * k + 2) == b
    ensures ReadU16(Flatten(rows), 8 * k + 4) == c && ReadU16(Flatten(rows), 8 * k + 6) == d
  {
    Pow256Values();
    var w, x, y, z := LittleEndian(a, 2), LittleEndian(b, 2), LittleEndian(c, 2), LittleEndian(d, 2);
    FourFields(w, x, y, z);
    ReadRow(rows, k, [], a, 2, x + y + z);
    ReadRow(rows, k, w, b, 2, y + z);
    ReadRow(rows, k, w + x, c, 2, z);
    ReadRow(rows, k, w + x + y, d, 2, []);
  }

  lemma ReadRow1616_32(rows: seq<Row>, k: nat, a: U16, b: U16, c: U32)
    requires k < |rows| && rows[k] == Row1616_32(a, b, c)
    ensures ReadU16(Flatten(rows), 8 * k) == a && ReadU16(Flatten(rows), 8 * k + 2) == b
    ensures ReadU32(Flatten(rows), 8 * k + 4) == c
  {
    Pow256Values();
    var x, y, z := LittleEndian(a, 2), LittleEndian(b, 2), LittleEndian(c, 4);
    assert rows[k] == [] + x + (y + z) == x + y + z == (x + y) + z + [];
    ReadRow(rows, k, [], a, 2, y + z);
    ReadRow(rows, k, x, b, 2, z);
    ReadRow(rows, k, x + y, c, 4, []);
  }

  lemma ReadRow32_1616(rows: seq<Row>, k: nat, a: U32, b: U16, c: U16)
    requires k < |rows| && rows[k] == Row32_1616(a, b, c)
    ensures ReadU32(Flatten(rows), 8 * k) == a
    ensures ReadU16(Flatten(rows), 8 * k + 4) == b && ReadU16(Flatten(rows), 8 * k + 6) == c
  {
    Pow256Values();
    var x, y, z := LittleEndian(a, 4), LittleEndian(b, 2), LittleEndian(c, 2);
    assert rows[k] == [] + x + (y + z) == x + y + z == (x + y) + z + [];
    ReadRow(rows, k, [], a, 4, y + z);
    ReadRow(rows, k, x, b, 2, z);
    ReadRow(rows, k, x + y, c, 2, []);
  }

  lemma FirstOfSlice(data: seq<U8>, start: nat, row: Row)
    requires start + 8 <= |data| && data[start..start + 8] == row
    ensures data[start] == row[0]
  {
  }

  lemma FirstByteOfRow(rows: seq<Row>, k: nat)
    requires k < |rows|
    ensures 8 * k < |Flatten(rows)| && Flatten(rows)[8 * k] == rows[k][0]
  {
    FlattenRow(rows, k);
    FirstOfSlice(Flatten(rows), 8 * k, rows[k]);
  }

  lemma Row8First(a: U8)
    ensures Row8(a)[0] == a
  {
    assert Row8(a)[0] == LittleEndian(a, 1)[0];
  }

  lemma ReadRow8(rows: seq<Row>, k: nat, a: U8)
    requires k < |rows| && rows[k] == Row8(a)
    ensures Flatten(rows)[8 * k] == a
  {
    FirstByteOfRow(rows, k);
    Row8First(a);
  }

  // --- Arrays of equally long records --------------------------------------------------------

  function Concat<T>(chunks: seq<seq<T>>): seq<T> {
    if chunks == [] then [] else Concat(chunks[..|chunks| - 1]) + chunks[|chunks| - 1]
  }

  lemma NextMultiple(n: nat, size: nat)
    ensures (n + 1) * size == n * size + size
  {
  }

  lemma {:induction false} ConcatLength<T>(chunks: seq<seq<T>>, size: nat)
    requires forall k :: 0 <= k < |chunks| ==> |chunks[k]| == size
    ensures |Concat(chunks)| == |chunks| * size
  {
    if chunks != [] {
      var front := chunks[..|chunks| - 1];
      ConcatLength(front, size);
      NextMultiple(|front|, size);
    }
  }

  /** Record `k` of an array starts at `k * size`, and the records do not overlap. */
  lemma {:induction false} ConcatChunk<T>(chunks: seq<seq<T>>, size: nat, k: nat)
    requires forall j :: 0 <= j < |chunks| ==> |chunks[j]| == size
    requires k < |chunks|
    ensures 0 <= k * size <= (k + 1) * size <= |Concat(chunks)|
    ensures Concat(chunks)[k * size..(k + 1) * size] == chunks[k]
  {
    var last := |chunks| - 1;
    ConcatLength(chunks, size);
    ConcatLength(chunks[..last], size);
    if k < last {
      ConcatChunk(chunks[..last], size, k);
    }
    assert (k + 1) * size == k * size + size;
  }
}
