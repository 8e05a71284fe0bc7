/** Placing partitions on a disk image, and choosing the size of the disk. */
module DiskLayout {
  import opened Wrappers

  const SECTOR: nat := 512
  const BLOCK: nat := 4096
  const MIB: nat := 1024 * 1024
  /** Sectors of a mebibyte, of an ext4 block, and at the end of a GPT disk. */
  const MIB_SECTORS: nat := 2048
  const ALIGNMENT: nat := 8
  const GPT_SECTORS: nat := 34
  const START: nat := 2048
  const LOADER1: nat := 4096
  const LOADER2: nat := 8192

  datatype Table = Mbr | Gpt
  datatype BootLayout = Vf2 | BootRoot
  type LayoutResult<T> = Result<T, Error>
  datatype Error =
    | TooManyPartitions | TypeCount | RootTooSmall | EmptyImage(index: nat) | DiskTooSmall
    | InvalidType(index: nat) | WrongCount

  datatype Extent = Extent(start: nat, sectors: nat)

  /** A whole number of ext4 blocks. */
  predicate Whole(sectors: int) { sectors % ALIGNMENT == 0 }

  function TableSectors(table: Table): nat { if table == Gpt then GPT_SECTORS else 0 }

  function Sum(s: seq<nat>): nat {
    if s == [] then 0 else Sum(s[..|s| - 1]) + s[|s| - 1]
  }

  /** Whole ext4 blocks, and whole mebibytes, that hold `size` bytes. */
  function Blocks(size: nat): nat { (size + 4095) / 4096 }
  function Mebis(size: nat): nat { (size + 1048575) / 1048576 }

  /** The sectors that hold an image, in whole ext4 blocks. */
  function ImageSectors(size: nat): nat { Blocks(size) * ALIGNMENT }

  function ImageSizes(extras: seq<nat>): (sizes: seq<nat>)
    ensures |sizes| == |extras|
  {
    seq(|extras|, i requires 0 <= i < |extras| => ImageSectors(extras[i]))
  }

  /** Extents of the given sizes, one directly after the other. */
  function Place(start: nat, sizes: seq<nat>): (extents: seq<Extent>)
    ensures |extents| == |sizes|
  {
    seq(|sizes|, i requires 0 <= i < |sizes| => Extent(start + Sum(sizes[..i]), sizes[i]))
  }

  // --- Partition types ---------------------------------------------------------------------------------

  predicate IsSpace(c: char) { c == ' ' || '\t' <= c <= '\r' || '\U{1C}' <= c <= '\U{1F}' }
  predicate IsLetter(c: char) { 'A' <= c <= 'Z' || 'a' <= c <= 'z' }
  predicate IsHex(c: char) { '0' <= c <= '9' || 'A' <= c <= 'F' || 'a' <= c <= 'f' }

  function Stripped(s: string): string
    decreases |s|
  {
    if s == "" then s
    else if IsSpace(s[0]) then Stripped(s[1..])
    else if IsSpace(s[|s| - 1]) then Stripped(s[..|s| - 1])
    else s
  }

  /** A GPT type is a letter or a GUID, an MBR type one or two hexadecimal digits. */
  predicate ValidType(value: string, table: Table) {
    var t := Stripped(value);
    match table
    case Mbr => 1 <= |t| <= 2 && forall i :: 0 <= i < |t| ==> IsHex(t[i])
    case Gpt => (|t| == 1 && IsLetter(t[0])) || IsGuid(t)
  }

  predicate IsGuid(t: string) {
    |t| == 36 && forall i :: 0 <= i < 36 ==>
      if i == 8 || i == 13 || i == 18 || i == 23 then t[i] == '-' else IsHex(t[i])
  }

  predicate BadType(types: seq<string>, table: Table, i: nat) { i < |types| && !ValidType(types[i], table) }

  lemma BadInTail(types: seq<string>, table: Table)
    requires types != []
    ensures forall i: nat :: 0 < i ==> (BadType(types, table, i) <==> BadType(types[1..], table, i - 1))
  {
  }

  ghost function FirstBad(types: seq<string>, table: Table): (k: nat)
    requires exists i: nat :: BadType(types, table, i)
    ensures BadType(types, table, k) && forall i: nat :: i < k ==> !BadType(types, table, i)
  {
    if BadType(types, table, 0) then 0
    else
      var i: nat :| BadType(types, table, i);
      BadInTail(types, table);
      1 + FirstBad(types[1..], table)
  }

  /** What follows the placement: the types are checked, the disk is partitioned, and the number of
      partitions that are read back is compared. */
  ghost function Finished(plan: LayoutResult<seq<Extent>>, types: seq<string>, table: Table, readBack: nat): LayoutResult<seq<Extent>> {
    if plan.Err? then plan
    else if exists i: nat :: BadType(types, table, i) then Err(InvalidType(FirstBad(types, table)))
    else if readBack != |plan.value| then Err(WrongCount)
    else plan
  }

  method Finish(extents: seq<Extent>, types: seq<string>, table: Table, readBack: nat) returns (r: LayoutResult<seq<Extent>>)
    ensures r == Finished(Ok(extents), types, table, readBack)
  {
    for i := 0 to |types|
      invariant forall j :: 0 <= j < i ==> !BadType(types, table, j)
    {
      if !ValidType(types[i], table) {
        assert BadType(types, table, i);
        return Err(InvalidType(i));
      }
    }
    return if readBack != |extents| then Err(WrongCount) else Ok(extents);
  }

  // --- Rounding -----------------------------------------------------------------------------------

  /** Rounding to sectors and then to blocks is rounding to blocks. */
  lemma TwoRoundings(size: nat)
    ensures ((size + 511) / 512 + 7) / 8 == Blocks(size)
  {
  }

  lemma EmptyImageSectors(size: nat)
    ensures ImageSectors(size) == 0 <==> size == 0
  {
  }

  method AlignedSectors(size: nat) returns (sectors: nat)
    ensures sectors == ImageSectors(size)
  {
    sectors := (size + SECTOR - 1) / SECTOR;
    sectors := (sectors + ALIGNMENT - 1) / ALIGNMENT * ALIGNMENT;
    TwoRoundings(size);
  }

  method MebibyteSectors(mib: nat) returns (sectors: nat)
    ensures sectors == mib * MIB_SECTORS
  {
    sectors := mib * 1024 * 1024 / SECTOR;
    sectors := sectors - sectors % ALIGNMENT;
  }

  method ExtraSectors(extras: seq<nat>) returns (sizes: seq<nat>)
    ensures sizes == ImageSizes(extras)
  {
    sizes := [];
    for i := 0 to |extras|
      invariant sizes == ImageSizes(extras)[..i]
    {
      var sectors := AlignedSectors(extras[i]);
      sizes := sizes + [sectors];
    }
  }

  lemma SumNext(s: seq<nat>, i: nat)
    requires i < |s|
    ensures Sum(s[..i + 1]) == Sum(s[..i]) + s[i]
  {
    assert s[..i + 1][..i] == s[..i];
  }

  method SumOf(s: seq<nat>) returns (sum: nat)
    ensures sum == Sum(s)
  {
    sum := 0;
    for i := 0 to |s|
      invariant sum == Sum(s[..i])
    {
      SumNext(s, i);
      sum := sum + s[i];
    }
    assert s[..|s|] == s;
  }

  // --- Root first, then the images -------------------------------------------------------------------

  function WithImagesSizes(rootMib: nat, extras: seq<nat>): seq<nat> {
    [rootMib * MIB_SECTORS] + ImageSizes(extras)
  }

  /** The layout of root and extra images, or the first check that fails. */
  function WithImages(total: nat, rootMib: int, extras: seq<nat>, types: nat, table: Table): LayoutResult<seq<Extent>> {
    if table == Mbr && |extras| + 1 > 4 then Err(TooManyPartitions)
    else if types != 0 && types != |extras| then Err(TypeCount)
    else if rootMib < 16 then Err(RootTooSmall)
    else if exists i :: 0 <= i < |extras| && extras[i] == 0 then
      Err(EmptyImage(FirstEmpty(extras)))
    else
      var sizes := WithImagesSizes(rootMib, extras);
      if START + Sum(sizes) + TableSectors(table) > total then Err(DiskTooSmall)
      else Ok(Place(START, sizes))
  }

  function FirstEmpty(extras: seq<nat>): (k: nat)
    requires exists i :: 0 <= i < |extras| && extras[i] == 0
    ensures k < |extras| && extras[k] == 0 && forall j :: 0 <= j < k ==> extras[j] != 0
  {
    if extras[0] == 0 then 0
    else
      assert exists i :: 0 <= i < |extras[1..]| && extras[1..][i] == 0 by {
        var i :| 0 <= i < |extras| && extras[i] == 0;
        assert extras[1..][i - 1] == 0;
      }
      1 + FirstEmpty(extras[1..])
  }

  method MakeTableWithImages(imageBytes: nat, rootMib: int, extras: seq<nat>, types: seq<string>, table: Table, readBack: nat)
    returns (r: LayoutResult<seq<Extent>>)
    ensures r == Finished(WithImages(imageBytes / SECTOR, rootMib, extras, |types|, table), types, table, readBack)
  {
    if table == Mbr && |extras| + 1 > 4 {
      return Err(TooManyPartitions);
    }
    if |types| != 0 && |types| != |extras| {
      return Err(TypeCount);
    }
    if rootMib < 16 {
      return Err(RootTooSmall);
    }
    var total := imageBytes / SECTOR;
    var rootSectors := MebibyteSectors(rootMib);
    var rest, cursor := PlaceImages(START + rootSectors, extras);
    if rest.Err? {
      return Err(rest.error);
    }
    PlaceAppend(START, [rootSectors], ImageSizes(extras));
    SumAppend([rootSectors], ImageSizes(extras));
    PlaceOne(START, rootSectors);
    if cursor + TableSectors(table) > total {
      return Err(DiskTooSmall);
    }
    r := Finish([Extent(START, rootSectors)] + rest.value, types, table, readBack);
  }

  lemma PlaceOne(start: nat, size: nat)
    ensures Place(start, [size]) == [Extent(start, size)] && Sum([size]) == size
  {
    assert [size][..0] == [];
  }

  /** The loop over the images: `cursor` ends behind the last of them. */
  method PlaceImages(start: nat, extras: seq<nat>) returns (r: LayoutResult<seq<Extent>>, cursor: nat)
    ensures (exists i :: 0 <= i < |extras| && extras[i] == 0) ==> r == Err(EmptyImage(FirstEmpty(extras)))
    ensures (forall i :: 0 <= i < |extras| ==> extras[i] != 0) ==>
              r == Ok(Place(start, ImageSizes(extras))) && cursor == start + Sum(ImageSizes(extras))
  {
    var extents: seq<Extent> := [];
    cursor := start;
    ghost var sizes := ImageSizes(extras);
    for i := 0 to |extras|
      invariant extents == Place(start, sizes)[..i] && cursor == start + Sum(sizes[..i])
      invariant forall j :: 0 <= j < i ==> extras[j] != 0
    {
      var sectors := AlignedSectors(extras[i]);
      EmptyImageSectors(extras[i]);
      if sectors == 0 {
        return Err(EmptyImage(i)), cursor;
      }
      SumNext(sizes, i);
      extents := extents + [Extent(cursor, sectors)];
      cursor := cursor + sectors;
    }
    assert sizes[..|sizes|] == sizes && Place(start, sizes)[..|sizes|] == Place(start, sizes);
    return Ok(extents), cursor;
  }

  // --- Boot partitions first, root takes what the images leave -----------------------------------------

  /** Sectors before the root partition. */
  function Ahead(layout: BootLayout, bootMib: int): int {
    (if layout == Vf2 then LOADER1 + LOADER2 else 0) + bootMib * MIB_SECTORS
  }

  function Front(layout: BootLayout, bootMib: nat): seq<nat> {
    (if layout == Vf2 then [LOADER1, LOADER2] else []) + [bootMib * MIB_SECTORS]
  }

  function WholeBlocks(sectors: int): (whole: int)
    ensures Whole(whole) && whole <= sectors < whole + ALIGNMENT
  {
    sectors - sectors % ALIGNMENT
  }

  /** The sectors that remain for root and the backup table. */
  function Free(total: nat, layout: BootLayout, bootMib: int, extras: seq<nat>): int {
    total - START - Ahead(layout, bootMib) - Sum(ImageSizes(extras))
  }

  /** The sectors that the root partition gets, in whole blocks; negative when there is no room. */
  function RootSectors(total: nat, layout: BootLayout, bootMib: int, extras: seq<nat>, table: Table): int {
    WholeBlocks(Free(total, layout, bootMib, extras) - TableSectors(table))
  }

  function BootFirst(total: nat, layout: BootLayout, bootMib: int, extras: seq<nat>, types: nat, table: Table)
    : LayoutResult<seq<Extent>>
  {
    if table == Mbr && |extras| > (if layout == Vf2 then 0 else 2) then Err(TooManyPartitions)
    else if types != 0 && types != |extras| then Err(TypeCount)
    else
      var root := RootSectors(total, layout, bootMib, extras, table);
      if bootMib <= 0 || root <= 0 then Err(DiskTooSmall)
      else Ok(Place(START, BootSizes(layout, bootMib, root, extras)))
  }

  method MakeTableVf2(imageBytes: nat, bootMib: int, extras: seq<nat>, types: seq<string>, table: Table, readBack: nat)
    returns (r: LayoutResult<seq<Extent>>)
    ensures r == Finished(BootFirst(imageBytes / SECTOR, Vf2, bootMib, extras, |types|, table), types, table, readBack)
  {
    if table == Mbr && |extras| > 0 {
      return Err(TooManyPartitions);
    }
    if |types| != 0 && |types| != |extras| {
      return Err(TypeCount);
    }
    var total := imageBytes / SECTOR;
    var loader2Start := START + LOADER1;
    var bootStart := loader2Start + LOADER2;
    var bootSectors := bootMib * MIB_SECTORS;
    var rootStart := bootStart + bootSectors;
    var extraSectors := ExtraSectors(extras);
    var sum := SumOf(extraSectors);
    var rootSectors := total - rootStart - sum - TableSectors(table);
    rootSectors := rootSectors - rootSectors % ALIGNMENT;
    if bootSectors <= 0 || rootSectors <= 0 {
      return Err(DiskTooSmall);
    }
    var base := [Extent(START, LOADER1), Extent(loader2Start, LOADER2),
                 Extent(bootStart, bootSectors), Extent(rootStart, rootSectors)];
    Vf2Placed(bootMib, rootSectors, extras);
    var rest := PlaceExtras(rootStart + rootSectors, extraSectors);
    r := Finish(base + rest, types, table, readBack);
  }

  method MakeTableBootRoot(imageBytes: nat, bootMib: int, extras: seq<nat>, types: seq<string>, table: Table, readBack: nat)
    returns (r: LayoutResult<seq<Extent>>)
    ensures r == Finished(BootFirst(imageBytes / SECTOR, BootRoot, bootMib, extras, |types|, table), types, table, readBack)
  {
    if table == Mbr && |extras| > 2 {
      return Err(TooManyPartitions);
    }
    if |types| != 0 && |types| != |extras| {
      return Err(TypeCount);
    }
    var total := imageBytes / SECTOR;
    var bootSectors := bootMib * MIB_SECTORS;
    var rootStart := START + bootSectors;
    var extraSectors := ExtraSectors(extras);
    var sum := SumOf(extraSectors);
    var rootSectors := total - rootStart - sum - TableSectors(table);
    rootSectors := rootSectors - rootSectors % ALIGNMENT;
    if bootSectors <= 0 || rootSectors <= 0 {
      return Err(DiskTooSmall);
    }
    BootRootPlaced(bootMib, rootSectors, extras);
    var rest := PlaceExtras(rootStart + rootSectors, extraSectors);
    r := Finish([Extent(START, bootSectors), Extent(rootStart, rootSectors)] + rest, types, table, readBack);
  }

  lemma Vf2Placed(bootMib: int, root: nat, extras: seq<nat>)
    requires bootMib > 0
    ensures var boot, rootStart := bootMib * MIB_SECTORS, START + LOADER1 + LOADER2 + bootMib * MIB_SECTORS;
            Place(START, BootSizes(Vf2, bootMib, root, extras)) ==
              [Extent(START, LOADER1), Extent(START + LOADER1, LOADER2), Extent(START + LOADER1 + LOADER2, boot),
               Extent(rootStart, root)] + Place(rootStart + root, ImageSizes(extras))
  {
    PlaceFour(START, Front(Vf2, bootMib) + [root]);
    PlaceAppend(START, Front(Vf2, bootMib) + [root], ImageSizes(extras));
  }

  lemma BootRootPlaced(bootMib: int, root: nat, extras: seq<nat>)
    requires bootMib > 0
    ensures var boot, rootStart := bootMib * MIB_SECTORS, START + bootMib * MIB_SECTORS;
            Place(START, BootSizes(BootRoot, bootMib, root, extras)) ==
              [Extent(START, boot), Extent(rootStart, root)] + Place(rootStart + root, ImageSizes(extras))
  {
    PlaceTwo(START, Front(BootRoot, bootMib) + [root]);
    PlaceAppend(START, Front(BootRoot, bootMib) + [root], ImageSizes(extras));
  }

  /** The `extra_starts` loop. */
  method PlaceExtras(start: nat, sizes: seq<nat>) returns (extents: seq<Extent>)
    ensures extents == Place(start, sizes)
  {
    extents := [];
    var cursor := start;
    for i := 0 to |sizes|
      invariant extents == Place(start, sizes)[..i] && cursor == start + Sum(sizes[..i])
    {
      SumNext(sizes, i);
      extents := extents + [Extent(cursor, sizes[i])];
      cursor := cursor + sizes[i];
    }
  }

  lemma SumFirst(s: seq<nat>)
    requires |s| >= 2
    ensures Sum(s[..0]) == 0 && Sum(s[..1]) == s[0] && Sum(s[..2]) == s[0] + s[1]
  {
    SumNext(s, 0);
    SumNext(s, 1);
  }

  lemma SumLast(s: seq<nat>)
    requires |s| == 4
    ensures Sum(s[..3]) == Sum(s[..2]) + s[2] && Sum(s) == Sum(s[..2]) + s[2] + s[3]
  {
    SumNext(s, 2);
    SumNext(s, 3);
    assert s[..4] == s;
  }

  lemma PlaceAt(start: nat, s: seq<nat>, i: nat, sum: nat)
    requires i < |s| && Sum(s[..i]) == sum
    ensures Place(start, s)[i] == Extent(start + sum, s[i])
  {
  }

  lemma PlaceTwo(start: nat, s: seq<nat>)
    requires |s| == 2
    ensures Place(start, s) == [Extent(start, s[0]), Extent(start + s[0], s[1])]
    ensures Sum(s) == s[0] + s[1]
  {
    SumFirst(s);
    PlaceAt(start, s, 0, 0);
    PlaceAt(start, s, 1, s[0]);
    assert s[..2] == s;
  }

  lemma PlaceFour(start: nat, s: seq<nat>)
    requires |s| == 4
    ensures Place(start, s) == [Extent(start, s[0]), Extent(start + s[0], s[1]),
                                Extent(start + s[0] + s[1], s[2]), Extent(start + s[0] + s[1] + s[2], s[3])]
    ensures Sum(s) == s[0] + s[1] + s[2] + s[3]
  {
    SumFirst(s);
    SumLast(s);
    PlaceAt(start, s, 0, 0);
    PlaceAt(start, s, 1, s[0]);
    PlaceAt(start, s, 2, s[0] + s[1]);
    PlaceAt(start, s, 3, s[0] + s[1] + s[2]);
  }

  lemma {:induction false} SumAppend(a: seq<nat>, b: seq<nat>)
    ensures Sum(a + b) == Sum(a) + Sum(b)
    decreases |b|
  {
    if b == [] {
      assert a + b == a;
    } else {
      assert (a + b)[..|a + b| - 1] == a + b[..|b| - 1];
      SumAppend(a, b[..|b| - 1]);
    }
  }

  lemma PlaceAppend(start: nat, a: seq<nat>, b: seq<nat>)
    ensures Place(start, a + b) == Place(start, a) + Place(start + Sum(a), b)
  {
    forall i | 0 <= i < |a + b|
      ensures Place(start, a + b)[i] == (Place(start, a) + Place(start + Sum(a), b))[i]
    {
      if i < |a| {
        assert (a + b)[..i] == a[..i];
      } else {
        assert (a + b)[..i] == a + b[..i - |a|];
        SumAppend(a, b[..i - |a|]);
      }
    }
  }

  // --- Root alone ---------------------------------------------------------------------------------------

  function Single(total: nat, start: nat, table: Table): LayoutResult<seq<Extent>> {
    var sectors := WholeBlocks(total - start - TableSectors(table));
    if sectors <= 0 then Err(DiskTooSmall) else Ok([Extent(start, sectors)])
  }

  method MakeTable(imageBytes: nat, start: nat, table: Table, readBack: nat) returns (r: LayoutResult<seq<Extent>>)
    ensures r == Finished(Single(imageBytes / SECTOR, start, table), [], table, readBack)
  {
    var total := imageBytes / SECTOR;
    var sectors := total - start - TableSectors(table);
    sectors := sectors - sectors % ALIGNMENT;
    if sectors <= 0 {
      return Err(DiskTooSmall);
    }
    r := Finish([Extent(start, sectors)], [], table, readBack);
  }

  // --- Every layout is sound ------------------------------------------------------------------------

  ghost predicate Aligned(s: seq<nat>) { forall i :: 0 <= i < |s| ==> Whole(s[i]) }

  /** In order and apart, on block boundaries, behind the first mebibyte and, on a GPT disk, before
      the backup table. */
  ghost predicate Sound(extents: seq<Extent>, total: nat, table: Table) {
    && (forall i :: 0 <= i < |extents| ==>
          && Whole(extents[i].start) && Whole(extents[i].sectors)
          && START <= extents[i].start
          && extents[i].start + extents[i].sectors + TableSectors(table) <= total)
    && (forall i, j :: 0 <= i < j < |extents| ==> extents[i].start + extents[i].sectors <= extents[j].start)
  }

  /** The last extents hold the images with less than a block to spare. */
  ghost predicate HoldsImages(extents: seq<Extent>, extras: seq<nat>) {
    && |extras| <= |extents|
    && forall i :: 0 <= i < |extras| ==>
         var room := extents[|extents| - |extras| + i].sectors * SECTOR;
         extras[i] <= room < extras[i] + BLOCK
  }

  lemma {:induction false} SumPrefix(s: seq<nat>, i: nat, j: nat)
    requires i <= j <= |s|
    ensures Sum(s[..i]) <= Sum(s[..j])
    ensures i < j ==> Sum(s[..i]) + s[i] <= Sum(s[..j])
  {
    if i < j {
      assert s[..j][..j - 1] == s[..j - 1];
      if i < j - 1 {
        SumPrefix(s, i, j - 1);
      }
    }
  }

  lemma AddWhole(x: int, y: int)
    requires Whole(x) && Whole(y)
    ensures Whole(x + y)
  {
  }

  lemma {:induction false} AlignedSum(s: seq<nat>)
    requires Aligned(s)
    ensures Whole(Sum(s))
  {
    if s != [] {
      AlignedSum(s[..|s| - 1]);
      AddWhole(Sum(s[..|s| - 1]), s[|s| - 1]);
    }
  }

  lemma PlacedIsSound(sizes: seq<nat>, total: nat, table: Table)
    requires Aligned(sizes) && START + Sum(sizes) + TableSectors(table) <= total
    ensures Sound(Place(START, sizes), total, table)
  {
    var extents := Place(START, sizes);
    assert sizes[..|sizes|] == sizes;
    forall i | 0 <= i < |extents|
      ensures Whole(extents[i].start)
      ensures extents[i].start + extents[i].sectors + TableSectors(table) <= total
    {
      AlignedSum(sizes[..i]);
      AddWhole(START, Sum(sizes[..i]));
      SumPrefix(sizes, i, |sizes|);
    }
    forall i, j | 0 <= i < j < |extents| ensures extents[i].start + extents[i].sectors <= extents[j].start {
      SumPrefix(sizes, i, j);
    }
  }

  lemma ImageFits(size: nat)
    ensures size <= ImageSectors(size) * SECTOR < size + BLOCK
    ensures Whole(ImageSectors(size))
    ensures ImageSectors(size) <= Mebis(size) * MIB_SECTORS
  {
  }

  lemma ImagesFit(front: seq<nat>, extras: seq<nat>)
    ensures HoldsImages(Place(START, front + ImageSizes(extras)), extras)
    ensures Aligned(ImageSizes(extras))
  {
    var extents := Place(START, front + ImageSizes(extras));
    forall i | 0 <= i < |extras|
      ensures extras[i] <= extents[|extents| - |extras| + i].sectors * SECTOR < extras[i] + BLOCK
      ensures Whole(ImageSizes(extras)[i])
    {
      ImageFits(extras[i]);
    }
  }

  lemma WithImagesSizesFit(rootMib: nat, extras: seq<nat>)
    ensures Aligned(WithImagesSizes(rootMib, extras))
    ensures HoldsImages(Place(START, WithImagesSizes(rootMib, extras)), extras)
  {
    ImagesFit([rootMib * MIB_SECTORS], extras);
    Subtract(rootMib, 0);
  }

  lemma WithImagesIsSound(total: nat, rootMib: int, extras: seq<nat>, types: nat, table: Table)
    requires WithImages(total, rootMib, extras, types, table).Ok?
    ensures var extents := WithImages(total, rootMib, extras, types, table).value;
            && |extents| == 1 + |extras| && Sound(extents, total, table) && HoldsImages(extents, extras)
            && extents[0].sectors == rootMib * MIB_SECTORS
  {
    WithImagesSizesFit(rootMib, extras);
    PlacedIsSound(WithImagesSizes(rootMib, extras), total, table);
  }

  /** Sizes of the partitions of a boot layout. */
  function BootSizes(layout: BootLayout, bootMib: nat, root: nat, extras: seq<nat>): seq<nat> {
    Front(layout, bootMib) + [root] + ImageSizes(extras)
  }

  lemma BootSizesFit(layout: BootLayout, bootMib: nat, root: nat, extras: seq<nat>)
    requires Whole(root)
    ensures Sum(BootSizes(layout, bootMib, root, extras)) == Ahead(layout, bootMib) + root + Sum(ImageSizes(extras))
    ensures Aligned(BootSizes(layout, bootMib, root, extras))
    ensures HoldsImages(Place(START, BootSizes(layout, bootMib, root, extras)), extras)
  {
    var front := Front(layout, bootMib) + [root];
    if layout == Vf2 {
      PlaceFour(START, front);
    } else {
      PlaceTwo(START, front);
    }
    ImagesFit(front, extras);
    SumAppend(front, ImageSizes(extras));
    AlignedFront(layout, bootMib);
  }

  lemma AlignedFront(layout: BootLayout, bootMib: nat)
    ensures Aligned(Front(layout, bootMib))
  {
    Subtract(bootMib, 0);
    assert Whole(LOADER1) && Whole(LOADER2);
  }

  lemma BootFirstIsSound(total: nat, layout: BootLayout, bootMib: int, extras: seq<nat>, types: nat, table: Table)
    requires BootFirst(total, layout, bootMib, extras, types, table).Ok?
    ensures var extents := BootFirst(total, layout, bootMib, extras, types, table).value;
            var boot := if layout == Vf2 then 2 else 0;
            && |extents| == boot + 2 + |extras| && Sound(extents, total, table) && HoldsImages(extents, extras)
            && extents[boot].sectors == bootMib * MIB_SECTORS
            && extents[boot + 1].sectors == RootSectors(total, layout, bootMib, extras, table)
  {
    var root := RootSectors(total, layout, bootMib, extras, table);
    BootSizesFit(layout, bootMib, root, extras);
    PlacedIsSound(BootSizes(layout, bootMib, root, extras), total, table);
  }

  // --- The chosen disk size ---------------------------------------------------------------------------

  datatype Boot = Boot(layout: BootLayout, mib: int)

  function Mebibytes(extras: seq<nat>): (mib: seq<nat>)
    ensures |mib| == |extras|
  {
    seq(|extras|, i requires 0 <= i < |extras| => Mebis(extras[i]))
  }

  /** The first check of the request that fails. */
  function RequestError(sizeMb: int, extras: seq<nat>, types: nat, boot: Option<Boot>, table: Table): Option<Error> {
    if sizeMb < 16 then Some(RootTooSmall)
    else if types != 0 && types != |extras| then Some(TypeCount)
    else if table == Mbr && |extras| > MaxExtra(boot) then Some(TooManyPartitions)
    else if exists i :: 0 <= i < |extras| && extras[i] == 0 then Some(EmptyImage(FirstEmpty(extras)))
    else None
  }

  function MaxExtra(boot: Option<Boot>): nat {
    if boot.None? then 3 else if boot.value.layout == Vf2 then 0 else 2
  }

  /** The disk size in mebibytes that is chosen for a root of `sizeMb`. */
  function DiskMebibytes(sizeMb: int, extras: seq<nat>, boot: Option<Boot>, table: Table): int {
    if extras == [] && boot.None? then sizeMb
    else
      sizeMb + Sum(Mebibytes(extras)) + (if table == Gpt then 1 else 0)
      + match boot
        case None => 1
        case Some(Boot(Vf2, mib)) => 6 + mib
        case Some(Boot(BootRoot, mib)) => 1 + mib
  }

  method DiskSize(sizeMb: int, extras: seq<nat>, types: nat, boot: Option<Boot>, table: Table, requested: Option<int>)
    returns (r: LayoutResult<int>)
    ensures match RequestError(sizeMb, extras, types, boot, table)
            case Some(e) => r == Err(e)
            case None =>
              var mib := if requested.Some? then requested.value else DiskMebibytes(sizeMb, extras, boot, table);
              r == if mib < sizeMb then Err(DiskTooSmall) else Ok(mib)
  {
    if sizeMb < 16 {
      return Err(RootTooSmall);
    }
    if types != 0 && types != |extras| {
      return Err(TypeCount);
    }
    if table == Mbr {
      var maxExtra := if boot.Some? then (if boot.value.layout == Vf2 then 0 else 2) else 3;
      if |extras| > maxExtra {
        return Err(TooManyPartitions);
      }
    }
    for i := 0 to |extras|
      invariant forall j :: 0 <= j < i ==> extras[j] != 0
    {
      if extras[i] == 0 {
        return Err(EmptyImage(i));
      }
    }
    var diskMb: int;
    if requested.Some? {
      diskMb := requested.value;
    } else {
      diskMb := PayloadMebibytes(sizeMb, extras, boot, table);
    }
    return if diskMb < sizeMb then Err(DiskTooSmall) else Ok(diskMb);
  }

  method PayloadMebibytes(sizeMb: int, extras: seq<nat>, boot: Option<Boot>, table: Table) returns (diskMb: int)
    ensures diskMb == DiskMebibytes(sizeMb, extras, boot, table)
  {
    diskMb := sizeMb;
    if extras != [] || boot.Some? {
      var payload := sizeMb * MIB;
      if boot.Some? {
        payload := payload + ((if boot.value.layout == Vf2 then 6 else 1) + boot.value.mib) * MIB;
      }
      var images := ImageMebibytes(extras);
      payload := payload + images * MIB;
      if boot.None? && extras != [] {
        payload := payload + MIB;
      }
      payload := payload + if table == Gpt then 34 * 512 else 0;
      diskMb := (payload + MIB - 1) / MIB;
    }
  }

  method ImageMebibytes(extras: seq<nat>) returns (mib: nat)
    ensures mib == Sum(Mebibytes(extras))
  {
    mib := 0;
    ghost var all := Mebibytes(extras);
    for i := 0 to |extras|
      invariant mib == Sum(all[..i])
    {
      SumNext(all, i);
      mib := mib + (extras[i] + MIB - 1) / MIB;
    }
    assert all[..|all|] == all;
  }

  lemma {:induction false} SumBelow(sectors: seq<nat>, mib: seq<nat>)
    requires |sectors| == |mib| && forall i :: 0 <= i < |mib| ==> sectors[i] <= mib[i] * MIB_SECTORS
    ensures Sum(sectors) <= Sum(mib) * MIB_SECTORS
  {
    if mib != [] {
      SumBelow(sectors[..|mib| - 1], mib[..|mib| - 1]);
    }
  }

  lemma ImagesBelow(extras: seq<nat>)
    ensures forall i :: 0 <= i < |extras| ==> ImageSizes(extras)[i] <= Mebibytes(extras)[i] * MIB_SECTORS
  {
    forall i | 0 <= i < |extras| ensures ImageSizes(extras)[i] <= Mebibytes(extras)[i] * MIB_SECTORS {
      ImageFits(extras[i]);
    }
  }

  /** Sectors that the images leave of their whole mebibytes. */
  function Slack(extras: seq<nat>): nat {
    ImagesBelow(extras);
    SumBelow(ImageSizes(extras), Mebibytes(extras));
    Sum(Mebibytes(extras)) * MIB_SECTORS - Sum(ImageSizes(extras))
  }

  /** Without a boot partition the chosen disk always suffices, and root gets exactly its size. */
  lemma ChosenDiskHoldsImages(sizeMb: int, extras: seq<nat>, types: nat, table: Table)
    requires extras != [] && RequestError(sizeMb, extras, types, None, table) == None
    ensures var mib := DiskMebibytes(sizeMb, extras, None, table);
            mib >= sizeMb && WithImages(mib * MIB_SECTORS, sizeMb, extras, types, table).Ok?
  {
    var slack := Slack(extras);
    SumAppend([sizeMb * MIB_SECTORS], ImageSizes(extras));
    assert Sum([sizeMb * MIB_SECTORS]) == sizeMb * MIB_SECTORS;
  }

  /** Root's share of the chosen disk, relative to the size asked for. */
  lemma ChosenDiskRoot(sizeMb: int, extras: seq<nat>, boot: Boot, table: Table)
    requires boot.mib > 0 && sizeMb >= 16
    ensures var mib := DiskMebibytes(sizeMb, extras, Some(boot), table);
            var root := RootSectors(mib * MIB_SECTORS, boot.layout, boot.mib, extras, table);
            root == sizeMb * MIB_SECTORS + Slack(extras)
                    + (match (boot.layout, table)
                       case (BootRoot, Gpt) => MIB_SECTORS - 40
                       case (BootRoot, Mbr) => 0
                       case (Vf2, Gpt) => -40
                       case (Vf2, Mbr) => 0 - MIB_SECTORS)
  {
    var mib := DiskMebibytes(sizeMb, extras, Some(boot), table);
    FreeIsWhole(mib, boot.layout, boot.mib, extras);
    FloorBlocks(Free(mib * MIB_SECTORS, boot.layout, boot.mib, extras), table);
  }

  lemma FreeIsWhole(mib: nat, layout: BootLayout, bootMib: int, extras: seq<nat>)
    ensures Whole(Free(mib * MIB_SECTORS, layout, bootMib, extras))
  {
    ImagesFit([], extras);
    AlignedSum(ImageSizes(extras));
    Subtract(mib - 1 - (if layout == Vf2 then 6 else 0) - bootMib, Sum(ImageSizes(extras)));
  }

  lemma Subtract(mib: int, sectors: int)
    requires Whole(sectors)
    ensures Whole(mib * MIB_SECTORS - sectors)
  {
  }

  lemma FloorBlocks(sectors: int, table: Table)
    requires Whole(sectors)
    ensures WholeBlocks(sectors - TableSectors(table)) == sectors - if table == Gpt then 40 else 0
  {
  }

  /** With a boot partition the chosen disk always suffices too. The conventional layout gives root
      at least its size; the VisionFive 2 layout misses it by one mebibyte on MBR, where the
      mebibyte in front of the first partition was not counted, and on GPT exactly when rounding
      the images up leaves less than the five blocks that the backup table costs. */
  lemma ChosenDiskHoldsBoot(sizeMb: int, extras: seq<nat>, types: nat, boot: Boot, table: Table)
    requires RequestError(sizeMb, extras, types, Some(boot), table) == None && boot.mib > 0
    ensures var mib := DiskMebibytes(sizeMb, extras, Some(boot), table);
            var root := RootSectors(mib * MIB_SECTORS, boot.layout, boot.mib, extras, table);
            && mib >= sizeMb
            && BootFirst(mib * MIB_SECTORS, boot.layout, boot.mib, extras, types, table).Ok?
            && root >= (sizeMb - 1) * MIB_SECTORS
            && (root >= sizeMb * MIB_SECTORS <==>
                boot.layout == BootRoot || (table == Gpt && Slack(extras) >= 40))
  {
    ChosenDiskRoot(sizeMb, extras, boot, table);
    if table == Mbr && boot.layout == Vf2 {
      assert extras == [];
    }
  }

  // --- From the request to the partitions ---------------------------------------------------------------------

  /** The placement on a disk of `mib` mebibytes. */
  function Plan(mib: nat, sizeMb: int, extras: seq<nat>, types: nat, boot: Option<Boot>, table: Table): LayoutResult<seq<Extent>> {
    match boot
    case Some(Boot(layout, bootMib)) => BootFirst(mib * MIB_SECTORS, layout, bootMib, extras, types, table)
    case None =>
      if extras != [] then WithImages(mib * MIB_SECTORS, sizeMb, extras, types, table)
      else Single(mib * MIB_SECTORS, START, table)
  }

  lemma DiskSectors(mib: int)
    requires mib >= 0
    ensures mib * MIB / SECTOR == mib * MIB_SECTORS
  {
  }

  /** Sizing the disk and building its table, one after the other. */
  method CreateLayout(sizeMb: int, extras: seq<nat>, types: seq<string>, boot: Option<Boot>, table: Table,
                      requested: Option<int>, readBack: nat)
    returns (r: LayoutResult<seq<Extent>>)
    ensures match RequestError(sizeMb, extras, |types|, boot, table)
            case Some(e) => r == Err(e)
            case None =>
              var mib := if requested.Some? then requested.value else DiskMebibytes(sizeMb, extras, boot, table);
              r == if mib < sizeMb then Err(DiskTooSmall)
                   else Finished(Plan(mib, sizeMb, extras, |types|, boot, table), types, table, readBack)
  {
    var size := DiskSize(sizeMb, extras, |types|, boot, table, requested);
    if size.Err? {
      return Err(size.error);
    }
    var mib: nat := size.value;
    DiskSectors(mib);
    match boot {
      case Some(Boot(Vf2, bootMib)) => r := MakeTableVf2(mib * MIB, bootMib, extras, types, table, readBack);
      case Some(Boot(BootRoot, bootMib)) => r := MakeTableBootRoot(mib * MIB, bootMib, extras, types, table, readBack);
      case None =>
        if extras != [] {
          r := MakeTableWithImages(mib * MIB, sizeMb, extras, types, table, readBack);
        } else {
          r := MakeTable(mib * MIB, START, table, readBack);
          NoTypes(types, table);
        }
    }
  }

  lemma NoTypes(types: seq<string>, table: Table)
    ensures types == [] ==> !exists i: nat :: BadType(types, table, i)
  {
  }

  /** Where root lies among the partitions. */
  function RootIndex(boot: Option<Boot>): nat {
    if boot.None? then 0 else if boot.value.layout == Vf2 then 3 else 1
  }

  /** A disk of the chosen size always holds what was asked for, unless a boot partition of no size was:
      the placement succeeds, it is sound, the images fit, and root has its size, up to one mebibyte
      that the VisionFive 2 layout and the layout without images may take from it. */
  lemma ChosenLayoutSucceeds(sizeMb: int, extras: seq<nat>, types: nat, boot: Option<Boot>, table: Table)
    requires RequestError(sizeMb, extras, types, boot, table) == None
    ensures var mib := DiskMebibytes(sizeMb, extras, boot, table);
            boot.Some? && boot.value.mib <= 0 ==>
              mib < sizeMb || Plan(mib, sizeMb, extras, types, boot, table) == Err(DiskTooSmall)
    ensures var mib := DiskMebibytes(sizeMb, extras, boot, table);
            boot.None? || boot.value.mib > 0 ==>
            && mib >= sizeMb
            && var plan := Plan(mib, sizeMb, extras, types, boot, table);
            && plan.Ok? && |plan.value| == RootIndex(boot) + 1 + |extras|
            && Sound(plan.value, mib * MIB_SECTORS, table) && HoldsImages(plan.value, extras)
            && plan.value[RootIndex(boot)].sectors >=
                 (sizeMb - 1) * MIB_SECTORS - (if boot.None? && extras == [] && table == Gpt then 40 else 0)
  {
    var mib := DiskMebibytes(sizeMb, extras, boot, table);
    match boot
    case Some(b) =>
      if b.mib > 0 {
        ChosenDiskHoldsBoot(sizeMb, extras, types, b, table);
        BootFirstIsSound(mib * MIB_SECTORS, b.layout, b.mib, extras, types, table);
      }
    case None =>
      if extras != [] {
        ChosenDiskHoldsImages(sizeMb, extras, types, table);
        WithImagesIsSound(mib * MIB_SECTORS, sizeMb, extras, types, table);
      } else {
        Subtract(mib, 0);
        SingleIsSound(mib * MIB_SECTORS, table);
      }
  }

  lemma SingleIsSound(total: nat, table: Table)
    requires Whole(total) && total >= START + GPT_SECTORS + ALIGNMENT
    ensures var plan := Single(total, START, table);
            && plan.Ok? && |plan.value| == 1 && Sound(plan.value, total, table)
            && plan.value[0].sectors == total - START - if table == Gpt then 40 else 0
  {
    Subtract(1, 0);
    assert Whole(total - START);
    FloorBlocks(total - START, table);
  }
}
