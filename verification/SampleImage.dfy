/** A small image with two valid GPT copies of one partition, so that the theorem about damage speaks
of something. */
module SampleImage {
  import opened Wrappers
  import opened Crc32
  import opened PartitionTables
  import opened BackupTable

  function Zeros(n: nat): (s: seq<Byte>)
    ensures |s| == n
  {
    seq(n, _ => 0)
  }

  /** A small number in `n` bytes. */
  function Small(x: Byte, n: nat): (s: seq<Byte>)
    requires n > 0
    ensures |s| == n
  {
    [x] + Zeros(n - 1)
  }

  lemma {:induction false} ZerosAreZero(n: nat)
    ensures Number(Zeros(n)) == 0
  {
    if n > 0 {
      assert Zeros(n)[1..] == Zeros(n - 1);
      ZerosAreZero(n - 1);
    }
  }

  lemma SmallNumber(x: Byte, n: nat)
    requires n > 0
    ensures Number(Small(x, n)) == x as nat
  {
    ZerosAreZero(n - 1);
    assert Small(x, n)[1..] == Zeros(n - 1);
  }

  function WordBytes(w: bv32): (s: seq<Byte>)
    ensures |s| == 4
  {
    [(w & 0xFF) as Byte, ((w >> 8) & 0xFF) as Byte, ((w >> 16) & 0xFF) as Byte, (w >> 24) as Byte]
  }

  lemma WordOfBytes(w: bv32)
    ensures var s := WordBytes(w); Word32(s[0], s[1], s[2], s[3]) == w
  {
  }

  /** The header up to its own checksum, and behind it, for a table with one entry. */
  function Front(): (s: seq<Byte>)
    ensures |s| == 16
  {
    GPT_SIGNATURE + Zeros(4) + Small(92, 4)
  }

  function Back(current: Byte, backup: Byte, entries: Byte, entriesCrc: bv32): (s: seq<Byte>)
    ensures |s| == 492
  {
    BackHead(current, backup) + BackTail(entries, entriesCrc)
  }

  function BackHead(current: Byte, backup: Byte): (s: seq<Byte>)
    ensures |s| == 52
  {
    Zeros(4) + Small(current, 8) + Small(backup, 8) + Small(3, 8) + Small(5, 8) + Zeros(16)
  }

  function BackTail(entries: Byte, entriesCrc: bv32): (s: seq<Byte>)
    ensures |s| == 440
  {
    Small(entries, 8) + Small(1, 4) + Small(128, 4) + WordBytes(entriesCrc) + Zeros(420)
  }

  /** One Linux partition in sector 3. */
  function Entry(): (s: seq<Byte>)
    ensures |s| == 128
  {
    LINUX_TYPE + Zeros(16) + Small(3, 8) + Small(3, 8) + Zeros(80)
  }

  function Sector(current: Byte, backup: Byte, entries: Byte, crc: bv32, entriesCrc: bv32): (s: seq<Byte>)
    ensures |s| == 512
  {
    Front() + WordBytes(crc) + Back(current, backup, entries, entriesCrc)
  }

  lemma WordAt(s: seq<Byte>, offset: nat, w: bv32)
    requires offset + 4 <= |s| && s[offset..offset + 4] == WordBytes(w)
    ensures Word32At(s, offset) == w
  {
    WordOfBytes(w);
    assert s[offset] == WordBytes(w)[0] && s[offset + 1] == WordBytes(w)[1];
    assert s[offset + 2] == WordBytes(w)[2] && s[offset + 3] == WordBytes(w)[3];
  }

  lemma BackSlices(current: Byte, backup: Byte, entries: Byte, entriesCrc: bv32)
    ensures var s := Back(current, backup, entries, entriesCrc);
            && s[4..12] == Small(current, 8) && s[12..20] == Small(backup, 8) && s[20..28] == Small(3, 8)
            && s[28..36] == Small(5, 8) && s[52..60] == Small(entries, 8) && s[60..64] == Small(1, 4)
            && s[64..68] == Small(128, 4) && s[68..72] == WordBytes(entriesCrc)
  {
    var head, tail := BackHead(current, backup), BackTail(entries, entriesCrc);
    HeadSlices(current, backup);
    TailSlices(entries, entriesCrc);
    SliceOfHead(head, tail, 4, 12); SliceOfHead(head, tail, 12, 20); SliceOfHead(head, tail, 20, 28);
    SliceOfHead(head, tail, 28, 36);
    SliceOfTail(head, tail, 0, 8); SliceOfTail(head, tail, 8, 12); SliceOfTail(head, tail, 12, 16);
    SliceOfTail(head, tail, 16, 20);
  }

  lemma HeadSlices(current: Byte, backup: Byte)
    ensures var s := BackHead(current, backup);
            && s[4..12] == Small(current, 8) && s[12..20] == Small(backup, 8) && s[20..28] == Small(3, 8)
            && s[28..36] == Small(5, 8)
  {
  }

  lemma TailSlices(entries: Byte, entriesCrc: bv32)
    ensures var s := BackTail(entries, entriesCrc);
            && s[0..8] == Small(entries, 8) && s[8..12] == Small(1, 4) && s[12..16] == Small(128, 4)
            && s[16..20] == WordBytes(entriesCrc)
  {
  }

  lemma SliceOfHead(a: seq<Byte>, b: seq<Byte>, i: nat, j: nat)
    requires i <= j <= |a|
    ensures (a + b)[i..j] == a[i..j]
  {
  }

  lemma SliceOfTail(a: seq<Byte>, b: seq<Byte>, i: nat, j: nat)
    requires i <= j <= |b|
    ensures (a + b)[|a| + i..|a| + j] == b[i..j]
  {
  }

  /** The layout of the sample's tables. */
  function SampleLayout(entries: Byte, entriesCrc: bv32): Layout { Layout(3, 5, entries as nat, 1, 128, entriesCrc) }

  lemma BackFields(front: seq<Byte>, current: Byte, backup: Byte, entries: Byte, entriesCrc: bv32)
    requires |front| == 20
    ensures var s := front + Back(current, backup, entries, entriesCrc);
            && Number(s[24..32]) == current as nat && Number(s[32..40]) == backup as nat
            && LayoutFields(s) == SampleLayout(entries, entriesCrc)
  {
    var back := Back(current, backup, entries, entriesCrc);
    BackSlices(current, backup, entries, entriesCrc);
    SliceOfTail(front, back, 4, 12); SliceOfTail(front, back, 12, 20); SliceOfTail(front, back, 20, 28);
    SliceOfTail(front, back, 28, 36); SliceOfTail(front, back, 52, 60); SliceOfTail(front, back, 60, 64);
    SliceOfTail(front, back, 64, 68); SliceOfTail(front, back, 68, 72);
    SmallNumber(current, 8);
    SmallNumber(backup, 8);
    SmallNumber(3, 8);
    SmallNumber(5, 8);
    SmallNumber(entries, 8);
    SmallNumber(1, 4);
    SmallNumber(128, 4);
    WordAt(front + back, 88, entriesCrc);
  }

  lemma FrontFields(crc: bv32, back: seq<Byte>)
    requires |back| == 492
    ensures var s := Front() + WordBytes(crc) + back;
            s[..8] == GPT_SIGNATURE && Number(s[12..16]) == 92 && Word32At(s, 16) == crc
  {
    var s := Front() + WordBytes(crc) + back;
    assert s[12..16] == Small(92, 4);
    assert s[16..20] == WordBytes(crc);
    assert s[..8] == GPT_SIGNATURE;
    SmallNumber(92, 4);
    WordAt(s, 16, crc);
  }

  lemma SectorFields(current: Byte, backup: Byte, entries: Byte, crc: bv32, entriesCrc: bv32)
    ensures var s := Sector(current, backup, entries, crc, entriesCrc);
            && s[..8] == GPT_SIGNATURE
            && Fields(s) == Header(92, crc, current as nat, backup as nat, SampleLayout(entries, entriesCrc))
  {
    FrontFields(crc, Back(current, backup, entries, entriesCrc));
    BackFields(Front() + WordBytes(crc), current, backup, entries, entriesCrc);
  }

  /** The sector with the checksum that belongs there. */
  function Sealed(current: Byte, backup: Byte, entries: Byte, entriesCrc: bv32): (s: seq<Byte>)
    ensures |s| == 512
  {
    Sector(current, backup, entries, Checksum(Checksummed(Sector(current, backup, entries, 0, entriesCrc), 92)), entriesCrc)
  }

  lemma OwnFieldIsIgnored(current: Byte, backup: Byte, entries: Byte, a: bv32, b: bv32, entriesCrc: bv32)
    ensures Checksummed(Sector(current, backup, entries, a, entriesCrc), 92)
         == Checksummed(Sector(current, backup, entries, b, entriesCrc), 92)
  {
  }

  lemma HeaderIsAccepted(s: seq<Byte>, lba: nat, backup: nat, entries: Byte, entriesCrc: bv32)
    requires |s| == SECTOR && s[..8] == GPT_SIGNATURE && lba < 8 && backup < 8 && (entries == 2 || entries == 6)
    requires Fields(s) == Header(92, Checksum(Checksummed(s, 92)), lba, backup, SampleLayout(entries, entriesCrc))
    ensures HeaderError(s, lba, 8, backup) == None
  {
  }

  lemma SealedIsAccepted(current: Byte, backup: Byte, entries: Byte, entriesCrc: bv32)
    requires current < 8 && backup < 8 && (entries == 2 || entries == 6)
    ensures HeaderError(Sealed(current, backup, entries, entriesCrc), current as nat, 8, backup as nat) == None
    ensures LayoutFields(Sealed(current, backup, entries, entriesCrc)) == SampleLayout(entries, entriesCrc)
  {
    var crc := Checksum(Checksummed(Sector(current, backup, entries, 0, entriesCrc), 92));
    SectorFields(current, backup, entries, crc, entriesCrc);
    OwnFieldIsIgnored(current, backup, entries, 0, crc, entriesCrc);
    HeaderIsAccepted(Sealed(current, backup, entries, entriesCrc), current as nat, backup as nat, entries, entriesCrc);
  }

  /** Protective sector, header, entries, the partition, free sectors, entries and header again. */
  function Image(entriesCrc: bv32): (image: seq<Byte>)
    ensures |image| == 4096
  {
    Zeros(512) + Sealed(1, 7, 2, entriesCrc) + (Entry() + Zeros(384)) + Zeros(1536)
    + (Entry() + Zeros(384)) + Sealed(7, 1, 6, entriesCrc)
  }

  /** What is read from the image. */
  ghost predicate HasCopies(image: seq<Byte>, entriesCrc: bv32) {
    && |image| == 4096
    && Read(image, 512, 512) == Sealed(1, 7, 2, entriesCrc) && Read(image, 1024, 128) == Entry()
    && Read(image, 3584, 512) == Sealed(7, 1, 6, entriesCrc) && Read(image, 3072, 128) == Entry()
  }

  lemma ImageCopies(entriesCrc: bv32)
    ensures HasCopies(Image(entriesCrc), entriesCrc)
  {
    SixParts(Zeros(512), Sealed(1, 7, 2, entriesCrc), Entry() + Zeros(384), Zeros(1536), Entry() + Zeros(384), Sealed(7, 1, 6, entriesCrc));
    FirstOfSector(Image(entriesCrc), 1024, Entry(), Zeros(384));
    FirstOfSector(Image(entriesCrc), 3072, Entry(), Zeros(384));
  }

  lemma SixParts(a: seq<Byte>, b: seq<Byte>, c: seq<Byte>, d: seq<Byte>, e: seq<Byte>, f: seq<Byte>)
    requires |a| == |b| == |c| == |e| == |f| == 512 && |d| == 1536
    ensures var image := a + b + c + d + e + f;
            && Read(image, 512, 512) == b && Read(image, 1024, 512) == c
            && Read(image, 3072, 512) == e && Read(image, 3584, 512) == f
  {
    var image := a + b + c + d + e + f;
    assert image[512..1024] == b;
    assert image[1024..1536] == c;
    assert image[3072..3584] == e;
    assert image[3584..4096] == f;
  }

  lemma FirstOfSector(image: seq<Byte>, offset: nat, entry: seq<Byte>, rest: seq<Byte>)
    requires offset + 512 <= |image| && |entry| == 128 && |rest| == 384 && Read(image, offset, 512) == entry + rest
    ensures Read(image, offset, 128) == entry
  {
    assert image[offset..offset + 512][..128] == image[offset..offset + 128];
  }

  const SAMPLE := Partition(1, LINUX, 3, 1)

  lemma EntryIsPartition()
    ensures GptEntry(Entry(), 0, 3, 5, 4096) == Ok(Some(SAMPLE))
  {
    var e := Entry();
    assert e[..16] == LINUX_TYPE && e[32..40] == Small(3, 8) && e[40..48] == Small(3, 8);
    assert LINUX_TYPE[0] != UNUSED_TYPE[0];
    SmallNumber(3, 8);
  }

  lemma OneSlot(slots: nat --> TableResult<Option<Partition>>)
    requires slots.requires(0) && slots(0) == Ok(Some(SAMPLE))
    ensures Collect(slots, 1) == Ok([SAMPLE]) && WithoutOverlap(Ok([SAMPLE])) == Ok([SAMPLE])
  {
    assert Collect(slots, 0) == Ok([]);
    assert [] + [SAMPLE] == [SAMPLE];
  }

  lemma SampleTable(image: seq<Byte>, l: Layout)
    requires |image| == 4096 && l.entriesCrc == Checksum(Entry()) && Read(image, l.entriesLba * SECTOR, 128) == Entry()
    requires l.first == 3 && l.last == 5 && l.count == 1 && l.entrySize == 128
    ensures EntryTable(image, l) == Ok([SAMPLE])
  {
    assert l.entrySize == 128 && l.count == 1 && EntryBytes(l) == 128;
    var slots := GptEntries(Entry(), l, 4096);
    EntryIsPartition();
    assert Slot(Entry(), l, 0) == Entry();
    assert slots(0) == Ok(Some(SAMPLE));
    OneSlot(slots);
    assert Read(image, l.entriesLba * SECTOR, EntryBytes(l)) == Entry();
    assert EntryTable(image, l) == WithoutOverlap(Collect(slots, 1));
  }

  lemma CopyIsRead(image: seq<Byte>, lba: Byte, other: Byte, entries: Byte, entriesCrc: bv32)
    requires |image| == 4096 && lba < 8 && other < 8 && (entries == 2 || entries == 6) && entriesCrc == Checksum(Entry())
    requires Read(image, lba as nat * SECTOR, SECTOR) == Sealed(lba, other, entries, entriesCrc)
    requires Read(image, entries as nat * SECTOR, 128) == Entry()
    ensures GptAt(image, lba as nat, 8, other as nat) == Ok([SAMPLE])
  {
    SealedIsAccepted(lba, other, entries, entriesCrc);
    SampleTable(image, SampleLayout(entries, entriesCrc));
  }

  lemma SecondIsSpared(image: seq<Byte>, entriesCrc: bv32, from: int)
    requires HasCopies(image, entriesCrc) && from + 4 <= 3072
    ensures SparesCopy(image, from, 7)
  {
    SealedIsAccepted(7, 1, 6, entriesCrc);
  }

  lemma Assembled(image: seq<Byte>, last: nat, from: int)
    requires |image| == 4096 && last == LastSector(4096)
    requires GptAt(image, 1, Sectors(4096), last) == Ok([SAMPLE]) && GptAt(image, last, Sectors(4096), 1) == Ok([SAMPLE])
    requires SparesCopy(image, from, last)
    ensures Recoverable(image, from, [SAMPLE])
  {
  }

  lemma CopiesMakeRecoverable(image: seq<Byte>, entriesCrc: bv32, from: int)
    requires HasCopies(image, entriesCrc) && entriesCrc == Checksum(Entry()) && from + 4 <= 3072
    ensures Recoverable(image, from, [SAMPLE])
  {
    CopyIsRead(image, 1, 7, 2, entriesCrc);
    CopyIsRead(image, 7, 1, 6, entriesCrc);
    SecondIsSpared(image, entriesCrc, from);
    Assembled(image, 7, from);
  }

  /** Whatever happens to four consecutive bytes of the first header or of its entry array, the
      partition of this image is still found. */
  lemma SampleIsRepaired(entriesCrc: bv32, damaged: seq<Byte>, from: int)
    requires entriesCrc == Checksum(Entry()) && 512 <= from < 512 + 512 + 128
    requires Burst(Image(entriesCrc), damaged, from)
    ensures Gpt(damaged) == Ok([SAMPLE])
  {
    ImageCopies(entriesCrc);
    CopiesMakeRecoverable(Image(entriesCrc), entriesCrc, from);
    DamageIsRepaired(Image(entriesCrc), damaged, from, [SAMPLE]);
  }
}
