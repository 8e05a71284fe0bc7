/** Reading MBR and GPT partition tables from a disk image. */
module PartitionTables {
  import opened Wrappers
  import opened Crc32

  const SECTOR: nat := 512
  const LINUX: nat := 0x83
  const MBR_SIGNATURE: seq<Byte> := [0x55, 0xAA]
  /** "EFI PART" */
  const GPT_SIGNATURE: seq<Byte> := [0x45, 0x46, 0x49, 0x20, 0x50, 0x41, 0x52, 0x54]
  const UNUSED_TYPE: seq<Byte> := [0, 0, 0, 0, 0, 0, 0, 0, 0, 0, 0, 0, 0, 0, 0, 0]
  const LINUX_TYPE: seq<Byte> :=
    [0xAF, 0x3D, 0xC6, 0x0F, 0x83, 0x84, 0x72, 0x47, 0x8E, 0x79, 0x3D, 0x69, 0xD8, 0x47, 0x7D, 0xE4]

  type TableResult<T> = Result<T, Error>

  datatype Partition = Partition(number: nat, kind: nat, start: nat, sectors: nat)

  datatype Error =
    | ShortSector | MissingMbrSignature | InvalidEntry(number: nat)
    | TooSmall | MissingHeader | InvalidHeader | InvalidRange | HeaderChecksum
    | UnsupportedEntries | EntriesBeyondImage | EntriesChecksum | OutOfRange(number: nat)
    | BeyondImage(number: nat) | Overlap

  /** A little-endian unsigned integer. */
  function Number(bytes: seq<Byte>): nat {
    if bytes == [] then 0 else bytes[0] as nat + 256 * Number(bytes[1..])
  }

  /** What reading `n` bytes at `offset` yields: less at the end of the file. */
  function Read(data: seq<Byte>, offset: nat, n: nat): (r: seq<Byte>)
    ensures |r| <= n && (offset + n <= |data| ==> r == data[offset..offset + n])
  {
    data[Clamp(offset, |data|)..Clamp(offset + n, |data|)]
  }

  predicate Inside(p: Partition, imageBytes: nat) { (p.start + p.sectors) * SECTOR <= imageBytes }

  predicate Clash(p: Partition, q: Partition) {
    p.start < q.start + q.sectors && q.start < p.start + p.sectors
  }

  predicate Overlapping(ps: seq<Partition>) {
    exists i, j :: 0 <= i < j < |ps| && Clash(ps[i], ps[j])
  }

  // --- MBR ---------------------------------------------------------------------------------------

  /** An MBR entry, `None` when the slot is empty. */
  function MbrEntry(sector: seq<Byte>, i: nat, imageBytes: nat): TableResult<Option<Partition>>
    requires |sector| == SECTOR && i < 4
  {
    var entry := sector[446 + i * 16..462 + i * 16];
    var kind, start, sectors := entry[4] as nat, Number(entry[8..12]), Number(entry[12..16]);
    var p := Partition(i + 1, kind, start, sectors);
    if kind == 0 && start == 0 && sectors == 0 then Ok(None)
    else if kind == 0 || start == 0 || sectors == 0 then Err(InvalidEntry(i + 1))
    else if !Inside(p, imageBytes) then Err(BeyondImage(i + 1))
    else Ok(Some(p))
  }

  function Collect(entry: nat --> TableResult<Option<Partition>>, n: nat): TableResult<seq<Partition>>
    requires forall i: nat :: i < n ==> entry.requires(i)
  {
    if n == 0 then Ok([])
    else match Collect(entry, n - 1)
      case Err(e) => Err(e)
      case Ok(ps) =>
        match entry(n - 1)
        case Err(e) => Err(e)
        case Ok(None) => Ok(ps)
        case Ok(Some(p)) => Ok(ps + [p])
  }

  function WithoutOverlap(r: TableResult<seq<Partition>>): TableResult<seq<Partition>> {
    if r.Ok? && Overlapping(r.value) then Err(Overlap) else r
  }

  function MbrEntries(sector: seq<Byte>, imageBytes: nat): nat --> TableResult<Option<Partition>>
    requires |sector| == SECTOR
  {
    (i: nat) requires i < 4 => MbrEntry(sector, i, imageBytes)
  }

  function MbrTable(sector: seq<Byte>, imageBytes: nat): TableResult<seq<Partition>> {
    if |sector| != SECTOR then Err(ShortSector)
    else if sector[510..512] != MBR_SIGNATURE then Err(MissingMbrSignature)
    else WithoutOverlap(Collect(MbrEntries(sector, imageBytes), 4))
  }

  method ParseMbrSector(sector: seq<Byte>, imageBytes: nat) returns (r: TableResult<seq<Partition>>)
    ensures r == MbrTable(sector, imageBytes)
  {
    if |sector| != SECTOR {
      return Err(ShortSector);
    }
    if sector[510..512] != MBR_SIGNATURE {
      return Err(MissingMbrSignature);
    }
    var partitions: seq<Partition> := [];
    ghost var entries := MbrEntries(sector, imageBytes);
    for index := 0 to 4
      invariant Collect(entries, index) == Ok(partitions)
    {
      var outcome := ReadMbrEntry(sector, index, imageBytes);
      assert entries(index) == outcome;
      CollectFails(entries, index + 1, 4);
      if outcome.Err? {
        return Err(outcome.error);
      }
      if outcome.value.Some? {
        partitions := partitions + [outcome.value.value];
      }
    }
    var clash := FindOverlap(partitions);
    return if clash then Err(Overlap) else Ok(partitions);
  }

  /** The body of the loop over the slots. */
  method ReadMbrEntry(sector: seq<Byte>, index: nat, imageBytes: nat) returns (r: TableResult<Option<Partition>>)
    requires |sector| == SECTOR && index < 4
    ensures r == MbrEntry(sector, index, imageBytes)
  {
    var entry := sector[446 + index * 16..462 + index * 16];
    var kind, start, sectors := entry[4] as nat, Number(entry[8..12]), Number(entry[12..16]);
    if kind == 0 && start == 0 && sectors == 0 {
      return Ok(None);
    }
    if kind == 0 || start == 0 || sectors == 0 {
      return Err(InvalidEntry(index + 1));
    }
    var partition := Partition(index + 1, kind, start, sectors);
    if start * SECTOR + sectors * SECTOR > imageBytes {
      return Err(BeyondImage(index + 1));
    }
    return Ok(Some(partition));
  }

  lemma {:induction false} CollectFails(entry: nat --> TableResult<Option<Partition>>, m: nat, n: nat)
    requires m <= n && forall i: nat :: i < n ==> entry.requires(i)
    ensures Collect(entry, m).Err? ==> Collect(entry, n) == Collect(entry, m)
  {
    if m < n {
      CollectFails(entry, m, n - 1);
    }
  }

  method FindOverlap(partitions: seq<Partition>) returns (clash: bool)
    ensures clash == Overlapping(partitions)
  {
    for i := 0 to |partitions|
      invariant forall k, j :: 0 <= k < i && k < j < |partitions| ==> !Clash(partitions[k], partitions[j])
    {
      for j := i + 1 to |partitions|
        invariant forall l :: i < l < j ==> !Clash(partitions[i], partitions[l])
      {
        if Clash(partitions[i], partitions[j]) {
          return true;
        }
      }
    }
    return false;
  }

  // --- GPT ---------------------------------------------------------------------------------------

  /** The header fields that are used once the header is accepted. */
  datatype Layout = Layout(first: nat, last: nat, entriesLba: nat, count: nat, entrySize: nat, entriesCrc: bv32)

  datatype Header = Header(size: nat, crc: bv32, current: nat, backup: nat, layout: Layout)

  function Word32At(bytes: seq<Byte>, offset: nat): bv32
    requires offset + 4 <= |bytes|
  {
    Word32(bytes[offset], bytes[offset + 1], bytes[offset + 2], bytes[offset + 3])
  }

  function LayoutFields(sector: seq<Byte>): Layout
    requires |sector| == SECTOR
  {
    Layout(Number(sector[40..48]), Number(sector[48..56]), Number(sector[72..80]), Number(sector[80..84]),
           Number(sector[84..88]), Word32At(sector, 88))
  }

  function Fields(sector: seq<Byte>): Header
    requires |sector| == SECTOR
  {
    Header(Number(sector[12..16]), Word32At(sector, 16), Number(sector[24..32]), Number(sector[32..40]),
           LayoutFields(sector))
  }

  /** The header as it is checksummed: with its own checksum field zeroed. */
  function Checksummed(sector: seq<Byte>, size: nat): (copy: seq<Byte>)
    requires 92 <= size <= |sector|
    ensures |copy| == size
    ensures forall k :: 0 <= k < size ==> copy[k] == if 16 <= k < 20 then 0 else sector[k]
  {
    sector[..16] + [0, 0, 0, 0] + sector[20..size]
  }

  function EntryBytes(l: Layout): nat { l.count * l.entrySize }

  /** The first check that a header sector fails. */
  function HeaderError(sector: seq<Byte>, lba: nat, total: nat, backup: nat): Option<Error> {
    if |sector| != SECTOR || sector[..8] != GPT_SIGNATURE then Some(MissingHeader)
    else
      var h := Fields(sector);
      var l := h.layout;
      if !(92 <= h.size <= SECTOR) || h.current != lba || h.backup != backup then Some(InvalidHeader)
      else if h.backup >= total || (l.first > l.last && l.last >= total) then Some(InvalidRange)
      else if Checksum(Checksummed(sector, h.size)) != h.crc then Some(HeaderChecksum)
      else if !(128 <= l.entrySize <= 1024) || l.entrySize % 8 != 0 || l.count > 4096 then Some(UnsupportedEntries)
      else if l.entriesLba == 0 || l.entriesLba + (EntryBytes(l) + SECTOR - 1) / SECTOR > total
      then Some(EntriesBeyondImage)
      else None
  }

  function GptEntry(entry: seq<Byte>, i: nat, first: nat, last: nat, imageBytes: nat): TableResult<Option<Partition>>
    requires 128 <= |entry|
  {
    var start, end := Number(entry[32..40]), Number(entry[40..48]);
    if entry[..16] == UNUSED_TYPE then Ok(None)
    else if start < first || start > end || end > last then Err(OutOfRange(i + 1))
    else
      var p := Partition(i + 1, if entry[..16] == LINUX_TYPE then LINUX else 0, start, end - start + 1);
      if !Inside(p, imageBytes) then Err(BeyondImage(i + 1)) else Ok(Some(p))
  }

  lemma {:induction false} EntryFits(count: nat, size: nat, i: nat)
    requires i < count
    ensures 0 <= i * size && (i + 1) * size == i * size + size <= count * size
    decreases count
  {
    if i < count - 1 {
      EntryFits(count - 1, size, i);
      assert count * size == (count - 1) * size + size;
    } else {
      assert (i + 1) * size == i * size + size;
    }
  }

  /** Slot `i` of an entry array. */
  function Slot(entries: seq<Byte>, l: Layout, i: nat): (entry: seq<Byte>)
    requires i < l.count && |entries| == EntryBytes(l)
    ensures |entry| == l.entrySize
  {
    EntryFits(l.count, l.entrySize, i);
    entries[i * l.entrySize..(i + 1) * l.entrySize]
  }

  function GptEntries(entries: seq<Byte>, l: Layout, imageBytes: nat): nat --> TableResult<Option<Partition>>
    requires |entries| == EntryBytes(l) && 128 <= l.entrySize
  {
    (i: nat) requires i < l.count => GptEntry(Slot(entries, l, i), i, l.first, l.last, imageBytes)
  }

  /** The partitions of the entry array that an accepted header describes. */
  function EntryTable(image: seq<Byte>, l: Layout): TableResult<seq<Partition>>
    requires 128 <= l.entrySize
  {
    var entries := Read(image, l.entriesLba * SECTOR, EntryBytes(l));
    if |entries| != EntryBytes(l) || Checksum(entries) != l.entriesCrc then Err(EntriesChecksum)
    else WithoutOverlap(Collect(GptEntries(entries, l, |image|), l.count))
  }

  /** The table whose header is in sector `lba`. */
  function GptAt(image: seq<Byte>, lba: nat, total: nat, backup: nat): TableResult<seq<Partition>> {
    var sector := Read(image, lba * SECTOR, SECTOR);
    match HeaderError(sector, lba, total, backup)
    case Some(e) => Err(e)
    case None => EntryTable(image, LayoutFields(sector))
  }

  function Sectors(bytes: nat): nat { bytes / SECTOR }

  /** The sector of the backup header. */
  function LastSector(bytes: nat): nat
    requires Sectors(bytes) > 0
  {
    Sectors(bytes) - 1
  }

  /** The table at `lba`, or the one at `other` when the first is unusable. */
  function GptOrOther(image: seq<Byte>, lba: nat, other: nat): TableResult<seq<Partition>> {
    var primary := GptAt(image, lba, Sectors(|image|), other);
    if primary.Ok? then primary
    else
      var spare := GptAt(image, other, Sectors(|image|), lba);
      if spare.Ok? then spare else primary
  }

  /** The primary table, or the backup in the last sector. */
  function Gpt(image: seq<Byte>): TableResult<seq<Partition>> {
    if Sectors(|image|) < 2 then Err(TooSmall) else GptOrOther(image, 1, LastSector(|image|))
  }

  /** The table of an image, of either kind. */
  function Table(image: seq<Byte>): TableResult<seq<Partition>> {
    var sector := Read(image, 0, SECTOR);
    if |sector| == SECTOR && sector[510..512] == MBR_SIGNATURE && sector[450] == 0xEE then Gpt(image)
    else MbrTable(sector, |image|)
  }

  method ParseGptAt(image: seq<Byte>, lba: nat, total: nat, backup: nat) returns (r: TableResult<seq<Partition>>)
    ensures r == GptAt(image, lba, total, backup)
  {
    var sector := Read(image, lba * SECTOR, SECTOR);
    if |sector| != SECTOR || sector[..8] != GPT_SIGNATURE {
      return Err(MissingHeader);
    }
    var h := Fields(sector);
    var l := h.layout;
    if !(92 <= h.size <= SECTOR) || h.current != lba || h.backup != backup {
      return Err(InvalidHeader);
    }
    if h.backup >= total || (l.first > l.last && l.last >= total) {
      return Err(InvalidRange);
    }
    var crc := Crc32.Crc32(Checksummed(sector, h.size));
    if crc != h.crc {
      return Err(HeaderChecksum);
    }
    if !(128 <= l.entrySize <= 1024) || l.entrySize % 8 != 0 || l.count > 4096 {
      return Err(UnsupportedEntries);
    }
    var entryBytes := l.count * l.entrySize;
    if l.entriesLba == 0 || l.entriesLba + (entryBytes + SECTOR - 1) / SECTOR > total {
      return Err(EntriesBeyondImage);
    }
    assert HeaderError(sector, lba, total, backup) == None;
    var entries := Read(image, l.entriesLba * SECTOR, entryBytes);
    crc := Crc32.Crc32(entries);
    if |entries| != entryBytes || crc != l.entriesCrc {
      return Err(EntriesChecksum);
    }
    r := ParseGptEntries(entries, l, |image|);
  }

  method ParseGptEntries(entries: seq<Byte>, l: Layout, imageBytes: nat) returns (r: TableResult<seq<Partition>>)
    requires |entries| == EntryBytes(l) && 128 <= l.entrySize
    ensures r == WithoutOverlap(Collect(GptEntries(entries, l, imageBytes), l.count))
  {
    var partitions: seq<Partition> := [];
    ghost var all := GptEntries(entries, l, imageBytes);
    for index := 0 to l.count
      invariant Collect(all, index) == Ok(partitions)
    {
      var entry := Slot(entries, l, index);
      var outcome := ReadGptEntry(entry, index, l, imageBytes);
      assert all(index) == outcome;
      CollectFails(all, index + 1, l.count);
      if outcome.Err? {
        return Err(outcome.error);
      }
      if outcome.value.Some? {
        partitions := partitions + [outcome.value.value];
      }
    }
    var clash := FindOverlap(partitions);
    return if clash then Err(Overlap) else Ok(partitions);
  }

  /** The body of that loop. */
  method ReadGptEntry(entry: seq<Byte>, index: nat, l: Layout, imageBytes: nat) returns (r: TableResult<Option<Partition>>)
    requires 128 <= |entry|
    ensures r == GptEntry(entry, index, l.first, l.last, imageBytes)
  {
    if entry[..16] == UNUSED_TYPE {
      return Ok(None);
    }
    var start, end := Number(entry[32..40]), Number(entry[40..48]);
    if start < l.first || start > end || end > l.last {
      return Err(OutOfRange(index + 1));
    }
    var kind := if entry[..16] == LINUX_TYPE then LINUX else 0;
    var partition := Partition(index + 1, kind, start, end - start + 1);
    if start * SECTOR + (end - start + 1) * SECTOR > imageBytes {
      return Err(BeyondImage(index + 1));
    }
    return Ok(Some(partition));
  }

  method ReadPartitions(image: seq<Byte>) returns (r: TableResult<seq<Partition>>)
    ensures r == Table(image)
  {
    var sector := Read(image, 0, SECTOR);
    if |sector| == SECTOR && sector[510..512] == MBR_SIGNATURE && sector[450] == 0xEE {
      var total := Sectors(|image|);
      if total < 2 {
        return Err(TooSmall);
      }
      r := ParseGptAt(image, 1, total, total - 1);
      if r.Err? {
        var spare := ParseGptAt(image, total - 1, total, 1);
        if spare.Ok? {
          return spare;
        }
      }
    } else {
      r := ParseMbrSector(sector, |image|);
    }
  }

  // --- What an accepted table means ---------------------------------------------------------------

  ghost predicate Disjoint(p: Partition, q: Partition) {
    p.start + p.sectors <= q.start || q.start + q.sectors <= p.start
  }

  /** Non-empty, inside the image, and numbered in slot order. */
  ghost predicate Placed(ps: seq<Partition>, slots: nat, imageBytes: nat) {
    && (forall i :: 0 <= i < |ps| ==> ps[i].sectors > 0 && Inside(ps[i], imageBytes) && ps[i].number <= slots)
    && (forall i, j :: 0 <= i < j < |ps| ==> ps[i].number < ps[j].number)
  }

  ghost predicate Sound(ps: seq<Partition>, slots: nat, imageBytes: nat) {
    Placed(ps, slots, imageBytes) && forall i, j :: 0 <= i < j < |ps| ==> Disjoint(ps[i], ps[j])
  }

  /** A slot's partition is numbered after the slot, non-empty and inside the image. */
  ghost predicate Honest(entry: nat --> TableResult<Option<Partition>>, n: nat, imageBytes: nat)
    requires forall i: nat :: i < n ==> entry.requires(i)
  {
    forall i: nat :: i < n && entry(i).Ok? && entry(i).value.Some? ==>
      var p := entry(i).value.value;
      p.number == i + 1 && p.sectors > 0 && Inside(p, imageBytes)
  }

  /** The list holds exactly the partitions of the used slots, and every slot is well formed. */
  ghost predicate ListsSlots(ps: seq<Partition>, entry: nat --> TableResult<Option<Partition>>, n: nat)
    requires forall i: nat :: i < n ==> entry.requires(i)
  {
    && (forall i: nat :: i < n ==> entry(i).Ok? && (entry(i).value.Some? ==> entry(i).value.value in ps))
    && (forall p :: p in ps ==> exists i: nat :: i < n && entry(i) == Ok(Some(p)))
  }

  lemma {:induction false} CollectListsSlots(entry: nat --> TableResult<Option<Partition>>, n: nat)
    requires forall i: nat :: i < n ==> entry.requires(i)
    ensures Collect(entry, n).Ok? <==> forall i: nat :: i < n ==> entry(i).Ok?
    ensures Collect(entry, n).Ok? ==> ListsSlots(Collect(entry, n).value, entry, n)
  {
    if n > 0 {
      CollectListsSlots(entry, n - 1);
      if Collect(entry, n).Ok? {
        var before, ps := Collect(entry, n - 1).value, Collect(entry, n).value;
        forall p | p in ps ensures exists i: nat :: i < n && entry(i) == Ok(Some(p)) {
          if p in before {
            var i: nat :| i < n - 1 && entry(i) == Ok(Some(p));
          } else {
            assert entry(n - 1) == Ok(Some(p));
          }
        }
      }
    }
  }

  lemma {:induction false} CollectIsPlaced(entry: nat --> TableResult<Option<Partition>>, n: nat, imageBytes: nat)
    requires forall i: nat :: i < n ==> entry.requires(i)
    requires Honest(entry, n, imageBytes)
    ensures Collect(entry, n).Ok? ==> Placed(Collect(entry, n).value, n, imageBytes)
  {
    if n > 0 {
      CollectIsPlaced(entry, n - 1, imageBytes);
    }
  }

  /** A table is accepted exactly when every slot is well formed and no two partitions overlap; the
      list is then sound and complete. */
  lemma TableMeaning(entry: nat --> TableResult<Option<Partition>>, n: nat, imageBytes: nat, r: TableResult<seq<Partition>>)
    requires forall i: nat :: i < n ==> entry.requires(i)
    requires Honest(entry, n, imageBytes)
    requires r == WithoutOverlap(Collect(entry, n))
    ensures r.Ok? ==> Sound(r.value, n, imageBytes) && ListsSlots(r.value, entry, n)
    ensures r.Err? ==>
              || (exists i: nat :: i < n && entry(i).Err?)
              || (exists i: nat, j: nat :: i < j < n && BothUsed(entry(i), entry(j))
                                           && Clash(entry(i).value.value, entry(j).value.value))
  {
    CollectListsSlots(entry, n);
    CollectIsPlaced(entry, n, imageBytes);
    var c := Collect(entry, n);
    if c.Ok? && r.Err? {
      var k, l :| 0 <= k < l < |c.value| && Clash(c.value[k], c.value[l]);
      assert c.value[k] in c.value && c.value[l] in c.value;
      var i: nat :| i < n && entry(i) == Ok(Some(c.value[k]));
      var j: nat :| j < n && entry(j) == Ok(Some(c.value[l]));
      assert i + 1 == c.value[k].number < c.value[l].number == j + 1;
      assert BothUsed(entry(i), entry(j));
    }
  }

  predicate BothUsed(a: TableResult<Option<Partition>>, b: TableResult<Option<Partition>>) {
    a.Ok? && a.value.Some? && b.Ok? && b.value.Some?
  }

  lemma AcceptedMbrIsSound(sector: seq<Byte>, imageBytes: nat)
    requires MbrTable(sector, imageBytes).Ok?
    ensures Sound(MbrTable(sector, imageBytes).value, 4, imageBytes)
    ensures ListsSlots(MbrTable(sector, imageBytes).value, MbrEntries(sector, imageBytes), 4)
  {
    TableMeaning(MbrEntries(sector, imageBytes), 4, imageBytes, MbrTable(sector, imageBytes));
  }

  /** For GPT this needs no trust in the usable range that the header announces. */
  lemma AcceptedGptIsSound(image: seq<Byte>, l: Layout)
    requires 128 <= l.entrySize && EntryTable(image, l).Ok?
    ensures Sound(EntryTable(image, l).value, l.count, |image|)
    ensures var entries := Read(image, l.entriesLba * SECTOR, EntryBytes(l));
            |entries| == EntryBytes(l) && ListsSlots(EntryTable(image, l).value, GptEntries(entries, l, |image|), l.count)
  {
    var entries := Read(image, l.entriesLba * SECTOR, EntryBytes(l));
    TableMeaning(GptEntries(entries, l, |image|), l.count, |image|, EntryTable(image, l));
  }

  lemma AcceptedCopyIsSound(image: seq<Byte>, lba: nat, total: nat, backup: nat)
    requires GptAt(image, lba, total, backup).Ok?
    ensures Sound(GptAt(image, lba, total, backup).value, 4096, |image|)
  {
    AcceptedGptIsSound(image, LayoutFields(Read(image, lba * SECTOR, SECTOR)));
  }

  /** Every list that `read_partitions` returns is sound. */
  lemma AcceptedTableIsSound(image: seq<Byte>)
    requires Table(image).Ok?
    ensures Sound(Table(image).value, 4096, |image|)
  {
    var total := Sectors(|image|);
    if Table(image) == MbrTable(Read(image, 0, SECTOR), |image|) {
      AcceptedMbrIsSound(Read(image, 0, SECTOR), |image|);
    } else if GptAt(image, 1, total, total - 1).Ok? {
      AcceptedCopyIsSound(image, 1, total, total - 1);
    } else {
      AcceptedCopyIsSound(image, total - 1, total, 1);
    }
  }
}
