/** A damaged GPT is read from its other copy. */
module BackupTable {
  import opened Wrappers
  import opened Crc32
  import opened PartitionTables

  lemma ReadBurst(image: seq<Byte>, damaged: seq<Byte>, from: int, offset: nat, n: nat)
    requires Burst(image, damaged, from)
    ensures Burst(Read(image, offset, n), Read(damaged, offset, n), from - offset)
  {
  }

  /** Damage to the checked part of a header is rejected; elsewhere it changes no field that is
      used after the checks. */
  lemma DamagedHeader(sector: seq<Byte>, damaged: seq<Byte>, from: int, lba: nat, total: nat, backup: nat)
    requires Burst(sector, damaged, from)
    requires HeaderError(sector, lba, total, backup) == None
    requires HeaderError(damaged, lba, total, backup) == None
    ensures LayoutFields(sector) == LayoutFields(damaged)
  {
    if SameFieldBytes(sector, damaged) {
      SameFields(sector, damaged);
    } else {
      DamagedFields(sector, damaged, from);
    }
  }

  /** All fields from `current_lba` on are in these bytes. */
  ghost predicate SameFieldBytes(sector: seq<Byte>, damaged: seq<Byte>) {
    |sector| == |damaged| == SECTOR && forall i :: 24 <= i < 92 ==> sector[i] == damaged[i]
  }

  lemma SameFields(sector: seq<Byte>, damaged: seq<Byte>)
    requires SameFieldBytes(sector, damaged)
    ensures LayoutFields(sector) == LayoutFields(damaged)
  {
    assert sector[40..48] == damaged[40..48];
    assert sector[48..56] == damaged[48..56];
    assert sector[72..80] == damaged[72..80];
    assert sector[80..84] == damaged[80..84];
    assert sector[84..88] == damaged[84..88];
  }

  lemma DamagedFields(sector: seq<Byte>, damaged: seq<Byte>, from: int)
    requires Burst(sector, damaged, from) && |sector| == SECTOR && !SameFieldBytes(sector, damaged)
    requires 92 <= Fields(sector).size <= SECTOR
    ensures Fields(damaged).size == Fields(sector).size && Fields(damaged).crc == Fields(sector).crc
    ensures Checksum(Checksummed(sector, Fields(sector).size)) != Checksum(Checksummed(damaged, Fields(sector).size))
  {
    var i :| 24 <= i < 92 && sector[i] != damaged[i];
    SizeAndChecksumKept(sector, damaged, from);
    ChecksummedDamage(sector, damaged, from, Fields(sector).size, i);
  }

  lemma SizeAndChecksumKept(sector: seq<Byte>, damaged: seq<Byte>, from: int)
    requires Burst(sector, damaged, from) && |sector| == SECTOR && from > 20
    ensures Fields(damaged).size == Fields(sector).size && Fields(damaged).crc == Fields(sector).crc
  {
    assert sector[12..16] == damaged[12..16];
  }

  lemma ChecksummedDamage(sector: seq<Byte>, damaged: seq<Byte>, from: int, size: nat, i: nat)
    requires Burst(sector, damaged, from) && from > 20 && 24 <= i < 92 <= size <= |sector|
    requires sector[i] != damaged[i]
    ensures Checksum(Checksummed(sector, size)) != Checksum(Checksummed(damaged, size))
  {
    var s, d := Checksummed(sector, size), Checksummed(damaged, size);
    assert s[i] == sector[i];
    assert d[i] == damaged[i];
    DamageIsDetected(s, d, from);
  }

  /** A copy hit by the damage is either rejected or read as before. */
  lemma DamagedCopy(image: seq<Byte>, damaged: seq<Byte>, from: int, lba: nat, total: nat, backup: nat)
    requires Burst(image, damaged, from) && GptAt(image, lba, total, backup).Ok?
    ensures GptAt(damaged, lba, total, backup).Err? || GptAt(damaged, lba, total, backup) == GptAt(image, lba, total, backup)
  {
    var s, d := Read(image, lba * SECTOR, SECTOR), Read(damaged, lba * SECTOR, SECTOR);
    ReadBurst(image, damaged, from, lba * SECTOR, SECTOR);
    if HeaderError(d, lba, total, backup) == None {
      DamagedHeader(s, d, from - lba * SECTOR, lba, total, backup);
      DamagedEntries(image, damaged, from, LayoutFields(s));
    }
  }

  lemma DamagedEntries(image: seq<Byte>, damaged: seq<Byte>, from: int, l: Layout)
    requires Burst(image, damaged, from) && 128 <= l.entrySize && EntryTable(image, l).Ok?
    ensures EntryTable(damaged, l).Err? || EntryTable(damaged, l) == EntryTable(image, l)
  {
    var e, d := Read(image, l.entriesLba * SECTOR, EntryBytes(l)), Read(damaged, l.entriesLba * SECTOR, EntryBytes(l));
    ReadBurst(image, damaged, from, l.entriesLba * SECTOR, EntryBytes(l));
    if e != d {
      DamageIsDetected(e, d, from - l.entriesLba * SECTOR);
    }
  }

  /** The damage misses `[start, start + length)`. */
  ghost predicate Misses(from: int, start: nat, length: nat) {
    from + 4 <= start || start + length <= from
  }

  /** It misses the header and the entry array of the copy whose header is in sector `lba`. */
  ghost predicate SparesCopy(image: seq<Byte>, from: int, lba: nat)
    requires (lba + 1) * SECTOR <= |image|
  {
    var l := LayoutFields(Read(image, lba * SECTOR, SECTOR));
    Misses(from, lba * SECTOR, SECTOR) && Misses(from, l.entriesLba * SECTOR, EntryBytes(l))
  }

  lemma ReadUnharmed(image: seq<Byte>, damaged: seq<Byte>, from: int, offset: nat, n: nat)
    requires Burst(image, damaged, from) && Misses(from, offset, n)
    ensures Read(image, offset, n) == Read(damaged, offset, n)
  {
  }

  lemma SparedCopy(image: seq<Byte>, damaged: seq<Byte>, from: int, lba: nat, total: nat, backup: nat)
    requires Burst(image, damaged, from) && (lba + 1) * SECTOR <= |image| && SparesCopy(image, from, lba)
    ensures GptAt(damaged, lba, total, backup) == GptAt(image, lba, total, backup)
  {
    var l := LayoutFields(Read(image, lba * SECTOR, SECTOR));
    ReadUnharmed(image, damaged, from, lba * SECTOR, SECTOR);
    ReadUnharmed(image, damaged, from, l.entriesLba * SECTOR, EntryBytes(l));
  }

  /** Both copies are valid and agree. */
  ghost predicate Agree(image: seq<Byte>, lba: nat, other: nat, ps: seq<Partition>) {
    var total := Sectors(|image|);
    GptAt(image, lba, total, other) == Ok(ps) && GptAt(image, other, total, lba) == Ok(ps)
  }

  /** The damage misses one of the copies. */
  ghost predicate SparesOne(image: seq<Byte>, from: int, lba: nat, other: nat) {
    && (lba + 1) * SECTOR <= |image| && (other + 1) * SECTOR <= |image|
    && (SparesCopy(image, from, lba) || SparesCopy(image, from, other))
  }

  lemma CopyAfterDamage(image: seq<Byte>, damaged: seq<Byte>, from: int, lba: nat, total: nat, backup: nat, ps: seq<Partition>)
    requires Burst(image, damaged, from) && (lba + 1) * SECTOR <= |image| && GptAt(image, lba, total, backup) == Ok(ps)
    ensures GptAt(damaged, lba, total, backup).Err? || GptAt(damaged, lba, total, backup) == Ok(ps)
    ensures SparesCopy(image, from, lba) ==> GptAt(damaged, lba, total, backup) == Ok(ps)
  {
    DamagedCopy(image, damaged, from, lba, total, backup);
    if SparesCopy(image, from, lba) {
      SparedCopy(image, damaged, from, lba, total, backup);
    }
  }

  lemma OneCopySurvives(image: seq<Byte>, damaged: seq<Byte>, from: int, lba: nat, other: nat, ps: seq<Partition>)
    requires Agree(image, lba, other, ps) && Burst(image, damaged, from) && SparesOne(image, from, lba, other)
    ensures GptOrOther(damaged, lba, other) == Ok(ps)
  {
    CopyAfterDamage(image, damaged, from, lba, Sectors(|image|), other, ps);
    CopyAfterDamage(image, damaged, from, other, Sectors(|image|), lba, ps);
  }

  ghost predicate Recoverable(image: seq<Byte>, from: int, ps: seq<Partition>) {
    && Sectors(|image|) >= 2
    && Agree(image, 1, LastSector(|image|), ps)
    && SparesOne(image, from, 1, LastSector(|image|))
  }

  /** When both copies are valid and agree, no damage to four consecutive bytes that misses one of
      the two copies changes the partitions that are read. */
  lemma DamageIsRepaired(image: seq<Byte>, damaged: seq<Byte>, from: int, ps: seq<Partition>)
    requires Recoverable(image, from, ps) && Burst(image, damaged, from)
    ensures Gpt(damaged) == Ok(ps)
  {
    OneCopySurvives(image, damaged, from, 1, LastSector(|image|), ps);
  }

  lemma ProtectiveMbr(image: seq<Byte>)
    requires |image| >= SECTOR && image[450] == 0xEE && image[510] == 0x55 && image[511] == 0xAA
    ensures Table(image) == Gpt(image)
  {
    assert Read(image, 0, SECTOR) == image[..SECTOR];
    assert image[..SECTOR][510..512] == MBR_SIGNATURE;
  }

  /** So does `read_partitions`, if the protective MBR is recognised as before. */
  lemma DamagedImageIsRead(image: seq<Byte>, damaged: seq<Byte>, from: int, ps: seq<Partition>)
    requires Recoverable(image, from, ps) && Burst(image, damaged, from)
    requires image[450] == 0xEE && image[510] == 0x55 && image[511] == 0xAA
    requires Misses(from, 450, 1) && Misses(from, 510, 2)
    ensures Table(damaged) == Ok(ps)
  {
    DamageIsRepaired(image, damaged, from, ps);
    ProtectiveMbr(damaged);
  }
}
