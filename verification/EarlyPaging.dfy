/** The static page tables that map two windows of RAM before the kernel's own memory management. */
module EarlyPaging {
  import opened Wrappers

  const PAGE: nat := 4096
  const ENTRIES: nat := 512
  /** V, D, MAT cached, P and W. */
  const RWX: nat := 1 + 2 + 16 + 128 + 256

  const LOW_RAM_START_VA: nat := 0x9000_0000_0000_0000
  const LOW_RAM_END_VA: nat := 0x9000_0000_0100_0000
  const RAM_START_VA: nat := 0x9000_0000_9000_0000
  const RAM_END_VA: nat := 0x9000_0000_c000_0000
  const LOW_RAM_LEAF_COUNT: nat := 8
  const RAM_LEAF_COUNT: nat := 384
  /** Virtual addresses have 39 translated bits. */
  const SPACE: nat := 0x80_0000_0000

  function Vpn(va: nat): nat { (va / PAGE) % (ENTRIES * ENTRIES * ENTRIES) }
  function Index0(vpn: nat): nat { vpn % ENTRIES }
  function Index1(vpn: nat): nat { (vpn / ENTRIES) % ENTRIES }
  function Index2(vpn: nat): nat { (vpn / (ENTRIES * ENTRIES)) % ENTRIES }

  function TableEntry(ppn: nat): nat { ppn * PAGE }
  /** The flags only use bits below the page number. */
  function LeafEntry(ppn: nat, flags: nat): nat { ppn * PAGE + flags }

  /** A page outside both groups of leaf tables. */
  predicate Apart(ppn: nat, low: nat, ram: nat) {
    !(low <= ppn < low + LOW_RAM_LEAF_COUNT) && !(ram <= ppn < ram + RAM_LEAF_COUNT)
  }

  /** A physical address and the flags of its page. */
  datatype Mapping = Mapping(address: nat, flags: nat)

  function Leaf(entry: nat, va: nat): Option<Mapping> {
    if entry == 0 then None else Some(Mapping(entry / PAGE * PAGE + va % PAGE, entry % PAGE))
  }

  /** The address, within the translated bits, belongs to one of the two windows. */
  predicate InWindow(address: nat) {
    address < 0x100_0000 || 0x9000_0000 <= address < 0xC000_0000
  }

  lemma Digits(vpn: nat)
    requires vpn < ENTRIES * ENTRIES * ENTRIES
    ensures vpn == (Index2(vpn) * ENTRIES + Index1(vpn)) * ENTRIES + Index0(vpn)
    ensures vpn / ENTRIES == Index2(vpn) * ENTRIES + Index1(vpn)
  {
  }

  lemma WindowIndices(address: nat)
    requires address < SPACE
    ensures var vpn := address / PAGE;
            InWindow(address) <==>
              (Index2(vpn) == 0 && Index1(vpn) < LOW_RAM_LEAF_COUNT) || (Index2(vpn) == 2 && 128 <= Index1(vpn))
  {
    Digits(address / PAGE);
  }

  lemma Fields(ppn: nat, flags: nat)
    requires flags < PAGE
    ensures LeafEntry(ppn, flags) / PAGE == ppn && LeafEntry(ppn, flags) % PAGE == flags
    ensures TableEntry(ppn) / PAGE == ppn && (TableEntry(ppn) == 0 <==> ppn == 0)
  {
  }

  lemma Translated(va: nat)
    ensures Vpn(va) == (va % SPACE) / PAGE && va % PAGE == (va % SPACE) % PAGE
  {
    var high := va / SPACE;
    assert va == high * SPACE + va % SPACE;
    assert va / PAGE == high * (ENTRIES * ENTRIES * ENTRIES) + (va % SPACE) / PAGE;
  }

  class Tables {
    const root: array<nat>
    const lowMiddle: array<nat>
    const ramMiddle: array<nat>
    const lowLeaves: array2<nat>
    const ramLeaves: array2<nat>
    /** Physical page numbers; the leaf tables of a window lie one after the other. */
    const lowMiddlePpn: nat
    const ramMiddlePpn: nat
    const lowLeavesPpn: nat
    const ramLeavesPpn: nat

    constructor (lowMiddlePpn: nat, ramMiddlePpn: nat, lowLeavesPpn: nat, ramLeavesPpn: nat)
      requires lowMiddlePpn > 0 && ramMiddlePpn > 0 && lowLeavesPpn > 0 && ramLeavesPpn > 0 && lowMiddlePpn != ramMiddlePpn
      requires lowLeavesPpn + LOW_RAM_LEAF_COUNT <= ramLeavesPpn || ramLeavesPpn + RAM_LEAF_COUNT <= lowLeavesPpn
      requires Apart(lowMiddlePpn, lowLeavesPpn, ramLeavesPpn) && Apart(ramMiddlePpn, lowLeavesPpn, ramLeavesPpn)
      ensures Placed() && Zero()
    {
      this.lowMiddlePpn, this.ramMiddlePpn := lowMiddlePpn, ramMiddlePpn;
      this.lowLeavesPpn, this.ramLeavesPpn := lowLeavesPpn, ramLeavesPpn;
      root, lowMiddle, ramMiddle := new nat[ENTRIES](_ => 0), new nat[ENTRIES](_ => 0), new nat[ENTRIES](_ => 0);
      lowLeaves := new nat[LOW_RAM_LEAF_COUNT, ENTRIES]((_, _) => 0);
      ramLeaves := new nat[RAM_LEAF_COUNT, ENTRIES]((_, _) => 0);
    }

    /** The linker gives every table its own pages, none of them at address zero. */
    ghost predicate Placed()
    {
      && root.Length == lowMiddle.Length == ramMiddle.Length == ENTRIES
      && lowLeaves.Length0 == LOW_RAM_LEAF_COUNT && ramLeaves.Length0 == RAM_LEAF_COUNT
      && lowLeaves.Length1 == ramLeaves.Length1 == ENTRIES
      && root != lowMiddle && root != ramMiddle && lowMiddle != ramMiddle && lowLeaves != ramLeaves
      && lowMiddlePpn > 0 && ramMiddlePpn > 0 && lowMiddlePpn != ramMiddlePpn
      && lowLeavesPpn > 0 && ramLeavesPpn > 0
      && Apart(lowMiddlePpn, lowLeavesPpn, ramLeavesPpn) && Apart(ramMiddlePpn, lowLeavesPpn, ramLeavesPpn)
      && (lowLeavesPpn + LOW_RAM_LEAF_COUNT <= ramLeavesPpn || ramLeavesPpn + RAM_LEAF_COUNT <= lowLeavesPpn)
    }

    /** Static tables start out zero. */
    ghost predicate Zero()
      reads root, lowMiddle, ramMiddle, lowLeaves, ramLeaves
    {
      && (forall i :: 0 <= i < root.Length ==> root[i] == 0)
      && (forall i :: 0 <= i < lowMiddle.Length ==> lowMiddle[i] == 0)
      && (forall i :: 0 <= i < ramMiddle.Length ==> ramMiddle[i] == 0)
      && (forall i, j :: 0 <= i < lowLeaves.Length0 && 0 <= j < lowLeaves.Length1 ==> lowLeaves[i, j] == 0)
      && (forall i, j :: 0 <= i < ramLeaves.Length0 && 0 <= j < ramLeaves.Length1 ==> ramLeaves[i, j] == 0)
    }

    /** What the loops leave in the tables. */
    ghost predicate Built()
      reads root, lowMiddle, ramMiddle, lowLeaves, ramLeaves
      requires Placed()
    {
      && (forall i :: 0 <= i < ENTRIES ==> root[i] == if i == 0 then TableEntry(lowMiddlePpn) else if i == 2 then TableEntry(ramMiddlePpn) else 0)
      && (forall i :: 0 <= i < ENTRIES ==> lowMiddle[i] == if i < LOW_RAM_LEAF_COUNT then TableEntry(lowLeavesPpn + i) else 0)
      && (forall i :: 0 <= i < ENTRIES ==> ramMiddle[i] == if 128 <= i then TableEntry(ramLeavesPpn + i - 128) else 0)
      && (forall i, j :: 0 <= i < LOW_RAM_LEAF_COUNT && 0 <= j < ENTRIES ==> lowLeaves[i, j] == LeafEntry(i * ENTRIES + j, RWX))
      && (forall i, j :: 0 <= i < RAM_LEAF_COUNT && 0 <= j < ENTRIES ==> ramLeaves[i, j] == LeafEntry(0x90000 + i * ENTRIES + j, RWX))
    }

    method Init()
      requires Placed() && Zero()
      modifies root, lowMiddle, ramMiddle, lowLeaves, ramLeaves
      ensures Built()
    {
      var lowStart, lowEnd := Vpn(LOW_RAM_START_VA), Vpn(LOW_RAM_END_VA);
      var start, end := Vpn(RAM_START_VA), Vpn(RAM_END_VA);
      assert lowStart == 0 && lowEnd == 0x1000 && start == 0x90000 && end == 0xC0000;
      root[Index2(lowStart)] := TableEntry(lowMiddlePpn);
      var lowFirst := Index1(lowStart);
      for leaf := 0 to LOW_RAM_LEAF_COUNT
        modifies lowMiddle
        invariant forall i :: 0 <= i < ENTRIES ==> lowMiddle[i] == if i < leaf then TableEntry(lowLeavesPpn + i) else 0
      {
        lowMiddle[lowFirst + leaf] := TableEntry(lowLeavesPpn + leaf);
      }
      for vpn := lowStart to lowEnd
        modifies lowLeaves
        invariant forall i, j :: 0 <= i < LOW_RAM_LEAF_COUNT && 0 <= j < ENTRIES && i * ENTRIES + j < vpn ==>
                    lowLeaves[i, j] == LeafEntry(i * ENTRIES + j, RWX)
      {
        lowLeaves[Index1(vpn) - lowFirst, Index0(vpn)] := LeafEntry(vpn, RWX);
      }
      root[Index2(start)] := TableEntry(ramMiddlePpn);
      InitRam(start, end);
    }

    /** The second half of `init`: the window of bank 1. */
    method InitRam(start: nat, end: nat)
      requires Placed() && start == 0x90000 && end == 0xC0000
      requires forall i :: 0 <= i < ENTRIES ==> ramMiddle[i] == 0
      modifies ramMiddle, ramLeaves
      ensures forall i :: 0 <= i < ENTRIES ==> ramMiddle[i] == if 128 <= i then TableEntry(ramLeavesPpn + i - 128) else 0
      ensures forall i, j :: 0 <= i < RAM_LEAF_COUNT && 0 <= j < ENTRIES ==> ramLeaves[i, j] == LeafEntry(0x90000 + i * ENTRIES + j, RWX)
    {
      var first := Index1(start);
      for leaf := 0 to RAM_LEAF_COUNT
        modifies ramMiddle
        invariant forall i :: 0 <= i < ENTRIES ==> ramMiddle[i] == if 128 <= i < 128 + leaf then TableEntry(ramLeavesPpn + i - 128) else 0
      {
        ramMiddle[first + leaf] := TableEntry(ramLeavesPpn + leaf);
      }
      for vpn := start to end
        modifies ramLeaves
        invariant forall i, j :: 0 <= i < RAM_LEAF_COUNT && 0 <= j < ENTRIES && 0x90000 + i * ENTRIES + j < vpn ==>
                    ramLeaves[i, j] == LeafEntry(0x90000 + i * ENTRIES + j, RWX)
      {
        ramLeaves[Index1(vpn) - first, Index0(vpn)] := LeafEntry(vpn, RWX);
      }
    }

    // --- The walk -----------------------------------------------------------------------------------

    /** The word at an index of the table in a physical page; other memory is not read. */
    ghost function Word(ppn: nat, index: nat): Option<nat>
      reads root, lowMiddle, ramMiddle, lowLeaves, ramLeaves
      requires Placed() && index < ENTRIES
    {
      if ppn == lowMiddlePpn then Some(lowMiddle[index])
      else if ppn == ramMiddlePpn then Some(ramMiddle[index])
      else if lowLeavesPpn <= ppn < lowLeavesPpn + LOW_RAM_LEAF_COUNT then Some(lowLeaves[ppn - lowLeavesPpn, index])
      else if ramLeavesPpn <= ppn < ramLeavesPpn + RAM_LEAF_COUNT then Some(ramLeaves[ppn - ramLeavesPpn, index])
      else None
    }

    /** The three-level walk: an empty entry, or a table page that is not ours, ends it. */
    ghost function Walk(va: nat): Option<Mapping>
      reads root, lowMiddle, ramMiddle, lowLeaves, ramLeaves
      requires Placed()
    {
      var vpn := Vpn(va);
      var entry2 := root[Index2(vpn)];
      if entry2 == 0 then None
      else match Word(entry2 / PAGE, Index1(vpn))
        case None => None
        case Some(entry1) =>
          if entry1 == 0 then None
          else match Word(entry1 / PAGE, Index0(vpn))
            case None => None
            case Some(entry0) => Leaf(entry0, va)
    }

    /** Where the leaf entry of a page lies, if it has one. */
    lemma WalkByIndices(vpn: nat, va: nat)
      requires Placed() && Built() && vpn == Vpn(va)
      ensures var index2, index1, index0 := Index2(vpn), Index1(vpn), Index0(vpn);
              Walk(va) ==
              if index2 == 0 && index1 < LOW_RAM_LEAF_COUNT then Leaf(lowLeaves[index1, index0], va)
              else if index2 == 2 && 128 <= index1 then Leaf(ramLeaves[index1 - 128, index0], va)
              else None
    {
      if Index2(vpn) == 0 {
        WalkLow(vpn, va);
      } else if Index2(vpn) == 2 {
        WalkRam(vpn, va);
      }
    }

    lemma WalkLow(vpn: nat, va: nat)
      requires Placed() && Built() && vpn == Vpn(va) && Index2(vpn) == 0
      ensures Walk(va) == if Index1(vpn) < LOW_RAM_LEAF_COUNT then Leaf(lowLeaves[Index1(vpn), Index0(vpn)], va) else None
    {
      Fields(lowMiddlePpn, 0);
      Fields(lowLeavesPpn + Index1(vpn), 0);
    }

    lemma WalkRam(vpn: nat, va: nat)
      requires Placed() && Built() && vpn == Vpn(va) && Index2(vpn) == 2
      ensures Walk(va) == if 128 <= Index1(vpn) then Leaf(ramLeaves[Index1(vpn) - 128, Index0(vpn)], va) else None
    {
      Fields(ramMiddlePpn, 0);
      if Index1(vpn) >= 128 {
        Fields(ramLeavesPpn + Index1(vpn) - 128, 0);
      }
    }

    /** The built tables map exactly the two windows, each address to itself without the window's
        high bits, with all access rights; nothing else is mapped. */
    lemma WalkMapsExactlyTheWindows(va: nat)
      requires Placed() && Built()
      ensures Walk(va) == if InWindow(va % SPACE) then Some(Mapping(va % SPACE, RWX)) else None
    {
      var vpn := Vpn(va);
      Translated(va);
      Digits(vpn);
      WindowIndices(va % SPACE);
      Fields(vpn, RWX);
      WalkByIndices(vpn, va);
    }
  }
}
