/** The identity page tables, and the address translation the hardware makes of them
    (VMSAv8-64, 4 KiB granule, 39-bit input addresses: section D8.3 of Arm DDI 0487). */
module Mmu {
  import opened Base

  const TABLE_ENTRIES: nat := 512
  const BLOCK_SIZE: bv64 := 0x20_0000
  const MAP_BASE: bv64 := 0x4000_0000
  const MAP_SIZE: bv64 := 0x100_0000
  const EL0_BASE: bv64 := 0x40E0_0000
  const EL0_END: bv64 := 0x4100_0000
  const GIC_BASE: bv64 := 0x0800_0000
  const UART_BASE: bv64 := 0x0900_0000
  const KERNEL_LIMIT: bv64 := 0x4100_0000

  const DESC_VALID: bv64 := 1
  const DESC_TABLE: bv64 := 2
  const DESC_AF: bv64 := 0x400
  const DESC_SH_INNER: bv64 := 0x300
  const DESC_AP_EL0_RW: bv64 := 0x40
  const DESC_UXN: bv64 := 0x40_0000_0000_0000
  const DESC_PXN: bv64 := 0x20_0000_0000_0000
  const ATTR_NORMAL: bv64 := 0
  const ATTR_DEVICE: bv64 := 1

  type Table = t: seq<bv64> | |t| == TABLE_ENTRIES witness seq(TABLE_ENTRIES, _ => 0)

  // ---------------------------------------------------------------- descriptors and indexes

  function L1Index(va: bv64): (i: bv64)
    ensures i < 512
  {
    (va >> 30) & 0x1FF
  }

  function L2Index(va: bv64): (i: bv64)
    ensures i < 512
  {
    (va >> 21) & 0x1FF
  }

  /** The table slot a nine-bit field selects. */
  function Slot(i: bv64): (k: nat)
    requires i < 512
    ensures k < TABLE_ENTRIES
  {
    i as int
  }

  lemma SlotOneToOne(i: bv64, j: bv64)
    requires i < 512 && j < 512 && Slot(i) == Slot(j)
    ensures i == j
  {
    SlotBack(i);
    SlotBack(j);
  }

  lemma SlotBack(i: bv64)
    requires i < 512
    ensures Slot(i) as bv64 == i
  {
  }

  function TableDesc(pa: bv64): bv64 {
    (pa & !(0xFFF as bv64)) | DESC_VALID | DESC_TABLE
  }

  function BlockNormal(pa: bv64, el0: bool): bv64 {
    (pa & !(BLOCK_SIZE - 1)) | DESC_VALID | DESC_AF | DESC_SH_INNER | (ATTR_NORMAL << 2)
    | (if el0 then DESC_AP_EL0_RW | DESC_PXN else DESC_UXN)
  }

  function BlockDevice(pa: bv64): bv64 {
    (pa & !(BLOCK_SIZE - 1)) | DESC_VALID | DESC_AF | (ATTR_DEVICE << 2) | DESC_UXN | DESC_PXN
  }

  // ---------------------------------------------------------------- what the hardware does

  /** What a translation grants; attributes are those of the leaf descriptor combined with
      the restrictions of the table descriptor above it. */
  datatype Translation =
    | Fault
    | OutsideTables
    | Mapped(pa: bv64, attr: bv64, sh: bv64, el0: bool, readOnly: bool, uxn: bool, pxn: bool)
  {
    predicate El0Access() {
      Mapped? && el0
    }

    predicate El0Exec() {
      Mapped? && el0 && !uxn
    }

    /** Memory that EL0 may write is never executable at EL1. */
    predicate El1Exec() {
      Mapped? && !pxn && !(el0 && !readOnly)
    }
  }

  predicate Bit(d: bv64, mask: bv64) {
    d & mask != 0
  }

  /** A block descriptor; `inMask` selects the address bits the block leaves untranslated. */
  function Leaf(d: bv64, above: bv64, va: bv64, inMask: bv64): Translation {
    if !Bit(d, 0x400) then Fault
    else
      Mapped((d & 0xFFFF_FFFF_FFFF & !inMask & !(0xFFF as bv64)) | (va & inMask),
             (d >> 2) & 7,
             (d >> 8) & 3,
             Bit(d, 0x40) && !Bit(above, 0x2000_0000_0000_0000),
             Bit(d, 0x80) || Bit(above, 0x4000_0000_0000_0000),
             Bit(d, 0x40_0000_0000_0000) || Bit(above, 0x1000_0000_0000_0000),
             Bit(d, 0x20_0000_0000_0000) || Bit(above, 0x800_0000_0000_0000))
  }

  /** The second level of the walk; `above` is the table descriptor that led here. */
  function SecondLevel(d: bv64, above: bv64, va: bv64): Translation {
    if d & 1 == 0 then Fault
    else if d & 2 == 0 then Leaf(d, above, va, 0x1F_FFFF)
    else OutsideTables
  }

  /** The first level; `pages` holds the tables by physical address. */
  function FirstLevel(pages: bv64 -> Option<Table>, d: bv64, va: bv64): Translation {
    if d & 1 == 0 then Fault
    else if d & 2 == 0 then Leaf(d, 0, va, 0x3FFF_FFFF)
    else
      var next := pages(d & 0xFFFF_FFFF_F000);
      if next.None? then OutsideTables
      else SecondLevel(next.value[Slot((va >> 21) & 0x1FF)], d, va)
  }

  /** The walk from the root table at `ttbr`. Addresses beyond the 39-bit input size fault. */
  function Walk(pages: bv64 -> Option<Table>, ttbr: bv64, va: bv64): Translation {
    if va >= 0x80_0000_0000 then Fault
    else if pages(ttbr).None? then OutsideTables
    else FirstLevel(pages, pages(ttbr).value[Slot((va >> 30) & 0x1FF)], va)
  }

  // ---------------------------------------------------------------- what is intended

  predicate InKernelWindow(va: bv64) {
    0x4000_0000 <= va < 0x4100_0000
  }

  predicate InEl0Window(va: bv64) {
    0x40E0_0000 <= va < 0x4100_0000
  }

  predicate InDevice(va: bv64) {
    0x800_0000 <= va < 0x820_0000 || 0x900_0000 <= va < 0x920_0000
  }

  /** Identity everywhere it is mapped: cacheable shared memory in the kernel window, open to
      EL0 and closed to EL1 execution in the sandbox only; devices are never executable. */
  function Intended(va: bv64): Translation {
    if InKernelWindow(va) then
      Mapped(va, 0, 3, InEl0Window(va), false, !InEl0Window(va), InEl0Window(va))
    else if InDevice(va) then
      Mapped(va, 1, 0, false, false, true, true)
    else Fault
  }

  // ---------------------------------------------------------------- table contents

  function KernelSlot(j: bv64): bv64 {
    if j < 8 then BlockNormal(MAP_BASE + (j << 21), j == 7) else 0
  }

  function DeviceSlot(j: bv64): bv64 {
    if j == 64 then BlockDevice(GIC_BASE) else if j == 72 then BlockDevice(UART_BASE) else 0
  }

  function RootSlot(j: bv64, low: bv64, kernel: bv64): bv64 {
    if j == 0 then TableDesc(low) else if j == 1 then TableDesc(kernel) else 0
  }

  /** Where the three tables may lie. */
  predicate Placed(root: bv64, low: bv64, kernel: bv64) {
    && root != low && root != kernel && low != kernel
    && root & 0xFFF == 0 && low & 0xFFF == 0 && kernel & 0xFFF == 0
    && root < KERNEL_LIMIT && low < KERNEL_LIMIT && kernel < KERNEL_LIMIT
  }

  ghost predicate HoldsRoot(t: Table, low: bv64, kernel: bv64) {
    forall j: bv64 :: j < 512 ==> t[Slot(j)] == RootSlot(j, low, kernel)
  }

  ghost predicate HoldsDevices(t: Table) {
    forall j: bv64 :: j < 512 ==> t[Slot(j)] == DeviceSlot(j)
  }

  ghost predicate HoldsKernel(t: Table) {
    forall j: bv64 :: j < 512 ==> t[Slot(j)] == KernelSlot(j)
  }

  /** The three tables as the walker finds them. */
  function Pages(root: bv64, low: bv64, kernel: bv64, t1: Table, tl: Table, tk: Table): bv64 -> Option<Table> {
    a => if a == root then Some(t1) else if a == low then Some(tl) else if a == kernel then Some(tk) else None
  }

  // ---------------------------------------------------------------- the walk over these tables

  /** A table descriptor leads to its table and restricts nothing. */
  lemma TableDescriptor(pa: bv64)
    requires pa & 0xFFF == 0 && pa < KERNEL_LIMIT
    ensures var d := TableDesc(pa);
            d & 1 != 0 && d & 2 != 0 && d & 0xFFFF_FFFF_F000 == pa && d & 0xF800_0000_0000_0000 == 0
  {
  }

  lemma NoRestriction(d: bv64)
    requires d & 0xF800_0000_0000_0000 == 0
    ensures !Bit(d, 0x2000_0000_0000_0000) && !Bit(d, 0x4000_0000_0000_0000)
    ensures !Bit(d, 0x1000_0000_0000_0000) && !Bit(d, 0x800_0000_0000_0000)
  {
  }

  lemma NormalLeaf(pa: bv64, above: bv64, va: bv64, el0: bool)
    requires pa & 0x1F_FFFF == 0 && pa < KERNEL_LIMIT && above & 0xF800_0000_0000_0000 == 0
    ensures var d := BlockNormal(pa, el0);
            && d & 1 != 0 && d & 2 == 0
            && Leaf(d, above, va, 0x1F_FFFF) ==
                 Mapped(pa | (va & 0x1F_FFFF), ATTR_NORMAL, 3, el0, false, !el0, el0)
  {
    NoRestriction(above);
  }

  lemma DeviceLeaf(pa: bv64, above: bv64, va: bv64)
    requires pa & 0x1F_FFFF == 0 && pa < KERNEL_LIMIT && above & 0xF800_0000_0000_0000 == 0
    ensures var d := BlockDevice(pa);
            && d & 1 != 0 && d & 2 == 0
            && Leaf(d, above, va, 0x1F_FFFF) == Mapped(pa | (va & 0x1F_FFFF), ATTR_DEVICE, 0, false, false, true, true)
  {
    NoRestriction(above);
  }

  // Bit-level facts about addresses, on literals so that they are decided bit by bit.

  lemma SecondGigabyte(va: bv64)
    requires va < 0x80_0000_0000 && (va >> 30) & 0x1FF == 1
    ensures 0x4000_0000 <= va < 0x8000_0000
  {
  }

  lemma WindowBlocks(va: bv64)
    requires 0x4000_0000 <= va < 0x8000_0000
    ensures va < 0x4100_0000 <==> (va >> 21) & 0x1FF < 8
  {
  }

  lemma WindowAddress(va: bv64)
    requires 0x4000_0000 <= va < 0x4100_0000
    ensures (0x4000_0000 + (((va >> 21) & 0x1FF) << 21)) | (va & 0x1F_FFFF) == va
    ensures 0x40E0_0000 <= va <==> (va >> 21) & 0x1FF == 7
  {
  }

  lemma FirstGigabyte(va: bv64)
    requires va < 0x80_0000_0000 && (va >> 30) & 0x1FF == 0
    ensures va < 0x4000_0000
  {
  }

  lemma LowBlocks(va: bv64)
    requires va < 0x4000_0000
    ensures (0x800_0000 <= va < 0x820_0000) <==> (va >> 21) & 0x1FF == 64
    ensures (0x900_0000 <= va < 0x920_0000) <==> (va >> 21) & 0x1FF == 72
  {
  }

  lemma LowGic(va: bv64)
    requires 0x800_0000 <= va < 0x820_0000
    ensures 0x800_0000 | (va & 0x1F_FFFF) == va
  {
  }

  lemma LowUart(va: bv64)
    requires 0x900_0000 <= va < 0x920_0000
    ensures 0x900_0000 | (va & 0x1F_FFFF) == va
  {
  }

  /** Which slot an address selects says which block it lies in. */
  lemma KernelBlock(va: bv64)
    requires va < 0x80_0000_0000 && L1Index(va) == 1
    ensures InKernelWindow(va) <==> L2Index(va) < 8
  {
    SecondGigabyte(va);
    WindowBlocks(va);
  }

  lemma KernelBlockIsNoDevice(va: bv64)
    requires va < 0x80_0000_0000 && L1Index(va) == 1
    ensures !InDevice(va)
  {
    SecondGigabyte(va);
  }

  lemma KernelAddress(va: bv64)
    requires InKernelWindow(va)
    ensures (MAP_BASE + (L2Index(va) << 21)) | (va & 0x1F_FFFF) == va
  {
    WindowAddress(va);
  }

  lemma SandboxBlock(va: bv64)
    requires InKernelWindow(va)
    ensures InEl0Window(va) <==> L2Index(va) == 7
  {
    WindowAddress(va);
  }

  lemma DeviceBlock(va: bv64)
    requires va < 0x80_0000_0000 && L1Index(va) == 0
    ensures InDevice(va) <==> L2Index(va) == 64 || L2Index(va) == 72
  {
    FirstGigabyte(va);
    LowBlocks(va);
  }

  lemma DeviceBlockIsNoKernel(va: bv64)
    requires va < 0x80_0000_0000 && L1Index(va) == 0
    ensures !InKernelWindow(va)
  {
    FirstGigabyte(va);
  }

  lemma GicAddress(va: bv64)
    requires va < 0x80_0000_0000 && L1Index(va) == 0 && L2Index(va) == 64
    ensures GIC_BASE | (va & 0x1F_FFFF) == va
  {
    FirstGigabyte(va);
    LowBlocks(va);
    LowGic(va);
  }

  lemma UartAddress(va: bv64)
    requires va < 0x80_0000_0000 && L1Index(va) == 0 && L2Index(va) == 72
    ensures UART_BASE | (va & 0x1F_FFFF) == va
  {
    FirstGigabyte(va);
    LowBlocks(va);
    LowUart(va);
  }

  lemma ElsewhereUnmapped(va: bv64)
    requires va >= 0x80_0000_0000 || L1Index(va) > 1
    ensures Intended(va) == Fault
  {
  }

  lemma KernelSlotAligned(j: bv64)
    requires j < 8
    ensures (MAP_BASE + (j << 21)) & 0x1F_FFFF == 0 && MAP_BASE + (j << 21) < KERNEL_LIMIT
  {
  }

  lemma RootWalk(root: bv64, low: bv64, kernel: bv64, t1: Table, tl: Table, tk: Table, va: bv64)
    requires HoldsRoot(t1, low, kernel) && va < 0x80_0000_0000
    ensures var pages := Pages(root, low, kernel, t1, tl, tk);
            Walk(pages, root, va) == FirstLevel(pages, RootSlot(L1Index(va), low, kernel), va)
  {
    hide RootSlot, FirstLevel, Slot;
  }

  lemma KernelWalk(root: bv64, low: bv64, kernel: bv64, t1: Table, tl: Table, tk: Table, va: bv64)
    requires Placed(root, low, kernel) && HoldsKernel(tk)
    ensures FirstLevel(Pages(root, low, kernel, t1, tl, tk), TableDesc(kernel), va) ==
              SecondLevel(KernelSlot(L2Index(va)), TableDesc(kernel), va)
  {
    TableDescriptor(kernel);
    hide Slot, KernelSlot, TableDesc, SecondLevel;
    assert tk[Slot(L2Index(va))] == KernelSlot(L2Index(va));
  }

  lemma DeviceWalk(root: bv64, low: bv64, kernel: bv64, t1: Table, tl: Table, tk: Table, va: bv64)
    requires Placed(root, low, kernel) && HoldsDevices(tl)
    ensures FirstLevel(Pages(root, low, kernel, t1, tl, tk), TableDesc(low), va) ==
              SecondLevel(DeviceSlot(L2Index(va)), TableDesc(low), va)
  {
    TableDescriptor(low);
    hide Slot, DeviceSlot, TableDesc, SecondLevel;
    assert tl[Slot(L2Index(va))] == DeviceSlot(L2Index(va));
  }

  lemma KernelLeaf(i: bv64, above: bv64, va: bv64)
    requires i < 8 && above & 0xF800_0000_0000_0000 == 0
    ensures SecondLevel(KernelSlot(i), above, va) ==
              Mapped((MAP_BASE + (i << 21)) | (va & 0x1F_FFFF), ATTR_NORMAL, 3, i == 7, false, !(i == 7), i == 7)
  {
    KernelSlotAligned(i);
    NormalLeaf(MAP_BASE + (i << 21), above, va, i == 7);
    hide Leaf, BlockNormal;
  }

  lemma GicLeaf(above: bv64, va: bv64)
    requires above & 0xF800_0000_0000_0000 == 0
    ensures SecondLevel(DeviceSlot(64), above, va) ==
              Mapped(GIC_BASE | (va & 0x1F_FFFF), ATTR_DEVICE, 0, false, false, true, true)
  {
    DeviceLeaf(GIC_BASE, above, va);
    hide Leaf, BlockDevice;
  }

  lemma UartLeaf(above: bv64, va: bv64)
    requires above & 0xF800_0000_0000_0000 == 0
    ensures SecondLevel(DeviceSlot(72), above, va) ==
              Mapped(UART_BASE | (va & 0x1F_FFFF), ATTR_DEVICE, 0, false, false, true, true)
  {
    DeviceLeaf(UART_BASE, above, va);
    hide Leaf, BlockDevice;
  }

  lemma Unmapped(i: bv64, above: bv64, va: bv64)
    ensures i >= 8 ==> SecondLevel(KernelSlot(i), above, va) == Fault
    ensures i != 64 && i != 72 ==> SecondLevel(DeviceSlot(i), above, va) == Fault
  {
    hide Leaf, BlockNormal, BlockDevice;
  }

  lemma WindowTranslation(va: bv64, above: bv64)
    requires InKernelWindow(va) && L2Index(va) < 8 && above & 0xF800_0000_0000_0000 == 0
    ensures SecondLevel(KernelSlot(L2Index(va)), above, va) == Intended(va)
  {
    KernelLeaf(L2Index(va), above, va);
    KernelAddress(va);
    SandboxBlock(va);
    hide L2Index, InEl0Window, KernelSlot, SecondLevel;
  }

  lemma KernelTranslation(va: bv64, above: bv64)
    requires va < 0x80_0000_0000 && L1Index(va) == 1 && above & 0xF800_0000_0000_0000 == 0
    ensures SecondLevel(KernelSlot(L2Index(va)), above, va) == Intended(va)
  {
    hide L2Index, L1Index, InKernelWindow, InDevice, KernelSlot, SecondLevel;
    KernelBlock(va);
    KernelBlockIsNoDevice(va);
    if L2Index(va) < 8 {
      WindowTranslation(va, above);
    } else {
      Unmapped(L2Index(va), above, va);
    }
  }

  lemma DeviceTranslation(va: bv64, above: bv64)
    requires va < 0x80_0000_0000 && L1Index(va) == 0 && above & 0xF800_0000_0000_0000 == 0
    ensures SecondLevel(DeviceSlot(L2Index(va)), above, va) == Intended(va)
  {
    hide L2Index, L1Index, InKernelWindow, InDevice, InEl0Window, DeviceSlot, SecondLevel;
    var i := L2Index(va);
    DeviceBlock(va);
    DeviceBlockIsNoKernel(va);
    Unmapped(i, above, va);
    if i == 64 {
      GicLeaf(above, va);
      GicAddress(va);
    } else if i == 72 {
      UartLeaf(above, va);
      UartAddress(va);
    }
  }

  /** Every virtual address translates as intended. */
  lemma IdentityMap(root: bv64, low: bv64, kernel: bv64, t1: Table, tl: Table, tk: Table, va: bv64)
    requires Placed(root, low, kernel)
    requires HoldsRoot(t1, low, kernel) && HoldsDevices(tl) && HoldsKernel(tk)
    ensures Walk(Pages(root, low, kernel, t1, tl, tk), root, va) == Intended(va)
  {
    if va >= 0x80_0000_0000 || L1Index(va) > 1 {
      ElsewhereUnmapped(va);
    }
    if va < 0x80_0000_0000 {
      hide L2Index, L1Index, Intended, TableDesc, Walk, SecondLevel, KernelSlot, DeviceSlot, Pages;
      RootWalk(root, low, kernel, t1, tl, tk, va);
      if L1Index(va) == 0 {
        DeviceWalk(root, low, kernel, t1, tl, tk, va);
        TableDescriptor(low);
        DeviceTranslation(va, TableDesc(low));
      } else if L1Index(va) == 1 {
        KernelWalk(root, low, kernel, t1, tl, tk, va);
        TableDescriptor(kernel);
        KernelTranslation(va, TableDesc(kernel));
      }
    }
  }

  /** What EL0 and EL1 may do where: EL0 is confined to the sandbox, and EL1 never executes
      there; every mapped address is its own physical address. */
  lemma Confinement(root: bv64, low: bv64, kernel: bv64, t1: Table, tl: Table, tk: Table, va: bv64)
    requires Placed(root, low, kernel)
    requires HoldsRoot(t1, low, kernel) && HoldsDevices(tl) && HoldsKernel(tk)
    ensures var t := Walk(Pages(root, low, kernel, t1, tl, tk), root, va);
            && (t.Mapped? <==> InKernelWindow(va) || InDevice(va))
            && (t.Mapped? ==> t.pa == va)
            && (t.El0Access() <==> InEl0Window(va))
            && (t.El0Exec() <==> InEl0Window(va))
            && (t.El1Exec() <==> InKernelWindow(va) && !InEl0Window(va))
  {
    IdentityMap(root, low, kernel, t1, tl, tk, va);
    SandboxInWindow(va);
    hide Walk, Pages, InKernelWindow, InDevice, InEl0Window, Placed, HoldsRoot, HoldsDevices, HoldsKernel;
  }

  lemma SandboxInWindow(va: bv64)
    ensures InEl0Window(va) ==> InKernelWindow(va)
  {
  }

  // ---------------------------------------------------------------- building the tables

  /** Writing one slot changes that slot only. */
  lemma Written(t: Table, i: bv64, d: bv64, j: bv64)
    requires i < 512 && j < 512
    ensures t[Slot(i) := d][Slot(j)] == if i == j then d else t[Slot(j)]
  {
    hide Slot;
    if Slot(i) == Slot(j) {
      SlotOneToOne(i, j);
    }
  }

  ghost predicate Holds(t: Table, content: bv64 -> bv64) {
    forall j: bv64 :: j < 512 ==> t[Slot(j)] == content(j)
  }

  lemma WriteOne(t: Table, content: bv64 -> bv64, i: bv64, d: bv64)
    requires i < 512 && Holds(t, content)
    ensures Holds(t[Slot(i) := d], j => if j == i then d else content(j))
  {
    forall j: bv64 | j < 512
      ensures t[Slot(i) := d][Slot(j)] == if j == i then d else content(j)
    {
      Written(t, i, d, j);
    }
  }

  lemma FixedIndexes()
    ensures L1Index(GIC_BASE) == 0 && L1Index(MAP_BASE) == 1
    ensures L2Index(GIC_BASE) == 64 && L2Index(UART_BASE) == 72
  {
  }

  /** One step of the kernel-window loop, `offset` bytes into it. */
  lemma WindowStep(offset: bv64)
    requires offset < 0x100_0000 && offset & 0x1F_FFFF == 0
    ensures ((0x4000_0000 + offset) >> 21) & 0x1FF == offset >> 21
    ensures 0x4000_0000 + offset == 0x4000_0000 + ((offset >> 21) << 21)
    ensures 0x40E0_0000 <= 0x4000_0000 + offset < 0x4100_0000 <==> offset >> 21 == 7
  {
  }

  lemma WindowNext(offset: bv64)
    requires offset < 0x100_0000 && offset & 0x1F_FFFF == 0
    ensures offset < offset + 0x20_0000 <= 0x100_0000 && (offset + 0x20_0000) & 0x1F_FFFF == 0
    ensures (offset + 0x20_0000) >> 21 == (offset >> 21) + 1 <= 8
  {
  }

  lemma RootWritten(t: Table, low: bv64, kernel: bv64)
    requires Holds(t, _ => 0)
    ensures HoldsRoot(t[Slot(0) := TableDesc(low)][Slot(1) := TableDesc(kernel)], low, kernel)
  {
    hide Slot, TableDesc;
    forall j: bv64 | j < 512
      ensures t[Slot(0) := TableDesc(low)][Slot(1) := TableDesc(kernel)][Slot(j)] == RootSlot(j, low, kernel)
    {
      Written(t, 0, TableDesc(low), j);
      Written(t[Slot(0) := TableDesc(low)], 1, TableDesc(kernel), j);
    }
  }

  /** The kernel table with its first `n` blocks mapped. */
  function KernelPrefix(n: bv64): bv64 -> bv64 {
    j => if j < n then KernelSlot(j) else 0
  }

  class PageTables {
    const l1: array<bv64>
    const l2Low: array<bv64>
    const l2Kernel: array<bv64>
    const l1At: bv64
    const l2LowAt: bv64
    const l2KernelAt: bv64

    ghost predicate Valid() {
      && l1.Length == TABLE_ENTRIES && l2Low.Length == TABLE_ENTRIES && l2Kernel.Length == TABLE_ENTRIES
      && l1 != l2Low && l1 != l2Kernel && l2Low != l2Kernel
    }

    ghost predicate Cleared()
      requires Valid()
      reads l1, l2Low, l2Kernel
    {
      Holds(l1[..], _ => 0) && Holds(l2Low[..], _ => 0) && Holds(l2Kernel[..], _ => 0)
    }

    /** The tables arrive with arbitrary content at the addresses the linker chose. */
    constructor (l1At: bv64, l2LowAt: bv64, l2KernelAt: bv64,
                 l1: array<bv64>, l2Low: array<bv64>, l2Kernel: array<bv64>)
      requires l1.Length == TABLE_ENTRIES && l2Low.Length == TABLE_ENTRIES && l2Kernel.Length == TABLE_ENTRIES
      requires l1 != l2Low && l1 != l2Kernel && l2Low != l2Kernel
      ensures Valid() && this.l1 == l1 && this.l2Low == l2Low && this.l2Kernel == l2Kernel
      ensures this.l1At == l1At && this.l2LowAt == l2LowAt && this.l2KernelAt == l2KernelAt
    {
      this.l1At, this.l2LowAt, this.l2KernelAt := l1At, l2LowAt, l2KernelAt;
      this.l1, this.l2Low, this.l2Kernel := l1, l2Low, l2Kernel;
    }

    /** `clear_tables`. */
    method ClearTables()
      requires Valid()
      modifies l1, l2Low, l2Kernel
      ensures Cleared()
    {
      for i := 0 to TABLE_ENTRIES
        invariant forall k :: 0 <= k < i ==> l1[k] == 0 && l2Low[k] == 0 && l2Kernel[k] == 0
      {
        l1[i] := 0;
        l2Low[i] := 0;
        l2Kernel[i] := 0;
      }
    }

    /** `map_2m_block`. */
    method Map2mBlock(table: array<bv64>, va: bv64, pa: bv64, device: bool, el0: bool)
      requires table.Length == TABLE_ENTRIES
      modifies table
      ensures table[..] == old(table[..])[Slot(L2Index(va)) := if device then BlockDevice(pa) else BlockNormal(pa, el0)]
    {
      var idx := Slot(L2Index(va));
      table[idx] := if device then BlockDevice(pa) else BlockNormal(pa, el0);
    }

    /** The two root entries. */
    method MapRoot()
      requires Valid() && Holds(l1[..], _ => 0)
      modifies l1
      ensures HoldsRoot(l1[..], l2LowAt, l2KernelAt)
    {
      hide Slot, L1Index, TableDesc, HoldsRoot, Holds;
      FixedIndexes();
      RootWritten(l1[..], l2LowAt, l2KernelAt);
      l1[Slot(L1Index(GIC_BASE))] := TableDesc(l2LowAt);
      l1[Slot(L1Index(MAP_BASE))] := TableDesc(l2KernelAt);
    }

    method MapDevices()
      requires Valid() && Holds(l2Low[..], _ => 0)
      modifies l2Low
      ensures HoldsDevices(l2Low[..])
    {
      hide Slot, L2Index, BlockDevice;
      FixedIndexes();
      ghost var t0: Table := l2Low[..];
      Map2mBlock(l2Low, GIC_BASE, GIC_BASE, true, false);
      ghost var t1: Table := l2Low[..];
      WriteOne(t0, _ => 0, 64, BlockDevice(GIC_BASE));
      Map2mBlock(l2Low, UART_BASE, UART_BASE, true, false);
      WriteOne(t1, j => if j == 64 then BlockDevice(GIC_BASE) else 0, 72, BlockDevice(UART_BASE));
    }

    /** The loop over the kernel window. */
    method MapKernel()
      requires Valid() && Holds(l2Kernel[..], _ => 0)
      modifies l2Kernel
      ensures HoldsKernel(l2Kernel[..])
    {
      hide Slot, BlockNormal;
      var offset: bv64 := 0;
      while offset < MAP_SIZE
        invariant offset <= MAP_SIZE && offset & 0x1F_FFFF == 0
        invariant Holds(l2Kernel[..], KernelPrefix(offset >> 21))
        decreases MAP_SIZE - offset
      {
        var va := MAP_BASE + offset;
        var el0 := va >= EL0_BASE && va < EL0_END;
        ghost var before: Table := l2Kernel[..];
        Map2mBlock(l2Kernel, va, va, false, el0);
        WindowStep(offset);
        WindowNext(offset);
        WriteOne(before, KernelPrefix(offset >> 21), offset >> 21, KernelSlot(offset >> 21));
        offset := offset + BLOCK_SIZE;
      }
    }

    /** `mmu_init`: nothing if the MMU is on already; else `clear_tables` and
        `build_identity_map` behind the check of the kernel window. If it passes, every address
        translates as intended. */
    method Init(enabled: bool, stackTop: bv64) returns (ok: bool)
      requires Valid()
      requires l1At & 0xFFF == 0 && l2LowAt & 0xFFF == 0 && l2KernelAt & 0xFFF == 0
      requires l1At != l2LowAt && l1At != l2KernelAt && l2LowAt != l2KernelAt
      modifies l1, l2Low, l2Kernel
      ensures ok <==> enabled || (stackTop < KERNEL_LIMIT && l1At < KERNEL_LIMIT
                                  && l2LowAt < KERNEL_LIMIT && l2KernelAt < KERNEL_LIMIT)
      ensures enabled || !ok ==>
                l1[..] == old(l1[..]) && l2Low[..] == old(l2Low[..]) && l2Kernel[..] == old(l2Kernel[..])
      ensures ok && !enabled ==> forall va: bv64 ::
                Walk(Pages(l1At, l2LowAt, l2KernelAt, l1[..], l2Low[..], l2Kernel[..]), l1At, va) == Intended(va)
    {
      if enabled {
        return true;
      }
      if stackTop >= KERNEL_LIMIT {
        return false;
      }
      if l1At >= KERNEL_LIMIT || l2LowAt >= KERNEL_LIMIT || l2KernelAt >= KERNEL_LIMIT {
        return false;
      }
      ClearTables();
      MapRoot();
      MapDevices();
      MapKernel();
      forall va: bv64
        ensures Walk(Pages(l1At, l2LowAt, l2KernelAt, l1[..], l2Low[..], l2Kernel[..]), l1At, va) == Intended(va)
      {
        IdentityMap(l1At, l2LowAt, l2KernelAt, l1[..], l2Low[..], l2Kernel[..], va);
      }
      return true;
    }
  }
}
