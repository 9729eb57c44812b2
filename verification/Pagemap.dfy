/** The 64-bit entries of /proc/pid/pagemap and the macros that take them apart. */
module Pagemap {
  import opened Paging

  const PFN_LIMIT: bv64 := 0x40_0000_0000_0000

  function GetPagePfn(d: bv64): bv64 { d & ((1 << 54) - 1) }

  function IsPagePresent(d: bv64): bool { (d >> 63) & 1 == 1 }

  function IsPageInSwap(d: bv64): bool { (d >> 62) & 1 == 1 }

  function IsPageFileOrAnon(d: bv64): bool { (d >> 61) & 1 == 1 }

  function IsPageExclusive(d: bv64): bool { (d >> 56) & 1 == 1 }

  function IsPageSoftDirty(d: bv64): bool { (d >> 55) & 1 == 1 }

  function IsPageFreed(d: bv64): bool {
    !IsPagePresent(d) && !IsPageInSwap(d) && !IsPageExclusive(d) && !IsPageSoftDirty(d)
  }

  /** The entry the kernel composes from a frame number and five flags. */
  function Entry(pfn: bv64, softDirty: bool, exclusive: bool, file: bool, swap: bool, present: bool): bv64 {
    pfn
    | (if softDirty then 1 << 55 else 0)
    | (if exclusive then 1 << 56 else 0)
    | (if file then 1 << 61 else 0)
    | (if swap then 1 << 62 else 0)
    | (if present then 1 << 63 else 0)
  }

  /** The macros invert the composition, and the freed flag excludes the soft-dirty one. */
  lemma MacrosInvertEntry(pfn: bv64, softDirty: bool, exclusive: bool, file: bool, swap: bool, present: bool)
    requires pfn < PFN_LIMIT
    ensures var d := Entry(pfn, softDirty, exclusive, file, swap, present);
      && GetPagePfn(d) == pfn
      && IsPageSoftDirty(d) == softDirty
      && IsPageExclusive(d) == exclusive
      && IsPageFileOrAnon(d) == file
      && IsPageInSwap(d) == swap
      && IsPagePresent(d) == present
      && (IsPageFreed(d) ==> !IsPageSoftDirty(d) && !IsPagePresent(d))
      && (IsPageFreed(d) <==> !present && !swap && !exclusive && !softDirty)
  {
  }

  /** The bits of an entry, as masks. */
  lemma BitsOfEntry(d: bv64)
    ensures GetPagePfn(d) == d & 0x003f_ffff_ffff_ffff
    ensures IsPageSoftDirty(d) <==> d & 0x0080_0000_0000_0000 != 0
    ensures IsPageExclusive(d) <==> d & 0x0100_0000_0000_0000 != 0
    ensures IsPageFileOrAnon(d) <==> d & 0x2000_0000_0000_0000 != 0
    ensures IsPageInSwap(d) <==> d & 0x4000_0000_0000_0000 != 0
    ensures IsPagePresent(d) <==> d & 0x8000_0000_0000_0000 != 0
  {
  }

  /** A private anonymous page without swap: a frame number shows exactly when a frame backs it. */
  ghost predicate EntryOf(d: bv64, c: Cell) {
    exists pfn: bv64, exclusive: bool ::
      && pfn < PFN_LIMIT
      && (pfn != 0 <==> c.present)
      && (exclusive ==> c.present)
      && d == Entry(pfn, c.dirty, exclusive, false, false, c.present)
  }

  /** What the tracker sees of a page through its entry. */
  lemma EntryShowsCell(d: bv64, c: Cell)
    requires EntryOf(d, c)
    ensures GetPagePfn(d) != 0 <==> c.present
    ensures IsPageSoftDirty(d) <==> c.dirty
    ensures IsPageFreed(d) <==> Freed(c)
  {
    var pfn: bv64, exclusive: bool :|
      && pfn < PFN_LIMIT
      && (pfn != 0 <==> c.present)
      && (exclusive ==> c.present)
      && d == Entry(pfn, c.dirty, exclusive, false, false, c.present);
    MacrosInvertEntry(pfn, c.dirty, exclusive, false, false, c.present);
  }
}
