/**
 The memory of the tracked process, seen one page at a time.

 An address is a page number everywhere except where bytes are transferred: page `p`
 holds the bytes `p * PSIZE` to `(p + 1) * PSIZE - 1`. All mappings are private and
 anonymous, so a page that has no frame reads as zero.
 */
module Paging {

  const PSIZE: nat := 4096

  type PageData = d: seq<bv8> | |d| == PSIZE witness seq(PSIZE, i => 0)

  function ZeroPage(): (d: PageData)
    ensures forall k :: 0 <= k < PSIZE ==> d[k] == 0
  {
    seq(PSIZE, i => 0)
  }

  datatype Prot = Prot(r: bool, w: bool, x: bool)

  /** One mapped page: `present` says that a frame backs it, `dirty` is its soft-dirty bit. */
  datatype Cell = Cell(prot: Prot, data: PageData, present: bool, dirty: bool)

  type AddressSpace = map<nat, Cell>

  /** What a page looks like right after mmap: no frame, and the mapping counts as soft-dirty. */
  function FreshCell(prot: Prot): Cell {
    Cell(prot, ZeroPage(), false, true)
  }

  /** A page that pagemap shows neither backed nor soft-dirty (IS_PAGE_FREED). */
  predicate Freed(c: Cell) {
    !c.present && !c.dirty
  }

  // ---- The system calls, as steps on the address space ----

  predicate InRange(p: nat, start: nat, n: nat) {
    start <= p < start + n
  }

  function Unmapped(sp: AddressSpace, start: nat, n: nat): AddressSpace {
    map p | p in sp && !InRange(p, start, n) :: sp[p]
  }

  function Mapped(sp: AddressSpace, start: nat, n: nat, prot: Prot): AddressSpace {
    sp + map p | start <= p < start + n && InRange(p, start, n) :: FreshCell(prot)
  }

  function Protected(sp: AddressSpace, start: nat, n: nat, prot: Prot): AddressSpace {
    map p | p in sp :: if InRange(p, start, n) then Cell(prot, sp[p].data, sp[p].present, sp[p].dirty) else sp[p]
  }

  /** MADV_DONTNEED on private anonymous memory drops the frame; the page reads as zero again. */
  function Advised(sp: AddressSpace, start: nat, n: nat): AddressSpace {
    map p | p in sp :: if InRange(p, start, n) then Cell(sp[p].prot, ZeroPage(), false, false) else sp[p]
  }

  function Cleared(sp: AddressSpace): AddressSpace {
    map p | p in sp :: Cell(sp[p].prot, sp[p].data, sp[p].present, false)
  }

  function Contents(sp: AddressSpace): map<nat, PageData> {
    map p | p in sp :: sp[p].data
  }

  // ---- Byte transfers through /proc/pid/mem ----

  predicate Touches(p: nat, addr: nat, n: nat) {
    p * PSIZE < addr + n && addr < (p + 1) * PSIZE && 0 < n
  }

  function Overlay(d: PageData, p: nat, addr: nat, bytes: seq<bv8>): PageData {
    seq(PSIZE, k requires 0 <= k < PSIZE =>
      if addr <= p * PSIZE + k < addr + |bytes| then bytes[p * PSIZE + k - addr] else d[k])
  }

  /** pwrite of `bytes` at byte address `addr`. */
  function WriteBytes(sp: AddressSpace, addr: nat, bytes: seq<bv8>): AddressSpace {
    map p | p in sp ::
      if Touches(p, addr, |bytes|) then Cell(sp[p].prot, Overlay(sp[p].data, p, addr, bytes), true, true)
      else sp[p]
  }

  /** The `s`-th page of a byte buffer. */
  function Slot(buf: seq<bv8>, s: nat): PageData
    requires (s + 1) * PSIZE <= |buf|
  {
    buf[s * PSIZE..(s + 1) * PSIZE]
  }

  /** The whole pages `start .. start + |bytes| / PSIZE` replaced by the pages of `bytes`. */
  function WritePages(sp: AddressSpace, start: nat, n: nat, bytes: seq<bv8>): AddressSpace
    requires |bytes| == n * PSIZE
  {
    map p | p in sp ::
      if InRange(p, start, n) then Cell(sp[p].prot, Slot(bytes, p - start), true, true) else sp[p]
  }

  function BytesAt(sp: AddressSpace, addr: nat, n: nat): seq<bv8>
    requires forall p: nat :: Touches(p, addr, n) ==> p in sp
  {
    seq(n, k requires 0 <= k < n =>
      if Touches((addr + k) / PSIZE, addr, n) then sp[(addr + k) / PSIZE].data[(addr + k) % PSIZE] else 0)
  }

  lemma OverlaySplit(d: PageData, p: nat, addr: nat, b1: seq<bv8>, b2: seq<bv8>)
    ensures Overlay(Overlay(d, p, addr, b1), p, addr + |b1|, b2) == Overlay(d, p, addr, b1 + b2)
  {
    assert forall k :: 0 <= k < PSIZE ==>
      Overlay(Overlay(d, p, addr, b1), p, addr + |b1|, b2)[k] == Overlay(d, p, addr, b1 + b2)[k];
  }

  lemma OverlayMiss(d: PageData, p: nat, addr: nat, b: seq<bv8>)
    requires !Touches(p, addr, |b|)
    ensures Overlay(d, p, addr, b) == d
  {
  }

  /** Two adjacent short writes leave the same memory as one long write. */
  lemma WriteBytesSplit(sp: AddressSpace, addr: nat, b1: seq<bv8>, b2: seq<bv8>)
    ensures WriteBytes(WriteBytes(sp, addr, b1), addr + |b1|, b2) == WriteBytes(sp, addr, b1 + b2)
  {
    var one := WriteBytes(sp, addr, b1 + b2);
    var two := WriteBytes(WriteBytes(sp, addr, b1), addr + |b1|, b2);
    forall p | p in sp
      ensures two[p] == one[p]
    {
      OverlaySplit(sp[p].data, p, addr, b1, b2);
      if !Touches(p, addr, |b1|) { OverlayMiss(sp[p].data, p, addr, b1); }
      if !Touches(p, addr + |b1|, |b2|) {
        OverlayMiss(Overlay(sp[p].data, p, addr, b1), p, addr + |b1|, b2);
      }
    }
  }

  /** A page-aligned write of whole pages replaces exactly those pages. */
  lemma WriteBytesIsPages(sp: AddressSpace, start: nat, n: nat, bytes: seq<bv8>)
    requires |bytes| == n * PSIZE
    ensures WriteBytes(sp, start * PSIZE, bytes) == WritePages(sp, start, n, bytes)
  {
    forall p | p in sp
      ensures WriteBytes(sp, start * PSIZE, bytes)[p] == WritePages(sp, start, n, bytes)[p]
    {
      if InRange(p, start, n) {
        var d := Overlay(sp[p].data, p, start * PSIZE, bytes);
        assert d == Slot(bytes, p - start);
      }
    }
  }

  /** Reading whole pages yields their contents, page by page. */
  lemma BytesAtSlot(sp: AddressSpace, start: nat, n: nat, j: nat)
    requires forall p :: start <= p < start + n ==> p in sp
    requires j < n
    ensures forall p :: Touches(p, start * PSIZE, n * PSIZE) ==> p in sp
    ensures Slot(BytesAt(sp, start * PSIZE, n * PSIZE), j) == sp[start + j].data
  {
    assert forall p: nat :: Touches(p, start * PSIZE, n * PSIZE) ==> start <= p < start + n;
    var b := BytesAt(sp, start * PSIZE, n * PSIZE);
    forall k | 0 <= k < PSIZE
      ensures Slot(b, j)[k] == sp[start + j].data[k]
    {
      var a := (start + j) * PSIZE + k;
      assert a / PSIZE == start + j && a % PSIZE == k;
      assert Slot(b, j)[k] == b[j * PSIZE + k];
    }
  }
}
