/** The tracker's picture of a process: growable map table, page table and stored contents. */
module MemoryInfo {
  import opened Machine
  import opened Paging
  import opened Pagemap
  import opened Layout
  import opened Records
  import opened Storage
  import opened TrackedProcess

  const INITIAL_NUMBER_OF_REGIONS := 100

  /** How adding one page changes the counters of its map (add_page_to_map_at_index). */
  function WithPage(m: MapRec, pg: Page): MapRec {
    m.(totalPaged := m.totalPaged + if pg.Paged() then 1 else 0,
       populated := m.populated + 1,
       freedCount := m.freedCount + if pg.isFreed then 1 else 0,
       softDirtyCount := m.softDirtyCount + if pg.softDirty then 1 else 0)
  }

  /** Map `i` knows its size and where its pages start in the page table. */
  ghost predicate IndexedAt(ms: seq<MapRec>, i: nat)
    requires i < |ms|
  {
    ms[i].totalPages == ms[i].vma.Size() && ms[i].firstPage == Offset(Vmas(ms), i)
  }

  ghost predicate Indexed(ms: seq<MapRec>) {
    forall i: nat | i < |ms| :: IndexedAt(ms, i)
  }

  ghost predicate MapIn(v: Vma, sp: AddressSpace) {
    forall p: nat | v.Holds(p) :: p in sp
  }

  predicate NotCounted(m: MapRec) {
    && m.softDirtyCount == 0 && m.freedCount == 0 && m.totalPaged == 0
    && m.populated == 0 && !m.dirty
  }

  /** The map table as read_maps leaves it: prefix-sum page indices, every counter zero. */
  ghost predicate FreshTable(ms: seq<MapRec>) {
    && Sorted(Vmas(ms)) && Indexed(ms)
    && forall m | m in ms :: NotCounted(m)
  }

  // ---- Page counts in 32-bit integers ----

  /** All pages together can be counted by an int. */
  predicate Countable(vs: seq<Vma>) { Total(vs) <= INT_MAX }

  /** One read of the pagemap file can cover the mapping: eight bytes a page, counted by an int. */
  predicate Fits(v: Vma) { 8 * v.Size() <= INT_MAX }

  predicate FitUpTo(vs: seq<Vma>, n: nat)
    requires n <= |vs|
  {
    forall i | 0 <= i < n :: Fits(vs[i])
  }

  /** The layouts of which a capture with pages shows every page. */
  predicate Readable(vs: seq<Vma>) { Countable(vs) && FitUpTo(vs, |vs|) }

  /** Number of pages in those of the first `i` mappings that can be read. */
  function ReadOffset(vs: seq<Vma>, i: nat): nat
    requires i <= |vs|
  {
    if i == 0 then 0 else ReadOffset(vs, i - 1) + if Fits(vs[i - 1]) then vs[i - 1].Size() else 0
  }

  /** Number of pages in the writable ones of the first `i` mappings. */
  function WritableOffset(vs: seq<Vma>, i: nat): nat
    requires i <= |vs|
  {
    if i == 0 then 0 else WritableOffset(vs, i - 1) + if vs[i - 1].prot.w then vs[i - 1].Size() else 0
  }

  lemma {:induction false} WritableOffsetPrefix(vs: seq<Vma>, ws: seq<Vma>, i: nat)
    requires vs <= ws && i <= |vs|
    ensures WritableOffset(vs, i) == WritableOffset(ws, i)
  {
    if i > 0 { WritableOffsetPrefix(vs, ws, i - 1); }
  }

  /** Map `i` as read_maps leaves it: region and running page counts have passed through an int. */
  ghost predicate WrappedAt(ms: seq<MapRec>, i: nat)
    requires i < |ms|
  {
    && ms[i].totalPages == AsUnsigned(AsInt(ms[i].vma.Size()))
    && ms[i].firstPage == AsInt(Offset(Vmas(ms), i))
    && ms[i].firstWmem == (if ms[i].vma.prot.w then AsInt(WritableOffset(Vmas(ms), i)) else -1)
    && NotCounted(ms[i])
  }

  ghost predicate TableRead(ms: seq<MapRec>, total: int) {
    && (forall i: nat | i < |ms| :: WrappedAt(ms, i))
    && total == AsInt(Total(Vmas(ms)))
  }

  lemma TableAppend(ms: seq<MapRec>, m: MapRec, total: int, writable: int)
    requires TableRead(ms, total) && NotCounted(m) && writable == AsInt(WritableOffset(Vmas(ms), |ms|))
    requires m.firstWmem == if m.vma.prot.w then writable else -1
    requires m.totalPages == AsUnsigned(AsInt(m.vma.Size())) && m.firstPage == total
    ensures Vmas(ms + [m]) == Vmas(ms) + [m.vma]
    ensures TableRead(ms + [m], AsInt(total + m.totalPages))
    ensures Total(Vmas(ms + [m])) == Total(Vmas(ms)) + m.vma.Size()
    ensures Countable(Vmas(ms + [m])) ==> Countable(Vmas(ms)) && m.totalPages == m.vma.Size()
    ensures AsInt(WritableOffset(Vmas(ms + [m]), |ms + [m]|)) ==
      if m.vma.prot.w then AsInt(writable + m.totalPages) else writable
  {
    hide AsInt, AsUnsigned, NotCounted;
    var vs, ws := Vmas(ms), Vmas(ms + [m]);
    VmasAppend(ms, m);
    OffsetPrefix(vs, ws, |ms|);
    WritableOffsetPrefix(vs, ws, |ms|);
    AsIntSum(Total(vs), m.vma.Size());
    AsIntSum(WritableOffset(vs, |vs|), m.vma.Size());
    forall i: nat | i < |ms + [m]|
      ensures WrappedAt(ms + [m], i)
    {
      OffsetPrefix(vs, ws, i);
      WritableOffsetPrefix(vs, ws, i);
      assert i < |ms| ==> WrappedAt(ms, i);
    }
  }

  /** While the counts fit, nothing has wrapped. */
  lemma CountedTable(ms: seq<MapRec>, total: int)
    requires TableRead(ms, total) && Sorted(Vmas(ms)) && Countable(Vmas(ms))
    ensures FreshTable(ms) && total == Total(Vmas(ms))
  {
    hide AsInt, AsUnsigned, NotCounted, Sorted;
    forall i: nat | i < |ms|
      ensures IndexedAt(ms, i) && NotCounted(ms[i])
    {
      assert WrappedAt(ms, i);
      OffsetMonotone(Vmas(ms), i, |ms|);
    }
    forall m | m in ms
      ensures NotCounted(m)
    {
      var i :| 0 <= i < |ms| && ms[i] == m;
      assert NotCounted(ms[i]);
    }
  }

  lemma {:induction false} ReadOffsetBounds(vs: seq<Vma>, n: nat)
    requires n <= |vs| && forall i | 0 <= i < |vs| :: vs[i].start < vs[i].end
    ensures ReadOffset(vs, n) <= Offset(vs, n)
    ensures ReadOffset(vs, n) == Offset(vs, n) <==> FitUpTo(vs, n)
  {
    hide Fits;
    if n > 0 { ReadOffsetBounds(vs, n - 1); }
  }

  lemma SortedPrefix(vs: seq<Vma>, ws: seq<Vma>)
    requires vs <= ws && Sorted(ws)
    ensures Sorted(vs)
  {
    assert forall k | 0 <= k < |vs| :: vs[k] == ws[k];
  }

  lemma LastOfSorted(vs: seq<Vma>, v: Vma)
    requires Sorted(vs + [v])
    ensures v.start < v.end
  {
    assert (vs + [v])[|vs|] == v;
  }

  lemma NextVisible(lines: seq<Vma>, i: nat)
    requires i < |lines| && Sorted(Visible(lines))
    ensures Visible(lines[..i + 1]) == Visible(lines[..i]) + if Hidden(lines[i]) then [] else [lines[i]]
    ensures Sorted(Visible(lines[..i + 1]))
    ensures !Hidden(lines[i]) ==> lines[i].start < lines[i].end
  {
    VisibleStep(lines, i);
    VisiblePrefix(lines, i + 1);
    SortedPrefix(Visible(lines[..i + 1]), Visible(lines));
    if !Hidden(lines[i]) { LastOfSorted(Visible(lines[..i]), lines[i]); }
  }

  lemma VmasAppend(ms: seq<MapRec>, m: MapRec)
    ensures Vmas(ms + [m]) == Vmas(ms) + [m.vma]
  {
  }

  lemma TableStart(lines: seq<Vma>)
    ensures TableRead([], 0) && Total(Vmas([])) == 0 && Vmas([]) == Visible(lines[..0])
    ensures AsInt(WritableOffset(Vmas([]), 0)) == 0
  {
    assert Vmas([]) == [];
  }

  lemma DescribedSorted(vs: seq<Vma>, sp: AddressSpace)
    requires Describes(vs, sp)
    ensures Sorted(vs)
  {
  }

  lemma FreshRecord(m: MapRec)
    requires m.softDirtyCount == 0 && m.freedCount == 0 && m.totalPaged == 0 && m.populated == 0 && !m.dirty
    ensures NotCounted(m)
  {
  }

  /** The page record of page `p` of map `i`. */
  ghost predicate Shows(pg: Page, c: Cell, p: nat, i: nat) {
    && pg.addr == p && pg.mapIndex == i
    && (pg.Paged() <==> c.present)
    && (pg.softDirty <==> c.dirty)
    && (pg.isFreed <==> Freed(c))
  }

  ghost predicate ShowsAt(pg: Page, sp: AddressSpace, p: nat, i: nat) {
    p in sp && Shows(pg, sp[p], p, i)
  }

  /** The counters of a map agree with the page records `ps` of its first pages. */
  ghost predicate Counted(m: MapRec, ps: seq<Page>) {
    && m.populated == |ps|
    && m.totalPaged == CountPaged(ps)
    && m.softDirtyCount == CountSoftDirty(ps)
    && m.freedCount == CountFreed(ps)
  }

  predicate SameMap(a: MapRec, b: MapRec) {
    && a.vma == b.vma && a.totalPages == b.totalPages && a.firstPage == b.firstPage && a.dirty == b.dirty
  }

  function Slice(ps: seq<Page>, start: int, n: nat): seq<Page> {
    if 0 <= start && start + n <= |ps| then ps[start..start + n] else []
  }

  /** The page records of a map. */
  function PagesOfMap(m: MapRec, ps: seq<Page>): seq<Page> {
    Slice(ps, m.firstPage, m.totalPages)
  }

  /** Map `i` has been scanned: its records show `sp` and its counters count its records. */
  ghost predicate Scanned(ms: seq<MapRec>, ps: seq<Page>, sp: AddressSpace, i: nat)
    requires i < |ms|
  {
    var own := PagesOfMap(ms[i], ps);
    && |own| == ms[i].totalPages
    && Counted(ms[i], own)
    && forall j: nat | j < |own| :: ShowsAt(own[j], sp, ms[i].vma.start + j, i)
  }

  lemma CountedStep(m: MapRec, ps: seq<Page>, pg: Page)
    requires Counted(m, ps)
    ensures Counted(WithPage(m, pg), ps + [pg])
  {
    assert (ps + [pg])[..|ps|] == ps;
  }

  lemma IndexedUpdate(ms: seq<MapRec>, ms': seq<MapRec>, i: nat)
    requires Indexed(ms) && i < |ms| == |ms'|
    requires ms' == ms[i := ms'[i]] && SameMap(ms'[i], ms[i])
    ensures Vmas(ms') == Vmas(ms) && Indexed(ms')
  {
    assert Vmas(ms') == Vmas(ms);
    forall k: nat | k < |ms'|
      ensures IndexedAt(ms', k)
    {
      assert IndexedAt(ms, k);
    }
  }

  /** Scanning map `i` leaves the records and counters of every other map alone. */
  lemma ScannedFrame(ms: seq<MapRec>, ps: seq<Page>, ms': seq<MapRec>, ps': seq<Page>, sp: AddressSpace, i: nat, k: nat)
    requires Indexed(ms) && |ps| == Total(Vmas(ms)) && |ps| == |ps'| && |ms| == |ms'|
    requires i < |ms| && k < |ms| && i != k && ms[k] == ms'[k]
    requires forall x | 0 <= x < |ps| && !(ms[i].firstPage <= x < ms[i].firstPage + ms[i].totalPages) :: ps'[x] == ps[x]
    requires Scanned(ms, ps, sp, k)
    ensures Scanned(ms', ps', sp, k)
  {
    var vs := Vmas(ms);
    assert IndexedAt(ms, i) && IndexedAt(ms, k);
    if i < k { OffsetMonotone(vs, i, k); } else { OffsetMonotone(vs, k, i); }
    OffsetMonotone(vs, k, |vs|);
    assert PagesOfMap(ms'[k], ps') == PagesOfMap(ms[k], ps);
  }

  /** The pagemap entry of page `p`, taken apart. */
  function DecodePage(p: nat, d: bv64, i: nat): Page {
    Page(p, GetPagePfn(d), IsPageSoftDirty(d), IsPageExclusive(d), IsPageInSwap(d),
         IsPagePresent(d), IsPageFreed(d), i)
  }

  /** The record of a page whose entry the kernel has composed. */
  lemma DecodedEntry(p: nat, i: nat, pfn: bv64, softDirty: bool, exclusive: bool, file: bool, swap: bool, present: bool)
    requires pfn < PFN_LIMIT
    ensures var freed := !softDirty && !exclusive && !swap && !present;
      DecodePage(p, Entry(pfn, softDirty, exclusive, file, swap, present), i) ==
      Page.Page(p, pfn, softDirty, exclusive, swap, present, freed, i)
  {
    MacrosInvertEntry(pfn, softDirty, exclusive, file, swap, present);
    hide Entry, GetPagePfn, IsPageSoftDirty, IsPageExclusive, IsPageInSwap, IsPagePresent, IsPageFreed;
  }

  /** Map `i` of `ms0`, with records `ps0`, after its first `j` pages have been read. */
  ghost predicate Scanning(ms0: seq<MapRec>, ps0: seq<Page>, ms: seq<MapRec>, ps: seq<Page>, sp: AddressSpace,
          i: nat, j: nat) {
    && i < |ms0| == |ms| && |ps| == |ps0|
    && ms == ms0[i := ms[i]] && SameMap(ms[i], ms0[i])
    && 0 <= ms0[i].firstPage && ms0[i].firstPage + ms0[i].totalPages <= |ps| && j <= ms0[i].totalPages
    && var own := Slice(ps, ms0[i].firstPage, j);
       && Counted(ms[i], own)
       && (forall x: nat | x < j :: ShowsAt(own[x], sp, ms0[i].vma.start + x, i))
       && (forall x | 0 <= x < |ps| && !(ms0[i].firstPage <= x < ms0[i].firstPage + j) :: ps[x] == ps0[x])
  }

  lemma ScanningStep(ms0: seq<MapRec>, ps0: seq<Page>, ms: seq<MapRec>, ps: seq<Page>, sp: AddressSpace, i: nat,
          j: nat, pg: Page)
    requires Scanning(ms0, ps0, ms, ps, sp, i, j) && j < ms0[i].totalPages
    requires ShowsAt(pg, sp, ms0[i].vma.start + j, i)
    ensures ms[i].populated == j && ms[i].firstPage == ms0[i].firstPage
    ensures Scanning(ms0, ps0, ms[i := WithPage(ms[i], pg)], ps[ms0[i].firstPage + j := pg], sp, i, j + 1)
  {
    var first := ms0[i].firstPage;
    var own := Slice(ps, first, j);
    CountedStep(ms[i], own, pg);
    assert Slice(ps[first + j := pg], first, j + 1) == own + [pg];
  }

  lemma ScanningStart(ms: seq<MapRec>, ps: seq<Page>, sp: AddressSpace, i: nat)
    requires i < |ms| && NotCounted(ms[i]) && 0 <= ms[i].firstPage && ms[i].firstPage + ms[i].totalPages <= |ps|
    ensures Scanning(ms, ps, ms, ps, sp, i, 0)
  {
  }

  lemma ScanningMap(ms0: seq<MapRec>, ps0: seq<Page>, ms: seq<MapRec>, ps: seq<Page>, sp: AddressSpace, i: nat, j: nat)
    requires Scanning(ms0, ps0, ms, ps, sp, i, j)
    ensures i < |ms| == |ms0| && |ps| == |ps0| && ms[i].totalPages == ms0[i].totalPages
  {
  }

  lemma ScanningFrame(ms0: seq<MapRec>, ps0: seq<Page>, ms: seq<MapRec>, ps: seq<Page>, sp: AddressSpace, i: nat,
                      j: nat)
    requires Scanning(ms0, ps0, ms, ps, sp, i, j)
    ensures i < |ms| == |ms0| && |ps| == |ps0| && ms == ms0[i := ms[i]] && ms[i].dirty == ms0[i].dirty
  {
  }

  lemma NotDirty(m: MapRec)
    requires NotCounted(m)
    ensures !m.dirty
  {
  }

  lemma ScanningDone(ms0: seq<MapRec>, ps0: seq<Page>, ms: seq<MapRec>, ps: seq<Page>, sp: AddressSpace, i: nat)
    requires i < |ms0| && Scanning(ms0, ps0, ms, ps, sp, i, ms0[i].totalPages)
    ensures |ms| == |ms0| && Scanned(ms, ps, sp, i)
  {
  }

  /** The records of map `m` name its pages in order, all of them mapped. */
  ghost predicate MapPages(m: MapRec, ps: seq<Page>, sp: AddressSpace) {
    && 0 <= m.firstPage && m.firstPage + m.totalPages <= |ps|
    && forall y | m.firstPage <= y < m.firstPage + m.totalPages ::
         ps[y].addr == m.vma.start + (y - m.firstPage) && ps[y].addr in sp
  }

  lemma ScannedPages(ms: seq<MapRec>, ps: seq<Page>, sp: AddressSpace, i: nat)
    requires i < |ms| && Scanned(ms, ps, sp, i)
    requires 0 <= ms[i].firstPage && ms[i].firstPage + ms[i].totalPages <= |ps|
    ensures MapPages(ms[i], ps, sp)
  {
    var m := ms[i];
    var own := PagesOfMap(m, ps);
    forall y | m.firstPage <= y < m.firstPage + m.totalPages
      ensures ps[y].addr == m.vma.start + (y - m.firstPage) && ps[y].addr in sp
    {
      assert own[y - m.firstPage] == ps[y];
      assert ShowsAt(own[y - m.firstPage], sp, m.vma.start + (y - m.firstPage), i);
    }
  }

  predicate PagedIn(m: MapRec, ps: seq<Page>, j: nat) {
    0 <= m.firstPage + j < |ps| && ps[m.firstPage + j].Paged()
  }

  /**
   Transfers compute byte counts and offsets in 32-bit signed integers: the count of a whole map, or the
   offset of every page that is copied by itself.
   */
  ghost predicate Storable(m: MapRec, ps: seq<Page>) {
    if m.totalPaged == m.totalPages then m.totalPages * PSIZE <= INT_MAX
    else forall j: nat | j < m.totalPages && PagedIn(m, ps, j) :: j * PSIZE <= INT_MAX
  }

  /** The first `r` of `total` bytes have been copied from the process to offset `dst`. */
  ghost predicate Transferring(w0: seq<bv8>, w: seq<bv8>, sp: AddressSpace, dst: nat, addr: nat, total: nat, r: nat) {
    && r <= total && r <= INT_MAX && dst + total <= |w0|
    && (forall p: nat :: Touches(p, addr, r) ==> p in sp)
    && w == Spliced(w0, dst, BytesAt(sp, addr, r))
  }

  lemma TouchesPart(addr: nat, total: nat, r: nat, n: nat)
    requires r + n <= total
    ensures forall p: nat :: Touches(p, addr + r, n) ==> Touches(p, addr, total)
    ensures forall p: nat :: Touches(p, addr, r) ==> Touches(p, addr, total)
  {
  }

  lemma TransferStep(w0: seq<bv8>, sp: AddressSpace, dst: nat, addr: nat, total: nat, r: nat, bytes: seq<bv8>)
    requires forall p: nat :: Touches(p, addr, total) ==> p in sp
    requires forall p: nat :: Touches(p, addr + r, |bytes|) ==> p in sp
    requires r + |bytes| <= total && r + |bytes| <= INT_MAX && dst + total <= |w0|
    requires forall p: nat :: Touches(p, addr, r) ==> p in sp
    requires bytes == BytesAt(sp, addr + r, |bytes|)
    ensures dst + r + |bytes| <= |w0|
    ensures Transferring(w0, Spliced(Spliced(w0, dst, BytesAt(sp, addr, r)), dst + r, bytes), sp, dst, addr, total,
                         r + |bytes|)
  {
    TouchesPart(addr, total, r + |bytes|, 0);
    BytesAtConcat(sp, addr, r, |bytes|);
    SplicedTwice(w0, dst, BytesAt(sp, addr, r), bytes);
  }

  lemma TransferStart(w: seq<bv8>, sp: AddressSpace, dst: nat, addr: nat, total: nat)
    requires dst + total <= |w|
    ensures Transferring(w, w, sp, dst, addr, total, 0)
  {
    assert BytesAt(sp, addr, 0) == [];
  }

  lemma TransferNext(w0: seq<bv8>, w: seq<bv8>, sp: AddressSpace, dst: nat, addr: nat, total: nat, r: nat,
          bytes: seq<bv8>)
    requires Transferring(w0, w, sp, dst, addr, total, r)
    requires forall p: nat :: Touches(p, addr, total) ==> p in sp
    requires forall p: nat :: Touches(p, addr + r, |bytes|) ==> p in sp
    requires r + |bytes| <= total && r + |bytes| <= INT_MAX && bytes == BytesAt(sp, addr + r, |bytes|)
    ensures dst + r + |bytes| <= |w|
    ensures Transferring(w0, Spliced(w, dst + r, bytes), sp, dst, addr, total, r + |bytes|)
  {
    hide Touches, BytesAt;
    TransferStep(w0, sp, dst, addr, total, r, bytes);
  }

  lemma TransferEnd(w0: seq<bv8>, w: seq<bv8>, sp: AddressSpace, dst: nat, addr: nat, total: nat, r: nat)
    requires Transferring(w0, w, sp, dst, addr, total, r)
    ensures r <= total && r <= INT_MAX && dst + total <= |w|
    ensures forall p: nat :: Touches(p, addr, r) ==> p in sp
    ensures w == Spliced(w0, dst, BytesAt(sp, addr, r))
  {
  }

  /** Storing one paged page in the next slot. */
  lemma StoreOne(ps: seq<Page>, w: seq<bv8>, sp: AddressSpace, x: nat, p: nat, slot: nat)
    requires x < |ps| && ps[x].Paged() && ps[x].addr == p && p in sp && slot == Rank(ps, x)
    requires |w| == CountPaged(ps) * PSIZE && StoredUpTo(ps, w, Contents(sp), x)
    ensures slot * PSIZE + PSIZE <= |w|
    ensures forall q: nat :: Touches(q, p * PSIZE, PSIZE) ==> q in sp
    ensures StoredUpTo(ps, Spliced(w, slot * PSIZE, BytesAt(sp, p * PSIZE, PSIZE)), Contents(sp), x + 1)
    ensures Rank(ps, x + 1) == slot + 1
  {
    StoreRun(ps, w, sp, x, 1, p);
    RankStep(ps, x);
  }

  lemma SkipOne(ps: seq<Page>, w: seq<bv8>, content: map<nat, PageData>, x: nat)
    requires x < |ps| && !ps[x].Paged() && StoredUpTo(ps, w, content, x)
    ensures StoredUpTo(ps, w, content, x + 1) && Rank(ps, x + 1) == Rank(ps, x)
  {
    RankStep(ps, x);
  }

  /** Storing a fully paged map in one piece. */
  lemma StoreAll(m: MapRec, ps: seq<Page>, w: seq<bv8>, sp: AddressSpace)
    requires MapPages(m, ps, sp) && CountPaged(PagesOfMap(m, ps)) == m.totalPages
    requires |w| == CountPaged(ps) * PSIZE && StoredUpTo(ps, w, Contents(sp), m.firstPage)
    ensures (Rank(ps, m.firstPage) + m.totalPages) * PSIZE <= |w|
    ensures forall p: nat :: Touches(p, m.vma.start * PSIZE, m.totalPages * PSIZE) ==> p in sp
    ensures StoredUpTo(ps,
      Spliced(w, Rank(ps, m.firstPage) * PSIZE, BytesAt(sp, m.vma.start * PSIZE, m.totalPages * PSIZE)),
      Contents(sp), m.firstPage + m.totalPages)
  {
    var own := PagesOfMap(m, ps);
    CountPagedBounds(own);
    assert forall y | m.firstPage <= y < m.firstPage + m.totalPages :: ps[y] == own[y - m.firstPage];
    StoreRun(ps, w, sp, m.firstPage, m.totalPages, m.vma.start);
  }

  /** The first `n` maps have been given their first slot; nothing else has changed. */
  ghost predicate WmemSet(ms0: seq<MapRec>, ms: seq<MapRec>, ps: seq<Page>, n: nat) {
    && |ms| == |ms0|
    && (forall k: nat | k < n && k < |ms| ::
          0 <= ms0[k].firstPage <= |ps| && ms[k] == ms0[k].(firstWmem := Rank(ps, ms0[k].firstPage)))
    && (forall k: nat | n <= k < |ms| :: ms[k] == ms0[k])
  }

  lemma StoreNext(ms: seq<MapRec>, ps: seq<Page>, sp: AddressSpace, i: nat)
    requires Captured(ms, ps, sp) && i < |ms|
    ensures ms[i].firstPage == Offset(Vmas(ms), i)
    ensures Offset(Vmas(ms), i + 1) == ms[i].firstPage + ms[i].totalPages <= |ps|
    ensures ms[i].totalPaged == CountPaged(PagesOfMap(ms[i], ps))
    ensures Rank(ps, Offset(Vmas(ms), i + 1)) == Rank(ps, ms[i].firstPage) + ms[i].totalPaged
    ensures MapPages(ms[i], ps, sp)
    ensures ms[i].totalPaged == 0 ==> Storable(ms[i], ps)
  {
    hide Page.Paged;
    var vs := Vmas(ms);
    assert IndexedAt(ms, i) && Scanned(ms, ps, sp, i);
    OffsetMonotone(vs, i + 1, |vs|);
    ScannedPages(ms, ps, sp, i);
    RankSplit(ps, Offset(vs, i), Offset(vs, i + 1));
    assert PagesOfMap(ms[i], ps) == ps[Offset(vs, i)..Offset(vs, i + 1)];
    if ms[i].totalPaged == 0 { NothingPaged(ms[i], ps); }
  }

  lemma NothingPaged(m: MapRec, ps: seq<Page>)
    requires 0 <= m.firstPage && m.firstPage + m.totalPages <= |ps| && CountPaged(PagesOfMap(m, ps)) == 0
    ensures forall j: nat | j < m.totalPages :: !PagedIn(m, ps, j)
  {
    hide Page.Paged, CountPaged;
    var own := PagesOfMap(m, ps);
    CountPagedBounds(own);
    assert forall j: nat | j < m.totalPages :: ps[m.firstPage + j] == own[j];
  }

  lemma StoreNothing(m: MapRec, ps: seq<Page>, w: seq<bv8>, content: map<nat, PageData>)
    requires 0 <= m.firstPage && m.firstPage + m.totalPages <= |ps|
    requires CountPaged(PagesOfMap(m, ps)) == 0
    requires StoredUpTo(ps, w, content, m.firstPage)
    ensures StoredUpTo(ps, w, content, m.firstPage + m.totalPages)
  {
    var own := PagesOfMap(m, ps);
    CountPagedBounds(own);
    assert forall y | m.firstPage <= y < m.firstPage + m.totalPages :: ps[y] == own[y - m.firstPage];
  }

  /** The first `i` maps of `ms0` are stored. */
  ghost predicate Storing(ms0: seq<MapRec>, ms: seq<MapRec>, ps: seq<Page>, w: seq<bv8>, content: map<nat, PageData>,
          i: nat, index: nat) {
    && i <= |ms0|
    && WmemSet(ms0, ms, ps, i)
    && Offset(Vmas(ms0), i) <= |ps| && index == Rank(ps, Offset(Vmas(ms0), i))
    && StoredUpTo(ps, w, content, Offset(Vmas(ms0), i))
    && forall k: nat | k < i :: Storable(ms0[k], ps)
  }

  lemma StoringStart(ms: seq<MapRec>, ps: seq<Page>, w: seq<bv8>, content: map<nat, PageData>)
    ensures Storing(ms, ms, ps, w, content, 0, 0)
  {
  }

  lemma StoringEnd(ms0: seq<MapRec>, ms: seq<MapRec>, ps: seq<Page>, w: seq<bv8>, content: map<nat, PageData>,
          index: nat, sp: AddressSpace)
    requires Storing(ms0, ms, ps, w, content, |ms0|, index) && Captured(ms0, ps, sp)
    ensures forall k: nat | k < |ms0| :: Storable(ms0[k], ps)
    ensures WmemSet(ms0, ms, ps, |ms0|) && StoredUpTo(ps, w, content, |ps|)
  {
  }

  lemma StoringSoFar(ms0: seq<MapRec>, ms: seq<MapRec>, ps: seq<Page>, w: seq<bv8>, content: map<nat, PageData>,
          i: nat, index: nat)
    requires Storing(ms0, ms, ps, w, content, i, index) && i < |ms0|
    ensures WmemSet(ms0, ms, ps, i) && |ms| == |ms0| && ms[i] == ms0[i]
    ensures Offset(Vmas(ms0), i) <= |ps| && index == Rank(ps, Offset(Vmas(ms0), i))
    ensures StoredUpTo(ps, w, content, Offset(Vmas(ms0), i))
    ensures forall k: nat | k < i :: Storable(ms0[k], ps)
  {
  }

  lemma StoringNext(ms0: seq<MapRec>, ms: seq<MapRec>, ps: seq<Page>, w: seq<bv8>, content: map<nat, PageData>,
          i: nat, index: nat)
    requires i < |ms0| == |ms| && WmemSet(ms0, ms, ps, i + 1) && forall k: nat | k < i + 1 :: Storable(ms0[k], ps)
    requires 0 <= ms0[i].firstPage && Offset(Vmas(ms0), i + 1) == ms0[i].firstPage + ms0[i].totalPages <= |ps|
    requires Rank(ps, Offset(Vmas(ms0), i + 1)) == index + ms0[i].totalPaged
    requires StoredUpTo(ps, w, content, Offset(Vmas(ms0), i + 1))
    ensures Storing(ms0, ms, ps, w, content, i + 1, index + ms[i].totalPaged)
  {
    hide Storable, StoredUpTo, Rank;
  }

  lemma StorableByPages(a: MapRec, b: MapRec, ps: seq<Page>)
    requires a.totalPages == b.totalPages && a.totalPaged == b.totalPaged && a.firstPage == b.firstPage
    ensures Storable(a, ps) == Storable(b, ps)
  {
    assert forall j: nat :: PagedIn(a, ps, j) == PagedIn(b, ps, j);
  }

  lemma SameMapPages(a: MapRec, b: MapRec, ps: seq<Page>, sp: AddressSpace)
    requires a.totalPages == b.totalPages && a.firstPage == b.firstPage && a.vma == b.vma
    ensures MapPages(a, ps, sp) == MapPages(b, ps, sp) && PagesOfMap(a, ps) == PagesOfMap(b, ps)
    ensures MapPages(a, ps, sp) ==> 0 <= a.firstPage && a.firstPage + a.totalPages <= |ps|
  {
  }

  lemma StoringMap(ms0: seq<MapRec>, ms: seq<MapRec>, ps: seq<Page>, i: nat, m: MapRec, index: nat)
    requires i < |ms0| == |ms| && 0 <= ms0[i].firstPage <= |ps| && index == Rank(ps, ms0[i].firstPage)
    requires m == ms[i].(firstWmem := index) && WmemSet(ms0, ms, ps, i)
    ensures WmemSet(ms0, ms[i := m], ps, i + 1)
  {
    assert forall k: nat | k < |ms| && k != i :: ms[i := m][k] == ms[k];
  }

  function Clean(m: MapRec): MapRec {
    m.(softDirtyCount := 0, freedCount := 0, dirty := false)
  }

  /** One more map scanned: the earlier maps stay scanned and the paged pages add up. */
  lemma ScanAdvance(ms: seq<MapRec>, ps: seq<Page>, ms': seq<MapRec>, ps': seq<Page>, sp: AddressSpace, i: nat)
    requires Indexed(ms) && |ps| == |ps'| == Total(Vmas(ms)) && i < |ms| == |ms'|
    requires forall k: nat | k < i && Fits(ms[k].vma) :: Scanned(ms, ps, sp, k)
    requires Scanning(ms, ps, ms', ps', sp, i, ms[i].totalPages)
    ensures Vmas(ms') == Vmas(ms) && Indexed(ms')
    ensures forall k: nat | k < i && Fits(ms'[k].vma) :: Scanned(ms', ps', sp, k)
    ensures Scanned(ms', ps', sp, i)
    ensures Offset(Vmas(ms), i) <= Offset(Vmas(ms), i + 1) <= |ps|
    ensures Rank(ps', Offset(Vmas(ms), i + 1)) == Rank(ps, Offset(Vmas(ms), i)) + ms'[i].totalPaged
  {
    var vs := Vmas(ms);
    ScanningDone(ms, ps, ms', ps', sp, i);
    IndexedUpdate(ms, ms', i);
    forall k: nat | k < i && Fits(ms'[k].vma)
      ensures Scanned(ms', ps', sp, k)
    {
      ScannedFrame(ms, ps, ms', ps', sp, i, k);
    }
    assert IndexedAt(ms, i);
    OffsetMonotone(vs, i + 1, |vs|);
    var a, b := Offset(vs, i), Offset(vs, i + 1);
    assert ps'[..a] == ps[..a];
    RankSplit(ps', a, b);
    assert PagesOfMap(ms'[i], ps') == ps'[a..b];
  }

  /** Those of the first `i` maps of `ms0` that can be read have been read. */
  ghost predicate PagesRead(ms0: seq<MapRec>, ms: seq<MapRec>, ps: seq<Page>, sp: AddressSpace, i: nat, count: nat,
          paged: nat) {
    && i <= |ms0| == |ms| && Vmas(ms) == Vmas(ms0) && Indexed(ms) && |ps| == Total(Vmas(ms0))
    && (forall k: nat | k < i && Fits(ms[k].vma) :: Scanned(ms, ps, sp, k) && !ms[k].dirty)
    && (forall k: nat | i <= k < |ms| :: NotCounted(ms[k]) && MapIn(ms[k].vma, sp))
    && count == ReadOffset(Vmas(ms0), i) && Offset(Vmas(ms0), i) <= |ps|
    && (FitUpTo(Vmas(ms0), i) ==> paged == Rank(ps, Offset(Vmas(ms0), i)))
  }

  lemma PagesReadNext(ms0: seq<MapRec>, ms: seq<MapRec>, ps: seq<Page>, sp: AddressSpace, i: nat, count: nat,
          paged: nat)
    requires PagesRead(ms0, ms, ps, sp, i, count, paged) && i < |ms|
    ensures NotCounted(ms[i]) && MapIn(ms[i].vma, sp) && ms[i].totalPages == ms[i].vma.Size()
    ensures 0 <= ms[i].firstPage && ms[i].firstPage + ms[i].totalPages <= |ps|
  {
    assert IndexedAt(ms, i);
    OffsetMonotone(Vmas(ms0), i + 1, |ms0|);
  }

  lemma FitNext(vs: seq<Vma>, i: nat)
    requires i < |vs|
    ensures FitUpTo(vs, i + 1) <==> FitUpTo(vs, i) && Fits(vs[i])
    ensures ReadOffset(vs, i + 1) == ReadOffset(vs, i) + if Fits(vs[i]) then vs[i].Size() else 0
    ensures Offset(vs, i + 1) <= Total(vs)
  {
    OffsetMonotone(vs, i + 1, |vs|);
  }

  /** Map `i` is left out because one read cannot cover it. */
  lemma PagesReadSkip(ms0: seq<MapRec>, ms: seq<MapRec>, ps: seq<Page>, sp: AddressSpace, i: nat, count: nat,
          paged: nat)
    requires PagesRead(ms0, ms, ps, sp, i, count, paged) && i < |ms| && !Fits(ms[i].vma)
    ensures PagesRead(ms0, ms, ps, sp, i + 1, count, paged)
  {
    hide Fits, Rank, Scanned, NotCounted, MapIn, FitUpTo, ReadOffset, Indexed;
    FitNext(Vmas(ms0), i);
    assert Vmas(ms0)[i] == ms[i].vma;
  }

  /** Map `i` has been read. */
  lemma PagesReadStep(ms0: seq<MapRec>, ms: seq<MapRec>, ps: seq<Page>, ms': seq<MapRec>, ps': seq<Page>,
                      sp: AddressSpace, i: nat, count: nat, paged: nat)
    requires PagesRead(ms0, ms, ps, sp, i, count, paged) && i < |ms| && Fits(ms[i].vma)
    requires Scanning(ms, ps, ms', ps', sp, i, ms[i].totalPages)
    ensures i < |ms'| && PagesRead(ms0, ms', ps', sp, i + 1, count + ms'[i].totalPages, paged + ms'[i].totalPaged)
  {
    hide Fits, Rank, Scanned, Scanning, NotCounted, MapIn, FitUpTo, ReadOffset;
    FitNext(Vmas(ms0), i);
    ScanningFrame(ms, ps, ms', ps', sp, i, ms[i].totalPages);
    ScanAdvance(ms, ps, ms', ps', sp, i);
    NotDirty(ms[i]);
    assert IndexedAt(ms', i) && Vmas(ms0)[i] == ms'[i].vma;
    assert forall k: nat | k < |ms| && k != i :: ms'[k] == ms[k];
  }

  ghost predicate Unmarked(ms: seq<MapRec>) {
    forall i: nat | i < |ms| :: !ms[i].dirty
  }

  /** What a capture with pages establishes. */
  ghost predicate Captured(ms: seq<MapRec>, ps: seq<Page>, sp: AddressSpace) {
    && Sorted(Vmas(ms)) && Indexed(ms) && |ps| == Total(Vmas(ms))
    && (forall i: nat | i < |ms| :: Scanned(ms, ps, sp, i)) && Unmarked(ms)
  }

  class MemInfo {
    var maps: array<MapRec>
    var mapsCount: nat
    var pages: array<Page>
    var pagesCount: nat
    var writablePagesCount: nat
    var pagedPagesCount: nat
    var pagesMaxCapacity: nat
    var maxPagesInRegion: nat
    var wmem: array<bv8>

    ghost predicate Valid()
      reads this
    {
      && mapsCount <= maps.Length && 0 < maps.Length
      && wmem as object != maps as object && wmem as object != pages as object
      && pages as object != maps as object
    }

    ghost function Maps(): (ms: seq<MapRec>)
      requires Valid()
      reads this, maps
      ensures |ms| == mapsCount
    {
      maps[..mapsCount]
    }

    constructor ()
      ensures Valid() && Maps() == []
      ensures pages.Length == 0 && wmem.Length == 0
      ensures pagesCount == writablePagesCount == pagedPagesCount == pagesMaxCapacity == maxPagesInRegion == 0
      ensures maps.Length == 100
      ensures fresh(maps) && fresh(pages) && fresh(wmem)
    {
      maps := new MapRec[INITIAL_NUMBER_OF_REGIONS];
      pages := new Page[0];
      wmem := new bv8[0];
      mapsCount, pagesCount, writablePagesCount := 0, 0, 0;
      pagedPagesCount, pagesMaxCapacity, maxPagesInRegion := 0, 0, 0;
    }

    /** Doubles the table. */
    method Grow()
      requires Valid()
      modifies this`maps
      ensures Valid() && Maps() == old(Maps()) && fresh(maps) && maps.Length == 2 * old(maps.Length)
    {
      var bigger := new MapRec[2 * maps.Length];
      forall i | 0 <= i < maps.Length {
        bigger[i] := maps[i];
      }
      maps := bigger;
    }

    /** Appends a map, doubling the table when it is full. */
    method AddToMaps(m: MapRec)
      requires Valid()
      modifies this`maps, this`mapsCount, this`pagesMaxCapacity, this`maxPagesInRegion,
        this`writablePagesCount, this`pagedPagesCount, maps
      ensures Valid() && Maps() == old(Maps()) + [m]
      ensures maps == old(maps) || fresh(maps)
      ensures pagesMaxCapacity == old(pagesMaxCapacity) + m.totalPages
      ensures pagedPagesCount == old(pagedPagesCount) + m.totalPaged
      ensures writablePagesCount == old(writablePagesCount) + if m.vma.prot.w then m.totalPages else 0
      ensures old(maxPagesInRegion) <= maxPagesInRegion && m.totalPages <= maxPagesInRegion &&
          (maxPagesInRegion == old(maxPagesInRegion) || maxPagesInRegion == m.totalPages)
      ensures maps.Length == if old(mapsCount) < old(maps.Length) then old(maps.Length) else 2 * old(maps.Length)
    {
      var index := mapsCount;
      if index >= maps.Length {
        Grow();
      }
      pagesMaxCapacity := pagesMaxCapacity + m.totalPages;
      if m.totalPages > maxPagesInRegion { maxPagesInRegion := m.totalPages; }
      maps[index] := m;
      mapsCount := mapsCount + 1;
      if m.vma.prot.w { writablePagesCount := writablePagesCount + m.totalPages; }
      pagedPagesCount := pagedPagesCount + m.totalPaged;
    }

    method AddPageToMapAtIndex(pg: Page, index: nat)
      requires Valid() && pg.mapIndex < mapsCount
      requires index < pagesMaxCapacity <= pages.Length
      modifies maps, pages
      ensures Maps() == old(Maps())[pg.mapIndex := WithPage(old(Maps())[pg.mapIndex], pg)]
      ensures pages[..] == old(pages[..])[index := pg]
    {
      pages[index] := pg;
      maps[pg.mapIndex] := WithPage(maps[pg.mapIndex], pg);
    }

    /**
     Stores a page record behind those its map already has. The index stays below the capacity,
     so the branch that would enlarge the table cannot be taken.
     */
    method AddPageToMap(pg: Page)
      requires Valid() && pg.mapIndex < mapsCount
      requires 0 <= maps[pg.mapIndex].firstPage
      requires maps[pg.mapIndex].firstPage + maps[pg.mapIndex].populated < pagesMaxCapacity <= pages.Length
      modifies maps, pages
      ensures Maps() == old(Maps())[pg.mapIndex := WithPage(old(Maps())[pg.mapIndex], pg)]
      ensures pages[..] ==
        old(pages[..])[old(maps[pg.mapIndex].firstPage + maps[pg.mapIndex].populated) := pg]
    {
      var index := maps[pg.mapIndex].firstPage + maps[pg.mapIndex].populated;
      if index >= pagesMaxCapacity {
        assert false;
      }
      AddPageToMapAtIndex(pg, index);
    }

    /** Adds the visible lines of the maps file; returns the number of pages, as far as an int can count them. */
    method AddLines(lines: seq<Vma>) returns (total: int)
      requires Valid() && Maps() == [] && pagesMaxCapacity == pagedPagesCount == 0
      requires Sorted(Visible(lines))
      modifies this`maps, this`mapsCount, this`pagesMaxCapacity, this`maxPagesInRegion,
        this`writablePagesCount, this`pagedPagesCount, maps
      ensures Valid() && (maps == old(maps) || fresh(maps))
      ensures Vmas(Maps()) == Visible(lines) && TableRead(Maps(), total)
      ensures Countable(Visible(lines)) ==> FreshTable(Maps()) && total == pagesMaxCapacity == Total(Visible(lines))
      ensures pagedPagesCount == 0
    {
      hide Sorted, FreshTable, TableRead, Hidden, Visible, NotCounted, Offset, WritableOffset, AsInt, AsUnsigned;
      TableStart(lines);
      total := 0;
      var totalWritable: int := 0;
      ghost var seen: seq<MapRec> := [];
      var i := 0;
      while i < |lines|
        invariant i <= |lines|
        invariant Valid() && (maps == old(maps) || fresh(maps)) && Maps() == seen
        invariant TableRead(seen, total) && Vmas(seen) == Visible(lines[..i])
        invariant totalWritable == AsInt(WritableOffset(Vmas(seen), |seen|))
        invariant Countable(Vmas(seen)) ==> pagesMaxCapacity == Total(Vmas(seen))
        invariant pagedPagesCount == 0
      {
        var v := lines[i];
        NextVisible(lines, i);
        i := i + 1;
        if Hidden(v) { continue; }
        var regionPages := AsInt(v.end - v.start);
        var m := MapRec(v, AsUnsigned(regionPages), 0, 0, 0, 0, if v.prot.w then totalWritable else -1, total, false);
        FreshRecord(m);
        TableAppend(seen, m, total, totalWritable);
        AddToMaps(m);
        seen := seen + [m];
        total := AsInt(total + m.totalPages);
        if v.prot.w { totalWritable := AsInt(totalWritable + m.totalPages); }
      }
      assert lines[..i] == lines;
      if Countable(Visible(lines)) { CountedTable(seen, total); }
    }

    /** Reads the map table; returns the number of pages, as far as an int can count them. */
    method ReadMaps(process: Process) returns (total: int)
      requires Valid() && Maps() == [] && process.Valid() && pagesMaxCapacity == pagedPagesCount == 0
      modifies this`maps, this`mapsCount, this`pagesMaxCapacity, this`maxPagesInRegion,
        this`writablePagesCount, this`pagedPagesCount, maps, process`clock
      ensures Valid() && (maps == old(maps) || fresh(maps)) && process.clock == old(process.clock) + 1
      ensures Vmas(Maps()) == Visible(process.kernel(old(process.clock), process.space))
      ensures Describes(Vmas(Maps()), process.space) && TableRead(Maps(), total)
      ensures Countable(Vmas(Maps())) ==> FreshTable(Maps()) && total == pagesMaxCapacity == Total(Vmas(Maps()))
      ensures pagedPagesCount == 0
    {
      hide Sorted, FreshTable, TableRead, Describes, Visible, Offset;
      var lines := process.ReadMapsFile();
      DescribedSorted(Visible(lines), process.space);
      total := AddLines(lines);
    }

    /**
     Reads the pagemap entries of map `i` into its slice of the page table. A mapping that one read
     cannot cover is given up: nothing is recorded, and its pages are not counted.
     */
    method ReadRangePagemap(process: Process, i: nat) returns (r: int)
      requires Valid() && i < mapsCount && NotCounted(Maps()[i])
      requires Maps()[i].totalPages == Maps()[i].vma.Size() && 0 <= Maps()[i].firstPage
      requires Maps()[i].firstPage + Maps()[i].totalPages <= pages.Length == pagesMaxCapacity
      requires MapIn(Maps()[i].vma, process.space)
      modifies this`pagesCount, this`pagedPagesCount, maps, pages
      ensures !Fits(old(Maps()[i].vma)) ==>
        r == -1 && Maps() == old(Maps()) && pages[..] == old(pages[..])
        && pagesCount == old(pagesCount) && pagedPagesCount == old(pagedPagesCount)
      ensures Fits(old(Maps()[i].vma)) ==>
        && r == old(Maps()[i].totalPages)
        && Scanning(old(Maps()), old(pages[..]), Maps(), pages[..], process.space, i, old(Maps()[i].totalPages))
        && pagesCount == old(pagesCount) + Maps()[i].totalPages
        && pagedPagesCount == old(pagedPagesCount) + Maps()[i].totalPaged
    {
      hide Scanning, Entry, EntryOf, GetPagePfn, IsPageSoftDirty, IsPageFreed, IsPageExclusive, IsPageInSwap,
        IsPagePresent, NotCounted;
      ghost var ms0, ps0 := Maps(), pages[..];
      var v := maps[i].vma;
      var numPages := maps[i].totalPages;
      assert forall p: nat :: InRange(p, v.start, numPages) ==> v.Holds(p);
      var bits;
      r, bits := process.PReadPagemap(v.start, numPages);
      if r != 8 * numPages {
        return -1;
      }
      ScanningStart(ms0, ps0, process.space, i);
      ghost var paged := pagedPagesCount;
      var j := 0;
      while j < numPages
        invariant j <= numPages
        invariant pagesCount == old(pagesCount) && pagedPagesCount == paged
        invariant i < mapsCount == |ms0| && |ps0| == pages.Length
        invariant Scanning(ms0, ps0, Maps(), pages[..], process.space, i, j)
      {
        EntryShowsCell(bits[j], process.space[v.start + j]);
        var pg := DecodePage(v.start + j, bits[j], i);
        ScanningStep(ms0, ps0, Maps(), pages[..], process.space, i, j, pg);
        AddPageToMap(pg);
        j := j + 1;
      }
      ScanningMap(ms0, ps0, Maps(), pages[..], process.space, i, j);
      pagesCount := pagesCount + numPages;
      pagedPagesCount := pagedPagesCount + maps[i].totalPaged;
      r := numPages;
    }

    /** Fills the page table map by map, passing over maps that cannot be read. */
    method PopulatePageInfo(process: Process)
      requires Valid() && pages.Length == pagesMaxCapacity
      requires PagesRead(Maps(), Maps(), pages[..], process.space, 0, pagesCount, pagedPagesCount)
      modifies this`pagesCount, this`pagedPagesCount, maps, pages
      ensures PagesRead(old(Maps()), Maps(), pages[..], process.space, mapsCount, pagesCount, pagedPagesCount)
    {
      hide PagesRead, Scanning, Fits;
      ghost var ms, sp := Maps(), process.space;
      var i := 0;
      while i < mapsCount
        invariant i <= mapsCount
        invariant PagesRead(ms, Maps(), pages[..], sp, i, pagesCount, pagedPagesCount)
      {
        ghost var ms1, ps1, count, paged := Maps(), pages[..], pagesCount, pagedPagesCount;
        PagesReadNext(ms, ms1, ps1, sp, i, pagesCount, pagedPagesCount);
        var r := ReadRangePagemap(process, i);
        if Fits(ms1[i].vma) {
          PagesReadStep(ms, ms1, ps1, Maps(), pages[..], sp, i, count, paged);
        } else {
          PagesReadSkip(ms, ms1, ps1, sp, i, count, paged);
        }
        i := i + 1;
      }
    }

    method Poke(at: nat, bytes: seq<bv8>)
      requires at + |bytes| <= wmem.Length
      modifies wmem
      ensures wmem[..] == Spliced(old(wmem[..]), at, bytes)
    {
      forall k | 0 <= k < |bytes| {
        wmem[at + k] := bytes[k];
      }
    }

    /**
     Stores a fully paged map with as many short reads as it takes. The byte count lives in a
     32-bit signed integer, so this succeeds exactly for maps below 2 GiB.
     */
    method StoreWholeMap(process: Process, dst: nat, start: nat, n: nat, ghost sp: AddressSpace) returns (ok: bool)
      requires 0 < n && dst + n * PSIZE <= wmem.Length && sp == process.space
      requires forall p: nat :: Touches(p, start * PSIZE, n * PSIZE) ==> p in sp
      modifies wmem
      ensures ok <==> n * PSIZE <= INT_MAX
      ensures ok ==> wmem[..] == Spliced(old(wmem[..]), dst, BytesAt(sp, start * PSIZE, n * PSIZE))
    {
      hide Transferring, Touches, BytesAt, Spliced;
      ghost var w0 := wmem[..];
      var addr, total := start * PSIZE, n * PSIZE;
      var r := 0;
      TransferStart(w0, sp, dst, addr, total);
      while r != total
        invariant r <= total && Transferring(w0, wmem[..], sp, dst, addr, total, r)
        decreases total - r
      {
        TouchesPart(addr, total, r, total - r);
        var bytes := process.PRead(addr + r, total - r);
        if r + |bytes| > INT_MAX {
          return false;
        }
        TransferNext(w0, wmem[..], sp, dst, addr, total, r, bytes);
        Poke(dst + r, bytes);
        r := r + |bytes|;
      }
      TransferEnd(w0, wmem[..], sp, dst, addr, total, r);
      return true;
    }

    /**
     Stores the paged pages of a map one by one, counting them to find each slot. The offset of a page
     from the start of its map is a 32-bit signed product, which a page 2 GiB into the map overflows.
     */
    method StorePagedPages(process: Process, m: MapRec, ghost ps: seq<Page>, ghost sp: AddressSpace) returns (ok: bool)
      requires Valid() && ps == pages[..] && sp == process.space
      requires MapPages(m, ps, sp) && m.firstWmem == Rank(ps, m.firstPage)
      requires wmem.Length == CountPaged(ps) * PSIZE
      requires StoredUpTo(ps, wmem[..], Contents(sp), m.firstPage)
      modifies wmem
      ensures ok <==> forall j: nat | j < m.totalPages && PagedIn(m, ps, j) :: j * PSIZE <= INT_MAX
      ensures ok ==> StoredUpTo(ps, wmem[..], Contents(sp), m.firstPage + m.totalPages)
    {
      hide Page.Paged;
      ghost var content := Contents(sp);
      var pagedIndex := 0;
      var i := 0;
      while i < m.totalPages
        invariant 0 <= pagedIndex <= i <= m.totalPages && m.firstWmem + pagedIndex == Rank(ps, m.firstPage + i)
        invariant forall j: nat | j < i && PagedIn(m, ps, j) :: j * PSIZE <= INT_MAX
        invariant StoredUpTo(ps, wmem[..], content, m.firstPage + i)
      {
        var x := m.firstPage + i;
        assert ps[x].addr == m.vma.start + i;
        assert PagedIn(m, ps, i) == ps[x].Paged();
        if pages[x].Paged() {
          if i * PSIZE > INT_MAX {
            return false;
          }
          assert pagedIndex * PSIZE <= INT_MAX;
          var p, slot := m.vma.start + i, m.firstWmem + pagedIndex;
          StoreOne(ps, wmem[..], sp, x, p, slot);
          var bytes := process.PRead(p * PSIZE, PSIZE);
          Poke(slot * PSIZE, bytes);
          pagedIndex := pagedIndex + 1;
        } else {
          SkipOne(ps, wmem[..], content, x);
        }
        i := i + 1;
      }
      return true;
    }

    /** Stores one map, whole or page by page. Only a map with frames 2 GiB or more from its start defeats it. */
    method PopulateMemoryCopyInfoMap(process: Process, m: MapRec, ghost ps: seq<Page>, ghost sp: AddressSpace)
      returns (ok: bool)
      requires Valid() && ps == pages[..] && sp == process.space
      requires MapPages(m, ps, sp) && m.firstWmem == Rank(ps, m.firstPage)
      requires 0 < m.totalPaged == CountPaged(PagesOfMap(m, ps))
      requires wmem.Length == CountPaged(ps) * PSIZE
      requires StoredUpTo(ps, wmem[..], Contents(sp), m.firstPage)
      modifies wmem
      ensures ok <==> Storable(m, ps)
      ensures ok ==> StoredUpTo(ps, wmem[..], Contents(sp), m.firstPage + m.totalPages)
    {
      if m.totalPaged == m.totalPages {
        StoreAll(m, ps, wmem[..], sp);
        ok := StoreWholeMap(process, m.firstWmem * PSIZE, m.vma.start, m.totalPages, sp);
      } else {
        ok := StorePagedPages(process, m, ps, sp);
      }
    }

    /**
     Gives every map its first slot, the number of paged pages before it, and stores its pages.
     Succeeds exactly when every map can be stored; then every paged page is in its slot.
     */
    method PopulateMemoryCopyInfo(process: Process, ghost ps: seq<Page>, ghost sp: AddressSpace) returns (ok: bool)
      requires Valid() && ps == pages[..] && sp == process.space
      requires Captured(Maps(), ps, sp) && wmem.Length == CountPaged(ps) * PSIZE
      modifies maps, wmem
      ensures ok <==> forall k: nat | k < mapsCount :: Storable(old(Maps())[k], ps)
      ensures ok ==> WmemSet(old(Maps()), Maps(), ps, mapsCount)
      ensures ok ==> StoredUpTo(ps, wmem[..], Contents(sp), |ps|)
    {
      hide Storing, Captured, StoredUpTo, WmemSet;
      ghost var ms := Maps();
      StoringStart(ms, ps, wmem[..], Contents(sp));
      var memoryIndex: nat := 0;
      var i := 0;
      while i < mapsCount
        invariant i <= mapsCount == |ms|
        invariant Storing(ms, Maps(), ps, wmem[..], Contents(sp), i, memoryIndex)
      {
        ok := StoreMap(process, i, memoryIndex, ms, ps, sp);
        if !ok { return; }
        memoryIndex := memoryIndex + maps[i].totalPaged;
        i := i + 1;
      }
      ok := true;
      StoringEnd(ms, Maps(), ps, wmem[..], Contents(sp), memoryIndex, process.space);
    }

    /** One round of the loop: the map's first slot, then its pages if it has any. */
    method StoreMap(process: Process, i: nat, memoryIndex: nat, ghost ms: seq<MapRec>, ghost ps: seq<Page>,
            ghost sp: AddressSpace)
      returns (ok: bool)
      requires Valid() && ps == pages[..] && sp == process.space && i < mapsCount == |ms|
      requires Captured(ms, ps, sp) && wmem.Length == CountPaged(ps) * PSIZE
      requires Storing(ms, Maps(), ps, wmem[..], Contents(sp), i, memoryIndex)
      modifies maps, wmem
      ensures ok <==> Storable(ms[i], ps)
      ensures ok ==> Storing(ms, Maps(), ps, wmem[..], Contents(sp), i + 1, memoryIndex + Maps()[i].totalPaged)
    {
      hide Storable, StoredUpTo, Captured, MapPages, CountPaged, Rank;
      StoreNext(ms, ps, sp, i);
      StoringSoFar(ms, Maps(), ps, wmem[..], Contents(sp), i, memoryIndex);
      var m := maps[i].(firstWmem := memoryIndex);
      StorableByPages(m, ms[i], ps);
      SameMapPages(m, ms[i], ps, sp);
      StoringMap(ms, Maps(), ps, i, m, memoryIndex);
      maps[i] := m;
      if m.totalPaged > 0 {
        ok := PopulateMemoryCopyInfoMap(process, m, ps, sp);
      } else {
        StoreNothing(m, ps, wmem[..], Contents(sp));
        ok := true;
      }
      if ok { StoringNext(ms, Maps(), ps, wmem[..], Contents(sp), i, memoryIndex); }
    }

    /** The heap is looked for from the front, the stack from the back. */
    method GetMapIndexByName(name: string, startLow: bool) returns (index: int)
      requires Valid()
      ensures -1 <= index < mapsCount
      ensures index >= 0 ==> maps[index].Named(name)
      ensures startLow && index >= 0 ==> index + 1 < mapsCount && !maps[index + 1].Named(name)
      ensures startLow && index < 0 ==>
        forall k | 0 <= k < mapsCount - 1 :: maps[k].Named(name) ==> maps[k + 1].Named(name)
      ensures startLow ==> forall k | 0 <= k < index :: maps[k].Named(name) ==> maps[k + 1].Named(name)
      ensures !startLow ==> forall k | index < k < mapsCount :: !maps[k].Named(name)
    {
      if startLow {
        var i := 0;
        while i < mapsCount
          invariant i <= mapsCount
          invariant forall k | 0 <= k < i && k < mapsCount - 1 :: maps[k].Named(name) ==> maps[k + 1].Named(name)
        {
          if maps[i].Named(name) && i < mapsCount - 1 && !maps[i + 1].Named(name) {
            return i;
          }
          i := i + 1;
        }
      } else {
        var i := mapsCount - 1;
        while i >= 0
          invariant -1 <= i < mapsCount
          invariant forall k | i < k < mapsCount :: !maps[k].Named(name)
        {
          if maps[i].Named(name) {
            return i;
          }
          i := i - 1;
        }
      }
      return -1;
    }

    /** The part of clear_soft_dirty_bits that resets the tracker's own counters. */
    method ClearCounters()
      requires Valid()
      modifies maps
      ensures |Maps()| == |old(Maps())|
      ensures forall i: nat | i < mapsCount :: Maps()[i] == Clean(old(Maps())[i])
    {
      ghost var ms := Maps();
      var i := 0;
      while i < mapsCount
        invariant i <= mapsCount
        invariant forall k: nat | k < i :: Maps()[k] == Clean(ms[k])
        invariant forall k: nat | i <= k < mapsCount :: Maps()[k] == ms[k]
      {
        maps[i] := maps[i].(softDirtyCount := 0, freedCount := 0, dirty := false);
        i := i + 1;
      }
    }
  }
}
