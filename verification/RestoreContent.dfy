/** Rewriting page contents: only the pages that the tracking reports, found in compact storage by rank. */
module RestoreContent {
  import opened Machine
  import opened Paging
  import opened Layout
  import opened Records
  import opened Storage
  import opened TrackedProcess
  import opened MemoryInfo
  import opened Diff

  // ---- Which pages need what, given the pages stored and the space as captured ----

  /** Stored pages that the capture shows soft-dirty or freed are written back. */
  ghost predicate Rewrite(paged: set<nat>, cap: AddressSpace, p: nat) {
    p in paged && p in cap && (cap[p].dirty || !cap[p].present)
  }

  /** How many of the first `n` pages from `start` on are written back. */
  ghost function RewriteCount(start: nat, n: nat, paged: set<nat>, cap: AddressSpace): (c: nat)
    ensures c <= n
  {
    if n == 0 then 0
    else RewriteCount(start, n - 1, paged, cap) + if Rewrite(paged, cap, start + n - 1) then 1 else 0
  }

  /**
   How many pages the restore of a map writes: all, if all are stored and at least 60 percent are counted
   as changed, and those that have to be written otherwise.
   */
  ghost function MapCount(m: MapRec, paged: set<nat>, cap: AddressSpace): nat {
    if (m.vma.prot.r || m.vma.prot.w) && m.totalPaged == m.totalPages
       && 10 * (m.softDirtyCount + m.freedCount) >= 6 * m.totalPages
    then m.totalPages
    else RewriteCount(m.vma.start, m.totalPages, paged, cap)
  }

  /** The same for the maps of a list that are not skipped. */
  ghost function ListCount(l: seq<MapRec>, n: nat, paged: set<nat>, cap: AddressSpace): nat
    requires n <= |l|
  {
    if n == 0 then 0
    else
      var m := l[n - 1];
      ListCount(l, n - 1, paged, cap)
      + if m.dirty && (m.vma.prot.r || m.vma.prot.w) then MapCount(m, paged, cap) else 0
  }

  /** Pages that had no frame and have one now are given back to the kernel. */
  ghost predicate Advise(paged: set<nat>, cap: AddressSpace, p: nat) {
    p !in paged && p in cap && cap[p].present
  }

  /** The kernel's promise for the pages of one map, about the contents to be restored. */
  ghost predicate TrackedIn(v: Vma, content: map<nat, PageData>, cap: AddressSpace) {
    forall p: nat | v.Holds(p) && p in content && p in cap && cap[p].data != content[p] ::
      cap[p].dirty || !cap[p].present
  }

  /** The records of map `m` in both captures are about the same pages, and say this about them. */
  ghost predicate RecordsShow(m: MapRec, ips: seq<Page>, fps: seq<Page>, paged: set<nat>, cap: AddressSpace) {
    && 0 <= m.firstPage && m.firstPage + m.totalPages <= |ips| == |fps|
    && m.totalPages == m.vma.Size()
    && forall x: nat | m.firstPage <= x < m.firstPage + m.totalPages ::
         && ips[x].addr == fps[x].addr == m.vma.start + (x - m.firstPage)
         && (ips[x].Paged() <==> ips[x].addr in paged)
         && fps[x].addr in cap
         && (fps[x].Paged() <==> cap[fps[x].addr].present)
         && (fps[x].Flagged() <==> cap[fps[x].addr].dirty || !cap[fps[x].addr].present)
  }

  /** The slots of map `m` hold `content`. */
  ghost predicate SlotsHold(m: MapRec, ips: seq<Page>, w: seq<bv8>, content: map<nat, PageData>) {
    && 0 <= m.firstPage && m.firstPage + m.totalPages <= |ips|
    && m.firstWmem == Rank(ips, m.firstPage)
    && m.totalPaged == CountPaged(PagesOfMap(m, ips))
    && |w| == CountPaged(ips) * PSIZE
    && StoredUpTo(ips, w, content, |ips|)
  }

  // ---- Writing pages back ----

  /** In `sp'`, the pages below `end` of the map at `start` that need it carry `content`; nothing else changed. */
  ghost predicate Written(sp: AddressSpace, sp': AddressSpace, start: nat, end: nat, paged: set<nat>,
          cap: AddressSpace, content: map<nat, PageData>) {
    && sp'.Keys == sp.Keys
    && forall p | p in sp ::
         if start <= p < end && Rewrite(paged, cap, p)
         then p in content && sp'[p] == Cell(sp[p].prot, content[p], true, true)
         else sp'[p] == sp[p]
  }

  /** Both ways of restoring map `m` end here: stored pages have their content, all other pages are untouched. */
  ghost predicate MapRestored(sp: AddressSpace, sp': AddressSpace, v: Vma, paged: set<nat>, content: map<nat,
          PageData>) {
    && sp'.Keys == sp.Keys
    && (forall p | p in sp :: sp'[p].prot == sp[p].prot && (sp'[p].present || sp'[p] == sp[p]))
    && forall p | p in sp ::
         if v.Holds(p) && p in paged then p in content && sp'[p].data == content[p] else sp'[p] == sp[p]
  }

  /** Page-by-page path: what is not rewritten had its content already. */
  lemma SlowPathRestores(sp: AddressSpace, sp': AddressSpace, v: Vma, paged: set<nat>, cap: AddressSpace,
          content: map<nat, PageData>)
    requires v.start <= v.end && Written(sp, sp', v.start, v.end, paged, cap, content)
    requires forall p | p in sp && v.Holds(p) :: p in cap && sp[p] == cap[p]
    requires TrackedIn(v, content, cap) && forall p | p in paged :: p in content
    ensures MapRestored(sp, sp', v, paged, content)
  {
    forall p | p in sp
      ensures sp'[p].prot == sp[p].prot && (sp'[p].present || sp'[p] == sp[p])
      ensures if v.Holds(p) && p in paged then p in content && sp'[p].data == content[p] else sp'[p] == sp[p]
    {
      if v.Holds(p) && p in paged && !Rewrite(paged, cap, p) {
        assert p in content && p in cap;
      }
    }
  }

  /** Whole-map path: every page of the map is stored, and every one is written. */
  lemma FastPathRestores(sp: AddressSpace, v: Vma, bytes: seq<bv8>, paged: set<nat>, content: map<nat, PageData>)
    requires v.start <= v.end && |bytes| == (v.end - v.start) * PSIZE
    requires forall p: nat | v.Holds(p) :: p in paged && p in content && Slot(bytes, p - v.start) == content[p]
    ensures MapRestored(sp, WritePages(sp, v.start, v.end - v.start, bytes), v, paged, content)
  {
  }

  /**
   The fast path refines the slow one: whichever the dirtiness threshold picks, the memory of the
   process has the same contents afterwards.
   */
  lemma FastEqualsSlow(sp: AddressSpace, slow: AddressSpace, v: Vma, bytes: seq<bv8>, paged: set<nat>,
          cap: AddressSpace, content: map<nat, PageData>)
    requires v.start <= v.end && |bytes| == (v.end - v.start) * PSIZE
    requires Written(sp, slow, v.start, v.end, paged, cap, content)
    requires forall p | p in sp && v.Holds(p) :: p in cap && sp[p] == cap[p]
    requires TrackedIn(v, content, cap) && forall p | p in paged :: p in content
    requires forall p: nat | v.Holds(p) :: p in paged && p in content && Slot(bytes, p - v.start) == content[p]
    ensures Contents(slow) == Contents(WritePages(sp, v.start, v.end - v.start, bytes))
  {
    hide Written;
    SlowPathRestores(sp, slow, v, paged, cap, content);
    FastPathRestores(sp, v, bytes, paged, content);
  }

  // ---- Coalescing pages to give back ----

  datatype Madvise = Madvise(page: nat, n: nat)
  {
    predicate Holds(p: nat) { page <= p < page + n }
  }

  ghost predicate Covered(runs: seq<Madvise>, p: nat) {
    exists k | 0 <= k < |runs| :: runs[k].Holds(p)
  }

  /**
   The runs recorded for the pages `start .. end`: in address order, at least one page apart, so
   maximal, and covering exactly the pages to give back.
   */
  ghost predicate Coalesced(runs: seq<Madvise>, start: nat, end: nat, paged: set<nat>, cap: AddressSpace) {
    && (forall k | 0 <= k < |runs| :: start <= runs[k].page && 0 < runs[k].n && runs[k].page + runs[k].n <= end)
    && (forall k, j | 0 <= k < j < |runs| :: runs[k].page + runs[k].n < runs[j].page)
    && (forall p: nat | start <= p < end :: Covered(runs, p) <==> Advise(paged, cap, p))
  }

  /** A run of `count` pages is open in front of page `end`. */
  ghost predicate Pending(runs: seq<Madvise>, start: nat, end: nat, count: nat, paged: set<nat>, cap: AddressSpace) {
    && start + count <= end
    && Coalesced(runs, start, end - count, paged, cap)
    && (forall p: nat | end - count <= p < end :: Advise(paged, cap, p))
    && (start < end - count ==> !Advise(paged, cap, end - count - 1))
  }

  lemma CoveredAppend(runs: seq<Madvise>, r: Madvise, p: nat)
    ensures Covered(runs + [r], p) <==> Covered(runs, p) || r.Holds(p)
  {
    if Covered(runs, p) {
      var k :| 0 <= k < |runs| && runs[k].Holds(p);
      assert (runs + [r])[k].Holds(p);
    }
    if r.Holds(p) { assert (runs + [r])[|runs|].Holds(p); }
  }

  /** The next page is to be given back: the open run grows, or a new one opens. */
  lemma PendingGrows(runs: seq<Madvise>, start: nat, end: nat, count: nat, paged: set<nat>, cap: AddressSpace)
    requires Pending(runs, start, end, count, paged, cap) && Advise(paged, cap, end)
    ensures Pending(runs, start, end + 1, count + 1, paged, cap)
  {
    hide Advise;
  }

  /** Closing the open run. */
  lemma PendingCloses(runs: seq<Madvise>, start: nat, end: nat, count: nat, paged: set<nat>, cap: AddressSpace)
    requires Pending(runs, start, end, count, paged, cap) && 0 < count
    ensures Coalesced(runs + [Madvise(end - count, count)], start, end, paged, cap)
  {
    hide Advise;
    var r := Madvise(end - count, count);
    forall p: nat | start <= p < end
      ensures Covered(runs + [r], p) <==> Advise(paged, cap, p)
    {
      CoveredAppend(runs, r, p);
      if Covered(runs, p) {
        var k :| 0 <= k < |runs| && runs[k].Holds(p);
      }
    }
    forall k | 0 <= k < |runs|
      ensures runs[k].page + runs[k].n < r.page
    {
      assert start <= runs[k].page && runs[k].page + runs[k].n <= r.page;
      assert !Covered(runs, r.page - 1);
      assert !runs[k].Holds(r.page - 1);
    }
  }

  /** The next page is not to be given back. */
  lemma CoalescedSkips(runs: seq<Madvise>, start: nat, end: nat, paged: set<nat>, cap: AddressSpace)
    requires Coalesced(runs, start, end, paged, cap) && start <= end && !Advise(paged, cap, end)
    ensures Coalesced(runs, start, end + 1, paged, cap)
    ensures Pending(runs, start, end + 1, 0, paged, cap)
  {
    hide Advise;
  }

  // ---- The two paths ----

  /** The next page does not have to be written. */
  lemma WrittenSkip(sp: AddressSpace, sp': AddressSpace, start: nat, end: nat, paged: set<nat>, cap: AddressSpace,
          content: map<nat, PageData>)
    requires Written(sp, sp', start, end, paged, cap, content) && !Rewrite(paged, cap, end)
    ensures Written(sp, sp', start, end + 1, paged, cap, content)
  {
    hide Rewrite;
  }

  /** The next page is written from its slot. */
  lemma WrittenStep(sp: AddressSpace, sp': AddressSpace, start: nat, end: nat, paged: set<nat>, cap: AddressSpace,
                    content: map<nat, PageData>, bytes: seq<bv8>)
    requires start <= end && Written(sp, sp', start, end, paged, cap, content) && Rewrite(paged, cap, end)
    requires |bytes| == PSIZE && end in content && bytes == content[end]
    ensures Written(sp, WriteBytes(sp', end * PSIZE, bytes), start, end + 1, paged, cap, content)
  {
    hide Rewrite;
    WriteBytesIsPages(sp', end, 1, bytes);
    assert Slot(bytes, 0) == bytes;
  }

  /** The first `r` bytes of `bytes` have been written from `addr` on. */
  ghost predicate Writing(sp: AddressSpace, sp': AddressSpace, addr: nat, bytes: seq<bv8>, r: nat) {
    r <= |bytes| && r <= INT_MAX && sp' == WriteBytes(sp, addr, bytes[..r])
  }

  lemma WritingStep(sp: AddressSpace, sp': AddressSpace, addr: nat, bytes: seq<bv8>, r: nat, more: nat)
    requires Writing(sp, sp', addr, bytes, r) && r + more <= |bytes| && r + more <= INT_MAX
    ensures Writing(sp, WriteBytes(sp', addr + r, bytes[r..][..more]), addr, bytes, r + more)
  {
    assert bytes[..r] + bytes[r..][..more] == bytes[..r + more];
    WriteBytesSplit(sp, addr, bytes[..r], bytes[r..][..more]);
  }

  /**
   Writes a whole map, as many short writes as it takes. The byte count is a 32-bit signed integer:
   a map of 2 GiB or more is never written completely.
   */
  method RestoreWholeMap(process: Process, start: nat, bytes: seq<bv8>) returns (ok: bool)
    requires forall p: nat :: Touches(p, start * PSIZE, |bytes|) ==> p in process.space
    modifies process`space, process`refusals
    ensures ok ==> process.space == WriteBytes(old(process.space), start * PSIZE, bytes)
    ensures ok ==> |bytes| <= INT_MAX
    ensures process.refusals >= old(process.refusals)
    ensures !ok ==> process.refusals > old(process.refusals) || |bytes| > INT_MAX
  {
    hide Touches;
    ghost var sp := process.space;
    var addr := start * PSIZE;
    var r, newR := 0, 1;
    WritingStart(sp, addr, bytes);
    while newR > 0 && r != |bytes|
      invariant newR > 0 ==> r >= 0 && Writing(sp, process.space, addr, bytes, r)
      invariant process.refusals >= old(process.refusals)
      invariant newR <= 0 ==> r < |bytes| && process.refusals > old(process.refusals)
      decreases if newR > 0 then |bytes| - r + 1 else 0
    {
      ghost var before := process.space;
      TouchesRest(addr, bytes, r);
      newR := process.PWrite(addr + r, bytes[r..]);
      if newR > INT_MAX - r {
        return false;
      }
      if newR > 0 { WritingStep(sp, before, addr, bytes, r, newR); }
      r := r + newR;
    }
    ok := r == |bytes|;
  }

  lemma WritingStart(sp: AddressSpace, addr: nat, bytes: seq<bv8>)
    ensures Writing(sp, sp, addr, bytes, 0)
    ensures forall sp': AddressSpace :: Writing(sp, sp', addr, bytes, |bytes|) ==> sp' == WriteBytes(sp, addr, bytes)
  {
    assert bytes[..|bytes|] == bytes;
    assert WriteBytes(sp, addr, []) == sp;
  }

  lemma TouchesRest(addr: nat, bytes: seq<bv8>, r: nat)
    requires r <= |bytes|
    ensures forall p: nat :: Touches(p, addr + r, |bytes[r..]|) ==> Touches(p, addr, |bytes|)
  {
  }

  /** The list of runs to be given back once everything is written. */
  class MadviseArray {
    var runs: seq<Madvise>

    constructor ()
      ensures runs == []
    {
      runs := [];
    }
  }

  /** What the records say about page `j` of a map. */
  lemma PageFacts(m: MapRec, ips: seq<Page>, fps: seq<Page>, paged: set<nat>, cap: AddressSpace, j: nat)
    requires RecordsShow(m, ips, fps, paged, cap) && j < m.totalPages
    ensures 0 <= m.firstPage && m.firstPage + j < |ips| == |fps|
    ensures ips[m.firstPage + j].addr == fps[m.firstPage + j].addr == m.vma.start + j
    ensures m.vma.start + j in cap
    ensures Advise(paged, cap, m.vma.start + j) <==> !ips[m.firstPage + j].Paged() && fps[m.firstPage + j].Paged()
    ensures Rewrite(paged, cap, m.vma.start + j) <==> ips[m.firstPage + j].Paged() && fps[m.firstPage + j].Flagged()
  {
    hide Page.Paged, Page.Flagged;
    assert ips[m.firstPage + j].addr == m.vma.start + j;
  }

  /** Where page `j` of a map is stored: behind the paged pages in front of it. */
  lemma PageSlot(m: MapRec, ips: seq<Page>, w: seq<bv8>, content: map<nat, PageData>, j: nat)
    requires SlotsHold(m, ips, w, content) && j < m.totalPages
    ensures 0 <= m.firstPage && m.firstPage + j < |ips|
    ensures Rank(ips, m.firstPage + j + 1) ==
        Rank(ips, m.firstPage + j) + (if ips[m.firstPage + j].Paged() then 1 else 0)
    ensures ips[m.firstPage + j].Paged() ==> Rank(ips, m.firstPage + j) < m.firstWmem + m.totalPaged
    ensures ips[m.firstPage + j].Paged() ==> StoredAt(ips, w, content, m.firstPage + j)
  {
    hide Rank, Page.Paged, StoredAt;
    var x: nat := m.firstPage + j;
    RankStep(ips, x);
    RankMonotone(ips, x + 1, m.firstPage + m.totalPages);
    RoomFor(ips, w, m.firstPage, m.totalPages);
  }

  /** The first `j` pages of a map have been dealt with. */
  ghost predicate PagesDone(sp: AddressSpace, sp': AddressSpace, runs: seq<Madvise>, start: nat, j: nat, count: nat,
          first: nat,
                            paged: set<nat>, cap: AddressSpace, content: map<nat, PageData>) {
    && Written(sp, sp', start, start + j, paged, cap, content)
    && Pending(runs, start, start + j, count, paged, cap)
    && (count > 0 ==> first == start + j - count)
  }

  lemma PagesDoneStart(sp: AddressSpace, start: nat, paged: set<nat>, cap: AddressSpace, content: map<nat, PageData>)
    ensures PagesDone(sp, sp, [], start, 0, 0, 0, paged, cap, content)
  {
  }

  lemma PagesDoneAdvise(sp: AddressSpace, sp': AddressSpace, runs: seq<Madvise>, start: nat, j: nat, count: nat,
          first: nat,
                        paged: set<nat>, cap: AddressSpace, content: map<nat, PageData>)
    requires PagesDone(sp, sp', runs, start, j, count, first, paged, cap, content) && Advise(paged, cap, start + j)
    ensures PagesDone(sp, sp', runs, start, j + 1, count + 1, if count == 0 then start + j else first,
                      paged, cap, content)
  {
    hide Written, Pending;
    PendingGrows(runs, start, start + j, count, paged, cap);
    WrittenSkip(sp, sp', start, start + j, paged, cap, content);
  }

  lemma PagesDoneClose(sp: AddressSpace, sp': AddressSpace, runs: seq<Madvise>, start: nat, j: nat, count: nat,
          first: nat,
                       paged: set<nat>, cap: AddressSpace, content: map<nat, PageData>)
    requires PagesDone(sp, sp', runs, start, j, count, first, paged, cap, content)
    ensures var all := if count > 0 then runs + [Madvise(first, count)] else runs;
      && Written(sp, sp', start, start + j, paged, cap, content)
      && Coalesced(all, start, start + j, paged, cap)
  {
    hide Written, Coalesced;
    if count > 0 { PendingCloses(runs, start, start + j, count, paged, cap); }
  }

  /** Page-by-page path: `runs` is what it adds to the list of runs to give back. */
  method RestorePages(process: Process, initial: MemInfo, final_: MemInfo, m: MapRec, madvises: MadviseArray,
                      ghost ips: seq<Page>, ghost fps: seq<Page>, ghost w: seq<bv8>,
                      ghost paged: set<nat>, ghost cap: AddressSpace, ghost content: map<nat, PageData>)
    returns (ok: bool, count: nat, ghost runs: seq<Madvise>)
    requires initial.Valid() && final_.Valid()
    requires ips == initial.pages[..] && fps == final_.pages[..] && w == initial.wmem[..]
    requires RecordsShow(m, ips, fps, paged, cap) && SlotsHold(m, ips, w, content) && Storable(m, ips)
    requires m.vma.start + m.totalPages == m.vma.end && process.space.Keys == cap.Keys &&
        m.firstWmem == Rank(ips, m.firstPage)
    modifies process`space, process`refusals, madvises
    ensures ok ==> Written(old(process.space), process.space, m.vma.start, m.vma.end, paged, cap, content)
    ensures ok ==> madvises.runs == old(madvises.runs) + runs
    ensures ok ==> Coalesced(runs, m.vma.start, m.vma.end, paged, cap)
    ensures count <= m.totalPages && process.refusals >= old(process.refusals)
    ensures ok ==> count == RewriteCount(m.vma.start, m.totalPages, paged, cap)
    ensures !ok ==> process.refusals > old(process.refusals)
  {
    hide RecordsShow, SlotsHold, Rewrite, Advise, Written, Pending, Coalesced, PagesDone, Rank, Touches, Storable;
    ghost var sp, start, runs0 := process.space, m.vma.start, madvises.runs;
    count, runs, ok := 0, [], true;
    var pagedIndex, countMadvise: nat, madviseStart: nat := -1, 0, 0;
    PagesDoneStart(sp, start, paged, cap, content);
    RecordsShape(m, ips, fps, paged, cap);
    var j := 0;
    while j < m.totalPages
      invariant count == RewriteCount(start, j, paged, cap)
      invariant j <= m.totalPages && count <= j && 0 <= m.firstPage && m.firstPage + m.totalPages <= |ips| == |fps|
      invariant m.firstWmem + pagedIndex + 1 == Rank(ips, m.firstPage + j) && process.space.Keys == cap.Keys
      invariant madvises.runs == runs0 + runs && process.refusals >= old(process.refusals) && -1 <= pagedIndex < j
      invariant PagesDone(sp, process.space, runs, start, j, countMadvise, madviseStart, paged, cap, content)
    {
      PageFacts(m, ips, fps, paged, cap, j);
      PageSlot(m, ips, w, content, j);
      var ip, fp := initial.pages[m.firstPage + j], final_.pages[m.firstPage + j];
      if ip.Paged() { pagedIndex := pagedIndex + 1; }
      assert ip.addr == fp.addr;
      if !ip.Paged() && fp.Paged() {
        PagesDoneAdvise(sp, process.space, runs, start, j, countMadvise, madviseStart, paged, cap, content);
        if countMadvise == 0 { madviseStart := ip.addr; }
        countMadvise := countMadvise + 1;
        j := j + 1;
        continue;
      }
      PagesDoneClose(sp, process.space, runs, start, j, countMadvise, madviseStart, paged, cap, content);
      if countMadvise > 0 {
        madvises.runs := madvises.runs + [Madvise(madviseStart, countMadvise)];
        runs := runs + [Madvise(madviseStart, countMadvise)];
        countMadvise := 0;
      }
      if !fp.softDirty && !fp.isFreed {
        PagesDoneSkip(sp, process.space, runs, start, j, madviseStart, paged, cap, content);
        j := j + 1;
        continue;
      }
      if !ip.Paged() && !fp.Paged() {
        PagesDoneSkip(sp, process.space, runs, start, j, madviseStart, paged, cap, content);
        j := j + 1;
        continue;
      }
      if pagedIndex == m.totalPaged {
        assert false;
      }
      OffsetFits(m, ips, j);
      assert 0 <= pagedIndex * PSIZE <= INT_MAX;
      var at := (m.firstWmem + pagedIndex) * PSIZE;
      assert StoredAt(ips, w, content, m.firstPage + j);
      PagesDoneWrite(sp, process.space, runs, start, j, madviseStart, paged, cap, content, w[at..at + PSIZE]);
      TouchesOne(ip.addr);
      var r := process.PWrite(ip.addr * PSIZE, initial.wmem[at..at + PSIZE]);
      if r != PSIZE {
        return false, count, runs;
      }
      count := count + 1;
      j := j + 1;
    }
    PagesDoneClose(sp, process.space, runs, start, j, countMadvise, madviseStart, paged, cap, content);
    if countMadvise > 0 {
      madvises.runs := madvises.runs + [Madvise(madviseStart, countMadvise)];
      runs := runs + [Madvise(madviseStart, countMadvise)];
    }
  }

  lemma PagesDoneSkip(sp: AddressSpace, sp': AddressSpace, runs: seq<Madvise>, start: nat, j: nat, first: nat,
                      paged: set<nat>, cap: AddressSpace, content: map<nat, PageData>)
    requires Written(sp, sp', start, start + j, paged, cap, content) && Coalesced(runs, start, start + j, paged, cap)
    requires !Advise(paged, cap, start + j) && !Rewrite(paged, cap, start + j)
    ensures PagesDone(sp, sp', runs, start, j + 1, 0, first, paged, cap, content)
  {
    hide Written, Coalesced;
    CoalescedSkips(runs, start, start + j, paged, cap);
    WrittenSkip(sp, sp', start, start + j, paged, cap, content);
  }

  lemma PagesDoneWrite(sp: AddressSpace, sp': AddressSpace, runs: seq<Madvise>, start: nat, j: nat, first: nat,
                       paged: set<nat>, cap: AddressSpace, content: map<nat, PageData>, bytes: seq<bv8>)
    requires Written(sp, sp', start, start + j, paged, cap, content) && Coalesced(runs, start, start + j, paged, cap)
    requires Rewrite(paged, cap, start + j) && start + j in content && bytes == content[start + j]
    ensures bytes[..PSIZE] == bytes
    ensures PagesDone(sp, WriteBytes(sp', (start + j) * PSIZE, bytes), runs, start, j + 1, 0, first, paged, cap,
        content)
  {
    hide Written, Coalesced;
    RewriteIsNotAdvise(paged, cap, start + j);
    CoalescedSkips(runs, start, start + j, paged, cap);
    WrittenStep(sp, sp', start, start + j, paged, cap, content, bytes);
  }

  /** The offset of a stored page from the first slot of its map is an int. */
  lemma OffsetFits(m: MapRec, ips: seq<Page>, j: nat)
    requires Storable(m, ips) && j < m.totalPages && 0 <= m.firstPage + j < |ips| && ips[m.firstPage + j].Paged()
    ensures j * PSIZE <= INT_MAX
  {
    hide Page.Paged;
    assert PagedIn(m, ips, j);
  }

  lemma TouchesOne(p: nat)
    ensures forall q: nat :: Touches(q, p * PSIZE, PSIZE) ==> q == p
  {
  }

  lemma RecordsShape(m: MapRec, ips: seq<Page>, fps: seq<Page>, paged: set<nat>, cap: AddressSpace)
    requires RecordsShow(m, ips, fps, paged, cap)
    ensures 0 <= m.firstPage && m.firstPage + m.totalPages <= |ips| == |fps|
    ensures m.totalPages == m.vma.Size()
  {
  }

  lemma RewriteIsNotAdvise(paged: set<nat>, cap: AddressSpace, p: nat)
    ensures !(Rewrite(paged, cap, p) && Advise(paged, cap, p))
  {
  }

  /** A map all of whose pages are stored: its slots are adjacent and hold it from the first page to the last. */
  lemma WholeMap(m: MapRec, ips: seq<Page>, fps: seq<Page>, w: seq<bv8>, paged: set<nat>, cap: AddressSpace,
          content: map<nat, PageData>)
    requires RecordsShow(m, ips, fps, paged, cap) && SlotsHold(m, ips, w, content) && m.totalPaged == m.totalPages
    requires m.vma.start <= m.vma.end
    ensures 0 <= m.firstWmem && (m.firstWmem + m.totalPages) * PSIZE <= |w|
    ensures var bytes := w[m.firstWmem * PSIZE..(m.firstWmem + m.totalPages) * PSIZE];
      forall p: nat | m.Holds(p) :: p in paged && p in content && Slot(bytes, p - m.vma.start) == content[p]
    ensures forall p: nat | m.Holds(p) :: p in cap && !Advise(paged, cap, p)
  {
    hide Page.Paged, Page.Flagged, Rank;
    RecordsShape(m, ips, fps, paged, cap);
    var own := PagesOfMap(m, ips);
    CountPagedBounds(own);
    RoomFor(ips, w, m.firstPage, m.totalPages);
    var bytes := w[m.firstWmem * PSIZE..(m.firstWmem + m.totalPages) * PSIZE];
    forall p: nat | m.Holds(p)
      ensures p in paged && p in content && Slot(bytes, p - m.vma.start) == content[p]
      ensures p in cap && !Advise(paged, cap, p)
    {
      var j := p - m.vma.start;
      PageFacts(m, ips, fps, paged, cap, j);
      assert own[j] == ips[m.firstPage + j];
      WholeMapSlot(m, ips, w, content, j);
    }
  }

  lemma SlotOfPart(w: seq<bv8>, first: nat, n: nat, j: nat)
    requires j < n && (first + n) * PSIZE <= |w|
    ensures Slot(w[first * PSIZE..(first + n) * PSIZE], j) == Slot(w, first + j)
  {
    var a, b := first * PSIZE, j * PSIZE;
    assert (first + n) * PSIZE == a + n * PSIZE && (j + 1) * PSIZE <= n * PSIZE;
    var part := w[a..a + n * PSIZE];
    forall k | 0 <= k < PSIZE
      ensures Slot(part, j)[k] == Slot(w, first + j)[k]
    {
      assert Slot(part, j)[k] == part[b + k] == w[a + b + k];
    }
  }

  lemma AllPaged(m: MapRec, ips: seq<Page>)
    requires 0 <= m.firstPage && m.firstPage + m.totalPages <= |ips|
    requires CountPaged(PagesOfMap(m, ips)) == m.totalPages
    ensures forall i | m.firstPage <= i < m.firstPage + m.totalPages :: ips[i].Paged()
  {
    hide Page.Paged, CountPaged;
    var own := PagesOfMap(m, ips);
    CountPagedBounds(own);
    assert forall i | m.firstPage <= i < m.firstPage + m.totalPages :: ips[i] == own[i - m.firstPage];
  }

  lemma WholeMapSlot(m: MapRec, ips: seq<Page>, w: seq<bv8>, content: map<nat, PageData>, j: nat)
    requires SlotsHold(m, ips, w, content) && j < m.totalPages == m.totalPaged
    requires 0 <= m.firstWmem && (m.firstWmem + m.totalPages) * PSIZE <= |w|
    ensures var x: nat, bytes := m.firstPage + j, w[m.firstWmem * PSIZE..(m.firstWmem + m.totalPages) * PSIZE];
      ips[x].addr in content && Slot(bytes, j) == content[ips[x].addr]
  {
    hide Page.Paged, Rank, CountPaged, Slot;
    AllPaged(m, ips);
    RunRank(ips, m.firstPage, j);
    assert StoredAt(ips, w, content, m.firstPage + j);
    SlotOfPart(w, m.firstWmem, m.totalPages, j);
  }

  /** Everything known about a map that is to be restored. */
  ghost predicate Ready(m: MapRec, ips: seq<Page>, fps: seq<Page>, w: seq<bv8>, paged: set<nat>, cap: AddressSpace,
          content: map<nat, PageData>) {
    && m.vma.start < m.vma.end && Storable(m, ips)
    && RecordsShow(m, ips, fps, paged, cap) && SlotsHold(m, ips, w, content) && TrackedIn(m.vma, content, cap)
  }

  // ---- Runs that are too long ----

  /** The first number of pages whose size is not an int. */
  const LONG: nat := 0x8_0000

  predicate Short(runs: seq<Madvise>) {
    forall k | 0 <= k < |runs| :: runs[k].n * PSIZE <= INT_MAX
  }

  /** So many adjacent pages of the mapping are to be given back that their size is not an int. */
  ghost predicate LongRunAt(v: Vma, paged: set<nat>, cap: AddressSpace, a: nat) {
    && v.start <= a && a + LONG <= v.end
    && forall p: nat | a <= p < a + LONG :: Advise(paged, cap, p)
  }

  ghost predicate LongRunIn(v: Vma, paged: set<nat>, cap: AddressSpace) {
    exists a: nat :: LongRunAt(v, paged, cap, a)
  }

  lemma RunsApart(runs: seq<Madvise>, v: Vma, paged: set<nat>, cap: AddressSpace, i: nat, k: nat, p: nat)
    requires Coalesced(runs, v.start, v.end, paged, cap) && i < |runs| && k < |runs| && 0 < p
    requires runs[i].Holds(p) && runs[k].Holds(p - 1)
    ensures i == k
  {
    hide Advise;
  }

  /** Runs are apart, so one run covers all of a stretch of covered pages. */
  lemma {:induction false} RunGoesOn(runs: seq<Madvise>, v: Vma, paged: set<nat>, cap: AddressSpace, k: nat, a: nat,
          j: nat)
    requires Coalesced(runs, v.start, v.end, paged, cap) && k < |runs| && runs[k].Holds(a) && a + j < v.end
    requires forall p: nat | a <= p <= a + j :: Advise(paged, cap, p)
    ensures runs[k].Holds(a + j)
  {
    hide Advise;
    if j > 0 {
      RunGoesOn(runs, v, paged, cap, k, a, j - 1);
      CoveredWithin(runs, v.start, v.end, paged, cap, a + j);
      assert v.start <= runs[k].page;
      var i :| 0 <= i < |runs| && runs[i].Holds(a + j);
      RunsApart(runs, v, paged, cap, i, k, a + j);
    }
  }

  /** A recorded run is too long exactly if that many adjacent pages of its map are to be given back. */
  lemma LongRunShows(runs: seq<Madvise>, v: Vma, paged: set<nat>, cap: AddressSpace)
    requires Coalesced(runs, v.start, v.end, paged, cap)
    ensures Short(runs) <==> !LongRunIn(v, paged, cap)
  {
    hide Advise, Coalesced;
    if !Short(runs) {
      var k :| 0 <= k < |runs| && runs[k].n * PSIZE > INT_MAX;
      var a := runs[k].page;
      forall p: nat | a <= p < a + LONG
        ensures Advise(paged, cap, p)
      {
        assert runs[k].Holds(p);
        CoveredWithin(runs, v.start, v.end, paged, cap, p);
      }
      RunWithin(runs, v, paged, cap, k);
      assert LongRunAt(v, paged, cap, a);
    }
    if LongRunIn(v, paged, cap) {
      var a: nat :| LongRunAt(v, paged, cap, a);
      CoveredWithin(runs, v.start, v.end, paged, cap, a);
      var k :| 0 <= k < |runs| && runs[k].Holds(a);
      RunGoesOn(runs, v, paged, cap, k, a, LONG - 1);
      assert runs[k].n >= LONG;
    }
  }

  lemma RunWithin(runs: seq<Madvise>, v: Vma, paged: set<nat>, cap: AddressSpace, k: nat)
    requires Coalesced(runs, v.start, v.end, paged, cap) && k < |runs|
    ensures v.start <= runs[k].page && runs[k].page + runs[k].n <= v.end
  {
  }

  /** One of the first `n` maps that are not skipped has too long a run. */
  ghost predicate LongRun(l: seq<MapRec>, n: nat, paged: set<nat>, cap: AddressSpace) {
    exists k: nat | k < n && k < |l| :: Todo(l[k]) && LongRunIn(l[k].vma, paged, cap)
  }

  lemma LongRunStep(l: seq<MapRec>, n: nat, paged: set<nat>, cap: AddressSpace)
    requires n < |l|
    ensures LongRun(l, n + 1, paged, cap) <==>
        LongRun(l, n, paged, cap) || (Todo(l[n]) && LongRunIn(l[n].vma, paged, cap))
  {
    hide Todo, LongRunIn;
  }

  lemma ShortConcat(a: seq<Madvise>, b: seq<Madvise>)
    ensures Short(a + b) <==> Short(a) && Short(b)
  {
    if Short(a + b) {
      forall k | 0 <= k < |a|
        ensures a[k].n * PSIZE <= INT_MAX
      {
        assert (a + b)[k] == a[k];
      }
      forall k | 0 <= k < |b|
        ensures b[k].n * PSIZE <= INT_MAX
      {
        assert (a + b)[|a| + k] == b[k];
      }
    }
  }

  lemma NothingToAdvise(start: nat, end: nat, paged: set<nat>, cap: AddressSpace)
    requires forall p: nat | start <= p < end :: !Advise(paged, cap, p)
    ensures Coalesced([], start, end, paged, cap)
  {
  }

  lemma HeldAreTouched(v: Vma, cap: AddressSpace)
    requires v.start <= v.end && forall p: nat | v.Holds(p) :: p in cap
    ensures forall p: nat | Touches(p, v.start * PSIZE, (v.end - v.start) * PSIZE) :: p in cap
  {
    forall p: nat | Touches(p, v.start * PSIZE, (v.end - v.start) * PSIZE)
      ensures p in cap
    {
      assert v.Holds(p);
    }
  }

  /**
   Restores one map: whole, if every page of it is stored and at least 60 percent of them changed,
   page by page otherwise. Either way the stored pages get their content back.
   */
  method RestoreSoftDirtyMemoryMap(process: Process, initial: MemInfo, final_: MemInfo, m: MapRec,
          madvises: MadviseArray,
                                   ghost ips: seq<Page>, ghost fps: seq<Page>, ghost w: seq<bv8>,
                                   ghost paged: set<nat>, ghost cap: AddressSpace, ghost content: map<nat, PageData>)
    returns (ok: bool, count: nat, ghost runs: seq<Madvise>)
    requires initial.Valid() && final_.Valid()
    requires ips == initial.pages[..] && fps == final_.pages[..] && w == initial.wmem[..]
    requires Ready(m, ips, fps, w, paged, cap, content) && forall p | p in paged :: p in content
    requires process.space.Keys == cap.Keys
    requires forall p | p in process.space && m.vma.Holds(p) :: process.space[p] == cap[p]
    modifies process`space, process`refusals, madvises
    ensures ok ==> MapRestored(old(process.space), process.space, m.vma, paged, content)
    ensures ok ==> madvises.runs == old(madvises.runs) + runs
    ensures ok ==> Coalesced(runs, m.vma.start, m.vma.end, paged, cap)
    ensures count <= m.totalPages && process.refusals >= old(process.refusals)
    ensures ok ==> count == MapCount(m, paged, cap)
    ensures !ok ==> process.refusals > old(process.refusals)
  {
    hide RecordsShow, SlotsHold, TrackedIn, Written, MapRestored, Coalesced, Advise, Touches, Slot;
    ghost var sp := process.space;
    RecordsShape(m, ips, fps, paged, cap);
    FirstSlot(m, ips, w, content);
    if && (m.vma.prot.w || m.vma.prot.r)
       && (m.softDirtyCount + m.freedCount) as real >= 0.6 * m.totalPages as real
       && m.totalPaged == m.totalPages
    {
      WholeMap(m, ips, fps, w, paged, cap, content);
      var bytes := initial.wmem[m.firstWmem * PSIZE..(m.firstWmem + m.totalPages) * PSIZE];
      HeldAreTouched(m.vma, cap);
      ok := RestoreWholeMap(process, m.vma.start, bytes);
      count, runs := m.totalPages, [];
      NothingToAdvise(m.vma.start, m.vma.end, paged, cap);
      WriteBytesIsPages(sp, m.vma.start, m.totalPages, bytes);
      FastPathRestores(sp, m.vma, bytes, paged, content);
      return;
    }
    ok, count, runs := RestorePages(process, initial, final_, m, madvises, ips, fps, w, paged, cap, content);
    if ok {
      SlowPathRestores(sp, process.space, m.vma, paged, cap, content);
    }
  }

  lemma FirstSlot(m: MapRec, ips: seq<Page>, w: seq<bv8>, content: map<nat, PageData>)
    requires SlotsHold(m, ips, w, content)
    ensures 0 <= m.firstPage <= |ips| && m.firstWmem == Rank(ips, m.firstPage)
  {
  }

  // ---- All modified maps ----

  /** The maps of the list that are not skipped. */
  predicate Todo(m: MapRec) { m.dirty && m.Accessible() }

  /** One of the first `n` maps that are not skipped holds the page. */
  ghost predicate TodoHolds(l: seq<MapRec>, n: nat, p: nat) {
    exists k: nat | k < n && k < |l| :: Todo(l[k]) && l[k].Holds(p)
  }

  function PagesIn(l: seq<MapRec>, n: nat): nat
    requires n <= |l|
  {
    if n == 0 then 0 else PagesIn(l, n - 1) + l[n - 1].totalPages
  }

  /** The first `n` maps have been restored; `runs` covers exactly their pages that are to be given back. */
  ghost predicate MapsDone(l: seq<MapRec>, n: nat, cap: AddressSpace, sp: AddressSpace, runs: seq<Madvise>,
                           paged: set<nat>, content: map<nat, PageData>) {
    && sp.Keys == cap.Keys
    && (forall p | p in cap :: sp[p].prot == cap[p].prot && (sp[p].present || sp[p] == cap[p]))
    && (forall p | p in cap ::
          if TodoHolds(l, n, p) && p in paged then p in content && sp[p].data == content[p] else sp[p] == cap[p])
    && (forall p: nat :: Covered(runs, p) <==> TodoHolds(l, n, p) && Advise(paged, cap, p))
  }

  lemma TodoHoldsStep(l: seq<MapRec>, n: nat, p: nat)
    requires n < |l|
    ensures TodoHolds(l, n + 1, p) <==> TodoHolds(l, n, p) || (Todo(l[n]) && l[n].Holds(p))
  {
    hide Todo;
  }

  lemma MapsDoneSkip(l: seq<MapRec>, n: nat, cap: AddressSpace, sp: AddressSpace, runs: seq<Madvise>,
                     paged: set<nat>, content: map<nat, PageData>)
    requires MapsDone(l, n, cap, sp, runs, paged, content) && n < |l| && !Todo(l[n])
    ensures MapsDone(l, n + 1, cap, sp, runs, paged, content)
  {
    hide Todo, Advise, Covered;
    forall p: nat
      ensures TodoHolds(l, n + 1, p) <==> TodoHolds(l, n, p)
    {
      TodoHoldsStep(l, n, p);
    }
  }

  lemma CoveredConcat(a: seq<Madvise>, b: seq<Madvise>, p: nat)
    ensures Covered(a + b, p) <==> Covered(a, p) || Covered(b, p)
  {
    if Covered(a, p) {
      var k :| 0 <= k < |a| && a[k].Holds(p);
      assert (a + b)[k].Holds(p);
    }
    if Covered(b, p) {
      var k :| 0 <= k < |b| && b[k].Holds(p);
      assert (a + b)[|a| + k].Holds(p);
    }
  }

  /** A map that comes later holds none of the pages dealt with so far. */
  lemma NotYetDone(l: seq<MapRec>, n: nat, p: nat)
    requires Sorted(Vmas(l)) && n < |l| && l[n].Holds(p)
    ensures !TodoHolds(l, n, p)
  {
    hide Todo;
    forall k: nat | k < n
      ensures !l[k].Holds(p)
    {
      Ordered(l, k, n);
    }
  }

  lemma CoveredWithin(runs: seq<Madvise>, start: nat, end: nat, paged: set<nat>, cap: AddressSpace, p: nat)
    requires Coalesced(runs, start, end, paged, cap)
    ensures Covered(runs, p) <==> start <= p < end && Advise(paged, cap, p)
  {
    hide Advise;
  }

  lemma MapsDoneStep(l: seq<MapRec>, n: nat, cap: AddressSpace, sp: AddressSpace, sp': AddressSpace, runs: seq<Madvise>,
                     more: seq<Madvise>, paged: set<nat>, content: map<nat, PageData>)
    requires Sorted(Vmas(l)) && n < |l| && Todo(l[n])
    requires MapsDone(l, n, cap, sp, runs, paged, content)
    requires MapRestored(sp, sp', l[n].vma, paged, content)
    requires Coalesced(more, l[n].vma.start, l[n].vma.end, paged, cap)
    ensures MapsDone(l, n + 1, cap, sp', runs + more, paged, content)
  {
    hide Todo, Advise, Covered, Coalesced, Sorted, TodoHolds;
    forall p: nat
      ensures TodoHolds(l, n + 1, p) <==> TodoHolds(l, n, p) || l[n].Holds(p)
      ensures l[n].Holds(p) ==> !TodoHolds(l, n, p)
      ensures Covered(runs + more, p) <==> TodoHolds(l, n + 1, p) && Advise(paged, cap, p)
    {
      TodoHoldsStep(l, n, p);
      if l[n].Holds(p) { NotYetDone(l, n, p); }
      CoveredConcat(runs, more, p);
      CoveredWithin(more, l[n].vma.start, l[n].vma.end, paged, cap, p);
    }
  }

  lemma MapsDoneFrame(l: seq<MapRec>, n: nat, cap: AddressSpace, sp: AddressSpace, runs: seq<Madvise>,
                      paged: set<nat>, content: map<nat, PageData>)
    requires Sorted(Vmas(l)) && n < |l| && MapsDone(l, n, cap, sp, runs, paged, content)
    ensures sp.Keys == cap.Keys
    ensures forall p | p in sp && l[n].vma.Holds(p) :: sp[p] == cap[p]
  {
    hide Todo, Advise, Covered, Sorted, TodoHolds;
    forall p | p in sp && l[n].vma.Holds(p)
      ensures sp[p] == cap[p]
    {
      NotYetDone(l, n, p);
    }
  }

  lemma MapsDoneStart(l: seq<MapRec>, cap: AddressSpace, paged: set<nat>, content: map<nat, PageData>)
    ensures MapsDone(l, 0, cap, cap, [], paged, content)
  {
  }

  /** The first `n` runs have been given back; the order in which that is done does not show. */
  ghost predicate GivenBack(sp: AddressSpace, sp': AddressSpace, runs: seq<Madvise>, n: nat) {
    && n <= |runs| && sp'.Keys == sp.Keys
    && forall p | p in sp ::
         sp'[p] == if Covered(runs[..n], p) then Cell(sp[p].prot, ZeroPage(), false, false) else sp[p]
  }

  lemma GivenBackStep(sp: AddressSpace, sp': AddressSpace, runs: seq<Madvise>, n: nat)
    requires GivenBack(sp, sp', runs, n) && n < |runs|
    ensures GivenBack(sp, Advised(sp', runs[n].page, runs[n].n), runs, n + 1)
  {
    hide Covered;
    assert runs[..n + 1] == runs[..n] + [runs[n]];
    forall p | p in sp
      ensures Covered(runs[..n + 1], p) <==> Covered(runs[..n], p) || runs[n].Holds(p)
    {
      CoveredAppend(runs[..n], runs[n], p);
    }
  }

  /** What the whole step leaves behind, page by page. */
  ghost predicate ContentRestored(l: seq<MapRec>, cap: AddressSpace, sp: AddressSpace, paged: set<nat>,
          content: map<nat, PageData>) {
    && sp.Keys == cap.Keys
    && (forall p | p in cap :: sp[p].prot == cap[p].prot)
    && (forall p | p in cap ::
          if TodoHolds(l, |l|, p) && p in paged
          then p in content && sp[p].data == content[p] && (sp[p].present || sp[p] == cap[p])
          else if TodoHolds(l, |l|, p) && Advise(paged, cap, p)
          then sp[p] == Cell(cap[p].prot, ZeroPage(), false, false)
          else sp[p] == cap[p])
  }

  lemma ContentIsRestored(l: seq<MapRec>, cap: AddressSpace, mid: AddressSpace, sp: AddressSpace, runs: seq<Madvise>,
                          paged: set<nat>, content: map<nat, PageData>)
    requires MapsDone(l, |l|, cap, mid, runs, paged, content) && GivenBack(mid, sp, runs, |runs|)
    ensures ContentRestored(l, cap, sp, paged, content)
  {
    hide Covered, TodoHolds;
    assert runs[..|runs|] == runs;
  }

  lemma RunIsMapped(l: seq<MapRec>, n: nat, cap: AddressSpace, sp: AddressSpace, runs: seq<Madvise>,
                    paged: set<nat>, content: map<nat, PageData>, k: nat)
    requires MapsDone(l, n, cap, sp, runs, paged, content) && k < |runs|
    ensures forall p: nat :: InRange(p, runs[k].page, runs[k].n) ==> p in sp
  {
    hide TodoHolds;
    forall p: nat | InRange(p, runs[k].page, runs[k].n)
      ensures p in sp
    {
      assert runs[k].Holds(p);
      assert Covered(runs, p);
    }
  }

  /**
   Gives the recorded runs back to the kernel, after everything has been written. The size of a run is
   a product of two ints.
   */
  method GiveBack(process: Process, madvises: MadviseArray, ghost runs: seq<Madvise>) returns (ok: bool)
    requires runs == madvises.runs
    requires forall k, p: nat | 0 <= k < |runs| && InRange(p, runs[k].page, runs[k].n) :: p in process.space
    modifies process`space
    ensures ok <==> Short(runs)
    ensures ok ==> GivenBack(old(process.space), process.space, runs, |runs|)
  {
    hide GivenBack;
    ghost var sp := process.space;
    GivenBackStart(sp, runs);
    var i := 0;
    while i < |madvises.runs|
      invariant i <= |runs| == |madvises.runs| && madvises.runs == runs
      invariant forall k | 0 <= k < i :: runs[k].n * PSIZE <= INT_MAX
      invariant GivenBack(sp, process.space, runs, i) && process.space.Keys == sp.Keys
    {
      if PSIZE * madvises.runs[i].n > INT_MAX {
        return false;
      }
      GivenBackStep(sp, process.space, runs, i);
      process.MadviseDontneed(madvises.runs[i].page, madvises.runs[i].n);
      i := i + 1;
    }
    return true;
  }

  lemma GivenBackStart(sp: AddressSpace, runs: seq<Madvise>)
    ensures GivenBack(sp, sp, runs, 0)
  {
  }

  /**
   Restores the contents of the modified maps. Every stored page of a map that is not skipped has its
   content again, every page that had no frame reads as zero, and no other page is touched. It fails if
   a write is refused, and if a run to be given back is too long for its size to be an int.
   */
  method RestoreSoftDirtyMemory(process: Process, initial: MemInfo, final_: MemInfo, d: ProcessMemDiff,
                                ghost ips: seq<Page>, ghost fps: seq<Page>, ghost w: seq<bv8>,
                                ghost paged: set<nat>, ghost cap: AddressSpace, ghost content: map<nat, PageData>)
    returns (ok: bool, countRestored: nat)
    requires initial.Valid() && final_.Valid() && process.space == cap
    requires ips == initial.pages[..] && fps == final_.pages[..] && w == initial.wmem[..]
    requires Sorted(Vmas(d.modified)) && forall p | p in paged :: p in content
    requires forall k: nat | k < |d.modified| && Todo(d.modified[k]) ::
        Ready(d.modified[k], ips, fps, w, paged, cap, content)
    requires PagesIn(d.modified, |d.modified|) <= initial.pagesCount
    modifies process`space, process`refusals
    ensures process.refusals >= old(process.refusals)
    ensures LongRun(d.modified, |d.modified|, paged, cap) ==> !ok
    ensures !ok ==> process.refusals > old(process.refusals) || LongRun(d.modified, |d.modified|, paged, cap)
    ensures ok ==> ContentRestored(d.modified, cap, process.space, paged, content)
    ensures countRestored <= initial.pagesCount
    ensures ok ==> countRestored == ListCount(d.modified, |d.modified|, paged, cap)
  {
    hide MapCount, Sorted, Ready, MapsDone, Coalesced, MapRestored, Todo, ContentRestored, GivenBack, LongRun,
      LongRunIn, Short;
    ghost var l := d.modified;
    var madvises := new MadviseArray();
    ghost var runs: seq<Madvise> := [];
    ok, countRestored := true, 0;
    MapsDoneStart(l, cap, paged, content);
    NoLongRun(l, paged, cap);
    var i := 0;
    while i < |d.modified|
      invariant i <= |l| == |d.modified| && d.modified == l && countRestored <= PagesIn(l, i) && madvises.runs == runs
      invariant MapsDone(l, i, cap, process.space, runs, paged, content) && process.refusals >= old(process.refusals)
      invariant Short(runs) <==> !LongRun(l, i, paged, cap)
      invariant countRestored == ListCount(l, i, paged, cap)
    {
      var m := d.modified[i];
      PagesInStep(l, i);
      LongRunStep(l, i, paged, cap);
      if !m.dirty || (!m.vma.prot.r && !m.vma.prot.w) {
        SkippedIsNotTodo(m);
        MapsDoneSkip(l, i, cap, process.space, runs, paged, content);
        i := i + 1;
        continue;
      }
      TodoOtherwise(m);
      MapsDoneFrame(l, i, cap, process.space, runs, paged, content);
      ghost var sp := process.space;
      var count;
      ghost var more;
      ok, count, more := RestoreSoftDirtyMemoryMap(process, initial, final_, m, madvises, ips, fps, w, paged, cap,
          content);
      countRestored := countRestored + count;
      if !ok { return; }
      LongRunShows(more, m.vma, paged, cap);
      ShortConcat(runs, more);
      MapsDoneStep(l, i, cap, sp, process.space, runs, more, paged, content);
      runs := runs + more;
      i := i + 1;
    }
    forall k: nat | k < |runs|
      ensures forall p: nat :: InRange(p, runs[k].page, runs[k].n) ==> p in process.space
    {
      RunIsMapped(l, |l|, cap, process.space, runs, paged, content, k);
    }
    ghost var mid := process.space;
    ok := GiveBack(process, madvises, runs);
    if ok { ContentIsRestored(l, cap, mid, process.space, runs, paged, content); }
    assert countRestored <= initial.pagesCount;
  }

  lemma NoLongRun(l: seq<MapRec>, paged: set<nat>, cap: AddressSpace)
    ensures Short([]) && !LongRun(l, 0, paged, cap)
  {
  }

  lemma {:induction false} PagesInStep(l: seq<MapRec>, i: nat)
    requires i < |l|
    ensures PagesIn(l, i + 1) == PagesIn(l, i) + l[i].totalPages
    ensures PagesIn(l, i + 1) <= PagesIn(l, |l|)
    decreases |l| - i
  {
    if i + 1 < |l| { PagesInStep(l, i + 1); }
  }

  lemma SkippedIsNotTodo(m: MapRec)
    requires !m.dirty || (!m.vma.prot.r && !m.vma.prot.w)
    ensures !Todo(m)
  {
  }

  lemma TodoOtherwise(m: MapRec)
    requires m.dirty && (m.vma.prot.r || m.vma.prot.w)
    ensures Todo(m)
  {
  }
}
