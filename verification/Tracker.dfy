/** Checkpoint and restore of the tracked process. */
module Tracking {
  import opened Machine
  import opened Paging
  import opened Layout
  import opened Records
  import opened Storage
  import opened TrackedProcess
  import opened MemoryInfo
  import opened Diff
  import opened RestoreLayout
  import opened RestoreContent

  // ---- What a checkpoint leaves behind ----

  predicate NoDirt(m: MapRec) { m.softDirtyCount == 0 && m.freedCount == 0 && !m.dirty }

  /** Map `i` of a snapshot: its counters are clear, and it knows its pages and their slots. */
  ghost predicate SnapshotMap(ms: seq<MapRec>, ps: seq<Page>, i: nat)
    requires i < |ms|
  {
    && NoDirt(ms[i]) && IndexedAt(ms, i) && Storable(ms[i], ps)
    && 0 <= ms[i].firstPage && ms[i].firstPage + ms[i].totalPages <= |ps|
    && ms[i].firstWmem == Rank(ps, ms[i].firstPage)
    && ms[i].totalPaged == CountPaged(PagesOfMap(ms[i], ps))
  }

  /** Page record `x` of a snapshot; a page without a frame reads as zero and is not stored. */
  ghost predicate SnapshotPage(ms: seq<MapRec>, ps: seq<Page>, content: map<nat, PageData>, x: nat)
    requires x < |ps| == Total(Vmas(ms))
  {
    && ps[x].addr == PagesOf(Vmas(ms))[x] && ps[x].addr in content
    && (!ps[x].Paged() ==> content[ps[x].addr] == ZeroPage())
  }

  /** The map table, page table and slots of a snapshot of `content`. */
  ghost predicate Snapshot(ms: seq<MapRec>, ps: seq<Page>, w: seq<bv8>, content: map<nat, PageData>) {
    && Sorted(Vmas(ms)) && |ps| == Total(Vmas(ms))
    && (forall i: nat | i < |ms| :: SnapshotMap(ms, ps, i))
    && (forall x: nat | x < |ps| :: SnapshotPage(ms, ps, content, x))
    && |w| == CountPaged(ps) * PSIZE && StoredUpTo(ps, w, content, |ps|)
  }

  /** The tables are those of the memory `taken`: they show its pages, and which of them have a frame. */
  ghost predicate TakenFrom(ms: seq<MapRec>, ps: seq<Page>, taken: AddressSpace) {
    && Describes(Vmas(ms), taken)
    && forall x: nat | x < |ps| :: ps[x].addr in taken && (ps[x].Paged() <==> taken[ps[x].addr].present)
  }

  /** The pages a snapshot stores. */
  ghost function PagedSet(ps: seq<Page>): set<nat> {
    set x | 0 <= x < |ps| && ps[x].Paged() :: ps[x].addr
  }

  /** The content of every page of a readable or writable map. */
  ghost predicate Same(ms: seq<MapRec>, content: map<nat, PageData>, now: map<nat, PageData>) {
    forall i, p: nat | 0 <= i < |ms| && ms[i].Accessible() && ms[i].Holds(p) ::
      p in content && p in now && now[p] == content[p]
  }

  /**
   A process restored to a snapshot: the layout, the protections, and the contents of every readable or
   writable map.
   */
  ghost predicate Restored(ms: seq<MapRec>, content: map<nat, PageData>, sp: AddressSpace) {
    Describes(Vmas(ms), sp) && Same(ms, content, Contents(sp))
  }

  // ---- Captures ----

  /** Every record of a capture shows the page that the layout puts at its index. */
  lemma CapturedAt(ms: seq<MapRec>, ps: seq<Page>, sp: AddressSpace, x: nat)
    requires Captured(ms, ps, sp) && x < |ps|
    ensures ps[x].addr == PagesOf(Vmas(ms))[x] && ps[x].addr in sp
    ensures ps[x].Paged() <==> sp[ps[x].addr].present
    ensures ps[x].softDirty <==> sp[ps[x].addr].dirty
    ensures ps[x].isFreed <==> Freed(sp[ps[x].addr])
  {
    hide Sorted, Counted, Freed, Page.Paged;
    var vs := Vmas(ms);
    var i, j := OwnerUpTo(vs, |vs|, x);
    PageAt(vs, i, j);
    OffsetMonotone(vs, i + 1, |vs|);
    assert IndexedAt(ms, i) && Scanned(ms, ps, sp, i);
    var own := PagesOfMap(ms[i], ps);
    assert own[j] == ps[x] && ShowsAt(own[j], sp, ms[i].vma.start + j, i);
  }

  lemma PagedSetAt(ps: seq<Page>, addrs: seq<nat>, x: nat)
    requires |addrs| == |ps| && Increasing(addrs) && x < |ps|
    requires forall y | 0 <= y < |ps| :: ps[y].addr == addrs[y]
    ensures ps[x].Paged() <==> ps[x].addr in PagedSet(ps)
  {
    hide Page.Paged;
    if ps[x].addr in PagedSet(ps) {
      var y :| 0 <= y < |ps| && ps[y].Paged() && ps[y].addr == ps[x].addr;
      assert addrs[y] == addrs[x];
    }
  }

  /** Two captures of the same pages agree on the page at every index, however the mappings were divided. */
  lemma IndicesAgree(ms: seq<MapRec>, ps: seq<Page>, w: seq<bv8>, content: map<nat, PageData>,
                     cs: seq<MapRec>, fps: seq<Page>, cap: AddressSpace)
    requires Snapshot(ms, ps, w, content) && Captured(cs, fps, cap)
    requires Describes(Vmas(ms), cap) && Describes(Vmas(cs), cap)
    ensures |ps| == |fps|
    ensures PagesOf(Vmas(ms)) == PagesOf(Vmas(cs)) && Increasing(PagesOf(Vmas(ms)))
  {
    hide SnapshotMap, SnapshotPage, StoredUpTo, Scanned, IndexedAt, Sorted;
    SamePagesSameIndices(Vmas(ms), Vmas(cs));
    PagesIncreasing(Vmas(ms));
  }

  lemma SnapshotAddrs(ms: seq<MapRec>, ps: seq<Page>, w: seq<bv8>, content: map<nat, PageData>)
    requires Snapshot(ms, ps, w, content)
    ensures |ps| == Total(Vmas(ms))
    ensures forall y: nat | y < |ps| :: ps[y].addr == PagesOf(Vmas(ms))[y] && ps[y].addr in content
    ensures forall y: nat | y < |ps| && !ps[y].Paged() :: content[ps[y].addr] == ZeroPage()
  {
    hide SnapshotMap, StoredUpTo, Sorted, Page.Paged;
    forall y: nat | y < |ps|
      ensures ps[y].addr == PagesOf(Vmas(ms))[y] && ps[y].addr in content
      ensures !ps[y].Paged() ==> content[ps[y].addr] == ZeroPage()
    {
      assert SnapshotPage(ms, ps, content, y);
    }
  }

  lemma RecordAgrees(ms: seq<MapRec>, ps: seq<Page>, w: seq<bv8>, content: map<nat, PageData>,
                     cs: seq<MapRec>, fps: seq<Page>, cap: AddressSpace, x: nat)
    requires Snapshot(ms, ps, w, content) && Captured(cs, fps, cap)
    requires Describes(Vmas(ms), cap) && Describes(Vmas(cs), cap)
    requires x < |ps| == |fps|
    ensures ps[x].addr == fps[x].addr == PagesOf(Vmas(ms))[x]
    ensures ps[x].Paged() <==> ps[x].addr in PagedSet(ps)
    ensures fps[x].addr in cap
    ensures fps[x].Paged() <==> cap[fps[x].addr].present
    ensures fps[x].Flagged() <==> cap[fps[x].addr].dirty || !cap[fps[x].addr].present
  {
    hide Page.Paged, Snapshot, Captured, Describes, PagedSet, Increasing, PagesOf;
    IndicesAgree(ms, ps, w, content, cs, fps, cap);
    SnapshotAddrs(ms, ps, w, content);
    PagedSetAt(ps, PagesOf(Vmas(ms)), x);
    CapturedAt(cs, fps, cap, x);
  }

  lemma SnapshotMapAt(ms: seq<MapRec>, ps: seq<Page>, w: seq<bv8>, content: map<nat, PageData>, i: nat)
    requires Snapshot(ms, ps, w, content) && i < |ms|
    ensures SnapshotMap(ms, ps, i) && ms[i].vma.start < ms[i].vma.end
    ensures ms[i].totalPages == ms[i].vma.Size() && ms[i].firstPage == Offset(Vmas(ms), i)
  {
    assert SnapshotMap(ms, ps, i) && Vmas(ms)[i] == ms[i].vma;
  }

  /** The records of a snapshot map in both captures. */
  lemma RecordsAgree(ms: seq<MapRec>, ps: seq<Page>, w: seq<bv8>, content: map<nat, PageData>,
                     cs: seq<MapRec>, fps: seq<Page>, cap: AddressSpace, i: nat)
    requires Snapshot(ms, ps, w, content) && Captured(cs, fps, cap) && i < |ms|
    requires Describes(Vmas(ms), cap) && Describes(Vmas(cs), cap)
    ensures RecordsShow(ms[i], ps, fps, PagedSet(ps), cap)
  {
    hide Page.Paged, Snapshot, Captured, Describes, PagedSet, PagesOf;
    IndicesAgree(ms, ps, w, content, cs, fps, cap);
    SnapshotMapAt(ms, ps, w, content, i);
    var m := ms[i];
    forall x: nat | m.firstPage <= x < m.firstPage + m.totalPages
      ensures ps[x].addr == fps[x].addr == m.vma.start + (x - m.firstPage)
      ensures ps[x].Paged() <==> ps[x].addr in PagedSet(ps)
      ensures fps[x].addr in cap
      ensures fps[x].Paged() <==> cap[fps[x].addr].present
      ensures fps[x].Flagged() <==> cap[fps[x].addr].dirty || !cap[fps[x].addr].present
    {
      PageAt(Vmas(ms), i, x - m.firstPage);
      RecordAgrees(ms, ps, w, content, cs, fps, cap, x);
    }
  }

  lemma SlotsAgree(ms: seq<MapRec>, ps: seq<Page>, w: seq<bv8>, content: map<nat, PageData>, i: nat)
    requires Snapshot(ms, ps, w, content) && i < |ms|
    ensures SlotsHold(ms[i], ps, w, content)
  {
    hide SnapshotPage, StoredUpTo, Sorted;
    assert SnapshotMap(ms, ps, i);
  }

  // ---- The list of modified maps ----

  /** An entry of the list is about a snapshot map: same range, same pages, same slots. */
  predicate SameStorage(e: MapRec, m: MapRec) {
    && e.vma == m.vma && e.firstPage == m.firstPage && e.firstWmem == m.firstWmem
    && e.totalPages == m.totalPages && e.totalPaged == m.totalPaged
  }

  lemma ModifiedEntry(ms: seq<MapRec>, cs: seq<MapRec>, i: nat)
    requires i < |ms| && ListEntry(ModifiedList, ms[i], cs) != []
    ensures var e := ListEntry(ModifiedList, ms[i], cs)[0];
      SameStorage(e, ms[i]) && e.dirty
  {
  }

  lemma ModifiedOrigin(ms: seq<MapRec>, cs: seq<MapRec>, k: nat) returns (i: nat)
    requires k < |Collected(ModifiedList, ms, |ms|, cs)|
    ensures i < |ms| && SameStorage(Collected(ModifiedList, ms, |ms|, cs)[k], ms[i])
    ensures ListEntry(ModifiedList, ms[i], cs) != []
    ensures Collected(ModifiedList, ms, |ms|, cs)[k].dirty
  {
    hide ListEntry;
    var l := Collected(ModifiedList, ms, |ms|, cs);
    CollectedMember(ModifiedList, ms, |ms|, cs, l[k]);
    i :| 0 <= i < |ms| && ListEntry(ModifiedList, ms[i], cs) == [l[k]];
    ModifiedEntry(ms, cs, i);
  }

  /** The list mentions every snapshot map at most once, so restored pages are at most all pages. */
  lemma {:induction false} ModifiedPages(ms: seq<MapRec>, cs: seq<MapRec>, n: nat)
    requires n <= |ms| && forall i: nat | i < |ms| :: ms[i].totalPages == ms[i].vma.Size()
    ensures var l := Collected(ModifiedList, ms, n, cs);
      PagesIn(l, |l|) <= Offset(Vmas(ms), n)
  {
    hide ListEntry, PagesIn, SameStorage;
    if n > 0 {
      ModifiedPages(ms, cs, n - 1);
      ModifiedNext(Collected(ModifiedList, ms, n - 1, cs), ms, cs, n - 1);
    } else {
      NoPagesIn([]);
    }
  }

  lemma NoPagesIn(l: seq<MapRec>)
    ensures PagesIn(l, 0) == 0
  {
  }

  lemma ModifiedNext(l: seq<MapRec>, ms: seq<MapRec>, cs: seq<MapRec>, i: nat)
    requires i < |ms|
    ensures var l' := l + ListEntry(ModifiedList, ms[i], cs);
      PagesIn(l', |l'|) <= PagesIn(l, |l|) + ms[i].totalPages
  {
    var es := ListEntry(ModifiedList, ms[i], cs);
    if es != [] {
      ModifiedEntry(ms, cs, i);
      hide ListEntry;
      var e := es[0];
      PagesInPrefix(l, e, |l|);
      assert l + es == l + [e] && (l + [e])[|l|] == e;
    } else {
      assert l + es == l;
    }
  }

  lemma {:induction false} PagesInPrefix(l: seq<MapRec>, e: MapRec, n: nat)
    requires n <= |l|
    ensures PagesIn(l + [e], n) == PagesIn(l, n)
  {
    if n > 0 { PagesInPrefix(l, e, n - 1); }
  }

  /** The promise of the kernel, carried over to the snapshot's contents. */
  lemma SnapshotIsTracked(ms: seq<MapRec>, content: map<nat, PageData>, base: map<nat, PageData>, cap: AddressSpace,
          i: nat)
    requires Same(ms, content, base) && Tracked(base, cap) && i < |ms| && ms[i].Accessible()
    ensures TrackedIn(ms[i].vma, content, cap)
  {
    hide MapRec.Accessible;
    forall p: nat | ms[i].vma.Holds(p) && p in content && p in cap && cap[p].data != content[p]
      ensures cap[p].dirty || !cap[p].present
    {
      assert ms[i].Holds(p);
    }
  }

  lemma ReadyBySnapshot(ms: seq<MapRec>, ps: seq<Page>, w: seq<bv8>, content: map<nat, PageData>, base: map<nat,
          PageData>,
                        cs: seq<MapRec>, fps: seq<Page>, cap: AddressSpace, k: nat)
    requires Snapshot(ms, ps, w, content) && Captured(cs, fps, cap) && Same(ms, content, base) && Tracked(base, cap)
    requires Describes(Vmas(ms), cap) && Describes(Vmas(cs), cap)
    requires k < |Collected(ModifiedList, ms, |ms|, cs)| && Todo(Collected(ModifiedList, ms, |ms|, cs)[k])
    ensures Ready(Collected(ModifiedList, ms, |ms|, cs)[k], ps, fps, w, PagedSet(ps), cap, content)
  {
    hide Snapshot, Captured, Same, Tracked, Describes, PagedSet, ListEntry, Collected, Page.Paged, Page.Flagged,
      Rank, StoredUpTo;
    var e := Collected(ModifiedList, ms, |ms|, cs)[k];
    var i := ModifiedOrigin(ms, cs, k);
    StorableByPages(e, ms[i], ps);
    RecordsAgree(ms, ps, w, content, cs, fps, cap, i);
    SlotsAgree(ms, ps, w, content, i);
    SnapshotIsTracked(ms, content, base, cap, i);
    SnapshotMapAt(ms, ps, w, content, i);
  }

  /**
   Skipping a map is sound: if the comparison finds nothing, no page of the map is soft-dirty or
   freed, so every page still has the snapshot's content.
   */
  lemma IdenticalIsUnchanged(ms: seq<MapRec>, cs: seq<MapRec>, fps: seq<Page>, cap: AddressSpace, i: nat, p: nat)
    requires Captured(cs, fps, cap) && i < |ms| && ms[i].Holds(p) && NoDirt(ms[i])
    requires ListEntry(ModifiedList, ms[i], cs) == []
    ensures p in cap && !cap[p].dirty && cap[p].present
  {
    hide Sorted, Freed, Page.Paged, CountSoftDirty, CountFreed, CountPaged;
    var b := CounterpartRange(ms[i].vma, cs);
    assert IndexedAt(cs, b) && Scanned(cs, fps, cap, b);
    var own := PagesOfMap(cs[b], fps);
    NeverBothFlags(cs, fps, cap, b);
    FlagCounts(own);
    assert ShowsAt(own[p - cs[b].vma.start], cap, p, b);
    assert !own[p - cs[b].vma.start].Flagged();
    FreedMeans(cap[p]);
  }

  lemma FreedMeans(c: Cell)
    ensures Freed(c) <==> !c.present && !c.dirty
  {
  }

  lemma NeverBothFlags(cs: seq<MapRec>, fps: seq<Page>, cap: AddressSpace, b: nat)
    requires b < |cs| && Scanned(cs, fps, cap, b)
    ensures forall k | 0 <= k < |PagesOfMap(cs[b], fps)| ::
              !(PagesOfMap(cs[b], fps)[k].softDirty && PagesOfMap(cs[b], fps)[k].isFreed)
  {
    hide Page.Paged, Counted;
    var own := PagesOfMap(cs[b], fps);
    forall k: nat | k < |own|
      ensures !(own[k].softDirty && own[k].isFreed)
    {
      assert ShowsAt(own[k], cap, cs[b].vma.start + k, b);
    }
  }

  // ---- The contents after a restore ----

  lemma HeldInContent(ms: seq<MapRec>, ps: seq<Page>, w: seq<bv8>, content: map<nat, PageData>, i: nat, p: nat)
    requires Snapshot(ms, ps, w, content) && i < |ms| && ms[i].Holds(p)
    ensures p in content
    ensures p !in PagedSet(ps) ==> content[p] == ZeroPage()
  {
    hide Snapshot, Page.Paged, PagesOf;
    SnapshotMapAt(ms, ps, w, content, i);
    SnapshotAddrs(ms, ps, w, content);
    PageAt(Vmas(ms), i, p - ms[i].vma.start);
    var x := Offset(Vmas(ms), i) + (p - ms[i].vma.start);
    assert ps[x].addr == p;
  }

  lemma PagedInContent(ms: seq<MapRec>, ps: seq<Page>, w: seq<bv8>, content: map<nat, PageData>)
    requires Snapshot(ms, ps, w, content)
    ensures forall p | p in PagedSet(ps) :: p in content
  {
    hide Snapshot, Page.Paged, PagesOf;
    SnapshotAddrs(ms, ps, w, content);
  }

  /** A page is worked on exactly if its map is readable or writable and not identical. */
  lemma TodoIsModified(ms: seq<MapRec>, cs: seq<MapRec>, i: nat, p: nat)
    requires Sorted(Vmas(ms)) && i < |ms| && ms[i].Holds(p)
    ensures var l := Collected(ModifiedList, ms, |ms|, cs);
      TodoHolds(l, |l|, p) <==> ListEntry(ModifiedList, ms[i], cs) != [] && ms[i].Accessible()
  {
    hide ListEntry, Sorted, Collected;
    var l := Collected(ModifiedList, ms, |ms|, cs);
    if TodoHolds(l, |l|, p) {
      var k: nat :| k < |l| && Todo(l[k]) && l[k].Holds(p);
      CollectedMember(ModifiedList, ms, |ms|, cs, l[k]);
      var j :| 0 <= j < |ms| && ListEntry(ModifiedList, ms[j], cs) == [l[k]];
      ModifiedEntry(ms, cs, j);
      HolderOf(ms, i, j, p);
    }
    var es := ListEntry(ModifiedList, ms[i], cs);
    if es != [] && ms[i].Accessible() {
      ModifiedEntry(ms, cs, i);
      assert es == [es[0]];
      CollectedMember(ModifiedList, ms, |ms|, cs, es[0]);
      var k: nat :| k < |l| && l[k] == es[0];
      assert Todo(l[k]) && l[k].Holds(p);
    }
  }

  /** The maps that the restore of contents passes over keep whatever they hold. */
  ghost predicate Kept(ms: seq<MapRec>, sp: AddressSpace, sp': AddressSpace) {
    forall i, p: nat | 0 <= i < |ms| && !ms[i].Accessible() && ms[i].Holds(p) ::
      p in sp && p in sp' && sp'[p].data == sp[p].data
  }

  /** One page of a readable or writable map. */
  lemma PageIsBack(ms: seq<MapRec>, ps: seq<Page>, w: seq<bv8>, content: map<nat, PageData>, base: map<nat, PageData>,
                   cs: seq<MapRec>, fps: seq<Page>, cap: AddressSpace, sp: AddressSpace, i: nat, p: nat)
    requires Snapshot(ms, ps, w, content) && Captured(cs, fps, cap) && Same(ms, content, base)
    requires Tracked(base, cap) && Anonymous(cap) && Describes(Vmas(ms), cap)
    requires ContentRestored(Collected(ModifiedList, ms, |ms|, cs), cap, sp, PagedSet(ps), content)
    requires i < |ms| && ms[i].Holds(p) && ms[i].Accessible()
    ensures p in content && p in sp && sp[p].data == content[p]
  {
    hide Snapshot, Captured, Describes, PagedSet, ListEntry, Collected, MapRec.Accessible;
    HeldInContent(ms, ps, w, content, i, p);
    DescribesSorted(ms, cap);
    TodoIsModified(ms, cs, i, p);
    MappedBy(ms, cap, i, p);
    if ListEntry(ModifiedList, ms[i], cs) == [] {
      SnapshotMapAt(ms, ps, w, content, i);
      IdenticalIsUnchanged(ms, cs, fps, cap, i, p);
      assert p in base && base[p] == content[p];
    }
  }

  /** One page of a map that is neither readable nor writable. */
  lemma PageIsKept(ms: seq<MapRec>, cs: seq<MapRec>, cap: AddressSpace, sp: AddressSpace, paged: set<nat>,
                   content: map<nat, PageData>, i: nat, p: nat)
    requires Describes(Vmas(ms), cap) && ContentRestored(Collected(ModifiedList, ms, |ms|, cs), cap, sp, paged, content)
    requires i < |ms| && ms[i].Holds(p) && !ms[i].Accessible()
    ensures p in cap && p in sp && sp[p].data == cap[p].data
  {
    hide Describes, ListEntry, Collected, MapRec.Accessible;
    DescribesSorted(ms, cap);
    TodoIsModified(ms, cs, i, p);
    MappedBy(ms, cap, i, p);
  }

  lemma DescribesKeeps(vs: seq<Vma>, cap: AddressSpace, sp: AddressSpace)
    requires Describes(vs, cap) && sp.Keys == cap.Keys && forall p | p in cap :: sp[p].prot == cap[p].prot
    ensures Describes(vs, sp)
  {
    hide Sorted, Covers;
  }

  /** Restoring the modified maps restores the process. */
  lemma ContentIsBack(ms: seq<MapRec>, ps: seq<Page>, w: seq<bv8>, content: map<nat, PageData>, base: map<nat,
          PageData>,
                      cs: seq<MapRec>, fps: seq<Page>, cap: AddressSpace, sp: AddressSpace)
    requires Snapshot(ms, ps, w, content) && Captured(cs, fps, cap) && Same(ms, content, base)
    requires Tracked(base, cap) && Anonymous(cap) && Describes(Vmas(ms), cap)
    requires ContentRestored(Collected(ModifiedList, ms, |ms|, cs), cap, sp, PagedSet(ps), content)
    ensures Restored(ms, content, sp) && Kept(ms, cap, sp) && Anonymous(sp)
  {
    hide Snapshot, Captured, Describes, PagedSet, ListEntry, Collected, MapRec.Accessible, TodoHolds, Advise;
    DescribesKeeps(Vmas(ms), cap, sp);
    forall i: nat, p: nat | i < |ms| && ms[i].Accessible() && ms[i].Holds(p)
      ensures p in content && p in sp && sp[p].data == content[p]
    {
      PageIsBack(ms, ps, w, content, base, cs, fps, cap, sp, i, p);
    }
    forall i: nat, p: nat | i < |ms| && !ms[i].Accessible() && ms[i].Holds(p)
      ensures p in cap && p in sp && sp[p].data == cap[p].data
    {
      PageIsKept(ms, cs, cap, sp, PagedSet(ps), content, i, p);
    }
  }

  /** The maps that the restore passes over hold their snapshot contents. */
  ghost predicate OthersHold(ms: seq<MapRec>, content: map<nat, PageData>, sp: AddressSpace) {
    forall i, p: nat | 0 <= i < |ms| && !ms[i].Accessible() && ms[i].Holds(p) ::
      p in sp && p in content && sp[p].data == content[p]
  }

  lemma WholeMemoryBack(ms: seq<MapRec>, content: map<nat, PageData>, sp: AddressSpace, sp': AddressSpace)
    requires Restored(ms, content, sp') && Kept(ms, sp, sp') && OthersHold(ms, content, sp)
    requires forall p: nat :: p in content <==> Covers(Vmas(ms), p)
    ensures Contents(sp') == content
  {
    hide MapRec.Accessible, Sorted;
    forall p | p in sp'
      ensures p in content && sp'[p].data == content[p]
    {
      var i := HolderIn(ms, sp', p);
    }
    assert Contents(sp').Keys == content.Keys;
  }

  lemma OthersHeldBefore(ms: seq<MapRec>, content: map<nat, PageData>, sp: AddressSpace, sp': AddressSpace)
    requires Describes(Vmas(ms), sp') && Kept(ms, sp, sp') && Contents(sp') == content
    ensures OthersHold(ms, content, sp)
  {
    hide MapRec.Accessible, Describes;
    forall i: nat, p: nat | i < |ms| && !ms[i].Accessible() && ms[i].Holds(p)
      ensures p in sp && p in content && sp[p].data == content[p]
    {
      assert p in sp' && Contents(sp')[p] == sp'[p].data;
    }
  }

  lemma RestoredDescribes(ms: seq<MapRec>, content: map<nat, PageData>, sp: AddressSpace)
    requires Restored(ms, content, sp)
    ensures Describes(Vmas(ms), sp)
  {
  }

  /** The layout has a mapping of exactly this range. */
  ghost predicate InLayout(v: Vma, vs: seq<Vma>) {
    exists k: nat :: k < |vs| && SameRange(v, vs[k])
  }

  /**
   Page `p` of map `m`, which the restore of contents passes over, will end with its content: either
   the map is there and holds it, or the map is gone and an empty page is what it should be.
   */
  ghost predicate IntactAt(m: MapRec, content: map<nat, PageData>, sp: AddressSpace, vs: seq<Vma>, p: nat) {
    && p in content
    && if InLayout(m.vma, vs) || m.Special() then p in sp && sp[p].data == content[p] else content[p] == ZeroPage()
  }

  ghost predicate OthersIntact(ms: seq<MapRec>, content: map<nat, PageData>, sp: AddressSpace, vs: seq<Vma>) {
    forall i, p: nat | 0 <= i < |ms| && !ms[i].Accessible() && ms[i].Holds(p) :: IntactAt(ms[i], content, sp, vs, p)
  }

  lemma GoneFromLayout(s: seq<MapRec>, c: seq<MapRec>, i: nat)
    requires i < |s|
    ensures GoneAt(s, c, i) <==> !InLayout(s[i].vma, Vmas(c)) && !s[i].Special()
  {
    hide MapRec.Special;
    if Counterpart(s[i].vma, c).Some? {
      var k := CounterpartRange(s[i].vma, c);
      assert SameRange(s[i].vma, Vmas(c)[k]);
    }
    if InLayout(s[i].vma, Vmas(c)) {
      var k: nat :| k < |Vmas(c)| && SameRange(s[i].vma, Vmas(c)[k]);
      assert SameRange(s[i].vma, c[k].vma);
    }
  }

  /** Only a readable and writable heap can have lost its end. */
  lemma ShrunkIsAccessible(s: seq<MapRec>, c: seq<MapRec>, brk: nat, hs: nat, hc: nat, ss: nat, sc: nat, i: nat, p: nat)
    requires Anchored(s, c, brk, hs, hc, ss, sc) && Sorted(Vmas(s)) && Sorted(Vmas(c)) && i < |s| && s[i].Holds(p)
    requires Shrunk(s, c, hs, hc, p)
    ensures s[i].Accessible()
  {
    hide MapRec.Named, Sorted;
    HeapOrder(s, c, brk, hs, hc, ss, sc);
    assert s[hs].Holds(p);
    HolderOf(s, i, hs, p);
  }

  lemma IntactPage(s: seq<MapRec>, c: seq<MapRec>, sp0: AddressSpace, sp: AddressSpace, content: map<nat, PageData>,
                   brk: nat, hs: nat, hc: nat, ss: nat, sc: nat, i: nat, p: nat)
    requires Anchored(s, c, brk, hs, hc, ss, sc) && Describes(Vmas(s), sp) && Describes(Vmas(c), sp0)
    requires LayoutCarried(s, c, sp0, sp, hs, hc) && i < |s| && !s[i].Accessible() && s[i].Holds(p)
    ensures (p in sp && p in content && sp[p].data == content[p]) <==> IntactAt(s[i], content, sp0, Vmas(c), p)
  {
    hide MapRec.Special, MapRec.Accessible, Describes, Sorted, Anchored, Shrunk, GoneAt, InLayout, Renewed;
    DescribesSorted(s, sp);
    DescribesSorted(c, sp0);
    AnchorBounds(s, c, brk, hs, hc, ss, sc);
    MappedBy(s, sp, i, p);
    RenewedAt(s, c, i, p);
    GoneFromLayout(s, c, i);
    if Shrunk(s, c, hs, hc, p) { ShrunkIsAccessible(s, c, brk, hs, hc, ss, sc, i, p); }
    assert CarriedAt(sp0, sp, Renewed(s, c, p) || Shrunk(s, c, hs, hc, p), p);
  }

  /** What the skipped maps hold once the layout is back can be told before the restore begins. */
  lemma OthersHoldExactlyWhen(s: seq<MapRec>, c: seq<MapRec>, sp0: AddressSpace, sp: AddressSpace,
                              content: map<nat, PageData>, brk: nat, hs: nat, hc: nat, ss: nat, sc: nat)
    requires Anchored(s, c, brk, hs, hc, ss, sc) && Describes(Vmas(s), sp) && Describes(Vmas(c), sp0)
    requires LayoutCarried(s, c, sp0, sp, hs, hc)
    ensures OthersHold(s, content, sp) <==> OthersIntact(s, content, sp0, Vmas(c))
  {
    hide MapRec.Accessible, Describes, Anchored, IntactAt, LayoutCarried;
    AnchorBounds(s, c, brk, hs, hc, ss, sc);
    if OthersHold(s, content, sp) {
      forall i: nat, p: nat | i < |s| && !s[i].Accessible() && s[i].Holds(p)
        ensures IntactAt(s[i], content, sp0, Vmas(c), p)
      {
        IntactPage(s, c, sp0, sp, content, brk, hs, hc, ss, sc, i, p);
      }
    }
    if OthersIntact(s, content, sp0, Vmas(c)) {
      forall i: nat, p: nat | i < |s| && !s[i].Accessible() && s[i].Holds(p)
        ensures p in sp && p in content && sp[p].data == content[p]
      {
        IntactPage(s, c, sp0, sp, content, brk, hs, hc, ss, sc, i, p);
      }
    }
  }

  /**
   The whole memory is the snapshot's exactly if the maps that are neither readable nor writable had
   their contents when the layout was back.
   */
  lemma RestoredExactlyWhen(ms: seq<MapRec>, content: map<nat, PageData>, mid: AddressSpace, sp: AddressSpace)
    requires Restored(ms, content, sp) && Kept(ms, mid, sp)
    requires forall p: nat :: p in content <==> Covers(Vmas(ms), p)
    ensures Contents(sp) == content <==> OthersHold(ms, content, mid)
  {
    hide Restored, Kept, OthersHold, Same;
    if OthersHold(ms, content, mid) { WholeMemoryBack(ms, content, mid, sp); }
    if Contents(sp) == content {
      RestoredDescribes(ms, content, sp);
      OthersHeldBefore(ms, content, mid, sp);
    }
  }

  lemma ContentCovered(vs: seq<Vma>, sp: AddressSpace)
    requires Describes(vs, sp)
    ensures forall p: nat :: p in Contents(sp) <==> Covers(vs, p)
  {
    hide Covers, Sorted;
  }

  /**
   So the memory can differ after a restore: from every snapshot with a map that is neither readable nor
   writable, a program that makes one of its pages writable, writes, and takes the permission away again
   ends, by steps that the kernel tracks, with the same layout and a memory that a restore does not mend.
   */
  lemma InaccessibleMapsCanChange(ms: seq<MapRec>, sp: AddressSpace, i: nat, p: nat, c: PageData)
    requires Describes(Vmas(ms), sp) && i < |ms| && !ms[i].Accessible() && ms[i].Holds(p) && p in sp && c != sp[p].data
    ensures var steps := [MprotectStep(p, 1, Prot(true, true, false)), Store(p, c), MprotectStep(p, 1, sp[p].prot)];
      && LegalRun(Contents(sp), sp, steps)
      && Describes(Vmas(ms), Steps(sp, steps))
      && !OthersIntact(ms, Contents(sp), Steps(sp, steps), Vmas(ms))
  {
    hide MapRec.Accessible, Describes, MapRec.Special, InLayout;
    var none, rw := sp[p].prot, Prot(true, true, false);
    var steps := [MprotectStep(p, 1, rw), Store(p, c), MprotectStep(p, 1, none)];
    var after := Steps(sp, steps);
    ThreeSteps(sp, steps[0], steps[1], steps[2]);
    assert InRange(p, p, 1) && forall q: nat | q != p :: !InRange(q, p, 1);
    assert after == sp[p := Cell(none, c, true, true)];
    DescribesKeeps(Vmas(ms), sp, after);
    assert InLayout(ms[i].vma, Vmas(ms)) by { ItselfInLayout(ms, i); }
    assert !IntactAt(ms[i], Contents(sp), after, Vmas(ms), p);
  }

  lemma ItselfInLayout(ms: seq<MapRec>, i: nat)
    requires i < |ms|
    ensures InLayout(ms[i].vma, Vmas(ms))
  {
    assert SameRange(ms[i].vma, Vmas(ms)[i]);
  }

  lemma ThreeSteps(sp: AddressSpace, a: KernelStep, b: KernelStep, c: KernelStep)
    ensures Steps(sp, [a, b, c]) == Step(Step(Step(sp, a), b), c)
    ensures a.MprotectStep? && b.Store? && c.MprotectStep? ==> LegalRun(Contents(sp), sp, [a, b, c])
  {
    var ss := [a, b, c];
    assert ss[..2] == [a, b] && [a, b][..1] == [a] && [a][..0] == [];
    assert Steps(sp, []) == sp;
    assert Steps(sp, [a]) == Step(sp, a);
    assert Steps(sp, [a, b]) == Step(Step(sp, a), b);
  }

  // ---- The memory between the two halves of a restore ----

  /** The restore maps page `p` of snapshot mapping `v` anew: the mapping is gone, or the heap has lost its end. */
  ghost predicate RenewedIn(v: Vma, vs: seq<Vma>, brk: nat, p: nat) {
    if "[heap]" <= v.name then brk <= p else !("[stack]" <= v.name) && !InLayout(v, vs)
  }

  ghost predicate RenewedAmong(ss: seq<Vma>, vs: seq<Vma>, brk: nat, p: nat) {
    exists i: nat :: i < |ss| && ss[i].Holds(p) && RenewedIn(ss[i], vs, brk, p)
  }

  /** The protection that a layout gives to a page. */
  ghost function ProtAt(ss: seq<Vma>, p: nat): Prot {
    if i: nat :| i < |ss| && ss[i].Holds(p) then ss[i].prot else Prot(false, false, false)
  }

  /**
   What the first half of a restore to layout `ss` makes of a memory in layout `vs` with the given break:
   the pages and protections of `ss`, each page new or as it was.
   */
  ghost function LayoutBack(ss: seq<Vma>, sp: AddressSpace, vs: seq<Vma>, brk: nat): AddressSpace {
    map p | p in PagesOf(ss) ::
      if RenewedAmong(ss, vs, brk, p) || p !in sp then FreshCell(ProtAt(ss, p)) else sp[p].(prot := ProtAt(ss, p))
  }

  lemma ProtOf(ss: seq<Vma>, i: nat, p: nat)
    requires Sorted(ss) && i < |ss| && ss[i].Holds(p)
    ensures ProtAt(ss, p) == ss[i].prot
  {
    var k: nat :| k < |ss| && ss[k].Holds(p) && ProtAt(ss, p) == ss[k].prot;
    HolderUnique(ss, i, k, p);
  }

  lemma RenewedOnce(ss: seq<Vma>, vs: seq<Vma>, brk: nat, i: nat, p: nat)
    requires Sorted(ss) && i < |ss| && ss[i].Holds(p)
    ensures RenewedAmong(ss, vs, brk, p) <==> RenewedIn(ss[i], vs, brk, p)
  {
    hide RenewedIn, Sorted;
    forall k: nat | k < |ss| && ss[k].Holds(p)
      ensures k == i
    {
      HolderUnique(ss, i, k, p);
    }
  }

  /** Page `p` of map `i` is renewed exactly if its map is gone or the heap has lost it. */
  lemma RenewedMeans(s: seq<MapRec>, c: seq<MapRec>, brk: nat, hs: nat, hc: nat, ss: nat, sc: nat, i: nat, p: nat)
    requires Anchored(s, c, brk, hs, hc, ss, sc) && Sorted(Vmas(s)) && Sorted(Vmas(c)) && i < |s| && s[i].Holds(p)
    ensures RenewedIn(s[i].vma, Vmas(c), brk, p) <==> GoneAt(s, c, i) || Shrunk(s, c, hs, hc, p)
  {
    hide InLayout, Sorted, ClearOfOthers;
    GoneFromLayout(s, c, i);
    SpecialIndex(s, hs, ss, i);
    if i == hs {
      assert s[i].Named(HEAP);
    } else {
      assert !s[i].Named(HEAP);
      NotInHeap(s, c, brk, hs, hc, ss, sc, i, p);
    }
  }

  lemma NotInHeap(s: seq<MapRec>, c: seq<MapRec>, brk: nat, hs: nat, hc: nat, ss: nat, sc: nat, i: nat, p: nat)
    requires Anchored(s, c, brk, hs, hc, ss, sc) && Sorted(Vmas(s)) && Sorted(Vmas(c))
    requires i < |s| && s[i].Holds(p) && i != hs
    ensures hs < |s| && hc < |c| && !Shrunk(s, c, hs, hc, p)
  {
    hide MapRec.Named, Sorted;
    HeapOrder(s, c, brk, hs, hc, ss, sc);
    if s[hs].Holds(p) { HolderOf(s, i, hs, p); }
  }

  lemma PageIsLaidBack(s: seq<MapRec>, c: seq<MapRec>, sp0: AddressSpace, sp: AddressSpace,
                       brk: nat, hs: nat, hc: nat, ss: nat, sc: nat, p: nat)
    requires Anchored(s, c, brk, hs, hc, ss, sc) && Describes(Vmas(s), sp) && Describes(Vmas(c), sp0)
    requires LayoutCarried(s, c, sp0, sp, hs, hc) && p in sp
    ensures var back := LayoutBack(Vmas(s), sp0, Vmas(c), brk); p in back && back[p] == sp[p]
  {
    hide Describes, Sorted, Anchored, Shrunk, GoneAt, Renewed, RenewedIn, RenewedAmong, ProtAt, PagesOf, Covers;
    DescribesSorted(s, sp);
    DescribesSorted(c, sp0);
    AnchorBounds(s, c, brk, hs, hc, ss, sc);
    var i := HolderIn(s, sp, p);
    MappedBy(s, sp, i, p);
    RenewedAt(s, c, i, p);
    RenewedMeans(s, c, brk, hs, hc, ss, sc, i, p);
    RenewedOnce(Vmas(s), Vmas(c), brk, i, p);
    ProtOf(Vmas(s), i, p);
    PageAt(Vmas(s), i, p - s[i].vma.start);
    assert PagesOf(Vmas(s))[Offset(Vmas(s), i) + (p - s[i].vma.start)] == p;
    assert CarriedAt(sp0, sp, Renewed(s, c, p) || Shrunk(s, c, hs, hc, p), p);
  }

  /** The layout pass computes exactly that memory. */
  lemma LayoutIsBack(s: seq<MapRec>, c: seq<MapRec>, sp0: AddressSpace, sp: AddressSpace,
                     brk: nat, hs: nat, hc: nat, ss: nat, sc: nat)
    requires Anchored(s, c, brk, hs, hc, ss, sc) && Describes(Vmas(s), sp) && Describes(Vmas(c), sp0)
    requires LayoutCarried(s, c, sp0, sp, hs, hc)
    ensures sp == LayoutBack(Vmas(s), sp0, Vmas(c), brk)
  {
    hide Describes, Sorted, Anchored, LayoutCarried, PagesOf, RenewedAmong, Covers;
    DescribesSorted(s, sp);
    var back := LayoutBack(Vmas(s), sp0, Vmas(c), brk);
    forall p: nat
      ensures p in back <==> p in sp
    {
      PagesCover(Vmas(s), p);
      MappedExactly(Vmas(s), sp, p);
    }
    forall p | p in sp
      ensures back[p] == sp[p]
    {
      PageIsLaidBack(s, c, sp0, sp, brk, hs, hc, ss, sc, p);
    }
  }

  lemma MappedExactly(vs: seq<Vma>, sp: AddressSpace, p: nat)
    requires Describes(vs, sp)
    ensures p in sp <==> Covers(vs, p)
  {
  }

  // ---- Capturing ----

  lemma ReadStart(ms: seq<MapRec>, ps: seq<Page>, sp: AddressSpace)
    requires FreshTable(ms) && Describes(Vmas(ms), sp) && |ps| == Total(Vmas(ms))
    ensures PagesRead(ms, ms, ps, sp, 0, 0, 0)
  {
    hide Sorted, Indexed;
    forall k: nat | k < |ms|
      ensures MapIn(ms[k].vma, sp)
    {
      forall p: nat | ms[k].vma.Holds(p)
        ensures p in sp
      {
        MappedBy(ms, sp, k, p);
      }
    }
  }

  lemma ReadEnd(ms0: seq<MapRec>, ms: seq<MapRec>, ps: seq<Page>, sp: AddressSpace, count: nat, paged: nat)
    requires PagesRead(ms0, ms, ps, sp, |ms0|, count, paged) && Sorted(Vmas(ms0))
    ensures Vmas(ms) == Vmas(ms0) && (count == |ps| <==> FitUpTo(Vmas(ms0), |ms0|))
    ensures FitUpTo(Vmas(ms0), |ms0|) ==> Captured(ms, ps, sp) && paged == CountPaged(ps)
  {
    hide Sorted, Scanned, Indexed, Fits;
    assert ps[..|ps|] == ps;
    forall i | 0 <= i < |Vmas(ms0)|
      ensures Vmas(ms0)[i].start < Vmas(ms0)[i].end
    {
      SortedIsNotEmpty(Vmas(ms0), i);
    }
    ReadOffsetBounds(Vmas(ms0), |ms0|);
    forall i: nat | i < |ms| && FitUpTo(Vmas(ms0), |ms0|)
      ensures Scanned(ms, ps, sp, i) && !ms[i].dirty
    {
      assert Vmas(ms)[i] == ms[i].vma;
    }
  }

  lemma SortedIsNotEmpty(vs: seq<Vma>, i: nat)
    requires Sorted(vs) && i < |vs|
    ensures vs[i].start < vs[i].end
  {
  }

  /**
   How a capture ends: it is complete; or the pages of some map could not be read, and the assertion on
   the number of pages fails; or there are more pages than an int can count, and the page indices of the
   table are wrong.
   */
  datatype CaptureResult = Complete | ShortRead | Miscounted

  /** A picture of the process, with or without its pages. */
  method CaptureProcessState(process: Process, withPages: bool) returns (state: MemInfo, result: CaptureResult)
    requires process.Valid()
    modifies process`clock
    ensures state.Valid() && fresh(state) && fresh(state.maps) && fresh(state.pages) && fresh(state.wmem)
    ensures process.clock == old(process.clock) + 1 && Describes(Vmas(state.Maps()), process.space)
    ensures Vmas(state.Maps()) == Visible(process.kernel(old(process.clock), process.space))
    ensures result == Miscounted <==> withPages && !Countable(Vmas(state.Maps()))
    ensures result == Complete <==> (withPages ==> Readable(Vmas(state.Maps())))
    ensures !withPages ==> state.pages.Length == 0 && state.pagesCount == state.pagedPagesCount == 0
    ensures withPages && result == Complete ==>
      && Captured(state.Maps(), state.pages[..], process.space)
      && state.pagesCount == state.pages.Length && state.pagedPagesCount == CountPaged(state.pages[..])
  {
    hide FreshTable, TableRead, Captured, Describes, PagesRead, Offset, FitUpTo, Visible;
    state := new MemInfo();
    var npagesInMaps := state.ReadMaps(process);
    if !withPages {
      return state, Complete;
    }
    if !Countable(Vmas(state.maps[..state.mapsCount])) {
      return state, Miscounted;
    }
    ghost var ms := state.Maps();
    state.pages := new Page[state.pagesMaxCapacity];
    ReadStart(ms, state.pages[..], process.space);
    state.PopulatePageInfo(process);
    FreshIsSorted(ms);
    ReadEnd(ms, state.Maps(), state.pages[..], process.space, state.pagesCount, state.pagedPagesCount);
    result := if npagesInMaps == state.pagesCount then Complete else ShortRead;
  }

  lemma FreshIsSorted(ms: seq<MapRec>)
    requires FreshTable(ms)
    ensures Sorted(Vmas(ms))
  {
  }

  // ---- Checkpoint ----

  lemma SnapshotMapTaken(ms: seq<MapRec>, ms': seq<MapRec>, ps: seq<Page>, sp: AddressSpace, i: nat)
    requires Captured(ms, ps, sp) && i < |ms| == |ms'| && Vmas(ms') == Vmas(ms) && Storable(ms[i], ps)
    requires ms'[i] == Clean(ms[i].(firstWmem := if 0 <= ms[i].firstPage <= |ps| then Rank(ps, ms[i].firstPage) else 0))
    ensures SnapshotMap(ms', ps, i)
  {
    hide Sorted, Rank, CountPaged, Storable;
    assert IndexedAt(ms, i) && Scanned(ms, ps, sp, i);
    OffsetMonotone(Vmas(ms), i + 1, |ms|);
    StorableByPages(ms[i], ms'[i], ps);
  }

  lemma SnapshotPageTaken(ms: seq<MapRec>, ms': seq<MapRec>, ps: seq<Page>, sp: AddressSpace, x: nat)
    requires Captured(ms, ps, sp) && Anonymous(sp) && Vmas(ms') == Vmas(ms) && x < |ps| == Total(Vmas(ms'))
    ensures SnapshotPage(ms', ps, Contents(sp), x)
  {
    hide Captured, Page.Paged, PagesOf;
    CapturedAt(ms, ps, sp, x);
  }

  lemma StoredShape(ms: seq<MapRec>, ms1: seq<MapRec>, ms2: seq<MapRec>, ps: seq<Page>, i: nat)
    requires WmemSet(ms, ms1, ps, |ms|) && |ms2| == |ms1| && i < |ms|
    requires ms2[i] == Clean(ms1[i])
    ensures 0 <= ms[i].firstPage <= |ps| && ms2[i] == Clean(ms[i].(firstWmem := Rank(ps, ms[i].firstPage)))
    ensures ms2[i].vma == ms[i].vma
  {
    hide Rank;
  }

  /** Storing the pages of a capture and clearing the counters gives a snapshot of what was captured. */
  lemma SnapshotTaken(ms: seq<MapRec>, ms1: seq<MapRec>, ms2: seq<MapRec>, ps: seq<Page>, w: seq<bv8>, sp: AddressSpace)
    requires Captured(ms, ps, sp) && Anonymous(sp) && forall k: nat | k < |ms| :: Storable(ms[k], ps)
    requires WmemSet(ms, ms1, ps, |ms|) && |ms2| == |ms1| && forall i: nat | i < |ms2| :: ms2[i] == Clean(ms1[i])
    requires |w| == CountPaged(ps) * PSIZE && StoredUpTo(ps, w, Contents(sp), |ps|)
    ensures |ms2| == |ms| && Vmas(ms2) == Vmas(ms) && Snapshot(ms2, ps, w, Contents(sp))
  {
    hide WmemSet, Clean, Contents, StoredUpTo, SnapshotMap, SnapshotPage, Captured, Anonymous, Storable;
    StoredLength(ms, ms1, ps);
    forall i: nat | i < |ms|
      ensures 0 <= ms[i].firstPage <= |ps| && ms2[i] == Clean(ms[i].(firstWmem := Rank(ps, ms[i].firstPage)))
      ensures ms2[i].vma == ms[i].vma
    {
      StoredShape(ms, ms1, ms2, ps, i);
    }
    assert Vmas(ms2) == Vmas(ms);
    CapturedShape(ms, ps, sp);
    forall i: nat | i < |ms2|
      ensures SnapshotMap(ms2, ps, i)
    {
      SnapshotMapTaken(ms, ms2, ps, sp, i);
    }
    forall x: nat | x < |ps|
      ensures SnapshotPage(ms2, ps, Contents(sp), x)
    {
      SnapshotPageTaken(ms, ms2, ps, sp, x);
    }
  }

  lemma StoredLength(ms: seq<MapRec>, ms1: seq<MapRec>, ps: seq<Page>)
    requires WmemSet(ms, ms1, ps, |ms|)
    ensures |ms1| == |ms|
  {
  }

  lemma CapturedShape(ms: seq<MapRec>, ps: seq<Page>, sp: AddressSpace)
    requires Captured(ms, ps, sp)
    ensures Sorted(Vmas(ms)) && |ps| == Total(Vmas(ms))
  {
  }

  lemma CaughtAll(ms: seq<MapRec>, content: map<nat, PageData>, sp: AddressSpace)
    requires Describes(Vmas(ms), sp) && content == Contents(sp)
    ensures Same(ms, content, content)
  {
    hide MapRec.Accessible, Describes;
    forall i: nat, p: nat | i < |ms| && ms[i].Holds(p)
      ensures p in content
    {
      MappedBy(ms, sp, i, p);
    }
  }

  /** A map record that carries nothing but the mapping. */
  function Bare(v: Vma): MapRec { MapRec(v, 0, 0, 0, 0, 0, -1, -1, false) }

  function Table(vs: seq<Vma>): (ms: seq<MapRec>)
    ensures Vmas(ms) == vs
  {
    seq(|vs|, i requires 0 <= i < |vs| => Bare(vs[i]))
  }

  /** What is assumed about heap and stack when a restore begins: `vs` is the layout it will see. */
  predicate Restorable(s: seq<MapRec>, vs: seq<Vma>, brk: nat) {
    exists hs: nat, hc: nat, ss: nat, sc: nat | hs < |s| && hc < |vs| && ss < |s| && sc < |vs| ::
      Anchored(s, Table(vs), brk, hs, hc, ss, sc)
  }

  lemma AnchoredByRanges(s: seq<MapRec>, c: seq<MapRec>, c': seq<MapRec>, brk: nat, hs: nat, hc: nat, ss: nat, sc: nat)
    requires Vmas(c) == Vmas(c') && Anchored(s, c, brk, hs, hc, ss, sc)
    ensures Anchored(s, c', brk, hs, hc, ss, sc)
  {
    assert |c| == |c'|;
    forall i | 0 <= i < |c|
      ensures c[i].vma == c'[i].vma
    {
      assert Vmas(c)[i] == Vmas(c')[i];
    }
  }

  lemma Anchors(s: seq<MapRec>, vs: seq<Vma>, c: seq<MapRec>, brk: nat) returns (hs: nat, hc: nat, ss: nat, sc: nat)
    requires Restorable(s, vs, brk) && Vmas(c) == vs
    ensures Anchored(s, c, brk, hs, hc, ss, sc)
  {
    hide Anchored;
    hs, hc, ss, sc :| hs < |s| && hc < |vs| && ss < |s| && sc < |vs| && Anchored(s, Table(vs), brk, hs, hc, ss, sc);
    AnchoredByRanges(s, Table(vs), c, brk, hs, hc, ss, sc);
  }

  lemma ClearedKeeps(vs: seq<Vma>, sp: AddressSpace)
    requires Describes(vs, sp)
    ensures Describes(vs, Cleared(sp)) && Contents(Cleared(sp)) == Contents(sp)
  {
    DescribesKeeps(vs, sp, Cleared(sp));
  }

  lemma ClearedAnonymous(sp: AddressSpace)
    ensures Anonymous(Cleared(sp)) == Anonymous(sp)
  {
    if Anonymous(Cleared(sp)) {
      forall p | p in sp
        ensures sp[p].present || sp[p].data == ZeroPage()
      {
        assert p in Cleared(sp);
      }
    }
  }

  lemma CleanAgain(ms: seq<MapRec>, ms': seq<MapRec>, ps: seq<Page>, w: seq<bv8>, content: map<nat, PageData>)
    requires Snapshot(ms, ps, w, content)
    requires |ms'| == |ms| && forall i: nat | i < |ms| :: ms'[i] == Clean(ms[i])
    ensures ms' == ms
  {
    forall i: nat | i < |ms|
      ensures ms'[i] == ms[i]
    {
      assert SnapshotMap(ms, ps, i);
    }
  }

  // ---- Restore ----

  /** First half: the layout of the process is the snapshot's again. */
  method RestoreMappings(process: Process, checkpointed: MemInfo, ghost content: map<nat, PageData>)
    returns (current: MemInfo)
    requires process.Valid() && checkpointed.Valid() && Sorted(Vmas(checkpointed.Maps()))
    requires Restorable(checkpointed.Maps(), Visible(process.kernel(process.clock, process.space)), process.brk)
    modifies process`space, process`brk, process`clock
    ensures Describes(Vmas(checkpointed.Maps()), process.space) && Carried(old(process.space), process.space)
    ensures OthersHold(checkpointed.Maps(), content, process.space) <==>
              OthersIntact(checkpointed.Maps(), content, old(process.space),
                           Visible(process.kernel(old(process.clock), old(process.space))))
    ensures process.space == LayoutBack(Vmas(checkpointed.Maps()), old(process.space),
              Visible(process.kernel(old(process.clock), old(process.space))), old(process.brk))
    ensures process.Valid() && fresh(current) && process.clock == old(process.clock) + 1
    ensures BreakAtHeap(checkpointed.Maps(), process.brk)
  {
    hide Sorted, Describes, Anchored, Carried, Anonymous, Tracked, Restorable, Collect, Visible, BreakAtHeap,
      OthersHold, OthersIntact, LayoutCarried, LayoutBack;
    ghost var s, sp, vs := checkpointed.Maps(), process.space, Visible(process.kernel(process.clock, process.space));
    var result;
    current, result := CaptureProcessState(process, false);
    ghost var c, brk := current.Maps(), process.brk;
    ghost var hs, hc, ss, sc := Anchors(s, vs, c, brk);
    AnchorBounds(s, c, brk, hs, hc, ss, sc);
    DescribesSorted(current.Maps(), sp);
    var d, _ := DiffProcessMaps(checkpointed, current);
    RestoreMemoryLayout(process, checkpointed, current, d, hs, hc, ss, sc);
    HeapOfAnchors(s, c, brk, hs, hc, ss, sc);
    CarriedIsTracked(process.base, sp, process.space);
    OthersHoldExactlyWhen(s, c, sp, process.space, content, brk, hs, hc, ss, sc);
    LayoutIsBack(s, c, sp, process.space, brk, hs, hc, ss, sc);
  }

  /** The program break is the end of the snapshot's heap. */
  ghost predicate BreakAtHeap(ms: seq<MapRec>, brk: nat) {
    exists h: nat :: OnlyAt(ms, "[heap]", h) && brk == ms[h].vma.end
  }

  lemma HeapOfAnchors(s: seq<MapRec>, c: seq<MapRec>, brk: nat, hs: nat, hc: nat, ss: nat, sc: nat)
    requires Anchored(s, c, brk, hs, hc, ss, sc)
    ensures hs < |s| && BreakAtHeap(s, s[hs].vma.end)
  {
  }

  lemma CarriedIsTracked(base: map<nat, PageData>, sp: AddressSpace, sp': AddressSpace)
    requires Carried(sp, sp') && Tracked(base, sp) && Anonymous(sp)
    ensures Tracked(base, sp') && Anonymous(sp')
  {
  }

  ghost predicate Grew(taken: AddressSpace, now: AddressSpace, p: nat) {
    p in now && now[p].present && p in taken && !taken[p].present
  }

  /** So many adjacent pages of the mapping had no frame and have one now that their size is not an int. */
  ghost predicate GrownRunAt(v: Vma, taken: AddressSpace, now: AddressSpace, a: nat) {
    v.start <= a && a + LONG <= v.end && forall p: nat | a <= p < a + LONG :: Grew(taken, now, p)
  }

  /**
   The comparison passes over the mapping: the layout shows it as it was, and none of its pages is
   soft-dirty or without a frame.
   */
  ghost predicate Untouched(v: Vma, now: AddressSpace, vs: seq<Vma>) {
    v in vs && forall p: nat | v.Holds(p) :: p in now && !now[p].dirty && now[p].present
  }

  /** There is such a run in a readable or writable mapping that the comparison does not pass over. */
  ghost predicate TouchedRun(ss: seq<Vma>, taken: AddressSpace, now: AddressSpace, vs: seq<Vma>) {
    exists i: nat, a: nat ::
      i < |ss| && (ss[i].prot.r || ss[i].prot.w) && GrownRunAt(ss[i], taken, now, a) && !Untouched(ss[i], now, vs)
  }

  /** A map is listed as modified exactly if the comparison does not pass over it. */
  lemma ModifiedExactlyWhen(ms: seq<MapRec>, cs: seq<MapRec>, fps: seq<Page>, cap: AddressSpace, i: nat)
    requires Captured(cs, fps, cap) && i < |ms| && NoDirt(ms[i]) && ms[i].totalPages == ms[i].vma.Size()
    requires MapIn(ms[i].vma, cap)
    ensures ListEntry(ModifiedList, ms[i], cs) == [] <==> Untouched(ms[i].vma, cap, Vmas(cs))
  {
    hide Captured, ListEntry, MapRec.Accessible;
    var v := ms[i].vma;
    if ListEntry(ModifiedList, ms[i], cs) == [] {
      IdenticalIsShown(ms[i], cs);
      forall p: nat | v.Holds(p)
        ensures p in cap && !cap[p].dirty && cap[p].present
      {
        IdenticalIsUnchanged(ms, cs, fps, cap, i, p);
      }
    }
    if Untouched(v, cap, Vmas(cs)) {
      var b: nat :| b < |Vmas(cs)| && Vmas(cs)[b] == v;
      UntouchedCounts(cs, fps, cap, b);
      UntouchedIsIdentical(ms[i], cs, b);
    }
  }

  lemma IdenticalIsShown(m: MapRec, cs: seq<MapRec>)
    requires ListEntry(ModifiedList, m, cs) == []
    ensures m.vma in Vmas(cs)
  {
    var b := CounterpartRange(m.vma, cs);
    assert Vmas(cs)[b] == m.vma;
  }

  lemma UntouchedCounts(cs: seq<MapRec>, fps: seq<Page>, cap: AddressSpace, b: nat)
    requires Captured(cs, fps, cap) && b < |cs|
    requires forall p: nat | cs[b].vma.Holds(p) :: p in cap && !cap[p].dirty && cap[p].present
    ensures Sorted(Vmas(cs)) && NoDirt(cs[b]) && cs[b].totalPages == cs[b].vma.Size()
  {
    hide Sorted, Freed, Page.Paged, CountSoftDirty, CountFreed, CountPaged;
    assert IndexedAt(cs, b) && Scanned(cs, fps, cap, b);
    var own := PagesOfMap(cs[b], fps);
    NeverBothFlags(cs, fps, cap, b);
    FlagCounts(own);
    forall k: nat | k < |own|
      ensures !own[k].Flagged()
    {
      var p := cs[b].vma.start + k;
      assert ShowsAt(own[k], cap, p, b) && cs[b].vma.Holds(p);
      FreedMeans(cap[p]);
    }
  }

  lemma UntouchedIsIdentical(m: MapRec, cs: seq<MapRec>, b: nat)
    requires Sorted(Vmas(cs)) && b < |cs| && cs[b].vma == m.vma && NoDirt(cs[b]) && NoDirt(m)
    requires cs[b].totalPages == m.totalPages
    ensures ListEntry(ModifiedList, m, cs) == []
  {
    hide Sorted;
    CounterpartAt(m.vma, cs, b);
  }

  lemma GrownPage(ms: seq<MapRec>, ps: seq<Page>, w: seq<bv8>, content: map<nat, PageData>, taken: AddressSpace,
                  cap: AddressSpace, i: nat, p: nat)
    requires Snapshot(ms, ps, w, content) && TakenFrom(ms, ps, taken) && i < |ms| && ms[i].Holds(p)
    requires Advise(PagedSet(ps), cap, p)
    ensures Grew(taken, cap, p)
  {
    hide Snapshot, Page.Paged, PagesOf, Describes;
    SnapshotMapAt(ms, ps, w, content, i);
    SnapshotAddrs(ms, ps, w, content);
    PageAt(Vmas(ms), i, p - ms[i].vma.start);
    var x := Offset(Vmas(ms), i) + (p - ms[i].vma.start);
    assert ps[x].addr == p;
  }

  lemma NotPagedAdvised(ps: seq<Page>, taken: AddressSpace, cap: AddressSpace, p: nat)
    requires Grew(taken, cap, p)
    requires forall x: nat | x < |ps| :: ps[x].addr in taken && (ps[x].Paged() <==> taken[ps[x].addr].present)
    ensures Advise(PagedSet(ps), cap, p)
  {
    hide Page.Paged;
  }

  /** A run that is too long to be given back is too long in the memory from which the contents are restored. */
  lemma LongRunIsTouched(ms: seq<MapRec>, ps: seq<Page>, w: seq<bv8>, content: map<nat, PageData>, taken: AddressSpace,
                         cs: seq<MapRec>, fps: seq<Page>, cap: AddressSpace)
    requires Snapshot(ms, ps, w, content) && TakenFrom(ms, ps, taken)
    requires Captured(cs, fps, cap) && Describes(Vmas(ms), cap)
    requires var l := Collected(ModifiedList, ms, |ms|, cs); LongRun(l, |l|, PagedSet(ps), cap)
    ensures TouchedRun(Vmas(ms), taken, cap, Vmas(cs))
  {
    hide Snapshot, TakenFrom, Collected, ListEntry, PagedSet, Advise, SameStorage, Captured, Describes, Untouched;
    var l := Collected(ModifiedList, ms, |ms|, cs);
    var k: nat :| k < |l| && Todo(l[k]) && LongRunIn(l[k].vma, PagedSet(ps), cap);
    var a: nat :| LongRunAt(l[k].vma, PagedSet(ps), cap, a);
    var i := ModifiedOrigin(ms, cs, k);
    SameStorageVma(l[k], ms[i]);
    var v := ms[i].vma;
    assert v.start <= a && a + LONG <= v.end;
    forall p: nat | a <= p < a + LONG
      ensures Grew(taken, cap, p)
    {
      assert Advise(PagedSet(ps), cap, p);
      GrownPage(ms, ps, w, content, taken, cap, i, p);
    }
    ModifiedInSnapshot(ms, ps, w, content, cs, fps, cap, i);
    assert Vmas(ms)[i] == v && GrownRunAt(Vmas(ms)[i], taken, cap, a);
  }

  lemma ModifiedInSnapshot(ms: seq<MapRec>, ps: seq<Page>, w: seq<bv8>, content: map<nat, PageData>,
                           cs: seq<MapRec>, fps: seq<Page>, cap: AddressSpace, i: nat)
    requires Snapshot(ms, ps, w, content) && Captured(cs, fps, cap) && Describes(Vmas(ms), cap) && i < |ms|
    ensures ListEntry(ModifiedList, ms[i], cs) == [] <==> Untouched(ms[i].vma, cap, Vmas(cs))
  {
    hide Snapshot, Captured, ListEntry, Describes, Untouched;
    SnapshotMapAt(ms, ps, w, content, i);
    forall p: nat | ms[i].vma.Holds(p)
      ensures p in cap
    {
      MappedBy(ms, cap, i, p);
    }
    ModifiedExactlyWhen(ms, cs, fps, cap, i);
  }

  /** And the other way round: such a run is met, and too long to be given back. */
  lemma TouchedIsLongRun(ms: seq<MapRec>, ps: seq<Page>, w: seq<bv8>, content: map<nat, PageData>, taken: AddressSpace,
                         cs: seq<MapRec>, fps: seq<Page>, cap: AddressSpace)
    requires Snapshot(ms, ps, w, content) && TakenFrom(ms, ps, taken)
    requires Captured(cs, fps, cap) && Describes(Vmas(ms), cap) && TouchedRun(Vmas(ms), taken, cap, Vmas(cs))
    ensures var l := Collected(ModifiedList, ms, |ms|, cs); LongRun(l, |l|, PagedSet(ps), cap)
  {
    hide Snapshot, Collected, ListEntry, PagedSet, Advise, Captured, Describes, Untouched, Grew;
    var vs := Vmas(ms);
    var i: nat, a: nat :| i < |vs| && (vs[i].prot.r || vs[i].prot.w) && GrownRunAt(vs[i], taken, cap, a)
                          && !Untouched(vs[i], cap, Vmas(cs));
    ModifiedInSnapshot(ms, ps, w, content, cs, fps, cap, i);
    var k := ListedAt(ms, cs, i);
    var v := ms[i].vma;
    forall p: nat | a <= p < a + LONG
      ensures Advise(PagedSet(ps), cap, p)
    {
      assert Grew(taken, cap, p);
      NotPagedAdvised(ps, taken, cap, p);
    }
    assert LongRunAt(v, PagedSet(ps), cap, a);
    assert LongRunIn(v, PagedSet(ps), cap);
  }

  /** An accessible map that is listed is worked on. */
  lemma ListedAt(ms: seq<MapRec>, cs: seq<MapRec>, i: nat) returns (k: nat)
    requires i < |ms| && ms[i].Accessible() && ListEntry(ModifiedList, ms[i], cs) != []
    ensures var l := Collected(ModifiedList, ms, |ms|, cs);
      k < |l| && Todo(l[k]) && l[k].vma == ms[i].vma
  {
    hide Collected;
    var l, es := Collected(ModifiedList, ms, |ms|, cs), ListEntry(ModifiedList, ms[i], cs);
    ModifiedEntry(ms, cs, i);
    assert es == [es[0]];
    CollectedMember(ModifiedList, ms, |ms|, cs, es[0]);
    k :| k < |l| && l[k] == es[0];
  }

  lemma SameStorageVma(e: MapRec, m: MapRec)
    requires SameStorage(e, m)
    ensures e.vma == m.vma
  {
  }

  /** The pages of the snapshot can be counted, so they can be counted in any other layout. */
  lemma CountableAgain(ms: seq<MapRec>, cs: seq<MapRec>, sp: AddressSpace)
    requires Describes(Vmas(ms), sp) && Describes(Vmas(cs), sp)
    ensures Countable(Vmas(ms)) <==> Countable(Vmas(cs))
  {
    hide Sorted, Covers;
    SamePagesSameIndices(Vmas(ms), Vmas(cs));
  }

  /** Second half: the contents of the modified maps. */
  method RestoreContents(process: Process, checkpointed: MemInfo, ghost content: map<nat, PageData>,
          ghost taken: AddressSpace)
    returns (ok: bool, current: MemInfo)
    requires process.Valid() && checkpointed.Valid() && checkpointed.pagesCount == checkpointed.pages.Length
    requires Snapshot(checkpointed.Maps(), checkpointed.pages[..], checkpointed.wmem[..], content)
    requires TakenFrom(checkpointed.Maps(), checkpointed.pages[..], taken) && Countable(Vmas(checkpointed.Maps()))
    requires Same(checkpointed.Maps(), content, process.base)
    requires Describes(Vmas(checkpointed.Maps()), process.space)
    modifies process`space, process`clock, process`refusals
    ensures process.clock == old(process.clock) + 1 && process.refusals >= old(process.refusals)
    ensures var vs := Visible(process.kernel(old(process.clock), old(process.space)));
      && (!Readable(vs) ==> !ok && process.space == old(process.space))
      && (TouchedRun(Vmas(checkpointed.Maps()), taken, old(process.space), vs) ==> !ok)
      && (!ok ==>
            || process.refusals > old(process.refusals) || !Readable(vs)
            || TouchedRun(Vmas(checkpointed.Maps()), taken, old(process.space), vs))
    ensures ok ==> Restored(checkpointed.Maps(), content, process.space)
    ensures ok ==> Kept(checkpointed.Maps(), old(process.space), process.space)
    ensures ok ==> Anonymous(process.space)
    ensures fresh(current)
  {
    hide Sorted, Describes, Snapshot, Captured, Same, Tracked, Anonymous, ContentRestored, Restored, Kept, Collected,
      Ready, Todo, PagedSet, TakenFrom, Countable, FitUpTo, LongRun, TouchedRun, Visible;
    ghost var s, ips, w, cap := checkpointed.Maps(), checkpointed.pages[..], checkpointed.wmem[..], process.space;
    var result;
    current, result := CaptureProcessState(process, true);
    CountableAgain(s, current.Maps(), cap);
    if result != Complete {
      return false, current;
    }
    ghost var c, fps := current.Maps(), current.pages[..];
    DescribesSorted(s, cap);
    DescribesSorted(c, cap);
    var d, _ := DiffProcessMaps(checkpointed, current);
    assert d.modified == Collected(ModifiedList, s, |s|, c);
    ListsSorted(s, c);
    PagedInContent(s, ips, w, content);
    SizesKnown(s, ips, w, content);
    ModifiedPages(s, c, |s|);
    forall k: nat | k < |d.modified| && Todo(d.modified[k])
      ensures Ready(d.modified[k], ips, fps, w, PagedSet(ips), cap, content)
    {
      ReadyBySnapshot(s, ips, w, content, process.base, c, fps, cap, k);
    }
    ghost var refusals := process.refusals;
    var count;
    ok, count := RestoreSoftDirtyMemory(process, checkpointed, current, d, ips, fps, w, PagedSet(ips), cap, content);
    if TouchedRun(Vmas(s), taken, cap, Vmas(c)) {
      TouchedIsLongRun(s, ips, w, content, taken, c, fps, cap);
    }
    if ok {
      ContentIsBack(s, ips, w, content, process.base, c, fps, cap, process.space);
    } else if process.refusals == refusals {
      LongRunIsTouched(s, ips, w, content, taken, c, fps, cap);
    }
  }

  lemma SizesKnown(ms: seq<MapRec>, ps: seq<Page>, w: seq<bv8>, content: map<nat, PageData>)
    requires Snapshot(ms, ps, w, content)
    ensures forall i: nat | i < |ms| :: ms[i].totalPages == ms[i].vma.Size()
    ensures |ps| == Offset(Vmas(ms), |ms|)
  {
    hide Snapshot;
    SnapshotAddrs(ms, ps, w, content);
    forall i: nat | i < |ms|
      ensures ms[i].totalPages == ms[i].vma.Size()
    {
      SnapshotMapAt(ms, ps, w, content, i);
    }
  }

  /** The layouts of which a checkpoint can store every page. */
  ghost predicate Capturable(vs: seq<Vma>, sp: AddressSpace) {
    Readable(vs) && forall v | v in vs :: StorableVma(v, sp)
  }

  /**
   For a restore of snapshot memory `taken` in layout `ss` that begins at time `t`: the layout shown after
   the first half can be read, and no run of pages is too long to be given back.
   */
  ghost predicate ContentsCanBeRestored(ss: seq<Vma>, taken: AddressSpace, process: Process, t: nat, w: World) {
    var mid := LayoutBack(ss, w.space, Visible(process.kernel(t, w.space)), w.brk);
    var vs := Visible(process.kernel(t + 1, mid));
    Readable(vs) && !TouchedRun(ss, taken, mid, vs)
  }

  /** The manager of one process: the snapshot, and the last capture. */
  class Tracker {
    const process: Process
    var checkpointed: MemInfo?
    var current: MemInfo?
    /** The memory of which the snapshot is a snapshot. */
    ghost var taken: AddressSpace

    ghost function Tables(): set<object>
      reads this, checkpointed
    {
      if checkpointed == null then {}
      else {checkpointed.maps as object, checkpointed.pages as object, checkpointed.wmem as object}
    }

    /**
     The snapshot is intact, its counters are clear, and its contents are those the soft-dirty bits
     are relative to.
     */
    ghost predicate Valid()
      reads this, process, checkpointed, Tables()
    {
      && process.Valid()
      && (checkpointed != null ==>
            && checkpointed.Valid() && checkpointed.pagesCount == checkpointed.pages.Length
            && Snapshot(checkpointed.Maps(), checkpointed.pages[..], checkpointed.wmem[..], Contents(taken))
            && TakenFrom(checkpointed.Maps(), checkpointed.pages[..], taken) && Countable(Vmas(checkpointed.Maps()))
            && Same(checkpointed.Maps(), Contents(taken), process.base))
    }

    constructor (p: Process)
      requires p.Valid()
      ensures process == p && checkpointed == null && Valid()
    {
      process, checkpointed, current, taken := p, null, null, map[];
    }

    /** Clears the soft-dirty bits of the process, and the counters of the snapshot. */
    method ClearSoftDirtyBits()
      requires process.Honest() && Anonymous(process.space)
      requires checkpointed != null ==> checkpointed.Valid()
      modifies process`space, process`base, if checkpointed == null then {} else {checkpointed.maps}
      ensures process.Valid() && process.space == Cleared(old(process.space)) && process.base == Contents(process.space)
      ensures checkpointed != null ==> checkpointed.Valid() && |checkpointed.Maps()| == |old(checkpointed.Maps())|
      ensures checkpointed != null ==>
        forall i: nat | i < checkpointed.mapsCount :: checkpointed.Maps()[i] == Clean(old(checkpointed.Maps())[i])
    {
      process.ClearSoftDirty();
      if checkpointed != null {
        checkpointed.ClearCounters();
      }
    }

    /**
     Takes a snapshot. It succeeds exactly if the layout shown is one whose pages can be counted, read
     and stored, and then records the contents of every page, relative to which the bits are cleared.
     */
    method CheckpointProcessSd() returns (ok: bool)
      requires process.Valid() && checkpointed == null
      modifies this`checkpointed, this`taken, process`space, process`base, process`clock
      ensures process.Valid() && process.space == Cleared(old(process.space)) && process.base == Contents(process.space)
      ensures process.clock == old(process.clock) + 1
      ensures ok <==> Capturable(Visible(process.kernel(old(process.clock), process.space)), process.space)
      ensures ok ==> checkpointed != null && fresh(checkpointed) && fresh(Tables())
      ensures ok ==> Valid() && taken == process.space
      ensures ok ==> Vmas(checkpointed.Maps()) == Visible(process.kernel(old(process.clock), process.space))
    {
      hide Describes, Captured, StoredUpTo, WmemSet, Snapshot, Same, Anonymous, Tracked, Cleared, StorableVma,
        Storable, Visible, Clean, Countable, FitUpTo, TakenFrom, Contents, CountPaged;
      ghost var sp0 := process.space;
      ClearedAnonymous(process.space);
      ClearSoftDirtyBits();
      ghost var sp := process.space;
      var state, result := CaptureProcessState(process, true);
      if result != Complete {
        return false;
      }
      checkpointed := state;
      state.wmem := new bv8[PSIZE * state.pagedPagesCount];
      ghost var ms, ps := state.Maps(), state.pages[..];
      StorableMeans(ms, ps, sp);
      ok := state.PopulateMemoryCopyInfo(process, ps, sp);
      ghost var ms1, w := state.Maps(), state.wmem[..];
      ClearedTwice(sp0);
      if ok {
        ClearSoftDirtyBits();
        taken := sp;
        SnapshotTaken(ms, ms1, state.Maps(), ps, w, sp);
        TablesTaken(ms, state.Maps(), ps, sp);
        CaughtAll(state.Maps(), Contents(sp), sp);
      }
    }

    /**
     Brings the process back to the snapshot. Unless a write is refused, it succeeds exactly if the
     contents can be restored once the layout is back. The whole memory is the snapshot's exactly if, when
     the restore began, the maps that are neither readable nor writable were intact.
     */
    method RestoreProcessSd() returns (ok: bool)
      requires Valid() && checkpointed != null
      requires Restorable(checkpointed.Maps(), Visible(process.kernel(process.clock, process.space)), process.brk)
      modifies this`current, process`space, process`brk, process`base, process`clock, process`refusals,
          checkpointed.maps
      ensures process.clock == old(process.clock) + 2
      ensures process.refusals >= old(process.refusals)
      ensures var can := ContentsCanBeRestored(Vmas(old(checkpointed.Maps())), taken, process,
                                               old(process.clock), World(old(process.space), old(process.brk)));
        && (!can ==> !ok)
        && (!ok ==> !can || process.refusals > old(process.refusals))
      ensures ok ==> Valid() && checkpointed.Maps() == old(checkpointed.Maps())
      ensures ok ==> Restored(checkpointed.Maps(), Contents(taken), process.space)
      ensures ok ==> process.space == Cleared(process.space) && process.base == Contents(process.space)
      ensures ok ==>
        (Contents(process.space) == Contents(taken) <==>
           OthersIntact(checkpointed.Maps(), Contents(taken), old(process.space),
                        Visible(process.kernel(old(process.clock), old(process.space)))))
      ensures ok ==> BreakAtHeap(checkpointed.Maps(), process.brk)
    {
      hide Describes, Snapshot, Same, Restored, Kept, Anonymous, Tracked, Cleared, Carried, Restorable, Clean,
        Visible, BreakAtHeap, TakenFrom, Countable, FitUpTo, OthersHold, OthersIntact, TouchedRun, LayoutBack, Contents;
      ghost var ms, ips, w, sp0 := checkpointed.Maps(), checkpointed.pages[..], checkpointed.wmem[..], process.space;
      ghost var content := Contents(taken);
      SnapshotSorted(ms, ips, w, content);
      current := RestoreMappings(process, checkpointed, content);
      ghost var mid := process.space;
      ok, current := RestoreContents(process, checkpointed, content, taken);
      if ok {
        ghost var sp := process.space;
        ClearSoftDirtyBits();
        CleanAgain(ms, checkpointed.Maps(), ips, w, content);
        RestoredCleared(ms, content, mid, sp);
        ClearedTwice(sp);
        TakenCovers(ms, ips, taken);
        RestoredExactlyWhen(ms, content, mid, process.space);
      }
    }

    /** Takes a new snapshot in place of the old one. */
    method Checkpoint() returns (ok: bool)
      requires process.Valid()
      modifies this`checkpointed, this`taken, process`space, process`base, process`clock
      ensures process.Valid() && process.space == Cleared(old(process.space)) && process.base == Contents(process.space)
      ensures process.clock == old(process.clock) + 1
      ensures ok <==> Capturable(Visible(process.kernel(old(process.clock), process.space)), process.space)
      ensures ok ==> checkpointed != null && fresh(checkpointed) && fresh(Tables())
      ensures ok ==> Valid() && taken == process.space
      ensures ok ==> Vmas(checkpointed.Maps()) == Visible(process.kernel(old(process.clock), process.space))
      ensures ok ==> forall m | m in checkpointed.Maps() :: m.softDirtyCount == 0
    {
      hide Describes, Snapshot, Same, Anonymous, Tracked, Cleared, Capturable, Visible, TakenFrom, Countable;
      checkpointed := null;
      ok := CheckpointProcessSd();
      if ok { NoDirtInSnapshot(checkpointed.Maps(), checkpointed.pages[..], checkpointed.wmem[..], Contents(taken)); }
    }
  }

  lemma TablesTaken(ms: seq<MapRec>, ms': seq<MapRec>, ps: seq<Page>, sp: AddressSpace)
    requires Captured(ms, ps, sp) && Describes(Vmas(ms), sp) && Vmas(ms') == Vmas(ms)
    ensures TakenFrom(ms', ps, sp)
  {
    hide Captured, Describes, Page.Paged, PagesOf;
    forall x: nat | x < |ps|
      ensures ps[x].addr in sp && (ps[x].Paged() <==> sp[ps[x].addr].present)
    {
      CapturedAt(ms, ps, sp, x);
    }
  }

  lemma TakenCovers(ms: seq<MapRec>, ps: seq<Page>, taken: AddressSpace)
    requires TakenFrom(ms, ps, taken)
    ensures forall p: nat :: p in Contents(taken) <==> Covers(Vmas(ms), p)
  {
    hide Describes, Covers;
    ContentCovered(Vmas(ms), taken);
  }

  lemma NoDirtInSnapshot(ms: seq<MapRec>, ps: seq<Page>, w: seq<bv8>, content: map<nat, PageData>)
    requires Snapshot(ms, ps, w, content)
    ensures forall m | m in ms :: m.softDirtyCount == 0
  {
    forall i: nat | i < |ms|
      ensures ms[i].softDirtyCount == 0
    {
      assert SnapshotMap(ms, ps, i);
    }
  }

  lemma SnapshotSorted(ms: seq<MapRec>, ps: seq<Page>, w: seq<bv8>, content: map<nat, PageData>)
    requires Snapshot(ms, ps, w, content)
    ensures Sorted(Vmas(ms))
  {
  }

  lemma ClearedTwice(sp: AddressSpace)
    ensures Cleared(Cleared(sp)) == Cleared(sp)
  {
  }

  lemma ClearedContents(sp: AddressSpace)
    ensures Contents(Cleared(sp)) == Contents(sp)
  {
  }

  lemma RestoredCleared(ms: seq<MapRec>, content: map<nat, PageData>, mid: AddressSpace, sp: AddressSpace)
    requires Restored(ms, content, sp) && Kept(ms, mid, sp)
    ensures Restored(ms, content, Cleared(sp)) && Same(ms, content, Contents(Cleared(sp))) && Kept(ms, mid, Cleared(sp))
  {
    hide MapRec.Accessible, Describes;
    ClearedKeeps(Vmas(ms), sp);
  }

  ghost predicate AllPresent(v: Vma, sp: AddressSpace) {
    forall p: nat | v.Holds(p) :: p in sp && sp[p].present
  }

  /**
   A mapping that a checkpoint can store: below 2 GiB if every page has a frame, and otherwise without a
   frame 2 GiB or more from its start.
   */
  ghost predicate StorableVma(v: Vma, sp: AddressSpace) {
    if AllPresent(v, sp) then v.Size() * PSIZE <= INT_MAX
    else forall p: nat | v.Holds(p) && p in sp && sp[p].present :: (p - v.start) * PSIZE <= INT_MAX
  }

  lemma PagedAt(ms: seq<MapRec>, ps: seq<Page>, sp: AddressSpace, i: nat, j: nat)
    requires Captured(ms, ps, sp) && i < |ms| && j < ms[i].totalPages
    ensures ms[i].totalPages == ms[i].vma.Size() == |PagesOfMap(ms[i], ps)|
    ensures ms[i].vma.start + j in sp
    ensures PagedIn(ms[i], ps, j) <==> sp[ms[i].vma.start + j].present
    ensures PagesOfMap(ms[i], ps)[j].Paged() <==> sp[ms[i].vma.start + j].present
  {
    hide Sorted, Page.Paged, Counted;
    assert IndexedAt(ms, i) && Scanned(ms, ps, sp, i);
    OffsetMonotone(Vmas(ms), i + 1, |ms|);
    var own := PagesOfMap(ms[i], ps);
    assert own[j] == ps[ms[i].firstPage + j];
    assert ShowsAt(own[j], sp, ms[i].vma.start + j, i);
  }

  lemma PagedCount(ms: seq<MapRec>, ps: seq<Page>, sp: AddressSpace, i: nat)
    requires Captured(ms, ps, sp) && i < |ms|
    ensures ms[i].totalPaged == CountPaged(PagesOfMap(ms[i], ps))
    ensures |PagesOfMap(ms[i], ps)| == ms[i].totalPages == ms[i].vma.Size()
  {
    hide Sorted, Page.Paged, CountPaged;
    assert IndexedAt(ms, i) && Scanned(ms, ps, sp, i);
  }

  /** The counter of a map's stored pages is full exactly if all its pages have frames. */
  lemma AllPagedMeans(ms: seq<MapRec>, ps: seq<Page>, sp: AddressSpace, i: nat)
    requires Captured(ms, ps, sp) && i < |ms|
    ensures ms[i].totalPaged == ms[i].totalPages <==> AllPresent(ms[i].vma, sp)
    ensures ms[i].totalPages == ms[i].vma.Size()
  {
    hide Captured, Page.Paged, CountPaged;
    var m := ms[i];
    PagedCount(ms, ps, sp, i);
    var own := PagesOfMap(m, ps);
    CountPagedBounds(own);
    if AllPresent(m.vma, sp) {
      forall k: nat | k < |own|
        ensures own[k].Paged()
      {
        PagedAt(ms, ps, sp, i, k);
        assert m.vma.Holds(m.vma.start + k);
      }
      AllCounted(own);
    } else {
      var p: nat :| m.vma.Holds(p) && !(p in sp && sp[p].present);
      PagedAt(ms, ps, sp, i, p - m.vma.start);
    }
  }

  lemma StorableMap(ms: seq<MapRec>, ps: seq<Page>, sp: AddressSpace, i: nat)
    requires Captured(ms, ps, sp) && i < |ms|
    ensures Storable(ms[i], ps) <==> StorableVma(ms[i].vma, sp)
  {
    hide Captured, PagedIn, AllPresent;
    var m := ms[i];
    AllPagedMeans(ms, ps, sp, i);
    forall j: nat | j < m.totalPages
      ensures m.vma.start + j in sp && (PagedIn(m, ps, j) <==> sp[m.vma.start + j].present)
    {
      PagedAt(ms, ps, sp, i, j);
    }
    if !AllPresent(m.vma, sp) && Storable(m, ps) {
      forall p: nat | m.vma.Holds(p) && p in sp && sp[p].present
        ensures (p - m.vma.start) * PSIZE <= INT_MAX
      {
        assert PagedIn(m, ps, p - m.vma.start);
      }
    }
    if !AllPresent(m.vma, sp) && StorableVma(m.vma, sp) {
      forall j: nat | j < m.totalPages && PagedIn(m, ps, j)
        ensures j * PSIZE <= INT_MAX
      {
        assert m.vma.Holds(m.vma.start + j);
      }
    }
  }

  lemma {:induction false} AllCounted(ps: seq<Page>)
    requires forall k | 0 <= k < |ps| :: ps[k].Paged()
    ensures CountPaged(ps) == |ps|
  {
    if ps != [] { AllCounted(ps[..|ps| - 1]); }
  }

  lemma StorableMeans(ms: seq<MapRec>, ps: seq<Page>, sp: AddressSpace)
    requires Captured(ms, ps, sp)
    ensures (forall k: nat | k < |ms| :: Storable(ms[k], ps)) <==> forall v | v in Vmas(ms) :: StorableVma(v, sp)
  {
    hide Captured, Storable, StorableVma;
    forall k: nat | k < |ms|
      ensures Storable(ms[k], ps) <==> StorableVma(Vmas(ms)[k], sp)
    {
      StorableMap(ms, ps, sp, k);
    }
  }

  // ---- A memory that a restore accepts, and does not mend ----

  const ANONYMOUS := FileId(0, 0, 0, 0)

  /** A map without permissions, a heap and a stack, of one page each. */
  function SmallLayout(): seq<Vma> {
    [Vma(1, 2, Prot(false, false, false), true, ANONYMOUS, ""),
     Vma(2, 3, Prot(true, true, false), true, ANONYMOUS, "[heap]"),
     Vma(3, 4, Prot(true, true, false), true, ANONYMOUS, "[stack]")]
  }

  function SmallSpace(): AddressSpace {
    map[1 := FreshCell(Prot(false, false, false)), 2 := FreshCell(Prot(true, true, false)),
        3 := FreshCell(Prot(true, true, false))]
  }

  lemma SmallIsDescribed()
    ensures Describes(SmallLayout(), SmallSpace())
  {
    hide Describes;
    var vs, sp := SmallLayout(), SmallSpace();
    var sp2 := sp - {3};
    var sp1 := sp2 - {2};
    assert sp1 - {1} == map[];
    NothingDescribed();
    OneMorePage([], map[], sp1, vs[0]);
    assert [] + [vs[0]] == [vs[0]];
    OneMorePage([vs[0]], sp1, sp2, vs[1]);
    assert [vs[0]] + [vs[1]] == [vs[0], vs[1]];
    OneMorePage([vs[0], vs[1]], sp2, sp, vs[2]);
    assert [vs[0], vs[1]] + [vs[2]] == vs;
  }

  /** A layout with one map called [heap], not the last one and ending at the break, and one called [stack]. */
  lemma NamedIsRestorable(vs: seq<Vma>, h: nat, t: nat, brk: nat)
    requires Sorted(vs) && h + 1 < |vs| && t < |vs| && h != t && vs[h].end == brk
    requires vs[h].name == "[heap]" && vs[t].name == "[stack]"
    requires forall i: nat | i < |vs| && i != h && i != t :: !("[heap]" <= vs[i].name) && !("[stack]" <= vs[i].name)
    ensures Restorable(Table(vs), vs, brk)
  {
    var s := Table(vs);
    assert forall i | 0 <= i < |vs| :: s[i].vma == vs[i];
    assert "[heap]"[1] != "[stack]"[1];
    assert OnlyAt(s, "[heap]", h) && OnlyAt(s, "[stack]", t);
    assert Anchored(s, s, brk, h, h, t, t);
  }

  lemma SmallIsRestorable()
    ensures Restorable(Table(SmallLayout()), SmallLayout(), 3)
  {
    NamedIsRestorable(SmallLayout(), 1, 2, 3);
  }

  /** From this snapshot a restore succeeds after the three steps, and leaves a memory that is not the snapshot's. */
  lemma RestorableButNotIntact(c: PageData)
    requires c != ZeroPage()
    ensures var none := Prot(false, false, false);
      var after := Steps(SmallSpace(),
          [MprotectStep(1, 1, Prot(true, true, false)), Store(1, c), MprotectStep(1, 1, none)]);
      && Describes(SmallLayout(), after) && Restorable(Table(SmallLayout()), SmallLayout(), 3)
      && !OthersIntact(Table(SmallLayout()), Contents(SmallSpace()), after, SmallLayout())
  {
    hide Describes, Restorable, OthersIntact, Steps;
    SmallIsDescribed();
    SmallIsRestorable();
    var s := Table(SmallLayout());
    assert s[0] == Bare(SmallLayout()[0]);
    InaccessibleMapsCanChange(s, SmallSpace(), 0, 1, c);
  }

  // ---- Layouts at the limits ----

  const TERABYTE: nat := 0x1000_0000

  function Reserved(start: nat, n: nat): (v: Vma)
    ensures v.Size() == n
  {
    Vma(start, start + n, Prot(false, false, false), true, ANONYMOUS, "")
  }

  /** A memory of one mapping, all of whose pages are alike. */
  function Uniform(v: Vma, data: PageData, present: bool, dirty: bool): AddressSpace {
    map p | v.start <= p < v.end && v.Holds(p) :: Cell(v.prot, data, present, dirty)
  }

  lemma UniformIsDescribed(v: Vma, data: PageData, present: bool, dirty: bool)
    requires v.start < v.end
    ensures Describes([v], Uniform(v, data, present, dirty))
    ensures Total([v]) == v.Size() && (FitUpTo([v], 1) <==> Fits(v))
  {
    var sp := Uniform(v, data, present, dirty);
    assert Offset([v], 1) == Offset([v], 0) + v.Size();
    forall p: nat
      ensures p in sp <==> Covers([v], p)
    {
      if p in sp { assert [v][0].Holds(p); }
    }
    assert FitUpTo([v], 1) <==> Fits([v][0]);
  }

  function NoFrames(start: nat, n: nat): AddressSpace { Uniform(Reserved(start, n), ZeroPage(), false, false) }

  /**
   Storing is not everything: reserved address space of 2^28 pages has nothing to be stored, but one
   read cannot cover its pagemap entries, and the assertion on the page count fails. With one page less
   the checkpoint succeeds.
   */
  lemma ReservedTerabyte(start: nat, n: nat)
    requires TERABYTE - 1 <= n <= TERABYTE
    ensures Describes([Reserved(start, n)], NoFrames(start, n)) && Countable([Reserved(start, n)])
    ensures StorableVma(Reserved(start, n), NoFrames(start, n))
    ensures Capturable([Reserved(start, n)], NoFrames(start, n)) <==> n < TERABYTE
  {
    var v, sp := Reserved(start, n), NoFrames(start, n);
    UniformIsDescribed(v, ZeroPage(), false, false);
    assert v.Holds(start) && start in sp && !sp[start].present;
    assert !AllPresent(v, sp);
  }

  /**
   A snapshot of 2^19 pages without frames cannot be restored once the program has written to all of
   them: the pages to be given back are one run of 2 GiB. With one page less it can.
   */
  lemma TwoGibibytesWritten(start: nat, n: nat, data: PageData)
    requires LONG - 1 <= n <= LONG
    ensures var v := Vma(start, start + n, Prot(true, true, false), true, ANONYMOUS, "");
      var taken, now := Uniform(v, ZeroPage(), false, false), Uniform(v, data, true, true);
      && Describes([v], taken) && Capturable([v], taken)
      && Describes([v], now) && Anonymous(now) && Tracked(Contents(taken), now)
      && (TouchedRun([v], taken, now, [v]) <==> n == LONG)
  {
    hide Describes;
    var v := Vma(start, start + n, Prot(true, true, false), true, ANONYMOUS, "");
    var taken, now := Uniform(v, ZeroPage(), false, false), Uniform(v, data, true, true);
    UniformIsDescribed(v, ZeroPage(), false, false);
    UniformIsDescribed(v, data, true, true);
    assert v.Holds(start) && start in taken && start in now;
    assert !AllPresent(v, taken) && !Untouched(v, now, [v]);
    assert [v][0] == v;
    forall p: nat | v.Holds(p)
      ensures Grew(taken, now, p)
    {
      assert p in taken && p in now;
    }
    if n == LONG { assert GrownRunAt([v][0], taken, now, start); }
  }

  function Terabytes(k: nat): (vs: seq<Vma>)
    ensures |vs| == k
  {
    if k == 0 then [] else Terabytes(k - 1) + [Reserved((k - 1) * TERABYTE, TERABYTE)]
  }

  lemma {:induction false} TerabyteCounts(k: nat, n: nat)
    requires n <= k
    ensures Offset(Terabytes(k), n) == n * TERABYTE && ReadOffset(Terabytes(k), n) == 0
    decreases k, n
  {
    if n < k {
      TerabyteCounts(k - 1, n);
      OffsetPrefix(Terabytes(k - 1), Terabytes(k), n);
      ReadOffsetPrefix(Terabytes(k - 1), Terabytes(k), n);
    } else if n > 0 {
      TerabyteCounts(k, n - 1);
      assert Terabytes(k)[n - 1] == Reserved((n - 1) * TERABYTE, TERABYTE);
    }
  }

  lemma {:induction false} ReadOffsetPrefix(vs: seq<Vma>, ws: seq<Vma>, i: nat)
    requires vs <= ws && i <= |vs|
    ensures ReadOffset(vs, i) == ReadOffset(ws, i)
  {
    if i > 0 { ReadOffsetPrefix(vs, ws, i - 1); }
  }

  /**
   The assertion on the page count does not notice every layout that it cannot count: with sixteen such
   reservations both sides are zero, one because it has wrapped round and one because nothing was read.
   */
  lemma WrappedCountsCanAgree()
    ensures !Countable(Terabytes(16))
    ensures AsInt(Total(Terabytes(16))) == ReadOffset(Terabytes(16), 16) == 0
  {
    TerabyteCounts(16, 16);
  }
}
