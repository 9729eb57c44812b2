/** Undoing layout changes: unmap what was added, map again what was removed, fix protections, break and stack. */
module RestoreLayout {
  import opened Wrappers
  import opened Machine
  import opened Paging
  import opened Layout
  import opened Records
  import opened TrackedProcess
  import opened MemoryInfo
  import opened Diff

  // ---- What is assumed about the heap and the stack ----

  predicate OnlyAt(ms: seq<MapRec>, name: string, k: nat) {
    k < |ms| && ms[k].Named(name) && forall j | 0 <= j < |ms| && j != k :: !ms[j].Named(name)
  }

  /** The part of `v` that `w` does not share lies outside every map of `ms` but the `k`-th. */
  predicate ClearOfOthers(v: Vma, ms: seq<MapRec>, k: nat) {
    forall j | 0 <= j < |ms| && j != k :: ms[j].vma.end <= v.start || v.end <= ms[j].vma.start
  }

  /**
   One heap that starts where it did, is not the last map, ends at the break and, if its end moved, is
   readable and writable; one stack that ends where it did and has only grown, by less than 2 GiB;
   and neither has run into another map of the snapshot.
   */
  predicate Anchored(s: seq<MapRec>, c: seq<MapRec>, brk: nat, hs: nat, hc: nat, ss: nat, sc: nat) {
    && OnlyAt(s, "[heap]", hs) && OnlyAt(c, "[heap]", hc) && hs + 1 < |s| && hc + 1 < |c|
    && s[hs].vma.start == c[hc].vma.start && c[hc].vma.end == brk
    && (s[hs].vma.end != c[hc].vma.end ==> s[hs].vma.prot == c[hc].vma.prot == Prot(true, true, false))
    && ClearOfOthers(c[hc].vma, s, hs)
    && OnlyAt(s, "[stack]", ss) && OnlyAt(c, "[stack]", sc)
    && s[ss].vma.end == c[sc].vma.end && c[sc].vma.start <= s[ss].vma.start
    && (s[ss].vma.start - c[sc].vma.start) * PSIZE <= INT_MAX
    && (s[ss].vma.start != c[sc].vma.start ==> s[ss].vma.prot == c[sc].vma.prot)
    && ClearOfOthers(c[sc].vma, s, ss)
  }

  // ---- What each pass over a list does, after its first `n` entries ----

  ghost predicate AnonHolds(l: seq<MapRec>, n: nat, p: nat)
    requires n <= |l|
  {
    exists k | 0 <= k < n :: !l[k].Special() && l[k].Holds(p)
  }

  ghost predicate AnyHolds(l: seq<MapRec>, n: nat, p: nat)
    requires n <= |l|
  {
    exists k | 0 <= k < n :: l[k].Holds(p)
  }

  ghost predicate AddedGone(sp: AddressSpace, sp': AddressSpace, l: seq<MapRec>, n: nat)
    requires n <= |l|
  {
    && (forall p: nat :: p in sp' <==> p in sp && !AnonHolds(l, n, p))
    && (forall p | p in sp' :: sp'[p] == sp[p])
  }

  ghost predicate RemovedBack(sp: AddressSpace, sp': AddressSpace, l: seq<MapRec>, n: nat)
    requires n <= |l|
  {
    && (forall p: nat :: p in sp' <==> p in sp || AnonHolds(l, n, p))
    && (forall p | p in sp' && !AnonHolds(l, n, p) :: sp'[p] == sp[p])
    && (forall k, p: nat | 0 <= k < n && !l[k].Special() && l[k].Holds(p) ::
          p in sp' && sp'[p] == FreshCell(l[k].vma.prot))
  }

  ghost predicate ProtectionBack(sp: AddressSpace, sp': AddressSpace, l: seq<MapRec>, n: nat)
    requires n <= |l|
  {
    && sp'.Keys == sp.Keys
    && (forall p | p in sp ::
          sp'[p].data == sp[p].data && sp'[p].present == sp[p].present && sp'[p].dirty == sp[p].dirty)
    && (forall p | p in sp && !AnyHolds(l, n, p) :: sp'[p].prot == sp[p].prot)
    && (forall k, p: nat | 0 <= k < n && l[k].Holds(p) && p in sp :: sp'[p].prot == l[k].vma.prot)
  }

  /** Page `p` is a new page that reads as zero, or the page it was, up to protection. */
  ghost predicate CarriedAt(sp: AddressSpace, sp': AddressSpace, renewed: bool, p: nat)
    requires p in sp'
  {
    if renewed then sp'[p] == FreshCell(sp'[p].prot) else SamePage(sp, sp', p)
  }

  /** A map of the snapshot that is gone, and has to be mapped anew, holds the page. */
  ghost predicate Renewed(s: seq<MapRec>, c: seq<MapRec>, p: nat) {
    exists i: nat :: i < |s| && s[i].Holds(p) && GoneAt(s, c, i)
  }

  ghost predicate GoneAt(s: seq<MapRec>, c: seq<MapRec>, i: nat)
    requires i < |s|
  {
    Counterpart(s[i].vma, c) == None && !s[i].Special()
  }

  /** Exactly the pages of maps that are gone, and of the end that the heap has lost, are new. */
  ghost predicate LayoutCarried(s: seq<MapRec>, c: seq<MapRec>, sp: AddressSpace, sp': AddressSpace, hs: nat, hc: nat)
    requires hs < |s| && hc < |c|
  {
    forall p | p in sp' :: CarriedAt(sp, sp', Renewed(s, c, p) || Shrunk(s, c, hs, hc, p), p)
  }

  /** Every page that is left either kept its content, or is a new page that reads as zero. */
  ghost predicate Carried(sp: AddressSpace, sp': AddressSpace) {
    forall p | p in sp' ::
      || (p in sp && sp'[p].data == sp[p].data && sp'[p].present == sp[p].present && sp'[p].dirty == sp[p].dirty)
      || (sp'[p].data == ZeroPage() && !sp'[p].present)
  }

  lemma AddedGoneStep(sp: AddressSpace, sp': AddressSpace, l: seq<MapRec>, i: nat)
    requires i < |l| && l[i].vma.start <= l[i].vma.end && AddedGone(sp, sp', l, i)
    ensures AddedGone(sp,
      if l[i].Special() then sp' else Unmapped(sp', l[i].vma.start, l[i].vma.end - l[i].vma.start), l, i + 1)
  {
    hide MapRec.Special;
  }

  lemma Disjoint(l: seq<MapRec>, k: nat, i: nat, p: nat)
    requires Sorted(Vmas(l)) && k < i < |l| && l[k].Holds(p)
    ensures !l[i].Holds(p)
  {
    Ordered(l, k, i);
  }

  lemma Apart(l: seq<MapRec>, i: nat)
    requires Sorted(Vmas(l)) && i < |l|
    ensures l[i].vma.start < l[i].vma.end
    ensures forall k, p: nat | 0 <= k < i && l[k].Holds(p) :: !l[i].Holds(p)
  {
    assert Vmas(l)[i] == l[i].vma;
    forall k, p: nat | 0 <= k < i && l[k].Holds(p)
      ensures !l[i].Holds(p)
    {
      Disjoint(l, k, i, p);
    }
  }

  lemma AnonHoldsStep(l: seq<MapRec>, i: nat, p: nat)
    requires i < |l|
    ensures AnonHolds(l, i + 1, p) <==> AnonHolds(l, i, p) || (!l[i].Special() && l[i].Holds(p))
    ensures AnyHolds(l, i + 1, p) <==> AnyHolds(l, i, p) || l[i].Holds(p)
  {
    hide MapRec.Special;
  }

  lemma MappedAt(sp: AddressSpace, v: Vma)
    requires v.start < v.end
    ensures forall p: nat ::
              (p in Mapped(sp, v.start, v.end - v.start, v.prot) <==> p in sp || v.Holds(p))
    ensures forall p: nat | p in Mapped(sp, v.start, v.end - v.start, v.prot) ::
              Mapped(sp, v.start, v.end - v.start, v.prot)[p] == if v.Holds(p) then FreshCell(v.prot) else sp[p]
  {
  }

  lemma RemovedBackStep(sp: AddressSpace, sp': AddressSpace, l: seq<MapRec>, i: nat)
    requires i < |l| && Sorted(Vmas(l)) && RemovedBack(sp, sp', l, i) && !l[i].Special()
    ensures l[i].vma.start < l[i].vma.end
    ensures RemovedBack(sp, Mapped(sp', l[i].vma.start, l[i].vma.end - l[i].vma.start, l[i].vma.prot), l, i + 1)
  {
    hide MapRec.Special, Sorted, Mapped, FreshCell;
    Apart(l, i);
    MappedAt(sp', l[i].vma);
    var sp2 := Mapped(sp', l[i].vma.start, l[i].vma.end - l[i].vma.start, l[i].vma.prot);
    hide AnonHolds;
    forall p: nat
      ensures p in sp2 <==> p in sp || AnonHolds(l, i + 1, p)
      ensures p in sp2 && !AnonHolds(l, i + 1, p) ==> sp2[p] == sp[p]
    {
      AnonHoldsStep(l, i, p);
    }
    forall k: nat, p: nat | k < i + 1 && !l[k].Special() && l[k].Holds(p)
      ensures p in sp2 && sp2[p] == FreshCell(l[k].vma.prot)
    {
      BackPage(sp, sp', l, i, k, p);
    }
  }

  /** A page of the entries mapped so far, after the next one has been mapped. */
  lemma BackPage(sp: AddressSpace, sp': AddressSpace, l: seq<MapRec>, i: nat, k: nat, p: nat)
    requires k <= i < |l| && Sorted(Vmas(l)) && RemovedBack(sp, sp', l, i) && !l[k].Special() && l[k].Holds(p)
    requires l[i].vma.start < l[i].vma.end
    ensures var sp2 := Mapped(sp', l[i].vma.start, l[i].vma.end - l[i].vma.start, l[i].vma.prot);
      p in sp2 && sp2[p] == FreshCell(l[k].vma.prot)
  {
    hide MapRec.Special, Sorted, Mapped, FreshCell, AnonHolds;
    MappedAt(sp', l[i].vma);
    if k < i {
      assert sp'[p] == FreshCell(l[k].vma.prot);
      Disjoint(l, k, i, p);
      assert !l[i].vma.Holds(p);
    } else {
      assert l[i].vma.Holds(p);
    }
  }

  lemma RemovedBackSkip(sp: AddressSpace, sp': AddressSpace, l: seq<MapRec>, i: nat)
    requires i < |l| && RemovedBack(sp, sp', l, i) && l[i].Special()
    ensures RemovedBack(sp, sp', l, i + 1)
  {
    hide MapRec.Special;
    forall p: nat
      ensures AnonHolds(l, i + 1, p) <==> AnonHolds(l, i, p)
    {
      AnonHoldsStep(l, i, p);
    }
  }

  lemma ProtectionBackStep(sp: AddressSpace, sp': AddressSpace, l: seq<MapRec>, i: nat)
    requires i < |l| && Sorted(Vmas(l)) && ProtectionBack(sp, sp', l, i)
    ensures l[i].vma.start < l[i].vma.end
    ensures ProtectionBack(sp, Protected(sp', l[i].vma.start, l[i].vma.end - l[i].vma.start, l[i].vma.prot), l, i + 1)
  {
    hide Sorted;
    Apart(l, i);
    var sp2 := Protected(sp', l[i].vma.start, l[i].vma.end - l[i].vma.start, l[i].vma.prot);
    forall p | p in sp
      ensures sp2[p].prot == if l[i].Holds(p) then l[i].vma.prot else sp'[p].prot
      ensures !AnyHolds(l, i + 1, p) ==> sp2[p].prot == sp[p].prot
    {
      AnonHoldsStep(l, i, p);
    }
    forall k, p: nat | 0 <= k < i + 1 && l[k].Holds(p) && p in sp
      ensures sp2[p].prot == l[k].vma.prot
    {
      if k < i { assert sp'[p].prot == l[k].vma.prot; }
    }
  }

  // ---- From lists to pages ----

  lemma {:induction false} EntryIndex(kind: ListKind, ms: seq<MapRec>, n: nat, other: seq<MapRec>,
          i: nat) returns (k: nat)
    requires i < n <= |ms| && ListEntry(kind, ms[i], other) != []
    ensures k < |Collected(kind, ms, n, other)| && Collected(kind, ms, n, other)[k].vma == ms[i].vma
  {
    if i == n - 1 {
      k := |Collected(kind, ms, n - 1, other)|;
    } else {
      k := EntryIndex(kind, ms, n - 1, other, i);
    }
  }

  lemma {:induction false} EntryOrigin(kind: ListKind, ms: seq<MapRec>, n: nat, other: seq<MapRec>,
          k: nat) returns (i: nat)
    requires n <= |ms| && k < |Collected(kind, ms, n, other)|
    ensures i < n && ListEntry(kind, ms[i], other) != [] && Collected(kind, ms, n, other)[k].vma == ms[i].vma
  {
    if k == |Collected(kind, ms, n - 1, other)| {
      i := n - 1;
    } else {
      i := EntryOrigin(kind, ms, n - 1, other, k);
    }
  }

  /** Some map that contributes to the list, and is neither heap nor stack, holds the page. */
  ghost predicate AnonContributes(kind: ListKind, ms: seq<MapRec>, other: seq<MapRec>, p: nat) {
    exists i | 0 <= i < |ms| :: ListEntry(kind, ms[i], other) != [] && !ms[i].Special() && ms[i].Holds(p)
  }

  ghost predicate Contributes(kind: ListKind, ms: seq<MapRec>, other: seq<MapRec>, p: nat) {
    exists i | 0 <= i < |ms| :: ListEntry(kind, ms[i], other) != [] && ms[i].Holds(p)
  }

  lemma SpecialByVma(a: MapRec, b: MapRec)
    requires a.vma == b.vma
    ensures a.Special() == b.Special()
  {
  }

  lemma AnonListHolds(kind: ListKind, ms: seq<MapRec>, other: seq<MapRec>, p: nat)
    ensures var l := Collected(kind, ms, |ms|, other);
      AnonHolds(l, |l|, p) <==> AnonContributes(kind, ms, other, p)
  {
    hide MapRec.Special, ListEntry, Collected;
    var l := Collected(kind, ms, |ms|, other);
    if AnonHolds(l, |l|, p) {
      var k :| 0 <= k < |l| && !l[k].Special() && l[k].Holds(p);
      var i := EntryOrigin(kind, ms, |ms|, other, k);
      SpecialByVma(ms[i], l[k]);
    }
    if AnonContributes(kind, ms, other, p) {
      var i :| 0 <= i < |ms| && ListEntry(kind, ms[i], other) != [] && !ms[i].Special() && ms[i].Holds(p);
      var k := EntryIndex(kind, ms, |ms|, other, i);
      SpecialByVma(ms[i], l[k]);
    }
  }

  lemma AnyListHolds(kind: ListKind, ms: seq<MapRec>, other: seq<MapRec>, p: nat)
    ensures var l := Collected(kind, ms, |ms|, other);
      AnyHolds(l, |l|, p) <==> Contributes(kind, ms, other, p)
  {
    hide ListEntry, Collected;
    var l := Collected(kind, ms, |ms|, other);
    if AnyHolds(l, |l|, p) {
      var k :| 0 <= k < |l| && l[k].Holds(p);
      var i := EntryOrigin(kind, ms, |ms|, other, k);
    }
    if Contributes(kind, ms, other, p) {
      var i :| 0 <= i < |ms| && ListEntry(kind, ms[i], other) != [] && ms[i].Holds(p);
      var k := EntryIndex(kind, ms, |ms|, other, i);
    }
  }

  /** The state of the address space around the three passes over the lists. */
  ghost predicate Passes(s: seq<MapRec>, c: seq<MapRec>, sp0: AddressSpace, sp1: AddressSpace, sp2: AddressSpace,
          sp3: AddressSpace) {
    && Sorted(Vmas(s)) && Describes(Vmas(c), sp0)
    && var l := Collect(s, c, |s|, |c|);
       && AddedGone(sp0, sp1, l.added, |l.added|)
       && RemovedBack(sp1, sp2, l.removed, |l.removed|)
       && ProtectionBack(sp2, sp3, l.protection, |l.protection|)
  }

  /** The page of `sp'` is the page of `sp`, up to protection. */
  ghost predicate SamePage(sp: AddressSpace, sp': AddressSpace, p: nat) {
    && p in sp && p in sp'
    && sp'[p].data == sp[p].data && sp'[p].present == sp[p].present && sp'[p].dirty == sp[p].dirty
  }

  /** One page through the passes. */
  lemma PageThroughPasses(s: seq<MapRec>, c: seq<MapRec>, sp0: AddressSpace, sp1: AddressSpace, sp2: AddressSpace,
          sp3: AddressSpace, p: nat)
    requires Passes(s, c, sp0, sp1, sp2, sp3)
    ensures p in sp3 <==> (p in sp0 && !AnonContributes(AddedList, c, s, p)) || AnonContributes(RemovedList, s, c, p)
    ensures p in sp3 && !AnonContributes(RemovedList, s, c, p) ==> SamePage(sp0, sp3, p)
    ensures p in sp3 && !AnonContributes(RemovedList, s, c, p) && !Contributes(ProtectionList, s, c, p) ==>
        sp3[p].prot == sp0[p].prot
    ensures p in sp3 && AnonContributes(RemovedList, s, c, p) ==> sp3[p] == FreshCell(sp3[p].prot)
  {
    hide AnonContributes, Contributes, MapRec.Special, Sorted, Describes;
    var l := Collect(s, c, |s|, |c|);
    AnonListHolds(AddedList, c, s, p);
    AnonListHolds(RemovedList, s, c, p);
    AnyListHolds(ProtectionList, s, c, p);
    if AnonHolds(l.removed, |l.removed|, p) {
      var k :| 0 <= k < |l.removed| && !l.removed[k].Special() && l.removed[k].Holds(p);
      assert sp2[p] == FreshCell(l.removed[k].vma.prot);
    }
  }

  /** A page of a snapshot map that is in the list of removed maps, or of changed protections. */
  lemma ProtThroughPasses(s: seq<MapRec>, c: seq<MapRec>, sp0: AddressSpace, sp1: AddressSpace, sp2: AddressSpace,
          sp3: AddressSpace, i: nat, p: nat)
    requires Passes(s, c, sp0, sp1, sp2, sp3) && i < |s| && s[i].Holds(p) && p in sp3
    requires || ListEntry(ProtectionList, s[i], c) != []
             || (ListEntry(RemovedList, s[i], c) != [] && !s[i].Special() && !Contributes(ProtectionList, s, c, p))
    ensures sp3[p].prot == s[i].vma.prot
  {
    hide AnonContributes, Contributes, MapRec.Special, Sorted, Describes, ListEntry;
    var l := Collect(s, c, |s|, |c|);
    if ListEntry(ProtectionList, s[i], c) != [] {
      var k := EntryIndex(ProtectionList, s, |s|, c, i);
      assert l.protection[k].Holds(p);
    } else {
      var k := EntryIndex(RemovedList, s, |s|, c, i);
      SpecialByVma(s[i], l.removed[k]);
      assert l.removed[k].Holds(p);
      AnyListHolds(ProtectionList, s, c, p);
      assert sp2[p] == FreshCell(s[i].vma.prot);
    }
  }

  lemma HolderOf(ms: seq<MapRec>, i: nat, j: nat, p: nat)
    requires Sorted(Vmas(ms)) && i < |ms| && j < |ms| && ms[i].Holds(p) && ms[j].Holds(p)
    ensures i == j
  {
    HolderUnique(Vmas(ms), i, j, p);
  }

  lemma ContributesAt(kind: ListKind, ms: seq<MapRec>, other: seq<MapRec>, i: nat, p: nat)
    requires Sorted(Vmas(ms)) && i < |ms| && ms[i].Holds(p)
    ensures AnonContributes(kind, ms, other, p) <==> ListEntry(kind, ms[i], other) != [] && !ms[i].Special()
    ensures Contributes(kind, ms, other, p) <==> ListEntry(kind, ms[i], other) != []
  {
    hide Sorted, ListEntry, MapRec.Special;
    forall j | 0 <= j < |ms| && ms[j].Holds(p)
      ensures j == i
    {
      HolderOf(ms, j, i, p);
    }
  }

  lemma ContributesNowhere(kind: ListKind, ms: seq<MapRec>, other: seq<MapRec>, p: nat)
    requires forall j | 0 <= j < |ms| :: !ms[j].Holds(p)
    ensures !AnonContributes(kind, ms, other, p) && !Contributes(kind, ms, other, p)
  {
  }

  lemma CounterpartRange(v: Vma, ms: seq<MapRec>) returns (k: nat)
    requires Counterpart(v, ms).Some?
    ensures k < |ms| && SameRange(v, ms[k].vma) && Counterpart(v, ms) == Some(ms[k])
  {
    k :| 0 <= k < |ms| && SameRange(v, ms[k].vma) && Counterpart(v, ms) == Some(ms[k]);
  }

  lemma MappedBy(ms: seq<MapRec>, sp: AddressSpace, i: nat, p: nat)
    requires Describes(Vmas(ms), sp) && i < |ms| && ms[i].Holds(p)
    ensures p in sp && sp[p].prot == ms[i].vma.prot
  {
    assert Vmas(ms)[i].Holds(p);
  }

  lemma HolderIn(ms: seq<MapRec>, sp: AddressSpace, p: nat) returns (i: nat)
    requires Describes(Vmas(ms), sp) && p in sp
    ensures i < |ms| && ms[i].Holds(p)
  {
    var k: nat :| k < |Vmas(ms)| && Vmas(ms)[k].Holds(p);
    i := k;
  }

  /** A map that is in both captures keeps its pages and gets its protection back. */
  lemma MatchedPage(s: seq<MapRec>, c: seq<MapRec>, sp0: AddressSpace, sp1: AddressSpace, sp2: AddressSpace,
          sp3: AddressSpace, i: nat, p: nat)
    requires Passes(s, c, sp0, sp1, sp2, sp3) && i < |s| && s[i].Holds(p) && Counterpart(s[i].vma, c).Some?
    ensures SamePage(sp0, sp3, p) && sp3[p].prot == s[i].vma.prot
  {
    hide Sorted, Describes, Passes, AnonContributes, Contributes, MapRec.Special;
    PassesShape(s, c, sp0, sp1, sp2, sp3);
    var b := CounterpartRange(s[i].vma, c);
    MappedBy(c, sp0, b, p);
    CounterpartAt(c[b].vma, s, i);
    ContributesAt(AddedList, c, s, b, p);
    ContributesAt(RemovedList, s, c, i, p);
    ContributesAt(ProtectionList, s, c, i, p);
    PageThroughPasses(s, c, sp0, sp1, sp2, sp3, p);
    if ListEntry(ProtectionList, s[i], c) != [] {
      ProtThroughPasses(s, c, sp0, sp1, sp2, sp3, i, p);
    }
  }

  lemma PassesShape(s: seq<MapRec>, c: seq<MapRec>, sp0: AddressSpace, sp1: AddressSpace, sp2: AddressSpace,
          sp3: AddressSpace)
    requires Passes(s, c, sp0, sp1, sp2, sp3)
    ensures Sorted(Vmas(s)) && Sorted(Vmas(c)) && Describes(Vmas(c), sp0)
  {
  }

  /** A map that is gone comes back empty, with its protection. */
  lemma GonePage(s: seq<MapRec>, c: seq<MapRec>, sp0: AddressSpace, sp1: AddressSpace, sp2: AddressSpace,
          sp3: AddressSpace, i: nat, p: nat)
    requires Passes(s, c, sp0, sp1, sp2, sp3) && i < |s| && s[i].Holds(p)
    requires Counterpart(s[i].vma, c) == None && !s[i].Special()
    ensures p in sp3 && sp3[p] == FreshCell(s[i].vma.prot)
  {
    hide Sorted, Describes, Passes, AnonContributes, Contributes, MapRec.Special;
    PassesShape(s, c, sp0, sp1, sp2, sp3);
    ContributesAt(RemovedList, s, c, i, p);
    ContributesAt(ProtectionList, s, c, i, p);
    PageThroughPasses(s, c, sp0, sp1, sp2, sp3, p);
    ProtThroughPasses(s, c, sp0, sp1, sp2, sp3, i, p);
  }

  /** A page of an unmatched special map of the snapshot survives exactly if a special map holds it now. */
  lemma SpecialPage(s: seq<MapRec>, c: seq<MapRec>, sp0: AddressSpace, sp1: AddressSpace, sp2: AddressSpace,
          sp3: AddressSpace, i: nat, b: nat, p: nat)
    requires Passes(s, c, sp0, sp1, sp2, sp3) && i < |s| && s[i].Holds(p)
    requires Counterpart(s[i].vma, c) == None && s[i].Special()
    requires b < |c| && c[b].Holds(p)
    ensures Counterpart(c[b].vma, s) == None
    ensures c[b].Special() ==> SamePage(sp0, sp3, p) && sp3[p].prot == c[b].vma.prot
    ensures !c[b].Special() ==> p !in sp3
  {
    hide Sorted, Describes, Passes, AnonContributes, Contributes, MapRec.Special;
    PassesShape(s, c, sp0, sp1, sp2, sp3);
    if Counterpart(c[b].vma, s).Some? {
      var j := CounterpartRange(c[b].vma, s);
      HolderOf(s, i, j, p);
      CounterpartAt(s[i].vma, c, b);
    }
    MappedBy(c, sp0, b, p);
    ContributesAt(AddedList, c, s, b, p);
    ContributesAt(RemovedList, s, c, i, p);
    ContributesAt(ProtectionList, s, c, i, p);
    PageThroughPasses(s, c, sp0, sp1, sp2, sp3, p);
  }

  lemma UnheldPage(s: seq<MapRec>, c: seq<MapRec>, sp0: AddressSpace, sp1: AddressSpace, sp2: AddressSpace,
          sp3: AddressSpace, i: nat, p: nat)
    requires Passes(s, c, sp0, sp1, sp2, sp3) && i < |s| && s[i].Holds(p) && s[i].Special()
    requires p !in sp0
    ensures p !in sp3
  {
    hide Sorted, Describes, Passes, AnonContributes, Contributes, MapRec.Special;
    PassesShape(s, c, sp0, sp1, sp2, sp3);
    ContributesAt(RemovedList, s, c, i, p);
    PageThroughPasses(s, c, sp0, sp1, sp2, sp3, p);
  }

  /** A page outside the snapshot survives exactly if the heap or the stack holds it. */
  lemma OutsidePage(s: seq<MapRec>, c: seq<MapRec>, sp0: AddressSpace, sp1: AddressSpace, sp2: AddressSpace,
          sp3: AddressSpace, p: nat)
    requires Passes(s, c, sp0, sp1, sp2, sp3)
    requires forall i | 0 <= i < |s| :: !s[i].Holds(p)
    ensures p in sp3 <==> exists b :: 0 <= b < |c| && c[b].Holds(p) && c[b].Special()
    ensures p in sp3 ==> SamePage(sp0, sp3, p)
  {
    hide Sorted, Describes, Passes, AnonContributes, Contributes, MapRec.Special;
    PassesShape(s, c, sp0, sp1, sp2, sp3);
    ContributesNowhere(RemovedList, s, c, p);
    ContributesNowhere(ProtectionList, s, c, p);
    PageThroughPasses(s, c, sp0, sp1, sp2, sp3, p);
    if p in sp0 {
      var b := HolderIn(c, sp0, p);
      ContributesAt(AddedList, c, s, b, p);
      if Counterpart(c[b].vma, s).Some? {
        var j := CounterpartRange(c[b].vma, s);
      }
      forall a | 0 <= a < |c| && c[a].Holds(p)
        ensures a == b
      {
        HolderOf(c, a, b, p);
      }
    } else {
      forall b | 0 <= b < |c| && c[b].Holds(p)
        ensures false
      {
        MappedBy(c, sp0, b, p);
      }
    }
  }

  lemma HeapIsNotStack(m: MapRec)
    ensures !(m.Named(HEAP) && m.Named(STACK))
  {
    assert HEAP[1] != STACK[1];
  }

  lemma SpecialIndex(ms: seq<MapRec>, h: nat, t: nat, k: nat)
    requires OnlyAt(ms, HEAP, h) && OnlyAt(ms, STACK, t) && k < |ms|
    ensures h != t
    ensures ms[k].Special() <==> k == h || k == t
  {
    HeapIsNotStack(ms[h]);
  }

  /** The pages that brk and the stack trimming still have to add and to remove. */
  predicate Shrunk(s: seq<MapRec>, c: seq<MapRec>, hs: nat, hc: nat, p: nat)
    requires hs < |s| && hc < |c|
  {
    c[hc].vma.end <= p < s[hs].vma.end
  }

  predicate Grown(s: seq<MapRec>, c: seq<MapRec>, hs: nat, hc: nat, ss: nat, sc: nat, p: nat)
    requires hs < |s| && hc < |c| && ss < |s| && sc < |c|
  {
    s[hs].vma.end <= p < c[hc].vma.end || c[sc].vma.start <= p < s[ss].vma.start
  }

  /** After the passes, a page is mapped as in the snapshot unless brk or the stack still owe it. */
  ghost predicate PageSettled(s: seq<MapRec>, c: seq<MapRec>, sp0: AddressSpace, sp3: AddressSpace, hs: nat, hc: nat,
          ss: nat, sc: nat, p: nat)
    requires hs < |s| && ss < |s| && hc < |c| && sc < |c|
  {
    && (p in sp3 <==> (AnyHolds(s, |s|, p) && !Shrunk(s, c, hs, hc, p)) || Grown(s, c, hs, hc, ss, sc, p))
    && (p in sp3 ==> CarriedAt(sp0, sp3, Renewed(s, c, p), p))
    && (p in sp3 ==> forall i | 0 <= i < |s| && s[i].Holds(p) :: sp3[p].prot == s[i].vma.prot)
  }

  lemma HeapPage(s: seq<MapRec>, c: seq<MapRec>, sp0: AddressSpace, sp1: AddressSpace, sp2: AddressSpace,
          sp3: AddressSpace,
                 brk: nat, hs: nat, hc: nat, ss: nat, sc: nat, p: nat)
    requires Passes(s, c, sp0, sp1, sp2, sp3) && Anchored(s, c, brk, hs, hc, ss, sc)
    requires s[hs].Holds(p) && Counterpart(s[hs].vma, c) == None
    ensures p in sp3 <==> p < c[hc].vma.end
    ensures p in sp3 ==> SamePage(sp0, sp3, p) && sp3[p].prot == s[hs].vma.prot
  {
    hide Sorted, Describes, Passes, MapRec.Special, MapRec.Named;
    PassesShape(s, c, sp0, sp1, sp2, sp3);
    SpecialIndex(s, hs, ss, hs);
    if p < c[hc].vma.end {
      SpecialIndex(c, hc, sc, hc);
      SpecialPage(s, c, sp0, sp1, sp2, sp3, hs, hc, p);
      if s[hs].vma.end == c[hc].vma.end { CounterpartAt(s[hs].vma, c, hc); }
    } else if p in sp0 {
      var b := HolderIn(c, sp0, p);
      SpecialIndex(c, hc, sc, b);
      SpecialPage(s, c, sp0, sp1, sp2, sp3, hs, b, p);
    } else {
      UnheldPage(s, c, sp0, sp1, sp2, sp3, hs, p);
    }
  }

  lemma StackPage(s: seq<MapRec>, c: seq<MapRec>, sp0: AddressSpace, sp1: AddressSpace, sp2: AddressSpace,
          sp3: AddressSpace,
                  brk: nat, hs: nat, hc: nat, ss: nat, sc: nat, p: nat)
    requires Passes(s, c, sp0, sp1, sp2, sp3) && Anchored(s, c, brk, hs, hc, ss, sc)
    requires s[ss].Holds(p) && Counterpart(s[ss].vma, c) == None
    ensures SamePage(sp0, sp3, p) && sp3[p].prot == s[ss].vma.prot
  {
    hide Sorted, Describes, Passes, MapRec.Special, MapRec.Named;
    PassesShape(s, c, sp0, sp1, sp2, sp3);
    SpecialIndex(s, hs, ss, ss);
    SpecialIndex(c, hc, sc, sc);
    SpecialPage(s, c, sp0, sp1, sp2, sp3, ss, sc, p);
    if s[ss].vma.start == c[sc].vma.start { CounterpartAt(s[ss].vma, c, sc); }
  }

  lemma CoveredPageSettled(s: seq<MapRec>, c: seq<MapRec>, sp0: AddressSpace, sp1: AddressSpace, sp2: AddressSpace,
          sp3: AddressSpace,
                           brk: nat, hs: nat, hc: nat, ss: nat, sc: nat, i: nat, p: nat)
    requires Passes(s, c, sp0, sp1, sp2, sp3) && Anchored(s, c, brk, hs, hc, ss, sc) && i < |s| && s[i].Holds(p)
    ensures p in sp3 <==> !Shrunk(s, c, hs, hc, p)
    ensures p in sp3 ==> CarriedAt(sp0, sp3, GoneAt(s, c, i), p)
    ensures p in sp3 ==> sp3[p].prot == s[i].vma.prot
  {
    hide Sorted, Describes, Passes, MapRec.Special, MapRec.Named;
    PassesShape(s, c, sp0, sp1, sp2, sp3);
    SpecialIndex(s, hs, ss, i);
    HeapOrder(s, c, brk, hs, hc, ss, sc);
    if Shrunk(s, c, hs, hc, p) { HolderOf(s, i, hs, p); }
    if Counterpart(s[i].vma, c).Some? {
      MatchedPage(s, c, sp0, sp1, sp2, sp3, i, p);
      var b := CounterpartRange(s[i].vma, c);
      if i == hs { HolderOf(c, b, hc, c[hc].vma.start); }
    } else if !s[i].Special() {
      GonePage(s, c, sp0, sp1, sp2, sp3, i, p);
    } else if i == hs {
      HeapPage(s, c, sp0, sp1, sp2, sp3, brk, hs, hc, ss, sc, p);
    } else {
      StackPage(s, c, sp0, sp1, sp2, sp3, brk, hs, hc, ss, sc, p);
    }
  }

  lemma HeapOrder(s: seq<MapRec>, c: seq<MapRec>, brk: nat, hs: nat, hc: nat, ss: nat, sc: nat)
    requires Sorted(Vmas(s)) && Sorted(Vmas(c)) && Anchored(s, c, brk, hs, hc, ss, sc)
    ensures s[hs].vma.start < s[hs].vma.end && s[ss].vma.start < s[ss].vma.end
    ensures c[hc].vma.start < c[hc].vma.end && c[sc].vma.start < c[sc].vma.end
  {
    assert Vmas(s)[hs] == s[hs].vma && Vmas(s)[ss] == s[ss].vma;
    assert Vmas(c)[hc] == c[hc].vma && Vmas(c)[sc] == c[sc].vma;
  }

  /** The unshared end of the heap or the stack belongs to no map of the snapshot. */
  lemma GrownIsOutside(s: seq<MapRec>, c: seq<MapRec>, brk: nat, hs: nat, hc: nat, ss: nat, sc: nat, p: nat)
    requires Sorted(Vmas(s)) && Sorted(Vmas(c)) && Anchored(s, c, brk, hs, hc, ss, sc)
    requires Grown(s, c, hs, hc, ss, sc, p)
    ensures !AnyHolds(s, |s|, p)
    ensures c[hc].Holds(p) || c[sc].Holds(p)
  {
    hide Sorted, MapRec.Named;
    HeapOrder(s, c, brk, hs, hc, ss, sc);
  }

  lemma AnchorBounds(s: seq<MapRec>, c: seq<MapRec>, brk: nat, hs: nat, hc: nat, ss: nat, sc: nat)
    requires Anchored(s, c, brk, hs, hc, ss, sc)
    ensures hs < |s| && ss < |s| && hc < |c| && sc < |c|
  {
  }

  lemma PageSettles(s: seq<MapRec>, c: seq<MapRec>, sp0: AddressSpace, sp1: AddressSpace, sp2: AddressSpace,
          sp3: AddressSpace,
                    brk: nat, hs: nat, hc: nat, ss: nat, sc: nat, p: nat)
    requires Passes(s, c, sp0, sp1, sp2, sp3) && Anchored(s, c, brk, hs, hc, ss, sc)
    ensures PageSettled(s, c, sp0, sp3, hs, hc, ss, sc, p)
  {
    hide Sorted, Describes, Passes, MapRec.Special, MapRec.Named, OnlyAt, ClearOfOthers;
    PassesShape(s, c, sp0, sp1, sp2, sp3);
    AnchorBounds(s, c, brk, hs, hc, ss, sc);
    if Grown(s, c, hs, hc, ss, sc, p) { GrownIsOutside(s, c, brk, hs, hc, ss, sc, p); }
    if AnyHolds(s, |s|, p) {
      forall i: nat | i < |s| && s[i].Holds(p)
        ensures p in sp3 <==> !Shrunk(s, c, hs, hc, p)
        ensures p in sp3 ==> CarriedAt(sp0, sp3, Renewed(s, c, p), p)
        ensures p in sp3 ==> sp3[p].prot == s[i].vma.prot
      {
        CoveredPageSettled(s, c, sp0, sp1, sp2, sp3, brk, hs, hc, ss, sc, i, p);
        RenewedAt(s, c, i, p);
      }
    } else {
      OutsidePage(s, c, sp0, sp1, sp2, sp3, p);
      SpecialHoldsOutside(s, c, brk, hs, hc, ss, sc, p);
    }
  }

  lemma RenewedAt(s: seq<MapRec>, c: seq<MapRec>, i: nat, p: nat)
    requires Sorted(Vmas(s)) && i < |s| && s[i].Holds(p)
    ensures Renewed(s, c, p) <==> GoneAt(s, c, i)
  {
    hide Sorted, GoneAt;
    forall j: nat | j < |s| && s[j].Holds(p)
      ensures j == i
    {
      HolderOf(s, j, i, p);
    }
  }

  lemma SpecialHoldsOutside(s: seq<MapRec>, c: seq<MapRec>, brk: nat, hs: nat, hc: nat, ss: nat, sc: nat, p: nat)
    requires Sorted(Vmas(s)) && Sorted(Vmas(c)) && Anchored(s, c, brk, hs, hc, ss, sc) && !AnyHolds(s, |s|, p)
    ensures Grown(s, c, hs, hc, ss, sc, p) <==> exists b :: 0 <= b < |c| && c[b].Holds(p) && c[b].Special()
  {
    hide Sorted, MapRec.Special, MapRec.Named;
    HeapOrder(s, c, brk, hs, hc, ss, sc);
    forall b: nat | b < |c|
      ensures c[b].Special() <==> b == hc || b == sc
    {
      SpecialIndex(c, hc, sc, b);
    }
    assert !s[hs].Holds(p) && !s[ss].Holds(p);
    if Grown(s, c, hs, hc, ss, sc, p) {
      assert c[hc].Holds(p) || c[sc].Holds(p);
    }
  }

  function AfterBrk(sp: AddressSpace, brk: nat, end: nat): AddressSpace {
    if end < brk then Unmapped(sp, end, brk - end)
    else if brk < end then Mapped(sp, brk, end - brk, Prot(true, true, false))
    else sp
  }

  function AfterTrim(sp: AddressSpace, now: nat, then_: nat): AddressSpace {
    if now < then_ then Unmapped(sp, now, then_ - now) else sp
  }

  /** The break can be moved: nothing is mapped where the heap has to grow. */
  lemma BrkIsClear(s: seq<MapRec>, c: seq<MapRec>, sp0: AddressSpace, sp3: AddressSpace, brk: nat, hs: nat, hc: nat,
          ss: nat, sc: nat)
    requires Sorted(Vmas(s)) && Sorted(Vmas(c)) && Anchored(s, c, brk, hs, hc, ss, sc)
    requires forall p: nat :: PageSettled(s, c, sp0, sp3, hs, hc, ss, sc, p)
    ensures forall p: nat | brk <= p < s[hs].vma.end :: p !in sp3
  {
    hide Sorted, MapRec.Named;
    HeapOrder(s, c, brk, hs, hc, ss, sc);
    forall p: nat | brk <= p < s[hs].vma.end
      ensures p !in sp3
    {
      assert s[hs].Holds(p) && Shrunk(s, c, hs, hc, p);
      if Grown(s, c, hs, hc, ss, sc, p) { GrownIsOutside(s, c, brk, hs, hc, ss, sc, p); }
      assert PageSettled(s, c, sp0, sp3, hs, hc, ss, sc, p);
    }
  }

  lemma PageRestored(s: seq<MapRec>, c: seq<MapRec>, sp0: AddressSpace, sp3: AddressSpace, brk: nat, hs: nat,
          hc: nat, ss: nat, sc: nat, p: nat)
    requires Sorted(Vmas(s)) && Sorted(Vmas(c)) && Anchored(s, c, brk, hs, hc, ss, sc)
    requires PageSettled(s, c, sp0, sp3, hs, hc, ss, sc, p)
    ensures var sp := AfterTrim(AfterBrk(sp3, brk, s[hs].vma.end), c[sc].vma.start, s[ss].vma.start);
      && (p in sp <==> AnyHolds(s, |s|, p))
      && (p in sp ==> CarriedAt(sp0, sp, Renewed(s, c, p) || Shrunk(s, c, hs, hc, p), p))
      && (p in sp ==> forall i | 0 <= i < |s| && s[i].Holds(p) :: sp[p].prot == s[i].vma.prot)
  {
    hide Sorted, MapRec.Named, AnyHolds, Renewed;
    HeapOrder(s, c, brk, hs, hc, ss, sc);
    if Grown(s, c, hs, hc, ss, sc, p) { GrownIsOutside(s, c, brk, hs, hc, ss, sc, p); }
    if Shrunk(s, c, hs, hc, p) {
      assert s[hs].Holds(p);
      HeldIsHeld(s, hs, p);
      forall i: nat | i < |s| && s[i].Holds(p)
        ensures i == hs
      {
        HolderOf(s, i, hs, p);
      }
    }
  }

  lemma HeldIsHeld(s: seq<MapRec>, i: nat, p: nat)
    requires i < |s| && s[i].Holds(p)
    ensures AnyHolds(s, |s|, p)
  {
  }

  /**
   Layout restoration: unmapping the added maps, mapping the removed ones, fixing protections, moving
   the break and trimming the stack turn any current layout into exactly the snapshot's pages and
   protections; a page either kept its content on the way or is new and empty.
   */
  lemma LayoutRestored(s: seq<MapRec>, c: seq<MapRec>, sp0: AddressSpace, sp1: AddressSpace, sp2: AddressSpace,
          sp3: AddressSpace,
                       brk: nat, hs: nat, hc: nat, ss: nat, sc: nat)
    requires Passes(s, c, sp0, sp1, sp2, sp3) && Anchored(s, c, brk, hs, hc, ss, sc)
    ensures forall p: nat | brk <= p < s[hs].vma.end :: p !in sp3
    ensures var sp := AfterTrim(AfterBrk(sp3, brk, s[hs].vma.end), c[sc].vma.start, s[ss].vma.start);
      Describes(Vmas(s), sp) && Carried(sp0, sp) && LayoutCarried(s, c, sp0, sp, hs, hc)
  {
    hide Passes, Sorted, MapRec.Named, AnyHolds, Grown, Shrunk, AfterBrk, AfterTrim, Renewed;
    var sp := AfterTrim(AfterBrk(sp3, brk, s[hs].vma.end), c[sc].vma.start, s[ss].vma.start);
    PassesShape(s, c, sp0, sp1, sp2, sp3);
    forall p: nat
      ensures PageSettled(s, c, sp0, sp3, hs, hc, ss, sc, p)
    {
      PageSettles(s, c, sp0, sp1, sp2, sp3, brk, hs, hc, ss, sc, p);
    }
    BrkIsClear(s, c, sp0, sp3, brk, hs, hc, ss, sc);
    forall p: nat
      ensures p in sp <==> Covers(Vmas(s), p)
      ensures p in sp ==> CarriedAt(sp0, sp, Renewed(s, c, p) || Shrunk(s, c, hs, hc, p), p)
      ensures p in sp ==> forall i | 0 <= i < |s| && s[i].Holds(p) :: sp[p].prot == s[i].vma.prot
    {
      PageRestored(s, c, sp0, sp3, brk, hs, hc, ss, sc, p);
      CoversIsHeld(s, p);
    }
    DescribesByMaps(s, sp);
  }

  lemma CoversIsHeld(s: seq<MapRec>, p: nat)
    ensures Covers(Vmas(s), p) <==> AnyHolds(s, |s|, p)
  {
    if Covers(Vmas(s), p) {
      var i :| 0 <= i < |Vmas(s)| && Vmas(s)[i].Holds(p);
      assert s[i].Holds(p);
    }
    if AnyHolds(s, |s|, p) {
      var i :| 0 <= i < |s| && s[i].Holds(p);
      assert Vmas(s)[i].Holds(p);
    }
  }

  lemma DescribesByMaps(s: seq<MapRec>, sp: AddressSpace)
    requires Sorted(Vmas(s))
    requires forall p: nat :: p in sp <==> Covers(Vmas(s), p)
    requires forall p: nat | p in sp :: forall i | 0 <= i < |s| && s[i].Holds(p) :: sp[p].prot == s[i].vma.prot
    ensures Describes(Vmas(s), sp)
  {
    hide Sorted;
    forall i, p: nat | 0 <= i < |Vmas(s)| && Vmas(s)[i].Holds(p)
      ensures p in sp && sp[p].prot == Vmas(s)[i].prot
    {
      assert Covers(Vmas(s), p);
      assert s[i].Holds(p);
    }
  }

  // ---- The system calls ----

  /** The page is in one of the maps that are neither heap nor stack by their names. */
  predicate UnnamedHold(l: seq<MapRec>, p: nat) {
    exists k | 0 <= k < |l| :: !("[heap]" <= l[k].vma.name) && !("[stack]" <= l[k].vma.name) && l[k].Holds(p)
  }

  lemma UnnamedIsAnon(l: seq<MapRec>)
    ensures forall p: nat :: UnnamedHold(l, p) <==> AnonHolds(l, |l|, p)
  {
  }

  /** Unmaps the added maps, except those whose names begin with [heap] or [stack]. */
  method RemoveAddedMemory(process: Process, added: seq<MapRec>)
    requires Sorted(Vmas(added))
    modifies process`space
    ensures AddedGone(old(process.space), process.space, added, |added|)
    ensures forall p: nat :: p in process.space <==> p in old(process.space) && !UnnamedHold(added, p)
  {
    hide Sorted, AddedGone, UnnamedHold;
    ghost var sp := process.space;
    var i := 0;
    PassesStart(sp, added);
    while i < |added|
      invariant i <= |added| && AddedGone(sp, process.space, added, i)
    {
      Apart(added, i);
      AddedGoneStep(sp, process.space, added, i);
      if !added[i].Named(HEAP) && !added[i].Named(STACK) {
        process.Munmap(added[i].vma.start, added[i].vma.end - added[i].vma.start);
      }
      i := i + 1;
    }
    UnnamedIsAnon(added);
    GoneExactly(sp, process.space, added);
  }

  lemma GoneExactly(sp: AddressSpace, sp': AddressSpace, l: seq<MapRec>)
    requires AddedGone(sp, sp', l, |l|)
    ensures forall p: nat :: p in sp' <==> p in sp && !AnonHolds(l, |l|, p)
  {
  }

  lemma BackExactly(sp: AddressSpace, sp': AddressSpace, l: seq<MapRec>)
    requires RemovedBack(sp, sp', l, |l|)
    ensures forall p: nat :: p in sp' <==> p in sp || AnonHolds(l, |l|, p)
  {
  }

  lemma PassesStart(sp: AddressSpace, l: seq<MapRec>)
    ensures AddedGone(sp, sp, l, 0) && RemovedBack(sp, sp, l, 0) && ProtectionBack(sp, sp, l, 0)
  {
  }

  /** Maps the removed maps again, except those whose names begin with [heap] or [stack]. */
  method RestoreRemovedMemory(process: Process, removed: seq<MapRec>)
    requires Sorted(Vmas(removed))
    modifies process`space
    ensures RemovedBack(old(process.space), process.space, removed, |removed|)
    ensures forall p: nat :: p in process.space <==> p in old(process.space) || UnnamedHold(removed, p)
  {
    hide Sorted, RemovedBack, UnnamedHold;
    ghost var sp := process.space;
    var i := 0;
    PassesStart(sp, removed);
    while i < |removed|
      invariant i <= |removed| && RemovedBack(sp, process.space, removed, i)
    {
      if removed[i].Named(HEAP) || removed[i].Named(STACK) {
        RemovedBackSkip(sp, process.space, removed, i);
      } else {
        RemovedBackStep(sp, process.space, removed, i);
        process.Mmap(removed[i].vma.start, removed[i].vma.end - removed[i].vma.start, removed[i].vma.prot);
      }
      i := i + 1;
    }
    UnnamedIsAnon(removed);
    BackExactly(sp, process.space, removed);
  }

  method RestoreMemoryProtection(process: Process, protection: seq<MapRec>)
    requires Sorted(Vmas(protection))
    requires forall p: nat | AnyHolds(protection, |protection|, p) :: p in process.space
    modifies process`space
    ensures ProtectionBack(old(process.space), process.space, protection, |protection|)
  {
    hide Sorted, ProtectionBack;
    ghost var sp := process.space;
    var i := 0;
    PassesStart(sp, protection);
    while i < |protection|
      invariant i <= |protection| && ProtectionBack(sp, process.space, protection, i)
      invariant process.space.Keys == sp.Keys
    {
      Apart(protection, i);
      ProtectionBackStep(sp, process.space, protection, i);
      forall p: nat | InRange(p, protection[i].vma.start, protection[i].vma.end - protection[i].vma.start)
        ensures p in process.space
      {
        HeldIsHeld(protection, i, p);
      }
      process.Mprotect(protection[i].vma.start, protection[i].vma.end - protection[i].vma.start,
          protection[i].vma.prot);
      i := i + 1;
    }
  }

  /** Moves the break back to where the snapshot's heap ends. */
  method RestoreBrk(process: Process, checkpointed: MemInfo, current: MemInfo, ghost hs: nat, ghost hc: nat)
    requires checkpointed.Valid() && current.Valid()
    requires OnlyAt(checkpointed.Maps(), "[heap]", hs) && hs + 1 < checkpointed.mapsCount
    requires OnlyAt(current.Maps(), "[heap]", hc) && hc + 1 < current.mapsCount
    requires current.Maps()[hc].vma.end == process.brk
    requires forall p: nat | process.brk <= p < checkpointed.Maps()[hs].vma.end :: p !in process.space
    modifies process`space, process`brk
    ensures process.space == AfterBrk(old(process.space), old(process.brk), checkpointed.Maps()[hs].vma.end)
    ensures process.brk == checkpointed.Maps()[hs].vma.end
  {
    hide MapRec.Named;
    var i := checkpointed.GetMapIndexByName(HEAP, true);
    HeapFound(checkpointed.Maps(), hs, i);
    var j := current.GetMapIndexByName(HEAP, true);
    HeapFound(current.Maps(), hc, j);
    if checkpointed.maps[i].vma.end != current.maps[j].vma.end {
      process.Brk(checkpointed.maps[i].vma.end);
    }
  }

  /** The forward search finds the only heap exactly if another map follows it; otherwise the result is -1. */
  lemma HeapFound(ms: seq<MapRec>, h: nat, index: int)
    requires OnlyAt(ms, HEAP, h) && -1 <= index < |ms|
    requires index >= 0 ==> ms[index].Named(HEAP) && index + 1 < |ms|
    requires index < 0 ==> forall k | 0 <= k < |ms| - 1 :: ms[k].Named(HEAP) ==> ms[k + 1].Named(HEAP)
    ensures index == if h + 1 < |ms| then h else -1
  {
    hide MapRec.Named;
    if h + 1 < |ms| { assert ms[h].Named(HEAP) && !ms[h + 1].Named(HEAP); }
  }

  /** The backward search finds the only stack. */
  lemma StackFound(ms: seq<MapRec>, t: nat, index: int)
    requires OnlyAt(ms, STACK, t) && -1 <= index < |ms|
    requires index >= 0 ==> ms[index].Named(STACK)
    requires forall k | index < k < |ms| :: !ms[k].Named(STACK)
    ensures index == t
  {
  }

  /** Unmaps what the stack has grown by since the snapshot. */
  method ZeroStack(process: Process, checkpointed: MemInfo, current: MemInfo, ghost ss: nat, ghost sc: nat)
    requires checkpointed.Valid() && current.Valid()
    requires OnlyAt(checkpointed.Maps(), "[stack]", ss) && OnlyAt(current.Maps(), "[stack]", sc)
    requires current.Maps()[sc].vma.start <= checkpointed.Maps()[ss].vma.start
    requires (checkpointed.Maps()[ss].vma.start - current.Maps()[sc].vma.start) * PSIZE <= INT_MAX
    modifies process`space
    ensures process.space == AfterTrim(old(process.space), current.Maps()[sc].vma.start,
        checkpointed.Maps()[ss].vma.start)
  {
    hide MapRec.Named;
    var i := checkpointed.GetMapIndexByName(STACK, false);
    StackFound(checkpointed.Maps(), ss, i);
    var j := current.GetMapIndexByName(STACK, false);
    StackFound(current.Maps(), sc, j);
    var sizeToRemove := checkpointed.maps[i].vma.start - current.maps[j].vma.start;
    if sizeToRemove != 0 {
      process.Munmap(current.maps[j].vma.start, sizeToRemove);
    }
  }

  lemma ProtectedAreMapped(s: seq<MapRec>, c: seq<MapRec>, sp0: AddressSpace, sp1: AddressSpace, sp2: AddressSpace,
          p: nat)
    requires Sorted(Vmas(s)) && Describes(Vmas(c), sp0)
    requires var l := Collect(s, c, |s|, |c|);
      && AddedGone(sp0, sp1, l.added, |l.added|) && RemovedBack(sp1, sp2, l.removed, |l.removed|)
      && AnyHolds(l.protection, |l.protection|, p)
    ensures p in sp2
  {
    hide Sorted, Describes, AnyHolds, AnonHolds, Contributes, AnonContributes;
    DescribesSorted(c, sp0);
    AnyListHolds(ProtectionList, s, c, p);
    var i := ContributorOf(ProtectionList, s, c, p);
    var b := CounterpartRange(s[i].vma, c);
    MappedBy(c, sp0, b, p);
    CounterpartAt(c[b].vma, s, i);
    ContributesAt(AddedList, c, s, b, p);
    AnonListHolds(AddedList, c, s, p);
  }

  lemma DescribesSorted(c: seq<MapRec>, sp: AddressSpace)
    requires Describes(Vmas(c), sp)
    ensures Sorted(Vmas(c))
  {
  }

  lemma ContributorOf(kind: ListKind, ms: seq<MapRec>, other: seq<MapRec>, p: nat) returns (i: nat)
    requires Contributes(kind, ms, other, p)
    ensures i < |ms| && ListEntry(kind, ms[i], other) != [] && ms[i].Holds(p)
  {
    i :| 0 <= i < |ms| && ListEntry(kind, ms[i], other) != [] && ms[i].Holds(p);
  }

  lemma ListsSorted(s: seq<MapRec>, c: seq<MapRec>)
    requires Sorted(Vmas(s)) && Sorted(Vmas(c))
    ensures var l := Collect(s, c, |s|, |c|);
      && Sorted(Vmas(l.added)) && Sorted(Vmas(l.removed)) && Sorted(Vmas(l.modified)) && Sorted(Vmas(l.protection))
  {
    hide Sorted;
    CollectedSorted(AddedList, c, |c|, s);
    CollectedSorted(RemovedList, s, |s|, c);
    CollectedSorted(ModifiedList, s, |s|, c);
    CollectedSorted(ProtectionList, s, |s|, c);
  }

  /** The first half of a restore: from the current layout to the snapshot's. */
  method RestoreMemoryLayout(process: Process, checkpointed: MemInfo, current: MemInfo, d: ProcessMemDiff,
                             ghost hs: nat, ghost hc: nat, ghost ss: nat, ghost sc: nat)
    requires checkpointed.Valid() && current.Valid()
    requires Sorted(Vmas(checkpointed.Maps())) && Describes(Vmas(current.Maps()), process.space)
    requires Anchored(checkpointed.Maps(), current.Maps(), process.brk, hs, hc, ss, sc)
    requires d.Lists() == Collect(checkpointed.Maps(), current.Maps(), checkpointed.mapsCount, current.mapsCount)
    modifies process`space, process`brk
    ensures Describes(Vmas(checkpointed.Maps()), process.space)
    ensures Carried(old(process.space), process.space)
    ensures LayoutCarried(checkpointed.Maps(), current.Maps(), old(process.space), process.space, hs, hc)
    ensures process.brk == checkpointed.Maps()[hs].vma.end
  {
    hide Sorted, Describes, MapRec.Named, AddedGone, RemovedBack, ProtectionBack, Collected, AnyHolds, Carried,
      LayoutCarried;
    ghost var s, c, sp0 := checkpointed.Maps(), current.Maps(), process.space;
    DescribesSorted(c, sp0);
    ListsSorted(s, c);
    RemoveAddedMemory(process, d.added);
    ghost var sp1 := process.space;
    RestoreRemovedMemory(process, d.removed);
    ghost var sp2 := process.space;
    forall p: nat | AnyHolds(d.protection, |d.protection|, p)
      ensures p in sp2
    {
      ProtectedAreMapped(s, c, sp0, sp1, sp2, p);
    }
    RestoreMemoryProtection(process, d.protection);
    LayoutRestored(s, c, sp0, sp1, sp2, process.space, process.brk, hs, hc, ss, sc);
    RestoreBrk(process, checkpointed, current, hs, hc);
    ZeroStack(process, checkpointed, current, ss, sc);
  }
}
