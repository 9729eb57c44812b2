/**
 The difference between two captures: a merge of two map tables that advances two indices and
 sorts every map into the lists the restore works from.
 */
module Diff {
  import opened Wrappers
  import opened Paging
  import opened Layout
  import opened Records
  import opened MemoryInfo

  datatype DiffState = IDENTICAL | MODIFIED | MODIFIED_PROTECTION | ADDED_AND_REMOVED | ADDED | REMOVED | DONE

  // ---- What the lists mean ----

  /** The map of `ms` with exactly the range of `v`, if there is one. */
  ghost function Counterpart(v: Vma, ms: seq<MapRec>): Option<MapRec> {
    if k :| 0 <= k < |ms| && SameRange(v, ms[k].vma) then Some(ms[k]) else None
  }

  lemma CounterpartAt(v: Vma, ms: seq<MapRec>, k: nat)
    requires Sorted(Vmas(ms)) && k < |ms| && SameRange(v, ms[k].vma)
    ensures Counterpart(v, ms) == Some(ms[k])
  {
    forall j | 0 <= j < |ms| && SameRange(v, ms[j].vma)
      ensures j == k
    {
      assert Vmas(ms)[j].Holds(v.start) && Vmas(ms)[k].Holds(v.start);
      HolderUnique(Vmas(ms), j, k, v.start);
    }
  }

  lemma CounterpartNone(v: Vma, ms: seq<MapRec>)
    requires forall k | 0 <= k < |ms| :: !SameRange(v, ms[k].vma)
    ensures Counterpart(v, ms) == None
  {
  }

  /** A map that is gone is restored as if every page were dirty. */
  function WhollyDirty(m: MapRec): MapRec {
    m.(dirty := true, softDirtyCount := m.totalPages)
  }

  /** The first capture's map with the second capture's dirtiness. */
  function WithCounts(m: MapRec, c: MapRec, freed: bool): MapRec {
    m.(dirty := true, softDirtyCount := c.softDirtyCount, freedCount := if freed then c.freedCount else m.freedCount)
  }

  datatype ListKind = AddedList | RemovedList | ModifiedList | ProtectionList

  /** The contribution of map `m` to a list, given the other capture. */
  ghost function ListEntry(kind: ListKind, m: MapRec, other: seq<MapRec>): (es: seq<MapRec>)
    ensures |es| <= 1
    ensures es != [] ==> es[0].vma == m.vma
  {
    match (kind, Counterpart(m.vma, other))
    case (AddedList, None) => [Reset(m)]
    case (RemovedList, None) => [Reset(WhollyDirty(m))]
    case (ModifiedList, None) => [WhollyDirty(m)]
    case (ModifiedList, Some(c)) =>
      if MapRegionsCmp(m, c) == 0 then [] else [WithCounts(m, c, m.vma.prot == c.vma.prot)]
    case (ProtectionList, Some(c)) =>
      if MapRegionsCmp(m, c) != 0 && m.vma.prot != c.vma.prot then [WithCounts(m, c, false)] else []
    case _ => []
  }

  /**
   What the lists say about a map that both captures have: nothing if the two agree on everything but
   where their pages and copies are kept. Otherwise the first capture's map, marked, with the second
   one's count of dirty pages, and with its count of freed pages if the protection is the same.
   */
  lemma SharedEntries(m: MapRec, other: seq<MapRec>, k: nat)
    requires Sorted(Vmas(other)) && k < |other|
    requires other[k].vma.start == m.vma.start && other[k].vma.end == m.vma.end
    ensures
      var c := other[k];
      var same := c == m.(totalPaged := c.totalPaged, populated := c.populated, firstWmem := c.firstWmem,
                          firstPage := c.firstPage);
      var freed := if c.vma.prot == m.vma.prot then c.freedCount else m.freedCount;
      var e := MapRec(m.vma, m.totalPages, c.softDirtyCount, freed, m.totalPaged, m.populated, m.firstWmem,
                      m.firstPage, true);
      && ListEntry(ModifiedList, m, other) == (if same then [] else [e])
      && ListEntry(ProtectionList, m, other) == (if c.vma.prot == m.vma.prot then [] else [e])
      && ListEntry(AddedList, m, other) == [] && ListEntry(RemovedList, m, other) == []
  {
    CounterpartAt(m.vma, other, k);
    hide Counterpart, Sorted;
  }

  /**
   What they say about a map that only one capture has: as added or removed without its index and counts,
   but with its count of freed pages; as modified, if it is the first capture's, with every page dirty.
   */
  lemma LoneEntries(m: MapRec, other: seq<MapRec>)
    requires forall k | 0 <= k < |other| :: other[k].vma.start != m.vma.start || other[k].vma.end != m.vma.end
    ensures ListEntry(AddedList, m, other) ==
      [MapRec(m.vma, 0, 0, m.freedCount, m.totalPaged, 0, m.firstWmem, -1, m.dirty)]
    ensures ListEntry(RemovedList, m, other) ==
      [MapRec(m.vma, 0, 0, m.freedCount, m.totalPaged, 0, m.firstWmem, -1, true)]
    ensures ListEntry(ModifiedList, m, other) ==
      [MapRec(m.vma, m.totalPages, m.totalPages, m.freedCount, m.totalPaged, m.populated, m.firstWmem, m.firstPage,
              true)]
    ensures ListEntry(ProtectionList, m, other) == []
  {
    CounterpartNone(m.vma, other);
  }

  /** The list that the first `n` maps of one capture give, in order. */
  ghost function Collected(kind: ListKind, ms: seq<MapRec>, n: nat, other: seq<MapRec>): (es: seq<MapRec>)
    requires n <= |ms|
    ensures |es| <= n
  {
    if n == 0 then [] else Collected(kind, ms, n - 1, other) + ListEntry(kind, ms[n - 1], other)
  }

  /** Membership in a list is decided map by map: a list neither drops nor repeats nor invents one. */
  lemma {:induction false} CollectedMember(kind: ListKind, ms: seq<MapRec>, n: nat, other: seq<MapRec>, x: MapRec)
    requires n <= |ms|
    ensures x in Collected(kind, ms, n, other) <==> exists i :: 0 <= i < n && ListEntry(kind, ms[i], other) == [x]
  {
    hide ListEntry;
    if n > 0 {
      CollectedMember(kind, ms, n - 1, other, x);
      OnlyEntry(ListEntry(kind, ms[n - 1], other), x);
    }
  }

  lemma OnlyEntry(es: seq<MapRec>, x: MapRec)
    requires |es| <= 1
    ensures x in es <==> es == [x]
  {
  }

  /** Lists keep the address order of the capture they come from. */
  lemma {:induction false} CollectedSorted(kind: ListKind, ms: seq<MapRec>, n: nat, other: seq<MapRec>)
    requires n <= |ms| && Sorted(Vmas(ms))
    ensures Sorted(Vmas(Collected(kind, ms, n, other)))
    ensures forall k, j | 0 <= k < |Collected(kind, ms, n, other)| && n <= j < |ms| ::
              Collected(kind, ms, n, other)[k].vma.end <= ms[j].vma.start
  {
    hide ListEntry, Sorted;
    if n > 0 {
      CollectedSorted(kind, ms, n - 1, other);
      var init, es := Collected(kind, ms, n - 1, other), ListEntry(kind, ms[n - 1], other);
      forall j | n <= j < |ms|
        ensures ms[n - 1].vma.end <= ms[j].vma.start
      {
        Ordered(ms, n - 1, j);
      }
      NotEmpty(ms, n - 1);
      if es != [] {
        SortedAppend(init, es[0]);
        assert es == [es[0]];
      } else {
        assert init + es == init;
      }
    } else {
      NothingSorted();
    }
  }

  lemma NothingSorted()
    ensures Sorted(Vmas([]))
  {
  }

  lemma NotEmpty(ms: seq<MapRec>, i: nat)
    requires Sorted(Vmas(ms)) && i < |ms|
    ensures ms[i].vma.start < ms[i].vma.end
  {
    assert Vmas(ms)[i] == ms[i].vma;
  }

  lemma SortedAppend(ms: seq<MapRec>, m: MapRec)
    requires Sorted(Vmas(ms)) && m.vma.start < m.vma.end
    requires forall k | 0 <= k < |ms| :: ms[k].vma.end <= m.vma.start
    ensures Sorted(Vmas(ms + [m]))
  {
    VmasAppend(ms, m);
    assert Vmas(ms + [m]) == Vmas(ms) + [m.vma];
  }

  // ---- The merge ----

  /** Maps on opposite sides of the two indices never have the same range. */
  ghost predicate Frontier(s: seq<MapRec>, c: seq<MapRec>, i: nat, f: nat) {
    && i <= |s| && f <= |c|
    && (forall a, b | 0 <= a < i && f <= b < |c| :: !SameRange(s[a].vma, c[b].vma))
    && (forall a, b | i <= a < |s| && 0 <= b < f :: !SameRange(s[a].vma, c[b].vma))
  }

  /** How far a step moves the two indices. */
  function InitialAdvance(r: DiffState): nat { if r == ADDED || r == DONE then 0 else 1 }

  function FinalAdvance(r: DiffState): nat { if r == REMOVED || r == DONE then 0 else 1 }

  /** What the result of a step says about the maps it passes. */
  ghost predicate StepMeaning(s: seq<MapRec>, c: seq<MapRec>, i: nat, f: nat, r: DiffState)
    requires i <= |s| && f <= |c|
  {
    match r
    case DONE => i == |s| && f == |c|
    case IDENTICAL => i < |s| && f < |c| && MapRegionsCmp(s[i], c[f]) == 0
    case MODIFIED =>
      && i < |s| && f < |c| && SameRange(s[i].vma, c[f].vma) && MapRegionsCmp(s[i], c[f]) != 0
      && s[i].vma.prot == c[f].vma.prot
    case MODIFIED_PROTECTION =>
      && i < |s| && f < |c| && SameRange(s[i].vma, c[f].vma) && MapRegionsCmp(s[i], c[f]) != 0
      && s[i].vma.prot != c[f].vma.prot
    case ADDED_AND_REMOVED =>
      && i < |s| && f < |c|
      && (forall b | 0 <= b < |c| :: !SameRange(s[i].vma, c[b].vma))
      && (forall a | 0 <= a < |s| :: !SameRange(s[a].vma, c[f].vma))
    case ADDED => f < |c| && forall a | 0 <= a < |s| :: !SameRange(s[a].vma, c[f].vma)
    case REMOVED => i < |s| && forall b | 0 <= b < |c| :: !SameRange(s[i].vma, c[b].vma)
  }

  lemma Ordered(ms: seq<MapRec>, a: nat, b: nat)
    requires Sorted(Vmas(ms)) && a < b < |ms|
    ensures ms[a].vma.start < ms[a].vma.end <= ms[b].vma.start < ms[b].vma.end
  {
    assert Vmas(ms)[a] == ms[a].vma && Vmas(ms)[b] == ms[b].vma;
  }

  /** A map that starts before the other side's next map, or shares just one end with it, is unmatched. */
  lemma UnmatchedInitial(s: seq<MapRec>, c: seq<MapRec>, i: nat, f: nat)
    requires Sorted(Vmas(s)) && Sorted(Vmas(c)) && Frontier(s, c, i, f) && i < |s|
    requires f < |c| ==> !SameRange(s[i].vma, c[f].vma)
    requires f < |c| ==> s[i].vma.start <= c[f].vma.start || s[i].vma.end == c[f].vma.end
    ensures forall b | 0 <= b < |c| :: !SameRange(s[i].vma, c[b].vma)
  {
    forall b | f < b < |c|
      ensures !SameRange(s[i].vma, c[b].vma)
    {
      Ordered(c, f, b);
    }
  }

  lemma UnmatchedFinal(s: seq<MapRec>, c: seq<MapRec>, i: nat, f: nat)
    requires Sorted(Vmas(s)) && Sorted(Vmas(c)) && Frontier(s, c, i, f) && f < |c|
    requires i < |s| ==> !SameRange(s[i].vma, c[f].vma)
    requires i < |s| ==> c[f].vma.start <= s[i].vma.start || s[i].vma.end == c[f].vma.end
    ensures forall a | 0 <= a < |s| :: !SameRange(s[a].vma, c[f].vma)
  {
    forall a | i < a < |s|
      ensures !SameRange(s[a].vma, c[f].vma)
    {
      Ordered(s, i, a);
    }
  }

  /** One step of the merge. */
  method DiffProcessMapsIterator(i: nat, f: nat, initial: MemInfo, final_: MemInfo)
    returns (r: DiffState, i': nat, f': nat)
    requires initial.Valid() && final_.Valid()
    requires Sorted(Vmas(initial.Maps())) && Sorted(Vmas(final_.Maps()))
    requires Frontier(initial.Maps(), final_.Maps(), i, f)
    ensures StepMeaning(initial.Maps(), final_.Maps(), i, f, r)
    ensures i' == i + InitialAdvance(r) && f' == f + FinalAdvance(r)
  {
    hide Sorted;
    ghost var s, c := initial.Maps(), final_.Maps();
    i', f' := i, f;
    if i == initial.mapsCount && f == final_.mapsCount {
      return DONE, i, f;
    }
    if i >= initial.mapsCount {
      UnmatchedFinal(s, c, i, f);
      return ADDED, i, f + 1;
    }
    if f >= final_.mapsCount {
      UnmatchedInitial(s, c, i, f);
      return REMOVED, i + 1, f;
    }
    var a, b := initial.maps[i], final_.maps[f];
    assert a == s[i] && b == c[f];
    if MapRegionsCmp(a, b) == 0 {
      return IDENTICAL, i + 1, f + 1;
    }
    if a.vma.start == b.vma.start && a.vma.end == b.vma.end {
      if a.vma.prot.r != b.vma.prot.r || a.vma.prot.w != b.vma.prot.w || a.vma.prot.x != b.vma.prot.x {
        return MODIFIED_PROTECTION, i + 1, f + 1;
      }
      return MODIFIED, i + 1, f + 1;
    }
    if a.vma.start == b.vma.start || a.vma.end == b.vma.end {
      UnmatchedInitial(s, c, i, f);
      UnmatchedFinal(s, c, i, f);
      return ADDED_AND_REMOVED, i + 1, f + 1;
    }
    if a.vma.start < b.vma.start {
      UnmatchedInitial(s, c, i, f);
      return REMOVED, i + 1, f;
    } else {
      UnmatchedFinal(s, c, i, f);
      return ADDED, i, f + 1;
    }
  }

  lemma FrontierStep(s: seq<MapRec>, c: seq<MapRec>, i: nat, f: nat, r: DiffState)
    requires Sorted(Vmas(s)) && Sorted(Vmas(c)) && Frontier(s, c, i, f) && StepMeaning(s, c, i, f, r)
    ensures Frontier(s, c, i + InitialAdvance(r), f + FinalAdvance(r))
  {
    if r == IDENTICAL || r == MODIFIED || r == MODIFIED_PROTECTION {
      forall b | f < b < |c|
        ensures !SameRange(s[i].vma, c[b].vma)
      {
        Ordered(c, f, b);
      }
      forall a | i < a < |s|
        ensures !SameRange(s[a].vma, c[f].vma)
      {
        Ordered(s, i, a);
      }
    }
  }

  /** What the map of the first capture that a step passes adds to each list. */
  lemma InitialEntries(s: seq<MapRec>, c: seq<MapRec>, i: nat, f: nat, r: DiffState)
    requires Sorted(Vmas(c)) && i < |s| && f <= |c| && StepMeaning(s, c, i, f, r)
    requires InitialAdvance(r) == 1
    ensures var gone := r == REMOVED || r == ADDED_AND_REMOVED;
      && ListEntry(RemovedList, s[i], c) == (if gone then [Reset(WhollyDirty(s[i]))] else [])
      && (gone ==> ListEntry(ModifiedList, s[i], c) == [WhollyDirty(s[i])])
      && (r == IDENTICAL ==> ListEntry(ModifiedList, s[i], c) == [])
      && (r == MODIFIED ==> ListEntry(ModifiedList, s[i], c) == [WithCounts(s[i], c[f], true)])
      && (r == MODIFIED_PROTECTION ==> ListEntry(ModifiedList, s[i], c) == [WithCounts(s[i], c[f], false)])
      && ListEntry(ProtectionList, s[i], c) ==
          (if r == MODIFIED_PROTECTION then ListEntry(ModifiedList, s[i], c) else [])
  {
    if r == REMOVED || r == ADDED_AND_REMOVED {
      CounterpartNone(s[i].vma, c);
    } else {
      CounterpartAt(s[i].vma, c, f);
    }
  }

  /** What the map of the second capture that a step passes adds to the list of added maps. */
  lemma FinalEntry(s: seq<MapRec>, c: seq<MapRec>, i: nat, f: nat, r: DiffState)
    requires Sorted(Vmas(s)) && i <= |s| && f < |c| && StepMeaning(s, c, i, f, r)
    requires FinalAdvance(r) == 1
    ensures ListEntry(AddedList, c[f], s) == if r == ADDED || r == ADDED_AND_REMOVED then [Reset(c[f])] else []
  {
    if r == ADDED || r == ADDED_AND_REMOVED {
      forall a | 0 <= a < |s|
        ensures !SameRange(c[f].vma, s[a].vma)
      {
        assert !SameRange(s[a].vma, c[f].vma);
      }
      CounterpartNone(c[f].vma, s);
    } else {
      assert SameRange(c[f].vma, s[i].vma);
      CounterpartAt(c[f].vma, s, i);
    }
  }

  /** The contents of the four lists. */
  datatype DiffLists = DiffLists(
    added: seq<MapRec>, removed: seq<MapRec>, modified: seq<MapRec>, protection: seq<MapRec>)

  /** What a step with result `r` appends to each list. */
  function Appended(kind: ListKind, r: DiffState, m: MapRec, c: MapRec): seq<MapRec> {
    match kind
    case AddedList => if r == ADDED || r == ADDED_AND_REMOVED then [Reset(c)] else []
    case RemovedList => if r == REMOVED || r == ADDED_AND_REMOVED then [Reset(WhollyDirty(m))] else []
    case ModifiedList =>
      (match r
       case MODIFIED => [WithCounts(m, c, true)]
       case MODIFIED_PROTECTION => [WithCounts(m, c, false)]
       case ADDED_AND_REMOVED => [WhollyDirty(m)]
       case REMOVED => [WhollyDirty(m)]
       case _ => [])
    case ProtectionList => if r == MODIFIED_PROTECTION then [WithCounts(m, c, false)] else []
  }

  function AppendAll(l: seq<MapRec>, es: seq<MapRec>): seq<MapRec> {
    if es == [] then l else l + es
  }

  function Recorded(l: DiffLists, r: DiffState, m: MapRec, c: MapRec): DiffLists {
    DiffLists(
      AppendAll(l.added, Appended(AddedList, r, m, c)),
      AppendAll(l.removed, Appended(RemovedList, r, m, c)),
      AppendAll(l.modified, Appended(ModifiedList, r, m, c)),
      AppendAll(l.protection, Appended(ProtectionList, r, m, c)))
  }

  /** The four lists (process_mem_diff_t). */
  class ProcessMemDiff {
    var added: seq<MapRec>
    var removed: seq<MapRec>
    var modified: seq<MapRec>
    var protection: seq<MapRec>

    ghost function Lists(): DiffLists
      reads this
    {
      DiffLists(added, removed, modified, protection)
    }

    constructor ()
      ensures Lists() == DiffLists([], [], [], [])
    {
      added, removed, modified, protection := [], [], [], [];
    }

    /** The switch over the result of a step. */
    method Record(r: DiffState, m: MapRec, c: MapRec)
      modifies this
      ensures Lists() == Recorded(old(Lists()), r, m, c)
    {
      match r
      case MODIFIED =>
        modified := modified + [WithCounts(m, c, true)];
      case MODIFIED_PROTECTION =>
        protection := protection + [WithCounts(m, c, false)];
        modified := modified + [WithCounts(m, c, false)];
      case ADDED_AND_REMOVED =>
        added := added + [Reset(c)];
        modified := modified + [WhollyDirty(m)];
        removed := removed + [Reset(WhollyDirty(m))];
      case ADDED =>
        added := added + [Reset(c)];
      case REMOVED =>
        modified := modified + [WhollyDirty(m)];
        removed := removed + [Reset(WhollyDirty(m))];
      case IDENTICAL =>
      case DONE =>
    }
  }

  /** The lists that the first `i` maps of `s` and the first `f` maps of `c` give. */
  ghost function Collect(s: seq<MapRec>, c: seq<MapRec>, i: nat, f: nat): DiffLists
    requires i <= |s| && f <= |c|
  {
    DiffLists(Collected(AddedList, c, f, s), Collected(RemovedList, s, i, c),
              Collected(ModifiedList, s, i, c), Collected(ProtectionList, s, i, c))
  }

  lemma StepBounds(s: seq<MapRec>, c: seq<MapRec>, i: nat, f: nat, r: DiffState)
    requires i <= |s| && f <= |c| && StepMeaning(s, c, i, f, r)
    ensures i + InitialAdvance(r) <= |s| && f + FinalAdvance(r) <= |c|
    ensures r == DONE <==> InitialAdvance(r) + FinalAdvance(r) == 0
    ensures r == DONE ==> i == |s| && f == |c|
  {
  }

  lemma CollectedInitialStep(kind: ListKind, s: seq<MapRec>, c: seq<MapRec>, i: nat, f: nat, r: DiffState, m: MapRec,
          n: MapRec)
    requires Sorted(Vmas(c)) && i <= |s| && f <= |c| && StepMeaning(s, c, i, f, r) && kind != AddedList
    requires i < |s| ==> m == s[i]
    requires f < |c| ==> n == c[f]
    ensures i + InitialAdvance(r) <= |s|
    ensures Collected(kind, s, i + InitialAdvance(r), c) == Collected(kind, s, i, c) + Appended(kind, r, m, n)
  {
    hide Sorted, Counterpart, WithCounts, WhollyDirty, Reset;
    StepBounds(s, c, i, f, r);
    if InitialAdvance(r) == 1 { InitialEntries(s, c, i, f, r); }
  }

  lemma CollectedFinalStep(s: seq<MapRec>, c: seq<MapRec>, i: nat, f: nat, r: DiffState, m: MapRec, n: MapRec)
    requires Sorted(Vmas(s)) && i <= |s| && f <= |c| && StepMeaning(s, c, i, f, r)
    requires f < |c| ==> n == c[f]
    ensures f + FinalAdvance(r) <= |c|
    ensures Collected(AddedList, c, f + FinalAdvance(r), s) ==
        Collected(AddedList, c, f, s) + Appended(AddedList, r, m, n)
  {
    hide Sorted, Counterpart, WithCounts, WhollyDirty, Reset;
    StepBounds(s, c, i, f, r);
    if FinalAdvance(r) == 1 { FinalEntry(s, c, i, f, r); }
  }

  /** As many maps are matched on one side as on the other. */
  ghost predicate Balanced(l: DiffLists, i: nat, f: nat) {
    i - |l.removed| == f - |l.added|
  }

  lemma CollectStep(s: seq<MapRec>, c: seq<MapRec>, i: nat, f: nat, r: DiffState, m: MapRec, n: MapRec)
    requires Sorted(Vmas(s)) && Sorted(Vmas(c)) && i <= |s| && f <= |c| && StepMeaning(s, c, i, f, r)
    requires i < |s| ==> m == s[i]
    requires f < |c| ==> n == c[f]
    ensures i + InitialAdvance(r) <= |s| && f + FinalAdvance(r) <= |c|
    ensures Collect(s, c, i + InitialAdvance(r), f + FinalAdvance(r)) == Recorded(Collect(s, c, i, f), r, m, n)
  {
    hide Sorted, StepMeaning, Appended, Collected, AppendAll, InitialAdvance, FinalAdvance;
    AppendAllIs(Collected(AddedList, c, f, s), Appended(AddedList, r, m, n));
    AppendAllIs(Collected(RemovedList, s, i, c), Appended(RemovedList, r, m, n));
    AppendAllIs(Collected(ModifiedList, s, i, c), Appended(ModifiedList, r, m, n));
    AppendAllIs(Collected(ProtectionList, s, i, c), Appended(ProtectionList, r, m, n));
    CollectedInitialStep(RemovedList, s, c, i, f, r, m, n);
    CollectedInitialStep(ModifiedList, s, c, i, f, r, m, n);
    CollectedInitialStep(ProtectionList, s, c, i, f, r, m, n);
    CollectedFinalStep(s, c, i, f, r, m, n);
  }

  lemma AppendAllIs(l: seq<MapRec>, es: seq<MapRec>)
    ensures AppendAll(l, es) == l + es
  {
  }

  lemma BalancedStep(l: DiffLists, i: nat, f: nat, r: DiffState, m: MapRec, n: MapRec)
    requires Balanced(l, i, f)
    ensures Balanced(Recorded(l, r, m, n), i + InitialAdvance(r), f + FinalAdvance(r))
  {
  }

  lemma MergeStart(s: seq<MapRec>, c: seq<MapRec>)
    ensures Frontier(s, c, 0, 0) && Collect(s, c, 0, 0) == DiffLists([], [], [], []) &&
        Balanced(Collect(s, c, 0, 0), 0, 0)
  {
  }

  /**
   The merge. Its lists are exactly what their definitions say about the two captures, whatever the
   order in which the maps were met; every step but the last passes a map, so there are at most
   `|initial| + |final| + 1`; and as many maps are matched on one side as on the other.
   */
  method DiffProcessMaps(initial: MemInfo, final_: MemInfo) returns (d: ProcessMemDiff, ghost steps: nat)
    requires initial.Valid() && final_.Valid()
    requires Sorted(Vmas(initial.Maps())) && Sorted(Vmas(final_.Maps()))
    ensures fresh(d)
    ensures d.Lists() == Collect(initial.Maps(), final_.Maps(), initial.mapsCount, final_.mapsCount)
    ensures Balanced(d.Lists(), initial.mapsCount, final_.mapsCount)
    ensures steps <= initial.mapsCount + final_.mapsCount + 1
  {
    hide Sorted, StepMeaning, Frontier, Collect, Recorded, Balanced;
    steps := 0;
    ghost var s, c := initial.Maps(), final_.Maps();
    d := new ProcessMemDiff();
    MergeStart(s, c);
    var i: nat, f: nat := 0, 0;
    var r := IDENTICAL;
    while r != DONE
      invariant i <= |s| && f <= |c| && Frontier(s, c, i, f)
      invariant d.Lists() == Collect(s, c, i, f) && Balanced(d.Lists(), i, f)
      invariant r == DONE ==> i == |s| && f == |c|
      invariant steps <= i + f + if r == DONE then 1 else 0
      decreases |s| - i + |c| - f, r != DONE
    {
      var i', f';
      r, i', f' := DiffProcessMapsIterator(i, f, initial, final_);
      StepBounds(s, c, i, f, r);
      FrontierStep(s, c, i, f, r);
      var m := initial.maps[if i < initial.mapsCount then i else 0];
      var n := final_.maps[if f < final_.mapsCount then f else 0];
      CollectStep(s, c, i, f, r, m, n);
      BalancedStep(d.Lists(), i, f, r, m, n);
      d.Record(r, m, n);
      steps := steps + 1;
      i, f := i', f';
    }
  }
}
