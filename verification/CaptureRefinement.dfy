/** What the capturing jobs compute together: the capture that reading the maps one after the other gives. */
module CaptureRefinement {
  import opened Paging
  import opened Layout
  import opened Records
  import opened MemoryInfo
  import opened CaptureJobs

  /** What the jobs find are the pages of `sp`. */
  ghost predicate FoundIn(ms: seq<MapRec>, found: Found, sp: AddressSpace) {
    forall i: nat, j: nat | i < |found| && i < |ms| && j < |found[i]| ::
        ShowsAt(found[i][j], sp, ms[i].vma.start + j, i)
  }

  /** A finished job has filled the slice of its map with what it found. */
  lemma FinishedJob(ms: seq<MapRec>, ps: seq<Page>, c: Capture, found: Found, i: nat)
    requires FreshTable(ms) && |ps| == Total(Vmas(ms)) && Consistent(ms, ps, c, found) && Finished(c)
    requires i < |ms| && Fits(ms[i].vma)
    ensures 0 <= ms[i].firstPage && ms[i].firstPage + ms[i].totalPages <= |c.ps|
    ensures PagesOfMap(c.ms[i], c.ps) == found[i] == c.ps[ms[i].firstPage..ms[i].firstPage + ms[i].totalPages]
    ensures Counted(c.ms[i], found[i]) && !c.ms[i].dirty
  {
    hide Fits, Sorted;
    var m := c.ms[i];
    assert JobAt(ms, ps, c, found, i) && ms[i] in ms;
    assert found[i][..|found[i]|] == found[i];
    WithPagesCounts(ms[i], found[i]);
    var own := c.ps[ms[i].firstPage..ms[i].firstPage + ms[i].totalPages];
    forall j: nat | j < |own|
      ensures own[j] == found[i][j]
    {
      assert SlotAt(c.ps, ps, ms[i].firstPage, found[i], m.populated, j);
    }
    assert own == found[i];
  }

  lemma ScannedByJob(ms: seq<MapRec>, ps: seq<Page>, c: Capture, found: Found, sp: AddressSpace, i: nat)
    requires FreshTable(ms) && |ps| == Total(Vmas(ms)) && Consistent(ms, ps, c, found) && Finished(c)
    requires FoundIn(ms, found, sp) && i < |ms| && Fits(ms[i].vma)
    ensures Scanned(c.ms, c.ps, sp, i) && !c.ms[i].dirty
  {
    hide Consistent, Fits, FreshTable, Counted, ShowsAt;
    Shape(ms, ps, c, found);
    FinishedJob(ms, ps, c, found, i);
    SameShape(ms, ps, c, found, i);
  }

  lemma SameShape(ms: seq<MapRec>, ps: seq<Page>, c: Capture, found: Found, i: nat)
    requires Consistent(ms, ps, c, found) && i < |ms|
    ensures SameMap(c.ms[i], ms[i]) && |found[i]| == ReadPages(ms[i])
  {
    assert JobAt(ms, ps, c, found, i);
    WithPagesCounts(ms[i], found[i][..c.ms[i].populated]);
  }

  lemma {:induction false} PagesAddUp(ms: seq<MapRec>, c: Capture, n: nat)
    requires FreshTable(ms) && n <= |ms| == |c.stages| && Finished(c)
    ensures Added(c.stages[..n], Sizes(ms)[..n], false) == ReadOffset(Vmas(ms), n)
  {
    hide FreshTable, Fits;
    if n > 0 {
      PagesAddUp(ms, c, n - 1);
      assert c.stages[..n][..n - 1] == c.stages[..n - 1] && Sizes(ms)[..n][..n - 1] == Sizes(ms)[..n - 1];
      SizeKnown(ms, n - 1);
    }
  }

  lemma SizeKnown(ms: seq<MapRec>, i: nat)
    requires FreshTable(ms) && i < |ms|
    ensures ms[i].totalPages == ms[i].vma.Size() && ms[i].firstPage == Offset(Vmas(ms), i)
  {
    assert IndexedAt(ms, i);
  }

  lemma {:induction false} PagedAddUp(ms: seq<MapRec>, ps: seq<Page>, c: Capture, found: Found, n: nat)
    requires FreshTable(ms) && |ps| == Total(Vmas(ms)) && Consistent(ms, ps, c, found) && Finished(c)
    requires n <= |ms| && FitUpTo(Vmas(ms), n)
    ensures Offset(Vmas(ms), n) <= |c.ps| && |found| == |c.stages| == |ms|
    ensures Added(c.stages[..n], PagedCounts(found)[..n], true) == Rank(c.ps, Offset(Vmas(ms), n))
  {
    hide FreshTable, Fits, Consistent, CountPaged;
    Shape(ms, ps, c, found);
    OffsetMonotone(Vmas(ms), n, |ms|);
    if n > 0 {
      PagedAddUp(ms, ps, c, found, n - 1);
      assert c.stages[..n][..n - 1] == c.stages[..n - 1];
      assert PagedCounts(found)[..n][..n - 1] == PagedCounts(found)[..n - 1];
      SizeKnown(ms, n - 1);
      assert Fits(Vmas(ms)[n - 1]);
      FinishedJob(ms, ps, c, found, n - 1);
      RankSplit(c.ps, Offset(Vmas(ms), n - 1), Offset(Vmas(ms), n));
    } else {
      NothingRanked(c.ps);
    }
  }

  lemma NothingRanked(ps: seq<Page>)
    ensures Rank(ps, 0) == 0
  {
  }

  lemma Shape(ms: seq<MapRec>, ps: seq<Page>, c: Capture, found: Found)
    requires Consistent(ms, ps, c, found)
    ensures |ms| == |c.ms| == |c.stages| == |found| && |c.ps| == |ps|
    ensures c.pagesCount == Added(c.stages, Sizes(ms), false)
    ensures c.pagedPagesCount == Added(c.stages, PagedCounts(found), true)
  {
  }

  /**
   The jobs refine the sequential capture: every schedule in which all jobs finish ends in a state that
   reading the maps one after the other is proved to end in.
   */
  lemma JobsReadPages(ms: seq<MapRec>, ps: seq<Page>, found: Found, sp: AddressSpace, schedule: seq<nat>)
    requires FreshTable(ms) && Fitting(ms, found) && |ps| == Total(Vmas(ms)) && FoundIn(ms, found, sp)
    requires Finished(Run(Start(ms, ps), schedule, found))
    ensures var c := Run(Start(ms, ps), schedule, found);
      PagesRead(ms, c.ms, c.ps, sp, |ms|, c.pagesCount, c.pagedPagesCount)
  {
    hide FreshTable, Consistent, Fitting, Finished, Run, FoundIn, Fits, Added, ReadOffset, CountPaged, Scanned;
    RunConsistent(ms, ps, found, schedule);
    var c := Run(Start(ms, ps), schedule, found);
    Shape(ms, ps, c, found);
    forall i: nat | i < |ms|
      ensures SameMap(c.ms[i], ms[i])
    {
      SameShape(ms, ps, c, found, i);
    }
    assert Vmas(c.ms) == Vmas(ms);
    forall i: nat | i < |ms|
      ensures IndexedAt(c.ms, i)
    {
      SizeKnown(ms, i);
    }
    forall i: nat | i < |ms| && Fits(c.ms[i].vma)
      ensures Scanned(c.ms, c.ps, sp, i) && !c.ms[i].dirty
    {
      ScannedByJob(ms, ps, c, found, sp, i);
    }
    PagesAddUp(ms, c, |ms|);
    assert c.stages[..|ms|] == c.stages && Sizes(ms)[..|ms|] == Sizes(ms);
    if FitUpTo(Vmas(ms), |ms|) {
      PagedAddUp(ms, ps, c, found, |ms|);
      assert PagedCounts(found)[..|ms|] == PagedCounts(found);
    }
  }

  /** If every map can be read, it is a complete capture with the right totals. */
  lemma JobsCapture(ms: seq<MapRec>, ps: seq<Page>, found: Found, sp: AddressSpace, schedule: seq<nat>)
    requires FreshTable(ms) && Fitting(ms, found) && |ps| == Total(Vmas(ms)) && FoundIn(ms, found, sp)
    requires Finished(Run(Start(ms, ps), schedule, found)) && FitUpTo(Vmas(ms), |ms|)
    ensures var c := Run(Start(ms, ps), schedule, found);
      && Captured(c.ms, c.ps, sp)
      && c.pagesCount == Total(Vmas(ms)) && c.pagedPagesCount == CountPaged(c.ps)
  {
    hide Finished, Run, FoundIn, Fits, Fitting, CountPaged, Scanned;
    JobsReadPages(ms, ps, found, sp, schedule);
    var c := Run(Start(ms, ps), schedule, found);
    assert c.ps[..|c.ps|] == c.ps;
    ReadOffsetBounds(Vmas(ms), |ms|);
    forall i: nat | i < |c.ms|
      ensures Scanned(c.ms, c.ps, sp, i) && !c.ms[i].dirty
    {
      assert Vmas(c.ms)[i] == c.ms[i].vma;
      assert Fits(Vmas(ms)[i]);
    }
  }
}
