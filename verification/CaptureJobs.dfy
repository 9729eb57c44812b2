/**
 Capturing pages with one job per map, all running at once: the jobs write disjoint slices of the page
 table, so every interleaving of their steps gives the same capture.
 */
module CaptureJobs {
  import opened Layout
  import opened Records
  import opened MemoryInfo

  /** How far a job is: reading its pages, or done with one or both of its two additions to the totals. */
  datatype Stage = Reading | PagesAdded | Done

  datatype Capture = Capture(
    ms: seq<MapRec>, ps: seq<Page>, stages: seq<Stage>, pagesCount: nat, pagedPagesCount: nat)

  /**
   What the jobs find: the records of the pages of every map, while the process is stopped. There are
   none for a map that one read cannot cover.
   */
  type Found = seq<seq<Page>>

  predicate Fitting(ms: seq<MapRec>, found: Found) {
    && |found| == |ms|
    && forall i | 0 <= i < |ms| :: |found[i]| == ReadPages(ms[i]) && ms[i].firstPage >= 0
  }

  function ReadPages(m: MapRec): nat { if Fits(m.vma) then m.totalPages else 0 }

  /** A job can move until it has added both counts. */
  predicate Can(c: Capture, i: nat) {
    i < |c.ms| == |c.stages| && c.stages[i] != Done
  }

  /**
   The next step of job `i`: one page, stored behind those its map already has, or one of the two
   additions. A job whose read comes back short ends without either.
   */
  function Step(c: Capture, i: nat, found: Found): Capture
    requires Can(c, i)
  {
    var m := c.ms[i];
    match c.stages[i]
    case Reading =>
      if !Fits(m.vma) then c.(stages := c.stages[i := Done])
      else if m.populated < m.totalPages then
        var index := m.firstPage + m.populated;
        if i < |found| && m.populated < |found[i]| && 0 <= index < |c.ps| then
          c.(ps := c.ps[index := found[i][m.populated]],
             ms := c.ms[i := WithPage(m, found[i][m.populated])])
        else c
      else c.(pagesCount := c.pagesCount + m.totalPages, stages := c.stages[i := PagesAdded])
    case PagesAdded => c.(pagedPagesCount := c.pagedPagesCount + m.totalPaged, stages := c.stages[i := Done])
    case Done => c
  }

  function Start(ms: seq<MapRec>, ps: seq<Page>): Capture {
    Capture(ms, ps, seq(|ms|, _ => Reading), 0, 0)
  }

  /** The steps of the jobs, in the order in which the scheduler runs them; a finished job does nothing. */
  function Run(c: Capture, schedule: seq<nat>, found: Found): Capture {
    if schedule == [] then c
    else
      var before := Run(c, schedule[..|schedule| - 1], found);
      var i := schedule[|schedule| - 1];
      if Can(before, i) then Step(before, i, found) else before
  }

  // ---- The state, from how far every job is ----

  function WithPages(m: MapRec, ps: seq<Page>): MapRec {
    if ps == [] then m else WithPage(WithPages(m, ps[..|ps| - 1]), ps[|ps| - 1])
  }

  /** Page `j` of a map that starts at `first`, of whose pages `pages` the first `n` have been read. */
  predicate SlotAt(ps: seq<Page>, ps0: seq<Page>, first: int, pages: seq<Page>, n: nat, j: nat) {
    && 0 <= first + j < |ps| == |ps0|
    && ps[first + j] == if j < n && j < |pages| then pages[j] else ps0[first + j]
  }

  /** Job `i` has read the first pages of its map, and its map counts exactly these. */
  ghost predicate JobAt(ms0: seq<MapRec>, ps0: seq<Page>, c: Capture, found: Found, i: nat)
    requires i < |ms0| == |c.ms| == |c.stages| == |found|
  {
    var m := c.ms[i];
    && m.populated <= ReadPages(m) == ReadPages(ms0[i]) == |found[i]|
    && m == WithPages(ms0[i], found[i][..m.populated])
    && (c.stages[i] != Reading ==> m.populated == ReadPages(m))
    && 0 <= ms0[i].firstPage && ms0[i].firstPage + ms0[i].totalPages <= |c.ps| == |ps0|
    && (forall j: nat | j < m.totalPages == ms0[i].totalPages ::
        SlotAt(c.ps, ps0, ms0[i].firstPage, found[i], m.populated, j))
  }

  /** What the jobs that are far enough have added. */
  function Added(stages: seq<Stage>, values: seq<nat>, both: bool): nat
    requires |values| == |stages|
  {
    if stages == [] then 0
    else
      var n := |stages| - 1;
      Added(stages[..n], values[..n], both)
      + if stages[n] == Done || (!both && stages[n] == PagesAdded) then values[n] else 0
  }

  function Sizes(ms: seq<MapRec>): seq<nat> { seq(|ms|, i requires 0 <= i < |ms| => ReadPages(ms[i])) }

  function PagedCounts(found: Found): seq<nat> {
    seq(|found|, i requires 0 <= i < |found| => CountPaged(found[i]))
  }

  ghost predicate Consistent(ms0: seq<MapRec>, ps0: seq<Page>, c: Capture, found: Found) {
    && |ms0| == |c.ms| == |c.stages| == |found| && |c.ps| == |ps0|
    && (forall i: nat | i < |ms0| :: JobAt(ms0, ps0, c, found, i))
    && c.pagesCount == Added(c.stages, Sizes(ms0), false)
    && c.pagedPagesCount == Added(c.stages, PagedCounts(found), true)
  }

  lemma {:induction false} AddedUpdate(stages: seq<Stage>, values: seq<nat>, both: bool, i: nat, s: Stage)
    requires |values| == |stages| && i < |stages|
    ensures Added(stages[i := s], values, both)
      + (if stages[i] == Done || (!both && stages[i] == PagesAdded) then values[i] else 0)
      == Added(stages, values, both) + if s == Done || (!both && s == PagesAdded) then values[i] else 0
    decreases |stages|
  {
    var n := |stages| - 1;
    if i == n {
      assert stages[i := s][..n] == stages[..n];
    } else {
      assert stages[i := s][..n] == stages[..n][i := s];
      AddedUpdate(stages[..n], values[..n], both, i, s);
    }
  }

  lemma {:induction false} WithPagesCounts(m: MapRec, ps: seq<Page>)
    ensures var r := WithPages(m, ps);
      && r.populated == m.populated + |ps| && r.totalPaged == m.totalPaged + CountPaged(ps)
      && r.softDirtyCount == m.softDirtyCount + CountSoftDirty(ps) && r.freedCount == m.freedCount + CountFreed(ps)
      && SameMap(r, m)
  {
    if ps != [] { WithPagesCounts(m, ps[..|ps| - 1]); }
  }

  /** The slices of two maps do not meet. */
  lemma SlicesApart(ms: seq<MapRec>, i: nat, k: nat)
    requires Indexed(ms) && i < |ms| && k < |ms| && i != k
    ensures ms[i].firstPage + ms[i].totalPages <= ms[k].firstPage ||
        ms[k].firstPage + ms[k].totalPages <= ms[i].firstPage
  {
    assert IndexedAt(ms, i) && IndexedAt(ms, k);
    if i < k { OffsetMonotone(Vmas(ms), i, k); } else { OffsetMonotone(Vmas(ms), k, i); }
  }

  /** Reading a page is seen by the job's own map only; the index is always inside the table. */
  lemma ReadStep(ms0: seq<MapRec>, ps0: seq<Page>, c: Capture, found: Found, i: nat)
    requires FreshTable(ms0) && Consistent(ms0, ps0, c, found) && Can(c, i)
    requires c.stages[i] == Reading && c.ms[i].populated < ReadPages(c.ms[i])
    ensures 0 <= c.ms[i].firstPage + c.ms[i].populated < |c.ps|
    ensures Consistent(ms0, ps0, Step(c, i, found), found)
  {
    assert JobAt(ms0, ps0, c, found, i) && ms0[i] in ms0;
    var m, j := c.ms[i], c.ms[i].populated;
    WithPagesCounts(ms0[i], found[i][..j]);
    var c' := Step(c, i, found);
    assert found[i][..j + 1][..j] == found[i][..j];
    forall k: nat | k < |ms0|
      ensures JobAt(ms0, ps0, c', found, k)
    {
      assert JobAt(ms0, ps0, c, found, k);
      if k != i { SlicesApart(ms0, i, k); }
      forall x: nat | x < c'.ms[k].totalPages
        ensures SlotAt(c'.ps, ps0, ms0[k].firstPage, found[k], c'.ms[k].populated, x)
      {
        assert SlotAt(c.ps, ps0, ms0[k].firstPage, found[k], c.ms[k].populated, x);
      }
    }
  }

  /** Adding to a total is seen by nobody else. */
  lemma AddStep(ms0: seq<MapRec>, ps0: seq<Page>, c: Capture, found: Found, i: nat)
    requires FreshTable(ms0) && Consistent(ms0, ps0, c, found) && Can(c, i)
    requires c.stages[i] == Reading ==> c.ms[i].populated == ReadPages(c.ms[i])
    ensures Consistent(ms0, ps0, Step(c, i, found), found)
  {
    assert JobAt(ms0, ps0, c, found, i) && ms0[i] in ms0;
    assert found[i][..|found[i]|] == found[i];
    WithPagesCounts(ms0[i], found[i]);
    var s := if c.stages[i] == Reading && Fits(c.ms[i].vma) then PagesAdded else Done;
    AddedUpdate(c.stages, Sizes(ms0), false, i, s);
    AddedUpdate(c.stages, PagedCounts(found), true, i, s);
    var c' := Step(c, i, found);
    forall k: nat | k < |ms0|
      ensures JobAt(ms0, ps0, c', found, k)
    {
      assert JobAt(ms0, ps0, c, found, k);
      assert c'.ms == c.ms && c'.ps == c.ps;
    }
  }

  lemma {:induction false} NothingAdded(n: nat, values: seq<nat>, both: bool)
    requires |values| == n
    ensures Added(seq(n, _ => Reading), values, both) == 0
  {
    if n > 0 {
      assert seq(n, _ => Reading)[..n - 1] == seq(n - 1, _ => Reading);
      NothingAdded(n - 1, values[..n - 1], both);
    }
  }

  lemma StartConsistent(ms: seq<MapRec>, ps: seq<Page>, found: Found)
    requires FreshTable(ms) && Fitting(ms, found) && |ps| == Total(Vmas(ms))
    ensures Consistent(ms, ps, Start(ms, ps), found)
  {
    hide FreshTable, Fitting, JobAt;
    SameLength(ms, found);
    NothingAdded(|ms|, Sizes(ms), false);
    NothingAdded(|ms|, PagedCounts(found), true);
    assert Start(ms, ps).stages == seq(|ms|, _ => Reading);
    forall i: nat | i < |ms|
      ensures JobAt(ms, ps, Start(ms, ps), found, i)
    {
      StartJob(ms, ps, found, i);
    }
  }

  lemma SameLength(ms: seq<MapRec>, found: Found)
    requires Fitting(ms, found)
    ensures |found| == |ms|
  {
  }

  lemma StartJob(ms: seq<MapRec>, ps: seq<Page>, found: Found, i: nat)
    requires FreshTable(ms) && Fitting(ms, found) && |ps| == Total(Vmas(ms)) && i < |ms|
    ensures |found| == |ms| && JobAt(ms, ps, Start(ms, ps), found, i)
  {
    hide Sorted, SlotAt;
    assert IndexedAt(ms, i) && ms[i] in ms;
    OffsetMonotone(Vmas(ms), i + 1, |ms|);
    assert found[i][..0] == [];
    forall j: nat | j < ms[i].totalPages
      ensures SlotAt(ps, ps, ms[i].firstPage, found[i], 0, j)
    {
      StartSlot(ps, ms[i].firstPage, found[i], j);
    }
  }

  lemma StartSlot(ps: seq<Page>, first: int, pages: seq<Page>, j: nat)
    requires 0 <= first + j < |ps|
    ensures SlotAt(ps, ps, first, pages, 0, j)
  {
  }

  lemma {:induction false} RunConsistent(ms: seq<MapRec>, ps: seq<Page>, found: Found, schedule: seq<nat>)
    requires FreshTable(ms) && Fitting(ms, found) && |ps| == Total(Vmas(ms))
    ensures Consistent(ms, ps, Run(Start(ms, ps), schedule, found), found)
    decreases |schedule|
  {
    hide FreshTable, Consistent, Fitting, Step;
    if schedule == [] {
      StartConsistent(ms, ps, found);
    } else {
      var n := |schedule| - 1;
      RunConsistent(ms, ps, found, schedule[..n]);
      var c, i := Run(Start(ms, ps), schedule[..n], found), schedule[n];
      if Can(c, i) { StepConsistent(ms, ps, c, found, i); }
    }
  }

  lemma StepConsistent(ms: seq<MapRec>, ps: seq<Page>, c: Capture, found: Found, i: nat)
    requires FreshTable(ms) && Consistent(ms, ps, c, found) && Can(c, i)
    ensures Consistent(ms, ps, Step(c, i, found), found)
  {
    hide FreshTable, Step;
    assert JobAt(ms, ps, c, found, i);
    if c.stages[i] == Reading && c.ms[i].populated < ReadPages(c.ms[i]) {
      ReadStep(ms, ps, c, found, i);
    } else {
      AddStep(ms, ps, c, found, i);
    }
  }

  /**
   Whatever the schedule, no job ever stores a page outside the table, so the branch that would
   enlarge it under the feet of the other jobs is never taken.
   */
  lemma IndexInTable(ms: seq<MapRec>, ps: seq<Page>, found: Found, schedule: seq<nat>, i: nat)
    requires FreshTable(ms) && Fitting(ms, found) && |ps| == Total(Vmas(ms))
    requires var c := Run(Start(ms, ps), schedule, found);
      Can(c, i) && c.stages[i] == Reading && c.ms[i].populated < ReadPages(c.ms[i])
    ensures var c := Run(Start(ms, ps), schedule, found);
      0 <= c.ms[i].firstPage + c.ms[i].populated < |c.ps| == |ps|
  {
    hide Run;
    RunConsistent(ms, ps, found, schedule);
    ReadStep(ms, ps, Run(Start(ms, ps), schedule, found), found, i);
  }

  predicate Finished(c: Capture) { forall i | 0 <= i < |c.stages| :: c.stages[i] == Done }

  /** Every schedule in which all jobs finish ends in the same capture: pages, counters and totals. */
  lemma ScheduleDoesNotMatter(ms: seq<MapRec>, ps: seq<Page>, found: Found, a: seq<nat>, b: seq<nat>)
    requires FreshTable(ms) && Fitting(ms, found) && |ps| == Total(Vmas(ms))
    requires Finished(Run(Start(ms, ps), a, found)) && Finished(Run(Start(ms, ps), b, found))
    ensures Run(Start(ms, ps), a, found) == Run(Start(ms, ps), b, found)
  {
    hide Run, FreshTable, Fitting, JobAt;
    RunConsistent(ms, ps, found, a);
    RunConsistent(ms, ps, found, b);
    SameEnd(ms, ps, Run(Start(ms, ps), a, found), Run(Start(ms, ps), b, found), found);
  }

  lemma SameEnd(ms: seq<MapRec>, ps: seq<Page>, c: Capture, d: Capture, found: Found)
    requires FreshTable(ms) && |ps| == Total(Vmas(ms))
    requires Consistent(ms, ps, c, found) && Consistent(ms, ps, d, found) && Finished(c) && Finished(d)
    ensures c == d
  {
    assert c.stages == d.stages;
    forall i: nat | i < |ms|
      ensures c.ms[i] == d.ms[i]
    {
      assert JobAt(ms, ps, c, found, i) && JobAt(ms, ps, d, found, i);
    }
    assert c.ms == d.ms;
    forall x: nat | x < |ps|
      ensures c.ps[x] == d.ps[x]
    {
      var i, j := OwnerUpTo(Vmas(ms), |ms|, x);
      assert IndexedAt(ms, i);
      assert JobAt(ms, ps, c, found, i) && JobAt(ms, ps, d, found, i);
      assert SlotAt(c.ps, ps, ms[i].firstPage, found[i], c.ms[i].populated, j);
      assert SlotAt(d.ps, ps, ms[i].firstPage, found[i], d.ms[i].populated, j);
    }
    assert c.ps == d.ps;
  }
}
