/** The records the tracker keeps: one per mapping and one per page. */
module Records {
  import opened Paging
  import opened Layout

  const HEAP := "[heap]"
  const STACK := "[stack]"

  /** A mapping with its counters (map_t). Indices that are not set yet are -1. */
  datatype MapRec = MapRec(
    vma: Vma,
    totalPages: nat,
    softDirtyCount: nat,
    freedCount: nat,
    totalPaged: nat,
    populated: nat,
    firstWmem: int,
    firstPage: int,
    dirty: bool)
  {
    predicate Holds(p: nat) { vma.Holds(p) }

    predicate Accessible() { vma.prot.r || vma.prot.w }

    predicate Named(name: string) { name <= vma.name }

    /** The heap and the stack are never unmapped or remapped by name. */
    predicate Special() { Named(HEAP) || Named(STACK) }
  }

  /** One pagemap entry, taken apart (page_t). */
  datatype Page = Page(
    addr: nat, pfn: bv64, softDirty: bool, exclusive: bool, swapped: bool, present: bool,
    isFreed: bool, mapIndex: nat)
  {
    predicate Paged() { pfn != 0 }

    predicate Flagged() { softDirty || isFreed }
  }

  function Vmas(ms: seq<MapRec>): (vs: seq<Vma>)
    ensures |vs| == |ms|
    ensures forall i | 0 <= i < |ms| :: vs[i] == ms[i].vma
  {
    seq(|ms|, i requires 0 <= i < |ms| => ms[i].vma)
  }

  predicate SameRange(a: Vma, b: Vma) { a.start == b.start && a.end == b.end }

  /** Zero when the two maps agree on everything the comparison looks at. */
  function MapRegionsCmp(a: MapRec, b: MapRec): int {
    if && a.vma.start == b.vma.start && a.vma.end == b.vma.end
       && a.vma.prot.r == b.vma.prot.r && a.vma.prot.w == b.vma.prot.w
       && a.vma.prot.x == b.vma.prot.x && a.vma.priv == b.vma.priv
       && a.vma.file.offset == b.vma.file.offset && a.vma.file.devMajor == b.vma.file.devMajor
       && a.vma.file.devMinor == b.vma.file.devMinor && a.vma.file.inode == b.vma.file.inode
       && a.totalPages == b.totalPages && a.dirty == b.dirty
       && a.softDirtyCount == b.softDirtyCount && a.freedCount == b.freedCount
       && a.vma.name == b.vma.name
    then 0 else 1
  }

  /** What a diff entry for an added or a removed map keeps of the counters. */
  function Reset(m: MapRec): MapRec {
    m.(firstPage := -1, totalPages := 0, populated := 0, softDirtyCount := 0)
  }

  // ---- Counting page flags ----

  function CountPaged(ps: seq<Page>): nat {
    if ps == [] then 0
    else CountPaged(ps[..|ps| - 1]) + if ps[|ps| - 1].Paged() then 1 else 0
  }

  function CountSoftDirty(ps: seq<Page>): nat {
    if ps == [] then 0
    else CountSoftDirty(ps[..|ps| - 1]) + if ps[|ps| - 1].softDirty then 1 else 0
  }

  function CountFreed(ps: seq<Page>): nat {
    if ps == [] then 0
    else CountFreed(ps[..|ps| - 1]) + if ps[|ps| - 1].isFreed then 1 else 0
  }

  lemma {:induction false} CountPagedBounds(ps: seq<Page>)
    ensures CountPaged(ps) <= |ps|
    ensures CountPaged(ps) == |ps| ==> forall k | 0 <= k < |ps| :: ps[k].Paged()
    ensures CountPaged(ps) == 0 ==> forall k | 0 <= k < |ps| :: !ps[k].Paged()
  {
    if ps != [] { CountPagedBounds(ps[..|ps| - 1]); }
  }

  lemma {:induction false} CountPagedConcat(a: seq<Page>, b: seq<Page>)
    ensures CountPaged(a + b) == CountPaged(a) + CountPaged(b)
    decreases |b|
  {
    if b == [] {
      assert a + b == a;
    } else {
      var b' := b[..|b| - 1];
      assert (a + b)[..|a + b| - 1] == a + b';
      CountPagedConcat(a, b');
    }
  }

  /** The two flags exclude each other, so their counts never add up to more than the pages. */
  lemma {:induction false} FlagCounts(ps: seq<Page>)
    requires forall k | 0 <= k < |ps| :: !(ps[k].softDirty && ps[k].isFreed)
    ensures CountSoftDirty(ps) + CountFreed(ps) <= |ps|
    ensures CountSoftDirty(ps) == 0 && CountFreed(ps) == 0
            <==> forall k | 0 <= k < |ps| :: !ps[k].Flagged()
  {
    if ps != [] {
      FlagCounts(ps[..|ps| - 1]);
      assert ps[|ps| - 1] in ps;
    }
  }

  // ---- Compact storage ----

  /** The slot of page `k`: the number of paged pages before it. */
  function Rank(ps: seq<Page>, k: nat): nat
    requires k <= |ps|
  {
    CountPaged(ps[..k])
  }

  lemma RankStep(ps: seq<Page>, k: nat)
    requires k < |ps|
    ensures Rank(ps, k + 1) == Rank(ps, k) + if ps[k].Paged() then 1 else 0
  {
    assert ps[..k + 1][..k] == ps[..k];
  }

  lemma {:induction false} RankMonotone(ps: seq<Page>, a: nat, b: nat)
    requires a <= b <= |ps|
    ensures Rank(ps, a) <= Rank(ps, b)
    decreases b
  {
    if a < b {
      RankMonotone(ps, a, b - 1);
      RankStep(ps, b - 1);
    }
  }

  lemma RankSplit(ps: seq<Page>, a: nat, b: nat)
    requires a <= b <= |ps|
    ensures Rank(ps, b) == Rank(ps, a) + CountPaged(ps[a..b])
  {
    assert ps[..b] == ps[..a] + ps[a..b];
    CountPagedConcat(ps[..a], ps[a..b]);
  }

  /** Slots are in range and no two paged pages share one. */
  lemma RankInjective(ps: seq<Page>, a: nat, b: nat)
    requires a < b < |ps| && ps[a].Paged() && ps[b].Paged()
    ensures Rank(ps, a) < Rank(ps, b) < CountPaged(ps)
  {
    RankStep(ps, a);
    RankMonotone(ps, a + 1, b);
    RankStep(ps, b);
    RankMonotone(ps, b + 1, |ps|);
    assert ps[..|ps|] == ps;
  }

  /** Every slot below the paged count belongs to a paged page. */
  lemma {:induction false} RankOnto(ps: seq<Page>, s: nat) returns (k: nat)
    requires s < CountPaged(ps)
    ensures k < |ps| && ps[k].Paged() && Rank(ps, k) == s
  {
    var n := |ps| - 1;
    if ps[n].Paged() && s == CountPaged(ps[..n]) {
      k := n;
    } else {
      k := RankOnto(ps[..n], s);
      assert ps[..n][..k] == ps[..k];
    }
  }
}
