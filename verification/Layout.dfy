/**
 Memory layouts: the list of mappings that /proc/pid/maps shows, and the flat list of
 pages that the tracker derives from it.
 */
module Layout {
  import opened Paging

  datatype FileId = FileId(offset: nat, devMajor: nat, devMinor: nat, inode: nat)

  /** One line of /proc/pid/maps. */
  datatype Vma = Vma(start: nat, end: nat, prot: Prot, priv: bool, file: FileId, name: string)
  {
    predicate Holds(p: nat) { start <= p < end }

    function Size(): nat { if start <= end then end - start else 0 }
  }

  /** The layouts the kernel reports: non-empty mappings in address order, none overlapping. */
  predicate Sorted(vs: seq<Vma>) {
    && (forall i | 0 <= i < |vs| :: vs[i].start < vs[i].end)
    && (forall i, j | 0 <= i < j < |vs| :: vs[i].end <= vs[j].start)
  }

  ghost predicate Covers(vs: seq<Vma>, p: nat) {
    exists i | 0 <= i < |vs| :: vs[i].Holds(p)
  }

  /** `vs` shows exactly the mapped pages of `sp`, with their protection. */
  ghost predicate Describes(vs: seq<Vma>, sp: AddressSpace) {
    && Sorted(vs)
    && (forall p: nat :: p in sp <==> Covers(vs, p))
    && (forall i, p: nat | 0 <= i < |vs| && vs[i].Holds(p) :: p in sp && sp[p].prot == vs[i].prot)
  }

  /** Mappings of the kernel itself, which the tracker leaves alone. */
  predicate Hidden(v: Vma) {
    "[vvar]" <= v.name || "[vdso]" <= v.name || "[vsyscall]" <= v.name
  }

  function Visible(vs: seq<Vma>): seq<Vma> {
    if vs == [] then []
    else Visible(vs[..|vs| - 1]) + if Hidden(vs[|vs| - 1]) then [] else [vs[|vs| - 1]]
  }

  lemma VisibleStep(vs: seq<Vma>, i: nat)
    requires i < |vs|
    ensures Visible(vs[..i + 1]) == Visible(vs[..i]) + if Hidden(vs[i]) then [] else [vs[i]]
  {
    assert vs[..i + 1][..i] == vs[..i];
  }

  lemma {:induction false} VisiblePrefix(vs: seq<Vma>, i: nat)
    requires i <= |vs|
    ensures Visible(vs[..i]) <= Visible(vs)
    decreases |vs| - i
  {
    if i == |vs| {
      assert vs[..i] == vs;
    } else {
      VisibleStep(vs, i);
      VisiblePrefix(vs, i + 1);
    }
  }

  /** Number of pages before mapping `i`: the prefix sums that give every map its first page index. */
  function Offset(vs: seq<Vma>, i: nat): nat
    requires i <= |vs|
  {
    if i == 0 then 0 else Offset(vs, i - 1) + vs[i - 1].Size()
  }

  function Total(vs: seq<Vma>): nat
  {
    Offset(vs, |vs|)
  }

  function PageRange(start: nat, n: nat): seq<nat> {
    seq(n, k requires 0 <= k < n => start + k)
  }

  function PagesUpTo(vs: seq<Vma>, i: nat): (ps: seq<nat>)
    requires i <= |vs|
    ensures |ps| == Offset(vs, i)
  {
    if i == 0 then [] else PagesUpTo(vs, i - 1) + PageRange(vs[i - 1].start, vs[i - 1].Size())
  }

  /** The addresses of the `pages` array. */
  function PagesOf(vs: seq<Vma>): (ps: seq<nat>)
    ensures |ps| == Total(vs)
  {
    PagesUpTo(vs, |vs|)
  }

  lemma {:induction false} OffsetMonotone(vs: seq<Vma>, i: nat, j: nat)
    requires i <= j <= |vs|
    ensures Offset(vs, i) <= Offset(vs, j)
    ensures i < j ==> Offset(vs, i) + vs[i].Size() <= Offset(vs, j)
    decreases j
  {
    if i < j { OffsetMonotone(vs, i, j - 1); }
  }

  lemma {:induction false} OffsetPrefix(vs: seq<Vma>, ws: seq<Vma>, i: nat)
    requires vs <= ws && i <= |vs|
    ensures Offset(vs, i) == Offset(ws, i)
  {
    if i > 0 { OffsetPrefix(vs, ws, i - 1); }
  }

  lemma {:induction false} PagesUpToAt(vs: seq<Vma>, n: nat, i: nat, j: nat)
    requires i < n <= |vs| && j < vs[i].Size()
    ensures Offset(vs, i) + j < Offset(vs, n)
    ensures PagesUpTo(vs, n)[Offset(vs, i) + j] == vs[i].start + j
    decreases n
  {
    if i < n - 1 { PagesUpToAt(vs, n - 1, i, j); }
  }

  /** Map `i`'s page `j` sits at its first page index plus `j`. */
  lemma PageAt(vs: seq<Vma>, i: nat, j: nat)
    requires i < |vs| && j < vs[i].Size()
    ensures Offset(vs, i) + j < Total(vs)
    ensures PagesOf(vs)[Offset(vs, i) + j] == vs[i].start + j
  {
    PagesUpToAt(vs, |vs|, i, j);
  }

  /** Every index of the `pages` array belongs to one map. */
  lemma {:induction false} OwnerUpTo(vs: seq<Vma>, n: nat, k: nat) returns (i: nat, j: nat)
    requires n <= |vs| && k < Offset(vs, n)
    ensures i < n && j < vs[i].Size() && k == Offset(vs, i) + j
    decreases n
  {
    if k >= Offset(vs, n - 1) {
      i, j := n - 1, k - Offset(vs, n - 1);
    } else {
      i, j := OwnerUpTo(vs, n - 1, k);
    }
  }

  ghost predicate Increasing(ps: seq<nat>) {
    forall a, b | 0 <= a < b < |ps| :: ps[a] < ps[b]
  }

  lemma PagesIncreasing(vs: seq<Vma>)
    requires Sorted(vs)
    ensures Increasing(PagesOf(vs))
  {
    forall a, b | 0 <= a < b < |PagesOf(vs)|
      ensures PagesOf(vs)[a] < PagesOf(vs)[b]
    {
      var i, j := OwnerUpTo(vs, |vs|, a);
      var i', j' := OwnerUpTo(vs, |vs|, b);
      PageAt(vs, i, j);
      PageAt(vs, i', j');
      if i' < i { OffsetMonotone(vs, i', i); }
    }
  }

  lemma PagesCover(vs: seq<Vma>, p: nat)
    requires Sorted(vs)
    ensures p in PagesOf(vs) <==> Covers(vs, p)
  {
    if p in PagesOf(vs) {
      var k :| 0 <= k < |PagesOf(vs)| && PagesOf(vs)[k] == p;
      var i, j := OwnerUpTo(vs, |vs|, k);
      PageAt(vs, i, j);
      assert vs[i].Holds(p);
    }
    if Covers(vs, p) {
      var i :| 0 <= i < |vs| && vs[i].Holds(p);
      PageAt(vs, i, p - vs[i].start);
    }
  }

  lemma FirstIsMember(ps: seq<nat>)
    ensures ps != [] ==> ps[0] in ps
  {
  }

  lemma {:induction false} IncreasingUnique(a: seq<nat>, b: seq<nat>)
    requires Increasing(a) && Increasing(b)
    requires forall x: nat :: x in a <==> x in b
    ensures a == b
    decreases |a|
  {
    if a == [] {
      FirstIsMember(b);
    } else {
      assert a[|a| - 1] in b;
      var x, y := a[|a| - 1], b[|b| - 1];
      assert y in a;
      assert x == y;
      var a', b' := a[..|a| - 1], b[..|b| - 1];
      forall z: nat
        ensures z in a' <==> z in b'
      {
        assert z in a <==> z in a' || z == x;
        assert z in b <==> z in b' || z == x;
        assert x !in a' && x !in b';
      }
      IncreasingUnique(a', b');
      assert a == a' + [x] && b == b' + [x];
    }
  }

  /**
   Page index agreement: two layouts of the same pages, however the kernel merged or split
   the mappings, give the same page at every index of the `pages` array.
   */
  lemma SamePagesSameIndices(vs: seq<Vma>, ws: seq<Vma>)
    requires Sorted(vs) && Sorted(ws)
    requires forall p: nat :: Covers(vs, p) <==> Covers(ws, p)
    ensures PagesOf(vs) == PagesOf(ws)
  {
    PagesIncreasing(vs);
    PagesIncreasing(ws);
    forall p: nat
      ensures p in PagesOf(vs) <==> p in PagesOf(ws)
    {
      PagesCover(vs, p);
      PagesCover(ws, p);
    }
    IncreasingUnique(PagesOf(vs), PagesOf(ws));
  }

  /** A page lies in at most one mapping of a sorted layout. */
  lemma HolderUnique(vs: seq<Vma>, i: nat, j: nat, p: nat)
    requires Sorted(vs) && i < |vs| && j < |vs| && vs[i].Holds(p) && vs[j].Holds(p)
    ensures i == j
  {
  }
}
