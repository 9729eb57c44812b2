/**
 The tracked process as the kernel shows it. Each method is one system call or one access to
 /proc, done as a single step on the address space.
 */
module TrackedProcess {
  import opened Machine
  import opened Paging
  import opened Pagemap
  import opened Layout

  /** Memory and program break, as one value. */
  datatype World = World(space: AddressSpace, brk: nat)

  /** Everything about the process that can change. */
  datatype Moment = Moment(time: nat, base: map<nat, PageData>, world: World, refusals: nat)

  /** Private anonymous memory: a page without a frame reads as zero. */
  ghost predicate Anonymous(sp: AddressSpace) {
    forall p | p in sp :: sp[p].present || sp[p].data == ZeroPage()
  }

  /**
   The kernel's promise about soft-dirty tracking: a page that no longer has the content it had
   when the bits were last cleared is shown soft-dirty or freed.
   */
  ghost predicate Tracked(base: map<nat, PageData>, sp: AddressSpace) {
    forall p | p in sp && p in base && sp[p].data != base[p] :: sp[p].dirty || !sp[p].present
  }

  class Process {
    var space: AddressSpace
    var brk: nat
    /** Page contents when the soft-dirty bits were last cleared. */
    var base: map<nat, PageData>
    var clock: nat
    /** How often the kernel has refused a write to the memory file, or cut a write of one page short. */
    ghost var refusals: nat
    /**
     The layout the kernel shows at a given time, with every name and number as far as a map record has
     room for it: the kernel merges and splits mappings as it likes.
     */
    const kernel: (nat, AddressSpace) -> seq<Vma>
    /** What the program does to its memory at a given time, starting from a given state. */
    const behave: (nat, World, map<nat, PageData>) -> World

    /** The kernel reports truthfully, and whatever the program does to tracked memory is tracked. */
    ghost predicate Honest() {
      && (forall t: nat, sp: AddressSpace :: Describes(Visible(kernel(t, sp)), sp))
      && (forall t: nat, w: World, b: map<nat, PageData> ::
            Anonymous(w.space) && Tracked(b, w.space) ==>
              Anonymous(behave(t, w, b).space) && Tracked(b, behave(t, w, b).space))
    }

    ghost predicate Valid()
      reads this
    {
      Honest() && Anonymous(space) && Tracked(base, space)
    }

    ghost function Now(): Moment
      reads this
    {
      Moment(clock, base, World(space, brk), refusals)
    }

    constructor (k: (nat, AddressSpace) -> seq<Vma>, b: (nat, World, map<nat, PageData>) -> World)
      ensures kernel == k && behave == b
      ensures space == map[] && base == map[] && clock == 0
    {
      kernel, behave := k, b;
      space, base, brk, clock, refusals := map[], map[], 0, 0, 0;
    }

    /** The program runs until it sends its next command. */
    method Run()
      requires Valid()
      modifies this`space, this`brk, this`clock
      ensures Valid()
      ensures World(space, brk) == behave(old(clock), World(old(space), old(brk)), base) && clock == old(clock) + 1
    {
      var w := behave(clock, World(space, brk), base);
      space, brk, clock := w.space, w.brk, clock + 1;
    }

    method ReadMapsFile() returns (vs: seq<Vma>)
      requires Valid()
      modifies this`clock
      ensures vs == kernel(old(clock), space) && clock == old(clock) + 1
      ensures Describes(Visible(vs), space)
    {
      vs := kernel(clock, space);
      clock := clock + 1;
    }

    method ReadPagemapEntry(p: nat) returns (d: bv64)
      requires p in space
      ensures EntryOf(d, space[p])
    {
      var pfn: bv64 := 0;
      var exclusive := false;
      if space[p].present {
        pfn, exclusive := *, *;
        if pfn == 0 || PFN_LIMIT <= pfn { pfn := 1; }
      }
      d := Entry(pfn, space[p].dirty, exclusive, false, false, space[p].present);
    }

    /**
     One read of the pagemap file for the `n` pages from `start` on, eight bytes each. The number of
     bytes read is an int, so it can only be the number asked for if that fits; if it fits, the read is
     complete.
     */
    method PReadPagemap(start: nat, n: nat) returns (r: int, bits: seq<bv64>)
      requires forall p: nat :: InRange(p, start, n) ==> p in space
      ensures r == 8 * n <==> 8 * n <= INT_MAX
      ensures |bits| == n
      ensures forall j: nat | j < n :: start + j in space && EntryOf(bits[j], space[start + j])
    {
      hide EntryOf;
      bits := [];
      while |bits| < n
        invariant |bits| <= n
        invariant forall j: nat | j < |bits| :: start + j in space && EntryOf(bits[j], space[start + j])
      {
        assert InRange(start + |bits|, start, n);
        var d := ReadPagemapEntry(start + |bits|);
        bits := bits + [d];
      }
      if 8 * n <= INT_MAX {
        r := 8 * n;
      } else {
        r :| -1 <= r <= INT_MAX;
      }
    }

    /** Mapped memory can always be read; a transfer of more than a page may come back short. */
    method PRead(addr: nat, n: nat) returns (bytes: seq<bv8>)
      requires 0 < n
      requires forall p: nat :: Touches(p, addr, n) ==> p in space
      ensures 0 < |bytes| <= n
      ensures n <= PSIZE ==> |bytes| == n
      ensures forall p: nat :: Touches(p, addr, |bytes|) ==> p in space
      ensures bytes == BytesAt(space, addr, |bytes|)
    {
      var r: nat :| 0 < r <= n;
      if n <= PSIZE { r := n; }
      assert forall p: nat :: Touches(p, addr, r) ==> Touches(p, addr, n);
      bytes := BytesAt(space, addr, r);
    }

    /** A write may fail (-1) or stop early. */
    method PWrite(addr: nat, bytes: seq<bv8>) returns (r: int)
      requires forall p: nat :: Touches(p, addr, |bytes|) ==> p in space
      modifies this`space, this`refusals
      ensures -1 <= r <= |bytes|
      ensures refusals == old(refusals) + if r <= 0 || (|bytes| <= PSIZE && r < |bytes|) then 1 else 0
      ensures space == if r > 0 then WriteBytes(old(space), addr, bytes[..r]) else old(space)
    {
      r :| -1 <= r <= |bytes|;
      if r <= 0 || (|bytes| <= PSIZE && r < |bytes|) { refusals := refusals + 1; }
      if r > 0 { space := WriteBytes(space, addr, bytes[..r]); }
    }

    method Munmap(start: nat, n: nat)
      modifies this`space
      ensures space == Unmapped(old(space), start, n)
    {
      space := Unmapped(space, start, n);
    }

    /** mmap with MAP_FIXED: whatever was mapped in the range is replaced. */
    method Mmap(start: nat, n: nat, prot: Prot)
      modifies this`space
      ensures space == Mapped(old(space), start, n, prot)
    {
      space := Mapped(space, start, n, prot);
    }

    method Mprotect(start: nat, n: nat, prot: Prot)
      requires forall p: nat :: InRange(p, start, n) ==> p in space
      modifies this`space
      ensures space == Protected(old(space), start, n, prot)
    {
      space := Protected(space, start, n, prot);
    }

    method MadviseDontneed(start: nat, n: nat)
      requires forall p: nat :: InRange(p, start, n) ==> p in space
      modifies this`space
      ensures space == Advised(old(space), start, n)
    {
      space := Advised(space, start, n);
    }

    /** Moves the program break; the kernel refuses to grow it over another mapping. */
    method Brk(end: nat)
      requires forall p: nat | brk <= p < end :: p !in space
      modifies this`space, this`brk
      ensures brk == end
      ensures space == if end < old(brk) then Unmapped(old(space), end, old(brk) - end)
                       else Mapped(old(space), old(brk), end - old(brk), Prot(true, true, false))
    {
      if end < brk {
        space := Unmapped(space, end, brk - end);
      } else {
        space := Mapped(space, brk, end - brk, Prot(true, true, false));
      }
      brk := end;
    }

    /** Writing "4" to clear_refs: every page becomes clean and its content the new reference. */
    method ClearSoftDirty()
      requires Honest() && Anonymous(space)
      modifies this`space, this`base
      ensures Valid()
      ensures space == Cleared(old(space)) && base == Contents(space)
    {
      space := Cleared(space);
      base := Contents(space);
    }
  }

  // ---- Layouts as assumed exist for every memory ----

  lemma {:induction false} LastExists(s: set<nat>)
    requires s != {}
    ensures exists m :: m in s && forall k | k in s :: k <= m
    decreases s
  {
    var x :| x in s;
    var rest := s - {x};
    if rest == {} {
      assert forall k | k in s :: k in rest || k == x;
    } else {
      LastExists(rest);
      var m :| m in rest && forall k | k in rest :: k <= m;
      assert forall k | k in s :: k in rest || k == x;
      var last := if x > m then x else m;
      assert last in s && forall k | k in s :: k <= last;
    }
  }

  ghost function LastPage(sp: AddressSpace): (m: nat)
    requires sp != map[]
    ensures m in sp && forall k | k in sp :: k <= m
  {
    LastExists(sp.Keys);
    var m :| m in sp.Keys && forall k | k in sp.Keys :: k <= m;
    m
  }

  /** The plainest description of a space: one mapping for every page. */
  ghost function PageByPage(sp: AddressSpace): (vs: seq<Vma>)
    decreases |sp.Keys|
  {
    if sp == map[] then []
    else
      var m := LastPage(sp);
      assert sp.Keys == (sp - {m}).Keys + {m};
      PageByPage(sp - {m}) + [Vma(m, m + 1, sp[m].prot, true, FileId(0, 0, 0, 0), "")]
  }

  lemma OneMorePage(vs: seq<Vma>, rest: AddressSpace, sp: AddressSpace, v: Vma)
    requires Describes(vs, rest) && v.end == v.start + 1 && v.start in sp && rest == sp - {v.start}
    requires v.prot == sp[v.start].prot && forall p | p in rest :: p < v.start
    ensures Describes(vs + [v], sp)
  {
    var all := vs + [v];
    forall i | 0 <= i < |vs|
      ensures vs[i].end <= v.start
    {
      var p: nat := vs[i].end - 1;
      assert vs[i].Holds(p);
      assert p in rest;
    }
    forall p: nat
      ensures p in sp <==> Covers(all, p)
    {
      CoversOneMore(vs, v, p);
    }
    forall i, p: nat | 0 <= i < |all| && all[i].Holds(p)
      ensures p in sp && sp[p].prot == all[i].prot
    {
      if i < |vs| {
        assert vs[i].Holds(p);
        assert p in rest && rest[p] == sp[p];
      }
    }
  }

  lemma CoversOneMore(vs: seq<Vma>, v: Vma, p: nat)
    ensures Covers(vs + [v], p) <==> Covers(vs, p) || v.Holds(p)
  {
    if Covers(vs, p) {
      var i :| 0 <= i < |vs| && vs[i].Holds(p);
      assert (vs + [v])[i].Holds(p);
    }
    if v.Holds(p) { assert (vs + [v])[|vs|].Holds(p); }
  }

  /** Every memory has a layout such as the kernel is assumed to show. */
  lemma {:induction false} PageByPageDescribes(sp: AddressSpace)
    ensures Describes(PageByPage(sp), sp) && Visible(PageByPage(sp)) == PageByPage(sp)
    decreases |sp.Keys|
  {
    hide Describes, Visible;
    if sp == map[] {
      NothingDescribed();
    } else {
      var m := LastPage(sp);
      var rest := sp - {m};
      assert sp.Keys == rest.Keys + {m};
      PageByPageDescribes(rest);
      var v := Vma(m, m + 1, sp[m].prot, true, FileId(0, 0, 0, 0), "");
      OneMorePage(PageByPage(rest), rest, sp, v);
      VisibleAppend(PageByPage(rest), v);
    }
  }

  lemma VisibleAppend(vs: seq<Vma>, v: Vma)
    ensures Visible(vs + [v]) == Visible(vs) + if Hidden(v) then [] else [v]
  {
    assert (vs + [v])[..|vs|] == vs;
  }

  lemma NothingDescribed()
    ensures Describes([], map[]) && Visible([]) == []
  {
  }

  /** The steps by which the kernel lets a program change its memory. */
  datatype KernelStep =
    | Store(page: nat, content: PageData)
    | ReadFault(page: nat)
    | MmapStep(start: nat, n: nat, prot: Prot)
    | MunmapStep(start: nat, n: nat)
    | MprotectStep(start: nat, n: nat, prot: Prot)
    | DontneedStep(start: nat, n: nat, stillDirty: bool)
    | MremapStep(from: nat, to: nat)
    | GrowStep(page: nat, prot: Prot, dirty: bool)

  function Step(sp: AddressSpace, s: KernelStep): AddressSpace {
    match s
    case Store(p, c) => if p in sp then sp[p := Cell(sp[p].prot, c, true, true)] else sp
    case ReadFault(p) => if p in sp then sp[p := Cell(sp[p].prot, sp[p].data, true, sp[p].dirty)] else sp
    case MmapStep(a, n, prot) => Mapped(sp, a, n, prot)
    case MunmapStep(a, n) => Unmapped(sp, a, n)
    case MprotectStep(a, n, prot) => Protected(sp, a, n, prot)
    case DontneedStep(a, n, d) =>
      map p | p in sp :: if InRange(p, a, n) then Cell(sp[p].prot, ZeroPage(), false, d) else sp[p]
    case MremapStep(a, b) =>
      if a in sp && a != b then
        (sp - {a})[b := Cell(sp[a].prot, sp[a].data, sp[a].present, true)]
      else sp
    case GrowStep(p, prot, d) => if p in sp then sp else sp[p := Cell(prot, ZeroPage(), false, d)]
  }

  function Steps(sp: AddressSpace, ss: seq<KernelStep>): AddressSpace {
    if ss == [] then sp else Step(Steps(sp, ss[..|ss| - 1]), ss[|ss| - 1])
  }

  /**
   The one way a program can hide a change from the tracking: reading a page whose frame was dropped
   maps the zero page without marking it. It stays harmless when the page read as zero at the last
   clear, or was not mapped then.
   */
  ghost predicate Legal(base: map<nat, PageData>, sp: AddressSpace, s: KernelStep) {
    match s
    case ReadFault(p) =>
      p in sp && p in base && !sp[p].present && !sp[p].dirty ==> base[p] == ZeroPage()
    case _ => true
  }

  ghost predicate LegalRun(base: map<nat, PageData>, sp: AddressSpace, ss: seq<KernelStep>) {
    forall i: nat | i < |ss| :: LegalAt(base, sp, ss, i)
  }

  ghost predicate LegalAt(base: map<nat, PageData>, sp: AddressSpace, ss: seq<KernelStep>, i: nat)
    requires i < |ss|
  {
    Legal(base, Steps(sp, ss[..i]), ss[i])
  }

  lemma StepIsAnonymous(sp: AddressSpace, s: KernelStep)
    requires Anonymous(sp)
    ensures Anonymous(Step(sp, s))
  {
    var after := Step(sp, s);
    forall p | p in after
      ensures after[p].present || after[p].data == ZeroPage()
    {
      if p in sp { assert sp[p].present || sp[p].data == ZeroPage(); }
    }
  }

  /** A step keeps the promise exactly if it is legal. */
  lemma StepIsTracked(base: map<nat, PageData>, sp: AddressSpace, s: KernelStep)
    requires Anonymous(sp) && Tracked(base, sp)
    ensures Tracked(base, Step(sp, s)) <==> Legal(base, sp, s)
  {
    var after := Step(sp, s);
    if !Legal(base, sp, s) {
      assert after[s.page] == Cell(sp[s.page].prot, ZeroPage(), true, false);
    }
  }

  /** The promise holds at every moment of a run. */
  ghost predicate TrackedThroughout(base: map<nat, PageData>, sp: AddressSpace, ss: seq<KernelStep>) {
    forall i: nat | i <= |ss| :: TrackedAfter(base, sp, ss, i)
  }

  ghost predicate TrackedAfter(base: map<nat, PageData>, sp: AddressSpace, ss: seq<KernelStep>, i: nat)
    requires i <= |ss|
  {
    Tracked(base, Steps(sp, ss[..i]))
  }

  lemma LastStep(sp: AddressSpace, ss: seq<KernelStep>, s: KernelStep)
    ensures Steps(sp, ss + [s]) == Step(Steps(sp, ss), s)
  {
    assert (ss + [s])[..|ss|] == ss;
  }

  lemma EarlierStep(base: map<nat, PageData>, sp: AddressSpace, ss: seq<KernelStep>, s: KernelStep, i: nat)
    requires i <= |ss|
    ensures i < |ss| ==> LegalAt(base, sp, ss + [s], i) == LegalAt(base, sp, ss, i)
    ensures TrackedAfter(base, sp, ss + [s], i) == TrackedAfter(base, sp, ss, i)
    ensures LegalAt(base, sp, ss + [s], |ss|) == Legal(base, Steps(sp, ss), s)
    ensures TrackedAfter(base, sp, ss + [s], |ss| + 1) == Tracked(base, Steps(sp, ss + [s]))
  {
    hide Legal, Tracked, Steps;
    var all := ss + [s];
    assert all[..i] == ss[..i] && all[..|ss|] == ss && all[..|ss| + 1] == all;
  }

  lemma OneStepMore(base: map<nat, PageData>, sp: AddressSpace, ss: seq<KernelStep>, s: KernelStep)
    ensures LegalRun(base, sp, ss + [s]) <==> LegalRun(base, sp, ss) && Legal(base, Steps(sp, ss), s)
    ensures TrackedThroughout(base, sp, ss + [s]) <==>
              TrackedThroughout(base, sp, ss) && Tracked(base, Steps(sp, ss + [s]))
  {
    hide Legal, Tracked, Steps, LegalAt, TrackedAfter;
    forall i: nat | i <= |ss|
      ensures i < |ss| ==> LegalAt(base, sp, ss + [s], i) == LegalAt(base, sp, ss, i)
      ensures TrackedAfter(base, sp, ss + [s], i) == TrackedAfter(base, sp, ss, i)
    {
      EarlierStep(base, sp, ss, s, i);
    }
    EarlierStep(base, sp, ss, s, |ss|);
  }

  lemma NoStep(base: map<nat, PageData>, sp: AddressSpace)
    ensures Steps(sp, []) == sp && LegalRun(base, sp, [])
    ensures TrackedThroughout(base, sp, []) <==> Tracked(base, sp)
  {
    hide Tracked;
    var none: seq<KernelStep> := [];
    assert none[..0] == none;
    assert TrackedAfter(base, sp, none, 0) == Tracked(base, sp);
  }

  /** The promise the tracker relies on holds all along a run of the kernel's steps exactly if every step is legal. */
  lemma {:induction false} TrackedExactlyWhenLegal(base: map<nat, PageData>, sp: AddressSpace, ss: seq<KernelStep>)
    requires Anonymous(sp) && Tracked(base, sp)
    ensures Anonymous(Steps(sp, ss))
    ensures LegalRun(base, sp, ss) <==> TrackedThroughout(base, sp, ss)
    ensures TrackedThroughout(base, sp, ss) ==> Tracked(base, Steps(sp, ss))
    decreases |ss|
  {
    hide Legal, Tracked, Anonymous, Step, LegalRun, TrackedThroughout, Steps;
    if ss == [] {
      NoStep(base, sp);
    } else {
      var n := |ss| - 1;
      var before, s := ss[..n], ss[n];
      assert before + [s] == ss;
      TrackedExactlyWhenLegal(base, sp, before);
      OneStepMore(base, sp, before, s);
      LastStep(sp, before, s);
      StepIsAnonymous(Steps(sp, before), s);
      if Tracked(base, Steps(sp, before)) { StepIsTracked(base, Steps(sp, before), s); }
    }
  }

  /**
   So the manager can handle every program that acts on its memory by legal steps only, under a kernel
   that reports truthfully.
   */
  lemma LegalProgramsAreHonest(process: Process, run: (nat, World, map<nat, PageData>) -> seq<KernelStep>)
    requires forall t: nat, sp: AddressSpace :: Describes(Visible(process.kernel(t, sp)), sp)
    requires forall t: nat, w: World, b: map<nat, PageData> | Anonymous(w.space) && Tracked(b, w.space) ::
               && process.behave(t, w, b).space == Steps(w.space, run(t, w, b))
               && LegalRun(b, w.space, run(t, w, b))
    ensures process.Honest()
  {
    hide LegalRun, Describes;
    forall t: nat, w: World, b: map<nat, PageData> | Anonymous(w.space) && Tracked(b, w.space)
      ensures Anonymous(process.behave(t, w, b).space) && Tracked(b, process.behave(t, w, b).space)
    {
      var ss := run(t, w, b);
      TrackedExactlyWhenLegal(b, w.space, ss);
    }
  }

  /** Without that restriction the promise fails: drop a page, then read it. */
  lemma DroppedThenReadIsHidden(p: nat, prot: Prot, c: PageData)
    requires c != ZeroPage()
    ensures var sp: AddressSpace := map[p := Cell(prot, c, true, false)];
      var after := Steps(sp, [DontneedStep(p, 1, false), ReadFault(p)]);
      && Tracked(Contents(sp), sp) && Anonymous(sp)
      && !Tracked(Contents(sp), after)
  {
    var sp: AddressSpace := map[p := Cell(prot, c, true, false)];
    var ss := [DontneedStep(p, 1, false), ReadFault(p)];
    assert ss[..1] == [ss[0]] && [ss[0]][..0] == [];
    assert Steps(sp, [ss[0]]) == Step(sp, ss[0]);
    var mid := Step(sp, ss[0]);
    assert InRange(p, p, 1);
    assert p in mid && mid[p] == Cell(prot, ZeroPage(), false, false);
    var after := Step(mid, ss[1]);
    assert after == Steps(sp, ss);
    assert after[p] == Cell(prot, ZeroPage(), true, false);
    assert Contents(sp)[p] == c;
  }
}
