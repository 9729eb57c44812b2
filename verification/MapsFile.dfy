/** Reading the map table from the text of /proc/pid/maps: the parser and the table together. */
module MapsFile {
  import opened Paging
  import opened Layout
  import opened Records
  import opened MemoryInfo
  import opened MapsParser

  /** The layout that the pieces print, one mapping a line. */
  function LayoutOf(pieces: seq<seq<Line>>): seq<Vma> {
    if pieces == [] then []
    else LayoutOf(pieces[..|pieces| - 1]) + VmasOf(pieces[|pieces| - 1])
  }

  lemma {:induction false} VisibleConcat(a: seq<Vma>, b: seq<Vma>)
    ensures Visible(a + b) == Visible(a) + Visible(b)
    decreases |b|
  {
    hide Hidden;
    if b == [] {
      assert a + b == a;
    } else {
      assert (a + b)[..|a + b| - 1] == a + b[..|b| - 1];
      VisibleConcat(a, b[..|b| - 1]);
    }
  }

  lemma {:induction false} VisibleTwice(vs: seq<Vma>)
    ensures Visible(Visible(vs)) == Visible(vs)
  {
    hide Hidden;
    if vs != [] {
      var rest, v := vs[..|vs| - 1], vs[|vs| - 1];
      VisibleTwice(rest);
      VisibleConcat(Visible(rest), if Hidden(v) then [] else [v]);
      if !Hidden(v) { assert [v][..0] == []; }
    }
  }

  /** What ought to be read is the visible part of the layout. */
  lemma {:induction false} WantedAllIsVisible(pieces: seq<seq<Line>>)
    ensures WantedAll(pieces) == Visible(LayoutOf(pieces))
  {
    hide Wanted, Visible;
    if pieces != [] {
      var n := |pieces| - 1;
      WantedAllIsVisible(pieces[..n]);
      WantedIsVisible(pieces[n], |pieces[n]|);
      assert VmasOf(pieces[n])[..|pieces[n]|] == VmasOf(pieces[n]);
      VisibleConcat(LayoutOf(pieces[..n]), VmasOf(pieces[n]));
    } else {
      NothingVisible([]);
    }
  }

  /** The layout as map records have room for it. */
  function Cuts(vs: seq<Vma>): (us: seq<Vma>)
    ensures |us| == |vs|
  {
    seq(|vs|, k requires 0 <= k < |vs| => Cut(vs[k]))
  }

  lemma {:induction false} CutsStayVisible(vs: seq<Vma>)
    ensures Visible(Cuts(vs)) == Cuts(Visible(vs))
  {
    hide Hidden, Cut;
    if vs != [] {
      var n := |vs| - 1;
      CutsStayVisible(vs[..n]);
      CutKeepsHidden(vs[n]);
      assert Cuts(vs)[..n] == Cuts(vs[..n]);
    }
  }

  /** Cutting names and numbers leaves a layout that describes the memory as well as the one that is printed. */
  lemma CutsDescribeTheSame(vs: seq<Vma>, sp: AddressSpace)
    requires Describes(Visible(vs), sp)
    ensures Describes(Visible(Cuts(vs)), sp)
  {
    hide Visible;
    CutsStayVisible(vs);
    var us, ws := Visible(vs), Cuts(Visible(vs));
    forall p: nat
      ensures p in sp <==> Covers(ws, p)
    {
      assert forall i | 0 <= i < |us| :: us[i].Holds(p) == ws[i].Holds(p);
    }
    forall i, p: nat | 0 <= i < |ws| && ws[i].Holds(p)
      ensures p in sp && sp[p].prot == ws[i].prot
    {
      assert us[i].Holds(p);
    }
  }

  /** What is read, even where it is less, is visible and in the order of the layout. */
  lemma {:induction false} KeptInOrder(pieces: seq<seq<Line>>)
    requires Sorted(WantedAll(pieces))
    ensures Sorted(KeptAll(pieces)) && Visible(KeptAll(pieces)) == KeptAll(pieces)
    ensures forall v | v in KeptAll(pieces) :: v in WantedAll(pieces)
  {
    hide Wanted, KeptLines, FirstHidden, HiddenLast, Visible, Sorted;
    if pieces == [] {
      NothingVisible([]);
    } else {
      var n := |pieces| - 1;
      var before, last := WantedAll(pieces[..n]), Wanted(pieces[n], |pieces[n]|);
      var kept := KeptLines(pieces[n], FirstHidden(pieces[n]));
      SortedPrefix(before, before + last);
      KeptInOrder(pieces[..n]);
      PieceKept(pieces[n]);
      SortedPrefix(before + kept, before + last);
      SortedConcat(KeptAll(pieces[..n]), before, kept);
      WantedIsVisible(pieces[n], |pieces[n]|);
      VisibleTwice(VmasOf(pieces[n])[..|pieces[n]|]);
      VisibleOfPrefix(last, kept);
      VisibleConcat(KeptAll(pieces[..n]), kept);
    }
  }

  lemma VisibleOfPrefix(vs: seq<Vma>, us: seq<Vma>)
    requires us <= vs && Visible(vs) == vs
    ensures Visible(us) == us
  {
    hide Hidden;
    AllVisible(vs);
    NoneHidden(us);
  }

  lemma {:induction false} AllVisible(vs: seq<Vma>)
    ensures |Visible(vs)| <= |vs|
    ensures |Visible(vs)| == |vs| ==> forall i | 0 <= i < |vs| :: !Hidden(vs[i])
  {
    hide Hidden;
    if vs != [] { AllVisible(vs[..|vs| - 1]); }
  }

  lemma {:induction false} NoneHidden(vs: seq<Vma>)
    requires forall i | 0 <= i < |vs| :: !Hidden(vs[i])
    ensures Visible(vs) == vs
  {
    hide Hidden;
    if vs != [] { NoneHidden(vs[..|vs| - 1]); }
  }

  /** Leaving out mappings of the first part keeps the order. */
  lemma SortedConcat(some: seq<Vma>, all: seq<Vma>, rest: seq<Vma>)
    requires Sorted(some) && Sorted(all + rest) && forall v | v in some :: v in all
    ensures Sorted(some + rest)
  {
    var vs, ws := some + rest, all + rest;
    forall i | 0 <= i < |vs|
      ensures vs[i].start < vs[i].end
    {
      if i >= |some| { assert vs[i] == ws[|all| + (i - |some|)]; }
    }
    forall i, j | 0 <= i < j < |vs|
      ensures vs[i].end <= vs[j].start
    {
      if i >= |some| {
        assert vs[i] == ws[|all| + (i - |some|)] && vs[j] == ws[|all| + (j - |some|)];
      } else if j >= |some| {
        assert some[i] in all;
        var k :| 0 <= k < |all| && all[k] == some[i];
        assert vs[i] == ws[k] && vs[j] == ws[|all| + (j - |some|)];
      }
    }
  }

  /**
   From the text of the maps file to the map table: one record for every mapping that is not the
   kernel's own, in order, with prefix sums for page indices, exactly if no such mapping is printed
   behind a hidden one in its piece; otherwise these are missing, and the page indices with them.
   */
  method ReadMapsFile(info: MemInfo, texts: seq<string>, ghost pieces: seq<seq<Line>>) returns (total: int)
    requires info.Valid() && info.Maps() == [] && info.pagesMaxCapacity == info.pagedPagesCount == 0
    requires |texts| == |pieces|
    requires forall k | 0 <= k < |texts| :: texts[k] == ChunkText(pieces[k]) && |texts[k]| <= 8192
    requires forall k, j | 0 <= k < |pieces| && 0 <= j < |pieces[k]| :: Printable(pieces[k][j].vma)
    requires Sorted(Visible(LayoutOf(pieces)))
    modifies info`maps, info`mapsCount, info`pagesMaxCapacity, info`maxPagesInRegion,
      info`writablePagesCount, info`pagedPagesCount, info.maps
    ensures info.Valid() && Vmas(info.Maps()) == KeptAll(pieces) && TableRead(info.Maps(), total)
    ensures Vmas(info.Maps()) == Visible(LayoutOf(pieces)) <==> forall k | 0 <= k < |pieces| :: HiddenLast(pieces[k])
    ensures Countable(KeptAll(pieces)) ==>
      FreshTable(info.Maps()) && total == info.pagesMaxCapacity == Total(KeptAll(pieces))
  {
    hide Sorted, FreshTable, TableRead, Printable, ChunkText, HiddenLast, Visible, Offset;
    WantedAllIsVisible(pieces);
    KeptInOrder(pieces);
    ParserInvertsPrinterExactlyWhen(pieces);
    var lines := ReadMapsText(texts, pieces);
    total := info.AddLines(lines);
  }
}
