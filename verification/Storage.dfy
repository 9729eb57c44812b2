/**
 Compact storage of page contents: only pages with a frame are stored, page `k` in the slot that
 its rank among the paged pages selects.
 */
module Storage {
  import opened Paging
  import opened Records

  function Spliced(w: seq<bv8>, at: nat, bytes: seq<bv8>): seq<bv8>
    requires at + |bytes| <= |w|
  {
    w[..at] + bytes + w[at + |bytes|..]
  }

  lemma SplicedTwice(w: seq<bv8>, at: nat, b1: seq<bv8>, b2: seq<bv8>)
    requires at + |b1| + |b2| <= |w|
    ensures Spliced(Spliced(w, at, b1), at + |b1|, b2) == Spliced(w, at, b1 + b2)
  {
  }

  lemma BytesAtConcat(sp: AddressSpace, addr: nat, m: nat, n: nat)
    requires forall p: nat :: Touches(p, addr, m + n) ==> p in sp
    ensures forall p: nat :: Touches(p, addr, m) || Touches(p, addr + m, n) ==> p in sp
    ensures BytesAt(sp, addr, m) + BytesAt(sp, addr + m, n) == BytesAt(sp, addr, m + n)
  {
    assert forall p: nat :: Touches(p, addr, m) || Touches(p, addr + m, n) ==> Touches(p, addr, m + n);
    var a, b, c := BytesAt(sp, addr, m), BytesAt(sp, addr + m, n), BytesAt(sp, addr, m + n);
    forall k | 0 <= k < m + n
      ensures (a + b)[k] == c[k]
    {
      assert Touches((addr + k) / PSIZE, addr, m + n);
    }
  }

  /** Writing one slot leaves the others alone. */
  lemma SlotOfSpliced(w: seq<bv8>, s: nat, n: nat, bytes: seq<bv8>, t: nat)
    requires |bytes| == n * PSIZE && (s + n) * PSIZE <= |w| && (t + 1) * PSIZE <= |w|
    ensures Slot(Spliced(w, s * PSIZE, bytes), t) == if s <= t < s + n then Slot(bytes, t - s) else Slot(w, t)
  {
    var v := Spliced(w, s * PSIZE, bytes);
    forall k | 0 <= k < PSIZE
      ensures Slot(v, t)[k] == if s <= t < s + n then Slot(bytes, t - s)[k] else Slot(w, t)[k]
    {
      assert Slot(v, t)[k] == v[t * PSIZE + k];
    }
  }

  /** The slot of page `x` holds its content in `content`. */
  ghost predicate StoredAt(ps: seq<Page>, w: seq<bv8>, content: map<nat, PageData>, x: nat)
    requires x < |ps|
  {
    && (Rank(ps, x) + 1) * PSIZE <= |w|
    && ps[x].addr in content
    && Slot(w, Rank(ps, x)) == content[ps[x].addr]
  }

  ghost predicate StoredUpTo(ps: seq<Page>, w: seq<bv8>, content: map<nat, PageData>, n: nat)
    requires n <= |ps|
  {
    forall x: nat | x < n && ps[x].Paged() :: StoredAt(ps, w, content, x)
  }

  lemma RoomFor(ps: seq<Page>, w: seq<bv8>, x: nat, n: nat)
    requires |w| == CountPaged(ps) * PSIZE && x + n <= |ps|
    ensures Rank(ps, x + n) <= CountPaged(ps)
    ensures Rank(ps, x) + CountPaged(ps[x..x + n]) == Rank(ps, x + n)
    ensures Rank(ps, x + n) * PSIZE <= |w|
  {
    hide CountPaged;
    RankMonotone(ps, x + n, |ps|);
    assert ps[..|ps|] == ps;
    RankSplit(ps, x, x + n);
  }

  /** The `n` records from index `x` on are those of the paged pages `start .. start + n`. */
  ghost predicate PagedRun(ps: seq<Page>, x: nat, n: nat, start: nat, sp: AddressSpace) {
    && x + n <= |ps|
    && forall y | x <= y < x + n :: ps[y].Paged() && ps[y].addr == start + (y - x) && ps[y].addr in sp
  }

  lemma PagedRunMapped(ps: seq<Page>, x: nat, n: nat, start: nat, sp: AddressSpace)
    requires PagedRun(ps, x, n, start, sp)
    ensures forall p: nat :: Touches(p, start * PSIZE, n * PSIZE) ==> p in sp
  {
    forall p: nat | Touches(p, start * PSIZE, n * PSIZE)
      ensures p in sp
    {
      assert start <= p < start + n;
      assert ps[x + (p - start)].addr == p;
    }
  }

  lemma {:induction false} RunRank(ps: seq<Page>, x: nat, j: nat)
    requires x + j <= |ps|
    requires forall i | x <= i < x + j :: ps[i].Paged()
    ensures Rank(ps, x + j) == Rank(ps, x) + j
  {
    if j > 0 {
      RunRank(ps, x, j - 1);
      RankStep(ps, x + j - 1);
    }
  }

  lemma StoreRunAt(ps: seq<Page>, w: seq<bv8>, sp: AddressSpace, x: nat, n: nat, start: nat, y: nat)
    requires PagedRun(ps, x, n, start, sp) && y < x + n && ps[y].Paged()
    requires y < x ==> StoredAt(ps, w, Contents(sp), y)
    requires (Rank(ps, x) + n) * PSIZE <= |w|
    requires forall p: nat :: Touches(p, start * PSIZE, n * PSIZE) ==> p in sp
    ensures StoredAt(ps, Spliced(w, Rank(ps, x) * PSIZE, BytesAt(sp, start * PSIZE, n * PSIZE)), Contents(sp), y)
  {
    hide BytesAt, Touches, Rank, Page.Paged;
    BytesCount(sp, start * PSIZE, n * PSIZE);
    var bytes := BytesAt(sp, start * PSIZE, n * PSIZE);
    var s := Rank(ps, x);
    if y < x {
      RankStep(ps, y);
      RankMonotone(ps, y + 1, x);
    } else {
      RunRank(ps, x, y - x);
      RunBytes(sp, start, n, y - x);
    }
    RoomForSlot(w, s, n, Rank(ps, y));
    SlotOfSpliced(w, s, n, bytes, Rank(ps, y));
  }

  lemma BytesCount(sp: AddressSpace, addr: nat, n: nat)
    requires forall p: nat :: Touches(p, addr, n) ==> p in sp
    ensures |BytesAt(sp, addr, n)| == n
  {
  }

  lemma RoomForSlot(w: seq<bv8>, s: nat, n: nat, t: nat)
    requires (s + n) * PSIZE <= |w| && t < s + n
    ensures (t + 1) * PSIZE <= |w|
  {
  }

  lemma RunBytes(sp: AddressSpace, start: nat, n: nat, j: nat)
    requires j < n && forall p: nat :: Touches(p, start * PSIZE, n * PSIZE) ==> p in sp
    ensures start + j in sp && Slot(BytesAt(sp, start * PSIZE, n * PSIZE), j) == sp[start + j].data
  {
    assert forall p: nat :: start <= p < start + n ==> Touches(p, start * PSIZE, n * PSIZE);
    BytesAtSlot(sp, start, n, j);
  }

  /** Storing the next `n` pages, all paged, in one piece. */
  lemma StoreRun(ps: seq<Page>, w: seq<bv8>, sp: AddressSpace, x: nat, n: nat, start: nat)
    requires |w| == CountPaged(ps) * PSIZE && PagedRun(ps, x, n, start, sp)
    requires StoredUpTo(ps, w, Contents(sp), x)
    ensures (Rank(ps, x) + n) * PSIZE <= |w|
    ensures forall p: nat :: Touches(p, start * PSIZE, n * PSIZE) ==> p in sp
    ensures StoredUpTo(ps, Spliced(w, Rank(ps, x) * PSIZE, BytesAt(sp, start * PSIZE, n * PSIZE)), Contents(sp), x + n)
  {
    RoomFor(ps, w, x, n);
    RunRank(ps, x, n);
    PagedRunMapped(ps, x, n, start, sp);
    forall y: nat | y < x + n && ps[y].Paged()
      ensures StoredAt(ps, Spliced(w, Rank(ps, x) * PSIZE, BytesAt(sp, start * PSIZE, n * PSIZE)), Contents(sp), y)
    {
      StoreRunAt(ps, w, sp, x, n, start, y);
    }
  }
}
