// A paging segment: a run of device records cut into clusters, with a count of free clusters, a
// bitmap of used ones, and a hint where to look next.  A cluster is handed out in two critical
// sections: the count is decremented first, which reserves some cluster, and a clear bit is searched
// for later, with other threads allocating and freeing in between.

module Segment {
  import opened Bitmap
  import opened Totals

  // Where the segment lies, fixed when it is added.
  datatype Geometry = Geometry(
    device: nat, offset: nat, recnum: nat, recordShift: nat, clshift: nat, ncls: nat, priority: nat)

  // The value of a struct paging_segment.
  datatype Seg = Seg(geo: Geometry, clcount: int, hint: nat, bmap: seq<bv8>, goingAway: bool)

  function Howmany(n: nat): nat {
    (n + NBBY - 1) / NBBY
  }

  // ps_ncls == ps_clcount + reservations in flight + set bits, and every byte below the hint is full.
  ghost predicate SegInv(g: Seg, reserved: nat) {
    && |g.bmap| == Howmany(g.geo.ncls)
    && g.clcount >= 0
    && g.geo.ncls == g.clcount + reserved + Used(g.bmap, g.geo.ncls)
    && g.hint <= |g.bmap|
    && forall j :: 0 <= j < NBBY * g.hint ==> IsSet(g.bmap, j)
  }

  predicate InUse(g: Seg, c: nat) {
    c < NBBY * |g.bmap| && IsSet(g.bmap, c)
  }

  function Reserved(g: Seg): Seg {
    g.(clcount := g.clcount - 1)
  }

  function FoundAt(g: Seg): nat
    requires g.hint <= |g.bmap|
  {
    FirstClear(g.bmap, NBBY * g.hint)
  }

  function Found(g: Seg): Seg
    requires g.hint <= |g.bmap| && FoundAt(g) < NBBY * |g.bmap|
  {
    g.(bmap := Set(g.bmap, FoundAt(g)), hint := FoundAt(g) / NBBY)
  }

  function Freed(g: Seg, c: nat): Seg
    requires c < NBBY * |g.bmap|
  {
    g.(bmap := Clear(g.bmap, c), clcount := g.clcount + 1, hint := if c / NBBY < g.hint then c / NBBY else g.hint)
  }

  lemma BitsCover(n: nat)
    ensures n <= NBBY * Howmany(n) < n + NBBY
  {
  }

  lemma ReserveKeepsInv(g: Seg, reserved: nat)
    requires SegInv(g, reserved) && g.clcount > 0
    ensures SegInv(Reserved(g), reserved + 1)
  {
  }

  // A reservation is always honoured: the search finds the lowest free cluster of the segment, even
  // though the bits after the last cluster are arbitrary.
  lemma SearchSucceeds(g: Seg, reserved: nat)
    requires SegInv(g, reserved) && reserved > 0
    ensures FoundAt(g) < g.geo.ncls && !InUse(g, FoundAt(g))
    ensures forall c :: 0 <= c < FoundAt(g) ==> InUse(g, c)
    ensures SegInv(Found(g), reserved - 1)
    ensures forall c :: InUse(Found(g), c) <==> c == FoundAt(g) || InUse(g, c)
  {
    BitsCover(g.geo.ncls);
    UsedFull(g.bmap, g.geo.ncls);
    var c := FoundAt(g);
    UsedAfterOne(g.bmap, Set(g.bmap, c), c, g.geo.ncls);
  }

  lemma FreeKeepsInv(g: Seg, reserved: nat, c: nat)
    requires SegInv(g, reserved) && c < g.geo.ncls && InUse(g, c)
    ensures SegInv(Freed(g, c), reserved)
    ensures forall d :: InUse(Freed(g, c), d) <==> d != c && InUse(g, d)
  {
    UsedAfterOne(g.bmap, Clear(g.bmap, c), c, g.geo.ncls);
  }

  // A fresh segment, whatever its allocated bitmap contained after the last cluster.
  lemma FreshSegment(g: Seg)
    requires |g.bmap| == Howmany(g.geo.ncls) && g.clcount == g.geo.ncls && g.hint == 0
    requires forall c :: 0 <= c < g.geo.ncls ==> !InUse(g, c)
    ensures SegInv(g, 0)
  {
    BitsCover(g.geo.ncls);
    assert forall c :: 0 <= c < g.geo.ncls ==> InUse(g, c) == IsSet(g.bmap, c);
    NoneUsed(g.bmap, g.geo.ncls);
  }

  lemma {:induction false} NoneUsed(m: seq<bv8>, n: nat)
    requires n <= NBBY * |m| && forall c :: 0 <= c < n ==> !IsSet(m, c)
    ensures Used(m, n) == 0
  {
    if n > 0 {
      NoneUsed(m, n - 1);
    }
  }

  lemma FullByteBits(m: seq<bv8>, b: nat)
    requires b < |m| && m[b] == BYTEMASK
    ensures forall j :: NBBY * b <= j < NBBY * (b + 1) ==> IsSet(m, j)
  {
    FullByte(m[b]);
    forall j | NBBY * b <= j < NBBY * (b + 1) ensures IsSet(m, j) {
      assert j / NBBY == b;
    }
  }

  lemma {:induction false} FirstClearUnique(m: seq<bv8>, i: nat, c: nat)
    requires i <= c <= NBBY * |m| && (c < NBBY * |m| ==> !IsSet(m, c))
    requires forall j :: i <= j < c ==> IsSet(m, j)
    ensures FirstClear(m, i) == c
    decreases c - i
  {
    if i < c {
      FirstClearUnique(m, i + 1, c);
    }
  }

  // Skipping full bytes and then set bits arrives at the first clear bit.
  lemma FirstClearIs(g: Seg, b: nat, k: nat)
    requires g.hint <= b <= |g.bmap| && (b < |g.bmap| ==> g.bmap[b] != BYTEMASK) && (b == |g.bmap| ==> k == 0)
    requires forall j :: 0 <= j < NBBY * b ==> IsSet(g.bmap, j)
    requires b < |g.bmap| ==>
      k <= NBBY && (forall i :: 0 <= i < k ==> Bit(g.bmap[b], i)) && (k < NBBY ==> !Bit(g.bmap[b], k))
    ensures NBBY * b + k == FoundAt(g)
    ensures b < |g.bmap| ==> k < NBBY
  {
    if b < |g.bmap| {
      FullByte(g.bmap[b]);
      assert k < NBBY;
      var c := NBBY * b + k;
      assert c / NBBY == b && c % NBBY == k;
      forall j | NBBY * b <= j < c ensures IsSet(g.bmap, j) {
        assert j / NBBY == b && 0 <= j % NBBY < k;
      }
      assert !IsSet(g.bmap, c);
    }
    FirstClearUnique(g.bmap, NBBY * g.hint, NBBY * b + k);
  }

  // ---------------------------------------------------------------- the segment in memory

  // What taking the bit found makes of the segment.
  lemma FoundHere(g: Seg, reserved: nat, byteNum: nat, bitNum: nat)
    requires SegInv(g, reserved) && reserved > 0 && bitNum < NBBY && byteNum * NBBY + bitNum == FoundAt(g)
    ensures byteNum < |g.bmap| && FoundAt(g) < g.geo.ncls <= NBBY * |g.bmap|
    ensures Found(g) == g.(bmap := g.bmap[byteNum := BitSet(g.bmap[byteNum], bitNum)], hint := byteNum)
    ensures SegInv(Found(g), reserved - 1)
  {
    SearchSucceeds(g, reserved);
    BitsCover(g.geo.ncls);
    assert FoundAt(g) / NBBY == byteNum && FoundAt(g) % NBBY == bitNum;
  }

  class PagingSegment {
    const geo: Geometry
    var clcount: int
    var hint: nat
    var bmap: array<bv8>
    var goingAway: bool
    ghost var reserved: nat

    ghost predicate Valid()
      reads this, bmap
    {
      SegInv(Value(), reserved)
    }

    ghost function Value(): Seg
      reads this, bmap
    {
      Seg(geo, clcount, hint, bmap[..], goingAway)
    }

    // default_pager_add_segment clears one bit per cluster of a bitmap holding anything.
    constructor (g: Geometry, m: array<bv8>)
      requires m.Length == Howmany(g.ncls)
      modifies m
      ensures Valid() && geo == g && bmap == m && clcount == g.ncls && reserved == 0 && !goingAway
      ensures forall c :: 0 <= c < g.ncls ==> !InUse(Value(), c)
      ensures forall c :: g.ncls <= c < NBBY * m.Length ==> InUse(Value(), c) == old(IsSet(m[..], c))
    {
      geo, clcount, hint, bmap, goingAway, reserved := g, g.ncls, 0, m, false, 0;
      new;
      BitsCover(g.ncls);
      var i := 0;
      while i < g.ncls
        invariant i <= g.ncls && bmap == m && geo == g && clcount == g.ncls && hint == 0 && !goingAway && reserved == 0
        invariant forall c :: 0 <= c < i ==> !IsSet(m[..], c)
        invariant forall c :: i <= c < NBBY * m.Length ==> IsSet(m[..], c) == old(IsSet(m[..], c))
      {
        ghost var was := m[..];
        m[i / NBBY] := BitCleared(m[i / NBBY], i % NBBY);
        assert m[..] == Clear(was, i);
        i := i + 1;
      }
      FreshSegment(Value());
    }

    // Find the first byte from the hint that is not full, and the first clear bit in it.
    method Search() returns (byteNum: nat, bitNum: nat)
      requires Valid() && reserved > 0
      ensures bitNum < NBBY && NBBY * byteNum + bitNum == FoundAt(Value())
    {
      ghost var m := bmap[..];
      byteNum, bitNum := hint, 0;
      while byteNum < Howmany(geo.ncls) && bmap[byteNum] == BYTEMASK
        invariant hint <= byteNum <= bmap.Length
        invariant forall j :: 0 <= j < NBBY * byteNum ==> IsSet(m, j)
      {
        FullByteBits(m, byteNum);
        byteNum := byteNum + 1;
      }
      if byteNum < Howmany(geo.ncls) {
        while bitNum < NBBY && Bit(bmap[byteNum], bitNum)
          invariant bitNum <= NBBY
          invariant forall k :: 0 <= k < bitNum ==> Bit(bmap[byteNum], k)
        {
          bitNum := bitNum + 1;
        }
      }
      FirstClearIs(Value(), byteNum, bitNum);
    }

    // The part of ps_allocate_cluster after the reservation.
    method FindFree() returns (cluster: nat)
      requires Valid() && reserved > 0
      modifies this`hint, this`reserved, bmap
      ensures Valid() && reserved == old(reserved) - 1
      ensures cluster == FoundAt(old(Value())) && cluster < geo.ncls <= NBBY * bmap.Length
      ensures Value() == Found(old(Value()))
    {
      ghost var g := Value();
      var byteNum, bitNum := Search();
      FoundHere(g, reserved, byteNum, bitNum);
      cluster := byteNum * NBBY + bitNum;
      hint := byteNum;
      bmap[byteNum] := BitSet(bmap[byteNum], bitNum);
      reserved := reserved - 1;
      assert Value() == Found(g);
    }

    // ps_deallocate_cluster, under the segment's lock.
    method Deallocate(cluster: nat)
      requires Valid() && cluster < geo.ncls && InUse(Value(), cluster)
      modifies this`hint, this`clcount, bmap
      ensures Valid() && Value() == Freed(old(Value()), cluster)
    {
      ghost var g := Value();
      bmap[cluster / NBBY] := BitCleared(bmap[cluster / NBBY], cluster % NBBY);
      clcount := clcount + 1;
      if cluster / NBBY < hint {
        hint := cluster / NBBY;
      }
      assert bmap[..] == Clear(g.bmap, cluster);
      FreeKeepsInv(g, reserved, cluster);
    }
  }
}
