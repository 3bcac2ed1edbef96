// The cluster map of one memory object: an array of vs_map entries, or, for larger objects, an array
// of pointers to fixed blocks of entries that are allocated when first needed.  Both represent one
// flat sequence of entries, one per cluster, and the map grows in place.

module ClusterMap {
  import opened Wrappers

  const CLMAP_THRESHOLD := 512
  const VSM_BYTES := 8
  const POINTER_BYTES := 4
  const CLMAP_ENTRIES := 64  // CLMAP_THRESHOLD / VSM_BYTES

  const VSM_ENTRY_NULL := 0x7fffff
  const VSM_ENTRY_LIMIT := 0x800000

  // struct vs_map: a 23-bit cluster number or error code, and two page bitmaps given as sets.
  datatype VsMap = VsMap(entry: nat, psindex: nat, error: bool, bmap: set<nat>, alloc: set<nat>)

  const CLEAR := VsMap(VSM_ENTRY_NULL, 0, false, {}, {})

  predicate IsClear(e: VsMap) {
    e.entry == VSM_ENTRY_NULL && !e.error
  }

  predicate Mapped(e: VsMap) {
    !IsClear(e) && !e.error
  }

  function WithCluster(e: VsMap, cluster: nat, psindex: nat): VsMap {
    e.(entry := cluster % VSM_ENTRY_LIMIT, psindex := psindex)
  }

  function WithError(e: VsMap, error: nat): VsMap {
    e.(error := true, entry := error % VSM_ENTRY_LIMIT)
  }

  // A cluster number survives its 23-bit field, as a mapping, exactly when it is below the null value
  // in the field's range.
  lemma ClusterNumberFits(cluster: nat, psindex: nat)
    ensures Mapped(WithCluster(CLEAR, cluster, psindex)) && WithCluster(CLEAR, cluster, psindex).entry == cluster
      <==> cluster < VSM_ENTRY_NULL
  {
  }

  function MapBytes(ncls: nat): nat {
    ncls * VSM_BYTES
  }

  predicate NeedsIndirect(ncls: nat) {
    MapBytes(ncls) > CLMAP_THRESHOLD
  }

  // As many blocks of CLMAP_ENTRIES entries as it takes, and no more.
  function Blocks(ncls: nat): (n: nat)
    requires ncls > 0
    ensures (n - 1) * CLMAP_ENTRIES < ncls <= n * CLMAP_ENTRIES
  {
    (ncls - 1) / CLMAP_ENTRIES + 1
  }

  // The clusters that the mapped entries hold, in order.
  function Held(s: seq<VsMap>): seq<(nat, nat)> {
    if s == [] then []
    else Held(s[..|s| - 1]) + if Mapped(s[|s| - 1]) then [(s[|s| - 1].psindex, s[|s| - 1].entry)] else []
  }

  // Those are the segments and cluster numbers of the mapped entries, and no others.
  lemma {:induction false} HeldExactly(s: seq<VsMap>, x: (nat, nat))
    ensures x in Held(s) <==> exists i :: 0 <= i < |s| && Mapped(s[i]) && x == (s[i].psindex, s[i].entry)
  {
    if s != [] {
      var n := |s| - 1;
      HeldExactly(s[..n], x);
      assert forall i :: 0 <= i < n ==> s[..n][i] == s[i];
    }
  }

  lemma {:induction false} HeldConcat(s: seq<VsMap>, t: seq<VsMap>)
    ensures Held(s + t) == Held(s) + Held(t)
  {
    if t == [] {
      assert s + t == s;
    } else {
      HeldConcat(s, t[..|t| - 1]);
      assert (s + t)[..|s + t| - 1] == s + t[..|t| - 1];
    }
  }

  lemma HeldFurther(s: seq<VsMap>, i: nat, j: nat)
    requires i <= j <= |s|
    ensures Held(s[..j]) == Held(s[..i]) + Held(s[i..j]) && s[..|s|] == s
  {
    assert s[..j] == s[..i] + s[i..j];
    HeldConcat(s[..i], s[i..j]);
  }

  lemma {:induction false} NothingHeld(s: seq<VsMap>)
    requires forall k :: 0 <= k < |s| ==> !Mapped(s[k])
    ensures Held(s) == []
  {
    if s != [] {
      NothingHeld(s[..|s| - 1]);
    }
  }

  class Map {
    var size: nat
    var indirect: bool
    var direct: array?<VsMap>
    var blocks: array?<array?<VsMap>>

    ghost function Chunks(): set<object?>
      reads this, blocks
    {
      if indirect && blocks != null then set k | 0 <= k < blocks.Length :: blocks[k] else {}
    }

    // The map that is allocated is always of the size that vs_size says, so that the size recomputed
    // when it is freed is the size that was asked for.
    ghost predicate Shape()
      reads this, direct, blocks, Chunks()
    {
      && size > 0
      && if indirect then
           && blocks != null && blocks.Length == Blocks(size) && NeedsIndirect(size)
           && (forall k :: 0 <= k < blocks.Length && blocks[k] != null ==> blocks[k].Length == CLMAP_ENTRIES)
           && (forall j, k :: 0 <= j < k < blocks.Length && blocks[k] != null ==> blocks[j] != blocks[k])
         else
           direct != null && direct.Length == size && !NeedsIndirect(size)
    }

    ghost function Capacity(): nat
      requires Shape()
      reads this, direct, blocks, Chunks()
    {
      if indirect then blocks.Length * CLMAP_ENTRIES else direct.Length
    }

    ghost function Entry(c: nat): VsMap
      requires Shape() && c < Capacity()
      reads this, direct, blocks, Chunks()
    {
      if !indirect then direct[c]
      else if blocks[c / CLMAP_ENTRIES] == null then CLEAR
      else blocks[c / CLMAP_ENTRIES][c % CLMAP_ENTRIES]
    }

    // The entries of an allocated block that lie beyond the object are clear.
    ghost predicate Valid()
      reads this, direct, blocks, Chunks()
    {
      Shape() && size <= Capacity() && forall c :: size <= c < Capacity() ==> Entry(c) == CLEAR
    }

    // The flat map: one entry per cluster of the object.
    ghost function Flat(): (s: seq<VsMap>)
      requires Valid()
      reads this, direct, blocks, Chunks()
    {
      Slots(size)
    }

    ghost function Slots(n: nat): (s: seq<VsMap>)
      requires Shape() && n <= Capacity()
      reads this, direct, blocks, Chunks()
      ensures |s| == n && forall c :: 0 <= c < n ==> s[c] == Entry(c)
    {
      seq(n, c requires Shape() && 0 <= c < Capacity() reads this, direct, blocks, Chunks() => Entry(c))
    }

    // The bytes that kalloc returned for the top-level map.
    ghost function AllocatedBytes(): nat
      requires Valid()
      reads this, direct, blocks, Chunks()
    {
      if indirect then blocks.Length * POINTER_BYTES else direct.Length * VSM_BYTES
    }

    // The map part of ps_vstruct_create; `ok` says whether kalloc succeeds.
    constructor (ncls: nat)
      requires ncls > 0
      ensures Valid() && size == ncls && Flat() == seq(ncls, _ => CLEAR)
    {
      size := ncls;
      if NeedsIndirect(ncls) {
        blocks := new array?<VsMap>[Blocks(ncls)](_ => null);
        direct := null;
        indirect := true;
      } else {
        direct := new VsMap[ncls](_ => CLEAR);
        blocks := null;
        indirect := false;
      }
    }

    // Every entry kept, and every new one clear.
    twostate predicate Grew(newSize: nat)
      requires old(Valid()) && Valid()
      reads this, direct, blocks, Chunks()
    {
      && size == newSize && size <= Capacity() && old(size <= Capacity())
      && (forall c :: 0 <= c < old(size) && c < size ==> Entry(c) == old(Entry(c)))
      && (forall c :: old(size) <= c < size ==> Entry(c) == CLEAR)
    }

    // ps_map_extend; `first` and `second` say whether the two calls of kalloc would succeed.  `freed`
    // is the size passed to kfree for the old map, if it is freed, and `committed` is passed to
    // bs_commit.
    method Extend(newSize: nat, first: bool, second: bool) returns (ok: bool, freed: nat, committed: int)
      requires Valid()
      modifies this
      ensures Valid() && Grew(if ok && newSize > old(size) then newSize else old(size))
      ensures committed == size - old(size)
      ensures freed == 0 || freed == old(AllocatedBytes())
      ensures freed == 0 ==> old(AllocatedBytes()) == AllocatedBytes()
      ensures ok <==>
        || old(size) >= newSize
        || (NeedsIndirect(newSize) && old(indirect) && Blocks(newSize) == Blocks(old(size)))
        || (first && (!NeedsIndirect(newSize) || old(indirect) || second))
    {
      freed, committed := 0, 0;
      if size >= newSize {
        return true, 0, 0;
      }
      committed := newSize - size;
      if !NeedsIndirect(newSize) {
        if !first {
          return false, 0, 0;
        }
        freed := MapBytes(size);
        GrowDirect(newSize);
      } else if indirect && Blocks(newSize) == Blocks(size) {
        size := newSize;
        assert forall c :: 0 <= c < old(Capacity()) ==> Entry(c) == old(Entry(c));
      } else {
        if !first || (!indirect && !second) {
          return false, 0, 0;
        }
        if indirect {
          freed := Blocks(size) * POINTER_BYTES;
          Widen(newSize);
        } else {
          freed := MapBytes(size);
          ToIndirect(newSize);
        }
      }
      ok := true;
    }

    // Direct to direct: a larger array.
    method GrowDirect(newSize: nat)
      requires Valid() && size < newSize && !NeedsIndirect(newSize)
      modifies this
      ensures Valid() && Grew(newSize)
    {
      direct := Grown(newSize);
      size := newSize;
    }

    // Direct to indirect: the old entries go into the first block.
    method ToIndirect(newSize: nat)
      requires Valid() && !indirect && NeedsIndirect(newSize)
      modifies this
      ensures Valid() && Grew(newSize)
    {
      var newBlocks := new array?<VsMap>[Blocks(newSize)](_ => null);
      newBlocks[0] := Grown(CLMAP_ENTRIES);
      blocks, indirect, size := newBlocks, true, newSize;
    }

    // Indirect to indirect: more pointers to blocks.
    method Widen(newSize: nat)
      requires Valid() && indirect && size < newSize
      modifies this
      ensures Valid() && Grew(newSize)
    {
      blocks := MoreBlocks(newSize);
      size := newSize;
      forall c | 0 <= c < old(Capacity()) ensures c < Capacity() && Entry(c) == old(Entry(c)) {
        assert c / CLMAP_ENTRIES < old(blocks.Length);
      }
    }

    // Zeroed pointers with the old ones copied in front.
    method MoreBlocks(newSize: nat) returns (a: array<array?<VsMap>>)
      requires Valid() && indirect && size < newSize
      ensures fresh(a) && a.Length == Blocks(newSize) >= blocks.Length
      ensures forall k :: 0 <= k < a.Length ==> a[k] == if k < blocks.Length then blocks[k] else null
    {
      a := new array?<VsMap>[Blocks(newSize)](_ => null);
      forall k | 0 <= k < blocks.Length {
        a[k] := blocks[k];
      }
    }

    // Allocate n entries, copy the direct map into them, and clear the rest.
    method Grown(n: nat) returns (a: array<VsMap>)
      requires Valid() && !indirect && size <= n
      ensures fresh(a) && a.Length == n
      ensures forall c :: 0 <= c < n ==> a[c] == if c < size then direct[c] else CLEAR
    {
      a := new VsMap[n];
      forall c | 0 <= c < size {
        a[c] := direct[c];
      }
      var i := size;
      while i < n
        invariant size <= i <= n
        invariant forall c :: 0 <= c < i ==> a[c] == if c < size then direct[c] else CLEAR
      {
        a[i] := CLEAR;
        i := i + 1;
      }
    }

    // The two-level lookup of ps_clmap: the array that holds entry c, after allocating its block when
    // `allocate` asks for it and kalloc succeeds; null when there is no block.
    method Locate(c: nat, allocate: bool, ok: bool) returns (a: array?<VsMap>)
      requires Valid() && c < size
      modifies blocks
      ensures Valid() && Grew(size)
      ensures a == null ==> indirect && blocks[c / CLMAP_ENTRIES] == null && Entry(c) == CLEAR && !(allocate && ok)
      ensures a != null ==>
        a == (if indirect then blocks[c / CLMAP_ENTRIES] else direct) && c % CLMAP_ENTRIES < a.Length
      ensures a != null ==> a[c % CLMAP_ENTRIES] == Entry(c)
    {
      if !indirect {
        return direct;
      }
      var b := c / CLMAP_ENTRIES;
      a := blocks[b];
      if a == null && allocate && ok {
        a := ClearBlock();
        blocks[b] := a;
      }
      assert forall k :: 0 <= k < Capacity() ==> Entry(k) == old(Entry(k));
    }

    static method ClearBlock() returns (a: array<VsMap>)
      ensures fresh(a) && a.Length == CLMAP_ENTRIES && forall k :: 0 <= k < CLMAP_ENTRIES ==> a[k] == CLEAR
    {
      a := new VsMap[CLMAP_ENTRIES];
      var i := 0;
      while i < CLMAP_ENTRIES
        invariant i <= CLMAP_ENTRIES
        invariant forall k :: 0 <= k < i ==> a[k] == CLEAR
      {
        a[i] := CLEAR;
        i := i + 1;
      }
    }

    // Writing through the pointer that the lookup returned changes entry c and no other.
    method Store(c: nat, a: array<VsMap>, e: VsMap)
      requires Valid() && c < size
      requires a == if indirect then blocks[c / CLMAP_ENTRIES] else direct
      modifies a
      ensures Valid() && size == old(size) && Entry(c) == e
      ensures forall k :: 0 <= k < size && k != c ==> Entry(k) == old(Entry(k))
    {
      a[c % CLMAP_ENTRIES] := e;
      assert forall k :: 0 <= k < Capacity() && k != c ==> Entry(k) == old(Entry(k));
    }

    // ps_vstruct_dealloc: walk the map and give back, in order, exactly the clusters it holds.  The
    // result lists the calls of ps_deallocate_cluster.
    method Release() returns (freed: seq<(nat, nat)>)
      requires Valid()
      ensures freed == Held(old(Flat()))
    {
      ghost var all, flat := Slots(Capacity()), Flat();
      if indirect {
        freed := ReleaseBlocks();
      } else {
        freed := ReleaseEntries(direct, size);
        assert direct[..size] == all;
      }
      assert all[..size] == flat;
      HeldFurther(all, size, |all|);
      NothingHeld(all[size..|all|]);
    }

    method ReleaseBlocks() returns (freed: seq<(nat, nat)>)
      requires Shape() && indirect
      ensures freed == Held(old(Slots(Capacity())))
    {
      ghost var all := Slots(Capacity());
      freed := [];
      var i := 0;
      while i < Blocks(size)
        invariant i <= blocks.Length
        invariant freed == Held(all[..i * CLMAP_ENTRIES])
        invariant forall c :: 0 <= c < Capacity() ==> all[c] == Entry(c)
      {
        ghost var from, to := i * CLMAP_ENTRIES, (i + 1) * CLMAP_ENTRIES;
        ghost var part := all[from..to];
        HeldFurther(all, from, to);
        PartIs(i, all, part);
        if blocks[i] != null {
          var some := ReleaseEntries(blocks[i], CLMAP_ENTRIES);
          freed := freed + some;
        } else {
          NothingHeld(part);
        }
        i := i + 1;
      }
      assert all[..i * CLMAP_ENTRIES] == all;
    }

    lemma PartIs(i: nat, all: seq<VsMap>, part: seq<VsMap>)
      requires Shape() && indirect && i < blocks.Length
      requires |all| == Capacity() && forall c :: 0 <= c < Capacity() ==> all[c] == Entry(c)
      requires part == all[i * CLMAP_ENTRIES..(i + 1) * CLMAP_ENTRIES]
      ensures if blocks[i] != null then part == blocks[i][..CLMAP_ENTRIES]
              else forall k :: 0 <= k < |part| ==> part[k] == CLEAR
    {
      forall k | 0 <= k < CLMAP_ENTRIES ensures part[k] == if blocks[i] != null then blocks[i][k] else CLEAR {
        var c := i * CLMAP_ENTRIES + k;
        assert c / CLMAP_ENTRIES == i && c % CLMAP_ENTRIES == k;
        assert part[k] == Entry(c);
      }
    }

    // ps_dealloc_vsmap.
    static method ReleaseEntries(a: array<VsMap>, n: nat) returns (freed: seq<(nat, nat)>)
      requires n <= a.Length
      ensures freed == Held(a[..n])
    {
      freed := [];
      for i := 0 to n
        invariant freed == Held(a[..i])
      {
        assert a[..i + 1][..i] == a[..i];
        if !IsClear(a[i]) && !a[i].error {
          freed := freed + [(a[i].psindex, a[i].entry)];
        }
      }
    }
  }
}
