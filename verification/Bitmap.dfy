// The paging segment's bitmap of used clusters: one bit per cluster, eight to a byte.

module Bitmap {
  const NBBY := 8
  const BYTEMASK: bv8 := 0xff

  predicate Bit(b: bv8, k: nat)
    requires k < NBBY
  {
    b & ((1 as bv8) << k) != 0
  }

  function BitSet(b: bv8, k: nat): bv8
    requires k < NBBY
  {
    b | ((1 as bv8) << k)
  }

  function BitCleared(b: bv8, k: nat): bv8
    requires k < NBBY
  {
    b & !((1 as bv8) << k)
  }

  lemma BitsOfByte(b: bv8, k: nat, j: nat)
    requires k < NBBY && j < NBBY
    ensures Bit(BitSet(b, k), j) == (j == k || Bit(b, j))
    ensures Bit(BitCleared(b, k), j) == (j != k && Bit(b, j))
  {
    var m, n := (1 as bv8) << k, (1 as bv8) << j;
    assert k == 0 || k == 1 || k == 2 || k == 3 || k == 4 || k == 5 || k == 6 || k == 7;
    assert j == 0 || j == 1 || j == 2 || j == 3 || j == 4 || j == 5 || j == 6 || j == 7;
    if j == k {
      assert m == n && m != 0;
    } else {
      assert m & n == 0;
    }
  }

  lemma FullByte(b: bv8)
    ensures b == BYTEMASK <==> forall k :: 0 <= k < NBBY ==> Bit(b, k)
  {
    if forall k :: 0 <= k < NBBY ==> Bit(b, k) {
      assert Bit(b, 0) && Bit(b, 1) && Bit(b, 2) && Bit(b, 3) && Bit(b, 4) && Bit(b, 5) && Bit(b, 6) && Bit(b, 7);
    } else {
      var k :| 0 <= k < NBBY && !Bit(b, k);
      assert k == 0 || k == 1 || k == 2 || k == 3 || k == 4 || k == 5 || k == 6 || k == 7;
    }
  }

  // ---------------------------------------------------------------- bitmaps

  predicate IsSet(m: seq<bv8>, i: nat)
    requires i < NBBY * |m|
  {
    Bit(m[i / NBBY], i % NBBY)
  }

  function Set(m: seq<bv8>, i: nat): (r: seq<bv8>)
    requires i < NBBY * |m|
    ensures |r| == |m| && forall j :: 0 <= j < NBBY * |m| ==> IsSet(r, j) == (j == i || IsSet(m, j))
  {
    assert forall j :: 0 <= j < NBBY * |m| && j / NBBY == i / NBBY ==> (j % NBBY == i % NBBY <==> j == i);
    var r := m[i / NBBY := BitSet(m[i / NBBY], i % NBBY)];
    assert forall j :: 0 <= j < NBBY * |m| ==> IsSet(r, j) == (j == i || IsSet(m, j)) by {
      forall j | 0 <= j < NBBY * |m| ensures IsSet(r, j) == (j == i || IsSet(m, j)) {
        BitsOfByte(m[i / NBBY], i % NBBY, j % NBBY);
      }
    }
    r
  }

  function Clear(m: seq<bv8>, i: nat): (r: seq<bv8>)
    requires i < NBBY * |m|
    ensures |r| == |m| && forall j :: 0 <= j < NBBY * |m| ==> IsSet(r, j) == (j != i && IsSet(m, j))
  {
    var r := m[i / NBBY := BitCleared(m[i / NBBY], i % NBBY)];
    assert forall j :: 0 <= j < NBBY * |m| ==> IsSet(r, j) == (j != i && IsSet(m, j)) by {
      forall j | 0 <= j < NBBY * |m| ensures IsSet(r, j) == (j != i && IsSet(m, j)) {
        BitsOfByte(m[i / NBBY], i % NBBY, j % NBBY);
      }
    }
    r
  }

  // How many of the first n bits are set.
  function Used(m: seq<bv8>, n: nat): (u: nat)
    requires n <= NBBY * |m|
    ensures u <= n
  {
    if n == 0 then 0 else Used(m, n - 1) + if IsSet(m, n - 1) then 1 else 0
  }

  lemma {:induction false} UsedAfterOne(m: seq<bv8>, r: seq<bv8>, i: nat, n: nat)
    requires |r| == |m| && n <= NBBY * |m| && i < NBBY * |m|
    requires forall j :: 0 <= j < n && j != i ==> IsSet(r, j) == IsSet(m, j)
    ensures Used(r, n) - Used(m, n) == if i >= n || IsSet(r, i) == IsSet(m, i) then 0 else if IsSet(r, i) then 1 else -1
  {
    if n > 0 {
      UsedAfterOne(m, r, i, n - 1);
    }
  }

  lemma {:induction false} UsedFull(m: seq<bv8>, n: nat)
    requires n <= NBBY * |m|
    ensures Used(m, n) == n <==> forall j :: 0 <= j < n ==> IsSet(m, j)
  {
    if n > 0 {
      UsedFull(m, n - 1);
    }
  }

  // The first clear bit at or after i, or the end of the bitmap.
  function FirstClear(m: seq<bv8>, i: nat): (c: nat)
    requires i <= NBBY * |m|
    ensures i <= c <= NBBY * |m|
    ensures forall j :: i <= j < c ==> IsSet(m, j)
    ensures c < NBBY * |m| ==> !IsSet(m, c)
    decreases NBBY * |m| - i
  {
    if i == NBBY * |m| || !IsSet(m, i) then i else FirstClear(m, i + 1)
  }
}
