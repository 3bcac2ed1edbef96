// Which disk block holds a block of a file.  An inode names its first blocks itself and the rest by
// trees of index blocks, one, two and three levels deep.  The last index block read at each level is
// kept, tagged with its disk block number.

module Ext2Map {
  import opened Arithmetic

  const NDADDR := 12
  const NIADDR := 3

  // Disk block number to the N block numbers of an index block; 0 stands for no block.
  type IndexBlocks = nat -> seq<nat>

  ghost predicate IsDisk(disk: IndexBlocks, n: nat) {
    n > 0 && forall b: nat :: |disk(b)| == n
  }

  // NINDIR to the power of l.
  function Power(n: nat, l: nat): (r: nat)
    ensures n > 0 ==> r > 0
  {
    if l == 0 then 1 else Power(n, l - 1) * n
  }

  // ---------------------------------------------------------------- the list of a file's blocks

  // The blocks below index block b at height l, from left to right, with zeros for what is missing.
  ghost function Leaves(disk: IndexBlocks, n: nat, b: nat, l: nat): seq<nat>
    decreases l, 0, 0
  {
    if l == 0 then [b]
    else if b == 0 then seq(Power(n, l), _ => 0)
    else Below(disk, n, disk(b), l - 1)
  }

  ghost function Below(disk: IndexBlocks, n: nat, blocks: seq<nat>, l: nat): seq<nat>
    decreases l, 1, |blocks|
  {
    if blocks == [] then [] else Below(disk, n, blocks[..|blocks| - 1], l) + Leaves(disk, n, blocks[|blocks| - 1], l)
  }

  // The blocks that the inode names itself, and those below its first l index blocks.
  ghost function BlocksUpTo(disk: IndexBlocks, n: nat, inode: seq<nat>, l: nat): seq<nat>
    requires |inode| == NDADDR + NIADDR && l <= NIADDR
  {
    if l == 0 then inode[..NDADDR]
    else BlocksUpTo(disk, n, inode, l - 1) + Leaves(disk, n, inode[NDADDR + l - 1], l)
  }

  // All blocks a file can have.
  ghost function FileBlocks(disk: IndexBlocks, n: nat, inode: seq<nat>): seq<nat>
    requires |inode| == NDADDR + NIADDR
  {
    BlocksUpTo(disk, n, inode, |inode| - NDADDR)
  }

  lemma {:induction false} LeavesCount(disk: IndexBlocks, n: nat, b: nat, l: nat)
    requires IsDisk(disk, n)
    ensures |Leaves(disk, n, b, l)| == Power(n, l)
    decreases l, 0, 0
  {
    if l > 0 && b != 0 {
      BelowCount(disk, n, disk(b), l - 1);
    }
  }

  lemma {:induction false} BelowCount(disk: IndexBlocks, n: nat, blocks: seq<nat>, l: nat)
    requires IsDisk(disk, n)
    ensures |Below(disk, n, blocks, l)| == Power(n, l) * |blocks|
    decreases l, 1, |blocks|
  {
    if blocks != [] {
      var m := |blocks| - 1;
      BelowCount(disk, n, blocks[..m], l);
      LeavesCount(disk, n, blocks[m], l);
      Distribute(m, 1, Power(n, l));
      assert Power(n, l) * m + Power(n, l) == Power(n, l) * |blocks|;
    }
  }

  lemma {:induction false} BelowAt(disk: IndexBlocks, n: nat, blocks: seq<nat>, l: nat, k: nat, r: nat)
    requires IsDisk(disk, n) && k < |blocks| && r < Power(n, l)
    ensures |Leaves(disk, n, blocks[k], l)| == Power(n, l)
    ensures k * Power(n, l) + r < |Below(disk, n, blocks, l)|
    ensures Below(disk, n, blocks, l)[k * Power(n, l) + r] == Leaves(disk, n, blocks[k], l)[r]
  {
    var m := |blocks| - 1;
    LeavesCount(disk, n, blocks[k], l);
    BelowCount(disk, n, blocks, l);
    BelowCount(disk, n, blocks[..m], l);
    Monotone(k + 1, |blocks|, Power(n, l));
    Distribute(k, 1, Power(n, l));
    if k < m {
      BelowAt(disk, n, blocks[..m], l, k, r);
      Monotone(k + 1, m, Power(n, l));
    }
  }

  // ---------------------------------------------------------------- the walk without a cache

  // The block that block number fb below b, at height l, is found at: a walk down the tree.
  function Walk(disk: IndexBlocks, n: nat, b: nat, l: nat, fb: nat): nat
    requires n > 0
    decreases l
  {
    if l == 0 || b == 0 then b
    else
      var idx := fb / Power(n, l - 1);
      Walk(disk, n, if idx < |disk(b)| then disk(b)[idx] else 0, l - 1, fb % Power(n, l - 1))
  }

  lemma {:induction false} WalkFindsLeaf(disk: IndexBlocks, n: nat, b: nat, l: nat, fb: nat)
    requires IsDisk(disk, n) && fb < Power(n, l)
    ensures |Leaves(disk, n, b, l)| == Power(n, l)
    ensures Leaves(disk, n, b, l)[fb] == Walk(disk, n, b, l, fb)
    ensures l > 0 ==> fb / Power(n, l - 1) < n
    decreases l
  {
    LeavesCount(disk, n, b, l);
    if l > 0 {
      var p := Power(n, l - 1);
      var idx, rest := fb / p, fb % p;
      Quotient(fb, p, n);
      if b != 0 {
        WalkFindsLeaf(disk, n, disk(b)[idx], l - 1, rest);
        BelowAt(disk, n, disk(b), l - 1, idx, rest);
      }
    }
  }

  // The first block mapped by the tree of each level, and after the last level the first block number
  // that is too high.
  function LevelStart(n: nat, level: nat): nat {
    if level == 0 then NDADDR else LevelStart(n, level - 1) + Power(n, level)
  }

  // Block number fileBlock is number fb of the tree of this level.
  predicate IsLevelOf(n: nat, fileBlock: nat, level: nat, fb: nat) {
    level < NIADDR && LevelStart(n, level) + fb == fileBlock && fb < Power(n, level + 1)
  }

  // It is so of one level at most.
  lemma OneLevel(n: nat, fileBlock: nat, level: nat, fb: nat, l: nat, b: nat)
    requires level <= NIADDR && LevelStart(n, level) + fb == fileBlock && (level < NIADDR ==> fb < Power(n, level + 1))
    requires IsLevelOf(n, fileBlock, l, b)
    ensures l == level && b == fb
  {
    if l < level {
      LevelStartGrows(n, l + 1, level);
    } else if level < l {
      LevelStartGrows(n, level + 1, l);
    }
  }

  lemma {:induction false} LevelStartGrows(n: nat, l: nat, m: nat)
    requires l <= m
    ensures LevelStart(n, l) <= LevelStart(n, m)
    decreases m
  {
    if l < m {
      LevelStartGrows(n, l, m - 1);
    }
  }

  lemma {:induction false} BlocksUpToCount(disk: IndexBlocks, n: nat, inode: seq<nat>, l: nat)
    requires IsDisk(disk, n) && |inode| == NDADDR + NIADDR && l <= NIADDR
    ensures |BlocksUpTo(disk, n, inode, l)| == LevelStart(n, l) >= NDADDR
    ensures forall k :: 0 <= k < NDADDR ==> BlocksUpTo(disk, n, inode, l)[k] == inode[k]
  {
    if l > 0 {
      BlocksUpToCount(disk, n, inode, l - 1);
      LeavesCount(disk, n, inode[NDADDR + l - 1], l);
    }
  }

  lemma {:induction false} BlocksUpToAt(disk: IndexBlocks, n: nat, inode: seq<nat>, l: nat, level: nat, fb: nat)
    requires IsDisk(disk, n) && |inode| == NDADDR + NIADDR && level < l <= NIADDR && fb < Power(n, level + 1)
    ensures |BlocksUpTo(disk, n, inode, l)| > LevelStart(n, level) + fb
    ensures BlocksUpTo(disk, n, inode, l)[LevelStart(n, level) + fb]
      == Walk(disk, n, inode[NDADDR + level], level + 1, fb)
  {
    BlocksUpToCount(disk, n, inode, l - 1);
    if level + 1 == l {
      WalkFindsLeaf(disk, n, inode[NDADDR + level], level + 1, fb);
    } else {
      BlocksUpToAt(disk, n, inode, l - 1, level, fb);
    }
  }

  lemma FileBlocksAt(disk: IndexBlocks, n: nat, inode: seq<nat>, level: nat, fb: nat)
    requires IsDisk(disk, n) && |inode| == NDADDR + NIADDR && level < NIADDR && fb < Power(n, level + 1)
    ensures |FileBlocks(disk, n, inode)| == LevelStart(n, NIADDR) > LevelStart(n, level) + fb
    ensures FileBlocks(disk, n, inode)[LevelStart(n, level) + fb]
      == Walk(disk, n, inode[NDADDR + level], level + 1, fb)
  {
    BlocksUpToCount(disk, n, inode, NIADDR);
    BlocksUpToAt(disk, n, inode, NIADDR, level, fb);
  }

  // What the level of a block number says about the list of blocks.
  lemma BlocksAtLevel(disk: IndexBlocks, n: nat, inode: seq<nat>, fileBlock: nat, level: nat, fb: nat)
    requires IsDisk(disk, n) && |inode| == NDADDR + NIADDR && level <= NIADDR && LevelStart(n, level) + fb == fileBlock
    requires level < NIADDR ==> fb < Power(n, level + 1)
    ensures level == NIADDR <==> fileBlock >= |FileBlocks(disk, n, inode)|
    ensures level < NIADDR ==>
      FileBlocks(disk, n, inode)[fileBlock] == Walk(disk, n, inode[NDADDR + level], level + 1, fb)
  {
    if level < NIADDR {
      FileBlocksAt(disk, n, inode, level, fb);
    } else {
      FileBlocksAt(disk, n, inode, 0, 0);
    }
  }

  lemma DirectBlocksAt(disk: IndexBlocks, n: nat, inode: seq<nat>)
    requires IsDisk(disk, n) && |inode| == NDADDR + NIADDR
    ensures |FileBlocks(disk, n, inode)| == LevelStart(n, NIADDR) >= NDADDR
    ensures forall k :: 0 <= k < NDADDR ==> FileBlocks(disk, n, inode)[k] == inode[k]
  {
    BlocksUpToCount(disk, n, inode, NIADDR);
  }

  // Which entry of an index block at height l leads to block number fb below it, and the number there.
  function Position(n: nat, l: nat, fb: nat): (nat, nat)
    requires n > 0 && l > 0
  {
    if l == 1 then (fb, 0) else (fb / Power(n, l - 1), fb % Power(n, l - 1))
  }

  lemma WalkStep(disk: IndexBlocks, n: nat, b: nat, l: nat, fb: nat)
    requires IsDisk(disk, n) && l > 0 && b != 0 && fb < Power(n, l)
    ensures var (idx, rest) := Position(n, l, fb);
      idx < n && rest < Power(n, l - 1) && Walk(disk, n, b, l, fb) == Walk(disk, n, disk(b)[idx], l - 1, rest)
  {
    Quotient(fb, Power(n, l - 1), n);
  }

  // ---------------------------------------------------------------- the table of levels

  const INT_MAX := 0x7fffffff

  // NINDIR of a file system whose superblock says `log` for its block size.
  function Nindir(log: nat): nat {
    256 * Pow2(log)
  }

  // The table fits in the source's ints exactly up to blocks of 4096 bytes.
  lemma LevelsFit(log: nat)
    ensures Power(Nindir(log), 3) <= INT_MAX <==> log <= 2
  {
    var n := Nindir(log);
    assert Power(n, 2) == Power(n, 1) * n && Power(n, 1) == Power(n, 0) * n;
    if log > 2 {
      Pow2Grows(3, log);
      assert Pow2(3) == 8;
      Monotone(2048, n, n);
      Monotone(2048 * n, n * n, n);
      Monotone(2048 * 2048, 2048 * n, n);
    } else {
      assert Pow2(0) == 1 && Pow2(1) == 2 && Pow2(2) == 4;
    }
  }

  lemma {:induction false} Pow2Grows(a: nat, b: nat)
    requires a <= b
    ensures Pow2(a) <= Pow2(b)
  {
    if a < b {
      Pow2Grows(a, b - 1);
    }
  }

  // ---------------------------------------------------------------- the file

  datatype Outcome = Found(block: nat) | NotInFile | ReadError

  // The kept index blocks: f_blkno, with -1 for none, and what f_blk points to.
  datatype Cache = Cache(no: seq<int>, data: seq<seq<nat>>)

  ghost predicate CacheOk(c: Cache, disk: IndexBlocks) {
    && |c.no| == |c.data| == NIADDR
    && forall l :: 0 <= l < NIADDR && c.no[l] != -1 ==> c.no[l] >= 0 && c.data[l] == disk(c.no[l])
  }

  // What is kept when other threads left `others` and index block b has been read at a level.
  function Keeping(others: Cache, level: nat, b: nat, data: seq<nat>): Cache
    requires level < |others.no| && level < |others.data|
  {
    Cache(others.no[level := b], others.data[level := data])
  }

  // The walk from b down comes to an index block that is not kept by then and cannot be read.
  ghost predicate Blocked(
      disk: IndexBlocks, n: nat, kept: Cache, b: nat, l: nat, fb: nat, works: nat -> bool, others: nat -> Cache)
    requires IsDisk(disk, n) && CacheOk(kept, disk) && l <= NIADDR && forall k :: CacheOk(others(k), disk)
    requires fb < Power(n, l)
    decreases l
  {
    l > 0 && b != 0 &&
    var (idx, rest) := Position(n, l, fb);
    WalkStep(disk, n, b, l, fb);
    assert CacheOk(others(l - 1), disk);
    if kept.no[l - 1] == b then Blocked(disk, n, kept, disk(b)[idx], l - 1, rest, works, others)
    else
      || !works(l - 1)
      || Blocked(disk, n, Keeping(others(l - 1), l - 1, b, disk(b)), disk(b)[idx], l - 1, rest, works, others)
  }

  // So does the search for a block of the file.
  ghost predicate Misses(
      disk: IndexBlocks, n: nat, inode: seq<nat>, kept: Cache, fileBlock: nat, works: nat -> bool,
      others: nat -> Cache)
    requires IsDisk(disk, n) && CacheOk(kept, disk) && forall k :: CacheOk(others(k), disk)
    requires |inode| == NDADDR + NIADDR
  {
    exists level: nat, fb: nat :: IsLevelOf(n, fileBlock, level, fb)
      && Blocked(disk, n, kept, inode[NDADDR + level], level + 1, fb, works, others)
  }

  lemma MissesInTree(
      disk: IndexBlocks, n: nat, inode: seq<nat>, kept: Cache, fileBlock: nat, works: nat -> bool,
      others: nat -> Cache, level: nat, fb: nat)
    requires IsDisk(disk, n) && CacheOk(kept, disk) && forall k :: CacheOk(others(k), disk)
    requires |inode| == NDADDR + NIADDR && level <= NIADDR && LevelStart(n, level) + fb == fileBlock
    requires level < NIADDR ==> fb < Power(n, level + 1)
    ensures Misses(disk, n, inode, kept, fileBlock, works, others) <==>
      level < NIADDR && Blocked(disk, n, kept, inode[NDADDR + level], level + 1, fb, works, others)
  {
    if Misses(disk, n, inode, kept, fileBlock, works, others) {
      var l: nat, b: nat :| IsLevelOf(n, fileBlock, l, b)
        && Blocked(disk, n, kept, inode[NDADDR + l], l + 1, b, works, others);
      OneLevel(n, fileBlock, level, fb, l, b);
    }
    assert level < NIADDR ==> IsLevelOf(n, fileBlock, level, fb);
  }

  lemma DirectMissesNothing(
      disk: IndexBlocks, n: nat, inode: seq<nat>, kept: Cache, fileBlock: nat, works: nat -> bool,
      others: nat -> Cache)
    requires IsDisk(disk, n) && CacheOk(kept, disk) && forall k :: CacheOk(others(k), disk)
    requires |inode| == NDADDR + NIADDR && fileBlock < NDADDR
    ensures !Misses(disk, n, inode, kept, fileBlock, works, others)
  {
    forall level: nat, fb: nat ensures !IsLevelOf(n, fileBlock, level, fb) {
      LevelStartGrows(n, 0, level);
    }
  }

  // Reads that all succeed block nothing, nor do index blocks that are kept.
  lemma {:induction false} NotBlocked(
      disk: IndexBlocks, n: nat, kept: Cache, b: nat, l: nat, fb: nat, works: nat -> bool, others: nat -> Cache)
    requires IsDisk(disk, n) && CacheOk(kept, disk) && l <= NIADDR && forall k :: CacheOk(others(k), disk)
    requires fb < Power(n, l) && forall k :: 0 <= k < l ==> works(k)
    ensures !Blocked(disk, n, kept, b, l, fb, works, others)
    decreases l
  {
    if l > 0 && b != 0 {
      var (idx, rest) := Position(n, l, fb);
      WalkStep(disk, n, b, l, fb);
      var next := if kept.no[l - 1] == b then kept else Keeping(others(l - 1), l - 1, b, disk(b));
      NotBlocked(disk, n, next, disk(b)[idx], l - 1, rest, works, others);
    }
  }

  lemma MissesNothing(
      disk: IndexBlocks, n: nat, inode: seq<nat>, kept: Cache, fileBlock: nat, works: nat -> bool,
      others: nat -> Cache)
    requires IsDisk(disk, n) && CacheOk(kept, disk) && forall k :: CacheOk(others(k), disk)
    requires |inode| == NDADDR + NIADDR && forall k :: works(k)
    ensures !Misses(disk, n, inode, kept, fileBlock, works, others)
  {
    forall level: nat, fb: nat | IsLevelOf(n, fileBlock, level, fb)
      ensures !Blocked(disk, n, kept, inode[NDADDR + level], level + 1, fb, works, others)
    {
      NotBlocked(disk, n, kept, inode[NDADDR + level], level + 1, fb, works, others);
    }
  }

  class File {
    const n: nat
    const disk: IndexBlocks
    var nindir: seq<nat>
    var kept: Cache
    var inode: seq<nat>

    ghost predicate Valid()
      reads this
    {
      && IsDisk(disk, n) && |inode| == NDADDR + NIADDR && |nindir| == NIADDR
      && (forall l :: 0 <= l < NIADDR ==> nindir[l] == Power(n, l + 1))
      && CacheOk(kept, disk)
    }

    ghost function Blocks(): seq<nat>
      reads this`inode
      requires |inode| == NDADDR + NIADDR
    {
      FileBlocks(disk, n, inode)
    }

    // The level table of mount_fs, with no index block kept.
    constructor (n: nat, disk: IndexBlocks, inode: seq<nat>)
      requires IsDisk(disk, n) && |inode| == NDADDR + NIADDR
      ensures Valid() && this.n == n && this.disk == disk && this.inode == inode
    {
      var mult, level, table := 1, 0, [];
      while level < NIADDR
        invariant level <= NIADDR && mult == Power(n, level) && |table| == level
        invariant forall l :: 0 <= l < level ==> table[l] == Power(n, l + 1)
      {
        mult := mult * n;
        table := table + [mult];
        level := level + 1;
      }
      this.n, this.disk, this.inode, nindir := n, disk, inode, table;
      kept := Cache(seq(NIADDR, _ => -1), seq(NIADDR, _ => []));
    }

    // A new inode is read into the file; nothing is kept of the old one.
    method ReadInode(next: seq<nat>)
      requires Valid() && |next| == NDADDR + NIADDR
      modifies this
      ensures Valid() && inode == next && kept.no == seq(NIADDR, _ => -1)
    {
      var level := 0;
      while level < NIADDR
        invariant level <= NIADDR && Valid() && forall l :: 0 <= l < level ==> kept.no[l] == -1
      {
        Keep(level, -1, []);
        level := level + 1;
      }
      inode := next;
    }

    method Keep(level: nat, no: int, data: seq<nat>)
      requires level < NIADDR <= |kept.no| == |kept.data|
      modifies this`kept
      ensures kept == Cache(old(kept).no[level := no], old(kept).data[level := data])
    {
      kept := Cache(kept.no[level := no], kept.data[level := data]);
    }

    // The level of the tree that maps block number fb, counted from NDADDR, and its number there.
    method FindLevel(fileBlock: nat) returns (level: nat, fb: nat)
      requires Valid() && fileBlock >= NDADDR
      ensures level <= NIADDR && LevelStart(n, level) + fb == fileBlock
      ensures level < NIADDR ==> fb < Power(n, level + 1)
    {
      level, fb := 0, fileBlock - NDADDR;
      while level < NIADDR && fb >= nindir[level]
        invariant level <= NIADDR && LevelStart(n, level) + fb == fileBlock
      {
        fb := fb - nindir[level];
        level := level + 1;
      }
    }

    // The index block `b` at a level: the kept one, or read from the device and kept.  The lock is
    // dropped for the read, and `others` is what other threads then leave kept.
    method Fetch(level: nat, b: nat, read: bool, others: Cache) returns (ok: bool, data: seq<nat>)
      requires Valid() && level < NIADDR && b > 0 && CacheOk(others, disk)
      modifies this`kept
      ensures Valid() && (ok <==> old(kept.no[level]) == b || read) && (ok ==> data == disk(b))
      ensures kept == if old(kept.no[level]) == b then old(kept)
                      else if read then Keeping(others, level, b, disk(b)) else others
    {
      if kept.no[level] == b {
        return true, kept.data[level];
      }
      kept := others;
      if !read {
        return false, [];
      }
      data := disk(b);
      Keep(level, b, data);
      ok := true;
    }

    // block_map.  `works(l)` says whether the device read of an index block at level l succeeds, and
    // `others(l)` is what other threads leave kept during it.
    method BlockMap(fileBlock: nat, works: nat -> bool, others: nat -> Cache) returns (r: Outcome)
      requires Valid() && forall l :: CacheOk(others(l), disk)
      modifies this`kept
      ensures Valid()
      ensures r.NotInFile? <==> fileBlock >= |Blocks()|
      ensures r.Found? ==> r.block == Blocks()[fileBlock]
      ensures r.ReadError? ==> exists l :: 0 <= l < NIADDR && !works(l)
      ensures fileBlock < NDADDR ==> r.Found? && kept == old(kept)
      ensures r.ReadError? <==> Misses(disk, n, inode, old(kept), fileBlock, works, others)
    {
      if fileBlock < NDADDR {
        DirectBlocksAt(disk, n, inode);
        DirectMissesNothing(disk, n, inode, kept, fileBlock, works, others);
        return Found(inode[fileBlock]);
      }
      var level, fb := FindLevel(fileBlock);
      MissesInTree(disk, n, inode, kept, fileBlock, works, others, level, fb);
      BlocksAtLevel(disk, n, inode, fileBlock, level, fb);
      if level == NIADDR {
        r := NotInFile;
      } else {
        r := WalkTree(level, fb, works, others);
      }
    }

    // One index block further down.
    method Descend(b: nat, l: nat, fb: nat, works: nat -> bool, others: nat -> Cache)
      returns (ok: bool, next: nat, rest: nat)
      requires Valid() && 0 < l <= NIADDR && b > 0 && fb < Power(n, l) && forall k :: CacheOk(others(k), disk)
      modifies this`kept
      ensures Valid()
      ensures ok ==> rest < Power(n, l - 1) && Walk(disk, n, next, l - 1, rest) == Walk(disk, n, b, l, fb)
      ensures var was := Blocked(disk, n, old(kept), b, l, fb, works, others);
        if ok then was == Blocked(disk, n, kept, next, l - 1, rest, works, others) else was && !works(l - 1)
    {
      var data;
      ok, data := Fetch(l - 1, b, works(l - 1), others(l - 1));
      next, rest := 0, 0;
      if ok {
        WalkStep(disk, n, b, l, fb);
        var idx := fb;
        if l > 1 {
          var m := nindir[l - 2];
          idx, rest := fb / m, fb % m;
        }
        assert (idx, rest) == Position(n, l, fb);
        next := data[idx];
      }
    }

    // From the root of the tree of a level down to block number fb.
    method WalkTree(level: nat, start: nat, works: nat -> bool, others: nat -> Cache) returns (r: Outcome)
      requires Valid() && level < NIADDR && start < Power(n, level + 1) && forall l :: CacheOk(others(l), disk)
      modifies this`kept
      ensures Valid() && !r.NotInFile?
      ensures r.Found? ==> r.block == Walk(disk, n, inode[NDADDR + level], level + 1, start)
      ensures r.ReadError? <==> Blocked(disk, n, old(kept), inode[NDADDR + level], level + 1, start, works, others)
      ensures r.ReadError? ==> exists l :: 0 <= l < NIADDR && !works(l)
    {
      var b: nat, l: nat, fb: nat := inode[NDADDR + level], level + 1, start;
      ghost var leaf := Walk(disk, n, b, l, fb);
      ghost var blocked := Blocked(disk, n, kept, b, l, fb, works, others);
      while l > 0 && b != 0
        invariant l <= NIADDR && fb < Power(n, l) && Valid()
        invariant leaf == Walk(disk, n, b, l, fb)
        invariant blocked == Blocked(disk, n, kept, b, l, fb, works, others)
      {
        var ok, next, rest := Descend(b, l, fb, works, others);
        if !ok {
          return ReadError;
        }
        b, l, fb := next, l - 1, rest;
      }
      return Found(b);
    }
  }
}
