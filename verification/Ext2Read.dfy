// Reading a range of a file.  A block is read through an internal buffer that keeps the last one, or
// straight into the caller's memory when a whole aligned block is wanted.

module Ext2Read {
  import opened Arithmetic
  import opened Ext2Map
  import opened Wrappers

  type Bytes = seq<bv8>
  type DataBlocks = nat -> Bytes  // disk block number to the bytes of the block

  // A file as data: what its disk blocks hold, the block size, its blocks in order, and its size.
  datatype Image = Image(data: DataBlocks, bs: nat, blocks: seq<nat>, size: nat)

  ghost predicate IsImage(f: Image) {
    IsData(f.data, f.bs)
  }

  ghost predicate IsData(data: DataBlocks, bs: nat) {
    bs > 0 && forall b: nat :: |data(b)| == bs
  }

  // The bytes of a file's block; a missing one reads as zeros.
  function BlockBytes(data: DataBlocks, bs: nat, b: nat): Bytes {
    if b == 0 then seq(bs, _ => 0) else data(b)
  }

  // ---------------------------------------------------------------- block arithmetic

  function Lblkno(bs: nat, offset: nat): nat
    requires bs > 0
  {
    offset / bs
  }

  function Blkoff(bs: nat, offset: nat): (r: nat)
    requires bs > 0
    ensures r < bs
  {
    offset % bs
  }

  // Block number and offset in the block are the only pair that makes up the byte's number.
  lemma BlockArithmetic(bs: nat, offset: nat, b: nat, r: nat)
    requires bs > 0 && r < bs
    ensures offset == Lblkno(bs, offset) * bs + Blkoff(bs, offset)
    ensures offset == b * bs + r <==> b == Lblkno(bs, offset) && r == Blkoff(bs, offset)
  {
    Quotient(offset, bs, 0);
    DivMod(b, r, bs);
  }

  lemma WithinBlock(bs: nat, offset: nat, k: nat)
    requires bs > 0 && Blkoff(bs, offset) + k < bs
    ensures Lblkno(bs, offset + k) == Lblkno(bs, offset) && Blkoff(bs, offset + k) == Blkoff(bs, offset) + k
  {
    BlockArithmetic(bs, offset, 0, 0);
    BlockArithmetic(bs, offset + k, Lblkno(bs, offset), Blkoff(bs, offset) + k);
  }

  lemma BlocksInOrder(bs: nat, i: nat, j: nat)
    requires bs > 0 && i <= j
    ensures Lblkno(bs, i) <= Lblkno(bs, j)
  {
    BlockArithmetic(bs, i, 0, 0);
    Quotient(j, bs, Lblkno(bs, i));
  }

  // Where the block of a byte starts.
  function BlockStart(bs: nat, i: nat): nat
    requires bs > 0
  {
    Lblkno(bs, i) * bs
  }

  lemma StartsBlock(bs: nat, i: nat)
    requires bs > 0
    ensures BlockStart(bs, i) + Blkoff(bs, i) == i
    ensures Blkoff(bs, BlockStart(bs, i)) == 0 && Lblkno(bs, BlockStart(bs, i)) == Lblkno(bs, i)
  {
    BlockArithmetic(bs, i, 0, 0);
    BlockArithmetic(bs, BlockStart(bs, i), Lblkno(bs, i), 0);
  }

  // A block that starts behind a byte starts at or behind the end of the byte's block.
  lemma NextStart(bs: nat, i: nat, start: nat)
    requires bs > 0 && Blkoff(bs, start) == 0 && i < start
    ensures start >= BlockStart(bs, i) + bs
  {
    BlockArithmetic(bs, start, 0, 0);
    StartsBlock(bs, i);
    Quotient(i, bs, Lblkno(bs, start));
    Monotone(Lblkno(bs, i) + 1, Lblkno(bs, start), bs);
    Distribute(Lblkno(bs, i), 1, bs);
  }

  // ---------------------------------------------------------------- the bytes of a file

  // The bytes that are in the file: those of its size that its blocks can hold.
  predicate InFile(f: Image, i: nat)
    requires f.bs > 0
  {
    i < f.size && Lblkno(f.bs, i) < |f.blocks|
  }

  // The bytes behind the end of a file that lie in its last block, when that block is missing.
  predicate Padding(f: Image, i: nat)
    requires f.bs > 0
  {
    && 0 < f.size <= i && Lblkno(f.bs, i) == Lblkno(f.bs, f.size - 1) < |f.blocks|
    && f.blocks[Lblkno(f.bs, i)] == 0
  }

  // Byte i of the file is the byte at its offset in the disk block that is its block of the file, or 0
  // if that block is missing.
  function Byte(f: Image, i: nat): bv8
    requires f.bs > 0 && Lblkno(f.bs, i) < |f.blocks|
  {
    var b, k := f.blocks[Lblkno(f.bs, i)], Blkoff(f.bs, i);
    if b != 0 && k < |f.data(b)| then f.data(b)[k] else 0
  }

  // x may be delivered for byte i: it is that byte of the file, or a zero behind the end of it.
  predicate IsByte(f: Image, i: nat, x: bv8)
    requires f.bs > 0
  {
    (InFile(f, i) && x == Byte(f, i)) || (Padding(f, i) && x == 0)
  }

  ghost predicate IsContent(f: Image, b: Bytes, offset: nat)
    requires f.bs > 0
  {
    forall k :: 0 <= k < |b| ==> IsByte(f, offset + k, b[k])
  }

  // x is read off the disk: from the block of the file that byte i is in, by the number of that block.
  predicate OnDisk(data: DataBlocks, bs: nat, blocks: seq<nat>, i: nat, x: bv8)
    requires bs > 0
  {
    Lblkno(bs, i) < |blocks| &&
    var b := blocks[Lblkno(bs, i)];
    if b == 0 then x == 0 else Blkoff(bs, i) < |data(b)| && x == data(b)[Blkoff(bs, i)]
  }

  // So is every byte that is in the file.
  lemma ByteIsOnDisk(f: Image, i: nat, x: bv8)
    requires IsImage(f) && i < f.size
    ensures IsByte(f, i, x) <==> OnDisk(f.data, f.bs, f.blocks, i, x)
  {
    if Lblkno(f.bs, i) < |f.blocks| {
      assert |f.data(f.blocks[Lblkno(f.bs, i)])| == f.bs;
    }
  }

  function Min(a: nat, b: nat): nat {
    if a <= b then a else b
  }

  // At most n bytes of a block from position i on.
  function CutOff(b: Bytes, i: nat, n: nat): Bytes
    requires i <= |b|
  {
    b[i..i + Min(|b| - i, n)]
  }

  // The rest of a block from `offset` on, cut off at the end of the file, is content.
  lemma RestOfBlock(f: Image, offset: nat, block: Bytes)
    requires IsImage(f) && InFile(f, offset) && block == BlockBytes(f.data, f.bs, f.blocks[Lblkno(f.bs, offset)])
    ensures |block| == f.bs
    ensures var b := CutOff(block, Blkoff(f.bs, offset), f.size - offset);
      |b| == Min(f.bs - Blkoff(f.bs, offset), f.size - offset) > 0 && IsContent(f, b, offset)
  {
    var b := CutOff(block, Blkoff(f.bs, offset), f.size - offset);
    forall k | 0 <= k < |b| ensures IsByte(f, offset + k, b[k]) {
      WithinBlock(f.bs, offset, k);
    }
  }

  // A whole missing block is content, also behind the end of the file.
  lemma HoleIsContent(f: Image, offset: nat, b: Bytes)
    requires IsImage(f) && InFile(f, offset) && Blkoff(f.bs, offset) == 0 && f.blocks[Lblkno(f.bs, offset)] == 0
    requires |b| == f.bs && forall k :: 0 <= k < |b| ==> b[k] == 0
    ensures IsContent(f, b, offset)
  {
    forall k | 0 <= k < |b| ensures IsByte(f, offset + k, b[k]) {
      WithinBlock(f.bs, offset, k);
      if offset + k >= f.size {
        WithinBlock(f.bs, offset, f.size - 1 - offset);
      }
    }
  }

  // ---------------------------------------------------------------- what is delivered

  // A whole block is wanted where it can be read into the caller's memory.
  predicate IsDirect(bs: nat, offset: nat, want: nat, aligned: bool)
    requires bs > 0
  {
    Blkoff(bs, offset) == 0 && want >= bs && aligned
  }

  // The length of one piece.  A missing block is not cut off at the end of the file when it is wanted
  // whole.
  function PieceSize(f: Image, offset: nat, want: nat, aligned: bool): (n: nat)
    requires f.bs > 0 && InFile(f, offset)
    ensures n <= want && (want > 0 ==> n > 0)
  {
    if IsDirect(f.bs, offset, want, aligned) && f.blocks[Lblkno(f.bs, offset)] == 0 then f.bs
    else Min(Min(f.bs - Blkoff(f.bs, offset), f.size - offset), want)
  }

  // How much a read delivers when nothing fails; `aligned` is about places in the caller's memory.
  function Amount(f: Image, offset: nat, start: nat, want: nat, aligned: nat -> bool): (n: nat)
    requires f.bs > 0
    ensures n <= want
    decreases want
  {
    if want == 0 || !InFile(f, offset) then 0
    else
      var n := PieceSize(f, offset, want, aligned(start));
      n + Amount(f, offset + n, start + n, want - n, aligned)
  }

  // The last block of the file is missing, and it is read in place and whole.
  predicate Overshoots(f: Image, offset: nat, start: nat, want: nat, aligned: nat -> bool)
    requires f.bs > 0
  {
    f.size > 0 &&
    var last := BlockStart(f.bs, f.size - 1);
    && offset <= last && last + f.bs <= offset + want && f.size < last + f.bs && aligned(start + (last - offset))
    && Lblkno(f.bs, f.size - 1) < |f.blocks| && f.blocks[Lblkno(f.bs, f.size - 1)] == 0
  }

  // Nothing is left to overshoot where the file has no byte.
  lemma NoOvershoot(f: Image, offset: nat, start: nat, want: nat, aligned: nat -> bool)
    requires f.bs > 0 && offset <= f.size && !InFile(f, offset)
    ensures !Overshoots(f, offset, start, want, aligned)
  {
    if offset < f.size {
      BlocksInOrder(f.bs, offset, f.size - 1);
    }
  }

  lemma PieceInBlock(f: Image, offset: nat, want: nat, aligned: bool)
    requires f.bs > 0 && InFile(f, offset)
    ensures PieceSize(f, offset, want, aligned) <= f.bs - Blkoff(f.bs, offset)
  {
  }

  // A read that overshoots where the last block starts takes all of it.
  lemma OvershootHere(f: Image, offset: nat, start: nat, want: nat, aligned: nat -> bool)
    requires f.bs > 0 && InFile(f, offset) && Overshoots(f, offset, start, want, aligned)
    requires offset == BlockStart(f.bs, f.size - 1)
    ensures offset + PieceSize(f, offset, want, aligned(start)) > f.size
  {
    StartsBlock(f.bs, f.size - 1);
  }

  // A piece that stays in the file leaves it open whether the read overshoots.
  lemma OvershootLater(f: Image, offset: nat, start: nat, want: nat, aligned: nat -> bool)
    requires f.bs > 0 && InFile(f, offset) && want > 0
    requires offset + PieceSize(f, offset, want, aligned(start)) <= f.size
    ensures var n := PieceSize(f, offset, want, aligned(start));
      Overshoots(f, offset, start, want, aligned) <==> Overshoots(f, offset + n, start + n, want - n, aligned)
  {
    var n, last := PieceSize(f, offset, want, aligned(start)), BlockStart(f.bs, f.size - 1);
    var offset', start', want' := offset + n, start + n, want - n;
    if offset < last {
      StartsBlock(f.bs, f.size - 1);
      NextStart(f.bs, offset, last);
      StartsBlock(f.bs, offset);
      PieceInBlock(f, offset, want, aligned(start));
      assert offset' <= last && start' + (last - offset') == start + (last - offset);
    } else if offset == last && Overshoots(f, offset, start, want, aligned) {
      OvershootHere(f, offset, start, want, aligned);
    }
  }

  // Bytes behind the end of the file are delivered exactly when the read overshoots.
  lemma {:induction false} BeyondExactly(f: Image, offset: nat, start: nat, want: nat, aligned: nat -> bool)
    requires f.bs > 0 && offset <= f.size
    ensures offset + Amount(f, offset, start, want, aligned) > f.size <==> Overshoots(f, offset, start, want, aligned)
    decreases want
  {
    if want > 0 && InFile(f, offset) {
      var n := PieceSize(f, offset, want, aligned(start));
      if offset + n <= f.size {
        OvershootLater(f, offset, start, want, aligned);
        BeyondExactly(f, offset + n, start + n, want - n, aligned);
      } else {
        LastPiece(f, offset, start, want, aligned);
      }
    } else if !InFile(f, offset) {
      NoOvershoot(f, offset, start, want, aligned);
    }
  }

  // A piece that does not stay in the file is the missing last block.
  lemma LastPiece(f: Image, offset: nat, start: nat, want: nat, aligned: nat -> bool)
    requires f.bs > 0 && InFile(f, offset) && want > 0
    requires offset + PieceSize(f, offset, want, aligned(start)) > f.size
    ensures Overshoots(f, offset, start, want, aligned) && PieceSize(f, offset, want, aligned(start)) == f.bs
    ensures offset == BlockStart(f.bs, f.size - 1)
  {
    WithinBlock(f.bs, offset, f.size - 1 - offset);
  }

  // The whole range is delivered exactly when its last byte is in the file, or when the read overshoots
  // and ends with the last block.
  lemma {:induction false} AllExactly(f: Image, offset: nat, start: nat, want: nat, aligned: nat -> bool)
    requires f.bs > 0 && offset <= f.size
    ensures Amount(f, offset, start, want, aligned) == want
      <==> want == 0 || InFile(f, offset + want - 1)
           || (Overshoots(f, offset, start, want, aligned) && offset + want == BlockStart(f.bs, f.size - 1) + f.bs)
    decreases want
  {
    if want > 0 && InFile(f, offset) {
      var n := PieceSize(f, offset, want, aligned(start));
      if offset + n <= f.size {
        var offset', start', want' := offset + n, start + n, want - n;
        OvershootLater(f, offset, start, want, aligned);
        AllExactly(f, offset', start', want', aligned);
        LastIn(f, offset, n);
        assert offset' + want' == offset + want;
      } else {
        LastPiece(f, offset, start, want, aligned);
      }
    } else if want > 0 {
      NothingHere(f, offset, start, want, aligned);
    }
  }

  lemma NothingHere(f: Image, offset: nat, start: nat, want: nat, aligned: nat -> bool)
    requires f.bs > 0 && offset <= f.size && want > 0 && !InFile(f, offset)
    ensures Amount(f, offset, start, want, aligned) == 0
    ensures !InFile(f, offset + want - 1) && !Overshoots(f, offset, start, want, aligned)
  {
    NoOvershoot(f, offset, start, want, aligned);
    BlocksInOrder(f.bs, offset, offset + want - 1);
  }

  // The last byte of a piece is in the block of its first.
  lemma LastIn(f: Image, offset: nat, n: nat)
    requires f.bs > 0 && InFile(f, offset) && 0 < n <= f.bs - Blkoff(f.bs, offset) && offset + n <= f.size
    ensures InFile(f, offset + n - 1)
  {
    WithinBlock(f.bs, offset, n - 1);
  }

  // The block of the first piece that goes through the internal buffer.
  function FirstBuffered(f: Image, offset: nat, start: nat, want: nat, aligned: nat -> bool): Option<nat>
    requires f.bs > 0
    decreases want
  {
    if want == 0 || !InFile(f, offset) then None
    else if !IsDirect(f.bs, offset, want, aligned(start)) then Some(Lblkno(f.bs, offset))
    else
      var n := PieceSize(f, offset, want, aligned(start));
      FirstBuffered(f, offset + n, start + n, want - n, aligned)
  }

  // ---------------------------------------------------------------- the caller's memory

  // Memory from `start` on holds the n bytes of the file from `offset` on.
  ghost predicate Filled(f: Image, s: Bytes, start: nat, n: nat, offset: nat)
    requires f.bs > 0
  {
    start + n <= |s| && forall j :: start <= j < start + n ==> IsByte(f, offset + (j - start), s[j])
  }

  // Memory is as it was but for n bytes from `start` on.
  ghost predicate Untouched(was: Bytes, now: Bytes, start: nat, n: nat) {
    |now| == |was| && forall k :: 0 <= k < |was| && (k < start || k >= start + n) ==> now[k] == was[k]
  }

  // The state of a read of `want` bytes after `done` of them.
  ghost predicate Received(f: Image, was: Bytes, now: Bytes, start: nat, done: nat, want: nat, offset: nat)
    requires f.bs > 0
  {
    done <= want && Filled(f, now, start, done, offset) && Untouched(was, now, start, want)
  }

  lemma ReceivedMore(
      f: Image, was: Bytes, mid: Bytes, now: Bytes, start: nat, done: nat, n: nat, want: nat, offset: nat)
    requires f.bs > 0 && done + n <= want && Received(f, was, mid, start, done, want, offset)
    requires Untouched(mid, now, start + done, want - done) && Filled(f, now, start + done, n, offset + done)
    ensures Received(f, was, now, start, done + n, want, offset)
  {
    forall j | start <= j < start + done + n ensures IsByte(f, offset + (j - start), now[j]) {
      if j >= start + done {
        assert offset + (j - start) == offset + done + (j - (start + done));
      } else {
        assert IsByte(f, offset + (j - start), mid[j]);
      }
    }
  }

  // What has been filled in is read off the disk blocks.
  lemma FilledIs(f: Image, s: Bytes, start: nat, n: nat, offset: nat)
    requires IsImage(f) && Filled(f, s, start, n, offset)
    ensures forall j :: start <= j < start + n && offset + (j - start) < f.size ==>
      OnDisk(f.data, f.bs, f.blocks, offset + (j - start), s[j])
  {
    forall j | start <= j < start + n && offset + (j - start) < f.size
      ensures OnDisk(f.data, f.bs, f.blocks, offset + (j - start), s[j])
    {
      ByteIsOnDisk(f, offset + (j - start), s[j]);
    }
  }

  lemma ContentFills(f: Image, s: Bytes, start: nat, n: nat, offset: nat)
    requires f.bs > 0 && start + n <= |s| && IsContent(f, s[start..start + n], offset)
    ensures Filled(f, s, start, n, offset)
  {
    forall j | start <= j < start + n ensures IsByte(f, offset + (j - start), s[j]) {
      assert s[j] == s[start..start + n][j - start];
    }
  }

  lemma ContentPrefix(f: Image, b: Bytes, offset: nat, n: nat)
    requires f.bs > 0 && IsContent(f, b, offset) && n <= |b|
    ensures IsContent(f, b[..n], offset)
  {
    forall k | 0 <= k < n ensures IsByte(f, offset + k, b[..n][k]) {
      assert IsByte(f, offset + k, b[k]);
    }
  }

  // ---------------------------------------------------------------- the reader

  // What buf_read_file gives back: bytes in the internal buffer, or how many it put into the caller's
  // memory.  Fault is a buffer that is taken for kept but is not there.
  datatype Piece = Kept(bytes: Bytes) | Direct(n: nat) | Absent | IndexFailed | DataFailed | Fault

  datatype Status = Done | PastEnd | Failed | Faulted

  // One call's surroundings: the reads of index blocks, what other threads keep meanwhile, and whether
  // the read of the data block succeeds.
  datatype Env = Env(works: nat -> bool, others: nat -> Cache, data: bool)

  ghost predicate EnvOk(e: Env, disk: IndexBlocks) {
    forall l :: CacheOk(e.others(l), disk)
  }

  ghost predicate NoFailure(e: Env) {
    e.data && forall l :: e.works(l)
  }

  class Reader {
    const file: File
    const data: DataBlocks
    const bs: nat
    var size: nat
    var buf: Option<Bytes>
    var bufBlkno: int

    ghost predicate Valid()
      reads this, file
    {
      file.Valid() && IsData(data, bs)
    }

    ghost function Shown(): Image
      requires file.Valid()
      reads this`size, file
    {
      Image(data, bs, file.Blocks(), size)
    }

    constructor (file: File, data: DataBlocks, bs: nat, size: nat)
      requires file.Valid() && IsData(data, bs)
      ensures Valid() && BufOk() && this.file == file && Shown() == Image(data, bs, file.Blocks(), size)
    {
      this.file, this.data, this.bs, this.size := file, data, bs, size;
      buf, bufBlkno := None, -1;
    }

    // The internal buffer holds what its block number says.
    ghost predicate BufOk()
      requires Valid()
      reads this, file
    {
      bufBlkno == -1
      || (0 <= bufBlkno < |file.Blocks()| && buf == Some(BlockBytes(data, bs, file.Blocks()[bufBlkno])))
    }

    // What a failed read of a data block leaves: a block number without a buffer.
    ghost predicate Stale()
      requires Valid()
      reads this, file
    {
      buf.None? && 0 <= bufBlkno < |file.Blocks()|
    }

    // No device read brings this block: an index block on the way to it cannot be read, or it exists and
    // cannot itself be read.
    ghost predicate CannotRead(fileBlock: nat, e: Env)
      requires Valid() && EnvOk(e, file.disk)
      reads this, file
    {
      || Misses(file.disk, file.n, file.inode, file.kept, fileBlock, e.works, e.others)
      || (fileBlock < |file.Blocks()| && file.Blocks()[fileBlock] != 0 && !e.data)
    }

    // Bring a block into the internal buffer.  The buffer is given up before the device is read, and
    // its number is changed after.
    method Fill(fileBlock: nat, e: Env) returns (r: Piece)
      requires Valid() && EnvOk(e, file.disk) && fileBlock != bufBlkno
      modifies this`buf, this`bufBlkno, file`kept
      ensures Valid() && file.Blocks() == old(file.Blocks()) && !r.Direct? && !r.Fault?
      ensures r.Absent? <==> fileBlock >= |file.Blocks()|
      ensures r.Kept? ==> buf == Some(r.bytes) && bufBlkno == fileBlock
      ensures r.Kept? ==> r.bytes == BlockBytes(data, bs, file.Blocks()[fileBlock])
      ensures r.Absent? || r.IndexFailed? ==> buf == old(buf) && bufBlkno == old(bufBlkno)
      ensures r.IndexFailed? ==> exists l :: 0 <= l < NIADDR && !e.works(l)
      ensures r.IndexFailed? || r.DataFailed? <==> old(CannotRead(fileBlock, e))
      ensures r.DataFailed? <==>
        fileBlock < |file.Blocks()| && !r.IndexFailed? && file.Blocks()[fileBlock] != 0 && !e.data
      ensures r.DataFailed? ==> buf == None && bufBlkno == old(bufBlkno)
    {
      var m := file.BlockMap(fileBlock, e.works, e.others);
      match m
      case NotInFile => return Absent;
      case ReadError => return IndexFailed;
      case Found(b) =>
        buf := None;
        if b != 0 && !e.data {
          return DataFailed;
        }
        buf := Some(BlockBytes(data, bs, b));
        bufBlkno := fileBlock;
        return Kept(buf.value);
    }

    // The block in the internal buffer, which is filled unless its number says it is there already.
    method Load(fileBlock: nat, e: Env) returns (r: Piece)
      requires Valid() && EnvOk(e, file.disk) && (BufOk() || Stale())
      modifies this`buf, this`bufBlkno, file`kept
      ensures Valid() && file.Blocks() == old(file.Blocks()) && (BufOk() || Stale()) && !r.Direct?
      ensures r.Fault? <==> old(Stale()) && old(bufBlkno) == fileBlock
      ensures r.Absent? <==> fileBlock >= |file.Blocks()|
      ensures r.Kept? ==> BufOk() && r.bytes == BlockBytes(data, bs, file.Blocks()[fileBlock])
      ensures r.IndexFailed? || r.DataFailed? <==> old(bufBlkno) != fileBlock && old(CannotRead(fileBlock, e))
    {
      if fileBlock != bufBlkno {
        r := Fill(fileBlock, e);
      } else if buf.None? {
        r := Fault;
      } else {
        r := Kept(buf.value);
      }
    }

    // The part of buf_read_file that uses the internal buffer.
    method FromBuffer(offset: nat, e: Env) returns (r: Piece)
      requires Valid() && EnvOk(e, file.disk) && offset < size && (BufOk() || Stale())
      modifies this`buf, this`bufBlkno, file`kept
      ensures Valid() && Shown() == old(Shown()) && (BufOk() || Stale()) && !r.Direct?
      ensures r.Fault? <==> old(Stale()) && old(bufBlkno) == Lblkno(bs, offset)
      ensures r.Kept? ==> BufOk() && InFile(Shown(), offset) && IsContent(Shown(), r.bytes, offset)
      ensures r.Kept? ==> |r.bytes| == Min(bs - Blkoff(bs, offset), size - offset)
      ensures r.Absent? <==> !InFile(Shown(), offset)
      ensures r.IndexFailed? || r.DataFailed? <==>
        old(bufBlkno) != Lblkno(bs, offset) && old(CannotRead(Lblkno(bs, offset), e))
    {
      r := Load(Lblkno(bs, offset), e);
      if r.Kept? {
        RestOfBlock(Shown(), offset, r.bytes);
        r := Kept(CutOff(r.bytes, Blkoff(bs, offset), size - offset));
      }
    }

    // The part of buf_read_file that reads into the caller's memory.  A missing block is not cut off.
    method ReadDirect(offset: nat, out: array<bv8>, start: nat, want: nat, e: Env) returns (r: Piece)
      requires Valid() && EnvOk(e, file.disk) && start + want <= out.Length && offset < size
      requires IsDirect(bs, offset, want, true)
      modifies file`kept, out
      ensures Valid() && Shown() == old(Shown()) && !r.Kept? && !r.Fault?
      ensures r.Absent? <==> !InFile(Shown(), offset)
      ensures r.IndexFailed? || r.DataFailed? <==> old(CannotRead(Lblkno(bs, offset), e))
      ensures r.Direct? ==> r.n == PieceSize(Shown(), offset, want, true) <= bs
      ensures r.Direct? ==> IsContent(Shown(), out[start..start + r.n], offset)
      ensures Untouched(old(out[..]), out[..], start, want)
    {
      var m := file.BlockMap(Lblkno(bs, offset), e.works, e.others);
      match m
      case NotInFile => return Absent;
      case ReadError => return IndexFailed;
      case Found(b) =>
        if b != 0 && !e.data {
          return DataFailed;
        }
        var n := PutBlock(offset, out, start, want, b);
        return Direct(n);
    }

    // Zeros for a missing block, and otherwise what the device writes.
    method PutBlock(offset: nat, out: array<bv8>, start: nat, want: nat, b: nat) returns (n: nat)
      requires Valid() && start + want <= out.Length && IsDirect(bs, offset, want, true)
      requires InFile(Shown(), offset) && b == file.Blocks()[Lblkno(bs, offset)]
      modifies out
      ensures Valid() && Shown() == old(Shown())
      ensures n == PieceSize(Shown(), offset, want, true) <= bs
      ensures IsContent(Shown(), out[start..start + n], offset) && Untouched(old(out[..]), out[..], start, want)
    {
      var block := BlockBytes(data, bs, b);
      ghost var f := Shown();
      RestOfBlock(f, offset, block);
      if b == 0 {
        n := bs;
        HoleIsContent(f, offset, block[..n]);
      } else {
        n := Min(bs, size - offset);
        assert block[..n] == CutOff(block, 0, size - offset);
      }
      CopyIn(out, start, block, n);
    }

    // The piece at this offset needs a block that is neither in the internal buffer nor to be had.
    ghost predicate Fails(offset: nat, want: nat, aligned: bool, e: Env)
      requires Valid() && EnvOk(e, file.disk)
      reads this, file
    {
      && offset < size && (IsDirect(bs, offset, want, aligned) || bufBlkno != Lblkno(bs, offset))
      && CannotRead(Lblkno(bs, offset), e)
    }

    lemma FailsForAReason(offset: nat, want: nat, aligned: bool, e: Env)
      requires Valid() && EnvOk(e, file.disk)
      ensures Fails(offset, want, aligned, e) ==> !NoFailure(e)
    {
      if NoFailure(e) {
        MissesNothing(file.disk, file.n, file.inode, file.kept, Lblkno(bs, offset), e.works, e.others);
      }
    }

    // buf_read_file, for the caller's memory at out[start..start + want]; `aligned` says whether that
    // memory can be read into directly.
    method BufRead(offset: nat, out: array<bv8>, start: nat, want: nat, aligned: bool, e: Env) returns (r: Piece)
      requires Valid() && EnvOk(e, file.disk) && start + want <= out.Length && (BufOk() || Stale())
      modifies this`buf, this`bufBlkno, file`kept, out
      ensures Valid() && Shown() == old(Shown()) && (BufOk() || Stale())
      ensures IsDirect(bs, offset, want, aligned) ==> buf == old(buf) && bufBlkno == old(bufBlkno)
      ensures r.Fault? <==>
        old(Stale()) && offset < size && !IsDirect(bs, offset, want, aligned) && old(bufBlkno) == Lblkno(bs, offset)
      ensures r.Absent? <==> !InFile(Shown(), offset)
      ensures r.IndexFailed? || r.DataFailed? <==> old(Fails(offset, want, aligned, e))
      ensures r.Kept? ==> !IsDirect(bs, offset, want, aligned) && BufOk() && out[..] == old(out[..])
      ensures r.Kept? ==>
        IsContent(Shown(), r.bytes, offset) && |r.bytes| == Min(bs - Blkoff(bs, offset), size - offset)
      ensures r.Direct? ==> IsDirect(bs, offset, want, aligned) && r.n == PieceSize(Shown(), offset, want, aligned)
      ensures r.Direct? ==> r.n <= want && IsContent(Shown(), out[start..start + r.n], offset)
      ensures Untouched(old(out[..]), out[..], start, want)
    {
      if offset >= size {
        return Absent;
      }
      if Blkoff(bs, offset) != 0 || want < bs || !aligned {
        r := FromBuffer(offset, e);
      } else {
        r := ReadDirect(offset, out, start, want, e);
      }
    }

    // The device writes all of b; the first n bytes of it count.
    static method CopyIn(out: array<bv8>, start: nat, b: Bytes, ghost n: nat)
      requires start + |b| <= out.Length && n <= |b|
      modifies out
      ensures out[start..start + n] == b[..n]
      ensures forall k :: 0 <= k < out.Length && (k < start || k >= start + |b|) ==> out[k] == old(out[k])
    {
      forall k | 0 <= k < |b| {
        out[start + k] := b[k];
      }
      assert out[start..start + |b|] == b;
      assert out[start..start + n] == b[..n];
    }

    // One piece, copied to the caller's memory if it is in the internal buffer.
    method ReadPiece(offset: nat, out: array<bv8>, start: nat, want: nat, aligned: bool, ghost no: nat, e: Env)
      returns (r: Status, n: nat)
      requires Valid() && EnvOk(e, file.disk) && want > 0 && start + want <= out.Length && (BufOk() || StaleAt(no))
      modifies this`buf, this`bufBlkno, file`kept, out
      ensures Valid() && Shown() == old(Shown()) && (BufOk() || Stale()) && (r.Done? ==> BufOk() || StaleAt(no))
      ensures PieceIs(Shown(), offset, want, aligned, r, n, old(StaleAt(no)), StaleAt(no), no)
      ensures r.Failed? <==> old(Fails(offset, want, aligned, e))
      ensures r.Failed? ==> !NoFailure(e)
      ensures Filled(Shown(), out[..], start, n, offset) && Untouched(old(out[..]), out[..], start, want)
    {
      FailsForAReason(offset, want, aligned, e);
      var piece := BufRead(offset, out, start, want, aligned, e);
      n := 0;
      match piece
      case Absent => r := PastEnd;
      case IndexFailed => r := Failed;
      case DataFailed => r := Failed;
      case Fault => r := Faulted;
      case Direct(m) =>
        ContentFills(Shown(), out[..], start, m, offset);
        r, n := Done, m;
      case Kept(bytes) =>
        n := Min(|bytes|, want);
        ContentPrefix(Shown(), bytes, offset, n);
        CopyIn(out, start, bytes[..n], n);
        assert bytes[..n][..n] == bytes[..n];
        ContentFills(Shown(), out[..], start, n, offset);
        r := Done;
    }

    // ext2fs_read_file: piece after piece, until everything is read or something goes wrong.
    method ReadFile(
        offset: nat, out: array<bv8>, start: nat, want: nat, aligned: nat -> bool, env: nat -> Env)
      returns (r: Status, done: nat)
      requires Valid() && (BufOk() || Stale()) && start + want <= out.Length && forall i :: EnvOk(env(i), file.disk)
      modifies this`buf, this`bufBlkno, file`kept, out
      ensures Valid() && Shown() == old(Shown()) && (BufOk() || Stale())
      ensures Received(Shown(), old(out[..]), out[..], start, done, want, offset) && (r.Done? <==> done == want)
      ensures r.Done? || r.PastEnd? ==> done == Amount(Shown(), offset, start, want, aligned)
      ensures r.Failed? ==> exists i: nat :: i <= done && !NoFailure(env(i))
      ensures r.Faulted? <==>
        !r.Failed? && old(Stale()) && FirstBuffered(Shown(), offset, start, want, aligned) == Some(old(bufBlkno))
      ensures forall j :: start <= j < start + done && offset + (j - start) < size ==>
        OnDisk(data, bs, file.Blocks(), offset + (j - start), out[j])
    {
      r, done := Done, 0;
      var i := 0;
      ghost var f, was, stale, no := Shown(), out[..], Stale(), if Stale() then bufBlkno else 0;
      while done < want && r.Done?
        invariant Valid() && Shown() == f && (BufOk() || Stale())
        invariant InState(f, was, out[..], offset, start, want, aligned, done, r, stale, StaleAt(no), no)
        invariant i <= done + (if r.Done? then 0 else 1)
        invariant r.Failed? ==> exists i: nat :: i <= done && !NoFailure(env(i))
        invariant r.Done? ==> BufOk() || StaleAt(no)
        decreases want - done, r.Done?
      {
        r, done := ReadOn(f, was, offset, out, start, want, aligned, done, stale, no, env(i));
        i := i + 1;
      }
      FilledIs(f, out[..], start, done, offset);
    }

    ghost predicate StaleAt(no: nat)
      requires Valid()
      reads this, file
    {
      Stale() && bufBlkno == no
    }

    // One more piece.
    method ReadOn(
        ghost f: Image, ghost was: Bytes, offset: nat, out: array<bv8>, start: nat, want: nat, aligned: nat -> bool,
        before: nat, ghost stale: bool, ghost no: nat, e: Env)
      returns (r: Status, done: nat)
      requires Valid() && Shown() == f && EnvOk(e, file.disk) && before < want && start + want <= out.Length
      requires BufOk() || StaleAt(no)
      requires InState(f, was, out[..], offset, start, want, aligned, before, Done, stale, StaleAt(no), no)
      modifies this`buf, this`bufBlkno, file`kept, out
      ensures Valid() && Shown() == f && (BufOk() || Stale()) && before <= done && (r.Done? ==> before < done)
      ensures InState(f, was, out[..], offset, start, want, aligned, done, r, stale, StaleAt(no), no)
      ensures r.Failed? ==> !NoFailure(e)
      ensures r.Done? ==> BufOk() || StaleAt(no)
    {
      ghost var memory, still := out[..], StaleAt(no);
      var at, to, left, n := offset + before, start + before, want - before, 0;
      r, n := ReadPiece(at, out, to, left, aligned(to), no, e);
      ghost var now, after := out[..], StaleAt(no);
      done := before + n;
      StateMore(
        f, was, memory, now, offset, start, want, aligned, before, at, to, left, r, n, done, stale, still, after, no);
    }
  }

  // A read after `done` bytes, with status r.
  ghost predicate InState(
      f: Image, was: Bytes, now: Bytes, offset: nat, start: nat, want: nat, aligned: nat -> bool, done: nat, r: Status,
      stale: bool, still: bool, no: nat)
    requires f.bs > 0
  {
    && Received(f, was, now, start, done, want, offset) && (!r.Done? ==> done < want)
    && Ahead(f, offset, start, want, aligned, done, r)
    && FaultAhead(f, offset, start, want, aligned, done, r, stale, still, no)
  }

  // How much is delivered in the end, seen after `done` bytes with status r.
  predicate Ahead(f: Image, offset: nat, start: nat, want: nat, aligned: nat -> bool, done: nat, r: Status)
    requires f.bs > 0 && done <= want
  {
    && (r.Done? ==> Amount(f, offset, start, want, aligned)
                      == done + Amount(f, offset + done, start + done, want - done, aligned))
    && (r.PastEnd? ==> Amount(f, offset, start, want, aligned) == done)
  }

  // Whether the read meets the buffer that is not there, seen after `done` bytes.
  predicate FaultAhead(
      f: Image, offset: nat, start: nat, want: nat, aligned: nat -> bool, done: nat, r: Status, was: bool, still: bool,
      no: nat)
    requires f.bs > 0 && done <= want
  {
    var fault := was && FirstBuffered(f, offset, start, want, aligned) == Some(no);
    && (r.Faulted? ==> fault) && (r.PastEnd? ==> !fault)
    && (r.Done? ==>
          (fault <==> still && FirstBuffered(f, offset + done, start + done, want - done, aligned) == Some(no)))
  }

  // What one piece comes to.  `before` and `after` say whether the buffer of block number `no` is taken
  // for kept without being there.
  predicate PieceIs(
      f: Image, offset: nat, want: nat, aligned: bool, r: Status, n: nat, before: bool, after: bool, no: nat)
    requires f.bs > 0
  {
    var direct := IsDirect(f.bs, offset, want, aligned);
    && (r.PastEnd? <==> !InFile(f, offset))
    && (r.Faulted? <==> before && InFile(f, offset) && !direct && no == Lblkno(f.bs, offset))
    && (direct ==> after == before) && (r.Done? && !direct ==> !after)
    && n == if r.Done? && InFile(f, offset) then PieceSize(f, offset, want, aligned) else 0
  }

  lemma AheadMore(
      f: Image, offset: nat, start: nat, want: nat, aligned: nat -> bool, done: nat, r: Status, n: nat)
    requires f.bs > 0 && done < want && Ahead(f, offset, start, want, aligned, done, Done)
    requires r.PastEnd? <==> !InFile(f, offset + done)
    requires n == if r.Done? then PieceSize(f, offset + done, want - done, aligned(start + done)) else 0
    ensures Ahead(f, offset, start, want, aligned, done + n, r)
  {
  }

  lemma FaultMore(
      f: Image, offset: nat, start: nat, want: nat, aligned: nat -> bool, done: nat, r: Status, n: nat, was: bool,
      before: bool, after: bool, no: nat)
    requires f.bs > 0 && done < want && FaultAhead(f, offset, start, want, aligned, done, Done, was, before, no)
    requires PieceIs(f, offset + done, want - done, aligned(start + done), r, n, before, after, no)
    ensures FaultAhead(f, offset, start, want, aligned, done + n, r, was, after, no)
  {
  }

  lemma StateMore(
      f: Image, was: Bytes, mid: Bytes, now: Bytes, offset: nat, start: nat, want: nat, aligned: nat -> bool, done: nat,
      at: nat, to: nat, left: nat, r: Status, n: nat, next: nat, stale: bool, before: bool, after: bool, no: nat)
    requires f.bs > 0 && done < want && next == done + n
    requires at == offset + done && to == start + done && left == want - done
    requires InState(f, was, mid, offset, start, want, aligned, done, Done, stale, before, no)
    requires Untouched(mid, now, to, left) && Filled(f, now, to, n, at)
    requires PieceIs(f, at, left, aligned(to), r, n, before, after, no)
    ensures InState(f, was, now, offset, start, want, aligned, next, r, stale, after, no) && done <= next
    ensures r.Done? ==> done < next
  {
    ReceivedMore(f, was, mid, now, start, done, n, want, offset);
    AheadMore(f, offset, start, want, aligned, done, r, n);
    FaultMore(f, offset, start, want, aligned, done, r, n, stale, before, after, no);
  }
}
