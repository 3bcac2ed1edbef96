// The loops around device_read and device_write.  The device may move less than it was asked for, and
// the loops then ask again; what comes of that is told in bytes.

module Transfers {
  import opened Arithmetic
  import opened Device
  import opened Segment
  import opened Wrappers

  function Least(a: nat, b: nat): nat {
    if a <= b then a else b
  }

  function DiskRange(disk: Disk, device: nat, at: nat, n: nat): (b: Bytes) {
    seq(n, j requires j >= 0 => disk(device, at + j))
  }

  // ---------------------------------------------------------------- reading

  // The record boundary at or below c, for records of 2^k bytes.
  function ToRecord(c: nat, k: nat): nat {
    ShiftRight(c, k) * Pow2(k)
  }

  // What arrives of `want` bytes from `at` on, when the device gives counts[0] bytes, then counts[1], and
  // so on, never more than it is asked for, and ends with nothing or with an error.  After a piece the
  // loop goes on at the next record boundary below it.
  function DeviceBytes(disk: Disk, device: nat, at: nat, k: nat, counts: seq<nat>, want: nat): (b: Bytes)
    ensures |b| == Arrived(counts, want) <= want
    decreases |counts|
  {
    if counts == [] || Least(counts[0], want) == 0 then []
    else
      var c := Least(counts[0], want);
      DiskRange(disk, device, at, c)
      + DeviceBytes(disk, device, at + ToRecord(c, k), k, counts[1..], want - c)
  }

  function Arrived(counts: seq<nat>, want: nat): (n: nat)
    ensures n <= want
    decreases |counts|
  {
    if counts == [] || Least(counts[0], want) == 0 then 0
    else Least(counts[0], want) + Arrived(counts[1..], want - Least(counts[0], want))
  }

  // Every piece that is followed by another is a number of whole records.
  predicate WholeRecords(k: nat, counts: seq<nat>, want: nat)
    decreases |counts|
  {
    counts == [] || Least(counts[0], want) == 0 ||
    var c := Least(counts[0], want);
    && (ToRecord(c, k) == c || Arrived(counts[1..], want - c) == 0)
    && WholeRecords(k, counts[1..], want - c)
  }

  // Then what arrives is what lies there.
  lemma {:induction false} RecordsInOrder(
      disk: Disk, device: nat, at: nat, k: nat, counts: seq<nat>, want: nat)
    requires WholeRecords(k, counts, want)
    ensures DeviceBytes(disk, device, at, k, counts, want)
      == DiskRange(disk, device, at, Arrived(counts, want))
    decreases |counts|
  {
    if counts != [] && Least(counts[0], want) != 0 {
      var c := Least(counts[0], want);
      RecordsInOrder(disk, device, at + ToRecord(c, k), k, counts[1..], want - c);
      if ToRecord(c, k) == c {
        Joined(disk, device, at, c, Arrived(counts[1..], want - c));
      }
    }
  }

  // And only then, whatever lies there: of any other answers some byte comes from another place.
  lemma {:induction false} OutOfOrder(device: nat, at: nat, k: nat, counts: seq<nat>, want: nat)
    returns (j: nat, a: nat)
    requires !WholeRecords(k, counts, want)
    ensures j < Arrived(counts, want) && a != at + j
    ensures forall disk: Disk :: DeviceBytes(disk, device, at, k, counts, want)[j] == disk(device, a)
    decreases |counts|
  {
    var c := Least(counts[0], want);
    var next := at + ToRecord(c, k);
    if ToRecord(c, k) == c || Arrived(counts[1..], want - c) == 0 {
      j, a := OutOfOrder(device, next, k, counts[1..], want - c);
      j := c + j;
    } else {
      j, a := c, next;
      FirstByte(device, next, k, counts[1..], want - c);
    }
    forall disk: Disk ensures DeviceBytes(disk, device, at, k, counts, want)[j] == disk(device, a) {
      assert DeviceBytes(disk, device, next, k, counts[1..], want - c)[j - c] == disk(device, a);
    }
  }

  lemma FirstByte(device: nat, at: nat, k: nat, counts: seq<nat>, want: nat)
    requires Arrived(counts, want) > 0
    ensures forall disk: Disk :: DeviceBytes(disk, device, at, k, counts, want)[0] == disk(device, at)
  {
  }

  // What arrives of a device read is what lies there, on any disk, exactly if the pieces are whole records.
  lemma RecordsExactly(device: nat, at: nat, k: nat, counts: seq<nat>, want: nat)
    ensures WholeRecords(k, counts, want) <==> forall disk: Disk ::
      DeviceBytes(disk, device, at, k, counts, want) == DiskRange(disk, device, at, Arrived(counts, want))
  {
    if WholeRecords(k, counts, want) {
      forall disk: Disk {
        RecordsInOrder(disk, device, at, k, counts, want);
      }
    } else {
      var j, a := OutOfOrder(device, at, k, counts, want);
      var disk: Disk := (d: nat, x: nat) => if x == a then 1 else 0;
      assert DeviceBytes(disk, device, at, k, counts, want)[j] == 1;
      assert DiskRange(disk, device, at, Arrived(counts, want))[j] == 0;
    }
  }

  lemma Joined(disk: Disk, device: nat, at: nat, m: nat, n: nat)
    ensures DiskRange(disk, device, at, m) + DiskRange(disk, device, at + m, n) == DiskRange(disk, device, at, m + n)
  {
  }

  // A piece that ends inside a record is followed by bytes from the beginning of that record again.
  lemma RecordAgain(disk: Disk, device: nat, at: nat, k: nat, c: nat, d: nat, want: nat)
    requires c > 0 && d > 0 && c + d <= want
    ensures DeviceBytes(disk, device, at, k, [c, d], want)
      == DiskRange(disk, device, at, c) + DiskRange(disk, device, at + ToRecord(c, k), d)
    ensures ToRecord(c, k) <= c
  {
    ShiftRoundsDown(c, k);
    var next := at + ToRecord(c, k);
    assert [c, d][1..] == [d] && [d][1..] == [];
    assert DeviceBytes(disk, device, next, k, [d], want - c) == DiskRange(disk, device, next, d) + [];
  }

  // ps_read_device.  A complete answer to the first request is taken as it is.
  method ReadDevice(disk: Disk, g: Geometry, shift: nat, page: nat, size: nat, counts: seq<nat>)
    returns (buffer: Bytes, residual: nat)
    requires g.recordShift <= shift
    ensures buffer == DeviceBytes(disk, g.device, AddressOfPage(g, shift, page), shift - g.recordShift, counts, size)
    ensures residual == size - |buffer|
  {
    buffer, residual := ReadOn(disk, g.device, AddressOfPage(g, shift, page), shift - g.recordShift, size, counts);
  }

  method ReadOn(disk: Disk, device: nat, at: nat, k: nat, size: nat, counts: seq<nat>)
    returns (buffer: Bytes, residual: nat)
    ensures buffer == DeviceBytes(disk, device, at, k, counts, size)
    ensures residual == size - |buffer|
  {
    var i: nat, next: nat := 0, at;
    buffer, residual := [], size;
    ghost var all := DeviceBytes(disk, device, at, k, counts, size);
    assert counts[0..] == counts && [] + all == all;
    while i < |counts| && residual > 0 && counts[i] > 0
      invariant i <= |counts| && |buffer| + residual == size
      invariant ToCome(all, buffer, disk, device, next, k, counts, i, residual)
    {
      var c := Least(counts[i], residual);
      OnePiece(all, buffer, disk, device, next, k, counts, i, residual);
      buffer := buffer + DiskRange(disk, device, next, c);
      next, residual, i := next + ToRecord(c, k), residual - c, i + 1;
    }
    NothingToCome(all, buffer, disk, device, next, k, counts, i, residual);
  }

  // What has arrived, and what is still to come.
  ghost predicate ToCome(
      all: Bytes, buffer: Bytes, disk: Disk, device: nat, at: nat, k: nat, counts: seq<nat>, i: nat, want: nat)
    requires i <= |counts|
  {
    all == buffer + DeviceBytes(disk, device, at, k, counts[i..], want)
  }

  lemma OnePiece(
      all: Bytes, buffer: Bytes, disk: Disk, device: nat, at: nat, k: nat, counts: seq<nat>, i: nat, want: nat)
    requires i < |counts| && want > 0 && counts[i] > 0 && ToCome(all, buffer, disk, device, at, k, counts, i, want)
    ensures var c := Least(counts[i], want); var more := buffer + DiskRange(disk, device, at, c);
      ToCome(all, more, disk, device, at + ToRecord(c, k), k, counts, i + 1, want - c)
  {
    assert counts[i..][1..] == counts[i + 1..];
  }

  lemma NothingToCome(
      all: Bytes, buffer: Bytes, disk: Disk, device: nat, at: nat, k: nat, counts: seq<nat>, i: nat, want: nat)
    requires i <= |counts| && ToCome(all, buffer, disk, device, at, k, counts, i, want)
    requires !(i < |counts| && want > 0 && counts[i] > 0)
    ensures buffer == all
  {
    assert buffer + [] == buffer;
  }

  // ---------------------------------------------------------------- writing

  const WORD := 0x1_0000_0000

  // One answer of device_write: so many bytes are on the device, or an error.
  datatype Answer = Wrote(bytes: nat) | Broke

  datatype Finish = Success | Failure | Panicked | Going

  // The bytes that the answers from `from` on report, up to an error.
  function Reported(answers: seq<Answer>): (n: nat) {
    if answers == [] || answers[0].Broke? then 0 else answers[0].bytes + Reported(answers[1..])
  }

  lemma {:induction false} ReportedMore(answers: seq<Answer>, a: Answer)
    requires forall j :: 0 <= j < |answers| ==> answers[j].Wrote?
    ensures Reported(answers + [a]) == Reported(answers) + if a.Wrote? then a.bytes else 0
  {
    if answers == [] {
      assert answers + [a] == [a];
    } else {
      ReportedMore(answers[1..], a);
      assert (answers + [a])[1..] == answers[1..] + [a];
    }
  }

  // Whether the first k answers leave the loop running: no error, no part of a record, and the bytes
  // reported are not the size, as far as 32 bits tell.
  predicate Running(size: nat, record: nat, answers: seq<Answer>, k: nat)
    requires k <= |answers| && record > 0
  {
    && (forall j :: 0 <= j < k ==> answers[j].Wrote? && answers[j].bytes % record == 0)
    && forall j :: 0 < j <= k ==> Left(size, Reported(answers[..j])) != 0
  }

  // What is left to write, as the code counts it.
  function Left(size: nat, written: nat): (n: nat)
    ensures n < WORD
  {
    (size - written) % WORD
  }

  lemma LeftIs(size: nat, written: nat, bytes: nat)
    requires 0 < size < WORD
    ensures Left(size, 0) == size
    ensures (Left(size, written) - bytes) % WORD == Left(size, written + bytes)
    ensures Left(size, written) == 0 ==> written == size || written >= size + WORD
  {
  }

  // The synchronous part of ps_write_device.  Every attempt passes the whole size again, and the count
  // of what is left is an unsigned word, so a retry that moves more than what is left does not end it.
  method WriteDevice(size: nat, record: nat, answers: seq<Answer>) returns (finish: Finish, used: nat)
    requires 0 < size < WORD && record > 0
    ensures used <= |answers| && (finish.Going? ==> used == |answers|) && (!finish.Going? ==> used > 0)
    ensures Running(size, record, answers, if finish.Going? then used else used - 1)
    ensures finish.Failure? ==> answers[used - 1].Broke?
    ensures finish.Panicked? || finish.Success? ==> answers[used - 1].Wrote?
    ensures finish.Panicked? ==> answers[used - 1].bytes % record != 0
    ensures finish.Success? ==> Reported(answers[..used]) == size || Reported(answers[..used]) >= size + WORD
  {
    var left := size;
    used := 0;
    LeftIs(size, 0, 0);
    while used < |answers|
      invariant used <= |answers| && Running(size, record, answers, used) && 0 < left < WORD
      invariant Left(size, Reported(answers[..used])) == left
    {
      var a := answers[used];
      assert answers[..used + 1] == answers[..used] + [a];
      ReportedMore(answers[..used], a);
      LeftIs(size, Reported(answers[..used]), if a.Wrote? then a.bytes else 0);
      LeftIs(size, Reported(answers[..used + 1]), 0);
      used := used + 1;
      if a.Broke? {
        return Failure, used;
      }
      if a.bytes % record != 0 {
        return Panicked, used;
      }
      left := (left - a.bytes) % WORD;
      if left == 0 {
        return Success, used;
      }
    }
    finish := Going;
  }

  // Once the attempts have passed the end of the chunk the loop does not end with success, unless they
  // have moved another 2^32 bytes: they go on behind the chunk until the device breaks.
  lemma {:induction false} Overrun(size: nat, answers: seq<Answer>, j: nat, k: nat)
    requires 0 < size < WORD && j <= k <= |answers| && size < Reported(answers[..j])
    requires forall i :: 0 <= i < k ==> answers[i].Wrote?
    ensures Reported(answers[..k]) > size
    ensures Left(size, Reported(answers[..k])) == 0 ==> Reported(answers[..k]) >= size + WORD
  {
    LeftIs(size, Reported(answers[..k]), 0);
    ReportedGrows(answers, j, k);
  }

  lemma {:induction false} ReportedGrows(answers: seq<Answer>, j: nat, k: nat)
    requires j <= k <= |answers| && forall i :: 0 <= i < k ==> answers[i].Wrote?
    ensures Reported(answers[..j]) <= Reported(answers[..k])
    decreases k
  {
    if j < k {
      ReportedGrows(answers, j, k - 1);
      assert answers[..k] == answers[..k - 1] + [answers[k - 1]];
      ReportedMore(answers[..k - 1], answers[k - 1]);
    }
  }

  // ---------------------------------------------------------------- short reads

  // residual & ~vm_page_size, the number of zero bytes that are supplied as if they had been read.
  function Fill(residual: nat, page: nat): nat
    requires page > 0
  {
    if residual / page % 2 == 1 then (residual - page) else residual
  }

  // How many pages of a short read are answered with an error.
  function Withheld(residual: nat, page: nat): nat
    requires page > 0
  {
    residual / page % 2
  }

  // What is supplied of a short read is whole pages; and the mask is right when nothing or exactly one
  // page is missing, and in no other case: zeros are supplied for what was not read.
  lemma ShortReadExactly(n: nat, residual: nat, page: nat)
    requires page > 0 && residual < n * page
    ensures n * page - residual + Fill(residual, page) == (n - Withheld(residual, page)) * page
    ensures Withheld(residual, page) <= n && residual >= Withheld(residual, page) * page
    ensures Fill(residual, page) == 0 <==> residual == 0 || residual == page
  {
    var q := residual / page;
    Quotient(residual, page, n);
    if residual == page {
      DivMod(1, 0, page);
    }
    if q % 2 == 1 {
      Monotone(1, q, page);
      Distribute(n - 1, 1, page);
    }
  }

  // The page at position i of a buffer that is filled up with zeros.
  function PageOf(b: Bytes, i: nat, page: nat): Bytes {
    seq(page, j requires j >= 0 => if i + j < |b| then b[i + j] else 0)
  }

  // The pages that are supplied when b has arrived of n pages.
  function Supply(b: Bytes, n: nat, page: nat): (data: seq<Bytes>)
    requires page > 0 && n > 0 && |b| <= n * page
    ensures |data| <= n && forall k :: 0 <= k < |data| ==> |data[k]| == page
    ensures |data| < n <==> |b| == 0 || Withheld(n * page - |b|, page) == 1
  {
    if |b| == 0 then []
    else
      ShortReadExactly(n, n * page - |b|, page);
      seq(n - Withheld(n * page - |b|, page), k requires k >= 0 => PageOf(b, k * page, page))
  }

  // The device holds zeros on a page wherever a read of n bytes, which reaches the page after i of them,
  // did not bring it.
  ghost predicate ZerosBehind(page: Bytes, i: nat, n: nat) {
    forall j :: 0 <= j < |page| && i + j >= n ==> page[j] == 0
  }

  // A page is supplied as it lies on the device exactly then.
  lemma PageOfRange(disk: Disk, device: nat, at: nat, n: nat, i: nat, page: nat)
    ensures var was := DiskRange(disk, device, at + i, page);
      PageOf(DiskRange(disk, device, at, n), i, page) == was <==> ZerosBehind(was, i, n)
  {
    var b, was := PageOf(DiskRange(disk, device, at, n), i, page), DiskRange(disk, device, at + i, page);
    assert forall j :: 0 <= j < page ==> b[j] == if i + j < n then was[j] else 0;
    if b == was {
      forall j | 0 <= j < page && i + j >= n ensures was[j] == 0 {
        assert b[j] == was[j];
      }
    }
  }

  // What is supplied of n pages from `at` on.
  function SupplyOf(disk: Disk, device: nat, at: nat, k: nat, counts: seq<nat>, n: nat, page: nat): (data: seq<Bytes>)
    requires page > 0 && n > 0
  {
    Supply(DeviceBytes(disk, device, at, k, counts, n * page), n, page)
  }

  // Every page that is supplied is what lies there.
  ghost predicate AllRight(disk: Disk, device: nat, at: nat, k: nat, counts: seq<nat>, n: nat, page: nat)
    requires page > 0 && n > 0
  {
    var data := SupplyOf(disk, device, at, k, counts, n, page);
    forall i :: 0 <= i < |data| ==> data[i] == DiskRange(disk, device, at + i * page, page)
  }

  // The pieces are whole records, and they are complete, bring nothing, or leave out just one page.
  predicate GoodCounts(k: nat, counts: seq<nat>, n: nat, page: nat) {
    var want, arrived := n * page, Arrived(counts, n * page);
    WholeRecords(k, counts, want) && (arrived == want || arrived + page == want || arrived == 0)
  }

  // What a read supplies is right, whatever the device holds, exactly in that case.
  lemma RightExactly(device: nat, at: nat, k: nat, counts: seq<nat>, n: nat, page: nat)
    requires page > 0 && n > 0
    ensures GoodCounts(k, counts, n, page)
      <==> forall disk: Disk :: AllRight(disk, device, at, k, counts, n, page)
  {
    if GoodCounts(k, counts, n, page) {
      forall disk: Disk ensures AllRight(disk, device, at, k, counts, n, page) {
        GoodIsRight(disk, device, at, k, counts, n, page);
      }
    } else {
      var disk := BadDisk(device, at, k, counts, n, page);
    }
  }

  lemma GoodIsRight(disk: Disk, device: nat, at: nat, k: nat, counts: seq<nat>, n: nat, page: nat)
    requires page > 0 && n > 0 && GoodCounts(k, counts, n, page)
    ensures AllRight(disk, device, at, k, counts, n, page)
  {
    var want, arrived := n * page, Arrived(counts, n * page);
    var data := SupplyOf(disk, device, at, k, counts, n, page);
    RecordsInOrder(disk, device, at, k, counts, want);
    forall i | 0 <= i < |data| ensures data[i] == DiskRange(disk, device, at + i * page, page) {
      ShortReadExactly(n, want - arrived, page);
      Distribute(i, 1, page);
      Monotone(i + 1, |data|, page);
      PageOfRange(disk, device, at, arrived, i * page, page);
    }
  }

  // A disk that shows it otherwise: one byte of what is supplied comes from another place, or is filled up.
  lemma BadDisk(device: nat, at: nat, k: nat, counts: seq<nat>, n: nat, page: nat) returns (disk: Disk)
    requires page > 0 && n > 0 && !GoodCounts(k, counts, n, page)
    ensures !AllRight(disk, device, at, k, counts, n, page)
  {
    var want, arrived := n * page, Arrived(counts, n * page);
    if !WholeRecords(k, counts, want) {
      var j, a := OutOfOrder(device, at, k, counts, want);
      disk := (d: nat, x: nat) => if x == a then 1 else 0;
      Quotient(j, page, 0);
      if AllRight(disk, device, at, k, counts, n, page) {
        ByteSupplied(disk, device, at, k, counts, n, page, j, j / page, j % page);
      }
    } else {
      disk := (d: nat, x: nat) => 1;
      ShortReadExactly(n, want - arrived, page);
      Quotient(arrived, page, 0);
      if AllRight(disk, device, at, k, counts, n, page) {
        ByteSupplied(disk, device, at, k, counts, n, page, arrived, arrived / page, arrived % page);
      }
    }
  }

  // Byte j of what is supplied, which is byte r of page q.
  lemma ByteSupplied(
      disk: Disk, device: nat, at: nat, k: nat, counts: seq<nat>, n: nat, page: nat, j: nat, q: nat, r: nat)
    requires page > 0 && n > 0 && j == q * page + r && r < page
    requires var arrived := Arrived(counts, n * page); 0 < arrived && j < arrived + Fill(n * page - arrived, page)
    requires AllRight(disk, device, at, k, counts, n, page)
    ensures var b := DeviceBytes(disk, device, at, k, counts, n * page);
      disk(device, at + j) == if j < |b| then b[j] else 0
  {
    var b, data := DeviceBytes(disk, device, at, k, counts, n * page), SupplyOf(disk, device, at, k, counts, n, page);
    Supplied(b, n, page, q, r, j);
    assert data[q] == DiskRange(disk, device, at + q * page, page);
    assert disk(device, at + q * page + r) == data[q][r];
  }

  lemma Supplied(b: Bytes, n: nat, page: nat, q: nat, r: nat, j: nat)
    requires page > 0 && n > 0 && 0 < |b| <= n * page && j == q * page + r && r < page
    requires j < |b| + Fill(n * page - |b|, page)
    ensures q < |Supply(b, n, page)| && Supply(b, n, page)[q][r] == if j < |b| then b[j] else 0
  {
    var m := n - Withheld(n * page - |b|, page);
    ShortReadExactly(n, n * page - |b|, page);
    if q >= m {
      Monotone(m, q, page);
    }
  }
}
