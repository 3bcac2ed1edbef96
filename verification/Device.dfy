// Where the pages of a paging segment lie on its device.  A segment starts at a record number and is
// addressed by byte offset; pages are written and read through device records.

module Device {
  import opened Arithmetic
  import opened Segment

  type Bytes = seq<bv8>
  type Disk = (nat, nat) -> bv8  // device and byte address to byte

  // offset >> k
  function ShiftRight(offset: nat, k: nat): nat {
    if k == 0 then offset else ShiftRight(offset / 2, k - 1)
  }

  lemma {:induction false} ShiftExact(m: nat, k: nat)
    ensures ShiftRight(m * Pow2(k), k) == m
  {
    if k > 0 {
      assert m * Pow2(k) == 2 * (m * Pow2(k - 1));
      ShiftExact(m, k - 1);
    }
  }

  lemma {:induction false} Pow2Sum(a: nat, b: nat)
    ensures Pow2(a + b) == Pow2(a) * Pow2(b)
  {
    if b > 0 {
      Pow2Sum(a, b - 1);
      assert Pow2(a + b) == 2 * Pow2(a + (b - 1));
    }
  }

  function RecordSize(g: Geometry, shift: nat): (r: nat)
    requires g.recordShift <= shift
    ensures r > 0
  {
    Pow2(shift - g.recordShift)
  }

  // dev_offset of ps_read_device and ps_write_device, in bytes, for a byte offset in the segment.
  function Address(g: Geometry, shift: nat, offset: nat): nat
    requires g.recordShift <= shift
  {
    (g.offset + ShiftRight(offset, shift - g.recordShift)) * RecordSize(g, shift)
  }

  function AddressOfPage(g: Geometry, shift: nat, n: nat): nat
    requires g.recordShift <= shift
  {
    Address(g, shift, n * Pow2(shift))
  }

  // What default_pager_add_segment computes: the clusters fit in the records of the segment.
  ghost predicate GeometryOk(g: Geometry, shift: nat, clsize: nat) {
    g.recordShift <= shift && g.ncls * clsize * Pow2(g.recordShift) <= g.recnum
  }

  // A shift is the quotient, also of an offset that is no multiple.
  lemma {:induction false} ShiftIsQuotient(x: nat, k: nat)
    ensures ShiftRight(x, k) * Pow2(k) <= x < (ShiftRight(x, k) + 1) * Pow2(k)
  {
    ShiftRoundsDown(x, k);
    if k > 0 {
      var q, p := ShiftRight(x, k), Pow2(k - 1);
      ShiftIsQuotient(x / 2, k - 1);
      assert x / 2 + 1 <= (q + 1) * p;
      assert (q + 1) * Pow2(k) == 2 * ((q + 1) * p);
    }
  }

  lemma {:induction false} ShiftRoundsDown(x: nat, k: nat)
    ensures ShiftRight(x, k) * Pow2(k) <= x
  {
    if k > 0 {
      ShiftRoundsDown(x / 2, k - 1);
      assert ShiftRight(x, k) * Pow2(k) == 2 * (ShiftRight(x / 2, k - 1) * Pow2(k - 1));
    }
  }

  // A segment carved by default_pager_add_segment fits, whatever its record count.
  lemma CarvedSegmentFits(g: Geometry, shift: nat)
    requires g.recordShift <= shift && g.ncls == ShiftRight(ShiftRight(g.recnum, g.recordShift), g.clshift)
    ensures GeometryOk(g, shift, Pow2(g.clshift))
  {
    var pages := ShiftRight(g.recnum, g.recordShift);
    ShiftRoundsDown(g.recnum, g.recordShift);
    ShiftRoundsDown(pages, g.clshift);
    Monotone(g.ncls * Pow2(g.clshift), pages, Pow2(g.recordShift));
  }

  // The overlap test of default_pager_add_segment against one existing segment.
  predicate Overlaps(g: Geometry, h: Geometry) {
    !(g.device != h.device || h.offset >= g.offset + g.recnum || h.offset + h.recnum <= g.offset)
  }

  predicate HasRecord(g: Geometry, device: nat, record: nat) {
    g.device == device && g.offset <= record < g.offset + g.recnum
  }

  // Segments that are not empty overlap exactly if they share a record of a device.
  lemma OverlapIsShared(g: Geometry, h: Geometry)
    requires g.recnum > 0 && h.recnum > 0
    ensures Overlaps(g, h) <==> exists d: nat, r: nat :: HasRecord(g, d, r) && HasRecord(h, d, r)
  {
    if Overlaps(g, h) {
      var r := if g.offset <= h.offset then h.offset else g.offset;
      assert HasRecord(g, g.device, r) && HasRecord(h, g.device, r);
    }
  }

  // The record size belongs to the device.
  ghost predicate Apart(g: Geometry, h: Geometry) {
    !Overlaps(g, h) && (g.device == h.device ==> g.recordShift == h.recordShift)
  }

  // Shifting a page's offset into records and back loses nothing, so pages follow each other on the
  // device and a transfer of several pages is one range of bytes.
  lemma PagesAreContiguous(g: Geometry, shift: nat, n: nat)
    requires g.recordShift <= shift
    ensures AddressOfPage(g, shift, n) == g.offset * RecordSize(g, shift) + n * Pow2(shift)
  {
    var rs, rpp := RecordSize(g, shift), Pow2(g.recordShift);
    Pow2Sum(shift - g.recordShift, g.recordShift);
    Regroup(n, rs, rpp);
    ShiftExact(n * rpp, shift - g.recordShift);
    Distribute(g.offset, n * rpp, rs);
  }

  // The bytes of page n of a segment lie between the segment's first record and its last.
  lemma PageInsideSegment(g: Geometry, shift: nat, clsize: nat, n: nat)
    requires GeometryOk(g, shift, clsize) && n < g.ncls * clsize
    ensures g.offset * RecordSize(g, shift) <= AddressOfPage(g, shift, n)
    ensures AddressOfPage(g, shift, n) + Pow2(shift) <= (g.offset + g.recnum) * RecordSize(g, shift)
  {
    PagesAreContiguous(g, shift, n);
    Pow2Sum(shift - g.recordShift, g.recordShift);
    PageFits(n, g.ncls * clsize, RecordSize(g, shift), Pow2(g.recordShift), g.recnum);
    Distribute(g.offset, g.recnum, RecordSize(g, shift));
  }

  lemma PageFits(n: nat, pages: nat, rs: nat, rpp: nat, recnum: nat)
    requires n < pages && pages * rpp <= recnum
    ensures n * (rs * rpp) + rs * rpp <= recnum * rs
  {
    Distribute(n, 1, rs * rpp);
    Monotone(n + 1, pages, rs * rpp);
    Regroup(pages, rs, rpp);
    Monotone(pages * rpp, recnum, rs);
  }

  // Different pages of a segment, and pages of different segments, never share a byte of a device.
  lemma PagesApart(g: Geometry, n: nat, h: Geometry, m: nat, shift: nat, clsize: nat)
    requires GeometryOk(g, shift, clsize) && GeometryOk(h, shift, clsize)
    requires n < g.ncls * clsize && m < h.ncls * clsize
    requires (g == h && n != m) || Apart(g, h)
    ensures g.device != h.device
      || AddressOfPage(g, shift, n) + Pow2(shift) <= AddressOfPage(h, shift, m)
      || AddressOfPage(h, shift, m) + Pow2(shift) <= AddressOfPage(g, shift, n)
  {
    var page := Pow2(shift);
    if g == h && n != m {
      PagesAreContiguous(g, shift, n);
      PagesAreContiguous(h, shift, m);
      Distribute(n, 1, page);
      Distribute(m, 1, page);
      if n < m {
        Monotone(n + 1, m, page);
      } else {
        Monotone(m + 1, n, page);
      }
    } else if g.device == h.device {
      PageInsideSegment(g, shift, clsize, n);
      PageInsideSegment(h, shift, clsize, m);
      if h.offset >= g.offset + g.recnum {
        Monotone(g.offset + g.recnum, h.offset, RecordSize(g, shift));
      } else {
        Monotone(h.offset + h.recnum, g.offset, RecordSize(g, shift));
      }
    }
  }

  // ---------------------------------------------------------------- transfers

  function PageAt(disk: Disk, g: Geometry, shift: nat, n: nat): (b: Bytes)
    requires g.recordShift <= shift
  {
    seq(Pow2(shift), j requires j >= 0 => disk(g.device, AddressOfPage(g, shift, n) + j))
  }

  function WriteBytes(disk: Disk, device: nat, at: nat, b: Bytes): Disk {
    (d: nat, a: nat) => if d == device && at <= a < at + |b| then b[a - at] else disk(d, a)
  }

  // A device write of whole pages from page n of the segment.
  function WritePages(disk: Disk, g: Geometry, shift: nat, n: nat, data: seq<Bytes>): Disk
    requires g.recordShift <= shift
  {
    if data == [] then disk
    else
      var m := |data| - 1;
      WriteBytes(WritePages(disk, g, shift, n, data[..m]), g.device, AddressOfPage(g, shift, n + m), data[m])
  }

  predicate WholePages(data: seq<Bytes>, shift: nat) {
    forall j :: 0 <= j < |data| ==> |data[j]| == Pow2(shift)
  }

  lemma WriteOnePage(disk: Disk, g: Geometry, n: nat, b: Bytes, h: Geometry, m: nat, shift: nat, clsize: nat)
    requires GeometryOk(g, shift, clsize) && GeometryOk(h, shift, clsize) && (g == h || Apart(g, h))
    requires n < g.ncls * clsize && m < h.ncls * clsize && |b| == Pow2(shift)
    ensures PageAt(WriteBytes(disk, g.device, AddressOfPage(g, shift, n), b), h, shift, m)
      == if g == h && m == n then b else PageAt(disk, h, shift, m)
  {
    if g != h || m != n {
      PagesApart(g, n, h, m, shift, clsize);
    }
  }

  // A write of pages is seen by exactly the pages it names.
  lemma {:induction false} WriteSeen(
      disk: Disk, g: Geometry, n: nat, data: seq<Bytes>, h: Geometry, m: nat, shift: nat, clsize: nat)
    requires GeometryOk(g, shift, clsize) && GeometryOk(h, shift, clsize) && (g == h || Apart(g, h))
    requires n + |data| <= g.ncls * clsize && m < h.ncls * clsize && WholePages(data, shift)
    ensures PageAt(WritePages(disk, g, shift, n, data), h, shift, m)
      == if g == h && n <= m < n + |data| then data[m - n] else PageAt(disk, h, shift, m)
  {
    if data != [] {
      var k := |data| - 1;
      WriteSeen(disk, g, n, data[..k], h, m, shift, clsize);
      WriteOnePage(WritePages(disk, g, shift, n, data[..k]), g, n + k, data[k], h, m, shift, clsize);
    }
  }
}
