// What the backing store holds: the bytes of page p of object o.  The history of a store is the list
// of transfers that have finished, and the contents are what the last of them left.

module PageStore {
  import opened Arithmetic
  import opened Bitmap
  import opened ClusterMap
  import opened Device
  import opened Ownership
  import opened Segment
  import opened Totals
  import opened Wrappers

  // A device write in progress: pages `first`, `first` + 1, ... of object o, going to a cluster.  A
  // synchronous one is not counted as pending.
  datatype Request = Request(o: nat, first: nat, data: seq<Bytes>, seg: nat, cluster: nat, async: bool)

  // `shift` is vm_page_shift, and `pending[o]` is vs_async_pending of object o, in pages.
  datatype Store = Store(w: World, shift: nat, disk: Disk, out: seq<Request>, pending: seq<int>)

  function Cluster(w: World, p: nat): nat
    requires w.clsize > 0
  {
    p / w.clsize
  }

  function Index(w: World, p: nat): (i: nat)
    requires w.clsize > 0
    ensures i < w.clsize
  {
    p % w.clsize
  }

  function PagesOf(o: nat): Request -> int {
    (r: Request) => if r.o == o then Weight(r) else 0
  }

  function Weight(r: Request): nat {
    if r.async then |r.data| else 0
  }

  // ---------------------------------------------------------------- where a page is

  datatype Place = Place(seg: nat, cluster: nat, index: nat)

  // The place of a page with valid data.
  function Location(w: World, o: nat, p: nat): Option<Place>
    requires w.clsize > 0
  {
    if HasEntry(w, o, Cluster(w, p)) then PlaceIn(w.maps[o][Cluster(w, p)], Index(w, p)) else None
  }

  function PlaceIn(e: VsMap, i: nat): Option<Place> {
    if Mapped(e) && i in e.bmap then Some(Place(e.psindex, e.entry, i)) else None
  }

  ghost predicate PlaceOk(w: World, x: Place) {
    x.seg < |w.segs| && x.cluster < w.segs[x.seg].geo.ncls && x.index < w.clsize
  }

  function PageNumber(w: World, x: Place): nat {
    x.cluster * w.clsize + x.index
  }

  // Where a device write begins.
  function FirstPage(w: World, r: Request): nat
    requires w.clsize > 0
  {
    PageNumber(w, Place(r.seg, r.cluster, Index(w, r.first)))
  }

  lemma Divided(p: nat, q: nat, n: nat)
    requires n > 0 && p / n == q / n && p % n == q % n
    ensures p == q
  {
  }

  // No two pages are in the same place.
  lemma LocationsDiffer(w: World, o: nat, p: nat, o': nat, p': nat)
    requires WorldInv(w) && Location(w, o, p).Some?
    ensures PlaceOk(w, Location(w, o, p).value)
    ensures Location(w, o', p') == Location(w, o, p) ==> o == o' && p == p'
  {
    var k, k' := Cluster(w, p), Cluster(w, p');
    assert EntryOk(w, o, k, w.maps[o][k]);
    if Location(w, o', p') == Location(w, o, p) {
      assert EntryOk(w, o', k', w.maps[o'][k']);
      Divided(p, p', w.clsize);
    }
  }

  lemma NumberInSegment(w: World, x: Place, n: nat)
    requires PlaceOk(w, x) && x.index + n <= w.clsize
    ensures PageNumber(w, x) + n <= w.segs[x.seg].geo.ncls * w.clsize
  {
    Monotone(x.cluster + 1, w.segs[x.seg].geo.ncls, w.clsize);
    Distribute(x.cluster, 1, w.clsize);
  }

  // ---------------------------------------------------------------- the invariant of a store

  ghost predicate DeviceOk(st: Store) {
    && (forall s :: 0 <= s < |st.w.segs| ==> GeometryOk(st.w.segs[s].geo, st.shift, st.w.clsize))
    && forall s, t :: 0 <= s < |st.w.segs| && 0 <= t < |st.w.segs| && s != t ==>
      Apart(st.w.segs[s].geo, st.w.segs[t].geo)
  }

  function Span(i: nat, n: nat): set<nat> {
    set j: nat | j < i + n && InSpan(i, n, j)
  }

  predicate InSpan(i: nat, n: nat, j: nat) {
    i <= j < i + n
  }

  // The cluster of a request is still the one its object has mapped.
  predicate Current(w: World, r: Request)
    requires w.clsize > 0
  {
    && HasEntry(w, r.o, Cluster(w, r.first))
    && var e := w.maps[r.o][Cluster(w, r.first)];
       Mapped(e) && e.psindex == r.seg && e.entry == r.cluster && Span(Index(w, r.first), |r.data|) <= e.alloc
  }

  // A request goes to part of one cluster.  Nothing is said of who has the cluster by now.
  ghost predicate RequestOk(st: Store, r: Request)
    requires st.w.clsize > 0
  {
    && r.data != [] && Index(st.w, r.first) + |r.data| <= st.w.clsize
    && TransferOk(st, r) && HasEntry(st.w, r.o, Cluster(st.w, r.first))
  }

  // Whole pages of a segment, from a page of one of its clusters on.
  ghost predicate TransferOk(st: Store, r: Request)
    requires st.w.clsize > 0
  {
    && WholePages(r.data, st.shift) && r.seg < |st.w.segs| && r.cluster < st.w.segs[r.seg].geo.ncls
    && FirstPage(st.w, r) + |r.data| <= st.w.segs[r.seg].geo.ncls * st.w.clsize
  }

  ghost predicate StoreInv(st: Store) {
    && WorldInv(st.w) && DeviceOk(st)
    && |st.pending| == |st.w.maps|
    && (forall i :: 0 <= i < |st.out| ==> RequestOk(st, st.out[i]))
    && (forall o: nat :: o < |st.pending| ==> Counted(st, o))
  }

  ghost predicate Counted(st: Store, o: nat)
    requires o < |st.pending|
  {
    st.pending[o] == Total(st.out, PagesOf(o))
  }

  // ---------------------------------------------------------------- contents

  function PageIn(st: Store, x: Place): Bytes
    requires x.seg < |st.w.segs| && st.w.segs[x.seg].geo.recordShift <= st.shift
  {
    PageAt(st.disk, st.w.segs[x.seg].geo, st.shift, PageNumber(st.w, x))
  }

  ghost function Contents(st: Store, o: nat, p: nat): Option<Bytes>
    requires StoreInv(st)
  {
    if Location(st.w, o, p).Some? then
      LocationsDiffer(st.w, o, p, o, p);
      Some(PageIn(st, Location(st.w, o, p).value))
    else None
  }

  // What has happened to a store, at the level of pages.  Failed sends the pages back to the kernel;
  // the whole cluster of the first of them is in error from then on.
  datatype Event =
    | Landed(o: nat, first: nat, data: seq<Bytes>)
    | Queued(o: nat, first: nat, data: seq<Bytes>)
    | Failed(o: nat, first: nat, n: nat)
    | Supplied(o: nat, first: nat, n: nat)
    | Destroyed(o: nat)

  // The abstract page store: each page as the last event that concerned it left it.
  ghost function Last(h: seq<Event>, clsize: nat, o: nat, p: nat): Option<Bytes>
    requires clsize > 0
  {
    if h == [] then None else After(h[|h| - 1], Last(h[..|h| - 1], clsize, o, p), clsize, o, p)
  }

  function After(ev: Event, was: Option<Bytes>, clsize: nat, o: nat, p: nat): Option<Bytes>
    requires clsize > 0
  {
    if ev.o != o then was
    else match ev
      case Landed(_, f, data) => if f <= p < f + |data| then Some(data[p - f]) else was
      case Queued(_, _, _) => was
      case Failed(_, f, _) => if p / clsize == f / clsize then None else was
      case Supplied(_, f, n) => if f <= p < f + n then None else was
      case Destroyed(_) => None
  }

  // ---------------------------------------------------------------- writing pages to a cluster

  // The device write of a request, by whoever finishes it.
  function Transfer(st: Store, r: Request): Disk
    requires st.w.clsize > 0 && r.seg < |st.w.segs| && st.w.segs[r.seg].geo.recordShift <= st.shift
  {
    WritePages(st.disk, st.w.segs[r.seg].geo, st.shift, FirstPage(st.w, r), r.data)
  }

  // How far a place is behind the beginning of a device write.
  function Offset(w: World, r: Request, x: Place): int
    requires w.clsize > 0
  {
    PageNumber(w, x) - FirstPage(w, r)
  }

  predicate Covers(w: World, r: Request, x: Place)
    requires w.clsize > 0
  {
    x.seg == r.seg && 0 <= Offset(w, r, x) < |r.data|
  }

  // A write that stays in its cluster covers part of it and nothing else.
  lemma CoversInCluster(w: World, r: Request, x: Place)
    requires w.clsize > 0 && x.index < w.clsize && Index(w, r.first) + |r.data| <= w.clsize
    ensures Covers(w, r, x)
      <==> x.seg == r.seg && x.cluster == r.cluster && InSpan(Index(w, r.first), |r.data|, x.index)
    ensures x.cluster == r.cluster ==> Offset(w, r, x) == x.index - Index(w, r.first)
  {
    if x.cluster < r.cluster {
      Monotone(x.cluster + 1, r.cluster, w.clsize);
      Distribute(x.cluster, 1, w.clsize);
    } else if r.cluster < x.cluster {
      Monotone(r.cluster + 1, x.cluster, w.clsize);
      Distribute(r.cluster, 1, w.clsize);
    }
  }

  // The transfer replaces the pages at the places it covers and no other.
  lemma TransferSeen(st: Store, r: Request, x: Place)
    requires StoreInv(st) && TransferOk(st, r) && PlaceOk(st.w, x)
    ensures st.w.segs[r.seg].geo.recordShift <= st.shift
    ensures PageIn(st.(disk := Transfer(st, r)), x)
      == if Covers(st.w, r, x) then r.data[Offset(st.w, r, x)] else PageIn(st, x)
  {
    SegmentsFit(st, r.seg, x.seg);
    NumberInSegment(st.w, x, 1);
    WriteSeen(st.disk, st.w.segs[r.seg].geo, FirstPage(st.w, r), r.data,
              st.w.segs[x.seg].geo, PageNumber(st.w, x), st.shift, st.w.clsize);
  }

  lemma SegmentsFit(st: Store, s: nat, t: nat)
    requires DeviceOk(st) && s < |st.w.segs| && t < |st.w.segs|
    ensures GeometryOk(st.w.segs[s].geo, st.shift, st.w.clsize) && GeometryOk(st.w.segs[t].geo, st.shift, st.w.clsize)
    ensures st.w.segs[s].geo == st.w.segs[t].geo || Apart(st.w.segs[s].geo, st.w.segs[t].geo)
    ensures s != t && st.w.segs[s].geo.ncls * st.w.clsize > 0 ==> st.w.segs[s].geo != st.w.segs[t].geo
  {
    var g := st.w.segs[s].geo;
    if s != t && g.ncls * st.w.clsize > 0 {
      assert Apart(g, st.w.segs[t].geo);
      Monotone(1, g.ncls * st.w.clsize, Pow2(g.recordShift));
    }
  }

  // ---------------------------------------------------------------- steps that move no data

  ghost predicate SameSegments(w: World, u: World) {
    && u.clsize == w.clsize && |w.segs| <= |u.segs|
    && forall s :: 0 <= s < |w.segs| ==> u.segs[s].geo == w.segs[s].geo
  }

  // An entry keeps what it says about pages, and may be claimed or claim more pages.
  predicate EntryGrew(e: VsMap, f: VsMap) {
    && (Mapped(e) ==> Mapped(f) && f.psindex == e.psindex && f.entry == e.entry && e.alloc <= f.alloc)
    && (Mapped(f) ==> f.bmap == if Mapped(e) then e.bmap else {})
    && f.error == e.error
  }

  ghost predicate Quietly(w: World, u: World) {
    && SameSegments(w, u) && |w.maps| <= |u.maps|
    && forall o: nat, k: nat :: EntryKept(w, u, o, k)
  }

  ghost predicate EntryKept(w: World, u: World, o: nat, k: nat) {
    && (HasEntry(w, o, k) ==> HasEntry(u, o, k))
    && (HasEntry(u, o, k) ==> EntryGrew(if HasEntry(w, o, k) then w.maps[o][k] else CLEAR, u.maps[o][k]))
  }

  lemma QuietlyTwice(w: World, u: World, v: World)
    requires Quietly(w, u) && Quietly(u, v)
    ensures Quietly(w, v)
  {
    forall o: nat, k: nat ensures EntryKept(w, v, o, k) {
      assert EntryKept(w, u, o, k) && EntryKept(u, v, o, k);
    }
  }

  lemma QuietSteps(w: World, step: Step)
    requires WorldInv(w) && Enabled(w, step)
    requires step.AddSegment? || step.Create? || step.Extend? || step.Reserve? || step.MarkAlloc? || step.Install?
    ensures WorldInv(Take(w, step)) && Quietly(w, Take(w, step))
  {
    StepKeepsWorld(w, step);
    match step
    case Install(o) => InstallIsQuiet(w, o);
    case MarkAlloc(o, k, pages) => MarkIsQuiet(w, o, k, pages);
    case _ => ResizeIsQuiet(w, step);
  }

  lemma ResizeIsQuiet(w: World, step: Step)
    requires WorldInv(w) && Enabled(w, step)
    requires step.AddSegment? || step.Create? || step.Extend? || step.Reserve?
    ensures Quietly(w, Take(w, step))
  {
    var u := Take(w, step);
    forall o: nat, k: nat ensures EntryKept(w, u, o, k) {
      if HasEntry(w, o, k) {
        assert EntryOk(w, o, k, w.maps[o][k]);
      }
    }
  }

  lemma MarkIsQuiet(w: World, o: nat, k: nat, pages: set<nat>)
    requires WorldInv(w) && Enabled(w, MarkAlloc(o, k, pages))
    ensures Quietly(w, Take(w, MarkAlloc(o, k, pages)))
  {
    var u := Take(w, MarkAlloc(o, k, pages));
    forall o': nat, k': nat ensures EntryKept(w, u, o', k') {
    }
  }

  lemma InstallIsQuiet(w: World, o: nat)
    requires WorldInv(w) && Enabled(w, Install(o))
    ensures Quietly(w, Take(w, Install(o)))
  {
    var u := Take(w, Install(o));
    InstallFindsFreeCluster(w, o);
    assert FlightOk(w, o, w.inflight[o]);
    forall o': nat, k: nat ensures EntryKept(w, u, o', k) {
    }
  }

  lemma SameLocation(w: World, u: World, o: nat, p: nat)
    requires w.clsize > 0 && Quietly(w, u)
    ensures Location(u, o, p) == Location(w, o, p)
  {
    var k := Cluster(w, p);
    assert EntryKept(w, u, o, k);
  }

  ghost predicate SameContents(st: Store, st': Store)
    requires StoreInv(st) && StoreInv(st')
  {
    forall o: nat, p: nat :: Contents(st', o, p) == Contents(st, o, p)
  }

  lemma QuietlyKeepsStore(st: Store, u: World, pending: seq<int>)
    requires StoreInv(st) && WorldInv(u) && Quietly(st.w, u) && DeviceOk(st.(w := u)) && |u.maps| == |pending|
    requires forall o: nat :: o < |pending| ==> pending[o] == if o < |st.pending| then st.pending[o] else 0
    ensures StoreInv(st.(w := u, pending := pending)) && SameContents(st, st.(w := u, pending := pending))
  {
    var st' := st.(w := u, pending := pending);
    QuietlyKeepsRequests(st, st');
    forall o: nat, p: nat ensures Contents(st', o, p) == Contents(st, o, p) {
      SameLocation(st.w, u, o, p);
      if Location(st.w, o, p).Some? {
        LocationsDiffer(st.w, o, p, o, p);
      }
    }
  }

  lemma QuietlyKeepsRequests(st: Store, u: Store)
    requires StoreInv(st) && u.shift == st.shift && u.out == st.out && Quietly(st.w, u.w)
    requires |st.w.maps| <= |u.w.maps| == |u.pending|
    requires forall o: nat :: o < |u.pending| ==> u.pending[o] == if o < |st.pending| then st.pending[o] else 0
    ensures forall i :: 0 <= i < |u.out| ==> RequestOk(u, u.out[i])
    ensures forall o: nat :: o < |u.pending| ==> Counted(u, o)
  {
    forall i | 0 <= i < |u.out| ensures RequestOk(u, u.out[i]) {
      assert RequestOk(st, st.out[i]);
      assert EntryKept(st.w, u.w, st.out[i].o, Cluster(st.w, st.out[i].first));
    }
    forall o: nat | o < |u.pending| ensures Counted(u, o) {
      if o < |st.pending| {
        assert Counted(st, o);
      } else {
        assert forall i :: 0 <= i < |st.out| ==> RequestOk(st, st.out[i]);
        TotalBounds(st.out, PagesOf(o));
      }
    }
  }

  // Every page with valid data is allocated.  A late success can break this, as it does not look.
  ghost predicate Allocated(w: World) {
    forall o: nat, k: nat :: HasEntry(w, o, k) && Mapped(w.maps[o][k]) ==> w.maps[o][k].bmap <= w.maps[o][k].alloc
  }

  lemma QuietlyAllocated(w: World, u: World)
    requires Quietly(w, u) && Allocated(w)
    ensures Allocated(u)
  {
    forall o: nat, k: nat | HasEntry(u, o, k) && Mapped(u.maps[o][k])
      ensures u.maps[o][k].bmap <= u.maps[o][k].alloc
    {
      assert EntryKept(w, u, o, k);
    }
  }

  // A request that is current stays so.
  lemma QuietlyKeepsCurrent(w: World, u: World, r: Request)
    requires w.clsize > 0 && Quietly(w, u) && Current(w, r)
    ensures Current(u, r)
  {
    assert EntryKept(w, u, r.o, Cluster(w, r.first));
  }

  // ---------------------------------------------------------------- a change of one object's map

  // Only entry k of object o has changed, and maybe the free space.
  ghost predicate OneEntry(w: World, u: World, o: nat, k: nat) {
    && SameSegments(w, u) && |u.segs| == |w.segs| && u.inflight == w.inflight && |u.maps| == |w.maps|
    && HasEntry(w, o, k) && HasEntry(u, o, k) && u.maps == w.maps[o := w.maps[o][k := u.maps[o][k]]]
  }

  lemma OtherEntries(w: World, u: World, o: nat, k: nat, o': nat, k': nat)
    requires OneEntry(w, u, o, k)
    ensures HasEntry(u, o', k') == HasEntry(w, o', k')
    ensures HasEntry(w, o', k') && (o' != o || k' != k) ==> u.maps[o'][k'] == w.maps[o'][k']
  {
  }

  lemma OneEntryAllocated(w: World, u: World, o: nat, k: nat)
    requires OneEntry(w, u, o, k) && Allocated(w)
    ensures Allocated(u) <==> (Mapped(u.maps[o][k]) ==> u.maps[o][k].bmap <= u.maps[o][k].alloc)
  {
    forall o': nat, k': nat | HasEntry(u, o', k') && (o' != o || k' != k)
      ensures HasEntry(w, o', k') && u.maps[o'][k'] == w.maps[o'][k']
    {
      OtherEntries(w, u, o, k, o', k');
    }
  }

  lemma OneEntryKeepsStore(st: Store, u: Store, o: nat, k: nat)
    requires StoreInv(st) && WorldInv(u.w) && OneEntry(st.w, u.w, o, k)
    requires u.shift == st.shift && u.out == st.out && u.pending == st.pending
    ensures StoreInv(u)
  {
    forall i | 0 <= i < |u.out| ensures RequestOk(u, u.out[i]) {
      assert RequestOk(st, st.out[i]);
      OtherEntries(st.w, u.w, o, k, u.out[i].o, Cluster(st.w, u.out[i].first));
    }
    forall o': nat | o' < |u.pending| ensures Counted(u, o') {
      assert Counted(st, o');
    }
    assert DeviceOk(u);
  }

  lemma SameGeometryContents(st: Store, u: Store, o: nat, p: nat)
    requires StoreInv(st) && StoreInv(u) && SameSegments(st.w, u.w) && u.disk == st.disk && u.shift == st.shift
    ensures Location(u.w, o, p).None? ==> Contents(u, o, p) == None
    ensures Location(u.w, o, p) == Location(st.w, o, p) ==> Contents(u, o, p) == Contents(st, o, p)
  {
    if Location(u.w, o, p).Some? && Location(u.w, o, p) == Location(st.w, o, p) {
      LocationsDiffer(st.w, o, p, o, p);
    }
  }

  // The pages of a chunk are the positions of its cluster that it covers.
  lemma InChunk(w: World, first: nat, n: nat, p: nat)
    requires w.clsize > 0 && Index(w, first) + n <= w.clsize
    ensures first <= p < first + n
      <==> Cluster(w, p) == Cluster(w, first) && InSpan(Index(w, first), n, Index(w, p))
    ensures Cluster(w, p) == Cluster(w, first) ==> p - first == Index(w, p) - Index(w, first)
  {
    var c, q, z := Cluster(w, first), Cluster(w, p), w.clsize;
    assert p == q * z + p % z && first == c * z + first % z;
    if q > c {
      Monotone(c + 1, q, z);
      Distribute(c, 1, z);
    } else if q < c {
      Monotone(q + 1, c, z);
      Distribute(q, 1, z);
    }
  }

  // ---------------------------------------------------------------- a write succeeds

  function ChunkSpan(w: World, r: Request): set<nat>
    requires w.clsize > 0
  {
    Span(Index(w, r.first), |r.data|)
  }

  // ps_vs_write_complete without an error: the pages become valid in whatever entry is there.
  function Accept(w: World, r: Request): World
    requires w.clsize > 0 && HasEntry(w, r.o, Cluster(w, r.first))
  {
    var k := Cluster(w, r.first);
    var e := w.maps[r.o][k];
    if Mapped(e) then SetEntry(w, r.o, k, e.(bmap := e.bmap + ChunkSpan(w, r))) else w
  }

  lemma AcceptedWorld(w: World, r: Request)
    requires WorldInv(w) && HasEntry(w, r.o, Cluster(w, r.first)) && Idle(w, r.o)
    requires Index(w, r.first) + |r.data| <= w.clsize
    ensures var u := Accept(w, r); OneEntry(w, u, r.o, Cluster(w, r.first)) && u.segs == w.segs && u.owner == w.owner
    ensures WorldInv(Accept(w, r)) && (Current(w, r) ==> Current(Accept(w, r), r))
    ensures Allocated(w) ==> (Allocated(Accept(w, r)) <==> Claims(w, r, 0))
  {
    var (k, u) := (Cluster(w, r.first), Accept(w, r));
    assert w.maps[r.o][k := w.maps[r.o][k]] == w.maps[r.o];
    assert w.maps[r.o := w.maps[r.o]] == w.maps;
    if Mapped(w.maps[r.o][k]) {
      StepKeepsWorld(w, Complete(r.o, k, ChunkSpan(w, r)));
    }
    if Allocated(w) {
      OneEntryAllocated(w, u, r.o, k);
    }
  }

  // The pages that a success makes valid are allocated in the entry.
  predicate Claims(w: World, r: Request, error: nat)
    requires w.clsize > 0 && HasEntry(w, r.o, Cluster(w, r.first))
  {
    error == 0 && Mapped(w.maps[r.o][Cluster(w, r.first)]) ==>
      ChunkSpan(w, r) <= w.maps[r.o][Cluster(w, r.first)].alloc
  }

  lemma AcceptedLocation(w: World, r: Request, o: nat, p: nat)
    requires WorldInv(w) && HasEntry(w, r.o, Cluster(w, r.first)) && Index(w, r.first) + |r.data| <= w.clsize
    ensures Location(Accept(w, r), o, p) ==
      var e := w.maps[r.o][Cluster(w, r.first)];
      if Mapped(e) && o == r.o && r.first <= p < r.first + |r.data| then Some(Place(e.psindex, e.entry, Index(w, p)))
      else Location(w, o, p)
  {
    InChunk(w, r.first, |r.data|, p);
  }

  lemma SameClusterSameEntry(w: World, o: nat, k: nat, o': nat, k': nat)
    requires WorldInv(w) && HasEntry(w, o, k) && HasEntry(w, o', k')
    requires Mapped(w.maps[o][k]) && Mapped(w.maps[o'][k'])
    requires w.maps[o][k].psindex == w.maps[o'][k'].psindex && w.maps[o][k].entry == w.maps[o'][k'].entry
    ensures o == o' && k == k'
  {
    assert EntryOk(w, o, k, w.maps[o][k]) && EntryOk(w, o', k', w.maps[o'][k']);
  }

  // The pages that lie where a current request goes are its own.
  lemma OwnPlaces(w: World, r: Request, o: nat, p: nat)
    requires WorldInv(w) && Current(w, r) && Index(w, r.first) + |r.data| <= w.clsize && Location(w, o, p).Some?
    ensures Covers(w, r, Location(w, o, p).value) ==>
      o == r.o && r.first <= p < r.first + |r.data| && Offset(w, r, Location(w, o, p).value) == p - r.first
  {
    var x := Location(w, o, p).value;
    CoversInCluster(w, r, x);
    if Covers(w, r, x) {
      SameClusterSameEntry(w, o, Cluster(w, p), r.o, Cluster(w, r.first));
      InChunk(w, r.first, |r.data|, p);
    }
  }

  // ---------------------------------------------------------------- a write fails

  // ps_vs_write_complete with an error, for pages that start in the cluster of page f.
  function Refuse(w: World, o: nat, f: nat, error: nat, present: bool): World
    requires WorldInv(w)
  {
    if HasEntry(w, o, Cluster(w, f)) then FailEntry(w, o, Cluster(w, f), error, present) else w
  }

  // The entry of a failed write: in error if it was mapped, and otherwise still without pages.
  predicate EntryFailed(e: VsMap, f: VsMap) {
    !Mapped(f) && (e.error || Mapped(e) ==> f.error)
  }

  lemma RefusedWorld(w: World, o: nat, f: nat, error: nat, present: bool)
    requires WorldInv(w) && HasEntry(w, o, Cluster(w, f))
    ensures var u := Refuse(w, o, f, error, present);
      && OneEntry(w, u, o, Cluster(w, f))
      && EntryFailed(w.maps[o][Cluster(w, f)], u.maps[o][Cluster(w, f)])
    ensures Idle(w, o) && error > 0 ==> WorldInv(Refuse(w, o, f, error, present))
  {
    var k := Cluster(w, f);
    if Mapped(w.maps[o][k]) {
      MappedClusterInUse(w, o, k);
    }
    assert w.maps[o][k := w.maps[o][k]] == w.maps[o];
    assert w.maps[o := w.maps[o]] == w.maps;
    if Idle(w, o) && error > 0 {
      StepKeepsWorld(w, Fail(o, k, error, present));
    }
  }

  // A failed write takes the pages of one cluster with it and no page besides.
  lemma RefusedLocation(w: World, o: nat, f: nat, error: nat, present: bool, o': nat, p: nat)
    requires WorldInv(w)
    ensures Location(Refuse(w, o, f, error, present), o', p)
      == if o' == o && Cluster(w, p) == Cluster(w, f) then None else Location(w, o', p)
  {
    if HasEntry(w, o, Cluster(w, f)) {
      RefusedWorld(w, o, f, error, present);
      OtherEntries(w, Refuse(w, o, f, error, present), o, Cluster(w, f), o', Cluster(w, p));
    }
  }

  lemma RefuseKeepsStore(st: Store, o: nat, f: nat, error: nat, present: bool)
    requires StoreInv(st) && error > 0 && (o < |st.w.maps| ==> Idle(st.w, o))
    ensures StoreInv(st.(w := Refuse(st.w, o, f, error, present)))
  {
    if HasEntry(st.w, o, Cluster(st.w, f)) {
      RefusedWorld(st.w, o, f, error, present);
      OneEntryKeepsStore(st, st.(w := Refuse(st.w, o, f, error, present)), o, Cluster(st.w, f));
    }
  }

  lemma RefusedContents(st: Store, o: nat, f: nat, n: nat, error: nat, present: bool, o': nat, p: nat)
    requires StoreInv(st) && error > 0 && (o < |st.w.maps| ==> Idle(st.w, o))
    ensures var u := st.(w := Refuse(st.w, o, f, error, present));
      StoreInv(u) && Contents(u, o', p) == After(Failed(o, f, n), Contents(st, o', p), st.w.clsize, o', p)
  {
    RefuseKeepsStore(st, o, f, error, present);
    RefusedLocation(st.w, o, f, error, present, o', p);
    if HasEntry(st.w, o, Cluster(st.w, f)) {
      RefusedWorld(st.w, o, f, error, present);
    }
    SameGeometryContents(st, st.(w := Refuse(st.w, o, f, error, present)), o', p);
  }

  // ---------------------------------------------------------------- a device write ends

  // The first pages of a request, as a device write left them.
  function Part(r: Request, wrote: seq<Bytes>): Request {
    r.(data := wrote)
  }

  // What a device write can leave behind: all of the data, or after an error anything in some pages
  // from the first on.  Only the retries of a synchronous write can run past the chunk.
  ghost predicate Outcome(st: Store, r: Request, wrote: seq<Bytes>, error: nat)
    requires st.w.clsize > 0
  {
    && TransferOk(st, Part(r, wrote)) && (r.async ==> |wrote| <= |r.data|)
    && (error == 0 ==> wrote == r.data)
  }

  // The end of a device write, with its completion.
  function Arrive(st: Store, r: Request, wrote: seq<Bytes>, error: nat): Store
    requires StoreInv(st) && RequestOk(st, r)
  {
    SegmentsFit(st, r.seg, r.seg);
    st.(disk := Transfer(st, Part(r, wrote)),
        w := if error != 0 then Refuse(st.w, r.o, r.first, error, true) else Accept(st.w, r))
  }

  // The event: a success that finds its entry not mapped concerns no page.
  function Arrival(st: Store, r: Request, error: nat): Event
    requires st.w.clsize > 0
  {
    if error != 0 then Failed(r.o, r.first, |r.data|)
    else if HasEntry(st.w, r.o, Cluster(st.w, r.first)) && Mapped(st.w.maps[r.o][Cluster(st.w, r.first)]) then
      Landed(r.o, r.first, r.data)
    else Queued(r.o, r.first, r.data)
  }

  // The success of a request that is not current finds a cluster in its entry all the same.
  predicate Misplaced(st: Store, r: Request, error: nat)
    requires st.w.clsize > 0
  {
    && error == 0 && !Current(st.w, r)
    && HasEntry(st.w, r.o, Cluster(st.w, r.first)) && Mapped(st.w.maps[r.o][Cluster(st.w, r.first)])
  }

  lemma ArriveKeepsStore(st: Store, r: Request, wrote: seq<Bytes>, error: nat)
    requires StoreInv(st) && RequestOk(st, r) && Outcome(st, r, wrote, error) && Idle(st.w, r.o)
    ensures StoreInv(Arrive(st, r, wrote, error))
    ensures OneEntry(st.w, Arrive(st, r, wrote, error).w, r.o, Cluster(st.w, r.first))
    ensures Allocated(st.w) ==> (Allocated(Arrive(st, r, wrote, error).w) <==> Claims(st.w, r, error))
  {
    var u, k := Arrive(st, r, wrote, error), Cluster(st.w, r.first);
    if error != 0 {
      RefusedWorld(st.w, r.o, r.first, error, true);
      if Allocated(st.w) {
        OneEntryAllocated(st.w, u.w, r.o, k);
      }
    } else {
      AcceptedWorld(st.w, r);
    }
    OneEntryKeepsStore(st, u, r.o, k);
  }

  // Where page p of the chunk is once the write has succeeded: in whatever cluster the entry has.
  function Landing(w: World, r: Request, p: nat): Place
    requires w.clsize > 0 && HasEntry(w, r.o, Cluster(w, r.first))
  {
    var e := w.maps[r.o][Cluster(w, r.first)];
    Place(e.psindex, e.entry, Index(w, p))
  }

  lemma ArriveLocation(st: Store, r: Request, wrote: seq<Bytes>, error: nat, o: nat, p: nat)
    requires StoreInv(st) && RequestOk(st, r)
    ensures Location(Arrive(st, r, wrote, error).w, o, p) ==
      if !Concerns(Arrival(st, r, error), st.w.clsize, o, p) then Location(st.w, o, p)
      else if error != 0 then None
      else Some(Landing(st.w, r, p))
  {
    if error != 0 {
      RefusedLocation(st.w, r.o, r.first, error, true, o, p);
    } else {
      AcceptedLocation(st.w, r, o, p);
    }
  }

  // What the pages hold after a device write has ended, wherever it went and whatever its entry has
  // become: those that lie where it wrote hold what it wrote, and all others what is in their place.
  lemma ArriveContents(st: Store, r: Request, wrote: seq<Bytes>, error: nat, o: nat, p: nat)
    requires StoreInv(st) && RequestOk(st, r) && Outcome(st, r, wrote, error) && Idle(st.w, r.o)
    ensures StoreInv(Arrive(st, r, wrote, error))
    ensures var u := Arrive(st, r, wrote, error); var x := Location(u.w, o, p);
      if x.None? then Contents(u, o, p) == None
      else
        && PlaceOk(st.w, x.value) && st.w.segs[x.value.seg].geo.recordShift <= st.shift
        && Contents(u, o, p) == Some(
          if Covers(st.w, Part(r, wrote), x.value) then wrote[Offset(st.w, r, x.value)] else PageIn(st, x.value))
  {
    ArriveKeepsStore(st, r, wrote, error);
    var u := Arrive(st, r, wrote, error);
    if Location(u.w, o, p).Some? {
      LocationsDiffer(u.w, o, p, o, p);
      BytesAt(st, u, r, wrote, Location(u.w, o, p).value);
    }
  }

  lemma BytesAt(st: Store, u: Store, r: Request, wrote: seq<Bytes>, x: Place)
    requires StoreInv(st) && TransferOk(st, Part(r, wrote)) && PlaceOk(st.w, x)
    requires SameSegments(st.w, u.w) && u.shift == st.shift && st.w.segs[r.seg].geo.recordShift <= st.shift
    requires u.disk == Transfer(st, Part(r, wrote))
    ensures st.w.segs[x.seg].geo.recordShift <= st.shift
    ensures PageIn(u, x) == if Covers(st.w, Part(r, wrote), x) then wrote[Offset(st.w, r, x)] else PageIn(st, x)
  {
    var q, v := Part(r, wrote), st.(disk := u.disk);
    SegmentsFit(st, x.seg, x.seg);
    TransferSeen(st, q, x);
    assert PageIn(u, x) == PageIn(v, x) by {
      SamePageIn(v, u, x);
    }
    assert Offset(st.w, q, x) == Offset(st.w, r, x) by {
      PartOffset(st.w, r, wrote, x);
    }
  }

  lemma PartOffset(w: World, r: Request, wrote: seq<Bytes>, x: Place)
    requires w.clsize > 0
    ensures Offset(w, Part(r, wrote), x) == Offset(w, r, x)
  {
  }

  lemma SamePageIn(st: Store, u: Store, x: Place)
    requires u.disk == st.disk && u.shift == st.shift && SameSegments(st.w, u.w)
    requires x.seg < |st.w.segs| && st.w.segs[x.seg].geo.recordShift <= st.shift
    ensures PageIn(u, x) == PageIn(st, x)
  {
  }

  // ---------------------------------------------------------------- pages are supplied

  // ps_clunmap on n pages from page f of object o, within one cluster.
  function Forgetting(w: World, o: nat, f: nat, n: nat): Step
    requires w.clsize > 0
  {
    Unmap(o, Cluster(w, f), Span(Index(w, f), n))
  }

  function Forget(w: World, o: nat, f: nat, n: nat): World
    requires WorldInv(w) && Enabled(w, Forgetting(w, o, f, n))
  {
    Take(w, Forgetting(w, o, f, n))
  }

  predicate EntryForgot(e: VsMap, f: VsMap, pages: set<nat>) {
    && (Mapped(f) ==> Mapped(e) && f.psindex == e.psindex && f.entry == e.entry
                      && f.bmap == e.bmap - pages && f.alloc == e.alloc - pages)
    && (!Mapped(f) && Mapped(e) ==> e.alloc - pages == {})
  }

  lemma ForgottenWorld(w: World, o: nat, f: nat, n: nat)
    requires WorldInv(w) && Enabled(w, Forgetting(w, o, f, n))
    ensures var (u, k) := (Forget(w, o, f, n), Cluster(w, f));
      OneEntry(w, u, o, k) && EntryForgot(w.maps[o][k], u.maps[o][k], Span(Index(w, f), n))
    ensures Sound(w, Forgetting(w, o, f, n)) ==> WorldInv(Forget(w, o, f, n))
  {
    var (e, k) := (w.maps[o][Cluster(w, f)], Cluster(w, f));
    assert EntryOk(w, o, k, e);
    if Mapped(e) {
      MappedClusterInUse(w, o, k);
    }
    assert w.maps[o][k := e] == w.maps[o];
    assert w.maps[o := w.maps[o]] == w.maps;
    if Sound(w, Forgetting(w, o, f, n)) {
      StepKeepsWorld(w, Forgetting(w, o, f, n));
    }
  }

  // The last allocated pages go, and a valid page is left that was not allocated: the cluster is freed
  // under it.
  predicate Strands(w: World, o: nat, f: nat, n: nat)
    requires w.clsize > 0 && HasEntry(w, o, Cluster(w, f))
  {
    var e, pages := w.maps[o][Cluster(w, f)], Span(Index(w, f), n);
    Mapped(e) && e.alloc - pages == {} && e.bmap - pages != {}
  }

  lemma NothingStrands(w: World, o: nat, f: nat, n: nat)
    requires w.clsize > 0 && HasEntry(w, o, Cluster(w, f)) && Allocated(w)
    ensures !Strands(w, o, f, n)
  {
    var e, pages := w.maps[o][Cluster(w, f)], Span(Index(w, f), n);
    if Mapped(e) {
      assert e.bmap <= e.alloc;
      assert e.bmap - pages <= e.alloc - pages;
    }
  }

  lemma ForgottenLocation(w: World, o: nat, f: nat, n: nat, o': nat, p: nat)
    requires WorldInv(w) && Enabled(w, Forgetting(w, o, f, n)) && Index(w, f) + n <= w.clsize
    ensures Location(Forget(w, o, f, n), o', p) ==
      if o' == o && (f <= p < f + n || (Strands(w, o, f, n) && Cluster(w, p) == Cluster(w, f))) then None
      else Location(w, o', p)
  {
    var k, k', i, j := Cluster(w, f), Cluster(w, p), Index(w, f), Index(w, p);
    ForgottenWorld(w, o, f, n);
    InChunk(w, f, n, p);
    var u := Forget(w, o, f, n);
    if o' == o && k' == k {
      ForgottenPlace(w.maps[o][k], u.maps[o][k], i, n, j);
    } else {
      OtherEntries(w, u, o, k, o', k');
    }
  }

  lemma ForgottenPlace(e: VsMap, f: VsMap, i: nat, n: nat, j: nat)
    requires EntryForgot(e, f, Span(i, n))
    requires Mapped(e) && e.alloc - Span(i, n) == {} ==> !Mapped(f)
    ensures PlaceIn(f, j) ==
      if InSpan(i, n, j) || (Mapped(e) && e.alloc - Span(i, n) == {} && e.bmap - Span(i, n) != {}) then None
      else PlaceIn(e, j)
  {
    if Mapped(e) && !Mapped(f) && !InSpan(i, n, j) && j in e.bmap {
      assert j in e.bmap - Span(i, n);
    }
  }

  lemma ForgetKeepsStore(st: Store, o: nat, f: nat, n: nat)
    requires StoreInv(st) && Enabled(st.w, Forgetting(st.w, o, f, n)) && Sound(st.w, Forgetting(st.w, o, f, n))
    ensures StoreInv(st.(w := Forget(st.w, o, f, n)))
  {
    ForgottenWorld(st.w, o, f, n);
    OneEntryKeepsStore(st, st.(w := Forget(st.w, o, f, n)), o, Cluster(st.w, f));
  }

  // Supplied pages leave the store, and no page besides unless the cluster is freed under it; whatever
  // writes of the object are in progress.
  lemma ForgottenContents(st: Store, o: nat, f: nat, n: nat, o': nat, p: nat)
    requires StoreInv(st) && Enabled(st.w, Forgetting(st.w, o, f, n)) && Sound(st.w, Forgetting(st.w, o, f, n))
    requires Index(st.w, f) + n <= st.w.clsize
    ensures var u := st.(w := Forget(st.w, o, f, n));
      && StoreInv(u)
      && Contents(u, o', p) ==
           if Strands(st.w, o, f, n) && o' == o && Cluster(st.w, p) == Cluster(st.w, f) then None
           else After(Supplied(o, f, n), Contents(st, o', p), st.w.clsize, o', p)
  {
    ForgetKeepsStore(st, o, f, n);
    ForgottenWorld(st.w, o, f, n);
    ForgottenLocation(st.w, o, f, n, o', p);
    SameGeometryContents(st, st.(w := Forget(st.w, o, f, n)), o', p);
  }

  // So a supply keeps the history true exactly if no page is left without its cluster.
  lemma ForgottenExactly(st: Store, h: seq<Event>, o: nat, f: nat, n: nat)
    requires StoreInv(st) && Enabled(st.w, Forgetting(st.w, o, f, n)) && Sound(st.w, Forgetting(st.w, o, f, n))
    requires Index(st.w, f) + n <= st.w.clsize && Faithful(st, h)
    ensures StoreInv(st.(w := Forget(st.w, o, f, n))) && Forget(st.w, o, f, n).clsize == st.w.clsize
    ensures Faithful(st.(w := Forget(st.w, o, f, n)), h + [Supplied(o, f, n)]) <==> !Strands(st.w, o, f, n)
  {
    var u, ev := st.(w := Forget(st.w, o, f, n)), Supplied(o, f, n);
    ForgetKeepsStore(st, o, f, n);
    ForgottenWorld(st.w, o, f, n);
    if Strands(st.w, o, f, n) {
      var p := StrandedPage(st, o, f, n);
      ForgottenContents(st, o, f, n, o, p);
      assert (h + [ev])[..|h|] == h;
      assert Contents(st, o, p) == Last(h, st.w.clsize, o, p);
      assert Contents(u, o, p) != Last(h + [ev], u.w.clsize, o, p);
    } else {
      forall o': nat, p: nat
        ensures Contents(u, o', p) == After(ev, Contents(st, o', p), st.w.clsize, o', p)
      {
        ForgottenContents(st, o, f, n, o', p);
      }
      Extends(st, h, u, ev);
    }
  }

  // A page that has data, is not supplied, and is in the cluster.
  lemma StrandedPage(st: Store, o: nat, f: nat, n: nat) returns (p: nat)
    requires StoreInv(st) && HasEntry(st.w, o, Cluster(st.w, f)) && Strands(st.w, o, f, n)
    requires Index(st.w, f) + n <= st.w.clsize
    ensures Contents(st, o, p).Some? && !(f <= p < f + n) && Cluster(st.w, p) == Cluster(st.w, f)
  {
    var k := Cluster(st.w, f);
    var e := st.w.maps[o][k];
    assert EntryOk(st.w, o, k, e);
    var j :| j in e.bmap - Span(Index(st.w, f), n);
    DivMod(k, j, st.w.clsize);
    p := k * st.w.clsize + j;
    InChunk(st.w, f, n, p);
  }

  // ---------------------------------------------------------------- requests

  function Queue(st: Store, r: Request): Store
    requires r.o < |st.pending|
  {
    st.(out := st.out + [r], pending := st.pending[r.o := st.pending[r.o] + Weight(r)])
  }

  function Dequeue(st: Store, i: nat): Store
    requires i < |st.out| && st.out[i].o < |st.pending|
  {
    var r := st.out[i];
    st.(out := st.out[..i] + st.out[i + 1..], pending := st.pending[r.o := st.pending[r.o] - Weight(r)])
  }

  lemma QueueKeepsStore(st: Store, r: Request)
    requires StoreInv(st) && RequestOk(st, r) && r.o < |st.pending|
    ensures StoreInv(Queue(st, r)) && SameContents(st, Queue(st, r))
  {
    var u := Queue(st, r);
    forall o: nat | o < |u.pending| ensures Counted(u, o) {
      assert Counted(st, o);
      TotalAppend(st.out, r, PagesOf(o));
    }
    forall i | 0 <= i < |u.out| ensures RequestOk(u, u.out[i]) {
      assert i < |st.out| ==> RequestOk(st, st.out[i]);
    }
    RequestsOnly(st, u);
  }

  lemma DequeueKeepsStore(st: Store, i: nat)
    requires StoreInv(st) && i < |st.out|
    ensures st.out[i].o < |st.pending|
    ensures StoreInv(Dequeue(st, i)) && SameContents(st, Dequeue(st, i))
  {
    assert RequestOk(st, st.out[i]);
    var u := Dequeue(st, i);
    forall o: nat | o < |u.pending| ensures Counted(u, o) {
      assert Counted(st, o);
      TotalRemove(st.out, i, PagesOf(o));
    }
    forall j | 0 <= j < |u.out| ensures RequestOk(u, u.out[j]) {
      assert u.out[j] == if j < i then st.out[j] else st.out[j + 1];
      assert RequestOk(st, u.out[j]);
    }
    RequestsOnly(st, u);
  }

  lemma RequestsOnly(st: Store, u: Store)
    requires StoreInv(st) && u.w == st.w && u.disk == st.disk && u.shift == st.shift && |u.pending| == |st.pending|
    requires forall i :: 0 <= i < |u.out| ==> RequestOk(u, u.out[i])
    requires forall o: nat :: o < |u.pending| ==> Counted(u, o)
    ensures StoreInv(u) && SameContents(st, u)
  {
    forall o: nat, p: nat ensures StoreInv(u) && Contents(u, o, p) == Contents(st, o, p) {
      SameGeometryContents(st, u, o, p);
    }
  }

  ghost predicate NoRequests(st: Store, o: nat) {
    forall i :: 0 <= i < |st.out| ==> st.out[i].o != o
  }

  // With no page pending, an object has no asynchronous request outstanding.
  lemma NothingPending(st: Store, o: nat)
    requires StoreInv(st) && o < |st.pending|
    ensures st.pending[o] == 0 <==> forall i :: 0 <= i < |st.out| && st.out[i].async ==> st.out[i].o != o
  {
    assert Counted(st, o);
    TotalBounds(st.out, PagesOf(o));
    forall i | 0 <= i < |st.out| ensures PagesOf(o)(st.out[i]) == 0 <==> !(st.out[i].async && st.out[i].o == o) {
      assert RequestOk(st, st.out[i]);
    }
    if st.pending[o] == 0 {
      forall i | 0 <= i < |st.out| && st.out[i].async ensures st.out[i].o != o {
        assert PagesOf(o)(st.out[i]) <= 0;
      }
    }
  }

  // ---------------------------------------------------------------- when a request loses its cluster

  // A failed write to the same cluster takes it away, and no other failed write does.
  lemma RefusedCurrent(w: World, r: Request, o: nat, f: nat, error: nat, present: bool)
    requires WorldInv(w) && Current(w, r) && error > 0
    ensures Current(Refuse(w, o, f, error, present), r)
      <==> !(o == r.o && Cluster(w, f) == Cluster(w, r.first))
  {
    if HasEntry(w, o, Cluster(w, f)) {
      RefusedWorld(w, o, f, error, present);
      OtherEntries(w, Refuse(w, o, f, error, present), o, Cluster(w, f), r.o, Cluster(w, r.first));
    }
  }

  predicate Overlap(a: nat, m: nat, b: nat, n: nat) {
    a < b + n && b < a + m
  }

  // So does the supply of one of its pages, and of no others.
  lemma ForgottenCurrent(w: World, r: Request, o: nat, f: nat, n: nat)
    requires WorldInv(w) && Current(w, r) && r.data != [] && Index(w, r.first) + |r.data| <= w.clsize
    requires Enabled(w, Forgetting(w, o, f, n)) && n > 0 && Index(w, f) + n <= w.clsize
    ensures Current(Forget(w, o, f, n), r) <==> !(o == r.o && Overlap(r.first, |r.data|, f, n))
  {
    var k, k', u := Cluster(w, f), Cluster(w, r.first), Forget(w, o, f, n);
    ForgottenWorld(w, o, f, n);
    OtherEntries(w, u, o, k, r.o, k');
    InChunk(w, f, n, r.first);
    InChunk(w, r.first, |r.data|, f);
    if o == r.o && k == k' {
      SpansMeet(Index(w, r.first), |r.data|, Index(w, f), n, w.maps[o][k].alloc);
    }
  }

  lemma SpansMeet(a: nat, m: nat, b: nat, n: nat, alloc: set<nat>)
    requires m > 0 && n > 0 && Span(a, m) <= alloc
    ensures Span(a, m) <= alloc - Span(b, n) <==> !Overlap(a, m, b, n)
    ensures !Overlap(a, m, b, n) ==> alloc - Span(b, n) != {}
  {
    assert a in Span(a, m);
    if Overlap(a, m, b, n) {
      var j := if a < b then b else a;
      assert j in Span(a, m) && j in Span(b, n);
    } else {
      assert a !in Span(b, n);
      assert a in alloc - Span(b, n);
    }
  }

  // ---------------------------------------------------------------- faithfulness

  ghost predicate Faithful(st: Store, h: seq<Event>)
    requires StoreInv(st)
  {
    forall o: nat, p: nat :: Contents(st, o, p) == Last(h, st.w.clsize, o, p)
  }

  lemma Extends(st: Store, h: seq<Event>, st': Store, ev: Event)
    requires StoreInv(st) && StoreInv(st') && Faithful(st, h) && st'.w.clsize == st.w.clsize
    requires forall o: nat, p: nat :: Contents(st', o, p) == After(ev, Contents(st, o, p), st.w.clsize, o, p)
    ensures Faithful(st', h + [ev])
  {
    assert (h + [ev])[..|h|] == h;
  }

  // The end of a device write harms no page: what a success makes valid lies where the data went, or
  // where the same bytes are already; and no other page lies where the device wrote, unless it holds
  // just those bytes.
  ghost predicate Harmless(st: Store, r: Request, wrote: seq<Bytes>, error: nat)
    requires StoreInv(st) && RequestOk(st, r)
  {
    forall o: nat, p: nat :: HarmlessTo(st, r, wrote, error, o, p)
  }

  ghost predicate HarmlessTo(st: Store, r: Request, wrote: seq<Bytes>, error: nat, o: nat, p: nat)
    requires StoreInv(st) && RequestOk(st, r)
  {
    if Concerns(Arrival(st, r, error), st.w.clsize, o, p) then
      error != 0 || LandedBytes(st, r, p) == r.data[p - r.first]
    else
      var x := Location(st.w, o, p);
      x.Some? && Covers(st.w, Part(r, wrote), x.value) ==> Contents(st, o, p) == Some(wrote[Offset(st.w, r, x.value)])
  }

  // What page p of the chunk holds once the write has succeeded.
  function LandedBytes(st: Store, r: Request, p: nat): Bytes
    requires StoreInv(st) && RequestOk(st, r) && r.first <= p < r.first + |r.data|
    requires Mapped(st.w.maps[r.o][Cluster(st.w, r.first)])
  {
    var x := Landing(st.w, r, p);
    EntryPlaces(st.w, r.o, Cluster(st.w, r.first));
    SegmentsFit(st, x.seg, x.seg);
    if x.seg == r.seg && x.cluster == r.cluster then r.data[p - r.first] else PageIn(st, x)
  }

  lemma EntryPlaces(w: World, o: nat, k: nat)
    requires WorldInv(w) && HasEntry(w, o, k) && Mapped(w.maps[o][k])
    ensures w.maps[o][k].psindex < |w.segs| && w.maps[o][k].entry < w.segs[w.maps[o][k].psindex].geo.ncls
  {
    assert EntryOk(w, o, k, w.maps[o][k]);
  }

  // The end of any write, success or failure, whatever has become of its cluster and of its entry,
  // keeps the history true exactly if it is harmless.
  lemma ArriveExactly(st: Store, h: seq<Event>, r: Request, wrote: seq<Bytes>, error: nat)
    requires StoreInv(st) && RequestOk(st, r) && Outcome(st, r, wrote, error) && Idle(st.w, r.o) && Faithful(st, h)
    ensures StoreInv(Arrive(st, r, wrote, error))
    ensures Faithful(Arrive(st, r, wrote, error), h + [Arrival(st, r, error)]) <==> Harmless(st, r, wrote, error)
  {
    ArriveKeepsStore(st, r, wrote, error);
    var u, ev := Arrive(st, r, wrote, error), Arrival(st, r, error);
    forall o: nat, p: nat
      ensures Contents(u, o, p) == Last(h + [ev], st.w.clsize, o, p) <==> HarmlessTo(st, r, wrote, error, o, p)
    {
      ArrivePage(st, r, wrote, error, o, p);
      assert (h + [ev])[..|h|] == h;
    }
    if Harmless(st, r, wrote, error) {
      assert forall o: nat, p: nat :: HarmlessTo(st, r, wrote, error, o, p);
    }
    if Faithful(u, h + [ev]) {
      assert forall o: nat, p: nat :: Contents(u, o, p) == Last(h + [ev], u.w.clsize, o, p);
    }
  }

  // One page: it is what the event says exactly if it is not harmed.
  lemma ArrivePage(st: Store, r: Request, wrote: seq<Bytes>, error: nat, o: nat, p: nat)
    requires StoreInv(st) && RequestOk(st, r) && Outcome(st, r, wrote, error) && Idle(st.w, r.o)
    ensures StoreInv(Arrive(st, r, wrote, error))
    ensures Contents(Arrive(st, r, wrote, error), o, p)
        == After(Arrival(st, r, error), Contents(st, o, p), st.w.clsize, o, p)
      <==> HarmlessTo(st, r, wrote, error, o, p)
  {
    if !Concerns(Arrival(st, r, error), st.w.clsize, o, p) {
      SparedPage(st, r, wrote, error, o, p);
    } else if error == 0 {
      LandedPage(st, r, p);
    } else {
      GonePage(st, r, wrote, error, o, p);
    }
  }

  lemma GonePage(st: Store, r: Request, wrote: seq<Bytes>, error: nat, o: nat, p: nat)
    requires StoreInv(st) && RequestOk(st, r) && Outcome(st, r, wrote, error) && Idle(st.w, r.o) && error != 0
    requires Concerns(Arrival(st, r, error), st.w.clsize, o, p)
    ensures StoreInv(Arrive(st, r, wrote, error)) && HarmlessTo(st, r, wrote, error, o, p)
    ensures Contents(Arrive(st, r, wrote, error), o, p) == None
    ensures After(Arrival(st, r, error), Contents(st, o, p), st.w.clsize, o, p) == None
  {
    ArriveKeepsStore(st, r, wrote, error);
    ArriveLocation(st, r, wrote, error, o, p);
  }

  lemma LandedPage(st: Store, r: Request, p: nat)
    requires StoreInv(st) && RequestOk(st, r) && Outcome(st, r, r.data, 0) && Idle(st.w, r.o)
    requires Concerns(Arrival(st, r, 0), st.w.clsize, r.o, p)
    ensures StoreInv(Arrive(st, r, r.data, 0))
    ensures After(Arrival(st, r, 0), Contents(st, r.o, p), st.w.clsize, r.o, p) == Some(r.data[p - r.first])
    ensures Contents(Arrive(st, r, r.data, 0), r.o, p) == Some(r.data[p - r.first])
      <==> HarmlessTo(st, r, r.data, 0, r.o, p)
  {
    LandedContents(st, r, p);
  }

  lemma LandingCovered(w: World, r: Request, p: nat)
    requires w.clsize > 0 && HasEntry(w, r.o, Cluster(w, r.first)) && Index(w, r.first) + |r.data| <= w.clsize
    requires r.first <= p < r.first + |r.data|
    ensures var x := Landing(w, r, p);
      && (Covers(w, r, x) <==> x.seg == r.seg && x.cluster == r.cluster)
      && (Covers(w, r, x) ==> Offset(w, r, x) == p - r.first)
  {
    InChunk(w, r.first, |r.data|, p);
    CoversInCluster(w, r, Landing(w, r, p));
  }

  // A page that the write does not concern is as before exactly if the device left it alone.
  lemma SparedPage(st: Store, r: Request, wrote: seq<Bytes>, error: nat, o: nat, p: nat)
    requires StoreInv(st) && RequestOk(st, r) && Outcome(st, r, wrote, error) && Idle(st.w, r.o)
    requires !Concerns(Arrival(st, r, error), st.w.clsize, o, p)
    ensures StoreInv(Arrive(st, r, wrote, error))
    ensures Contents(Arrive(st, r, wrote, error), o, p) == Contents(st, o, p) <==> HarmlessTo(st, r, wrote, error, o, p)
  {
    var u, x := Arrive(st, r, wrote, error), Location(st.w, o, p);
    assert Location(u.w, o, p) == x by {
      ArriveLocation(st, r, wrote, error, o, p);
    }
    ArriveContents(st, r, wrote, error, o, p);
  }

  // A page that a success makes valid holds the data if its entry has the cluster that was written, and
  // otherwise whatever bytes its new cluster holds.
  lemma LandedContents(st: Store, r: Request, p: nat)
    requires StoreInv(st) && RequestOk(st, r) && Idle(st.w, r.o) && Mapped(st.w.maps[r.o][Cluster(st.w, r.first)])
    requires r.first <= p < r.first + |r.data|
    ensures StoreInv(Arrive(st, r, r.data, 0))
    ensures Contents(Arrive(st, r, r.data, 0), r.o, p) == Some(LandedBytes(st, r, p))
  {
    var u, x := Arrive(st, r, r.data, 0), Landing(st.w, r, p);
    assert Part(r, r.data) == r;
    assert StoreInv(u) && SameSegments(st.w, u.w) by {
      ArriveKeepsStore(st, r, r.data, 0);
    }
    assert Location(u.w, r.o, p) == Some(x) by {
      ArriveLocation(st, r, r.data, 0, r.o, p);
    }
    BytesLanded(st, u, r, p, x);
  }

  lemma BytesLanded(st: Store, u: Store, r: Request, p: nat, x: Place)
    requires StoreInv(st) && RequestOk(st, r) && Mapped(st.w.maps[r.o][Cluster(st.w, r.first)])
    requires StoreInv(u) && SameSegments(st.w, u.w) && u.shift == st.shift
    requires r.first <= p < r.first + |r.data| && x == Landing(st.w, r, p) && Location(u.w, r.o, p) == Some(x)
    requires st.w.segs[r.seg].geo.recordShift <= st.shift && u.disk == Transfer(st, r)
    ensures Contents(u, r.o, p) == Some(LandedBytes(st, r, p))
  {
    assert Part(r, r.data) == r;
    EntryPlaces(st.w, r.o, Cluster(st.w, r.first));
    LandingCovered(st.w, r, p);
    BytesAt(st, u, r, r.data, x);
  }

  // While a request is current its end does no harm, whatever a failed device write left in the chunk.
  lemma CurrentIsHarmless(st: Store, r: Request, wrote: seq<Bytes>, error: nat)
    requires StoreInv(st) && RequestOk(st, r) && Outcome(st, r, wrote, error) && Current(st.w, r)
    requires |wrote| <= |r.data|
    ensures Harmless(st, r, wrote, error) && Claims(st.w, r, error)
  {
    forall o: nat, p: nat ensures HarmlessTo(st, r, wrote, error, o, p) {
      InChunk(st.w, r.first, |r.data|, p);
      if Location(st.w, o, p).Some? {
        OwnPlaces(st.w, Part(r, wrote), o, p);
      }
    }
  }

  // So its end does to the pages just what its event says.
  lemma CurrentArrival(st: Store, r: Request, wrote: seq<Bytes>, error: nat, o: nat, p: nat)
    requires StoreInv(st) && RequestOk(st, r) && Outcome(st, r, wrote, error) && Idle(st.w, r.o) && Current(st.w, r)
    requires |wrote| <= |r.data|
    ensures StoreInv(Arrive(st, r, wrote, error))
    ensures Contents(Arrive(st, r, wrote, error), o, p)
      == After(Arrival(st, r, error), Contents(st, o, p), st.w.clsize, o, p)
  {
    CurrentIsHarmless(st, r, wrote, error);
    ArrivePage(st, r, wrote, error, o, p);
  }

  // A success that finds another cluster in its entry makes the pages valid there, with whatever bytes
  // that cluster holds; and they may be valid without being allocated.
  lemma MisplacedArrival(st: Store, r: Request, p: nat)
    requires StoreInv(st) && RequestOk(st, r) && Idle(st.w, r.o) && Misplaced(st, r, 0)
    requires r.first <= p < r.first + |r.data|
    ensures StoreInv(Arrive(st, r, r.data, 0))
    ensures Contents(Arrive(st, r, r.data, 0), r.o, p) == Some(LandedBytes(st, r, p))
    ensures Allocated(st.w) ==> (Allocated(Arrive(st, r, r.data, 0).w) <==> Claims(st.w, r, 0))
  {
    ArriveKeepsStore(st, r, r.data, 0);
    LandedContents(st, r, p);
  }

  // ---------------------------------------------------------------- an object goes away

  function Give(w: World, o: nat, k: nat): World
    requires WorldInv(w) && HasEntry(w, o, k) && Idle(w, o)
  {
    Take(w, Release(o, k))
  }

  lemma GivenWorld(w: World, o: nat, k: nat)
    requires WorldInv(w) && HasEntry(w, o, k) && Idle(w, o)
    ensures WorldInv(Give(w, o, k)) && OneEntry(w, Give(w, o, k), o, k) && !Mapped(Give(w, o, k).maps[o][k])
  {
    StepKeepsWorld(w, Release(o, k));
    if Mapped(w.maps[o][k]) {
      MappedClusterInUse(w, o, k);
    }
    assert w.maps[o][k := w.maps[o][k]] == w.maps[o];
    assert w.maps[o := w.maps[o]] == w.maps;
  }

  lemma GivenContents(st: Store, o: nat, k: nat, o': nat, p: nat)
    requires StoreInv(st) && HasEntry(st.w, o, k) && Idle(st.w, o)
    ensures var u := st.(w := Give(st.w, o, k));
      StoreInv(u) && Contents(u, o', p) == if o' == o && Cluster(st.w, p) == k then None else Contents(st, o', p)
  {
    GivenWorld(st.w, o, k);
    var u, k' := st.(w := Give(st.w, o, k)), Cluster(st.w, p);
    OneEntryKeepsStore(st, u, o, k);
    OtherEntries(st.w, u.w, o, k, o', k');
    SameGeometryContents(st, u, o', p);
  }

  ghost predicate Emptied(st: Store, o: nat) {
    o < |st.w.maps| && forall k :: 0 <= k < |st.w.maps[o]| ==> !Mapped(st.w.maps[o][k])
  }

  function Discard(st: Store, o: nat): Store
    requires StoreInv(st) && Emptied(st, o) && Idle(st.w, o)
  {
    st.(w := Take(st.w, Drop(o)))
  }

  lemma DiscardKeepsStore(st: Store, o: nat)
    requires StoreInv(st) && Emptied(st, o) && Idle(st.w, o) && NoRequests(st, o)
    ensures StoreInv(Discard(st, o)) && SameContents(st, Discard(st, o))
  {
    StepKeepsWorld(st.w, Drop(o));
    var u := Discard(st, o);
    forall i | 0 <= i < |u.out| ensures RequestOk(u, u.out[i]) {
      assert RequestOk(st, st.out[i]);
    }
    forall o': nat | o' < |u.pending| ensures Counted(u, o') {
      assert Counted(st, o');
    }
    assert DeviceOk(u);
    forall o': nat, p: nat ensures Contents(u, o', p) == Contents(st, o', p) {
      SameGeometryContents(st, u, o', p);
    }
  }

  // A discarded object owns nothing: all its clusters went back.
  lemma NothingOwned(st: Store, o: nat, s: nat, c: nat)
    requires StoreInv(st) && o < |st.w.maps| && st.w.maps[o] == []
    ensures !((s, c) in st.w.owner && st.w.owner[(s, c)].Cell? && st.w.owner[(s, c)].o == o)
  {
    if (s, c) in st.w.owner {
      assert OwnerOk(st.w, s, c, st.w.owner[(s, c)]);
    }
  }

  // ---------------------------------------------------------------- the abstract store

  // The last event that concerns a page, if any.
  ghost predicate Concerns(ev: Event, clsize: nat, o: nat, p: nat)
    requires clsize > 0
  {
    ev.o == o && match ev
      case Landed(_, f, data) => f <= p < f + |data|
      case Queued(_, _, _) => false
      case Failed(_, f, _) => p / clsize == f / clsize
      case Supplied(_, f, n) => f <= p < f + n
      case Destroyed(_) => true
  }

  ghost predicate LastAt(h: seq<Event>, clsize: nat, o: nat, p: nat, i: nat)
    requires clsize > 0
  {
    i < |h| && Concerns(h[i], clsize, o, p) && forall j :: i < j < |h| ==> !Concerns(h[j], clsize, o, p)
  }

  // The last thing that happened to a page is that b was written to it.
  ghost predicate IsLastWritten(h: seq<Event>, clsize: nat, o: nat, p: nat, b: Bytes)
    requires clsize > 0
  {
    exists i: nat :: LastAt(h, clsize, o, p, i) && h[i].Landed? && h[i].data[p - h[i].first] == b
  }

  // The abstract store holds b for a page exactly when the last thing that happened to the page is
  // that b was written to it.
  lemma {:induction false} LastWritten(h: seq<Event>, clsize: nat, o: nat, p: nat, b: Bytes)
    requires clsize > 0
    ensures Last(h, clsize, o, p) == Some(b) <==> IsLastWritten(h, clsize, o, p, b)
  {
    if h != [] {
      var m := |h| - 1;
      var g := h[..m];
      LastWritten(g, clsize, o, p, b);
      if Concerns(h[m], clsize, o, p) {
        assert LastAt(h, clsize, o, p, m);
        assert forall i: nat :: LastAt(h, clsize, o, p, i) ==> i == m;
      } else {
        forall i: nat ensures LastAt(h, clsize, o, p, i) <==> LastAt(g, clsize, o, p, i) {
          assert forall j :: 0 <= j < m ==> h[j] == g[j];
        }
        assert forall i: nat :: i < m ==> h[i] == g[i];
      }
    }
  }
}
