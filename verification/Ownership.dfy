// Who owns which cluster.  The world is every paging segment and every object's cluster map; a step
// is one critical section of one thread, so a run interleaves allocations, completions, unmappings
// and deallocations of all objects in any order.

module Ownership {
  import opened Bitmap
  import opened ClusterMap
  import opened Segment
  import opened Totals
  import opened Wrappers

  // An allocation between ps_select_segment and the bitmap search: a cluster of `seg` for entry k.
  // The object's map lock is held, so an object has at most one.
  datatype Reservation = Reservation(seg: nat, k: nat)

  // The history of a cluster in use: the entry it was handed to, or lost.
  datatype Owner = Cell(o: nat, k: nat) | Leaked

  // `maps[o]` is the flat map of object o (empty once the object is gone), `inflight[o]` its
  // reservation, and `committed` the variable clusters_committed.
  datatype World = World(
    clsize: nat, segs: seq<Seg>, maps: seq<seq<VsMap>>, inflight: seq<Option<Reservation>>,
    owner: map<(nat, nat), Owner>, committed: int)

  function OnSeg(s: nat): Option<Reservation> -> int {
    (r: Option<Reservation>) => if r.Some? && r.value.seg == s then 1 else 0
  }

  function Size(m: seq<VsMap>): int {
    |m|
  }

  ghost function InFlight(w: World, s: nat): int {
    Total(w.inflight, OnSeg(s))
  }

  // ---------------------------------------------------------------- the invariant

  ghost predicate SegOk(w: World, s: nat, g: Seg) {
    && InFlight(w, s) >= 0
    && SegInv(g, InFlight(w, s))
    && g.geo.ncls <= VSM_ENTRY_NULL
    && forall c :: 0 <= c < g.geo.ncls ==> (InUse(g, c) <==> (s, c) in w.owner)
  }

  ghost predicate EntryOk(w: World, o: nat, k: nat, e: VsMap) {
    && (IsClear(e) ==> e.bmap == {} && e.alloc == {})
    && (Mapped(e) ==>
          && e.psindex < |w.segs| && e.entry < w.segs[e.psindex].geo.ncls
          && (e.psindex, e.entry) in w.owner && w.owner[(e.psindex, e.entry)] == Cell(o, k)
          && (forall i :: i in e.bmap ==> i < w.clsize) && (forall i :: i in e.alloc ==> i < w.clsize))
  }

  ghost predicate OwnerOk(w: World, s: nat, c: nat, owner: Owner) {
    && s < |w.segs| && c < w.segs[s].geo.ncls
    && match owner
       case Cell(o, k) =>
         o < |w.maps| && k < |w.maps[o]| && Mapped(w.maps[o][k]) && w.maps[o][k].psindex == s && w.maps[o][k].entry == c
       case Leaked => c == 0
  }

  ghost predicate FlightOk(w: World, o: nat, r: Option<Reservation>) {
    r.Some? && o < |w.maps| ==> r.value.seg < |w.segs| && r.value.k < |w.maps[o]| && IsClear(w.maps[o][r.value.k])
  }

  ghost predicate WorldInv(w: World) {
    && w.clsize > 0 && |w.inflight| == |w.maps|
    && (forall s :: 0 <= s < |w.segs| ==> SegOk(w, s, w.segs[s]))
    && (forall o, k :: 0 <= o < |w.maps| && 0 <= k < |w.maps[o]| ==> EntryOk(w, o, k, w.maps[o][k]))
    && (forall s, c :: (s, c) in w.owner ==> OwnerOk(w, s, c, w.owner[(s, c)]))
    && (forall o :: 0 <= o < |w.inflight| ==> FlightOk(w, o, w.inflight[o]))
    && w.committed == Total(w.maps, Size)
  }

  // ---------------------------------------------------------------- the steps

  datatype Step =
    | AddSegment(g: Seg)
    | Create(n: nat)
    | Extend(o: nat, n: nat)
    | Reserve(o: nat, k: nat, s: nat)
    | Install(o: nat)
    | MarkAlloc(o: nat, k: nat, pages: set<nat>)
    | Complete(o: nat, k: nat, pages: set<nat>)
    | Fail(o: nat, k: nat, error: nat, present: bool)
    | Unmap(o: nat, k: nat, pages: set<nat>)
    | Release(o: nat, k: nat)
    | Drop(o: nat)

  predicate HasEntry(w: World, o: nat, k: nat) {
    o < |w.maps| && k < |w.maps[o]|
  }

  predicate Idle(w: World, o: nat) {
    o < |w.inflight| && w.inflight[o].None?
  }

  // ps_clunmap takes the last pages from an entry.  If the entry is in error, the number it hands to
  // ps_deallocate_cluster is the error code.
  predicate Empties(w: World, st: Step) {
    && st.Unmap? && HasEntry(w, st.o, st.k) && !IsClear(w.maps[st.o][st.k])
    && w.maps[st.o][st.k].alloc - st.pages == {}
  }

  // ps_deallocate_cluster is handed a number that is no cluster of the segment.
  predicate Panics(w: World, st: Step) {
    && Empties(w, st) && w.maps[st.o][st.k].error
    && (w.maps[st.o][st.k].psindex >= |w.segs|
        || w.maps[st.o][st.k].entry >= w.segs[w.maps[st.o][st.k].psindex].geo.ncls)
  }

  // What each piece of code relies on.  Steps on an object need its map lock, hence no reservation in
  // flight; a step that panics is not taken.
  predicate Enabled(w: World, st: Step)
    requires |w.inflight| == |w.maps|
  {
    match st
    case AddSegment(g) =>
      && |g.bmap| == Howmany(g.geo.ncls) && g.clcount == g.geo.ncls <= VSM_ENTRY_NULL && g.hint == 0
      && forall c :: 0 <= c < g.geo.ncls ==> !InUse(g, c)
    case Create(n) => n > 0
    case Extend(o, n) => Idle(w, o) && |w.maps[o]| > 0
    case Reserve(o, k, s) =>
      Idle(w, o) && HasEntry(w, o, k) && IsClear(w.maps[o][k]) && s < |w.segs| && w.segs[s].clcount > 0
    case Install(o) => o < |w.inflight| && w.inflight[o].Some?
    case MarkAlloc(o, k, pages) =>
      Idle(w, o) && HasEntry(w, o, k) && Mapped(w.maps[o][k]) && forall i :: i in pages ==> i < w.clsize
    case Complete(o, k, pages) =>
      Idle(w, o) && HasEntry(w, o, k) && Mapped(w.maps[o][k]) && forall i :: i in pages ==> i < w.clsize
    case Fail(o, k, error, _) => Idle(w, o) && HasEntry(w, o, k) && error > 0
    case Unmap(o, k, _) => Idle(w, o) && HasEntry(w, o, k) && !Panics(w, st)
    case Release(o, k) => Idle(w, o) && HasEntry(w, o, k)
    case Drop(o) => Idle(w, o) && forall k :: 0 <= k < |w.maps[o]| ==> !Mapped(w.maps[o][k])
  }

  function SetEntry(w: World, o: nat, k: nat, e: VsMap): World
    requires HasEntry(w, o, k)
  {
    w.(maps := w.maps[o := w.maps[o][k := e]])
  }

  // ps_deallocate_cluster on the cluster of a mapped entry that becomes e.
  function FreeEntry(w: World, o: nat, k: nat, e: VsMap): World
    requires HasEntry(w, o, k) && w.maps[o][k].psindex < |w.segs|
    requires w.maps[o][k].entry < NBBY * |w.segs[w.maps[o][k].psindex].bmap|
  {
    var (s, c) := (w.maps[o][k].psindex, w.maps[o][k].entry);
    SetEntry(w, o, k, e).(segs := w.segs[s := Freed(w.segs[s], c)], owner := w.owner - {(s, c)})
  }

  function Clears(n: nat): seq<VsMap> {
    seq(n, _ => CLEAR)
  }

  function Stripped(e: VsMap, pages: set<nat>): VsMap {
    e.(bmap := e.bmap - pages, alloc := e.alloc - pages)
  }

  // The error branch of ps_clmap's completion.  An entry still clear records the error if its block
  // exists; a mapped one becomes an error and gives its cluster back, unless the cluster is number 0.
  function FailEntry(w: World, o: nat, k: nat, error: nat, present: bool): World
    requires WorldInv(w) && HasEntry(w, o, k)
  {
    var e := w.maps[o][k];
    if e.error || (IsClear(e) && !present) then w
    else if IsClear(e) then SetEntry(w, o, k, WithError(e, error))
    else if e.entry != 0 then
      BitsCover(w.segs[e.psindex].geo.ncls);
      FreeEntry(w, o, k, WithError(e, error))
    else SetEntry(w, o, k, WithError(e, error)).(owner := w.owner[(e.psindex, e.entry) := Leaked])
  }

  function Take(w: World, st: Step): World
    requires WorldInv(w) && Enabled(w, st)
  {
    match st
    case AddSegment(g) => w.(segs := w.segs + [g])
    case Create(n) => w.(maps := w.maps + [Clears(n)], inflight := w.inflight + [None], committed := w.committed + n)
    case Extend(o, n) =>
      if n <= |w.maps[o]| then w
      else w.(maps := w.maps[o := w.maps[o] + Clears(n - |w.maps[o]|)], committed := w.committed + n - |w.maps[o]|)
    case Reserve(o, k, s) =>
      w.(segs := w.segs[s := Reserved(w.segs[s])], inflight := w.inflight[o := Some(Reservation(s, k))])
    case Install(o) => Installed(w, o)
    case MarkAlloc(o, k, pages) => SetEntry(w, o, k, w.maps[o][k].(alloc := w.maps[o][k].alloc + pages))
    case Complete(o, k, pages) => SetEntry(w, o, k, w.maps[o][k].(bmap := w.maps[o][k].bmap + pages))
    case Fail(o, k, error, present) => FailEntry(w, o, k, error, present)
    case Unmap(o, k, pages) =>
      var e := w.maps[o][k];
      if IsClear(e) then w
      else if e.alloc - pages == {} then
        assert e.error ==> SegOk(w, e.psindex, w.segs[e.psindex]);
        BitsCover(w.segs[e.psindex].geo.ncls);
        FreeEntry(w, o, k, CLEAR)
      else SetEntry(w, o, k, Stripped(e, pages))
    case Release(o, k) =>
      if Mapped(w.maps[o][k]) then
        BitsCover(w.segs[w.maps[o][k].psindex].geo.ncls);
        FreeEntry(w, o, k, CLEAR)
      else w
    case Drop(o) => w.(maps := w.maps[o := []], committed := w.committed - |w.maps[o]|)
  }

  // The search finds a cluster for the reservation, and the entry takes it.
  function Installed(w: World, o: nat): World
    requires WorldInv(w) && o < |w.inflight| && w.inflight[o].Some?
  {
    var Reservation(s, k) := w.inflight[o].value;
    ReservationCounts(w, o);
    SearchSucceeds(w.segs[s], InFlight(w, s));
    var c := FoundAt(w.segs[s]);
    SetEntry(w, o, k, WithCluster(CLEAR, c, s)).(
      segs := w.segs[s := Found(w.segs[s])], inflight := w.inflight[o := None], owner := w.owner[(s, c) := Cell(o, k)])
  }

  lemma ReservationCounts(w: World, o: nat)
    requires o < |w.inflight| && w.inflight[o].Some?
    ensures InFlight(w, w.inflight[o].value.seg) > 0
  {
    TotalBounds(w.inflight, OnSeg(w.inflight[o].value.seg));
  }

  // ---------------------------------------------------------------- every step keeps the invariant

  // Changing an entry without touching the cluster it is mapped to, if any.
  lemma SetEntryKeepsInv(w: World, o: nat, k: nat, e: VsMap)
    requires WorldInv(w) && HasEntry(w, o, k) && Idle(w, o)
    requires EntryOk(w, o, k, e)
    requires Mapped(e) <==> Mapped(w.maps[o][k])
    requires Mapped(e) ==> e.psindex == w.maps[o][k].psindex && e.entry == w.maps[o][k].entry
    ensures WorldInv(SetEntry(w, o, k, e))
  {
    var u := SetEntry(w, o, k, e);
    TotalUpdate(w.maps, o, w.maps[o][k := e], Size);
    forall s | 0 <= s < |u.segs| ensures SegOk(u, s, u.segs[s]) {
      assert SegOk(w, s, w.segs[s]);
    }
    forall o', k' | 0 <= o' < |u.maps| && 0 <= k' < |u.maps[o']| ensures EntryOk(u, o', k', u.maps[o'][k']) {
      assert o' != o || k' != k ==> u.maps[o'][k'] == w.maps[o'][k'];
    }
    forall s, c | (s, c) in u.owner ensures OwnerOk(u, s, c, u.owner[(s, c)]) {
      assert OwnerOk(w, s, c, w.owner[(s, c)]);
    }
    forall o' | 0 <= o' < |u.inflight| ensures FlightOk(u, o', u.inflight[o']) {
      assert FlightOk(w, o', w.inflight[o']);
    }
  }

  // The cluster of a mapped entry can be freed.
  lemma MappedClusterInUse(w: World, o: nat, k: nat)
    requires WorldInv(w) && HasEntry(w, o, k) && Mapped(w.maps[o][k])
    ensures var (s, c) := (w.maps[o][k].psindex, w.maps[o][k].entry);
      && s < |w.segs| && SegOk(w, s, w.segs[s]) && c < w.segs[s].geo.ncls && c < NBBY * |w.segs[s].bmap|
      && InUse(w.segs[s], c) && (s, c) in w.owner && w.owner[(s, c)] == Cell(o, k)
  {
    assert EntryOk(w, o, k, w.maps[o][k]);
    var s := w.maps[o][k].psindex;
    assert SegOk(w, s, w.segs[s]);
    BitsCover(w.segs[s].geo.ncls);
  }

  // Unmapping an entry and freeing its cluster.
  lemma FreeEntryKeepsInv(w: World, o: nat, k: nat, e: VsMap)
    requires WorldInv(w) && HasEntry(w, o, k) && Idle(w, o) && Mapped(w.maps[o][k])
    requires !Mapped(e) && EntryOk(w, o, k, e)
    ensures w.maps[o][k].psindex < |w.segs| && w.maps[o][k].entry < NBBY * |w.segs[w.maps[o][k].psindex].bmap|
    ensures WorldInv(FreeEntry(w, o, k, e))
  {
    MappedClusterInUse(w, o, k);
    FreeReturnableKeepsInv(w, o, k, e);
  }

  // The number in an entry is that of a cluster it owns, or of one that is lost.
  ghost predicate Returnable(w: World, o: nat, k: nat) {
    HasEntry(w, o, k) &&
    var (e, x) := (w.maps[o][k], (w.maps[o][k].psindex, w.maps[o][k].entry));
    && x.0 < |w.segs| && x.1 < w.segs[x.0].geo.ncls && x in w.owner
    && (w.owner[x] == Cell(o, k) || (w.owner[x].Leaked? && !Mapped(e)))
  }

  lemma ReturnableInUse(w: World, o: nat, k: nat)
    requires WorldInv(w) && Returnable(w, o, k)
    ensures var (s, c) := (w.maps[o][k].psindex, w.maps[o][k].entry);
      c < NBBY * |w.segs[s].bmap| && InUse(w.segs[s], c) && SegOk(w, s, w.segs[s])
  {
    var s := w.maps[o][k].psindex;
    assert SegOk(w, s, w.segs[s]);
    BitsCover(w.segs[s].geo.ncls);
  }

  lemma FreeReturnableKeepsInv(w: World, o: nat, k: nat, e: VsMap)
    requires WorldInv(w) && Returnable(w, o, k) && Idle(w, o)
    requires !Mapped(e) && EntryOk(w, o, k, e)
    ensures w.maps[o][k].psindex < |w.segs| && w.maps[o][k].entry < NBBY * |w.segs[w.maps[o][k].psindex].bmap|
    ensures WorldInv(FreeEntry(w, o, k, e))
  {
    ReturnableInUse(w, o, k);
    var u := FreeEntry(w, o, k, e);
    TotalUpdate(w.maps, o, w.maps[o][k := e], Size);
    FreeKeepsSegments(w, o, k, e);
    FreeKeepsEntries(w, o, k, e);
    forall s', c' | (s', c') in u.owner ensures OwnerOk(u, s', c', u.owner[(s', c')]) {
      assert OwnerOk(w, s', c', w.owner[(s', c')]);
    }
    forall o' | 0 <= o' < |u.inflight| ensures FlightOk(u, o', u.inflight[o']) {
      assert FlightOk(w, o', w.inflight[o']);
    }
  }

  lemma FreeKeepsSegments(w: World, o: nat, k: nat, e: VsMap)
    requires WorldInv(w) && Returnable(w, o, k)
    requires w.maps[o][k].entry < NBBY * |w.segs[w.maps[o][k].psindex].bmap|
    ensures var u := FreeEntry(w, o, k, e); forall s :: 0 <= s < |u.segs| ==> SegOk(u, s, u.segs[s])
  {
    ReturnableInUse(w, o, k);
    var (s, c) := (w.maps[o][k].psindex, w.maps[o][k].entry);
    FreeKeepsInv(w.segs[s], InFlight(w, s), c);
    var u := FreeEntry(w, o, k, e);
    forall s' | 0 <= s' < |u.segs| ensures SegOk(u, s', u.segs[s']) {
      assert SegOk(w, s', w.segs[s']);
    }
  }

  lemma FreeKeepsEntries(w: World, o: nat, k: nat, e: VsMap)
    requires WorldInv(w) && Returnable(w, o, k)
    requires w.maps[o][k].entry < NBBY * |w.segs[w.maps[o][k].psindex].bmap|
    requires !Mapped(e) && EntryOk(w, o, k, e)
    ensures var u := FreeEntry(w, o, k, e);
      forall o', k' :: 0 <= o' < |u.maps| && 0 <= k' < |u.maps[o']| ==> EntryOk(u, o', k', u.maps[o'][k'])
  {
    var u := FreeEntry(w, o, k, e);
    forall o', k' | 0 <= o' < |u.maps| && 0 <= k' < |u.maps[o']| ensures EntryOk(u, o', k', u.maps[o'][k']) {
      if o' != o || k' != k {
        assert u.maps[o'][k'] == w.maps[o'][k'];
        assert EntryOk(w, o', k', w.maps[o'][k']);
      }
    }
  }

  lemma ReserveKeepsWorld(w: World, o: nat, k: nat, s: nat)
    requires WorldInv(w) && Enabled(w, Reserve(o, k, s))
    ensures WorldInv(Take(w, Reserve(o, k, s)))
  {
    var u := Take(w, Reserve(o, k, s));
    ReserveKeepsSegments(w, o, k, s);
    forall o', k' | 0 <= o' < |u.maps| && 0 <= k' < |u.maps[o']| ensures EntryOk(u, o', k', u.maps[o'][k']) {
      assert EntryOk(w, o', k', w.maps[o'][k']);
    }
    forall s', c' | (s', c') in u.owner ensures OwnerOk(u, s', c', u.owner[(s', c')]) {
      assert OwnerOk(w, s', c', w.owner[(s', c')]);
    }
    forall o' | 0 <= o' < |u.inflight| ensures FlightOk(u, o', u.inflight[o']) {
      assert FlightOk(w, o', w.inflight[o']);
    }
  }

  lemma ReserveKeepsSegments(w: World, o: nat, k: nat, s: nat)
    requires WorldInv(w) && Enabled(w, Reserve(o, k, s))
    ensures var u := Take(w, Reserve(o, k, s)); forall s' :: 0 <= s' < |u.segs| ==> SegOk(u, s', u.segs[s'])
  {
    var u := Take(w, Reserve(o, k, s));
    forall s' | 0 <= s' < |u.segs| ensures SegOk(u, s', u.segs[s']) {
      assert SegOk(w, s', w.segs[s']);
      TotalUpdate(w.inflight, o, Some(Reservation(s, k)), OnSeg(s'));
      if s' == s {
        ReserveKeepsInv(w.segs[s], InFlight(w, s));
      }
    }
  }

  // A reservation is honoured whatever the other threads have done since it was made: the search
  // finds a cluster that nobody owns.
  lemma InstallFindsFreeCluster(w: World, o: nat)
    requires WorldInv(w) && o < |w.inflight| && w.inflight[o].Some?
    ensures var s := w.inflight[o].value.seg;
      && s < |w.segs| && InFlight(w, s) > 0 && w.segs[s].hint <= |w.segs[s].bmap|
      && FoundAt(w.segs[s]) < w.segs[s].geo.ncls && (s, FoundAt(w.segs[s])) !in w.owner
      && SegInv(Found(w.segs[s]), InFlight(w, s) - 1)
  {
    ReservationCounts(w, o);
    assert FlightOk(w, o, w.inflight[o]);
    var s := w.inflight[o].value.seg;
    assert SegOk(w, s, w.segs[s]);
    SearchSucceeds(w.segs[s], InFlight(w, s));
  }

  lemma InstallKeepsWorld(w: World, o: nat)
    requires WorldInv(w) && o < |w.inflight| && w.inflight[o].Some?
    ensures WorldInv(Installed(w, o))
  {
    var Reservation(s, k) := w.inflight[o].value;
    InstallFindsFreeCluster(w, o);
    assert FlightOk(w, o, w.inflight[o]) && SegOk(w, s, w.segs[s]);
    var c := FoundAt(w.segs[s]);
    SearchSucceeds(w.segs[s], InFlight(w, s));
    var u := Installed(w, o);
    ClusterNumberFits(c, s);
    TotalUpdate(w.maps, o, w.maps[o][k := u.maps[o][k]], Size);
    forall s' | 0 <= s' < |u.segs| ensures SegOk(u, s', u.segs[s']) {
      assert SegOk(w, s', w.segs[s']);
      TotalUpdate(w.inflight, o, None, OnSeg(s'));
    }
    InstallKeepsEntries(w, o, u);
    forall o' | 0 <= o' < |u.inflight| ensures FlightOk(u, o', u.inflight[o']) {
      assert FlightOk(w, o', w.inflight[o']);
    }
  }

  lemma InstallKeepsEntries(w: World, o: nat, u: World)
    requires WorldInv(w) && o < |w.inflight| && w.inflight[o].Some? && u == Installed(w, o)
    ensures forall o', k' :: 0 <= o' < |u.maps| && 0 <= k' < |u.maps[o']| ==> EntryOk(u, o', k', u.maps[o'][k'])
    ensures forall s', c' :: (s', c') in u.owner ==> OwnerOk(u, s', c', u.owner[(s', c')])
  {
    var Reservation(s, k) := w.inflight[o].value;
    InstallFindsFreeCluster(w, o);
    assert FlightOk(w, o, w.inflight[o]) && SegOk(w, s, w.segs[s]);
    var c := FoundAt(w.segs[s]);
    ClusterNumberFits(c, s);
    assert u.maps[o][k] == WithCluster(CLEAR, c, s);
    forall o', k' | 0 <= o' < |u.maps| && 0 <= k' < |u.maps[o']| ensures EntryOk(u, o', k', u.maps[o'][k']) {
      if o' != o || k' != k {
        assert u.maps[o'][k'] == w.maps[o'][k'];
        assert EntryOk(w, o', k', w.maps[o'][k']);
      }
    }
    forall s', c' | (s', c') in u.owner ensures OwnerOk(u, s', c', u.owner[(s', c')]) {
      if (s', c') != (s, c) {
        assert OwnerOk(w, s', c', w.owner[(s', c')]);
      }
    }
  }

  lemma AddSegmentKeepsWorld(w: World, g: Seg)
    requires WorldInv(w) && Enabled(w, AddSegment(g))
    ensures WorldInv(Take(w, AddSegment(g)))
  {
    var u := Take(w, AddSegment(g));
    var n := |w.segs|;
    forall o | 0 <= o < |w.inflight| ensures OnSeg(n)(w.inflight[o]) == 0 {
      assert FlightOk(w, o, w.inflight[o]);
    }
    TotalBounds(w.inflight, OnSeg(n));
    FreshSegment(g);
    forall s: nat, c: nat | (s, c) in w.owner ensures s < n {
      assert OwnerOk(w, s, c, w.owner[(s, c)]);
    }
    forall s | 0 <= s < |u.segs| ensures SegOk(u, s, u.segs[s]) {
      if s < n {
        assert SegOk(w, s, w.segs[s]);
      }
    }
    forall o, k | 0 <= o < |u.maps| && 0 <= k < |u.maps[o]| ensures EntryOk(u, o, k, u.maps[o][k]) {
      assert EntryOk(w, o, k, w.maps[o][k]);
    }
    forall s, c | (s, c) in u.owner ensures OwnerOk(u, s, c, u.owner[(s, c)]) {
      assert OwnerOk(w, s, c, w.owner[(s, c)]);
    }
    forall o | 0 <= o < |u.inflight| ensures FlightOk(u, o, u.inflight[o]) {
      assert FlightOk(w, o, w.inflight[o]);
    }
  }

  // Changes of one object's size: a new object, more clear clusters at its end, or its removal.
  lemma ResizeKeepsWorld(w: World, o: nat, m: seq<VsMap>)
    requires WorldInv(w) && o < |w.maps| && Idle(w, o)
    requires (w.maps[o] <= m && forall k :: |w.maps[o]| <= k < |m| ==> m[k] == CLEAR)
      || (m == [] && forall k :: 0 <= k < |w.maps[o]| ==> !Mapped(w.maps[o][k]))
    ensures WorldInv(w.(maps := w.maps[o := m], committed := w.committed - |w.maps[o]| + |m|))
  {
    var u := w.(maps := w.maps[o := m], committed := w.committed - |w.maps[o]| + |m|);
    TotalUpdate(w.maps, o, m, Size);
    forall s | 0 <= s < |u.segs| ensures SegOk(u, s, u.segs[s]) {
      assert SegOk(w, s, w.segs[s]);
    }
    forall o', k | 0 <= o' < |u.maps| && 0 <= k < |u.maps[o']| ensures EntryOk(u, o', k, u.maps[o'][k]) {
      if k < |w.maps[o']| {
        assert EntryOk(w, o', k, w.maps[o'][k]);
      }
    }
    forall s, c | (s, c) in u.owner ensures OwnerOk(u, s, c, u.owner[(s, c)]) {
      assert OwnerOk(w, s, c, w.owner[(s, c)]);
    }
    forall o' | 0 <= o' < |u.inflight| ensures FlightOk(u, o', u.inflight[o']) {
      assert FlightOk(w, o', w.inflight[o']);
    }
  }

  lemma CreateKeepsWorld(w: World, n: nat)
    requires WorldInv(w) && n > 0
    ensures WorldInv(Take(w, Create(n)))
  {
    var u := Take(w, Create(n));
    TotalAppend(w.maps, Clears(n), Size);
    forall s | 0 <= s < |u.segs| ensures SegOk(u, s, u.segs[s]) {
      assert SegOk(w, s, w.segs[s]);
      TotalAppend(w.inflight, None, OnSeg(s));
    }
    forall o, k | 0 <= o < |u.maps| && 0 <= k < |u.maps[o]| ensures EntryOk(u, o, k, u.maps[o][k]) {
      if o < |w.maps| {
        assert EntryOk(w, o, k, w.maps[o][k]);
      }
    }
    forall s, c | (s, c) in u.owner ensures OwnerOk(u, s, c, u.owner[(s, c)]) {
      assert OwnerOk(w, s, c, w.owner[(s, c)]);
    }
    forall o | 0 <= o < |u.inflight| ensures FlightOk(u, o, u.inflight[o]) {
      if o < |w.inflight| {
        assert FlightOk(w, o, w.inflight[o]);
      }
    }
  }

  // The failed write that loses its cluster.
  lemma LeakKeepsWorld(w: World, o: nat, k: nat, e: VsMap)
    requires WorldInv(w) && HasEntry(w, o, k) && Idle(w, o) && Mapped(w.maps[o][k]) && w.maps[o][k].entry == 0
    requires !Mapped(e) && !IsClear(e)
    ensures WorldInv(SetEntry(w, o, k, e).(owner := w.owner[(w.maps[o][k].psindex, w.maps[o][k].entry) := Leaked]))
  {
    MappedClusterInUse(w, o, k);
    var s := w.maps[o][k].psindex;
    var u := SetEntry(w, o, k, e).(owner := w.owner[(s, 0) := Leaked]);
    TotalUpdate(w.maps, o, w.maps[o][k := e], Size);
    forall s' | 0 <= s' < |u.segs| ensures SegOk(u, s', u.segs[s']) {
      assert SegOk(w, s', w.segs[s']);
    }
    forall o', k' | 0 <= o' < |u.maps| && 0 <= k' < |u.maps[o']| ensures EntryOk(u, o', k', u.maps[o'][k']) {
      if o' != o || k' != k {
        assert u.maps[o'][k'] == w.maps[o'][k'];
        assert EntryOk(w, o', k', w.maps[o'][k']);
      }
    }
    forall s', c' | (s', c') in u.owner ensures OwnerOk(u, s', c', u.owner[(s', c')]) {
      if (s', c') != (s, 0) {
        assert OwnerOk(w, s', c', w.owner[(s', c')]);
      }
    }
    forall o' | 0 <= o' < |u.inflight| ensures FlightOk(u, o', u.inflight[o']) {
      assert FlightOk(w, o', w.inflight[o']);
    }
  }

  // A step is sound unless it frees an error code; then it is sound only if the code is the number of
  // a lost cluster, which it gives back.
  predicate Sound(w: World, st: Step) {
    Empties(w, st) && w.maps[st.o][st.k].error ==>
      var x := (w.maps[st.o][st.k].psindex, w.maps[st.o][st.k].entry);
      x in w.owner && w.owner[x].Leaked?
  }

  lemma StepKeepsWorld(w: World, st: Step)
    requires WorldInv(w) && Enabled(w, st) && Sound(w, st)
    ensures WorldInv(Take(w, st))
  {
    match st
    case AddSegment(g) => AddSegmentKeepsWorld(w, g);
    case Create(n) => CreateKeepsWorld(w, n);
    case Extend(o, n) =>
      if n > |w.maps[o]| {
        ResizeKeepsWorld(w, o, w.maps[o] + Clears(n - |w.maps[o]|));
      }
    case Reserve(o, k, s) => ReserveKeepsWorld(w, o, k, s);
    case Install(o) => InstallKeepsWorld(w, o);
    case Fail(o, k, error, present) => FailKeepsWorld(w, o, k, error, present);
    case Unmap(o, k, pages) => UnmapKeepsWorld(w, o, k, pages);
    case Drop(o) => ResizeKeepsWorld(w, o, []);
    case _ => EntryStepKeepsWorld(w, st);
  }

  lemma EntryStepKeepsWorld(w: World, st: Step)
    requires WorldInv(w) && Enabled(w, st) && (st.MarkAlloc? || st.Complete? || st.Release?)
    ensures WorldInv(Take(w, st))
  {
    var e := w.maps[st.o][st.k];
    assert EntryOk(w, st.o, st.k, e);
    match st
    case MarkAlloc(o, k, pages) => SetEntryKeepsInv(w, o, k, e.(alloc := e.alloc + pages));
    case Complete(o, k, pages) => SetEntryKeepsInv(w, o, k, e.(bmap := e.bmap + pages));
    case Release(o, k) =>
      if Mapped(e) {
        FreeEntryKeepsInv(w, o, k, CLEAR);
      }
  }

  lemma UnmapKeepsWorld(w: World, o: nat, k: nat, pages: set<nat>)
    requires WorldInv(w) && Enabled(w, Unmap(o, k, pages)) && Sound(w, Unmap(o, k, pages))
    ensures WorldInv(Take(w, Unmap(o, k, pages)))
  {
    var e := w.maps[o][k];
    assert EntryOk(w, o, k, e);
    if Empties(w, Unmap(o, k, pages)) {
      if e.error {
        FreeReturnableKeepsInv(w, o, k, CLEAR);
      } else {
        FreeEntryKeepsInv(w, o, k, CLEAR);
      }
    } else if !IsClear(e) {
      SetEntryKeepsInv(w, o, k, Stripped(e, pages));
    }
  }

  lemma FailKeepsWorld(w: World, o: nat, k: nat, error: nat, present: bool)
    requires WorldInv(w) && HasEntry(w, o, k) && Idle(w, o)
    ensures WorldInv(FailEntry(w, o, k, error, present))
  {
    var e := w.maps[o][k];
    assert EntryOk(w, o, k, e);
    if IsClear(e) && present {
      SetEntryKeepsInv(w, o, k, WithError(e, error));
    } else if Mapped(e) && e.entry != 0 {
      FreeEntryKeepsInv(w, o, k, WithError(e, error));
    } else if Mapped(e) {
      LeakKeepsWorld(w, o, k, WithError(e, error));
    }
  }

  // A failed write leaves its error in the entry, in 23 bits, if the entry was mapped or its block is
  // there to record it; an entry in error keeps the error that it has.
  lemma FailRecords(w: World, o: nat, k: nat, error: nat, present: bool)
    requires WorldInv(w) && HasEntry(w, o, k)
    ensures var (e, u) := (w.maps[o][k], FailEntry(w, o, k, error, present));
      && HasEntry(u, o, k)
      && (Mapped(e) || (IsClear(e) && present) ==> u.maps[o][k] == e.(error := true, entry := error % VSM_ENTRY_LIMIT))
      && (e.error || (IsClear(e) && !present) ==> u == w)
  {
    assert EntryOk(w, o, k, w.maps[o][k]);
  }

  // The step unmaps or releases entry k of object o, or removes the object.
  predicate Vacates(st: Step, o: nat, k: nat) {
    ((st.Unmap? || st.Release?) && st.o == o && st.k == k) || st == Drop(o)
  }

  // An error stays in its entry until the entry is unmapped or the object goes.
  lemma ErrorStays(w: World, st: Step, o: nat, k: nat)
    requires WorldInv(w) && Enabled(w, st) && HasEntry(w, o, k) && w.maps[o][k].error && !Vacates(st, o, k)
    ensures HasEntry(Take(w, st), o, k) && Take(w, st).maps[o][k] == w.maps[o][k]
  {
    if st.Install? {
      assert FlightOk(w, st.o, w.inflight[st.o]);
    }
  }

  predicate Holds(w: World, o: nat, k: nat, s: nat, c: nat) {
    HasEntry(w, o, k) && Mapped(w.maps[o][k]) && w.maps[o][k].psindex == s && w.maps[o][k].entry == c
  }

  // An unsound step takes a used bit away from another entry's cluster, or counts a free cluster twice.
  lemma UnsoundStep(w: World, st: Step)
    requires WorldInv(w) && Enabled(w, st) && !Sound(w, st)
    ensures !WorldInv(Take(w, st))
    ensures var (s, c) := (w.maps[st.o][st.k].psindex, w.maps[st.o][st.k].entry); var u := Take(w, st);
      && s < |w.segs| && c < w.segs[s].geo.ncls && !InUse(u.segs[s], c)
      && u.segs[s].clcount == w.segs[s].clcount + 1
      && ((s, c) in w.owner <==> InUse(w.segs[s], c))
      && ((s, c) in w.owner ==> w.owner[(s, c)].Cell? && Holds(u, w.owner[(s, c)].o, w.owner[(s, c)].k, s, c))
  {
    var (s, c) := (w.maps[st.o][st.k].psindex, w.maps[st.o][st.k].entry);
    var g, u := w.segs[s], Take(w, st);
    assert SegOk(w, s, g);
    BitsCover(g.geo.ncls);
    UsedAfterOne(g.bmap, Clear(g.bmap, c), c, g.geo.ncls);
    if (s, c) in w.owner {
      assert OwnerOk(w, s, c, w.owner[(s, c)]);
      var Cell(o', k') := w.owner[(s, c)];
      assert u.maps[o'][k'] == w.maps[o'][k'];
      assert !EntryOk(u, o', k', u.maps[o'][k']);
    } else {
      assert !SegOk(u, s, u.segs[s]);
    }
  }

  // So soundness is the exact condition for a step to keep the ownership of clusters.
  lemma StepExactly(w: World, st: Step)
    requires WorldInv(w) && Enabled(w, st)
    ensures WorldInv(Take(w, st)) <==> Sound(w, st)
  {
    if Sound(w, st) {
      StepKeepsWorld(w, st);
    } else {
      UnsoundStep(w, st);
    }
  }

  // ---------------------------------------------------------------- every reachable world

  ghost predicate Reaches(w: World, steps: seq<Step>, u: World)
    decreases steps
  {
    if steps == [] then u == w
    else WorldInv(w) && Enabled(w, steps[0]) && Reaches(Take(w, steps[0]), steps[1..], u)
  }

  // Every step of a run is sound.
  ghost predicate SoundRun(w: World, steps: seq<Step>)
    decreases steps
  {
    steps != [] && WorldInv(w) && Enabled(w, steps[0]) ==>
      Sound(w, steps[0]) && SoundRun(Take(w, steps[0]), steps[1..])
  }

  lemma {:induction false} ErrorStaysOverRun(w: World, steps: seq<Step>, u: World, o: nat, k: nat)
    requires WorldInv(w) && Reaches(w, steps, u) && HasEntry(w, o, k) && w.maps[o][k].error
    requires forall i :: 0 <= i < |steps| ==> !Vacates(steps[i], o, k)
    ensures HasEntry(u, o, k) && u.maps[o][k] == w.maps[o][k]
    decreases steps
  {
    if steps != [] {
      ErrorStays(w, steps[0], o, k);
      if WorldInv(Take(w, steps[0])) {
        ErrorStaysOverRun(Take(w, steps[0]), steps[1..], u, o, k);
      }
    }
  }

  function Empty(clsize: nat): World {
    World(clsize, [], [], [], map[], 0)
  }

  lemma {:induction false} RunKeepsWorld(w: World, steps: seq<Step>, u: World)
    requires WorldInv(w) && Reaches(w, steps, u)
    ensures WorldInv(u) <==> SoundRun(w, steps)
    decreases steps
  {
    if steps != [] {
      StepExactly(w, steps[0]);
      if Sound(w, steps[0]) {
        RunKeepsWorld(Take(w, steps[0]), steps[1..], u);
      }
    }
  }

  // No two entries of any objects share a cluster; the bit of a mapped entry's cluster is set; and a
  // set bit belongs to a mapped entry, or else is that of a lost cluster, number 0 of its segment.
  lemma ClustersAreOwned(clsize: nat, steps: seq<Step>, u: World, s: nat, c: nat)
    requires clsize > 0 && Reaches(Empty(clsize), steps, u) && SoundRun(Empty(clsize), steps)
    ensures forall o: nat, k: nat, o': nat, k': nat :: Holds(u, o, k, s, c) && Holds(u, o', k', s, c) ==>
      o == o' && k == k'
    ensures forall o: nat, k: nat :: Holds(u, o, k, s, c) ==>
      s < |u.segs| && c < u.segs[s].geo.ncls && InUse(u.segs[s], c)
    ensures s < |u.segs| && c < u.segs[s].geo.ncls && InUse(u.segs[s], c) ==>
      (exists o: nat, k: nat :: Holds(u, o, k, s, c)) || (c == 0 && (s, c) in u.owner && u.owner[(s, c)].Leaked?)
    ensures u.committed == Total(u.maps, Size)
  {
    RunKeepsWorld(Empty(clsize), steps, u);
    forall o: nat, k: nat | Holds(u, o, k, s, c)
      ensures s < |u.segs| && c < u.segs[s].geo.ncls && InUse(u.segs[s], c) && (s, c) in u.owner
        && u.owner[(s, c)] == Cell(o, k)
    {
      MappedClusterInUse(u, o, k);
    }
    if s < |u.segs| && c < u.segs[s].geo.ncls && InUse(u.segs[s], c) {
      assert SegOk(u, s, u.segs[s]);
      assert OwnerOk(u, s, c, u.owner[(s, c)]);
      if u.owner[(s, c)].Cell? {
        assert Holds(u, u.owner[(s, c)].o, u.owner[(s, c)].k, s, c);
      }
    }
  }

  // A cluster is lost exactly by a failed write whose cluster is number 0 of its segment.
  lemma LeaksExactly(w: World, st: Step, x: (nat, nat))
    requires WorldInv(w) && Enabled(w, st)
    requires x !in w.owner || !w.owner[x].Leaked?
    ensures x in Take(w, st).owner && Take(w, st).owner[x].Leaked?
      <==> st.Fail? && Mapped(w.maps[st.o][st.k]) && w.maps[st.o][st.k].entry == 0
           && x == (w.maps[st.o][st.k].psindex, 0)
  {
    if st.Install? {
      InstallFindsFreeCluster(w, st.o);
    } else if (st.Fail? || st.Unmap? || st.Release?) && Mapped(w.maps[st.o][st.k]) {
      MappedClusterInUse(w, st.o, st.k);
    }
  }
}