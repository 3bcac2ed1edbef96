// Runs of a whole pager at the grain of single chunks.  A move is one critical section of the map, the
// start or the end of one device write, or one of the three parts of reading a run of pages: finding
// it, the device read, and the supply.  Moves of any number of requests interleave in any order.

module PageRuns {
  import opened Arithmetic
  import opened ClusterMap
  import opened Device
  import opened Ownership
  import opened PageStore
  import opened Paging
  import opened Reading
  import opened Segment
  import opened Transfers
  import opened Wrappers
  import opened Writing

  // A run of n present pages that has been found, and later what the device gave of it.
  datatype Fetch = Fetch(o: nat, first: nat, n: nat, seg: nat, cluster: nat, data: Option<seq<Bytes>>)

  // `fetches` are the reads in progress, each with a number of its own.
  datatype State = State(st: Store, fetches: map<nat, Fetch>, h: seq<Event>)

  datatype Move =
    | Map(step: Step)
    | Start(r: Request)
    | End(i: nat, wrote: seq<Bytes>, error: nat)
    | Refusal(o: nat, f: nat, n: nat, error: nat, present: bool)
    | Find(id: nat, o: nat, first: nat, n: nat)
    | Read(id: nat, counts: seq<nat>)
    | Supply(id: nat)
    | Destroy(o: nat)

  predicate IsMapStep(step: Step) {
    step.AddSegment? || step.Create? || step.Extend? || step.Reserve? || step.Install? || step.MarkAlloc?
  }

  ghost predicate FetchOk(st: Store, f: Fetch)
    requires st.w.clsize > 0
  {
    && f.n > 0 && Index(st.w, f.first) + f.n <= st.w.clsize && HasEntry(st.w, f.o, Cluster(st.w, f.first))
    && f.seg < |st.w.segs| && f.cluster < st.w.segs[f.seg].geo.ncls
    && (f.data.Some? ==> |f.data.value| <= f.n)
  }

  ghost predicate StateInv(s: State) {
    && StoreInv(s.st) && Faithful(s.st, s.h)
    && forall id :: id in s.fetches ==> FetchOk(s.st, s.fetches[id])
  }

  // ---------------------------------------------------------------- what can happen

  // A new segment has passed the overlap test, and its clusters fit in it.
  ghost predicate SegmentFits(st: Store, g: Seg) {
    && GeometryOk(g.geo, st.shift, st.w.clsize)
    && forall s :: 0 <= s < |st.w.segs| ==> Apart(st.w.segs[s].geo, g.geo)
  }

  // What the code can do.  A write that has been started goes where it was sent, whoever has the
  // cluster by then; an object is destroyed with no transfer of it in progress.
  ghost predicate Possible(s: State, m: Move)
    requires StateInv(s)
  {
    var (st, w) := (s.st, s.st.w);
    match m
    case Map(step) => IsMapStep(step) && Enabled(w, step) && (step.AddSegment? ==> SegmentFits(st, step.g))
    case Start(r) => RequestOk(st, r)
    case End(i, wrote, error) =>
      i < |st.out| && Outcome(st, st.out[i], wrote, error) && st.out[i].o < |w.inflight| && Idle(w, st.out[i].o)
    case Refusal(o, _, _, error, _) => error > 0 && (o < |w.maps| ==> Idle(w, o))
    case Find(id, o, first, n) => id !in s.fetches && n > 0 && Idle(w, o) && Present(w, o, first, n)
    case Read(id, _) => id in s.fetches && s.fetches[id].data.None?
    case Supply(id) =>
      && id in s.fetches && s.fetches[id].data.Some?
      && (s.fetches[id].data.value != [] ==> Enabled(w, Supplying(s, id)))
    case Destroy(o) =>
      o < |w.maps| && Idle(w, o) && NoRequests(st, o) && forall id :: id in s.fetches ==> s.fetches[id].o != o
  }

  // The unmapping of what a fetch has brought.
  function Supplying(s: State, id: nat): Step
    requires s.st.w.clsize > 0 && id in s.fetches && s.fetches[id].data.Some?
  {
    Forgetting(s.st.w, s.fetches[id].o, s.fetches[id].first, |s.fetches[id].data.value|)
  }

  // Exactly when a move does no harm: the end of a write harms no page; and a supply neither takes the
  // last pages from an entry in error, whose error code is then freed, nor frees a cluster under a page
  // that has data.
  ghost predicate Careful(s: State, m: Move)
    requires StateInv(s) && Possible(s, m)
  {
    match m
    case End(i, wrote, error) =>
      assert RequestOk(s.st, s.st.out[i]);
      Harmless(s.st, s.st.out[i], wrote, error)
    case Supply(id) => s.fetches[id].data.value != [] ==> Sound(s.st.w, Supplying(s, id)) && !StrandsPages(s, id)
    case _ => true
  }

  // The cluster is freed under a page that has data and is not supplied.
  predicate StrandsPages(s: State, id: nat)
    requires s.st.w.clsize > 0 && id in s.fetches && s.fetches[id].data.Some?
    requires HasEntry(s.st.w, s.fetches[id].o, Cluster(s.st.w, s.fetches[id].first))
  {
    var f := s.fetches[id];
    Strands(s.st.w, f.o, f.first, |f.data.value|)
  }

  // ---------------------------------------------------------------- what happens

  // Of all maps only that of object o has changed, whose first k entries have given back their clusters.
  ghost predicate PartGiven(w: World, u: World, o: nat, k: nat) {
    && WorldInv(u) && SameSegments(w, u) && |u.segs| == |w.segs| && u.inflight == w.inflight
    && |u.maps| == |w.maps| && o < |w.maps| && |u.maps[o]| == |w.maps[o]| && k <= |u.maps[o]|
    && (forall o' :: 0 <= o' < |w.maps| && o' != o ==> u.maps[o'] == w.maps[o'])
    && forall j :: 0 <= j < k ==> !Mapped(u.maps[o][j])
  }

  lemma NoneGiven(w: World, o: nat)
    requires WorldInv(w) && o < |w.maps|
    ensures PartGiven(w, w, o, 0)
  {
  }

  lemma PartGivenMore(w: World, u: World, o: nat, k: nat)
    requires PartGiven(w, u, o, k) && k < |w.maps[o]| && Idle(u, o)
    ensures PartGiven(w, Give(u, o, k), o, k + 1)
  {
    GivenWorld(u, o, k);
  }

  ghost function GiveNext(w: World, u: World, o: nat, k: nat): (v: World)
    requires PartGiven(w, u, o, k) && k < |w.maps[o]| && Idle(w, o)
    ensures PartGiven(w, v, o, k + 1)
  {
    PartGivenMore(w, u, o, k);
    Give(u, o, k)
  }

  // ps_vstruct_dealloc, up to entry k.
  ghost function GiveAll(w: World, o: nat, k: nat): (u: World)
    requires WorldInv(w) && o < |w.maps| && Idle(w, o) && k <= |w.maps[o]|
    ensures PartGiven(w, u, o, k)
  {
    if k == 0 then
      NoneGiven(w, o);
      w
    else GiveNext(w, GiveAll(w, o, k - 1), o, k - 1)
  }

  ghost function Gone(w: World, o: nat): World
    requires WorldInv(w) && o < |w.maps| && Idle(w, o)
  {
    Take(GiveAll(w, o, |w.maps[o]|), Drop(o))
  }

  lemma DestroyKeeps(st: Store, h: seq<Event>, o: nat)
    requires StoreInv(st) && Faithful(st, h) && o < |st.w.maps| && Idle(st.w, o) && NoRequests(st, o)
    ensures var u := st.(w := Gone(st.w, o)); StoreInv(u) && Faithful(u, h + [Destroyed(o)])
  {
    var v := GiveAll(st.w, o, |st.w.maps[o]|);
    StepKeepsWorld(v, Drop(o));
    var u := st.(w := Gone(st.w, o));
    GoneKeepsStore(st, u, o);
    forall o': nat, p: nat
      ensures Contents(u, o', p) == After(Destroyed(o), Contents(st, o', p), st.w.clsize, o', p)
    {
      SameGeometryContents(st, u, o', p);
    }
    Extends(st, h, u, Destroyed(o));
  }

  lemma GoneKeepsStore(st: Store, u: Store, o: nat)
    requires StoreInv(st) && NoRequests(st, o) && WorldInv(u.w) && u == st.(w := u.w)
    requires SameSegments(st.w, u.w) && |u.w.segs| == |st.w.segs| && |u.w.maps| == |st.w.maps|
    requires forall o' :: 0 <= o' < |st.w.maps| && o' != o ==> u.w.maps[o'] == st.w.maps[o']
    ensures StoreInv(u)
  {
    forall i | 0 <= i < |u.out| ensures RequestOk(u, u.out[i]) {
      assert RequestOk(st, st.out[i]);
    }
    forall o': nat | o' < |u.pending| ensures Counted(u, o') {
      assert Counted(st, o');
    }
    assert DeviceOk(u);
  }

  // What the device gives of a run, where it was found.
  function FetchedPages(st: Store, f: Fetch, counts: seq<nat>): (data: seq<Bytes>)
    requires StoreInv(st) && FetchOk(st, f)
    ensures |data| <= f.n
  {
    DeviceData(st, PlaceOf(st.w, f, 0), f.n, counts)
  }

  function PlaceOf(w: World, f: Fetch, k: nat): Place
    requires w.clsize > 0
  {
    Place(f.seg, f.cluster, Index(w, f.first) + k)
  }

  ghost function MovedStore(s: State, m: Move): Store
    requires StateInv(s) && Possible(s, m)
  {
    match m
    case Map(step) => s.st.(w := Take(s.st.w, step), pending := s.st.pending + if step.Create? then [0] else [])
    case Start(r) => Queue(s.st, r)
    case End(i, wrote, error) =>
      assert RequestOk(s.st, s.st.out[i]);
      Dequeue(Arrive(s.st, s.st.out[i], wrote, error), i)
    case Refusal(o, f, _, error, present) => s.st.(w := Refuse(s.st.w, o, f, error, present))
    case Supply(id) =>
      if s.fetches[id].data.value == [] then s.st else s.st.(w := Take(s.st.w, Supplying(s, id)))
    case Destroy(o) => s.st.(w := Gone(s.st.w, o))
    case _ => s.st
  }

  function MovedFetches(s: State, m: Move): map<nat, Fetch>
    requires StateInv(s) && Possible(s, m)
  {
    match m
    case Find(id, o, first, n) =>
      var e := s.st.w.maps[o][Cluster(s.st.w, first)];
      s.fetches[id := Fetch(o, first, n, e.psindex, e.entry, None)]
    case Read(id, counts) =>
      s.fetches[id := s.fetches[id].(data := Some(FetchedPages(s.st, s.fetches[id], counts)))]
    case Supply(id) => s.fetches - {id}
    case _ => s.fetches
  }

  // The events that a move adds to the history.
  function Events(s: State, m: Move): seq<Event>
    requires StateInv(s) && Possible(s, m)
  {
    match m
    case End(i, _, error) => [Arrival(s.st, s.st.out[i], error)]
    case Refusal(o, f, n, _, _) => [Failed(o, f, n)]
    case Supply(id) =>
      var f := s.fetches[id];
      if f.data.value == [] then [] else [Supplied(f.o, f.first, |f.data.value|)]
    case Destroy(o) => [Destroyed(o)]
    case _ => []
  }

  ghost function Moved(s: State, m: Move): State
    requires StateInv(s) && Possible(s, m)
  {
    State(MovedStore(s, m), MovedFetches(s, m), s.h + Events(s, m))
  }

  // ---------------------------------------------------------------- every move keeps the store

  lemma MapKeeps(st: Store, h: seq<Event>, step: Step)
    requires StoreInv(st) && Faithful(st, h) && IsMapStep(step) && Enabled(st.w, step)
    requires step.AddSegment? ==> SegmentFits(st, step.g)
    ensures Quietly(st.w, Take(st.w, step))
    ensures var u := st.(w := Take(st.w, step), pending := st.pending + if step.Create? then [0] else []);
      StoreInv(u) && Faithful(u, h)
  {
    var w, pending := Take(st.w, step), st.pending + if step.Create? then [0] else [];
    QuietSteps(st.w, step);
    MapDevice(st, step);
    MapSize(st.w, step);
    QuietlyKeepsStore(st, w, pending);
    SameFaithful(st, st.(w := w, pending := pending), h);
  }

  lemma MapDevice(st: Store, step: Step)
    requires StoreInv(st) && IsMapStep(step) && Enabled(st.w, step) && Quietly(st.w, Take(st.w, step))
    requires step.AddSegment? ==> SegmentFits(st, step.g)
    ensures DeviceOk(st.(w := Take(st.w, step)))
  {
    var u := Take(st.w, step);
    assert |u.segs| == |st.w.segs| + if step.AddSegment? then 1 else 0;
  }

  lemma MapSize(w: World, step: Step)
    requires WorldInv(w) && IsMapStep(step) && Enabled(w, step)
    ensures |Take(w, step).maps| == |w.maps| + if step.Create? then 1 else 0
  {
  }

  lemma StartKeeps(st: Store, h: seq<Event>, r: Request)
    requires StoreInv(st) && Faithful(st, h) && RequestOk(st, r)
    ensures StoreInv(Queue(st, r)) && Faithful(Queue(st, r), h)
  {
    QueueKeepsStore(st, r);
    SameFaithful(st, Queue(st, r), h);
  }

  lemma EndKeeps(st: Store, h: seq<Event>, i: nat, wrote: seq<Bytes>, error: nat)
    requires StoreInv(st) && Faithful(st, h) && i < |st.out| && Outcome(st, st.out[i], wrote, error)
    requires st.out[i].o < |st.w.inflight| && Idle(st.w, st.out[i].o)
    ensures RequestOk(st, st.out[i]) && st.out[i].o < |st.pending|
    ensures var r := st.out[i]; var u := Dequeue(Arrive(st, r, wrote, error), i);
      && StoreInv(u) && OneEntry(st.w, u.w, r.o, Cluster(st.w, r.first))
      && (Faithful(u, h + [Arrival(st, r, error)]) <==> Harmless(st, r, wrote, error))
  {
    var r := st.out[i];
    assert RequestOk(st, r);
    var u, j := Arrive(st, r, wrote, error), h + [Arrival(st, r, error)];
    ArriveKeepsStore(st, r, wrote, error);
    ArriveExactly(st, h, r, wrote, error);
    DequeueKeepsStore(u, i);
    SameFaithful(u, Dequeue(u, i), j);
  }

  lemma SupplyKeeps(st: Store, h: seq<Event>, o: nat, f: nat, n: nat)
    requires StoreInv(st) && Faithful(st, h) && Enabled(st.w, Forgetting(st.w, o, f, n))
    requires Index(st.w, f) + n <= st.w.clsize
    ensures var u := st.(w := Forget(st.w, o, f, n));
      && OneEntry(st.w, u.w, o, Cluster(st.w, f))
      && (StoreInv(u) && Faithful(u, h + [Supplied(o, f, n)])
          <==> Sound(st.w, Forgetting(st.w, o, f, n)) && !Strands(st.w, o, f, n))
  {
    ForgottenWorld(st.w, o, f, n);
    if Sound(st.w, Forgetting(st.w, o, f, n)) {
      ForgottenExactly(st, h, o, f, n);
    } else {
      UnsoundStep(st.w, Forgetting(st.w, o, f, n));
    }
  }

  // A move keeps the store, and keeps it faithful to the history, exactly if it is careful.
  lemma StoreExactly(s: State, m: Move)
    requires StateInv(s) && Possible(s, m)
    ensures StoreInv(MovedStore(s, m)) && Faithful(MovedStore(s, m), s.h + Events(s, m)) <==> Careful(s, m)
  {
    assert s.h + [] == s.h;
    match m
    case Map(step) => MapKeeps(s.st, s.h, step);
    case Start(r) => StartKeeps(s.st, s.h, r);
    case End(i, wrote, error) => EndKeeps(s.st, s.h, i, wrote, error);
    case Refusal(o, f, n, error, present) => RefuseFaithful(s.st, s.h, o, f, n, error, present);
    case Supply(id) =>
      var f := s.fetches[id];
      assert FetchOk(s.st, f);
      if f.data.value != [] {
        SupplyKeeps(s.st, s.h, f.o, f.first, |f.data.value|);
      }
    case Destroy(o) => DestroyKeeps(s.st, s.h, o);
    case _ =>
  }

  // Segments stay where they are, and no object but `gone` loses an entry.
  ghost predicate Reshaped(w: World, u: World, gone: Option<nat>) {
    && SameSegments(w, u)
    && forall o: nat, k: nat :: HasEntry(w, o, k) && gone != Some(o) ==> HasEntry(u, o, k)
  }

  lemma QuietlyReshapes(w: World, u: World)
    requires Quietly(w, u)
    ensures Reshaped(w, u, None)
  {
    forall o: nat, k: nat | HasEntry(w, o, k) ensures HasEntry(u, o, k) {
      assert EntryKept(w, u, o, k);
    }
  }

  lemma OneEntryReshapes(w: World, u: World, o: nat, k: nat)
    requires OneEntry(w, u, o, k)
    ensures Reshaped(w, u, None)
  {
  }

  lemma GoneReshapes(w: World, o: nat)
    requires WorldInv(w) && o < |w.maps| && Idle(w, o)
    ensures Reshaped(w, Gone(w, o), Some(o))
  {
    var v := GiveAll(w, o, |w.maps[o]|);
    StepKeepsWorld(v, Drop(o));
  }

  lemma MoveReshapes(s: State, m: Move)
    requires StateInv(s) && Possible(s, m)
    ensures Reshaped(s.st.w, MovedStore(s, m).w, if m.Destroy? then Some(m.o) else None)
  {
    match m
    case Map(step) =>
      MapKeeps(s.st, s.h, step);
      QuietlyReshapes(s.st.w, Take(s.st.w, step));
    case End(i, wrote, error) =>
      EndKeeps(s.st, s.h, i, wrote, error);
      OneEntryReshapes(s.st.w, MovedStore(s, m).w, s.st.out[i].o, Cluster(s.st.w, s.st.out[i].first));
    case Refusal(o, f, _, error, present) => RefusalReshapes(s.st.w, o, f, error, present);
    case Supply(id) => SupplyReshapes(s, id);
    case Destroy(o) => GoneReshapes(s.st.w, o);
    case _ =>
  }

  lemma RefusalReshapes(w: World, o: nat, f: nat, error: nat, present: bool)
    requires WorldInv(w)
    ensures Reshaped(w, Refuse(w, o, f, error, present), None)
  {
    if HasEntry(w, o, Cluster(w, f)) {
      RefusedWorld(w, o, f, error, present);
      OneEntryReshapes(w, Refuse(w, o, f, error, present), o, Cluster(w, f));
    }
  }

  lemma SupplyReshapes(s: State, id: nat)
    requires StateInv(s) && Possible(s, Supply(id))
    ensures Reshaped(s.st.w, MovedStore(s, Supply(id)).w, None)
  {
    var f := s.fetches[id];
    if f.data.value != [] {
      ForgottenWorld(s.st.w, f.o, f.first, |f.data.value|);
      OneEntryReshapes(s.st.w, MovedStore(s, Supply(id)).w, f.o, Cluster(s.st.w, f.first));
    }
  }

  lemma FetchReshaped(st: Store, u: Store, f: Fetch, gone: Option<nat>)
    requires st.w.clsize > 0 && Reshaped(st.w, u.w, gone) && FetchOk(st, f) && gone != Some(f.o)
    ensures FetchOk(u, f)
  {
  }

  lemma FetchesKept(s: State, m: Move)
    requires StateInv(s) && Possible(s, m) && StoreInv(MovedStore(s, m))
    ensures forall id :: id in MovedFetches(s, m) ==> FetchOk(MovedStore(s, m), MovedFetches(s, m)[id])
  {
    MoveReshapes(s, m);
    forall id | id in MovedFetches(s, m) ensures FetchOk(MovedStore(s, m), MovedFetches(s, m)[id]) {
      NewFetchOk(s, m, id);
      FetchReshaped(s.st, MovedStore(s, m), MovedFetches(s, m)[id], if m.Destroy? then Some(m.o) else None);
    }
  }

  lemma NewFetchOk(s: State, m: Move, id: nat)
    requires StateInv(s) && Possible(s, m) && id in MovedFetches(s, m)
    ensures FetchOk(s.st, MovedFetches(s, m)[id])
    ensures m.Destroy? ==> MovedFetches(s, m)[id].o != m.o
  {
    if id in s.fetches {
      assert FetchOk(s.st, s.fetches[id]);
    } else {
      MappedClusterInUse(s.st.w, m.o, Cluster(s.st.w, m.first));
    }
  }

  // A move keeps the invariant exactly if it is careful.
  lemma MoveExactly(s: State, m: Move)
    requires StateInv(s) && Possible(s, m)
    ensures StateInv(Moved(s, m)) <==> Careful(s, m)
  {
    StoreExactly(s, m);
    if Careful(s, m) {
      FetchesKept(s, m);
    }
  }

  // ---------------------------------------------------------------- reads in progress

  // Page k of a fetch lies where it was found, and holds what the device gave, if it has given it.
  ghost predicate PageFresh(st: Store, f: Fetch, k: nat)
    requires StoreInv(st)
  {
    && Location(st.w, f.o, f.first + k) == Some(PlaceOf(st.w, f, k))
    && (f.data.Some? && k < |f.data.value| ==> Contents(st, f.o, f.first + k) == Some(f.data.value[k]))
  }

  ghost predicate Fresh(st: Store, f: Fetch)
    requires StoreInv(st)
  {
    forall k: nat :: k < f.n ==> PageFresh(st, f, k)
  }

  // An event leaves page k of a fetch alone: it concerns another page, or it writes the page before the
  // device has read it, or it writes what the device has read.
  ghost predicate Spares(ev: Event, clsize: nat, f: Fetch, k: nat)
    requires clsize > 0
  {
    Concerns(ev, clsize, f.o, f.first + k) ==>
      && ev.Landed?
      && (f.data.Some? && k < |f.data.value| ==> ev.data[f.first + k - ev.first] == f.data.value[k])
  }

  ghost predicate AllSpare(evs: seq<Event>, clsize: nat, f: Fetch)
    requires clsize > 0
  {
    forall i, k: nat :: 0 <= i < |evs| && k < f.n ==> Spares(evs[i], clsize, f, k)
  }

  lemma FoundIsFresh(s: State, id: nat, o: nat, first: nat, n: nat)
    requires StateInv(s) && Possible(s, Find(id, o, first, n))
    ensures Fresh(s.st, MovedFetches(s, Find(id, o, first, n))[id])
  {
    var f := MovedFetches(s, Find(id, o, first, n))[id];
    forall k: nat | k < f.n ensures PageFresh(s.st, f, k) {
      InChunk(s.st.w, first, n, first + k);
    }
  }

  lemma PlacesBehind(st: Store, f: Fetch, k: nat)
    requires StoreInv(st) && FetchOk(st, f) && k < f.n
    ensures RunOk(st, PlaceOf(st.w, f, 0), f.n) && Behind(PlaceOf(st.w, f, 0), k) == PlaceOf(st.w, f, k)
    ensures st.w.segs[f.seg].geo.recordShift <= st.shift
  {
    SegmentsFit(st, f.seg, f.seg);
  }

  // The quality of the device read of a fetch.
  function FetchQuality(st: Store, f: Fetch, counts: seq<nat>): nat {
    Quality(st.shift, RecordBits(st, f.seg), f.n, counts)
  }

  // A device read of pages that are still where they were found brings what the store holds, if it is
  // complete, brings nothing, or leaves out just one page.
  lemma ReadIsFresh(st: Store, f: Fetch, counts: seq<nat>)
    requires StoreInv(st) && FetchOk(st, f) && Fresh(st, f) && FetchQuality(st, f, counts) <= 1
    ensures Fresh(st, f.(data := Some(FetchedPages(st, f, counts))))
  {
    var g := f.(data := Some(FetchedPages(st, f, counts)));
    forall k: nat | k < g.n ensures PageFresh(st, g, k) {
      assert PageFresh(st, f, k);
      if k < |g.data.value| {
        PlacesBehind(st, f, k);
        GoodData(st, PlaceOf(st.w, f, 0), f.n, counts, k);
      }
    }
  }

  // Any other read, if its pieces are whole records, brings a page right exactly if the page has zeros
  // wherever the read did not reach.
  lemma PageReadExactly(st: Store, f: Fetch, counts: seq<nat>, k: nat)
    requires StoreInv(st) && FetchOk(st, f) && PageFresh(st, f, k) && k < |FetchedPages(st, f, counts)|
    requires WholeRecords(RecordBits(st, f.seg), counts, f.n * Pow2(st.shift))
    ensures PageFresh(st, f.(data := Some(FetchedPages(st, f, counts))), k)
      <==> ZerosFrom(st, f.o, f.first, k, ArrivedOf(st.shift, f.n, counts))
  {
    var x, data := PlaceOf(st.w, f, 0), FetchedPages(st, f, counts);
    PlacesBehind(st, f, k);
    DataIs(st, x, f.n, counts, k);
    FreshMeans(st, f, data, k);
  }

  lemma FreshMeans(st: Store, f: Fetch, data: seq<Bytes>, k: nat)
    requires StoreInv(st) && PageFresh(st, f, k) && k < |data|
    ensures PageFresh(st, f.(data := Some(data)), k) <==> Contents(st, f.o, f.first + k) == Some(data[k])
  {
  }

  // What the device gives for a place where a page of another object lies by now is that page.
  lemma Misread(st: Store, f: Fetch, counts: seq<nat>, k: nat, o: nat, p: nat)
    requires StoreInv(st) && FetchOk(st, f) && FetchQuality(st, f, counts) <= 1
    requires k < |FetchedPages(st, f, counts)| && Location(st.w, o, p) == Some(PlaceOf(st.w, f, k))
    ensures Contents(st, o, p) == Some(FetchedPages(st, f, counts)[k])
  {
    PlacesBehind(st, f, k);
    GoodData(st, PlaceOf(st.w, f, 0), f.n, counts, k);
  }

  // A page that is present before and after a move has not been moved.
  lemma PlaceStays(s: State, m: Move, o: nat, p: nat)
    requires StateInv(s) && Possible(s, m) && StoreInv(MovedStore(s, m))
    requires Location(s.st.w, o, p).Some? && Location(MovedStore(s, m).w, o, p).Some?
    ensures Location(MovedStore(s, m).w, o, p) == Location(s.st.w, o, p)
    ensures MovedStore(s, m).w.clsize == s.st.w.clsize
  {
    MoveReshapes(s, m);
    match m
    case Map(step) =>
      MapKeeps(s.st, s.h, step);
      SameLocation(s.st.w, Take(s.st.w, step), o, p);
    case End(i, wrote, error) => EndedPlace(s.st, i, wrote, error, o, p);
    case Refusal(o', f, _, error, present) => RefusedLocation(s.st.w, o', f, error, present, o, p);
    case Supply(id) =>
      var f := s.fetches[id];
      assert FetchOk(s.st, f);
      if f.data.value != [] {
        ForgottenLocation(s.st.w, f.o, f.first, |f.data.value|, o, p);
      }
    case Destroy(o') => GoneLocation(s.st.w, o', o, p);
    case _ =>
  }

  lemma EndedPlace(st: Store, i: nat, wrote: seq<Bytes>, error: nat, o: nat, p: nat)
    requires StoreInv(st) && i < |st.out| && RequestOk(st, st.out[i])
    requires Location(st.w, o, p).Some? && Location(Arrive(st, st.out[i], wrote, error).w, o, p).Some?
    ensures Location(Arrive(st, st.out[i], wrote, error).w, o, p) == Location(st.w, o, p)
  {
    var r := st.out[i];
    ArriveLocation(st, r, wrote, error, o, p);
    InChunk(st.w, r.first, |r.data|, p);
  }

  lemma GoneLocation(w: World, o: nat, o': nat, p: nat)
    requires WorldInv(w) && o < |w.maps| && Idle(w, o) && Location(Gone(w, o), o', p).Some?
    ensures Location(Gone(w, o), o', p) == Location(w, o', p)
  {
    var v := GiveAll(w, o, |w.maps[o]|);
    StepKeepsWorld(v, Drop(o));
  }

  // Page k of a fetch is not anywhere else.
  predicate SpotStays(w: World, u: World, f: Fetch, k: nat)
    requires w.clsize > 0 && u.clsize > 0
  {
    Location(u, f.o, f.first + k).Some? ==> Location(u, f.o, f.first + k) == Location(w, f.o, f.first + k)
  }

  lemma MoveKeepsSpot(s: State, m: Move, f: Fetch, k: nat)
    requires StateInv(s) && Possible(s, m) && StoreInv(MovedStore(s, m)) && PageFresh(s.st, f, k)
    ensures SpotStays(s.st.w, MovedStore(s, m).w, f, k)
  {
    if Location(MovedStore(s, m).w, f.o, f.first + k).Some? {
      PlaceStays(s, m, f.o, f.first + k);
    }
  }

  // What events do to a page of a fetch.
  lemma PageAfter(st: Store, u: Store, h: seq<Event>, evs: seq<Event>, f: Fetch, k: nat)
    requires StoreInv(st) && StoreInv(u) && Faithful(st, h) && Faithful(u, h + evs) && |evs| <= 1
    requires u.w.clsize == st.w.clsize && PageFresh(st, f, k)
    requires SpotStays(st.w, u.w, f, k)
    ensures PageFresh(u, f, k) <==> evs == [] || Spares(evs[0], st.w.clsize, f, k)
  {
    ContentsAfter(st, u, h, evs, f.o, f.first + k);
    if evs == [] {
      PageAfterNone(st, u, f, k);
    } else {
      PageAfterOne(st, u, evs[0], f, k);
    }
  }

  lemma ContentsAfter(st: Store, u: Store, h: seq<Event>, evs: seq<Event>, o: nat, p: nat)
    requires StoreInv(st) && StoreInv(u) && Faithful(st, h) && Faithful(u, h + evs) && |evs| <= 1
    requires u.w.clsize == st.w.clsize
    ensures Contents(u, o, p)
      == if evs == [] then Contents(st, o, p) else After(evs[0], Contents(st, o, p), st.w.clsize, o, p)
  {
    var all := h + evs;
    assert Contents(u, o, p) == Last(all, u.w.clsize, o, p) && Contents(st, o, p) == Last(h, st.w.clsize, o, p);
    if evs == [] {
      assert all == h;
    } else {
      assert all[|all| - 1] == evs[0] && all[..|all| - 1] == h;
    }
  }

  lemma PageAfterNone(st: Store, u: Store, f: Fetch, k: nat)
    requires StoreInv(st) && StoreInv(u) && u.w.clsize == st.w.clsize && PageFresh(st, f, k)
    requires SpotStays(st.w, u.w, f, k) && Contents(u, f.o, f.first + k) == Contents(st, f.o, f.first + k)
    ensures PageFresh(u, f, k)
  {
  }

  lemma PageAfterOne(st: Store, u: Store, ev: Event, f: Fetch, k: nat)
    requires StoreInv(st) && StoreInv(u) && u.w.clsize == st.w.clsize && PageFresh(st, f, k)
    requires SpotStays(st.w, u.w, f, k)
    requires Contents(u, f.o, f.first + k)
      == After(ev, Contents(st, f.o, f.first + k), st.w.clsize, f.o, f.first + k)
    ensures PageFresh(u, f, k) <==> Spares(ev, st.w.clsize, f, k)
  {
  }

  lemma EventsAre(s: State, m: Move)
    requires StateInv(s) && Possible(s, m)
    ensures |Events(s, m)| <= 1
  {
  }

  // A move that has nothing to do with a fetch leaves it fresh exactly if its events spare the pages.
  // So only a write to the pages, or one that fails in their cluster, or another supply of them, or
  // the end of the object can make a read supply what is not there any more.
  lemma StaysFreshExactly(s: State, m: Move, f: Fetch)
    requires StateInv(s) && Possible(s, m) && Careful(s, m) && FetchOk(s.st, f) && Fresh(s.st, f)
    ensures StoreInv(MovedStore(s, m)) && MovedStore(s, m).w.clsize == s.st.w.clsize
    ensures Fresh(MovedStore(s, m), f) <==> AllSpare(Events(s, m), s.st.w.clsize, f)
  {
    StoreExactly(s, m);
    MoveReshapes(s, m);
    EventsAre(s, m);
    forall k: nat | k < f.n ensures SpotStays(s.st.w, MovedStore(s, m).w, f, k) {
      MoveKeepsSpot(s, m, f, k);
    }
    FreshAfter(s.st, MovedStore(s, m), s.h, Events(s, m), f);
  }

  lemma FreshAfter(st: Store, u: Store, h: seq<Event>, evs: seq<Event>, f: Fetch)
    requires StoreInv(st) && StoreInv(u) && Faithful(st, h) && Faithful(u, h + evs) && |evs| <= 1
    requires u.w.clsize == st.w.clsize && Fresh(st, f)
    requires forall k: nat :: k < f.n ==> SpotStays(st.w, u.w, f, k)
    ensures Fresh(u, f) <==> AllSpare(evs, st.w.clsize, f)
  {
    forall k: nat | k < f.n
      ensures PageFresh(u, f, k) <==> evs == [] || Spares(evs[0], st.w.clsize, f, k)
    {
      assert PageFresh(st, f, k);
      PageAfter(st, u, h, evs, f, k);
    }
    if AllSpare(evs, st.w.clsize, f) {
      assert Fresh(u, f);
    }
    if Fresh(u, f) {
      forall i, k: nat | 0 <= i < |evs| && k < f.n ensures Spares(evs[i], st.w.clsize, f, k) {
        assert PageFresh(u, f, k);
      }
    }
  }

  // A page of a fetch that is fresh when it is supplied holds what was last written.
  lemma SuppliesLastWritten(st: Store, h: seq<Event>, f: Fetch, k: nat)
    requires StoreInv(st) && Faithful(st, h) && PageFresh(st, f, k) && f.data.Some? && k < |f.data.value|
    ensures IsLastWritten(h, st.w.clsize, f.o, f.first + k, f.data.value[k])
  {
    LastWritten(h, st.w.clsize, f.o, f.first + k, f.data.value[k]);
  }

  // ---------------------------------------------------------------- runs

  // A run of moves.  A state in which the store has come to harm is the last one.
  ghost predicate Runs(s: State, moves: seq<Move>, t: State)
    decreases moves
  {
    if moves == [] then t == s
    else StateInv(s) && Possible(s, moves[0]) && Runs(Moved(s, moves[0]), moves[1..], t)
  }

  ghost predicate CarefulRun(s: State, moves: seq<Move>)
    decreases moves
  {
    moves == [] ||
    (StateInv(s) && Possible(s, moves[0]) && Careful(s, moves[0]) && CarefulRun(Moved(s, moves[0]), moves[1..]))
  }

  // Over any run, the store is true to its history at the end exactly if every move was careful.
  lemma {:induction false} RunExactly(s: State, moves: seq<Move>, t: State)
    requires StateInv(s) && Runs(s, moves, t)
    ensures StateInv(t) <==> CarefulRun(s, moves)
    decreases moves
  {
    if moves != [] {
      MoveExactly(s, moves[0]);
      if Careful(s, moves[0]) {
        RunExactly(Moved(s, moves[0]), moves[1..], t);
      }
    }
  }

  lemma {:induction false} RunsMore(s: State, moves: seq<Move>, t: State, m: Move)
    requires Runs(s, moves, t) && StateInv(t) && Possible(t, m)
    ensures Runs(s, moves + [m], Moved(t, m))
    decreases moves
  {
    if moves == [] {
      OneMoveRuns(s, m);
      assert moves + [m] == [m];
    } else {
      var first, rest := moves[0], moves[1..];
      var next, last := Moved(s, first), Moved(t, m);
      RunsMore(next, rest, t, m);
      RunsFirst(s, first, rest + [m], last);
      FirstAndRest(moves, m);
    }
  }

  lemma OneMoveRuns(s: State, m: Move)
    requires StateInv(s) && Possible(s, m)
    ensures Runs(s, [m], Moved(s, m))
  {
    assert [m][1..] == [];
  }

  lemma RunsFirst(s: State, m: Move, moves: seq<Move>, t: State)
    requires StateInv(s) && Possible(s, m) && Runs(Moved(s, m), moves, t)
    ensures Runs(s, [m] + moves, t)
  {
    assert ([m] + moves)[1..] == moves;
  }

  lemma FirstAndRest(moves: seq<Move>, m: Move)
    requires moves != []
    ensures [moves[0]] + (moves[1..] + [m]) == moves + [m]
  {
  }

  function Opening(clsize: nat, shift: nat, disk: Disk): State {
    State(Store(Empty(clsize), shift, disk, [], []), map[], [])
  }

  // The pager is a page store: in every state that any interleaving of any requests can reach, every
  // page of every object holds the bytes last written to it, unless it has been supplied, has failed
  // or has been destroyed since.
  lemma PagesHoldLastWritten(
      clsize: nat, shift: nat, disk: Disk, s: State, moves: seq<Move>, t: State, o: nat, p: nat, b: Bytes)
    requires clsize > 0 && s == Opening(clsize, shift, disk) && Runs(s, moves, t) && CarefulRun(s, moves)
    ensures StateInv(t) && t.st.w.clsize > 0
    ensures Contents(t.st, o, p) == Some(b) <==> IsLastWritten(t.h, t.st.w.clsize, o, p, b)
  {
    OpeningHolds(clsize, shift, disk);
    CarefulRunHolds(s, moves, t, o, p, b);
  }

  lemma CarefulRunHolds(s: State, moves: seq<Move>, t: State, o: nat, p: nat, b: Bytes)
    requires StateInv(s) && Runs(s, moves, t) && CarefulRun(s, moves)
    ensures StateInv(t) && t.st.w.clsize > 0
    ensures Contents(t.st, o, p) == Some(b) <==> IsLastWritten(t.h, t.st.w.clsize, o, p, b)
  {
    RunExactly(s, moves, t);
    FaithfulMeans(t.st, t.h, o, p, b);
  }

  lemma FaithfulMeans(st: Store, h: seq<Event>, o: nat, p: nat, b: Bytes)
    requires StoreInv(st) && Faithful(st, h)
    ensures Contents(st, o, p) == Some(b) <==> IsLastWritten(h, st.w.clsize, o, p, b)
  {
    assert Contents(st, o, p) == Last(h, st.w.clsize, o, p);
    LastWritten(h, st.w.clsize, o, p, b);
  }

  lemma OpeningHolds(clsize: nat, shift: nat, disk: Disk)
    requires clsize > 0
    ensures StateInv(Opening(clsize, shift, disk))
  {
  }

  // Nothing disturbs a fetch during a run: its own device read is good, and the events of all other moves
  // spare its pages.
  ghost predicate Undisturbed(s: State, moves: seq<Move>, id: nat)
    decreases moves
  {
    moves != [] && StateInv(s) && Possible(s, moves[0]) && id in s.fetches ==>
      && moves[0] != Supply(id)
      && (moves[0].Read? && moves[0].id == id ==> FetchQuality(s.st, s.fetches[id], moves[0].counts) <= 1)
      && AllSpare(Events(s, moves[0]), s.st.w.clsize, s.fetches[id])
      && Undisturbed(Moved(s, moves[0]), moves[1..], id)
  }

  // So what a read supplies at the end of any run in which nothing disturbed it is what was last
  // written, however many other requests ran meanwhile.
  lemma {:induction false} UndisturbedStaysFresh(s: State, moves: seq<Move>, t: State, id: nat)
    requires StateInv(s) && Runs(s, moves, t) && CarefulRun(s, moves) && id in s.fetches && Fresh(s.st, s.fetches[id])
    requires Undisturbed(s, moves, id)
    ensures StateInv(t) && id in t.fetches && Fresh(t.st, t.fetches[id])
    decreases moves
  {
    if moves != [] {
      OneMoveFresh(s, moves[0], id);
      UndisturbedStaysFresh(Moved(s, moves[0]), moves[1..], t, id);
    }
  }

  lemma OneMoveFresh(s: State, m: Move, id: nat)
    requires StateInv(s) && Possible(s, m) && Careful(s, m) && id in s.fetches && Fresh(s.st, s.fetches[id])
    requires m != Supply(id)
    requires m.Read? && m.id == id ==> FetchQuality(s.st, s.fetches[id], m.counts) <= 1
    requires AllSpare(Events(s, m), s.st.w.clsize, s.fetches[id])
    ensures StateInv(Moved(s, m)) && id in MovedFetches(s, m)
    ensures Fresh(MovedStore(s, m), MovedFetches(s, m)[id])
  {
    MoveExactly(s, m);
    if m.Read? && m.id == id {
      assert FetchOk(s.st, s.fetches[id]);
      ReadIsFresh(s.st, s.fetches[id], m.counts);
    } else {
      assert FetchOk(s.st, s.fetches[id]);
      StaysFreshExactly(s, m, s.fetches[id]);
      assert MovedFetches(s, m)[id] == s.fetches[id];
    }
  }
}
