// Runs that reach the failures which the other modules describe: a lost cluster, a mapped cluster that is
// marked free, a page that a write to another object overwrites, and a page that holds bytes never
// written to it.  All start from an empty pager with clusters of two pages of one byte, one segment of
// three clusters, and two objects of two and one clusters.

module Witnesses {
  import opened Arithmetic
  import opened Bitmap
  import opened ClusterMap
  import opened Device
  import opened Ownership
  import opened PageRuns
  import opened PageStore
  import opened Reading
  import opened Segment
  import opened Totals
  import opened Transfers
  import opened Wrappers
  import opened Writing

  const PLACE := Geometry(0, 0, 6, 0, 1, 3, 0)
  const SEGMENT := Seg(PLACE, 3, 0, [0], false)

  // The world of the runs, with the first n clusters taken.
  ghost predicate Small(w: World, n: nat) {
    && WorldInv(w) && w.clsize == 2
    && |w.segs| == 1 && w.segs[0].geo == PLACE && (forall c :: 0 <= c < 3 ==> (InUse(w.segs[0], c) <==> c < n))
    && |w.maps| == 2 && |w.maps[0]| == 2 && |w.maps[1]| == 1 && Idle(w, 0) && Idle(w, 1) && |w.inflight| == 2
  }

  // The three entries.
  predicate Entries(w: World, a: VsMap, b: VsMap, c: VsMap) {
    && |w.maps| == 2 && |w.maps[0]| == 2 && |w.maps[1]| == 1
    && w.maps[0][0] == a && w.maps[0][1] == b && w.maps[1][0] == c
  }

  function At(c: nat): VsMap {
    WithCluster(CLEAR, c, 0)
  }

  // ---------------------------------------------------------------- steps of a small world

  lemma {:induction false} ReachesMore(w: World, steps: seq<Step>, u: World, st: Step)
    requires Reaches(w, steps, u) && WorldInv(u) && Enabled(u, st)
    ensures Reaches(w, steps + [st], Take(u, st))
    decreases steps
  {
    if steps == [] {
      assert (steps + [st])[1..] == [];
    } else {
      ReachesMore(Take(w, steps[0]), steps[1..], u, st);
      assert (steps + [st])[1..] == steps[1..] + [st];
    }
  }

  // A cluster is free, so that the count allows a reservation.
  lemma RoomLeft(w: World, n: nat)
    requires Small(w, n) && n < 3
    ensures HasRoom(w, 0)
  {
    assert SegOk(w, 0, w.segs[0]);
    BitsCover(3);
    NothingInFlight(w);
    UsedFull(w.segs[0].bmap, 3);
    assert !InUse(w.segs[0], n);
  }

  lemma NothingInFlight(w: World)
    requires |w.inflight| == 2 && Idle(w, 0) && Idle(w, 1)
    ensures InFlight(w, 0) == 0
  {
    TotalBounds(w.inflight, OnSeg(0));
  }

  // The lowest free cluster is allocated.
  lemma Allocate(w: World, n: nat, o: nat, k: nat) returns (v: World, u: World)
    requires Small(w, n) && n < 3 && HasEntry(w, o, k) && w.maps[o][k] == CLEAR
    ensures Enabled(w, Reserve(o, k, 0)) && v == Take(w, Reserve(o, k, 0)) && WorldInv(v)
    ensures Enabled(v, Install(o)) && u == Take(v, Install(o))
    ensures Small(u, n + 1) && u.maps == w.maps[o := w.maps[o][k := At(n)]]
  {
    RoomLeft(w, n);
    assert Idle(w, o);
    StepKeepsWorld(w, Reserve(o, k, 0));
    v := Take(w, Reserve(o, k, 0));
    LowestIsFound(w, v, n, o);
    StepKeepsWorld(v, Install(o));
    u := Take(v, Install(o));
  }

  lemma LowestIsFound(w: World, v: World, n: nat, o: nat)
    requires Small(w, n) && n < 3 && WorldInv(v) && o < |v.inflight| && v.inflight[o].Some?
    requires v.inflight[o].value.seg == 0 && |v.segs| == 1 && v.segs[0] == Reserved(w.segs[0])
    ensures InFlight(v, 0) > 0 && v.segs[0].hint <= |v.segs[0].bmap| && FoundAt(v.segs[0]) == n
    ensures forall c :: 0 <= c < 3 ==> (InUse(Found(v.segs[0]), c) <==> c < n + 1)
  {
    InstallFindsFreeCluster(v, o);
    SearchSucceeds(v.segs[0], InFlight(v, 0));
    var d := FoundAt(v.segs[0]);
    assert InUse(w.segs[0], d) == InUse(v.segs[0], d) && InUse(w.segs[0], n) == InUse(v.segs[0], n);
    assert forall c :: 0 <= c < 3 ==> InUse(v.segs[0], c) == InUse(w.segs[0], c);
  }

  // The last cluster allocated, other than number 0, is given up for an error.
  lemma GiveUp(w: World, n: nat, o: nat, k: nat, error: nat) returns (u: World)
    requires Small(w, n) && HasEntry(w, o, k) && Mapped(w.maps[o][k]) && error > 0
    requires 0 < w.maps[o][k].entry == n - 1
    ensures Enabled(w, Fail(o, k, error, true)) && u == Take(w, Fail(o, k, error, true))
    ensures Small(u, n - 1) && u.maps == w.maps[o := w.maps[o][k := WithError(w.maps[o][k], error)]]
  {
    MappedClusterInUse(w, o, k);
    assert Idle(w, o);
    StepKeepsWorld(w, Fail(o, k, error, true));
    u := Take(w, Fail(o, k, error, true));
  }

  lemma Claim(w: World, n: nat, o: nat, k: nat, i: nat) returns (u: World)
    requires Small(w, n) && HasEntry(w, o, k) && Mapped(w.maps[o][k]) && i < 2
    ensures Enabled(w, MarkAlloc(o, k, {i})) && u == Take(w, MarkAlloc(o, k, {i}))
    ensures Small(u, n)
    ensures u.maps == w.maps[o := w.maps[o][k := w.maps[o][k].(alloc := w.maps[o][k].alloc + {i})]]
  {
    assert Idle(w, o);
    StepKeepsWorld(w, MarkAlloc(o, k, {i}));
    u := Take(w, MarkAlloc(o, k, {i}));
  }

  // ---------------------------------------------------------------- the beginning of every run

  lemma FreshBits()
    ensures forall c :: 0 <= c < 8 ==> !InUse(SEGMENT, c)
  {
    forall c | 0 <= c < 8 ensures !InUse(SEGMENT, c) {
      assert c == 0 || c == 1 || c == 2 || c == 3 || c == 4 || c == 5 || c == 6 || c == 7;
      assert !Bit(0, c);
    }
  }

  // A run of the world, one sound step longer.
  lemma Further(before: seq<Step>, w: World, st: Step) returns (steps: seq<Step>, u: World)
    requires Reaches(Empty(2), before, w) && WorldInv(w) && Enabled(w, st) && Sound(w, st)
    ensures Reaches(Empty(2), steps, u) && u == Take(w, st) && WorldInv(u)
  {
    ReachesMore(Empty(2), before, w, st);
    StepKeepsWorld(w, st);
    steps, u := before + [st], Take(w, st);
  }

  lemma AllocateFurther(before: seq<Step>, w: World, n: nat, o: nat, k: nat) returns (steps: seq<Step>, u: World)
    requires Reaches(Empty(2), before, w) && Small(w, n) && n < 3 && HasEntry(w, o, k) && w.maps[o][k] == CLEAR
    ensures Reaches(Empty(2), steps, u) && Small(u, n + 1) && u.maps == w.maps[o := w.maps[o][k := At(n)]]
  {
    var v, x := Allocate(w, n, o, k);
    var middle, v' := Further(before, w, Reserve(o, k, 0));
    steps, u := Further(middle, v', Install(o));
  }

  lemma Begin() returns (steps: seq<Step>, w: World)
    ensures Reaches(Empty(2), steps, w) && Small(w, 0) && Entries(w, CLEAR, CLEAR, CLEAR)
  {
    steps, w := BeginFirst();
    FreshBits();
    steps, w := Further(steps, w, Step.Create(1));
    assert |w.maps| == 2 && |w.inflight| == 2 && w.maps[1] == Clears(1) && w.maps[0] == Clears(2);
  }

  lemma BeginFirst() returns (steps: seq<Step>, w: World)
    ensures Reaches(Empty(2), steps, w) && WorldInv(w) && w.clsize == 2 && |w.segs| == 1 && w.segs[0] == SEGMENT
    ensures |w.maps| == 1 && |w.inflight| == 1 && w.inflight[0].None? && w.maps[0] == Clears(2)
  {
    steps, w := BeginSegment();
    steps, w := Further(steps, w, Step.Create(2));
  }

  lemma BeginSegment() returns (steps: seq<Step>, w: World)
    ensures Reaches(Empty(2), steps, w) && WorldInv(w) && w.clsize == 2 && |w.segs| == 1 && w.segs[0] == SEGMENT
    ensures |w.maps| == |w.inflight| == 0
    ensures forall c :: 0 <= c < 8 ==> !InUse(SEGMENT, c)
  {
    FreshBits();
    steps, w := Further([], Empty(2), Step.AddSegment(SEGMENT));
  }

  // Both clusters of the first object are allocated, numbers 0 and 1.
  lemma TwoAllocated() returns (steps: seq<Step>, w: World)
    ensures Reaches(Empty(2), steps, w) && Small(w, 2) && Entries(w, At(0), At(1), CLEAR)
  {
    steps, w := Begin();
    steps, w := AllocateFurther(steps, w, 0, 0, 0);
    steps, w := AllocateFurther(steps, w, 1, 0, 1);
  }

  // ---------------------------------------------------------------- a lost cluster

  // A failed write to cluster 0: the cluster stays marked, and no entry has it.
  lemma ClusterIsLost() returns (steps: seq<Step>, u: World)
    ensures Reaches(Empty(2), steps, u) && WorldInv(u) && |u.segs| == 1 && InUse(u.segs[0], 0)
    ensures forall o: nat, k: nat :: !Holds(u, o, k, 0, 0)
  {
    var w;
    steps, w := TwoAllocated();
    MappedClusterInUse(w, 0, 0);
    assert Idle(w, 0);
    var st := Fail(0, 0, KERN_FAILURE, true);
    steps, u := Further(steps, w, st);
    LeaksExactly(w, st, (0, 0));
    forall o: nat, k: nat ensures !Holds(u, o, k, 0, 0) {
      if Holds(u, o, k, 0, 0) {
        MappedClusterInUse(u, o, k);
      }
    }
  }

  // ---------------------------------------------------------------- moves of a small pager

  function Blank(): Disk {
    (device: nat, address: nat) => 0
  }

  ghost predicate Arises(moves: seq<Move>, s: State) {
    Runs(Opening(2, 0, Blank()), moves, s) && StateInv(s)
  }

  lemma Step1(before: seq<Move>, s: State, m: Move) returns (moves: seq<Move>, t: State)
    requires Arises(before, s) && Possible(s, m) && Careful(s, m)
    ensures Arises(moves, t) && t == Moved(s, m)
  {
    RunsMore(Opening(2, 0, Blank()), before, s, m);
    MoveExactly(s, m);
    moves, t := before + [m], Moved(s, m);
  }

  // Nothing is going on yet, and nothing has been written.
  ghost predicate Calm(s: State) {
    s.fetches == map[] && s.st.out == [] && s.st.shift == 0 && s.st.disk == Blank()
  }

  // A step has changed the maps and nothing else.
  ghost predicate OnlyMaps(s: State, t: State) {
    t.fetches == s.fetches && t.st.out == s.st.out && t.st.shift == s.st.shift && t.st.disk == s.st.disk
  }

  lemma MapStep(before: seq<Move>, s: State, step: Step) returns (moves: seq<Move>, t: State)
    requires Arises(before, s) && IsMapStep(step) && Enabled(s.st.w, step)
    requires step.AddSegment? ==> SegmentFits(s.st, step.g)
    ensures Arises(moves, t) && t.st.w == Take(s.st.w, step) && OnlyMaps(s, t)
  {
    moves, t := Step1(before, s, Map(step));
  }

  lemma AllocateMove(before: seq<Move>, s: State, n: nat, o: nat, k: nat) returns (moves: seq<Move>, t: State)
    requires Arises(before, s) && Small(s.st.w, n) && n < 3 && HasEntry(s.st.w, o, k) && s.st.w.maps[o][k] == CLEAR
    ensures Arises(moves, t) && Small(t.st.w, n + 1) && OnlyMaps(s, t)
    ensures t.st.w.maps == s.st.w.maps[o := s.st.w.maps[o][k := At(n)]]
  {
    var v, x := Allocate(s.st.w, n, o, k);
    moves, t := MapStep(before, s, Reserve(o, k, 0));
    moves, t := MapStep(moves, t, Install(o));
  }

  lemma ClaimMove(before: seq<Move>, s: State, n: nat, o: nat, k: nat, i: nat) returns (moves: seq<Move>, t: State)
    requires Arises(before, s) && Small(s.st.w, n) && HasEntry(s.st.w, o, k) && Mapped(s.st.w.maps[o][k]) && i < 2
    ensures Arises(moves, t) && Small(t.st.w, n) && OnlyMaps(s, t)
    ensures var e := s.st.w.maps[o][k];
      t.st.w.maps == s.st.w.maps[o := s.st.w.maps[o][k := e.(alloc := e.alloc + {i})]]
  {
    var x := Claim(s.st.w, n, o, k, i);
    moves, t := MapStep(before, s, MarkAlloc(o, k, {i}));
  }

  lemma OpenedSegment() returns (moves: seq<Move>, s: State)
    ensures Arises(moves, s) && s.st.w == Take(Empty(2), Step.AddSegment(SEGMENT)) && Calm(s)
  {
    FreshBits();
    OpeningHolds(2, 0, Blank());
    moves, s := MapStep([], Opening(2, 0, Blank()), Step.AddSegment(SEGMENT));
  }

  lemma StartStep(before: seq<Move>, s: State, r: Request) returns (moves: seq<Move>, t: State)
    requires Arises(before, s) && RequestOk(s.st, r)
    ensures Arises(moves, t) && t.st.w == s.st.w && t.st.out == s.st.out + [r] && t.st.shift == s.st.shift
    ensures t.fetches == s.fetches && t.st.disk == s.st.disk
  {
    moves, t := Step1(before, s, Start(r));
  }

  // The end of the device write of r, whose cluster is its own.
  lemma EndStep(before: seq<Move>, s: State, i: nat, r: Request, wrote: seq<Bytes>, error: nat)
    returns (moves: seq<Move>, t: State)
    requires Arises(before, s) && i < |s.st.out| && s.st.out[i] == r && Outcome(s.st, r, wrote, error)
    requires r.o < |s.st.w.inflight| && Idle(s.st.w, r.o) && Current(s.st.w, r) && |wrote| <= |r.data|
    ensures Arises(moves, t) && t.fetches == s.fetches && t.st.shift == s.st.shift
    ensures t.st.out == s.st.out[..i] + s.st.out[i + 1..]
    ensures t.st.w == if error != 0 then Refuse(s.st.w, r.o, r.first, error, true) else Accept(s.st.w, r)
    ensures RequestOk(s.st, r) && t.st.disk == Arrive(s.st, r, wrote, error).disk
    ensures t.h == s.h + [Arrival(s.st, r, error)] && t.st.w.clsize == s.st.w.clsize
  {
    assert RequestOk(s.st, r);
    CurrentIsHarmless(s.st, r, wrote, error);
    moves, t := Step1(before, s, End(i, wrote, error));
  }

  lemma RemoveOnly(r: Request)
    ensures [r][..0] + [r][1..] == []
  {
  }

  lemma RemoveSecond(r: Request, q: Request)
    ensures [r, q][..1] + [r, q][2..] == [r]
  {
  }

  lemma AfterEnd(s: State, t: State, ev: Event)
    requires StateInv(s) && StateInv(t) && t.h == s.h + [ev] && t.st.w.clsize == s.st.w.clsize
    ensures forall o: nat, p: nat :: Contents(t.st, o, p) == After(ev, Contents(s.st, o, p), s.st.w.clsize, o, p)
  {
    assert (s.h + [ev])[..|s.h|] == s.h;
  }

  lemma OpenedFirst() returns (moves: seq<Move>, s: State)
    ensures Arises(moves, s) && Calm(s)
    ensures s.st.w == Take(Take(Empty(2), Step.AddSegment(SEGMENT)), Step.Create(2))
  {
    moves, s := OpenedSegment();
    moves, s := MapStep(moves, s, Step.Create(2));
  }

  lemma OpenedObjects() returns (moves: seq<Move>, s: State)
    ensures Arises(moves, s) && Small(s.st.w, 0) && Entries(s.st.w, CLEAR, CLEAR, CLEAR) && Calm(s)
  {
    FreshBits();
    moves, s := OpenedFirst();
    moves, s := MapStep(moves, s, Step.Create(1));
    assert |s.st.w.maps| == 2 && s.st.w.maps[1] == Clears(1) && s.st.w.maps[0] == Clears(2);
  }

  // The first page of the second cluster of object 0.
  function Write(value: bv8): Request {
    Request(0, 2, [[value]], 0, 1, true)
  }

  lemma WriteOk(st: Store, value: bv8)
    requires st.shift == 0 && Small(st.w, 2)
    ensures RequestOk(st, Write(value))
  {
  }

  lemma PageClaimed() returns (moves: seq<Move>, s: State)
    ensures Arises(moves, s) && Small(s.st.w, 2) && Entries(s.st.w, At(0), At(1).(alloc := {0}), CLEAR)
    ensures Calm(s)
  {
    moves, s := BothAllocated();
    moves, s := ClaimMove(moves, s, 2, 0, 1, 0);
    assert At(1).alloc + {0} == {0};
  }

  lemma BothAllocated() returns (moves: seq<Move>, s: State)
    ensures Arises(moves, s) && Small(s.st.w, 2) && Entries(s.st.w, At(0), At(1), CLEAR) && Calm(s)
  {
    moves, s := OpenedObjects();
    moves, s := AllocateMove(moves, s, 0, 0, 0);
    moves, s := AllocateMove(moves, s, 1, 0, 1);
  }

  // Two writes of the page are outstanding.
  lemma TwoWrites() returns (moves: seq<Move>, s: State)
    ensures Arises(moves, s) && Small(s.st.w, 2) && Entries(s.st.w, At(0), At(1).(alloc := {0}), CLEAR)
    ensures s.st.out == [Write(1), Write(2)] && s.st.shift == 0
  {
    moves, s := PageStarted();
    WriteOk(s.st, 2);
    moves, s := StartStep(moves, s, Write(2));
  }

  lemma WriteIsCurrent(w: World, value: bv8)
    requires Small(w, 2) && Entries(w, At(0), At(1).(alloc := {0}), CLEAR)
    ensures Current(w, Write(value))
  {
    assert Span(0, 1) <= {0};
  }

  // One of them fails, and the cluster is given up.
  lemma GivesUp(w: World)
    requires Small(w, 2) && Entries(w, At(0), At(1).(alloc := {0}), CLEAR)
    ensures var u := Refuse(w, 0, 2, KERN_FAILURE, true);
      Small(u, 1) && Entries(u, At(0), WithError(At(1).(alloc := {0}), KERN_FAILURE), CLEAR)
  {
    var u := GiveUp(w, 2, 0, 1, KERN_FAILURE);
  }

  lemma OneFails() returns (moves: seq<Move>, s: State)
    ensures Arises(moves, s) && Small(s.st.w, 1) && s.st.out == [Write(1)] && s.st.shift == 0
    ensures Entries(s.st.w, At(0), WithError(At(1).(alloc := {0}), KERN_FAILURE), CLEAR)
  {
    moves, s := TwoWrites();
    GivesUp(s.st.w);
    WriteIsCurrent(s.st.w, 2);
    moves, s := EndStep(moves, s, 1, Write(2), [], KERN_FAILURE);
    RemoveSecond(Write(1), Write(2));
  }

  // Object 1 takes it.
  lemma ClusterMoves() returns (moves: seq<Move>, s: State)
    ensures Arises(moves, s) && Small(s.st.w, 2) && s.st.out == [Write(1)] && s.st.shift == 0
    ensures Entries(s.st.w, At(0), WithError(At(1).(alloc := {0}), KERN_FAILURE), At(1).(alloc := {0}))
  {
    moves, s := OneFails();
    moves, s := AllocateMove(moves, s, 1, 1, 0);
    moves, s := ClaimMove(moves, s, 2, 1, 0, 0);
    assert At(1).alloc + {0} == {0};
  }

  function Other(): Request {
    Request(1, 0, [[3]], 0, 1, true)
  }

  // It writes its page there.
  lemma OtherWritten() returns (moves: seq<Move>, s: State)
    ensures Arises(moves, s) && s.st.out == [Write(1)] && s.st.shift == 0 && s.st.w.clsize == 2
    ensures Contents(s.st, 1, 0) == Some([3])
    ensures HasEntry(s.st.w, 0, 1) && s.st.w.maps[0][1].error && Idle(s.st.w, 0)
    ensures Location(s.st.w, 1, 0) == Some(Place(0, 1, 0))
  {
    moves, s := OtherBegun();
    var before := s;
    OtherIsFull(s.st.w);
    moves, s := EndStep(moves, s, 1, Other(), [[3]], 0);
    AfterEnd(before, s, Landed(1, 0, [[3]]));
    RemoveSecond(Write(1), Other());
  }

  lemma OtherBegun() returns (moves: seq<Move>, s: State)
    ensures Arises(moves, s) && Small(s.st.w, 2) && s.st.out == [Write(1), Other()] && s.st.shift == 0
    ensures Entries(s.st.w, At(0), WithError(At(1).(alloc := {0}), KERN_FAILURE), At(1).(alloc := {0}))
    ensures RequestOk(s.st, Other())
  {
    moves, s := ClusterMoves();
    assert RequestOk(s.st, Other());
    moves, s := StartStep(moves, s, Other());
  }

  lemma OtherIsFull(w: World)
    requires Small(w, 2) && Entries(w, At(0), WithError(At(1).(alloc := {0}), KERN_FAILURE), At(1).(alloc := {0}))
    ensures Current(w, Other()) && Idle(w, 1)
    ensures var u := Accept(w, Other());
      && u.clsize == 2 && u.inflight == w.inflight && HasEntry(u, 0, 1) && u.maps[0][1].error
      && Location(u, 1, 0) == Some(Place(0, 1, 0))
  {
    assert Span(0, 1) == {0};
    AcceptedLocation(w, Other(), 1, 0);
  }

  // Then the write of object 0, which has been outstanding all the time, reaches the device; and the
  // page of object 1 holds what was written to object 0.
  lemma PageIsOverwritten() returns (moves: seq<Move>, s: State)
    ensures Arises(moves, s) && Possible(s, End(0, [[1]], 0)) && !Careful(s, End(0, [[1]], 0))
    ensures StoreInv(s.st) && Contents(s.st, 1, 0) == Some([3])
    ensures StoreInv(MovedStore(s, End(0, [[1]], 0))) && Contents(MovedStore(s, End(0, [[1]], 0)), 1, 0) == Some([1])
  {
    moves, s := OtherWritten();
    var r := Write(1);
    assert RequestOk(s.st, r) && !Current(s.st.w, r) && !Misplaced(s.st, r, 0);
    assert !HarmlessTo(s.st, r, [[1]], 0, 1, 0);
    ArriveContents(s.st, r, [[1]], 0, 1, 0);
    ArriveLocation(s.st, r, [[1]], 0, 1, 0);
    var u := Arrive(s.st, r, [[1]], 0);
    DequeueKeepsStore(u, 0);
    assert Contents(Dequeue(u, 0), 1, 0) == Contents(u, 1, 0);
  }

  // ---------------------------------------------------------------- a page that is being read

  function Full(c: nat): VsMap {
    At(c).(alloc := {0}, bmap := {0})
  }

  // Nothing has been written where cluster 2 begins.
  predicate Unwritten(disk: Disk) {
    disk(0, 4) == 0
  }

  // The page of object 0 in cluster 1 has been written.
  lemma PageLanded() returns (moves: seq<Move>, s: State)
    ensures Arises(moves, s) && Small(s.st.w, 2) && Entries(s.st.w, At(0), Full(1), CLEAR)
    ensures s.fetches == map[] && s.st.out == [] && s.st.shift == 0 && Unwritten(s.st.disk)
  {
    moves, s := PageStarted();
    var st := s.st;
    StaysUnwritten(st, 1);
    WriteIsCurrent(st.w, 1);
    BecomesFull(st.w, 1);
    moves, s := EndStep(moves, s, 0, Write(1), [[1]], 0);
    RemoveOnly(Write(1));
  }

  lemma PageStarted() returns (moves: seq<Move>, s: State)
    ensures Arises(moves, s) && Small(s.st.w, 2) && Entries(s.st.w, At(0), At(1).(alloc := {0}), CLEAR)
    ensures s.fetches == map[] && s.st.out == [Write(1)] && s.st.shift == 0 && s.st.disk == Blank()
    ensures RequestOk(s.st, Write(1))
  {
    moves, s := PageClaimed();
    WriteOk(s.st, 1);
    moves, s := StartStep(moves, s, Write(1));
    WriteOk(s.st, 1);
  }

  lemma BecomesFull(w: World, value: bv8)
    requires Small(w, 2) && Entries(w, At(0), At(1).(alloc := {0}), CLEAR)
    ensures Small(Accept(w, Write(value)), 2) && Entries(Accept(w, Write(value)), At(0), Full(1), CLEAR)
  {
    assert Idle(w, 0);
    assert Span(0, 1) == {0};
    AcceptedWorld(w, Write(value));
  }

  lemma StaysUnwritten(st: Store, value: bv8)
    requires StoreInv(st) && RequestOk(st, Write(value)) && Unwritten(st.disk) && Small(st.w, 2) && st.shift == 0
    ensures Unwritten(Arrive(st, Write(value), [[value]], 0).disk)
  {
    var r, x := Write(value), Place(0, 2, 0);
    assert Part(r, [[value]]) == r;
    assert PageNumber(st.w, x) == 4 && FirstPage(st.w, r) == 2;
    TransferSeen(st, r, x);
    UnwrittenPage(st);
    UnwrittenPage(st.(disk := Transfer(st, r)));
  }

  lemma UnwrittenPage(st: Store)
    requires st.shift == 0 && |st.w.segs| == 1 && st.w.segs[0].geo == PLACE && st.w.clsize == 2
    ensures Unwritten(st.disk) <==> PageIn(st, Place(0, 2, 0)) == [0]
  {
    FifthPage(st.disk);
    assert PageNumber(st.w, Place(0, 2, 0)) == 4;
  }

  lemma FifthPage(disk: Disk)
    ensures PageAt(disk, PLACE, 0, 4) == [disk(0, 4)]
  {
    FifthAddress();
    FirstByte(disk, PLACE, 0, 4, 4);
  }

  lemma FirstByte(disk: Disk, g: Geometry, shift: nat, n: nat, at: nat)
    requires g.recordShift <= shift && AddressOfPage(g, shift, n) == at && Pow2(shift) == 1
    ensures PageAt(disk, g, shift, n) == [disk(g.device, at)]
  {
  }

  lemma FifthAddress()
    ensures Pow2(0) == 1 && AddressOfPage(PLACE, 0, 4) == 4
  {
    PagesAreContiguous(PLACE, 0, 4);
  }

  // Page p has been found and read, and has not been supplied yet.
  ghost predicate BeingRead(s: State, p: nat) {
    && 0 in s.fetches && s.fetches[0].o == 0 && s.fetches[0].first == p
    && s.fetches[0].data.Some? && |s.fetches[0].data.value| == 1
  }

  lemma FetchSteps(before: seq<Move>, s: State, p: nat) returns (moves: seq<Move>, t: State)
    requires Arises(before, s) && s.st.shift == 0 && s.st.w.clsize > 0 && 0 !in s.fetches
    requires Idle(s.st.w, 0) && Present(s.st.w, 0, p, 1)
    ensures Arises(moves, t) && BeingRead(t, p) && t.st == s.st
  {
    moves, t := Step1(before, s, Find(0, 0, p, 1));
    OneByte();
    CompleteIsWhole(0, RecordBits(t.st, t.fetches[0].seg), 1, [1]);
    assert FetchOk(t.st, t.fetches[0]);
    moves, t := Step1(moves, t, Move.Read(0, [1]));
  }

  lemma PageRead() returns (moves: seq<Move>, s: State)
    ensures Arises(moves, s) && Small(s.st.w, 2) && Entries(s.st.w, At(0), Full(1), CLEAR)
    ensures BeingRead(s, 2) && s.st.out == [] && s.st.shift == 0 && Unwritten(s.st.disk)
  {
    moves, s := PageLanded();
    moves, s := FetchSteps(moves, s, 2);
  }

  lemma OneByte()
    ensures forall bits: nat :: Quality(0, bits, 1, [1]) == 0
  {
    assert [1][1..] == [];
    assert Arrived([1], 1) == 1;
    assert forall bits: nat :: WholeRecords(bits, [1], 1);
  }

  // ---------------------------------------------------------------- an error code is freed

  // Then object 1 takes cluster 2, and the rest of a failed request puts error 2 into the entry of the
  // page.  When the read unmaps the page, cluster 2 is marked free although object 1 has it.
  lemma ErrorCodeIsFreed() returns (moves: seq<Move>, s: State)
    ensures Arises(moves, s) && Possible(s, Supply(0)) && !Careful(s, Supply(0))
    ensures |s.st.w.segs| == 1 && Holds(s.st.w, 1, 0, 0, PAGER_ERROR) && InUse(s.st.w.segs[0], PAGER_ERROR)
    ensures var u := MovedStore(s, Supply(0)).w;
      |u.segs| == 1 && Holds(u, 1, 0, 0, PAGER_ERROR) && !InUse(u.segs[0], PAGER_ERROR)
  {
    moves, s := ErrorMeetsRead();
    MappedClusterInUse(s.st.w, 1, 0);
    assert Span(0, 1) == {0};
    CodeIsFreed(s.st.w);
  }

  lemma ErrorMeetsRead() returns (moves: seq<Move>, s: State)
    ensures Arises(moves, s) && BeingRead(s, 2) && WorldInv(s.st.w) && s.st.w.clsize == 2 && Idle(s.st.w, 0)
    ensures |s.st.w.segs| == 1 && s.st.w.segs[0].geo == PLACE
    ensures Entries(s.st.w, At(0), WithError(Full(1), PAGER_ERROR), At(2))
  {
    moves, s := PageRead();
    moves, s := AllocateMove(moves, s, 2, 1, 0);
    moves, s := ErrorRecorded(moves, s);
  }

  lemma ErrorRecorded(before: seq<Move>, s: State) returns (moves: seq<Move>, t: State)
    requires Arises(before, s) && Small(s.st.w, 3) && Entries(s.st.w, At(0), Full(1), At(2)) && BeingRead(s, 2)
    ensures Arises(moves, t) && BeingRead(t, 2) && WorldInv(t.st.w) && t.st.w.clsize == 2 && Idle(t.st.w, 0)
    ensures |t.st.w.segs| == 1 && t.st.w.segs[0].geo == PLACE
    ensures Entries(t.st.w, At(0), WithError(Full(1), PAGER_ERROR), At(2))
  {
    var w := s.st.w;
    assert Idle(w, 0);
    RefusedWorld(w, 0, 2, PAGER_ERROR, true);
    MappedClusterInUse(w, 0, 1);
    moves, t := Step1(before, s, Refusal(0, 2, 1, PAGER_ERROR, true));
  }

  lemma CodeIsFreed(w: World)
    requires WorldInv(w) && |w.segs| == 1 && w.segs[0].geo == PLACE && Idle(w, 0)
    requires Entries(w, At(0), WithError(Full(1), PAGER_ERROR), At(2))
    ensures Enabled(w, Unmap(0, 1, {0})) && !Sound(w, Unmap(0, 1, {0}))
    ensures var u := Take(w, Unmap(0, 1, {0}));
      |u.segs| == 1 && Holds(u, 1, 0, 0, PAGER_ERROR) && !InUse(u.segs[0], PAGER_ERROR)
  {
    MappedClusterInUse(w, 1, 0);
    UnsoundStep(w, Unmap(0, 1, {0}));
  }

  // ---------------------------------------------------------------- a page holds what was never written

  // Or a second write of the page is started while the first is being read.  The supply then frees the
  // cluster, object 1 takes it, and the entry gets cluster 2.
  lemma EntryMoves() returns (moves: seq<Move>, s: State)
    ensures Arises(moves, s) && Small(s.st.w, 3) && Entries(s.st.w, At(0), At(2).(alloc := {0}), At(1))
    ensures s.st.out == [Write(2)] && s.st.shift == 0 && Unwritten(s.st.disk)
  {
    moves, s := ClustersTaken(2);
    moves, s := ClaimMove(moves, s, 3, 0, 1, 0);
    assert At(2).alloc + {0} == {0};
  }

  lemma ClustersTaken(value: bv8) returns (moves: seq<Move>, s: State)
    ensures Arises(moves, s) && Small(s.st.w, 3) && Entries(s.st.w, At(0), At(2), At(1))
    ensures s.st.out == [Write(value)] && s.st.shift == 0 && Unwritten(s.st.disk) && 0 !in s.fetches
  {
    moves, s := SecondStarted(value);
    moves, s := AllocateMove(moves, s, 1, 1, 0);
    moves, s := AllocateMove(moves, s, 2, 0, 1);
  }

  lemma SecondStarted(value: bv8) returns (moves: seq<Move>, s: State)
    ensures Arises(moves, s) && Small(s.st.w, 1) && Entries(s.st.w, At(0), CLEAR, CLEAR)
    ensures s.st.out == [Write(value)] && s.st.shift == 0 && Unwritten(s.st.disk) && 0 !in s.fetches
  {
    moves, s := PageRead();
    WriteOk(s.st, value);
    moves, s := StartStep(moves, s, Write(value));
    moves, s := PageSupplied(moves, s);
  }

  lemma PageSupplied(before: seq<Move>, s: State) returns (moves: seq<Move>, t: State)
    requires Arises(before, s) && Small(s.st.w, 2) && Entries(s.st.w, At(0), Full(1), CLEAR) && BeingRead(s, 2)
    ensures Arises(moves, t) && Small(t.st.w, 1) && Entries(t.st.w, At(0), CLEAR, CLEAR)
    ensures t.st.out == s.st.out && t.st.shift == s.st.shift && t.st.disk == s.st.disk && 0 !in t.fetches
  {
    assert Span(0, 1) == {0};
    FullUnmapped(s.st.w);
    moves, t := Step1(before, s, Supply(0));
  }

  lemma FullUnmapped(w: World)
    requires Small(w, 2) && Entries(w, At(0), Full(1), CLEAR)
    ensures Enabled(w, Unmap(0, 1, {0})) && Sound(w, Unmap(0, 1, {0}))
    ensures var u := Take(w, Unmap(0, 1, {0})); Small(u, 1) && Entries(u, At(0), CLEAR, CLEAR)
  {
    assert Idle(w, 0);
    MappedClusterInUse(w, 0, 1);
    StepKeepsWorld(w, Unmap(0, 1, {0}));
  }

  lemma LandsAstray(st: Store)
    requires StoreInv(st) && Small(st.w, 3) && Entries(st.w, At(0), At(2).(alloc := {0}), At(1))
    requires st.out == [Write(2)] && st.shift == 0 && Unwritten(st.disk)
    ensures RequestOk(st, Write(2)) && Idle(st.w, 0) && Misplaced(st, Write(2), 0) && !Harmless(st, Write(2), [[2]], 0)
    ensures var u := Dequeue(Arrive(st, Write(2), [[2]], 0), 0); StoreInv(u) && Contents(u, 0, 2) == Some([0])
  {
    assert RequestOk(st, st.out[0]);
    MisplacedArrival(st, Write(2), 2);
    UnwrittenPage(st);
    assert LandedBytes(st, Write(2), 2) == [0];
    assert !HarmlessTo(st, Write(2), [[2]], 0, 0, 2);
    DequeueKeepsStore(Arrive(st, Write(2), [[2]], 0), 0);
  }

  // Now the second write succeeds: the page becomes valid in cluster 2, where its data is not.
  lemma PageIsAstray() returns (moves: seq<Move>, s: State)
    ensures Arises(moves, s) && Possible(s, End(0, [[2]], 0)) && Misplaced(s.st, s.st.out[0], 0)
    ensures !Careful(s, End(0, [[2]], 0)) && Events(s, End(0, [[2]], 0)) == [Landed(0, 2, [[2]])]
    ensures var u := MovedStore(s, End(0, [[2]], 0)); StoreInv(u) && Contents(u, 0, 2) == Some([0])
  {
    moves, s := EntryMoves();
    LandsAstray(s.st);
  }

  // ---------------------------------------------------------------- a cluster is freed under a page

  // Or the second write is of the byte that cluster 2 happens to hold, and only the other page of the
  // entry has been claimed there.  Then it does no harm yet, but the page is valid and not allocated.
  lemma PageUnclaimed() returns (moves: seq<Move>, s: State)
    ensures Arises(moves, s) && Small(s.st.w, 3)
    ensures Entries(s.st.w, At(0), At(2).(alloc := {1}, bmap := {0}), At(1))
    ensures s.st.out == [] && s.st.shift == 0 && 0 !in s.fetches
  {
    moves, s := OtherClaimed();
    var st := s.st;
    LandsUnclaimed(st);
    assert Possible(s, End(0, [[0]], 0)) && Careful(s, End(0, [[0]], 0));
    moves, s := Step1(moves, s, End(0, [[0]], 0));
    RemoveOnly(Write(0));
  }

  lemma OtherClaimed() returns (moves: seq<Move>, s: State)
    ensures Arises(moves, s) && Small(s.st.w, 3) && Entries(s.st.w, At(0), At(2).(alloc := {1}), At(1))
    ensures s.st.out == [Write(0)] && s.st.shift == 0 && Unwritten(s.st.disk) && 0 !in s.fetches
  {
    moves, s := ClustersTaken(0);
    moves, s := ClaimMove(moves, s, 3, 0, 1, 1);
    assert At(2).alloc + {1} == {1};
  }

  lemma LandsUnclaimed(st: Store)
    requires StoreInv(st) && Small(st.w, 3) && Entries(st.w, At(0), At(2).(alloc := {1}), At(1))
    requires st.out == [Write(0)] && st.shift == 0 && Unwritten(st.disk)
    ensures RequestOk(st, Write(0)) && Idle(st.w, 0) && Harmless(st, Write(0), [[0]], 0)
    ensures Outcome(st, Write(0), [[0]], 0)
    ensures var w := Accept(st.w, Write(0));
      Small(w, 3) && Entries(w, At(0), At(2).(alloc := {1}, bmap := {0}), At(1))
  {
    var r := Write(0);
    assert RequestOk(st, st.out[0]);
    assert Span(0, 1) == {0};
    UnwrittenPage(st);
    forall o: nat, p: nat ensures HarmlessTo(st, r, [[0]], 0, o, p) {
      assert Location(st.w, o, p).None?;
      if Concerns(Arrival(st, r, 0), 2, o, p) {
        assert LandedBytes(st, r, p) == [0];
      }
    }
    AcceptedWorld(st.w, r);
  }

  // The other page of the entry is written, and then found and read.
  lemma OtherRead() returns (moves: seq<Move>, s: State)
    ensures Arises(moves, s) && Small(s.st.w, 3) && BeingRead(s, 3)
    ensures Entries(s.st.w, At(0), At(2).(alloc := {1}, bmap := {0, 1}), At(1))
  {
    moves, s := OtherStarted();
    BothFull(s.st.w);
    moves, s := EndStep(moves, s, 0, Second(), [[7]], 0);
    moves, s := FetchSteps(moves, s, 3);
  }

  function Second(): Request {
    Request(0, 3, [[7]], 0, 2, true)
  }

  lemma OtherStarted() returns (moves: seq<Move>, s: State)
    ensures Arises(moves, s) && Small(s.st.w, 3)
    ensures Entries(s.st.w, At(0), At(2).(alloc := {1}, bmap := {0}), At(1))
    ensures s.st.out == [Second()] && s.st.shift == 0 && 0 !in s.fetches && RequestOk(s.st, Second())
  {
    moves, s := PageUnclaimed();
    assert RequestOk(s.st, Second());
    moves, s := StartStep(moves, s, Second());
  }

  lemma BothFull(w: World)
    requires Small(w, 3) && Entries(w, At(0), At(2).(alloc := {1}, bmap := {0}), At(1))
    ensures Current(w, Second()) && Small(Accept(w, Second()), 3)
    ensures Entries(Accept(w, Second()), At(0), At(2).(alloc := {1}, bmap := {0, 1}), At(1))
  {
    assert Idle(w, 0);
    assert Span(1, 1) == {1};
    assert {0} + {1} == {0, 1};
    AcceptedWorld(w, Second());
  }

  // Its supply frees the cluster, and the first page is gone without an event.
  lemma PageIsStranded() returns (moves: seq<Move>, s: State)
    ensures Arises(moves, s) && Possible(s, Supply(0)) && !Careful(s, Supply(0))
    ensures Contents(s.st, 0, 2).Some? && Events(s, Supply(0)) == [Supplied(0, 3, 1)]
    ensures var u := MovedStore(s, Supply(0)); StoreInv(u) && Contents(u, 0, 2) == None
  {
    moves, s := OtherRead();
    assert Span(1, 1) == {1};
    assert Idle(s.st.w, 0);
    assert 0 in s.st.w.maps[0][1].bmap - {1};
    assert Strands(s.st.w, 0, 3, 1);
    ForgottenContents(s.st, 0, 3, 1, 0, 2);
  }
}
