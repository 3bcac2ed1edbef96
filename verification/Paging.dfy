// The paging read and write paths, over any number of objects.  Requests come one page range at a
// time; writes are synchronous or leave device requests outstanding that finish in any order.

module Paging {
  import opened Arithmetic
  import opened Bitmap
  import opened ClusterMap
  import opened Device
  import opened Ownership
  import opened PageStore
  import opened Reading
  import opened Segment
  import opened Totals
  import opened Transfers
  import opened Wrappers
  import opened Writing

  class Pager {
    var store: Store
    ghost var history: seq<Event>

    // The store is in order, though not every page need hold what was written to it.
    ghost predicate InOrder()
      reads this
    {
      StoreInv(store) && Settled(store)
    }

    // The contents of every page of every object are what the history of transfers says.
    ghost predicate Valid()
      reads this
    {
      InOrder() && Faithful(store, history)
    }

    // In order, and true to the history if b.
    ghost predicate ValidIf(b: bool)
      reads this
    {
      InOrder() && (b ==> Faithful(store, history))
    }

    constructor (clsize: nat, shift: nat, disk: Disk)
      requires clsize > 0
      ensures Valid() && history == [] && store.w == Empty(clsize) && store.out == []
    {
      store, history := Store(Empty(clsize), shift, disk, [], []), [];
    }

    // default_pager_add_segment: refused if it overlaps a segment of the same device.
    method AddSegment(g: Seg) returns (ok: bool)
      requires Valid() && Enabled(store.w, Step.AddSegment(g)) && GeometryOk(g.geo, store.shift, store.w.clsize)
      requires forall s :: 0 <= s < |store.w.segs| && store.w.segs[s].geo.device == g.geo.device ==>
        store.w.segs[s].geo.recordShift == g.geo.recordShift
      modifies this
      ensures Valid() && history == old(history)
      ensures ok <==> forall s :: 0 <= s < |old(store.w.segs)| ==> !Overlaps(old(store.w.segs)[s].geo, g.geo)
      ensures store == if ok then old(store).(w := Take(old(store.w), Step.AddSegment(g))) else old(store)
    {
      ok := NoOverlap(store.w.segs, g.geo);
      if ok {
        QuietSteps(store.w, Step.AddSegment(g));
        var w := Take(store.w, Step.AddSegment(g));
        QuietlyAllocated(store.w, w);
        StaysSettled(store, w);
        ApartFromAll(store, g);
        QuietlyKeepsStore(store, w, store.pending);
        store := store.(w := w);
      }
    }

    static method NoOverlap(segs: seq<Seg>, g: Geometry) returns (ok: bool)
      ensures ok <==> forall s :: 0 <= s < |segs| ==> !Overlaps(segs[s].geo, g)
    {
      for i := 0 to |segs|
        invariant forall s :: 0 <= s < i ==> !Overlaps(segs[s].geo, g)
      {
        if Overlaps(segs[i].geo, g) {
          return false;
        }
      }
      return true;
    }

    // ps_vstruct_create: an object of n clusters, holding no page.
    method Create(n: nat) returns (o: nat)
      requires Valid() && n > 0
      modifies this
      ensures Valid() && history == old(history) && o == |old(store.w.maps)| && IsObject(store, o)
      ensures store == old(store).(w := Take(old(store.w), Step.Create(n)), pending := old(store.pending) + [0])
    {
      o := |store.w.maps|;
      QuietSteps(store.w, Step.Create(n));
      var w := Take(store.w, Step.Create(n));
      forall o' | 0 <= o' < |w.maps| ensures Idle(w, o') {
        assert o' < |store.w.maps| ==> Idle(store.w, o');
      }
      QuietlyKeepsStore(store, w, store.pending + [0]);
      QuietlyAllocated(store.w, w);
      store := store.(w := w, pending := store.pending + [0]);
    }

    // ps_vstruct_dealloc, once no write of the object is pending: every cluster the object holds goes
    // back, and its size is no longer committed.
    method Destroy(o: nat)
      requires Valid() && o < |store.w.maps| && store.pending[o] == 0
      modifies this
      ensures Valid() && history == old(history) + [Destroyed(o)] && o < |store.w.maps| && store.w.maps[o] == []
      ensures forall s: nat, c: nat :: (s, c) in store.w.owner ==>
        store.w.owner[(s, c)].Leaked? || store.w.owner[(s, c)].o != o
    {
      NothingPending(store, o);
      ghost var st := store;
      var n, k := |store.w.maps[o]|, 0;
      assert Idle(store.w, o);
      while k < n
        invariant StoreInv(store) && GivenUpTo(st, store, o, k)
        invariant k <= n == |store.w.maps[o]| && history == old(history)
      {
        GiveFurther(st, store, o, k);
        store := store.(w := Give(store.w, o, k));
        k := k + 1;
      }
      DiscardKeepsStore(store, o);
      DestroyedFaithful(st, store, history, o);
      StaysSettled(st, Discard(store, o).w);
      store, history := Discard(store, o), history + [Destroyed(o)];
      forall s: nat, c: nat | (s, c) in store.w.owner
        ensures store.w.owner[(s, c)].Leaked? || store.w.owner[(s, c)].o != o
      {
        NothingOwned(store, o, s, c);
      }
    }

    // ps_clmap with CL_ALLOC, for n pages from page p.
    method Claim(o: nat, p: nat, n: nat, luck: Luck) returns (ok: bool)
      requires Valid() && IsObject(store, o) && n > 0
      modifies this
      ensures Valid() && history == old(history) && store == old(store).(w := store.w)
      ensures Quietly(old(store.w), store.w) && |store.w.maps| == |old(store.w.maps)|
      ensures ok <==> Grants(old(store.w), o, p, luck)
      ensures ok ==> Claimed(store.w, o, p, Chunk(store.w, p, n))
      ensures OthersAsWere(old(store.w), store.w, o, Cluster(store.w, p))
      ensures ok ==> var pages := Span(Index(store.w, p), Chunk(store.w, p, n));
        Allotted(old(store.w), store.w, o, Cluster(store.w, p), pages, luck.segment)
      ensures HasEntry(store.w, o, Cluster(store.w, p))
        <==> luck.extend || HasEntry(old(store.w), o, Cluster(store.w, p))
      ensures !ok ==> store.w.segs == old(store.w.segs)
      ensures !ok ==> var k := Cluster(store.w, p); EntryAt(store.w, o, k) == EntryAt(old(store.w), o, k)
      ensures !ok && HasEntry(store.w, o, Cluster(store.w, p)) ==> !Mapped(store.w.maps[o][Cluster(store.w, p)])
    {
      var w;
      assert Idle(store.w, o);
      w, ok := Grant(store.w, o, p, Chunk(store.w, p, n), luck);
      QuietlyAllocated(store.w, w);
      StaysSettled(store, w);
      QuietlyKeepsStore(store, w, store.pending);
      store := store.(w := w);
    }

    static method Grant(w: World, o: nat, p: nat, n: nat, luck: Luck) returns (u: World, ok: bool)
      requires WorldInv(w) && o < |w.maps| && w.maps[o] != [] && Idle(w, o) && Index(w, p) + n <= w.clsize
      ensures WorldInv(u) && Quietly(w, u) && u.inflight == w.inflight && |u.maps| == |w.maps| && |u.segs| == |w.segs|
      ensures ok <==> Grants(w, o, p, luck)
      ensures ok ==> Claimed(u, o, p, n)
      ensures OthersAsWere(w, u, o, Cluster(w, p))
      ensures HasEntry(u, o, Cluster(w, p)) <==> luck.extend || HasEntry(w, o, Cluster(w, p))
      ensures ok ==> Allotted(w, u, o, Cluster(w, p), Span(Index(w, p), n), luck.segment)
      ensures !ok ==> u.segs == w.segs && EntryAt(u, o, Cluster(w, p)) == EntryAt(w, o, Cluster(w, p))
      ensures !ok && HasEntry(u, o, Cluster(w, p)) ==> !Mapped(u.maps[o][Cluster(w, p)])
    {
      var k := Cluster(w, p);
      u := w;
      if k >= |w.maps[o]| {
        if !luck.extend {
          return w, false;
        }
        QuietSteps(w, Extend(o, k + 1));
        u := Take(w, Extend(o, k + 1));
        ExtendedAsWere(w, u, o, k);
      }
      ok := !u.maps[o][k].error && (Mapped(u.maps[o][k]) || (luck.block && HasRoom(w, luck.segment)));
      if ok {
        ghost var v := u;
        u := Allot(u, o, k, Span(Index(w, p), n), luck.segment);
        QuietlyTwice(w, v, u);
        AllottedFrom(w, v, u, o, k, Span(Index(w, p), n), luck.segment);
      }
    }

    // Allocate a cluster for the entry if it has none, and mark the pages.
    static method Allot(w: World, o: nat, k: nat, pages: set<nat>, s: nat) returns (u: World)
      requires WorldInv(w) && HasEntry(w, o, k) && Idle(w, o) && !w.maps[o][k].error
      requires Mapped(w.maps[o][k]) || HasRoom(w, s)
      requires forall i :: i in pages ==> i < w.clsize
      ensures WorldInv(u) && Quietly(w, u) && u.inflight == w.inflight && |u.maps| == |w.maps| && |u.segs| == |w.segs|
      ensures HasEntry(u, o, k) && Mapped(u.maps[o][k]) && pages <= u.maps[o][k].alloc
      ensures OthersAsWere(w, u, o, k) && Allotted(w, u, o, k, pages, s)
    {
      u := w;
      if !Mapped(w.maps[o][k]) {
        u := AllotCluster(w, o, k, s);
      }
      QuietSteps(u, MarkAlloc(o, k, pages));
      QuietlyTwice(w, u, Take(u, MarkAlloc(o, k, pages)));
      AllottedMore(w, u, o, k, pages, s);
      u := Take(u, MarkAlloc(o, k, pages));
    }

    // ps_allocate_cluster: reserve a cluster of the segment, find it, and put it in the entry.
    static method AllotCluster(w: World, o: nat, k: nat, s: nat) returns (u: World)
      requires WorldInv(w) && HasEntry(w, o, k) && Idle(w, o) && IsClear(w.maps[o][k]) && HasRoom(w, s)
      ensures WorldInv(u) && Quietly(w, u) && u.inflight == w.inflight && |u.maps| == |w.maps| && |u.segs| == |w.segs|
      ensures HasEntry(u, o, k) && Mapped(u.maps[o][k])
      ensures OthersAsWere(w, u, o, k) && Allotted(w, u, o, k, {}, s)
    {
      QuietSteps(w, Reserve(o, k, s));
      var v := Take(w, Reserve(o, k, s));
      QuietSteps(v, Install(o));
      u := Take(v, Install(o));
      QuietlyTwice(w, v, u);
      InstalledEntry(v, o);
      ReservedFirst(w, v, u, o, k, s);
    }

    // The device write of a claimed chunk: asynchronous if there is a structure to hold the request.
    // A device that refuses is answered at once, as a synchronous error is.  The history stays true
    // exactly if the write harms no page, as it does only if it runs past the chunk.
    method Send(o: nat, first: nat, data: seq<Bytes>, luck: Luck) returns (ev: Event)
      requires Valid() && data != [] && WholePages(data, store.shift) && Claimed(store.w, o, first, |data|)
      modifies this
      ensures InOrder() && history == old(history) + [ev] && SameObjects(old(store), store)
      ensures RequestOk(old(store), Sending(old(store), o, first, data, luck.async))
      ensures var r := Sending(old(store), o, first, data, luck.async);
        Valid() <==> ev.Queued? || Harmless(old(store), r, OnDevice(old(store), r, luck), luck.error)
      ensures Within(luck, |data|) ==> Valid()
      ensures ev == if luck.error != 0 then Failed(o, first, |data|)
                    else if luck.async then Queued(o, first, data) else Landed(o, first, data)
      ensures store.out == old(store.out) + Newest(store.out, ev)
      ensures |Newest(store.out, ev)| == if ev.Queued? then 1 else 0
      ensures forall i :: 0 <= i < |Newest(store.out, ev)| ==>
        IsRequest(store.w, Newest(store.out, ev)[i], o, first, data)
      ensures OnlyEntry(old(store.w), store.w, o, Cluster(store.w, first))
      ensures ev.Failed? ==> store.w == Refuse(old(store.w), o, first, luck.error, true)
    {
      var r := Sending(store, o, first, data, luck.async);
      ClaimedRequest(store, r);
      if luck.async && luck.error == 0 {
        ev := Queued(o, first, data);
        QueueAll(store, history, r);
        store := Queue(store, r);
      } else {
        var wrote := OnDevice(store, r, luck);
        ev := Arrival(store, r, luck.error);
        SentOutcome(store, r, luck);
        ArriveAll(store, history, r, wrote, luck.error);
        store := Arrive(store, r, wrote, luck.error);
      }
      history := history + [ev];
    }

    // device_write_reply for one of the outstanding requests; `wrote` is what the device write left.
    // The pager stays valid exactly if the write harms no page, and makes no page valid that is not
    // allocated; as long as the request is current it does neither.
    method Reply(i: nat, wrote: seq<Bytes>, error: nat) returns (ev: Event)
      requires Valid() && i < |store.out| && Outcome(store, store.out[i], wrote, error)
      modifies this
      ensures ev == Arrival(old(store), old(store.out)[i], error) && history == old(history) + [ev]
      ensures store == Dequeue(Arrive(old(store), old(store.out)[i], wrote, error), i)
      ensures RequestOk(old(store), old(store.out)[i])
      ensures Valid() <==>
        Harmless(old(store), old(store.out)[i], wrote, error) && Claims(old(store.w), old(store.out)[i], error)
      ensures Current(old(store.w), old(store.out)[i]) ==> Valid()
      ensures error != 0 ==>
        store.w == Refuse(old(store.w), old(store.out)[i].o, old(store.out)[i].first, error, true)
    {
      var r := store.out[i];
      assert RequestOk(store, r) && Idle(store.w, r.o);
      ev := Arrival(store, r, error);
      ReplyExactly(store, history, i, wrote, error);
      if Current(store.w, r) {
        CurrentIsHarmless(store, r, wrote, error);
      }
      store := Dequeue(Arrive(store, r, wrote, error), i);
      history := history + [ev];
    }

    // vs_cl_write_complete for the pages that were not sent.
    method GiveBack(o: nat, first: nat, n: nat, error: nat, present: bool) returns (ev: Event)
      requires InOrder() && error > 0
      modifies this
      ensures InOrder() && history == old(history) + [ev] && SameObjects(old(store), store)
      ensures old(Valid()) ==> Valid()
      ensures ev == Failed(o, first, n) && store.out == old(store.out)
      ensures OnlyEntry(old(store.w), store.w, o, Cluster(store.w, first))
      ensures store.w == Refuse(old(store.w), o, first, error, present)
      ensures old(IsUnmapped(store.w, o, first)) ==> store.w.segs == old(store.w.segs)
    {
      assert o < |store.w.maps| ==> Idle(store.w, o);
      RefuseAll(store, o, first, error, present);
      if Faithful(store, history) {
        RefuseFaithful(store, history, o, first, n, error, present);
      }
      store, ev := store.(w := Refuse(store.w, o, first, error, present)), Failed(o, first, n);
      history := history + [ev];
    }

    // One round of vs_cluster_write: allocate, send what belongs to one cluster, or give all back.
    method WriteRound(o: nat, p: nat, data: seq<Bytes>, luck: Luck) returns (ev: Event, n: nat)
      requires Valid() && IsObject(store, o) && WholePages(data, store.shift) && data != []
      modifies this
      ensures ValidIf(Within(luck, n)) && IsObject(store, o)
      ensures store.shift == old(store.shift) && store.w.clsize == old(store.w.clsize)
      ensures 0 < n <= |data| && Handles(ev, o, p, data[..n]) && history == old(history) + [ev]
      ensures store.out == old(store.out) + Newest(store.out, ev)
      ensures |Newest(store.out, ev)| == if ev.Queued? then 1 else 0
      ensures forall i :: 0 <= i < |Newest(store.out, ev)| ==>
        IsRequest(store.w, Newest(store.out, ev)[i], o, p, data[..n])
      ensures OtherCurrent(old(store.w), store.w, o, p) && (n < |data| ==> EndsCluster(store.w, p, p + n))
      ensures !ev.Failed? ==> Succeeded(ev, luck)
      ensures ev.Failed? ==> luck.error != 0 || (n == |data| && Refused(old(store.w), store.w, o, p, luck))
      ensures n < |data| ==> NoErrorsAhead(old(store.w), store.w, o, p + n)
    {
      ghost var w, k := store.w, Cluster(store.w, p);
      var ok := Claim(o, p, |data|, luck);
      ghost var u := store.w;
      QuietErrors(w, u, o, p);
      QuietOtherCurrent(w, u, o, p);
      n := if ok then Chunk(store.w, p, |data|) else |data|;
      if ok {
        var chunk := data[..n];
        ev := Send(o, p, chunk, luck);
      } else {
        ev := GiveBack(o, p, n, KERN_FAILURE, luck.block);
      }
      ghost var v := store.w;
      EntryOtherCurrent(w, u, v, o, p);
      if n < |data| {
        NextCluster(v, p, n);
        OtherErrors(w, u, v, o, p, n, p + n);
      }
    }

    // The rounds, up to the end of the pages or the first failure.
    method WriteRounds(o: nat, first: nat, data: seq<Bytes>, luck: nat -> Luck, ghost end: nat)
      returns (events: seq<Event>, offset: nat, failed: bool, ghost sent: seq<Request>)
      requires Valid() && IsObject(store, o) && WholePages(data, store.shift) && end == first + |data|
      modifies this
      ensures ValidIf(EndsWithin(events, luck)) && IsObject(store, o) && store.w.clsize == old(store.w.clsize)
      ensures first <= offset <= end && (failed || offset == end) && history == old(history) + events
      ensures Progress(old(store.w), store.w, o, first, data, luck, events, offset - first, failed)
      ensures store.out == old(store.out) + sent && Sent(store.w, sent, events, o, offset, end)
    {
      events, offset, failed, sent := [], first, false, [];
      ghost var w := store.w;
      while offset < first + |data| && !failed
        invariant first <= offset <= end
        invariant ValidIf(EndsWithin(events, luck)) && (!failed ==> EndsWithin(events, luck))
        invariant IsObject(store, o) && store.shift == old(store.shift) && store.w.clsize == w.clsize
        invariant history == old(history) + events
        invariant Progress(w, store.w, o, first, data, luck, events, offset - first, failed)
        invariant store.out == old(store.out) + sent && Sent(store.w, sent, events, o, offset, end)
      {
        events, offset, failed, sent :=
          WriteOnce(w, old(history), old(store.out), sent, o, first, data, luck, events, offset, offset - first, end);
      }
    }

    // A round, put together with those before it.
    method WriteOnce(
        ghost w: World, ghost h: seq<Event>, ghost out: seq<Request>, ghost earlier: seq<Request>, o: nat, first: nat,
        data: seq<Bytes>, luck: nat -> Luck, before: seq<Event>, p: nat, was: nat, ghost end: nat)
      returns (events: seq<Event>, offset: nat, failed: bool, ghost sent: seq<Request>)
      requires Valid() && IsObject(store, o) && WholePages(data, store.shift)
      requires p == first + was && was < |data| && end == first + |data|
      requires store.w.clsize == w.clsize && history == h + before
      requires Progress(w, store.w, o, first, data, luck, before, was, false)
      requires store.out == out + earlier && Sent(store.w, earlier, before, o, p, end)
      modifies this
      ensures ValidIf(EndsWithin(events, luck)) && (!failed ==> EndsWithin(events, luck))
      ensures IsObject(store, o) && store.shift == old(store.shift) && store.w.clsize == w.clsize
      ensures history == h + events && p < offset <= end
      ensures Progress(w, store.w, o, first, data, luck, events, offset - first, failed)
      ensures store.out == out + sent && Sent(store.w, sent, events, o, offset, end)
    {
      ghost var u := store.w;
      var rest, now := data[was..], luck(|before|);
      var ev, n := WriteRound(o, p, rest, now);
      ghost var v, newest, done := store.w, Newest(store.out, ev), was + n;
      events, offset, failed, sent := before + [ev], p + n, ev.Failed?, earlier + newest;
      RoundSent(u, v, earlier, newest, sent, before, ev, events, o, p, rest[..n], offset, end);
      RoundWritten(w, u, v, o, first, data, luck, before, was, p, rest, now, ev, n, events, done, failed);
      OneMoreEvent(old(history), history, h, before, ev, events);
      MoreRequests(old(store.out), store.out, out, earlier, newest, sent);
    }

    // vs_cluster_write: every page is handled by exactly one event, in order, and the requests that
    // are left with the device are exactly those of the queued pages, each to the cluster that its pages
    // have.  The history stays true if no write has run past its chunk.
    method Write(o: nat, first: nat, data: seq<Bytes>, luck: nat -> Luck)
      returns (events: seq<Event>, ghost sent: seq<Request>)
      requires Valid() && IsObject(store, o) && WholePages(data, store.shift)
      modifies this
      ensures InOrder() && history == old(history) + events
      ensures AllWithin(events, luck) ==> Valid()
      ensures Answered(events, o, first, data)
      ensures store.out == old(store.out) + sent && Asks(sent) == Queues(events)
      ensures forall i :: 0 <= i < |sent| ==> sent[i].o == o && Current(store.w, sent[i])
      ensures forall j :: 0 <= j < |events| ==> Explained(old(store.w), store.w, events, j, luck(j))
    {
      var offset, failed;
      ghost var end := first + |data|;
      events, offset, failed, sent := WriteRounds(o, first, data, luck, end);
      assert data[..|data|] == data;
      AllExplained(old(store.w), store.w, o, first, data, luck, events, offset - first, failed);
      SentOwn(store.w, sent, o, offset, end);
      if offset < first + |data| {
        events := GiveRest(old(store.w), old(history), o, first, data, luck, events, offset, end, sent);
      }
    }

    // The pages after a failed chunk, from page p on.
    method GiveRest(
        ghost w: World, ghost h: seq<Event>, o: nat, first: nat, data: seq<Bytes>,
        luck: nat -> Luck, before: seq<Event>, p: nat, ghost end: nat, ghost sent: seq<Request>)
      returns (events: seq<Event>)
      requires InOrder() && IsObject(store, o) && first <= p < first + |data| == end && store.w.clsize == w.clsize
      requires Progress(w, store.w, o, first, data, luck, before, p - first, true) && history == h + before
      requires Sent(store.w, sent, before, o, p, end)
      modifies this
      ensures InOrder() && (old(Valid()) ==> Valid()) && history == h + events && store.out == old(store.out)
      ensures Answered(events, o, first, data) && Asks(sent) == Queues(events)
      ensures forall i :: 0 <= i < |sent| ==> sent[i].o == o && Current(store.w, sent[i])
      ensures AllWithin(events, luck) ==> AllWithin(before, luck)
      ensures forall j :: 0 <= j < |events| ==> Explained(w, store.w, events, j, luck(j))
    {
      ghost var u := store.w;
      var left := first + |data| - p;
      var ev := GiveBack(o, p, left, PAGER_ERROR, luck(|before|).block);
      events := before + [ev];
      RestSent(u, store.w, sent, before, ev, events, o, p, end);
      SentOwn(store.w, sent, o, end, end);
      TailExplained(w, u, store.w, o, first, data, luck, before, p - first, p, left, ev);
      OneMoreEvent(old(history), history, h, before, ev, events);
      if AllWithin(events, luck) {
        WithinBefore(before, ev, luck);
      }
    }

    // ---------------------------------------------------------------- reading

    // Count the pages from position i of an entry that are all present, or all absent.
    static method CountRun(e: VsMap, i: nat, clsize: nat, cnt: nat) returns (size: nat, unavail: nat)
      requires i < clsize && cnt > 0
      ensures (size == 0) != (unavail == 0) && size + unavail <= cnt && i + size + unavail <= clsize
      ensures forall j :: i <= j < i + size ==> j in e.bmap
      ensures forall j :: i <= j < i + unavail ==> j !in e.bmap
      ensures var j := i + size + unavail; size + unavail == cnt || j == clsize || ((j in e.bmap) == (size == 0))
    {
      size, unavail := 0, 0;
      var j := i;
      while size < cnt && unavail < cnt && j < clsize
        invariant size == 0 || unavail == 0
        invariant j == i + size + unavail <= clsize && size + unavail <= cnt
        invariant forall x :: i <= x < i + size ==> x in e.bmap
        invariant forall x :: i <= x < i + unavail ==> x !in e.bmap
      {
        if j in e.bmap {
          if unavail != 0 {
            break;
          }
          size := size + 1;
        } else {
          if size != 0 {
            break;
          }
          unavail := unavail + 1;
        }
        j := j + 1;
      }
    }

    // Read n present pages and answer for them.  The device gives counts[0] bytes, then counts[1], and so
    // on; a read that brought something is filled up with zeros to what is then supplied.
    method ReadRun(o: nat, p: nat, n: nat, counts: seq<nat>) returns (replies: seq<Reply>, stop: bool)
      requires Valid() && n > 0 && Present(store.w, o, p, n)
      modifies this
      ensures Valid() && history == old(history) + Supplies(o, replies) && store.out == old(store.out)
      ensures SameObjects(old(store), store) && PlacesKept(old(store), store, o, p, n)
      ensures RoundOk(old(store), store, o, p, n, replies, RoundQuality(old(store), o, p, n, counts))
      ensures stop <==> Ends(store.shift, n, counts)
    {
      ghost var st, quality := store, RoundQuality(store, o, p, n, counts);
      var data := ReadPages(o, p, n, counts);
      var m := |data|;
      replies, stop := RunAnswers(p, n, data), m < n;
      RunReplies(o, p, n, data);
      RunJudged(st, o, p, n, counts);
      assert quality == 0 ==> m == n;
      if m > 0 {
        SupplyPages(o, p, m);
        ghost var u := store;
        RunIsOver(st, u, o, p, n, m, replies, quality);
      } else {
        NothingIsSupplied(st, o, p, n, replies, quality);
      }
    }

    // The device read, through ps_read_device.
    method ReadPages(o: nat, p: nat, n: nat, counts: seq<nat>) returns (data: seq<Bytes>)
      requires Valid() && n > 0 && Present(store.w, o, p, n)
      ensures data == RunData(store, o, p, n, counts)
    {
      PresentRun(store, o, p, n);
      var x := Location(store.w, o, p).value;
      SegmentsFit(store, x.seg, x.seg);
      var size := n * Pow2(store.shift);
      var buffer, residual :=
        ReadDevice(store.disk, store.w.segs[x.seg].geo, store.shift, PageNumber(store.w, x), size, counts);
      data := Supply(buffer, n, Pow2(store.shift));
    }

    // vs_object_data_provided for n present pages.
    method SupplyPages(o: nat, p: nat, n: nat)
      requires Valid() && n > 0 && Present(store.w, o, p, n)
      modifies this
      ensures Valid() && history == old(history) + [Supplied(o, p, n)] && store.out == old(store.out)
      ensures SameObjects(old(store), store) && SameErrors(old(store.w), store.w, o)
      ensures OthersKept(old(store), store, o, p, n) && RequestsKept(old(store.w), store.w, o, p, n)
      ensures PlacesKept(old(store), store, o, p, n) && AllAbsent(store, o, p, n)
    {
      assert Idle(store.w, o);
      ForgetAll(store, history, o, p, n);
      StaysSettled(store, Forget(store.w, o, p, n));
      store := store.(w := Forget(store.w, o, p, n));
      history := history + [Supplied(o, p, n)];
    }

    // One round of vs_cluster_read: one reply for what is absent up to the end of the cluster, or up
    // to the next present page; or a read of the present pages that follow each other.
    method ReadRound(o: nat, p: nat, cnt: nat, counts: seq<nat>)
      returns (replies: seq<Reply>, n: nat, stop: bool, ghost quality: nat)
      requires Valid() && cnt > 0
      modifies this
      ensures Valid() && history == old(history) + Supplies(o, replies) && store.out == old(store.out)
      ensures n == RunLength(old(store.w), o, p, cnt)
      ensures stop <==> Stops(old(store), o, p, cnt, counts)
      ensures SameObjects(old(store), store) && PlacesKept(old(store), store, o, p, n)
      ensures quality == RoundQuality(old(store), o, p, n, counts)
      ensures RoundOk(old(store), store, o, p, n, replies, quality)
    {
      quality := RoundQuality(store, o, p, RunLength(store.w, o, p, cnt), counts);
      var k := Cluster(store.w, p);
      if !HasEntry(store.w, o, k) || !Mapped(store.w.maps[o][k]) {
        n, stop := Chunk(store.w, p, cnt), false;
        AbsentRun(store, o, p, n);
        UnmappedLength(store.w, o, p, cnt);
        AbsentIsProper(store, o, p, n);
        var r := if ErrorCode(store.w, o, p) then Error(p, n) else Unavailable(p, n);
        SingleReply(o, r);
        replies := [r];
      } else {
        var size, unavail := CountRun(store.w.maps[o][k], Index(store.w, p), store.w.clsize, cnt);
        n := size + unavail;
        MappedLength(store.w, o, p, cnt, size, unavail);
        if size == 0 {
          AbsentRun(store, o, p, n);
          AbsentIsProper(store, o, p, n);
          SingleReply(o, Unavailable(p, n));
          replies, stop := [Unavailable(p, n)], false;
        } else {
          replies, stop := ReadRun(o, p, n, counts);
        }
      }
    }

    // vs_cluster_read; counts(i) is what the device gives in round i.  Writes of the object may be
    // outstanding, and keep their clusters unless their own pages are supplied.  How far the read gets
    // is known exactly, and what the replies are worth follows from the worst of the device reads.
    method Read(o: nat, first: nat, cnt: nat, counts: nat -> seq<nat>) returns (replies: seq<Reply>, done: nat)
      requires Valid() && IsObject(store, o)
      modifies this
      ensures Valid() && history == old(history) + Supplies(o, replies) && store.out == old(store.out)
      ensures done == Reach(old(store), o, first, cnt, counts, 0) && Tiles(replies, first, done)
      ensures done == cnt <==> Uncut(old(store), o, first, cnt, counts, 0)
      ensures SameObjects(old(store), store) && OthersKept(old(store), store, o, first, done)
      ensures RequestsKept(old(store.w), store.w, o, first, done)
      ensures forall i :: 0 <= i < |replies| ==>
        Judged(old(store), o, replies[i], Worst(old(store), o, first, cnt, counts, 0))
      ensures Worst(old(store), o, first, cnt, counts, 0) == 0 ==> done == cnt && AllAbsent(store, o, first, cnt)
    {
      ghost var worst := Worst(store, o, first, cnt, counts, 0);
      replies, done := ReadRounds(o, first, cnt, counts, worst);
      CoverageExactly(old(store), o, first, cnt, counts, 0);
      if worst == 0 {
        CompleteReads(old(store), o, first, cnt, counts, 0);
      }
    }

    method ReadRounds(o: nat, first: nat, cnt: nat, counts: nat -> seq<nat>, ghost worst: nat)
      returns (replies: seq<Reply>, done: nat)
      requires Valid() && worst == Worst(store, o, first, cnt, counts, 0)
      modifies this
      ensures Valid() && history == old(history) + Supplies(o, replies) && store.out == old(store.out)
      ensures SameObjects(old(store), store) && ReadSoFar(old(store), store, o, first, done, replies, worst)
      ensures PlacesKept(old(store), store, o, first, done)
      ensures done == Reach(old(store), o, first, cnt, counts, 0)
    {
      replies, done := [], 0;
      var round, stop := 0, false;
      ghost var st := store;
      ReadStarts(st, o, first, worst);
      while done < cnt && !stop
        invariant Valid() && history == old(history) + Supplies(o, replies) && store.out == old(store.out)
        invariant SameObjects(st, store) && done <= cnt && ReadSoFar(st, store, o, first, done, replies, worst)
        invariant PlacesKept(st, store, o, first, done)
        invariant Reached(st, o, first, cnt, counts, done, round, stop, worst)
        decreases cnt - done, !stop
      {
        replies, done, stop := ReadOnce(st, old(history), o, first, cnt, counts, done, round, replies, worst);
        round := round + 1;
      }
      ReadOver(st, o, first, cnt, counts, done, round, stop, worst);
    }

    // A round, put together with those before it.
    method ReadOnce(
        ghost st: Store, ghost h: seq<Event>, o: nat, first: nat, cnt: nat, counts: nat -> seq<nat>, was: nat,
        round: nat, before: seq<Reply>, ghost worst: nat)
      returns (replies: seq<Reply>, done: nat, stop: bool)
      requires Valid() && StoreInv(st) && was < cnt && history == h + Supplies(o, before)
      requires ReadSoFar(st, store, o, first, was, before, worst) && PlacesKept(st, store, o, first, was)
      requires Reached(st, o, first, cnt, counts, was, round, false, worst)
      modifies this
      ensures Valid() && SameObjects(old(store), store) && store.out == old(store.out)
      ensures history == h + Supplies(o, replies)
      ensures was < done <= cnt && ReadSoFar(st, store, o, first, done, replies, worst)
      ensures PlacesKept(st, store, o, first, done)
      ensures Reached(st, o, first, cnt, counts, done, round + 1, stop, worst)
    {
      ghost var u := store;
      var p, left, given := first + was, cnt - was, counts(round);
      var more, n;
      ghost var quality;
      more, n, stop, quality := ReadRound(o, p, left, given);
      ghost var v := store;
      replies, done := before + more, was + n;
      RoundJoins(
        st, u, v, o, first, cnt, counts, was, round, before, p, left, given, n, more, stop, quality, done, replies,
        worst);
      Regrouped(h, Supplies(o, before), Supplies(o, more));
    }
  }

  // Between two methods no allocation is under way, only asynchronous writes are outstanding, and every
  // page with data is allocated.
  ghost predicate Settled(st: Store) {
    && (forall o :: 0 <= o < |st.w.maps| ==> Idle(st.w, o)) && (forall i :: 0 <= i < |st.out| ==> st.out[i].async)
    && Allocated(st.w)
  }

  lemma StaysSettled(st: Store, u: World)
    requires Settled(st) && u.inflight == st.w.inflight && |u.maps| == |st.w.maps|
    ensures Settled(st.(w := u)) <==> Allocated(u)
  {
    forall o | 0 <= o < |u.maps| ensures Idle(u, o) {
      assert Idle(st.w, o);
    }
  }

  // The request for a claimed chunk.
  function Sending(st: Store, o: nat, first: nat, data: seq<Bytes>, async: bool): Request
    requires st.w.clsize > 0 && HasEntry(st.w, o, Cluster(st.w, first))
  {
    var e := st.w.maps[o][Cluster(st.w, first)];
    Request(o, first, data, e.psindex, e.entry, async)
  }

  // The request that an event has left with the device, if any.
  function Newest(out: seq<Request>, ev: Event): seq<Request> {
    if ev.Queued? && out != [] then out[|out| - 1..] else []
  }

  lemma SentOwn(w: World, sent: seq<Request>, o: nat, p: nat, end: nat)
    requires w.clsize > 0 && OwnClusters(w, sent, o, p, end)
    ensures forall i :: 0 <= i < |sent| ==> sent[i].o == o && Current(w, sent[i])
  {
    assert forall i :: 0 <= i < |sent| ==> ForOwnCluster(w, sent[i], o, p, end);
  }

  lemma OneMoreEvent(was: seq<Event>, now: seq<Event>, h: seq<Event>, before: seq<Event>, ev: Event, events: seq<Event>)
    requires was == h + before && now == was + [ev] && events == before + [ev]
    ensures now == h + events
  {
  }

  lemma MoreRequests(
      was: seq<Request>, now: seq<Request>, out: seq<Request>, before: seq<Request>, newest: seq<Request>,
      sent: seq<Request>)
    requires was == out + before && now == was + newest && sent == before + newest
    ensures now == out + sent
  {
  }

  // What its device write leaves.
  function OnDevice(st: Store, r: Request, luck: Luck): seq<Bytes>
    requires st.w.clsize > 0 && r.seg < |st.w.segs|
  {
    var room := st.w.segs[r.seg].geo.ncls * st.w.clsize - FirstPage(st.w, r);
    Remains(luck, r.data, st.shift, if room < 0 then 0 else room)
  }

  lemma SentOutcome(st: Store, r: Request, luck: Luck)
    requires StoreInv(st) && RequestOk(st, r) && r.async == luck.async
    ensures Outcome(st, r, OnDevice(st, r, luck), luck.error)
    ensures Within(luck, |r.data|) ==> |OnDevice(st, r, luck)| <= |r.data|
  {
  }

  // Every entry that the map gains is clear.
  lemma ExtendedAsWere(w: World, u: World, o: nat, k: nat)
    requires WorldInv(w) && Enabled(w, Extend(o, k + 1)) && o < |w.maps| && |w.maps[o]| <= k
    requires u == Take(w, Extend(o, k + 1))
    ensures AsWere(w, u)
  {
  }

  ghost predicate AsWere(w: World, u: World) {
    && |u.maps| == |w.maps| && u.segs == w.segs
    && forall o: nat, k: nat :: EntryAt(u, o, k) == EntryAt(w, o, k)
  }

  lemma AllottedFrom(w: World, v: World, u: World, o: nat, k: nat, pages: set<nat>, s: nat)
    requires AsWere(w, v) && OthersAsWere(v, u, o, k) && Allotted(v, u, o, k, pages, s)
    ensures OthersAsWere(w, u, o, k) && Allotted(w, u, o, k, pages, s)
  {
    forall o': nat, k': nat | o' != o || k' != k ensures EntryAt(u, o', k') == EntryAt(w, o', k') {
      assert EntryAt(u, o', k') == EntryAt(v, o', k') && EntryAt(v, o', k') == EntryAt(w, o', k');
    }
    assert EntryAt(v, o, k) == EntryAt(w, o, k);
  }

  lemma AllottedMore(w: World, u: World, o: nat, k: nat, pages: set<nat>, s: nat)
    requires HasEntry(u, o, k) && OthersAsWere(w, u, o, k)
    requires Allotted(w, u, o, k, {}, s) || (u == w && Mapped(w.maps[o][k]))
    ensures var v := SetEntry(u, o, k, u.maps[o][k].(alloc := u.maps[o][k].alloc + pages));
      OthersAsWere(w, v, o, k) && Allotted(w, v, o, k, pages, s)
  {
    var v := SetEntry(u, o, k, u.maps[o][k].(alloc := u.maps[o][k].alloc + pages));
    forall o': nat, k': nat | o' != o || k' != k ensures EntryAt(v, o', k') == EntryAt(w, o', k') {
      assert EntryAt(v, o', k') == EntryAt(u, o', k');
    }
  }

  // A reservation changes neither entries nor bits.
  lemma ReservedFirst(w: World, v: World, u: World, o: nat, k: nat, s: nat)
    requires v.maps == w.maps && HasEntry(w, o, k) && !Mapped(w.maps[o][k])
    requires s < |w.segs| && v.segs == w.segs[s := Reserved(w.segs[s])] && w.segs[s].clcount > 0
    requires OthersAsWere(v, u, o, k) && HasEntry(u, o, k) && Mapped(u.maps[o][k])
    requires u.maps[o][k] == VsMap(u.maps[o][k].entry, s, false, {}, {}) && FirstFree(v, u, s, u.maps[o][k].entry)
    ensures OthersAsWere(w, u, o, k) && Allotted(w, u, o, k, {}, s)
  {
    assert forall c: nat :: InUse(v.segs[s], c) == InUse(w.segs[s], c);
    forall o': nat, k': nat | o' != o || k' != k ensures EntryAt(u, o', k') == EntryAt(w, o', k') {
      assert EntryAt(u, o', k') == EntryAt(v, o', k');
    }
  }

  lemma InstalledEntry(w: World, o: nat)
    requires WorldInv(w) && Enabled(w, Install(o))
    ensures var (u, k) := (Take(w, Install(o)), w.inflight[o].value.k);
      && |u.maps| == |w.maps| && |u.segs| == |w.segs| && HasEntry(u, o, k) && Mapped(u.maps[o][k])
      && u.inflight == w.inflight[o := None]
      && OthersAsWere(w, u, o, k) && u.maps[o][k] == VsMap(u.maps[o][k].entry, w.inflight[o].value.seg, false, {}, {})
      && FirstFree(w, u, w.inflight[o].value.seg, u.maps[o][k].entry)
  {
    var s := w.inflight[o].value.seg;
    assert FlightOk(w, o, w.inflight[o]);
    InstallFindsFreeCluster(w, o);
    assert SegOk(w, s, w.segs[s]);
    SearchSucceeds(w.segs[s], InFlight(w, s));
    ClusterNumberFits(FoundAt(w.segs[s]), s);
  }

  lemma ClaimedRequest(st: Store, r: Request)
    requires StoreInv(st) && r.data != [] && WholePages(r.data, st.shift) && Claimed(st.w, r.o, r.first, |r.data|)
    requires r.seg == st.w.maps[r.o][Cluster(st.w, r.first)].psindex
      && r.cluster == st.w.maps[r.o][Cluster(st.w, r.first)].entry
    ensures RequestOk(st, r) && Current(st.w, r)
  {
    MappedClusterInUse(st.w, r.o, Cluster(st.w, r.first));
    NumberInSegment(st.w, Place(r.seg, r.cluster, Index(st.w, r.first)), |r.data|);
  }

  lemma OneIsOnly(st: Store, u: Store, o: nat, k: nat)
    requires OneEntry(st.w, u.w, o, k) && u.shift == st.shift
    ensures SameObjects(st, u) && OnlyEntry(st.w, u.w, o, k)
  {
  }

  // An asynchronous write is started.
  lemma QueueAll(st: Store, h: seq<Event>, r: Request)
    requires StoreInv(st) && Settled(st) && Faithful(st, h) && RequestOk(st, r) && r.async
    ensures r.o < |st.pending|
    ensures var u := Queue(st, r);
      && StoreInv(u) && Settled(u) && SameObjects(st, u) && Faithful(u, h + [Queued(r.o, r.first, r.data)])
      && Asks(u.out) == Asks(st.out) + [Queued(r.o, r.first, r.data)]
  {
    QueueKeepsStore(st, r);
    Extends(st, h, Queue(st, r), Queued(r.o, r.first, r.data));
  }

  // The end of a device write of a current request.
  lemma ArriveAll(st: Store, h: seq<Event>, r: Request, wrote: seq<Bytes>, error: nat)
    requires StoreInv(st) && Settled(st) && Faithful(st, h) && RequestOk(st, r) && Outcome(st, r, wrote, error)
    requires Current(st.w, r)
    ensures var u := Arrive(st, r, wrote, error);
      && StoreInv(u) && Settled(u) && SameObjects(st, u) && OnlyEntry(st.w, u.w, r.o, Cluster(st.w, r.first))
      && (Faithful(u, h + [Arrival(st, r, error)]) <==> Harmless(st, r, wrote, error))
    ensures |wrote| <= |r.data| ==> Harmless(st, r, wrote, error)
  {
    assert Idle(st.w, r.o);
    ArriveKeepsStore(st, r, wrote, error);
    OneIsOnly(st, Arrive(st, r, wrote, error), r.o, Cluster(st.w, r.first));
    StaysSettled(st, Arrive(st, r, wrote, error).w);
    ArriveExactly(st, h, r, wrote, error);
    if |wrote| <= |r.data| {
      CurrentIsHarmless(st, r, wrote, error);
    }
  }

  lemma ReplyExactly(st: Store, h: seq<Event>, i: nat, wrote: seq<Bytes>, error: nat)
    requires StoreInv(st) && Settled(st) && Faithful(st, h) && i < |st.out| && Outcome(st, st.out[i], wrote, error)
    ensures RequestOk(st, st.out[i]) && st.out[i].o < |Arrive(st, st.out[i], wrote, error).pending|
    ensures var r := st.out[i]; var u := Dequeue(Arrive(st, r, wrote, error), i);
      && StoreInv(u) && (Settled(u) <==> Claims(st.w, r, error))
      && (Faithful(u, h + [Arrival(st, r, error)]) <==> Harmless(st, r, wrote, error))
  {
    var r := st.out[i];
    assert RequestOk(st, r) && Idle(st.w, r.o);
    ArriveKeepsStore(st, r, wrote, error);
    StaysSettled(st, Arrive(st, r, wrote, error).w);
    ArriveExactly(st, h, r, wrote, error);
    DequeueExactly(Arrive(st, r, wrote, error), i, h + [Arrival(st, r, error)]);
  }

  lemma DequeueExactly(st: Store, i: nat, h: seq<Event>)
    requires StoreInv(st) && i < |st.out| && forall j :: 0 <= j < |st.out| ==> st.out[j].async
    ensures st.out[i].o < |st.pending| && StoreInv(Dequeue(st, i)) && (Settled(Dequeue(st, i)) <==> Settled(st))
    ensures Faithful(Dequeue(st, i), h) <==> Faithful(st, h)
  {
    DequeueKeepsStore(st, i);
    SameFaithful(st, Dequeue(st, i), h);
  }

  lemma SameFaithful(st: Store, u: Store, h: seq<Event>)
    requires StoreInv(st) && StoreInv(u) && SameContents(st, u) && u.w.clsize == st.w.clsize
    ensures Faithful(st, h) <==> Faithful(u, h)
  {
    if Faithful(u, h) {
      forall o: nat, p: nat ensures Contents(st, o, p) == Last(h, st.w.clsize, o, p) {
        assert Contents(u, o, p) == Last(h, u.w.clsize, o, p);
      }
    }
  }

  lemma RefuseAll(st: Store, o: nat, f: nat, error: nat, present: bool)
    requires StoreInv(st) && Settled(st) && error > 0
    ensures var u := st.(w := Refuse(st.w, o, f, error, present));
      && StoreInv(u) && Settled(u) && SameObjects(st, u) && OnlyEntry(st.w, u.w, o, Cluster(st.w, f))
  {
    assert o < |st.w.maps| ==> Idle(st.w, o);
    var u := st.(w := Refuse(st.w, o, f, error, present));
    RefuseKeepsStore(st, o, f, error, present);
    if HasEntry(st.w, o, Cluster(st.w, f)) {
      RefusedWorld(st.w, o, f, error, present);
      OneIsOnly(st, u, o, Cluster(st.w, f));
      OneEntryAllocated(st.w, u.w, o, Cluster(st.w, f));
      StaysSettled(st, u.w);
    }
  }

  lemma RefuseFaithful(st: Store, h: seq<Event>, o: nat, f: nat, n: nat, error: nat, present: bool)
    requires StoreInv(st) && Faithful(st, h) && error > 0 && (o < |st.w.maps| ==> Idle(st.w, o))
    ensures var u := st.(w := Refuse(st.w, o, f, error, present));
      StoreInv(u) && Faithful(u, h + [Failed(o, f, n)])
  {
    var u, ev := st.(w := Refuse(st.w, o, f, error, present)), Failed(o, f, n);
    RefuseKeepsStore(st, o, f, error, present);
    assert u.w.clsize == st.w.clsize by {
      if HasEntry(st.w, o, Cluster(st.w, f)) {
        RefusedWorld(st.w, o, f, error, present);
      }
    }
    forall o': nat, p: nat ensures Contents(u, o', p) == Last(h + [ev], u.w.clsize, o', p) {
      RefusedContents(st, o, f, n, error, present, o', p);
      assert (h + [ev])[..|h|] == h;
    }
  }

  // ---------------------------------------------------------------- segments come, objects go

  lemma ApartFromAll(st: Store, g: Seg)
    requires StoreInv(st) && GeometryOk(g.geo, st.shift, st.w.clsize)
    requires forall s :: 0 <= s < |st.w.segs| ==> !Overlaps(st.w.segs[s].geo, g.geo)
    requires forall s :: 0 <= s < |st.w.segs| && st.w.segs[s].geo.device == g.geo.device ==>
      st.w.segs[s].geo.recordShift == g.geo.recordShift
    ensures DeviceOk(st.(w := st.w.(segs := st.w.segs + [g])))
  {
  }

  // An object's entries up to k have given back their clusters.
  ghost predicate GivenUpTo(st: Store, u: Store, o: nat, k: nat)
    requires StoreInv(st) && StoreInv(u)
  {
    && u == st.(w := u.w) && u.w.inflight == st.w.inflight && SameSegments(st.w, u.w)
    && |u.w.maps| == |st.w.maps| && o < |u.w.maps| && k <= |u.w.maps[o]| == |st.w.maps[o]|
    && (forall j :: 0 <= j < k ==> !Mapped(u.w.maps[o][j]))
    && (forall o' :: 0 <= o' < |u.w.maps| && o' != o ==> u.w.maps[o'] == st.w.maps[o'])
    && forall o': nat, p: nat ::
         Contents(u, o', p) == if o' == o && Cluster(st.w, p) < k then None else Contents(st, o', p)
  }

  lemma GiveFurther(st: Store, u: Store, o: nat, k: nat)
    requires StoreInv(st) && StoreInv(u) && GivenUpTo(st, u, o, k) && HasEntry(u.w, o, k) && Idle(u.w, o)
    ensures var v := u.(w := Give(u.w, o, k)); StoreInv(v) && GivenUpTo(st, v, o, k + 1)
  {
    var v := u.(w := Give(u.w, o, k));
    GivenWorld(u.w, o, k);
    OneEntryKeepsStore(u, v, o, k);
    forall o': nat, p: nat
      ensures Contents(v, o', p) == if o' == o && Cluster(st.w, p) < k + 1 then None else Contents(st, o', p)
    {
      GivenContents(u, o, k, o', p);
    }
  }

  lemma DestroyedFaithful(st: Store, u: Store, h: seq<Event>, o: nat)
    requires StoreInv(st) && StoreInv(u) && Faithful(st, h) && o < |u.w.maps| && Idle(u.w, o) && NoRequests(u, o)
    requires GivenUpTo(st, u, o, |u.w.maps[o]|)
    ensures Emptied(u, o) && StoreInv(Discard(u, o)) && Faithful(Discard(u, o), h + [Destroyed(o)])
  {
    DiscardKeepsStore(u, o);
    var v := Discard(u, o);
    forall o': nat, p: nat
      ensures Contents(v, o', p) == After(Destroyed(o), Contents(st, o', p), st.w.clsize, o', p)
    {
      assert Contents(v, o', p) == Contents(u, o', p);
    }
    Extends(st, h, v, Destroyed(o));
  }
}
