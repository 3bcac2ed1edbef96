// What a write of an object's pages does: one event for every chunk, and why a chunk fails.

module Writing {
  import opened Arithmetic
  import opened Bitmap
  import opened ClusterMap
  import opened Device
  import opened Ownership
  import opened PageStore
  import opened Segment
  import opened Totals
  import opened Wrappers
  import opened Reading

  const KERN_FAILURE := 5
  const PAGER_ERROR := 2

  // What one round of vs_cluster_write meets: whether kalloc would succeed for the map and for its
  // block, the segment that ps_select_segment would choose, whether there is an async structure, the
  // error of the device write, 0 for none, and what a failed one leaves from its first page on.
  datatype Luck = Luck(extend: bool, block: bool, segment: nat, async: bool, error: nat, wrote: seq<Bytes>)

  // The pages that the device holds differently after the write of a chunk, with `room` pages of the
  // segment from its first on.  The retries of a synchronous write can run past the chunk.
  function Remains(luck: Luck, data: seq<Bytes>, shift: nat, room: nat): seq<Bytes> {
    if luck.error == 0 then data
    else if WholePages(luck.wrote, shift) && |luck.wrote| <= (if luck.async then |data| else room) then luck.wrote
    else []
  }

  // The device write of a chunk of n pages does not run past it.
  predicate Within(luck: Luck, n: nat) {
    luck.async || luck.error == 0 || |luck.wrote| <= n
  }

  // The last write of a request does not run past its chunk.
  ghost predicate EndsWithin(events: seq<Event>, luck: nat -> Luck) {
    events != [] ==> Within(luck(|events| - 1), EventSize(events[|events| - 1]))
  }

  // No write of a request runs past its chunk.
  ghost predicate AllWithin(events: seq<Event>, luck: nat -> Luck) {
    forall j :: 0 <= j < |events| ==> Within(luck(j), EventSize(events[j]))
  }

  lemma WithinBefore(events: seq<Event>, ev: Event, luck: nat -> Luck)
    requires AllWithin(events + [ev], luck)
    ensures AllWithin(events, luck)
  {
    assert forall j :: 0 <= j < |events| ==> (events + [ev])[j] == events[j];
  }

  lemma LastIs(events: seq<Event>, ev: Event, n: nat, luck: nat -> Luck)
    requires EventSize(ev) == n
    ensures EndsWithin(events + [ev], luck) <==> Within(luck(|events|), n)
  {
  }

  predicate HasRoom(w: World, s: nat) {
    s < |w.segs| && w.segs[s].clcount > 0
  }

  // When ps_clmap gives a cluster for writing page p.
  predicate Grants(w: World, o: nat, p: nat, luck: Luck)
    requires w.clsize > 0 && o < |w.maps|
  {
    var k := Cluster(w, p);
    if k < |w.maps[o]| && Mapped(w.maps[o][k]) then true
    else
      && (k < |w.maps[o]| || luck.extend) && luck.block
      && !(k < |w.maps[o]| && w.maps[o][k].error) && HasRoom(w, luck.segment)
  }

  function EntryAt(w: World, o: nat, k: nat): VsMap {
    if HasEntry(w, o, k) then w.maps[o][k] else CLEAR
  }

  // Of all entries, only entry k of object o has changed, and those that are new are clear.
  ghost predicate OthersAsWere(w: World, u: World, o: nat, k: nat) {
    && |u.maps| == |w.maps|
    && forall o': nat, k': nat :: o' != o || k' != k ==> EntryAt(u, o', k') == EntryAt(w, o', k')
  }

  // Entry k has these pages allocated besides those it had, in the cluster it had or, if it had none, in
  // the first cluster of segment s that was not in use.
  ghost predicate Allotted(w: World, u: World, o: nat, k: nat, pages: set<nat>, s: nat) {
    var e, f := EntryAt(w, o, k), EntryAt(u, o, k);
    && Mapped(f) && (if Mapped(e) then f == e.(alloc := e.alloc + pages) && u.segs == w.segs
                     else f == VsMap(f.entry, s, false, {}, pages) && FirstFree(w, u, s, f.entry))
  }

  ghost predicate FirstFree(w: World, u: World, s: nat, c: nat) {
    && s < |w.segs| == |u.segs| && c < w.segs[s].geo.ncls && !InUse(w.segs[s], c)
    && (forall d :: 0 <= d < c ==> InUse(w.segs[s], d))
    && forall d :: InUse(u.segs[s], d) <==> d == c || InUse(w.segs[s], d)
  }

  predicate IsObject(st: Store, o: nat) {
    o < |st.w.maps| && st.w.maps[o] != []
  }

  // The pages of `data` from page `first` on, each handled by one event, in order.
  ghost predicate Answered(events: seq<Event>, o: nat, first: nat, data: seq<Bytes>) {
    if events == [] then data == []
    else
      var ev, n := events[|events| - 1], |data| - EventSize(events[|events| - 1]);
      && n >= 0 && n < |data| && Handles(ev, o, first + n, data[n..])
      && Answered(events[..|events| - 1], o, first, data[..n])
  }

  function EventSize(ev: Event): nat {
    match ev
    case Landed(_, _, data) => |data|
    case Queued(_, _, data) => |data|
    case Failed(_, _, n) => n
    case Supplied(_, _, n) => n
    case Destroyed(_) => 0
  }

  predicate Handles(ev: Event, o: nat, first: nat, data: seq<Bytes>) {
    ev == Landed(o, first, data) || ev == Queued(o, first, data) || ev == Failed(o, first, |data|)
  }

  lemma AnsweredMore(events: seq<Event>, o: nat, first: nat, data: seq<Bytes>, done: nat, ev: Event, n: nat)
    requires done + n <= |data| && n > 0 && Answered(events, o, first, data[..done])
    requires Handles(ev, o, first + done, data[done..][..n])
    ensures Answered(events + [ev], o, first, data[..done + n])
  {
    assert (events + [ev])[..|events|] == events;
    assert data[..done + n][..done] == data[..done] && data[..done + n][done..] == data[done..][..n];
  }

  // The requests that a list of events leaves with the device.
  function Queues(events: seq<Event>): seq<Event> {
    if events == [] then []
    else Queues(events[..|events| - 1]) + if events[|events| - 1].Queued? then [events[|events| - 1]] else []
  }

  lemma QueuesMore(events: seq<Event>, ev: Event)
    ensures Queues(events + [ev]) == Queues(events) + if ev.Queued? then [ev] else []
  {
    assert (events + [ev])[..|events|] == events;
  }

  function Asks(out: seq<Request>): seq<Event> {
    seq(|out|, i requires 0 <= i < |out| => Queued(out[i].o, out[i].first, out[i].data))
  }

  // All these requests are for object o, and go to the clusters that the object has there; if there is
  // more to come, from page p to page `end`, these are clusters before that of p.
  ghost predicate OwnClusters(w: World, sent: seq<Request>, o: nat, p: nat, end: nat)
    requires w.clsize > 0
  {
    forall i :: 0 <= i < |sent| ==> ForOwnCluster(w, sent[i], o, p, end)
  }

  predicate ForOwnCluster(w: World, r: Request, o: nat, p: nat, end: nat)
    requires w.clsize > 0
  {
    r.o == o && Current(w, r) && (p < end ==> Cluster(w, r.first) < Cluster(w, p))
  }

  // No request has lost its cluster but for those of the entry of page p.
  ghost predicate OtherCurrent(w: World, u: World, o: nat, p: nat)
    requires w.clsize > 0 && u.clsize > 0
  {
    forall r: Request :: Current(w, r) && (r.o != o || Cluster(w, r.first) != Cluster(w, p)) ==> Current(u, r)
  }

  lemma QuietOtherCurrent(w: World, u: World, o: nat, p: nat)
    requires w.clsize > 0 && Quietly(w, u)
    ensures OtherCurrent(w, u, o, p)
  {
    forall r: Request | Current(w, r) ensures Current(u, r) {
      QuietlyKeepsCurrent(w, u, r);
    }
  }

  lemma EntryOtherCurrent(w: World, u: World, v: World, o: nat, p: nat)
    requires w.clsize > 0 && u.clsize == w.clsize == v.clsize
    requires OtherCurrent(w, u, o, p) && OnlyEntry(u, v, o, Cluster(u, p))
    ensures OtherCurrent(w, v, o, p)
  {
    forall r: Request | Current(w, r) && (r.o != o || Cluster(w, r.first) != Cluster(w, p)) ensures Current(v, r) {
      assert Current(u, r);
    }
  }

  // The cluster of page p ends before page `next`.
  ghost predicate EndsCluster(w: World, p: nat, next: nat)
    requires w.clsize > 0
  {
    forall q: nat :: Cluster(w, q) == Cluster(w, p) ==> Cluster(w, q) < Cluster(w, next)
  }

  // The requests that a call has sent are those of its queued events, and to the object's own clusters.
  ghost predicate Sent(w: World, sent: seq<Request>, events: seq<Event>, o: nat, p: nat, end: nat)
    requires w.clsize > 0
  {
    Asks(sent) == Queues(events) && OwnClusters(w, sent, o, p, end)
  }

  // A request for these pages, to the cluster that its object has for them.
  predicate IsRequest(w: World, r: Request, o: nat, first: nat, data: seq<Bytes>)
    requires w.clsize > 0
  {
    r.o == o && r.first == first && r.data == data && r.async && Current(w, r)
  }

  // The requests after one more round, from page p on, which has added `newest`.
  lemma RoundSent(
      w: World, u: World, before: seq<Request>, newest: seq<Request>, sent: seq<Request>, earlier: seq<Event>,
      ev: Event, events: seq<Event>, o: nat, p: nat, data: seq<Bytes>, next: nat, end: nat)
    requires w.clsize > 0 && u.clsize == w.clsize && Sent(w, before, earlier, o, p, end) && p < end
    requires sent == before + newest && events == earlier + [ev] && Handles(ev, o, p, data)
    requires |newest| == if ev.Queued? then 1 else 0
    requires forall i :: 0 <= i < |newest| ==> IsRequest(u, newest[i], o, p, data)
    requires OtherCurrent(w, u, o, p) && (next < end ==> EndsCluster(u, p, next))
    ensures Sent(u, sent, events, o, next, end)
  {
    QueuesMore(earlier, ev);
    assert Asks(sent) == Asks(before) + Asks(newest);
    forall i | 0 <= i < |sent| ensures ForOwnCluster(u, sent[i], o, next, end) {
      if i < |before| {
        assert ForOwnCluster(w, before[i], o, p, end);
      } else {
        assert sent[i] == newest[i - |before|];
      }
    }
  }

  // A failure sends nothing, and concerns no cluster that something has been sent to.
  lemma RestSent(
      u: World, v: World, sent: seq<Request>, before: seq<Event>, ev: Event, events: seq<Event>, o: nat, p: nat,
      end: nat)
    requires u.clsize > 0 && v.clsize == u.clsize && OnlyEntry(u, v, o, Cluster(u, p))
    requires Sent(u, sent, before, o, p, end) && p < end && ev.Failed? && events == before + [ev]
    ensures Sent(v, sent, events, o, end, end)
  {
    QueuesMore(before, ev);
    forall i | 0 <= i < |sent| ensures ForOwnCluster(v, sent[i], o, end, end) {
      assert ForOwnCluster(u, sent[i], o, p, end);
    }
  }

  // Page p is in no mapped cluster.
  predicate IsUnmapped(w: World, o: nat, p: nat)
    requires w.clsize > 0
  {
    !(HasEntry(w, o, Cluster(w, p)) && Mapped(w.maps[o][Cluster(w, p)]))
  }

  // Pages of one cluster, claimed for writing.
  predicate Claimed(w: World, o: nat, p: nat, n: nat)
    requires w.clsize > 0
  {
    && HasEntry(w, o, Cluster(w, p)) && Index(w, p) + n <= w.clsize
    && Mapped(w.maps[o][Cluster(w, p)]) && Span(Index(w, p), n) <= w.maps[o][Cluster(w, p)].alloc
  }

  // The maps agree but for one entry.
  ghost predicate OnlyEntry(w: World, u: World, o: nat, k: nat) {
    && |u.maps| == |w.maps| && (forall o' :: 0 <= o' < |w.maps| ==> |u.maps[o']| == |w.maps[o']|)
    && forall o', k' :: 0 <= o' < |w.maps| && 0 <= k' < |w.maps[o']| && (o' != o || k' != k) ==>
      u.maps[o'][k'] == w.maps[o'][k']
  }

  predicate Succeeded(ev: Event, luck: Luck) {
    luck.error == 0 && if luck.async then ev.Queued? else ev.Landed?
  }

  // Why ps_clmap gives no cluster; `u` is the world afterwards.
  predicate Refused(w: World, u: World, o: nat, p: nat, luck: Luck)
    requires w.clsize > 0
  {
    !luck.extend || !luck.block || !HasRoom(u, luck.segment) || WasBroken(w, o, p)
  }

  // An event is a success exactly as the device allowed; a failure has its reason in a device error,
  // here or just before, in a refused allocation, in a full segment, or in an earlier failure.
  ghost predicate Explained(w: World, u: World, events: seq<Event>, j: nat, luck: Luck)
    requires w.clsize > 0 && j < |events|
  {
    if events[j].Failed? then
      luck.error != 0 || (j > 0 && events[j - 1].Failed?) || Refused(w, u, events[j].o, events[j].first, luck)
    else Succeeded(events[j], luck)
  }

  // From page p on, no entry is in error that was not before.
  ghost predicate NoErrorsAhead(w: World, u: World, o: nat, p: nat)
    requires w.clsize > 0 && u.clsize > 0
  {
    forall q: nat :: p <= q && WasBroken(u, o, q) ==> WasBroken(w, o, q)
  }

  lemma QuietErrors(w: World, u: World, o: nat, p: nat)
    requires w.clsize > 0 && Quietly(w, u)
    ensures NoErrorsAhead(w, u, o, p) && (HasEntry(w, o, 0) ==> HasEntry(u, o, 0))
  {
    forall q: nat | p <= q && WasBroken(u, o, q) ensures WasBroken(w, o, q) {
      assert EntryKept(w, u, o, Cluster(w, q));
    }
    assert EntryKept(w, u, o, 0);
  }

  // A change of the entry of page p concerns no page behind the cluster.
  lemma OtherErrors(w: World, u: World, v: World, o: nat, p: nat, n: nat, next: nat)
    requires w.clsize > 0 && u.clsize == w.clsize == v.clsize && n == w.clsize - Index(w, p) && next == p + n
    requires NoErrorsAhead(w, u, o, p) && OnlyEntry(u, v, o, Cluster(w, p))
    ensures NoErrorsAhead(w, v, o, next)
  {
    NextCluster(w, p, n);
    forall q: nat | next <= q && WasBroken(v, o, q) ensures WasBroken(w, o, q) {
      ClustersInOrder(w, next, q);
      assert WasBroken(u, o, q);
    }
  }

  lemma ClustersInOrder(w: World, p: nat, q: nat)
    requires w.clsize > 0 && p <= q
    ensures Cluster(w, p) <= Cluster(w, q)
  {
    Quotient(p, w.clsize, 0);
    Quotient(q, w.clsize, Cluster(w, p));
  }

  ghost predicate LastFailed(w: World, u: World, o: nat, events: seq<Event>, luck: Luck, all: bool)
    requires w.clsize > 0 && events != []
  {
    var ev := events[|events| - 1];
    ev.Failed? && ev.o == o && (luck.error != 0 || (all && Refused(w, u, o, ev.first, luck)))
  }

  // A later round is refused only for what the first world already showed.
  lemma RefusedEarlier(w: World, u: World, v: World, o: nat, p: nat, luck: Luck)
    requires w.clsize > 0 && u.clsize == w.clsize && NoErrorsAhead(w, u, o, p)
    ensures Refused(u, v, o, p, luck) ==> Refused(w, v, o, p, luck)
  {
  }

  // The pages up to `done` are answered, and all of them sent but for a failure at the end.
  ghost predicate Progress(
      w: World, u: World, o: nat, first: nat, data: seq<Bytes>, luck: nat -> Luck, events: seq<Event>, done: nat,
      failed: bool)
    requires w.clsize > 0 && u.clsize > 0
  {
    && done <= |data| && Answered(events, o, first, data[..done]) && (failed ==> events != [])
    && (forall j :: 0 <= j < |events| - (if failed then 1 else 0) ==> Succeeded(events[j], luck(j)))
    && (failed ==> LastFailed(w, u, o, events, luck(|events| - 1), done == |data|))
    && (done < |data| && !failed ==> NoErrorsAhead(w, u, o, first + done))
  }

  lemma ProgressMore(
      w: World, u: World, v: World, o: nat, first: nat, data: seq<Bytes>, luck: nat -> Luck, events: seq<Event>,
      done: nat, p: nat, rest: seq<Bytes>, now: Luck, ev: Event, n: nat, all: seq<Event>, next: nat)
    requires w.clsize > 0 && u.clsize == w.clsize == v.clsize && all == events + [ev] && next == done + n
    requires Progress(w, u, o, first, data, luck, events, done, false) && done < |data|
    requires p == first + done && rest == data[done..] && now == luck(|events|)
    requires 0 < n <= |rest| && Handles(ev, o, p, rest[..n])
    requires if ev.Failed? then now.error != 0 || (n == |rest| && Refused(u, v, o, p, now)) else Succeeded(ev, now)
    requires n < |rest| ==> NoErrorsAhead(u, v, o, p + n)
    ensures Progress(w, v, o, first, data, luck, all, next, ev.Failed?)
  {
    AnsweredMore(events, o, first, data, done, ev, n);
    RefusedEarlier(w, u, v, o, p, now);
  }

  // A round, put together with those before it.
  lemma RoundWritten(
      w: World, u: World, v: World, o: nat, first: nat, data: seq<Bytes>, luck: nat -> Luck, events: seq<Event>,
      done: nat, p: nat, rest: seq<Bytes>, now: Luck, ev: Event, n: nat, all: seq<Event>, next: nat, failed: bool)
    requires w.clsize > 0 && u.clsize == w.clsize == v.clsize && all == events + [ev] && next == done + n
    requires Progress(w, u, o, first, data, luck, events, done, false) && done < |data| && failed == ev.Failed?
    requires p == first + done && rest == data[done..] && now == luck(|events|)
    requires 0 < n <= |rest| && Handles(ev, o, p, rest[..n])
    requires if failed then now.error != 0 || (n == |rest| && Refused(u, v, o, p, now)) else Succeeded(ev, now)
    requires n < |rest| ==> NoErrorsAhead(u, v, o, p + n)
    ensures Progress(w, v, o, first, data, luck, all, next, failed)
    ensures Queues(all) == Queues(events) + if ev.Queued? then [ev] else []
    ensures (EndsWithin(all, luck) <==> Within(now, n)) && (!failed ==> EndsWithin(all, luck))
  {
    assert Progress(w, v, o, first, data, luck, all, next, failed) by {
      ProgressMore(w, u, v, o, first, data, luck, events, done, p, rest, now, ev, n, all, next);
    }
    QueuesMore(events, ev);
    LastIs(events, ev, n, luck);
  }

  lemma AllExplained(
      w: World, u: World, o: nat, first: nat, data: seq<Bytes>, luck: nat -> Luck, events: seq<Event>, done: nat,
      failed: bool)
    requires w.clsize > 0 && u.clsize > 0 && Progress(w, u, o, first, data, luck, events, done, failed)
    ensures forall j :: 0 <= j < |events| ==> Explained(w, u, events, j, luck(j))
  {
  }

  lemma TailExplained(
      w: World, u: World, v: World, o: nat, first: nat, data: seq<Bytes>, luck: nat -> Luck, events: seq<Event>,
      done: nat, p: nat, left: nat, ev: Event)
    requires w.clsize > 0 && u.clsize > 0
    requires Progress(w, u, o, first, data, luck, events, done, true) && done < |data|
    requires p == first + done && left == |data| - done && ev == Failed(o, p, left)
    ensures Answered(events + [ev], o, first, data)
    ensures forall j :: 0 <= j <= |events| ==> Explained(w, v, events + [ev], j, luck(j))
  {
    AnsweredMore(events, o, first, data, done, ev, left);
    assert data[..|data|] == data;
  }
}
