// What a read of an object's pages answers: the replies, what they are worth, and how far it gets.

module Reading {
  import opened Arithmetic
  import opened Bitmap
  import opened ClusterMap
  import opened Device
  import opened Ownership
  import opened PageStore
  import opened Segment
  import opened Totals
  import opened Transfers
  import opened Wrappers

  datatype Reply =
    | Data(first: nat, data: seq<Bytes>)
    | Unavailable(first: nat, n: nat)
    | Error(first: nat, n: nat)

  function ReplySize(r: Reply): nat {
    if r.Data? then |r.data| else r.n
  }

  // The replies follow one another from page `first` on and end n pages later.
  ghost predicate Tiles(replies: seq<Reply>, first: nat, n: nat) {
    if replies == [] then n == 0
    else
      var r := replies[|replies| - 1];
      && 0 < ReplySize(r) <= n && r.first + ReplySize(r) == first + n
      && Tiles(replies[..|replies| - 1], first, n - ReplySize(r))
  }

  ghost function Supplies(o: nat, replies: seq<Reply>): seq<Event> {
    if replies == [] then []
    else
      var r := replies[|replies| - 1];
      Supplies(o, replies[..|replies| - 1]) + if r.Data? then [Supplied(o, r.first, |r.data|)] else []
  }

  predicate Present(w: World, o: nat, p: nat, n: nat)
    requires w.clsize > 0
  {
    && HasEntry(w, o, Cluster(w, p)) && Index(w, p) + n <= w.clsize && Mapped(w.maps[o][Cluster(w, p)])
    && forall j :: Index(w, p) <= j < Index(w, p) + n ==> j in w.maps[o][Cluster(w, p)].bmap
  }

  // ---------------------------------------------------------------- what the device gives of a run

  // n pages of one cluster, from place x on.
  ghost predicate RunOk(st: Store, x: Place, n: nat) {
    StoreInv(st) && PlaceOk(st.w, x) && x.index + n <= st.w.clsize && n > 0
  }

  function Behind(x: Place, k: nat): Place {
    x.(index := x.index + k)
  }

  // The number of bytes that arrive of n pages of 2^shift bytes.
  function ArrivedOf(shift: nat, n: nat, counts: seq<nat>): nat {
    Arrived(counts, n * Pow2(shift))
  }

  // The device of a segment has records of 2^k bytes, for this k.
  function RecordBits(st: Store, s: nat): nat {
    if s < |st.w.segs| && st.w.segs[s].geo.recordShift <= st.shift then st.shift - st.w.segs[s].geo.recordShift else 0
  }

  // What is supplied of the run when the device answers with `counts`.
  function DeviceData(st: Store, x: Place, n: nat, counts: seq<nat>): (data: seq<Bytes>)
    requires RunOk(st, x, n)
    ensures |data| <= n && (|data| < n <==> Ends(st.shift, n, counts))
  {
    SegmentsFit(st, x.seg, x.seg);
    var g := st.w.segs[x.seg].geo;
    var at := AddressOfPage(g, st.shift, PageNumber(st.w, x));
    Supply(DeviceBytes(st.disk, g.device, at, st.shift - g.recordShift, counts, n * Pow2(st.shift)), n, Pow2(st.shift))
  }

  // The device brings nothing, or leaves out an odd number of whole pages, so that one page is answered
  // with an error.
  predicate Ends(shift: nat, n: nat, counts: seq<nat>) {
    ArrivedOf(shift, n, counts) == 0 || Withheld(n * Pow2(shift) - ArrivedOf(shift, n, counts), Pow2(shift)) == 1
  }

  // How good a read of n pages is: 0 if it is complete, 1 if it brings nothing or leaves out just one
  // page, and 2 otherwise.  It is 2 as well if a piece that is followed by another ends inside a record.
  function Quality(shift: nat, bits: nat, n: nat, counts: seq<nat>): nat {
    if !GoodCounts(bits, counts, n, Pow2(shift)) then 2
    else if ArrivedOf(shift, n, counts) == n * Pow2(shift) then 0
    else 1
  }

  lemma CompleteIsWhole(shift: nat, bits: nat, n: nat, counts: seq<nat>)
    requires n > 0 && Quality(shift, bits, n, counts) == 0
    ensures !Ends(shift, n, counts)
  {
    Monotone(1, n, Pow2(shift));
    Quotient(0, Pow2(shift), 1);
  }

  lemma PageBehind(st: Store, x: Place, n: nat, k: nat)
    requires RunOk(st, x, n) && k < n
    ensures x.seg < |st.w.segs| && st.w.segs[x.seg].geo.recordShift <= st.shift
    ensures var g := st.w.segs[x.seg].geo;
      PageIn(st, Behind(x, k)) == DiskRange(
        st.disk, g.device, AddressOfPage(g, st.shift, PageNumber(st.w, x)) + k * Pow2(st.shift), Pow2(st.shift))
  {
    SegmentsFit(st, x.seg, x.seg);
    var g, m := st.w.segs[x.seg].geo, PageNumber(st.w, x);
    PagesAreContiguous(g, st.shift, m);
    PagesAreContiguous(g, st.shift, m + k);
    Distribute(m, k, Pow2(st.shift));
  }

  // A page is supplied as the device holds it exactly if it holds zeros where the read did not reach.
  lemma DataIs(st: Store, x: Place, n: nat, counts: seq<nat>, k: nat)
    requires RunOk(st, x, n) && WholeRecords(RecordBits(st, x.seg), counts, n * Pow2(st.shift))
    requires k < |DeviceData(st, x, n, counts)|
    ensures st.w.segs[x.seg].geo.recordShift <= st.shift
    ensures DeviceData(st, x, n, counts)[k] == PageIn(st, Behind(x, k))
      <==> ZerosBehind(PageIn(st, Behind(x, k)), k * Pow2(st.shift), ArrivedOf(st.shift, n, counts))
  {
    PageBehind(st, x, n, k);
    DataPage(st, x, n, counts, k);
    var g, page := st.w.segs[x.seg].geo, Pow2(st.shift);
    var at := AddressOfPage(g, st.shift, PageNumber(st.w, x));
    PageOfRange(st.disk, g.device, at, ArrivedOf(st.shift, n, counts), k * page, page);
  }

  lemma DataPage(st: Store, x: Place, n: nat, counts: seq<nat>, k: nat)
    requires RunOk(st, x, n) && WholeRecords(RecordBits(st, x.seg), counts, n * Pow2(st.shift))
    requires k < |DeviceData(st, x, n, counts)| && st.w.segs[x.seg].geo.recordShift <= st.shift
    ensures var g, page := st.w.segs[x.seg].geo, Pow2(st.shift);
      var at := AddressOfPage(g, st.shift, PageNumber(st.w, x));
      DeviceData(st, x, n, counts)[k]
        == PageOf(DiskRange(st.disk, g.device, at, ArrivedOf(st.shift, n, counts)), k * page, page)
  {
    var g, page := st.w.segs[x.seg].geo, Pow2(st.shift);
    var at := AddressOfPage(g, st.shift, PageNumber(st.w, x));
    RecordsInOrder(st.disk, g.device, at, st.shift - g.recordShift, counts, n * page);
  }

  // So every page is, in reads that are complete, bring nothing, or leave out just one page.
  lemma GoodData(st: Store, x: Place, n: nat, counts: seq<nat>, k: nat)
    requires RunOk(st, x, n) && k < |DeviceData(st, x, n, counts)|
    requires Quality(st.shift, RecordBits(st, x.seg), n, counts) <= 1
    ensures st.w.segs[x.seg].geo.recordShift <= st.shift
    ensures DeviceData(st, x, n, counts)[k] == PageIn(st, Behind(x, k))
  {
    var page := Pow2(st.shift);
    DataIs(st, x, n, counts, k);
    ShortReadExactly(n, n * page - ArrivedOf(st.shift, n, counts), page);
    Distribute(k, 1, page);
    Monotone(k + 1, |DeviceData(st, x, n, counts)|, page);
  }

  // ---------------------------------------------------------------- replies

  // Every page of a reply that carries data holds what the store held.
  ghost predicate Genuine(st: Store, o: nat, r: Reply)
    requires StoreInv(st)
  {
    r.Data? ==> forall j :: 0 <= j < |r.data| ==> Contents(st, o, r.first + j) == Some(r.data[j])
  }

  ghost predicate AllAbsent(st: Store, o: nat, f: nat, n: nat)
    requires StoreInv(st)
  {
    forall q :: f <= q < f + n ==> Contents(st, o, q) == None
  }

  // A reply is right: data that is there, absence of pages that are not, error for a cluster in error.
  ghost predicate Truthful(st: Store, o: nat, r: Reply)
    requires StoreInv(st)
  {
    match r
    case Data(_, _) => Genuine(st, o, r)
    case Unavailable(f, n) => AllAbsent(st, o, f, n) && !ErrorCode(st.w, o, f)
    case Error(f, n) => AllAbsent(st, o, f, n) && ErrorCode(st.w, o, f)
  }

  // cl_error of the cluster of page p is set.
  predicate ErrorCode(w: World, o: nat, p: nat)
    requires w.clsize > 0
  {
    WasBroken(w, o, p) && w.maps[o][Cluster(w, p)].entry != 0
  }

  // What kind of reply covers page q: an error if its cluster records one, unavailable if the page is not
  // there, and otherwise its data, or an error after a short read.
  ghost predicate Fits(st: Store, o: nat, q: nat, r: Reply)
    requires StoreInv(st)
  {
    if ErrorCode(st.w, o, q) then r.Error?
    else if Contents(st, o, q).None? then r.Unavailable?
    else !r.Unavailable?
  }

  // A reply is of the right kind for each of its pages.
  ghost predicate Proper(st: Store, o: nat, r: Reply)
    requires StoreInv(st)
  {
    forall q: nat :: r.first <= q < r.first + ReplySize(r) ==> Fits(st, o, q, r)
  }

  // What holds of a reply whose device read was of this quality.
  ghost predicate Judged(st: Store, o: nat, r: Reply, quality: nat)
    requires StoreInv(st)
  {
    && Proper(st, o, r)
    && (quality == 0 || r.Unavailable? ==> Truthful(st, o, r))
    && (quality <= 1 ==> Genuine(st, o, r))
  }

  ghost predicate SameErrors(w: World, u: World, o: nat) {
    forall k: nat :: HasEntry(u, o, k) == HasEntry(w, o, k)
      && (HasEntry(w, o, k) && (w.maps[o][k].error || u.maps[o][k].error) ==> u.maps[o][k] == w.maps[o][k])
  }

  // No page outside the range has changed.
  ghost predicate OthersKept(st: Store, u: Store, o: nat, p: nat, n: nat)
    requires StoreInv(st) && StoreInv(u)
  {
    forall o': nat, q: nat :: o' != o || !(p <= q < p + n) ==> Contents(u, o', q) == Contents(st, o', q)
  }

  // Nor has its place.
  ghost predicate PlacesKept(st: Store, u: Store, o: nat, p: nat, n: nat)
    requires st.w.clsize > 0
  {
    && SameSegments(st.w, u.w) && |u.w.segs| == |st.w.segs| && u.shift == st.shift
    && forall q: nat :: !(p <= q < p + n) ==> Location(u.w, o, q) == Location(st.w, o, q)
  }

  // No request whose pages are elsewhere has lost its cluster.
  ghost predicate RequestsKept(w: World, u: World, o: nat, p: nat, n: nat)
    requires w.clsize > 0 && u.clsize == w.clsize
  {
    forall r: Request :: Current(w, r) && Elsewhere(w, r, o, p, n) ==> Current(u, r)
  }

  predicate Elsewhere(w: World, r: Request, o: nat, p: nat, n: nat)
    requires w.clsize > 0
  {
    r.data != [] && Index(w, r.first) + |r.data| <= w.clsize && !(r.o == o && Overlap(r.first, |r.data|, p, n))
  }

  // After a failed write to a cluster that was mapped, or clear with its block there, every page of the
  // cluster is answered with an error, whatever was there before, as long as the entry stays as the write
  // left it.  Only a code that is 0 in 23 bits is not seen: then the pages are answered unavailable.
  lemma FailedIsAnswered(w: World, o: nat, f: nat, error: nat, present: bool, st: Store, r: Reply, q: nat)
    requires WorldInv(w) && HasEntry(w, o, Cluster(w, f))
    requires var e := w.maps[o][Cluster(w, f)]; Mapped(e) || (IsClear(e) && present)
    requires StoreInv(st) && st.w.clsize == w.clsize && HasEntry(st.w, o, Cluster(w, f))
    requires HasEntry(Refuse(w, o, f, error, present), o, Cluster(w, f))
    requires st.w.maps[o][Cluster(w, f)] == Refuse(w, o, f, error, present).maps[o][Cluster(w, f)]
    requires Proper(st, o, r) && r.first <= q < r.first + ReplySize(r) && Cluster(w, q) == Cluster(w, f)
    ensures if error % VSM_ENTRY_LIMIT != 0 then r.Error? else r.Unavailable?
  {
    FailRecords(w, o, Cluster(w, f), error, present);
    assert Fits(st, o, q, r);
  }

  // A page of a cluster that is mapped or clear, or of none, is answered unavailable exactly if it is not
  // there, and with an error only after a short read.
  lemma CleanIsAnswered(st: Store, o: nat, r: Reply, quality: nat, q: nat)
    requires StoreInv(st) && Judged(st, o, r, quality) && r.first <= q < r.first + ReplySize(r)
    requires HasEntry(st.w, o, Cluster(st.w, q)) ==>
      var e := st.w.maps[o][Cluster(st.w, q)]; Mapped(e) || IsClear(e)
    ensures r.Unavailable? <==> Contents(st, o, q).None?
    ensures quality == 0 ==> !r.Error?
  {
    assert Fits(st, o, q, r);
  }

  // Supplying n present pages from page p on.
  lemma ForgetAll(st: Store, h: seq<Event>, o: nat, p: nat, n: nat)
    requires StoreInv(st) && Faithful(st, h) && Present(st.w, o, p, n) && Idle(st.w, o) && n > 0 && Allocated(st.w)
    ensures Enabled(st.w, Forgetting(st.w, o, p, n))
    ensures var u := st.(w := Forget(st.w, o, p, n));
      && StoreInv(u) && Allocated(u.w) && Faithful(u, h + [Supplied(o, p, n)]) && SameObjects(st, u)
      && SameErrors(st.w, u.w, o)
      && OthersKept(st, u, o, p, n) && PlacesKept(st, u, o, p, n) && AllAbsent(u, o, p, n)
      && RequestsKept(st.w, u.w, o, p, n) && u.w.inflight == st.w.inflight
  {
    ForgetKeepsStore(st, o, p, n);
    ForgetShape(st.w, o, p, n);
    NothingStrands(st.w, o, p, n);
    ForgetFaithful(st, h, o, p, n);
    ForgetPlaces(st, o, p, n);
    var u := Forget(st.w, o, p, n);
    ForgottenWorld(st.w, o, p, n);
    OneEntryAllocated(st.w, u, o, Cluster(st.w, p));
    forall r: Request | Current(st.w, r) && Elsewhere(st.w, r, o, p, n) ensures Current(u, r) {
      ForgottenCurrent(st.w, r, o, p, n);
    }
  }

  lemma ForgetShape(w: World, o: nat, p: nat, n: nat)
    requires WorldInv(w) && Present(w, o, p, n) && Idle(w, o)
    ensures var u := Forget(w, o, p, n);
      && u.clsize == w.clsize && u.inflight == w.inflight && SameErrors(w, u, o) && |u.maps| == |w.maps|
      && forall o' :: 0 <= o' < |w.maps| ==> |u.maps[o']| == |w.maps[o']|
  {
    ForgottenWorld(w, o, p, n);
    var (u, k) := (Forget(w, o, p, n), Cluster(w, p));
    if Mapped(w.maps[o][k]) {
      MappedClusterInUse(w, o, k);
    }
    forall k': nat
      ensures HasEntry(u, o, k') == HasEntry(w, o, k')
      ensures HasEntry(w, o, k') && (w.maps[o][k'].error || u.maps[o][k'].error) ==> u.maps[o][k'] == w.maps[o][k']
    {
      OtherEntries(w, u, o, k, o, k');
    }
  }

  lemma ForgetFaithful(st: Store, h: seq<Event>, o: nat, p: nat, n: nat)
    requires StoreInv(st) && Faithful(st, h) && Present(st.w, o, p, n) && Idle(st.w, o) && !Strands(st.w, o, p, n)
    ensures var u := st.(w := Forget(st.w, o, p, n));
      && StoreInv(u) && Faithful(u, h + [Supplied(o, p, n)]) && OthersKept(st, u, o, p, n) && AllAbsent(u, o, p, n)
  {
    var u := st.(w := Forget(st.w, o, p, n));
    ForgottenExactly(st, h, o, p, n);
    forall o': nat, q: nat
      ensures Contents(u, o', q) == if o' == o && p <= q < p + n then None else Contents(st, o', q)
    {
      ForgottenContents(st, o, p, n, o', q);
    }
  }

  lemma ForgetPlaces(st: Store, o: nat, p: nat, n: nat)
    requires StoreInv(st) && Present(st.w, o, p, n) && Idle(st.w, o) && !Strands(st.w, o, p, n)
    ensures PlacesKept(st, st.(w := Forget(st.w, o, p, n)), o, p, n)
  {
    var u := Forget(st.w, o, p, n);
    ForgottenWorld(st.w, o, p, n);
    forall q: nat | !(p <= q < p + n) ensures Location(u, o, q) == Location(st.w, o, q) {
      ForgottenLocation(st.w, o, p, n, o, q);
    }
  }

  lemma PresentRun(st: Store, o: nat, p: nat, n: nat)
    requires StoreInv(st) && n > 0 && Present(st.w, o, p, n)
    ensures Location(st.w, o, p).Some? && RunOk(st, Location(st.w, o, p).value, n)
    ensures forall k: nat :: k < n ==>
      Contents(st, o, p + k) == Some(PageIn(st, Behind(Location(st.w, o, p).value, k)))
  {
    LocationsDiffer(st.w, o, p, o, p);
    forall k: nat | k < n
      ensures Contents(st, o, p + k) == Some(PageIn(st, Behind(Location(st.w, o, p).value, k)))
    {
      InChunk(st.w, p, n, p + k);
    }
  }

  // A run of n pages is answered once the first m of them have been supplied.
  lemma RunIsOver(st: Store, u: Store, o: nat, p: nat, n: nat, m: nat, replies: seq<Reply>, quality: nat)
    requires StoreInv(st) && StoreInv(u) && m <= n && Tiles(replies, p, n) && (quality == 0 ==> m == n)
    requires forall i :: 0 <= i < |replies| ==> Judged(st, o, replies[i], quality)
    requires SameErrors(st.w, u.w, o) && OthersKept(st, u, o, p, m) && AllAbsent(u, o, p, m)
    requires PlacesKept(st, u, o, p, m) && RequestsKept(st.w, u.w, o, p, m)
    ensures PlacesKept(st, u, o, p, n) && RoundOk(st, u, o, p, n, replies, quality)
  {
  }

  lemma NothingIsSupplied(st: Store, o: nat, p: nat, n: nat, replies: seq<Reply>, quality: nat)
    requires StoreInv(st) && Tiles(replies, p, n) && (quality == 0 ==> AllAbsent(st, o, p, n))
    requires forall i :: 0 <= i < |replies| ==> Judged(st, o, replies[i], quality)
    ensures PlacesKept(st, st, o, p, n) && RoundOk(st, st, o, p, n, replies, quality)
  {
  }

  // What is supplied of a run of present pages.
  function RunData(st: Store, o: nat, p: nat, n: nat, counts: seq<nat>): (data: seq<Bytes>)
    requires StoreInv(st) && n > 0 && Present(st.w, o, p, n)
    ensures |data| <= n && (|data| < n <==> Ends(st.shift, n, counts))
  {
    PresentRun(st, o, p, n);
    DeviceData(st, Location(st.w, o, p).value, n, counts)
  }

  lemma RunJudged(st: Store, o: nat, p: nat, n: nat, counts: seq<nat>)
    requires StoreInv(st) && n > 0 && Present(st.w, o, p, n)
    ensures var replies := RunAnswers(p, n, RunData(st, o, p, n, counts));
      forall i :: 0 <= i < |replies| ==> Judged(st, o, replies[i], RoundQuality(st, o, p, n, counts))
    ensures RoundQuality(st, o, p, n, counts) == 0 ==> |RunData(st, o, p, n, counts)| == n
  {
    PresentRun(st, o, p, n);
    if RoundQuality(st, o, p, n, counts) <= 1 {
      RunGenuine(st, o, p, n, counts);
    }
    PresentIsProper(st, o, p, n, RunData(st, o, p, n, counts));
    if RoundQuality(st, o, p, n, counts) == 0 {
      CompleteIsWhole(st.shift, RecordBits(st, Location(st.w, o, p).value.seg), n, counts);
    }
  }

  // Present pages are in no cluster in error.
  lemma PresentIsProper(st: Store, o: nat, p: nat, n: nat, data: seq<Bytes>)
    requires StoreInv(st) && n > 0 && Present(st.w, o, p, n) && |data| <= n
    ensures var replies := RunAnswers(p, n, data); forall i :: 0 <= i < |replies| ==> Proper(st, o, replies[i])
  {
    forall q: nat, r: Reply | p <= q < p + n && !r.Unavailable? ensures Fits(st, o, q, r) {
      InChunk(st.w, p, n, q);
      LocationsDiffer(st.w, o, q, o, q);
    }
  }

  lemma RunGenuine(st: Store, o: nat, p: nat, n: nat, counts: seq<nat>)
    requires StoreInv(st) && n > 0 && Present(st.w, o, p, n) && RoundQuality(st, o, p, n, counts) <= 1
    ensures Genuine(st, o, Data(p, RunData(st, o, p, n, counts)))
  {
    PresentRun(st, o, p, n);
    var data := RunData(st, o, p, n, counts);
    forall j | 0 <= j < |data| ensures Contents(st, o, p + j) == Some(data[j]) {
      GoodData(st, Location(st.w, o, p).value, n, counts, j);
    }
  }

  // Of any other read, if its pieces are whole records, the data is right exactly where the store holds
  // zeros behind what has arrived.
  lemma RunGenuineExactly(st: Store, o: nat, p: nat, n: nat, counts: seq<nat>)
    requires StoreInv(st) && n > 0 && Present(st.w, o, p, n)
    requires Location(st.w, o, p).Some?
    requires WholeRecords(RecordBits(st, Location(st.w, o, p).value.seg), counts, n * Pow2(st.shift))
    ensures var data, arrived := RunData(st, o, p, n, counts), ArrivedOf(st.shift, n, counts);
      Genuine(st, o, Data(p, data)) <==> forall k :: 0 <= k < |data| ==> ZerosFrom(st, o, p, k, arrived)
  {
    var data, arrived := RunData(st, o, p, n, counts), ArrivedOf(st.shift, n, counts);
    forall k | 0 <= k < |data|
      ensures Contents(st, o, p + k) == Some(data[k]) <==> ZerosFrom(st, o, p, k, arrived)
    {
      PageGenuine(st, o, p, n, counts, k);
    }
    if Genuine(st, o, Data(p, data)) {
      forall k | 0 <= k < |data| ensures ZerosFrom(st, o, p, k, arrived) {
        assert Contents(st, o, p + k) == Some(data[k]);
      }
    }
  }

  lemma PageGenuine(st: Store, o: nat, p: nat, n: nat, counts: seq<nat>, k: nat)
    requires StoreInv(st) && n > 0 && Present(st.w, o, p, n)
    requires Location(st.w, o, p).Some? && k < |RunData(st, o, p, n, counts)|
    requires WholeRecords(RecordBits(st, Location(st.w, o, p).value.seg), counts, n * Pow2(st.shift))
    ensures Contents(st, o, p + k) == Some(RunData(st, o, p, n, counts)[k])
      <==> ZerosFrom(st, o, p, k, ArrivedOf(st.shift, n, counts))
  {
    PresentRun(st, o, p, n);
    DataIs(st, Location(st.w, o, p).value, n, counts, k);
  }

  ghost predicate ZerosFrom(st: Store, o: nat, p: nat, k: nat, arrived: nat)
    requires StoreInv(st)
  {
    Contents(st, o, p + k).Some? && ZerosBehind(Contents(st, o, p + k).value, k * Pow2(st.shift), arrived)
  }

  lemma AbsentRun(st: Store, o: nat, p: nat, n: nat)
    requires StoreInv(st) && Index(st.w, p) + n <= st.w.clsize
    requires HasEntry(st.w, o, Cluster(st.w, p)) && Mapped(st.w.maps[o][Cluster(st.w, p)]) ==>
      forall j :: Index(st.w, p) <= j < Index(st.w, p) + n ==> j !in st.w.maps[o][Cluster(st.w, p)].bmap
    ensures AllAbsent(st, o, p, n)
  {
    forall q | p <= q < p + n ensures Contents(st, o, q) == None {
      InChunk(st.w, p, n, q);
    }
  }

  // Pages of one cluster that are absent are all answered alike.
  lemma AbsentIsProper(st: Store, o: nat, p: nat, n: nat)
    requires StoreInv(st) && Index(st.w, p) + n <= st.w.clsize && AllAbsent(st, o, p, n)
    ensures Proper(st, o, if ErrorCode(st.w, o, p) then Error(p, n) else Unavailable(p, n))
  {
    var r := if ErrorCode(st.w, o, p) then Error(p, n) else Unavailable(p, n);
    forall q: nat | p <= q < p + n ensures Fits(st, o, q, r) {
      InChunk(st.w, p, n, q);
    }
  }

  lemma SingleReply(o: nat, r: Reply)
    requires !r.Data? && r.n > 0
    ensures Tiles([r], r.first, r.n) && Supplies(o, [r]) == []
  {
    assert [r][..0] == [];
  }

  // ---------------------------------------------------------------- how far a read gets

  // The pages from p on, at most cnt, that are in the cluster of page p and present or absent as it is.
  function RunLength(w: World, o: nat, p: nat, cnt: nat): (n: nat)
    requires w.clsize > 0
    ensures n <= cnt && (cnt > 0 ==> n > 0)
    decreases cnt
  {
    if cnt <= 1 then cnt
    else if Cluster(w, p + 1) == Cluster(w, p) && Location(w, o, p + 1).Some? == Location(w, o, p).Some? then
      1 + RunLength(w, o, p + 1, cnt - 1)
    else 1
  }

  predicate Alike(w: World, o: nat, p: nat, q: nat)
    requires w.clsize > 0
  {
    Cluster(w, q) == Cluster(w, p) && Location(w, o, q).Some? == Location(w, o, p).Some?
  }

  lemma {:induction false} RunLengthIs(w: World, o: nat, p: nat, cnt: nat, n: nat)
    requires w.clsize > 0 && 0 < n <= cnt
    requires forall q: nat :: p <= q < p + n ==> Alike(w, o, p, q)
    requires n == cnt || !Alike(w, o, p, p + n)
    ensures RunLength(w, o, p, cnt) == n
    decreases n
  {
    var next := p + 1;
    if n > 1 {
      assert Alike(w, o, p, next);
      forall q: nat | next <= q < p + n ensures Alike(w, o, next, q) {
        assert Alike(w, o, p, q);
      }
      RunLengthIs(w, o, next, cnt - 1, n - 1);
    } else if cnt > 1 {
      assert !Alike(w, o, p, next);
    }
  }

  // Two worlds in which the same pages are present from p on, and in the same places.
  ghost predicate SamePlaces(w: World, u: World, o: nat, p: nat)
    requires w.clsize > 0 && u.clsize == w.clsize
  {
    forall q: nat :: q >= p ==> Location(u, o, q) == Location(w, o, q)
  }

  lemma {:induction false} SameRunLength(w: World, u: World, o: nat, p: nat, cnt: nat)
    requires w.clsize > 0 && u.clsize == w.clsize && SamePlaces(w, u, o, p)
    ensures RunLength(w, o, p, cnt) == RunLength(u, o, p, cnt)
    decreases cnt
  {
    if cnt > 1 {
      SameRunLength(w, u, o, p + 1, cnt - 1);
    }
  }

  // A round ends the read exactly if its device read brings nothing, or leaves out an odd number of
  // whole pages, so that one page is answered with an error.
  predicate Stops(st: Store, o: nat, p: nat, cnt: nat, counts: seq<nat>)
    requires st.w.clsize > 0
  {
    Location(st.w, o, p).Some? && Ends(st.shift, RunLength(st.w, o, p, cnt), counts)
  }

  // How many pages are answered for, when round i starts at page p with cnt pages to go.
  function Reach(st: Store, o: nat, p: nat, cnt: nat, counts: nat -> seq<nat>, i: nat): (done: nat)
    requires st.w.clsize > 0
    ensures done <= cnt
    decreases cnt
  {
    if cnt == 0 then 0
    else
      var n := RunLength(st.w, o, p, cnt);
      if Stops(st, o, p, cnt, counts(i)) then n else n + Reach(st, o, p + n, cnt - n, counts, i + 1)
  }

  // No round but the last stops the read.
  predicate Uncut(st: Store, o: nat, p: nat, cnt: nat, counts: nat -> seq<nat>, i: nat)
    requires st.w.clsize > 0
    decreases cnt
  {
    cnt == 0 ||
    var n := RunLength(st.w, o, p, cnt);
    if Stops(st, o, p, cnt, counts(i)) then n == cnt else Uncut(st, o, p + n, cnt - n, counts, i + 1)
  }

  // A read answers for its whole range exactly when no round but the last stops it.
  lemma {:induction false} CoverageExactly(st: Store, o: nat, p: nat, cnt: nat, counts: nat -> seq<nat>, i: nat)
    requires st.w.clsize > 0
    ensures Reach(st, o, p, cnt, counts, i) == cnt <==> Uncut(st, o, p, cnt, counts, i)
    decreases cnt
  {
    if cnt > 0 && !Stops(st, o, p, cnt, counts(i)) {
      var n := RunLength(st.w, o, p, cnt);
      CoverageExactly(st, o, p + n, cnt - n, counts, i + 1);
    }
  }

  // The quality of the device read of a round, if it has one.
  function RoundQuality(st: Store, o: nat, p: nat, n: nat, counts: seq<nat>): nat
    requires st.w.clsize > 0
  {
    if Location(st.w, o, p).None? then 0
    else Quality(st.shift, RecordBits(st, Location(st.w, o, p).value.seg), n, counts)
  }

  // The worst quality of the rounds that are gone through.
  function Worst(st: Store, o: nat, p: nat, cnt: nat, counts: nat -> seq<nat>, i: nat): nat
    requires st.w.clsize > 0
    decreases cnt
  {
    if cnt == 0 then 0
    else
      var n := RunLength(st.w, o, p, cnt);
      var q := RoundQuality(st, o, p, n, counts(i));
      if Stops(st, o, p, cnt, counts(i)) then q
      else
        var rest := Worst(st, o, p + n, cnt - n, counts, i + 1);
        if q <= rest then rest else q
  }

  lemma {:induction false} TilesMore(replies: seq<Reply>, more: seq<Reply>, first: nat, done: nat, n: nat, o: nat)
    requires Tiles(replies, first, done) && Tiles(more, first + done, n)
    ensures Tiles(replies + more, first, done + n)
    ensures Supplies(o, replies + more) == Supplies(o, replies) + Supplies(o, more)
  {
    if more == [] {
      assert replies + more == replies;
    } else {
      var m := |more| - 1;
      TilesMore(replies, more[..m], first, done, n - ReplySize(more[m]), o);
      assert (replies + more)[..|replies| + m] == replies + more[..m];
    }
  }

  // What a read has answered, and how far it has changed the store.
  ghost predicate ReadSoFar(st: Store, u: Store, o: nat, first: nat, done: nat, replies: seq<Reply>, worst: nat)
    requires StoreInv(st) && StoreInv(u)
  {
    && u.w.clsize == st.w.clsize && RequestsKept(st.w, u.w, o, first, done)
    && Tiles(replies, first, done) && (forall i :: 0 <= i < |replies| ==> Judged(st, o, replies[i], worst))
    && SameErrors(st.w, u.w, o) && OthersKept(st, u, o, first, done)
    && (worst == 0 ==> AllAbsent(u, o, first, done))
  }

  lemma Regrouped(a: seq<Event>, b: seq<Event>, c: seq<Event>)
    ensures (a + b) + c == a + (b + c)
  {
  }

  lemma ReadStarts(st: Store, o: nat, first: nat, worst: nat)
    requires StoreInv(st)
    ensures ReadSoFar(st, st, o, first, 0, [], worst) && Supplies(o, []) == []
  {
  }

  // What one round has done.
  ghost predicate RoundOk(u: Store, v: Store, o: nat, p: nat, n: nat, more: seq<Reply>, quality: nat)
    requires StoreInv(u) && StoreInv(v)
  {
    && v.w.clsize == u.w.clsize && Tiles(more, p, n)
    && (forall i :: 0 <= i < |more| ==> Judged(u, o, more[i], quality))
    && SameErrors(u.w, v.w, o) && OthersKept(u, v, o, p, n) && RequestsKept(u.w, v.w, o, p, n)
    && (quality == 0 ==> AllAbsent(v, o, p, n))
  }

  lemma ReadFurther(
      st: Store, u: Store, v: Store, o: nat, first: nat, done: nat, replies: seq<Reply>, p: nat, n: nat,
      more: seq<Reply>, worst: nat, quality: nat, next: nat, all: seq<Reply>)
    requires StoreInv(st) && StoreInv(u) && StoreInv(v) && ReadSoFar(st, u, o, first, done, replies, worst)
    requires RoundOk(u, v, o, p, n, more, quality) && quality <= worst
    requires p == first + done && next == done + n && all == replies + more
    ensures ReadSoFar(st, v, o, first, next, all, worst)
    ensures Supplies(o, all) == Supplies(o, replies) + Supplies(o, more)
  {
    TilesMore(replies, more, first, done, n, o);
    JudgedEarlier(st, u, o, first, done, p, n, more, quality, worst);
    RequestsKeptTwice(st.w, u.w, v.w, o, first, done, p, n, next);
    assert OthersKept(st, v, o, first, next);
  }

  lemma RequestsKeptTwice(w: World, u: World, v: World, o: nat, first: nat, done: nat, p: nat, n: nat, next: nat)
    requires w.clsize > 0 && u.clsize == w.clsize == v.clsize && p == first + done && next == done + n
    requires RequestsKept(w, u, o, first, done) && RequestsKept(u, v, o, p, n)
    ensures RequestsKept(w, v, o, first, next)
  {
  }

  lemma JudgedEarlier(
      st: Store, u: Store, o: nat, first: nat, done: nat, p: nat, n: nat, replies: seq<Reply>, quality: nat, worst: nat)
    requires StoreInv(st) && StoreInv(u) && u.w.clsize == st.w.clsize
    requires SameErrors(st.w, u.w, o) && OthersKept(st, u, o, first, done)
    requires p == first + done && Tiles(replies, p, n)
    requires forall i :: 0 <= i < |replies| ==> Judged(u, o, replies[i], quality)
    requires quality <= worst
    ensures forall i :: 0 <= i < |replies| ==> Judged(st, o, replies[i], worst)
  {
    TilesFrom(replies, p, n);
    forall i | 0 <= i < |replies| ensures Judged(st, o, replies[i], worst) {
      assert Judged(u, o, replies[i], quality);
      ProperEarlier(st, u, o, first, done, p, replies[i]);
    }
  }

  lemma ProperEarlier(st: Store, u: Store, o: nat, first: nat, done: nat, p: nat, r: Reply)
    requires StoreInv(st) && StoreInv(u) && u.w.clsize == st.w.clsize && p == first + done
    requires SameErrors(st.w, u.w, o) && OthersKept(st, u, o, first, done)
    requires r.first >= p && Proper(u, o, r)
    ensures Proper(st, o, r)
  {
    forall q: nat | r.first <= q < r.first + ReplySize(r) ensures Fits(st, o, q, r) {
      assert Fits(u, o, q, r) && Contents(u, o, q) == Contents(st, o, q);
    }
  }

  lemma {:induction false} TilesFrom(replies: seq<Reply>, first: nat, n: nat)
    requires Tiles(replies, first, n)
    ensures forall i :: 0 <= i < |replies| ==> replies[i].first >= first
  {
    if replies != [] {
      var m := |replies| - 1;
      TilesFrom(replies[..m], first, n - ReplySize(replies[m]));
      assert forall i :: 0 <= i < m ==> replies[i] == replies[..m][i];
    }
  }

  ghost predicate SameObjects(st: Store, st': Store) {
    && st'.shift == st.shift && st'.w.clsize == st.w.clsize && |st'.w.maps| == |st.w.maps|
    && forall o :: 0 <= o < |st.w.maps| ==> |st'.w.maps[o]| == |st.w.maps[o]|
  }

  // The entry of page p was already in error before the request.
  predicate WasBroken(w: World, o: nat, p: nat)
    requires w.clsize > 0
  {
    HasEntry(w, o, Cluster(w, p)) && w.maps[o][Cluster(w, p)].error
  }

  // Data for the pages that are supplied, and an error for the rest of the run.
  function RunAnswers(p: nat, n: nat, data: seq<Bytes>): seq<Reply>
    requires |data| <= n
  {
    (if data != [] then [Data(p, data)] else []) + if |data| < n then [Error(p + |data|, n - |data|)] else []
  }

  lemma RunReplies(o: nat, p: nat, n: nat, data: seq<Bytes>)
    requires |data| <= n && n > 0
    ensures Tiles(RunAnswers(p, n, data), p, n)
    ensures Supplies(o, RunAnswers(p, n, data)) == if data != [] then [Supplied(o, p, |data|)] else []
  {
    var replies := RunAnswers(p, n, data);
    if |replies| == 2 {
      assert replies[..|replies| - 1] == [Data(p, data)] && [Data(p, data)][..0] == [];
      assert Supplies(o, [Data(p, data)]) == [Supplied(o, p, |data|)];
    } else {
      assert replies[..0] == [];
    }
  }

  // What a read supplies is what was last written: the last thing that happened to each page is that
  // these bytes landed.
  lemma SuppliedIsLastWritten(st: Store, h: seq<Event>, o: nat, r: Reply, j: nat)
    requires StoreInv(st) && Faithful(st, h) && r.Data? && Genuine(st, o, r) && j < |r.data|
    ensures IsLastWritten(h, st.w.clsize, o, r.first + j, r.data[j])
  {
    LastWritten(h, st.w.clsize, o, r.first + j, r.data[j]);
  }

  // The pages from p on, at most n, that belong to the cluster of page p.
  function Chunk(w: World, p: nat, n: nat): (c: nat)
    requires w.clsize > 0
    ensures c <= n && (n > 0 ==> c > 0)
  {
    if n <= w.clsize - Index(w, p) then n else w.clsize - Index(w, p)
  }

  // The pages of an entry that is not mapped are absent up to the end of the cluster.
  lemma UnmappedLength(w: World, o: nat, p: nat, cnt: nat)
    requires w.clsize > 0 && cnt > 0
    requires !(HasEntry(w, o, Cluster(w, p)) && Mapped(w.maps[o][Cluster(w, p)]))
    ensures Location(w, o, p).None? && RunLength(w, o, p, cnt) == Chunk(w, p, cnt)
  {
    var n := Chunk(w, p, cnt);
    forall q: nat | p <= q < p + n ensures Alike(w, o, p, q) {
      InChunk(w, p, n, q);
    }
    EndOfCluster(w, p, n, cnt);
    RunLengthIs(w, o, p, cnt, n);
  }

  lemma EndOfCluster(w: World, p: nat, n: nat, cnt: nat)
    requires w.clsize > 0 && 0 < n <= cnt && Index(w, p) + n <= w.clsize
    ensures Index(w, p) + n == w.clsize ==> Cluster(w, p + n) != Cluster(w, p)
  {
    if Index(w, p) + n == w.clsize {
      NextCluster(w, p, n);
    }
  }

  lemma NextCluster(w: World, p: nat, n: nat)
    requires w.clsize > 0 && n == w.clsize - Index(w, p)
    ensures Cluster(w, p + n) == Cluster(w, p) + 1
  {
    var c, q, z := Cluster(w, p), Cluster(w, p + n), w.clsize;
    assert p == c * z + p % z && p + n == q * z + (p + n) % z;
    Distribute(c, 1, z);
    if q < c + 1 {
      Monotone(q, c, z);
    } else if q > c + 1 {
      Monotone(c + 2, q, z);
      Distribute(c, 2, z);
    }
  }

  // The run that is counted in a mapped entry.
  lemma MappedLength(w: World, o: nat, p: nat, cnt: nat, size: nat, unavail: nat)
    requires w.clsize > 0 && HasEntry(w, o, Cluster(w, p)) && Mapped(w.maps[o][Cluster(w, p)])
    requires (size == 0) != (unavail == 0) && size + unavail <= cnt && Index(w, p) + size + unavail <= w.clsize
    requires var (e, i) := (w.maps[o][Cluster(w, p)], Index(w, p));
      && (forall j :: i <= j < i + size ==> j in e.bmap) && (forall j :: i <= j < i + unavail ==> j !in e.bmap)
      && var j := i + size + unavail; size + unavail == cnt || j == w.clsize || ((j in e.bmap) == (size == 0))
    ensures Location(w, o, p).Some? <==> size > 0
    ensures RunLength(w, o, p, cnt) == size + unavail
  {
    var n := size + unavail;
    forall q: nat | p <= q < p + n ensures Alike(w, o, p, q) {
      InChunk(w, p, n, q);
    }
    if n < cnt {
      EndOfCluster(w, p, n, cnt);
      if Index(w, p) + n < w.clsize {
        InChunk(w, p, n + 1, p + n);
      }
    }
    RunLengthIs(w, o, p, cnt, n);
  }

  // What is left of a read after some rounds: how far it will get, and how bad its reads can be.
  ghost predicate Reached(
      st: Store, o: nat, first: nat, cnt: nat, counts: nat -> seq<nat>, done: nat, round: nat, stop: bool, worst: nat)
    requires st.w.clsize > 0 && done <= cnt
  {
    && Reach(st, o, first, cnt, counts, 0)
         == done + (if stop then 0 else Reach(st, o, first + done, cnt - done, counts, round))
    && (!stop ==> Worst(st, o, first + done, cnt - done, counts, round) <= worst)
  }

  // A round of a read goes as it would have gone at the beginning.
  lemma RoundAhead(
      st: Store, u: Store, o: nat, first: nat, done: nat, cnt: nat, counts: nat -> seq<nat>, round: nat, p: nat,
      left: nat, given: seq<nat>, n: nat, stop: bool, quality: nat, next: nat, worst: nat)
    requires st.w.clsize > 0 && PlacesKept(st, u, o, first, done) && done < cnt
    requires p == first + done && left == cnt - done && given == counts(round) && next == done + n
    requires Reached(st, o, first, cnt, counts, done, round, false, worst)
    requires n == RunLength(u.w, o, p, left) && (stop <==> Stops(u, o, p, left, given))
    requires quality == RoundQuality(u, o, p, n, given)
    ensures next <= cnt && Reached(st, o, first, cnt, counts, next, round + 1, stop, worst) && quality <= worst
  {
    SameRound(st, u, o, first, done, p, left, given);
    OneRound(st, o, p, left, counts, round, n, p + n, left - n, given);
  }

  lemma SameRound(st: Store, u: Store, o: nat, first: nat, done: nat, p: nat, left: nat, given: seq<nat>)
    requires st.w.clsize > 0 && PlacesKept(st, u, o, first, done) && left > 0 && p == first + done
    ensures var n := RunLength(st.w, o, p, left);
      && RunLength(u.w, o, p, left) == n && (Stops(u, o, p, left, given) <==> Stops(st, o, p, left, given))
      && RoundQuality(u, o, p, n, given) == RoundQuality(st, o, p, n, given)
  {
    assert SamePlaces(st.w, u.w, o, p);
    SameRunLength(st.w, u.w, o, p, left);
    assert Location(u.w, o, p) == Location(st.w, o, p);
  }

  // The places behind a round have been kept by all rounds before it.
  lemma PlacesKeptTwice(st: Store, u: Store, v: Store, o: nat, first: nat, done: nat, p: nat, n: nat, next: nat)
    requires st.w.clsize > 0 && u.w.clsize > 0 && p == first + done && next == done + n
    requires PlacesKept(st, u, o, first, done) && PlacesKept(u, v, o, p, n)
    ensures PlacesKept(st, v, o, first, next)
  {
  }

  // One round, seen from what is to come.
  lemma OneRound(
      st: Store, o: nat, p: nat, cnt: nat, counts: nat -> seq<nat>, i: nat, n: nat, next: nat, left: nat,
      given: seq<nat>)
    requires st.w.clsize > 0 && cnt > 0 && n == RunLength(st.w, o, p, cnt) && given == counts(i)
    requires next == p + n && left == cnt - n
    ensures var stop := Stops(st, o, p, cnt, given);
      && Reach(st, o, p, cnt, counts, i) == n + (if stop then 0 else Reach(st, o, next, left, counts, i + 1))
      && RoundQuality(st, o, p, n, given) <= Worst(st, o, p, cnt, counts, i)
      && (!stop ==> Worst(st, o, next, left, counts, i + 1) <= Worst(st, o, p, cnt, counts, i))
  {
  }

  // A round, put together with those before it.
  lemma RoundJoins(
      st: Store, u: Store, v: Store, o: nat, first: nat, cnt: nat, counts: nat -> seq<nat>, done: nat, round: nat,
      replies: seq<Reply>, p: nat, left: nat, given: seq<nat>, n: nat, more: seq<Reply>, stop: bool, quality: nat,
      next: nat, all: seq<Reply>, worst: nat)
    requires StoreInv(st) && StoreInv(u) && StoreInv(v) && done < cnt && next == done + n && all == replies + more
    requires ReadSoFar(st, u, o, first, done, replies, worst) && PlacesKept(st, u, o, first, done)
    requires Reached(st, o, first, cnt, counts, done, round, false, worst)
    requires p == first + done && left == cnt - done && given == counts(round)
    requires RoundOk(u, v, o, p, n, more, quality) && PlacesKept(u, v, o, p, n)
    requires n == RunLength(u.w, o, p, left) && (stop <==> Stops(u, o, p, left, given))
    requires quality == RoundQuality(u, o, p, n, given)
    ensures ReadSoFar(st, v, o, first, next, all, worst) && PlacesKept(st, v, o, first, next) && next <= cnt
    ensures Reached(st, o, first, cnt, counts, next, round + 1, stop, worst)
    ensures Supplies(o, all) == Supplies(o, replies) + Supplies(o, more)
  {
    assert next <= cnt && Reached(st, o, first, cnt, counts, next, round + 1, stop, worst) && quality <= worst by {
      RoundAhead(st, u, o, first, done, cnt, counts, round, p, left, given, n, stop, quality, next, worst);
    }
    assert PlacesKept(st, v, o, first, next) by {
      PlacesKeptTwice(st, u, v, o, first, done, p, n, next);
    }
    assert ReadSoFar(st, v, o, first, next, all, worst)
           && Supplies(o, all) == Supplies(o, replies) + Supplies(o, more) by {
      ReadFurther(st, u, v, o, first, done, replies, p, n, more, worst, quality, next, all);
    }
  }

  lemma ReadOver(
      st: Store, o: nat, first: nat, cnt: nat, counts: nat -> seq<nat>, done: nat, round: nat, stop: bool, worst: nat)
    requires st.w.clsize > 0 && done <= cnt && Reached(st, o, first, cnt, counts, done, round, stop, worst)
    requires stop || done == cnt
    ensures done == Reach(st, o, first, cnt, counts, 0)
  {
  }

  // Complete device reads answer for the whole range.
  lemma {:induction false} CompleteReads(st: Store, o: nat, p: nat, cnt: nat, counts: nat -> seq<nat>, i: nat)
    requires st.w.clsize > 0 && Worst(st, o, p, cnt, counts, i) == 0
    ensures Reach(st, o, p, cnt, counts, i) == cnt
    decreases cnt
  {
    if cnt > 0 {
      var n, given := RunLength(st.w, o, p, cnt), counts(i);
      var next, left := p + n, cnt - n;
      OneRound(st, o, p, cnt, counts, i, n, next, left, given);
      if Location(st.w, o, p).Some? {
        CompleteIsWhole(st.shift, RecordBits(st, Location(st.w, o, p).value.seg), n, given);
      }
      CompleteReads(st, o, next, left, counts, i + 1);
    }
  }
}
