// The allocator underneath the pager: a free list for each power of two, threaded through the free
// blocks themselves, over a space that only grows.  A step is one critical section of one thread, so
// that a run interleaves the allocations of all threads in any order.

module Kalloc {
  import opened Arithmetic
  import opened Wrappers

  const MINSIZE := 4
  const KLIST_MAX := 13
  const LARGEST := 16384

  // What each byte of the address space is used for.
  datatype Use = Unmapped | Bump | Wasted | Held(thread: nat) | Live(block: nat) | Free(block: nat)

  // `mem` is memory, a word at each multiple of 4.  `held` is the space a thread has mapped and not
  // yet added.  `live` gives the size of every block handed out, and `lists` what the free lists hold.
  datatype Heap = Heap(
    page: nat, mem: nat -> nat, heads: seq<nat>, next: nat, end: nat,
    use: nat -> Use, live: map<nat, nat>, held: map<nat, (nat, nat)>, lists: seq<seq<nat>>)

  function ClassSize(i: nat): (n: nat)
    ensures n >= MINSIZE && n % 4 == 0
  {
    if i == 0 then MINSIZE else 2 * ClassSize(i - 1)
  }

  function RoundPage(size: nat, page: nat): (n: nat)
    requires page > 0
    ensures size <= n < size + page && n % page == 0
  {
    DivMod((size + page - 1) / page, 0, page);
    (size + page - 1) / page * page
  }

  function KallocMax(page: nat): nat {
    if page > LARGEST then LARGEST else page
  }

  // ---------------------------------------------------------------- the invariant

  ghost predicate Uses(h: Heap, a: nat, n: nat, u: Use) {
    forall b: nat :: a <= b < a + n ==> h.use(b) == u
  }

  ghost predicate LiveOk(h: Heap, a: nat, n: nat) {
    a > 0 && a % 4 == 0 && n > 0 && Uses(h, a, n, Live(a))
  }

  ghost predicate FreeOk(h: Heap, i: nat, a: nat) {
    a > 0 && a % 4 == 0 && Uses(h, a, ClassSize(i), Free(a))
  }

  ghost predicate HeldOk(h: Heap, t: nat, space: (nat, nat)) {
    space.0 > 0 && space.0 % 4 == 0 && Uses(h, space.0, space.1, Held(t))
  }

  // The words of the blocks chain each to the next, and the last to 0.
  predicate Chained(mem: nat -> nat, head: nat, s: seq<nat>)
    decreases s
  {
    if s == [] then head == 0 else head == s[0] && Chained(mem, mem(s[0]), s[1..])
  }

  ghost predicate ListOk(h: Heap, i: nat, head: nat, s: seq<nat>) {
    && Chained(h.mem, head, s)
    && (forall k :: 0 <= k < |s| ==> FreeOk(h, i, s[k]))
    && forall j, k :: 0 <= j < k < |s| ==> s[j] != s[k]
  }

  // No block is on two lists, nor on a list of another size.
  ghost predicate ListsApart(h: Heap) {
    forall i, j :: 0 <= i < |h.lists| && 0 <= j < |h.lists| && i != j ==>
      forall k, l :: 0 <= k < |h.lists[i]| && 0 <= l < |h.lists[j]| ==> h.lists[i][k] != h.lists[j][l]
  }

  ghost predicate HeapInv(h: Heap) {
    && h.page > 0 && h.page % 4 == 0 && |h.heads| == |h.lists| == KLIST_MAX
    && 0 < h.next <= h.end && h.next % 4 == 0 && Uses(h, h.next, h.end - h.next, Bump)
    && (forall a :: a in h.live ==> LiveOk(h, a, h.live[a]))
    && (forall t :: t in h.held ==> HeldOk(h, t, h.held[t]))
    && (forall i :: 0 <= i < KLIST_MAX ==> ListOk(h, i, h.heads[i], h.lists[i]))
    && ListsApart(h)
  }

  // ---------------------------------------------------------------- the steps

  datatype Step =
    | Pop(i: nat)
    | Push(a: nat, i: nat)
    | TakeSpace(i: nat)
    | MapSpace(t: nat, a: nat, n: nat)
    | AddSpace(t: nat)
    | ReturnSpace(t: nat)
    | AllocLarge(a: nat, n: nat)
    | FreeLarge(a: nat)
    | WriteWord(a: nat, v: nat)

  // Space that vm_map or vm_allocate may return: whole pages, used for nothing.
  ghost predicate IsFresh(h: Heap, a: nat, n: nat) {
    a > 0 && a % 4 == 0 && n > 0 && Uses(h, a, n, Unmapped)
  }

  ghost predicate Enabled(h: Heap, s: Step) {
    |h.heads| == |h.lists| == KLIST_MAX && match s
      case Pop(i) => i < KLIST_MAX && h.heads[i] != 0
      case Push(a, i) => i < KLIST_MAX && a in h.live && h.live[a] == ClassSize(i)
      case TakeSpace(i) => h.next + ClassSize(i) <= h.end
      case MapSpace(t, a, n) => t !in h.held && IsFresh(h, a, n)
      case AddSpace(t) => t in h.held
      case ReturnSpace(t) => t in h.held
      case AllocLarge(a, n) => IsFresh(h, a, n)
      case FreeLarge(a) => a in h.live
      case WriteWord(a, _) => a % 4 == 0 && h.use(a).Live?
  }

  function Using(use: nat -> Use, a: nat, n: nat, u: Use): nat -> Use {
    (b: nat) => if a <= b < a + n then u else use(b)
  }

  function Poke(mem: nat -> nat, a: nat, v: nat): nat -> nat {
    (b: nat) => if b == a then v else mem(b)
  }

  function Take(h: Heap, s: Step): Heap
    requires HeapInv(h) && Enabled(h, s)
  {
    match s
    case Pop(i) =>
      var a := h.heads[i];
      h.(heads := h.heads[i := h.mem(a)], use := Using(h.use, a, ClassSize(i), Live(a)),
         live := h.live[a := ClassSize(i)],
         lists := h.lists[i := h.lists[i][1..]])
    case Push(a, i) =>
      h.(mem := Poke(h.mem, a, h.heads[i]), heads := h.heads[i := a], use := Using(h.use, a, ClassSize(i), Free(a)),
         live := h.live - {a}, lists := h.lists[i := [a] + h.lists[i]])
    case TakeSpace(i) =>
      h.(next := h.next + ClassSize(i), use := Using(h.use, h.next, ClassSize(i), Live(h.next)),
         live := h.live[h.next := ClassSize(i)])
    case MapSpace(t, a, n) => h.(use := Using(h.use, a, n, Held(t)), held := h.held[t := (a, n)])
    case AddSpace(t) =>
      var (a, n) := h.held[t];
      if a == h.end then h.(end := a + n, use := Using(h.use, a, n, Bump), held := h.held - {t})
      else
        var use := Using(h.use, h.next, h.end - h.next, Wasted);
        h.(next := a, end := a + n, use := Using(use, a, n, Bump), held := h.held - {t})
    case ReturnSpace(t) => h.(use := Using(h.use, h.held[t].0, h.held[t].1, Unmapped), held := h.held - {t})
    case AllocLarge(a, n) => h.(use := Using(h.use, a, n, Live(a)), live := h.live[a := n])
    case FreeLarge(a) => h.(use := Using(h.use, a, h.live[a], Unmapped), live := h.live - {a})
    case WriteWord(a, v) => h.(mem := Poke(h.mem, a, v))
  }

  // ---------------------------------------------------------------- every step keeps the invariant

  // Bytes that were used for v have changed hands; all the rest are used as before.
  ghost predicate OnlyFrom(h: Heap, u: Heap, v: Use) {
    forall a: nat, n: nat, x: Use :: x != v && Uses(h, a, n, x) ==> Uses(u, a, n, x)
  }

  lemma Recolor(h: Heap, u: Heap, a: nat, n: nat, v: Use, w: Use)
    requires Uses(h, a, n, v) && u.use == Using(h.use, a, n, w)
    ensures OnlyFrom(h, u, v) && Uses(u, a, n, w)
  {
    forall b: nat, m: nat, x: Use | x != v && Uses(h, b, m, x) ensures Uses(u, b, m, x) {
      forall c: nat | b <= c < b + m ensures u.use(c) == x {
        assert h.use(c) == x;
      }
    }
  }

  lemma {:induction false} ChainedPoke(mem: nat -> nat, head: nat, s: seq<nat>, a: nat, v: nat)
    requires Chained(mem, head, s) && a !in s
    ensures Chained(Poke(mem, a, v), head, s)
    decreases s
  {
    if s != [] {
      ChainedPoke(mem, mem(s[0]), s[1..], a, v);
    }
  }

  // A list is kept when its blocks are, and memory changes at most in a word of no block of it.
  lemma ListKept(h: Heap, u: Heap, i: nat, head: nat, s: seq<nat>, a: nat, v: nat)
    requires ListOk(h, i, head, s) && (u.mem == h.mem || (u.mem == Poke(h.mem, a, v) && a !in s))
    requires forall k :: 0 <= k < |s| ==> FreeOk(u, i, s[k])
    ensures ListOk(u, i, head, s)
  {
    if u.mem != h.mem {
      ChainedPoke(h.mem, head, s, a, v);
    }
  }

  lemma OnFreeList(h: Heap, i: nat, k: nat)
    requires HeapInv(h) && i < KLIST_MAX && k < |h.lists[i]|
    ensures FreeOk(h, i, h.lists[i][k]) && h.use(h.lists[i][k]) == Free(h.lists[i][k])
  {
    assert ListOk(h, i, h.heads[i], h.lists[i]);
    assert FreeOk(h, i, h.lists[i][k]);
  }

  // A step that touches neither the lists nor their blocks, nor their words.
  lemma ListsStay(h: Heap, u: Heap, v: Use, a: nat, x: nat)
    requires HeapInv(h) && u.heads == h.heads && u.lists == h.lists && !v.Free? && OnlyFrom(h, u, v)
    requires u.mem == h.mem || (u.mem == Poke(h.mem, a, x) && !h.use(a).Free?)
    ensures forall i :: 0 <= i < KLIST_MAX ==> ListOk(u, i, u.heads[i], u.lists[i])
    ensures ListsApart(u)
  {
    forall i | 0 <= i < KLIST_MAX ensures ListOk(u, i, u.heads[i], u.lists[i]) {
      assert ListOk(h, i, h.heads[i], h.lists[i]);
      forall k | 0 <= k < |h.lists[i]| ensures FreeOk(u, i, h.lists[i][k]) && (u.mem != h.mem ==> h.lists[i][k] != a) {
        OnFreeList(h, i, k);
      }
      ListKept(h, u, i, h.heads[i], h.lists[i], a, x);
    }
  }

  // Live blocks and held space stay when the bytes that change hands are not theirs.
  lemma BlocksStay(h: Heap, u: Heap, v: Use)
    requires HeapInv(h) && OnlyFrom(h, u, v)
    ensures forall a :: a in h.live && v != Live(a) ==> LiveOk(u, a, h.live[a])
    ensures forall t :: t in h.held && v != Use.Held(t) ==> HeldOk(u, t, h.held[t])
    ensures v != Bump ==> Uses(u, h.next, h.end - h.next, Bump)
  {
    forall a | a in h.live && v != Live(a) ensures LiveOk(u, a, h.live[a]) {
      assert LiveOk(h, a, h.live[a]);
    }
    forall t | t in h.held && v != Use.Held(t) ensures HeldOk(u, t, h.held[t]) {
      assert HeldOk(h, t, h.held[t]);
    }
  }

  lemma PopKeepsHeap(h: Heap, i: nat)
    requires HeapInv(h) && Enabled(h, Pop(i))
    ensures HeapInv(Take(h, Pop(i)))
  {
    var a, u, s := h.heads[i], Take(h, Pop(i)), h.lists[i];
    assert ListOk(h, i, a, s);
    assert a == s[0] && FreeOk(h, i, s[0]);
    Recolor(h, u, a, ClassSize(i), Free(a), Live(a));
    BlocksStay(h, u, Free(a));
    PopKeepsLists(h, i);
  }

  lemma PopKeepsLists(h: Heap, i: nat)
    requires HeapInv(h) && Enabled(h, Pop(i))
    ensures var u := Take(h, Pop(i)); ListsApart(u) && forall j :: 0 <= j < KLIST_MAX ==>
      ListOk(u, j, u.heads[j], u.lists[j])
  {
    var a, u, s := h.heads[i], Take(h, Pop(i)), h.lists[i];
    assert ListOk(h, i, a, s);
    assert a == s[0] && FreeOk(h, i, s[0]);
    Recolor(h, u, a, ClassSize(i), Free(a), Live(a));
    forall j | 0 <= j < KLIST_MAX ensures ListOk(u, j, u.heads[j], u.lists[j]) {
      assert ListOk(h, j, h.heads[j], h.lists[j]);
      forall k | 0 <= k < |u.lists[j]| ensures FreeOk(u, j, u.lists[j][k]) {
        var l := if j == i then k + 1 else k;
        assert u.lists[j][k] == h.lists[j][l];
        OnFreeList(h, j, l);
        assert h.lists[j][l] != h.lists[i][0];
      }
    }
  }

  lemma PushKeepsHeap(h: Heap, a: nat, i: nat)
    requires HeapInv(h) && Enabled(h, Push(a, i))
    ensures HeapInv(Take(h, Push(a, i)))
  {
    var u := Take(h, Push(a, i));
    assert LiveOk(h, a, h.live[a]);
    Recolor(h, u, a, ClassSize(i), Live(a), Free(a));
    BlocksStay(h, u, Live(a));
    PushKeepsLists(h, a, i);
  }

  lemma NotOnList(h: Heap, a: nat)
    requires HeapInv(h) && a in h.live
    ensures forall j :: 0 <= j < KLIST_MAX ==> a !in h.lists[j]
  {
    assert LiveOk(h, a, h.live[a]);
    assert h.use(a) == Live(a);
    forall j, k | 0 <= j < KLIST_MAX && 0 <= k < |h.lists[j]| ensures h.lists[j][k] != a {
      OnFreeList(h, j, k);
    }
  }

  lemma PushKeepsLists(h: Heap, a: nat, i: nat)
    requires HeapInv(h) && Enabled(h, Push(a, i))
    ensures var u := Take(h, Push(a, i)); ListsApart(u) && forall j :: 0 <= j < KLIST_MAX ==>
      ListOk(u, j, u.heads[j], u.lists[j])
  {
    var u := Take(h, Push(a, i));
    NotOnList(h, a);
    forall j | 0 <= j < KLIST_MAX ensures ListOk(u, j, h.heads[j], h.lists[j]) {
      PushKeepsList(h, a, i, j);
    }
    PushOnList(h, a, i);
  }

  lemma PushKeepsList(h: Heap, a: nat, i: nat, j: nat)
    requires HeapInv(h) && Enabled(h, Push(a, i)) && j < KLIST_MAX
    ensures ListOk(Take(h, Push(a, i)), j, h.heads[j], h.lists[j])
  {
    var u := Take(h, Push(a, i));
    NotOnList(h, a);
    assert LiveOk(h, a, h.live[a]);
    Recolor(h, u, a, ClassSize(i), Live(a), Free(a));
    assert ListOk(h, j, h.heads[j], h.lists[j]);
    forall k | 0 <= k < |h.lists[j]| ensures FreeOk(u, j, h.lists[j][k]) {
      OnFreeList(h, j, k);
    }
    ListKept(h, u, j, h.heads[j], h.lists[j], a, h.heads[i]);
  }

  lemma PushOnList(h: Heap, a: nat, i: nat)
    requires HeapInv(h) && Enabled(h, Push(a, i)) && ListOk(Take(h, Push(a, i)), i, h.heads[i], h.lists[i])
    ensures var u := Take(h, Push(a, i)); ListOk(u, i, u.heads[i], u.lists[i])
  {
    var u := Take(h, Push(a, i));
    NotOnList(h, a);
    assert LiveOk(h, a, h.live[a]);
    assert u.lists[i][1..] == h.lists[i];
    assert FreeOk(u, i, a);
  }

  lemma TakeSpaceKeepsHeap(h: Heap, i: nat)
    requires HeapInv(h) && Enabled(h, TakeSpace(i))
    ensures HeapInv(Take(h, TakeSpace(i)))
  {
    var u := Take(h, TakeSpace(i));
    Recolor(h, u, h.next, ClassSize(i), Bump, Live(h.next));
    BlocksStay(h, u, Bump);
    ListsStay(h, u, Bump, 0, 0);
  }

  lemma SpaceKeepsHeap(h: Heap, s: Step)
    requires HeapInv(h) && Enabled(h, s) && (s.MapSpace? || s.ReturnSpace?)
    ensures HeapInv(Take(h, s))
  {
    var u := Take(h, s);
    match s
    case MapSpace(t, a, n) =>
      Recolor(h, u, a, n, Unmapped, Use.Held(t));
      BlocksStay(h, u, Unmapped);
      ListsStay(h, u, Unmapped, 0, 0);
    case ReturnSpace(t) =>
      assert HeldOk(h, t, h.held[t]);
      Recolor(h, u, h.held[t].0, h.held[t].1, Use.Held(t), Unmapped);
      BlocksStay(h, u, Use.Held(t));
      ListsStay(h, u, Use.Held(t), 0, 0);
  }

  lemma AddSpaceKeepsHeap(h: Heap, t: nat)
    requires HeapInv(h) && Enabled(h, AddSpace(t))
    ensures HeapInv(Take(h, AddSpace(t)))
  {
    var u := Take(h, AddSpace(t));
    var (a, n) := h.held[t];
    assert HeldOk(h, t, h.held[t]);
    var m := if a == h.end then h else h.(use := Using(h.use, h.next, h.end - h.next, Wasted), end := h.next);
    if a != h.end {
      Recolor(h, m, h.next, h.end - h.next, Bump, Wasted);
      BlocksStay(h, m, Bump);
      ListsStay(h, m, Bump, 0, 0);
    }
    Recolor(m, u, a, n, Use.Held(t), Bump);
    BlocksStay(m, u, Use.Held(t));
    ListsStay(m, u, Use.Held(t), 0, 0);
  }

  lemma BlockKeepsHeap(h: Heap, s: Step)
    requires HeapInv(h) && Enabled(h, s) && (s.AllocLarge? || s.FreeLarge? || s.WriteWord?)
    ensures HeapInv(Take(h, s))
  {
    var u := Take(h, s);
    match s
    case AllocLarge(a, n) =>
      Recolor(h, u, a, n, Unmapped, Live(a));
      BlocksStay(h, u, Unmapped);
      ListsStay(h, u, Unmapped, 0, 0);
    case FreeLarge(a) =>
      assert LiveOk(h, a, h.live[a]);
      Recolor(h, u, a, h.live[a], Live(a), Unmapped);
      BlocksStay(h, u, Live(a));
      ListsStay(h, u, Live(a), 0, 0);
    case WriteWord(a, v) =>
      BlocksStay(h, u, Unmapped);
      assert forall x :: x in h.live ==> LiveOk(h, x, h.live[x]);
      ListsStay(h, u, Unmapped, a, v);
  }

  lemma StepKeepsHeap(h: Heap, s: Step)
    requires HeapInv(h) && Enabled(h, s)
    ensures HeapInv(Take(h, s))
  {
    match s
    case Pop(i) => PopKeepsHeap(h, i);
    case Push(a, i) => PushKeepsHeap(h, a, i);
    case AddSpace(t) => AddSpaceKeepsHeap(h, t);
    case TakeSpace(i) => TakeSpaceKeepsHeap(h, i);
    case MapSpace(_, _, _) => SpaceKeepsHeap(h, s);
    case ReturnSpace(_) => SpaceKeepsHeap(h, s);
    case _ => BlockKeepsHeap(h, s);
  }

  // ---------------------------------------------------------------- runs

  ghost predicate CanRun(h: Heap, steps: seq<Step>)
    decreases steps
  {
    HeapInv(h) && (steps == [] || (Enabled(h, steps[0]) && CanRun(Take(h, steps[0]), steps[1..])))
  }

  function Run(h: Heap, steps: seq<Step>): Heap
    requires CanRun(h, steps)
    decreases steps
  {
    if steps == [] then h else Run(Take(h, steps[0]), steps[1..])
  }

  // Steps of threads other than t.
  predicate SparesThread(steps: seq<Step>, t: nat) {
    forall k :: 0 <= k < |steps| ==>
      steps[k].MapSpace? || steps[k].AddSpace? || steps[k].ReturnSpace? ==> steps[k].t != t
  }

  lemma {:induction false} RunKeepsHeap(h: Heap, steps: seq<Step>, t: nat)
    requires CanRun(h, steps)
    ensures HeapInv(Run(h, steps)) && Run(h, steps).page == h.page
    ensures SparesThread(steps, t) ==> (t in Run(h, steps).held <==> t in h.held)
    ensures SparesThread(steps, t) && t in h.held ==> Run(h, steps).held[t] == h.held[t]
    decreases steps
  {
    if steps != [] {
      StepKeepsHeap(h, steps[0]);
      RunKeepsHeap(Take(h, steps[0]), steps[1..], t);
    }
  }

  // kalloc_init: nothing is allocated, and address 0 never will be.
  function Initial(page: nat): Heap
    requires page > 0
  {
    var (mem, use) := ((_: nat) => 0, (_: nat) => Unmapped);
    Heap(page, mem, seq(KLIST_MAX, _ => 0), page, page, use, map[], map[], seq(KLIST_MAX, _ => []))
  }

  lemma InitialHeap(page: nat)
    requires page > 0 && page % 4 == 0
    ensures HeapInv(Initial(page))
  {
  }

  // ---------------------------------------------------------------- what the invariant means

  predicate IsIn(x: nat, a: nat, n: nat) {
    a <= x < a + n
  }

  // The n bytes from a on and the m bytes from b on have none in common.
  predicate Apart(a: nat, n: nat, b: nat, m: nat)
    ensures n > 0 && m > 0 ==> (Apart(a, n, b, m) <==> forall x: nat :: !(IsIn(x, a, n) && IsIn(x, b, m)))
  {
    assert n > 0 && m > 0 ==> IsIn(a, a, n) && IsIn(b, b, m);
    a + n <= b || b + m <= a
  }

  lemma UsesApart(h: Heap, a: nat, n: nat, u: Use, b: nat, m: nat, v: Use)
    requires Uses(h, a, n, u) && Uses(h, b, m, v) && u != v && n > 0 && m > 0
    ensures Apart(a, n, b, m)
  {
    assert h.use(a) == u && h.use(b) == v;
    assert a <= b < a + n ==> h.use(b) == u;
    assert b <= a < b + m ==> h.use(a) == v;
  }

  // In every reachable heap no two blocks handed out share a byte, nor a block handed out and one on
  // a free list, nor any of them and the space that is still to be cut up.
  lemma BlocksDisjoint(page: nat, steps: seq<Step>, a: nat, b: nat, i: nat, k: nat)
    requires page > 0 && page % 4 == 0 && CanRun(Initial(page), steps)
    ensures var h := Run(Initial(page), steps);
      && (a in h.live && b in h.live && a != b ==> Apart(a, h.live[a], b, h.live[b]))
      && (a in h.live && h.next < h.end ==> Apart(a, h.live[a], h.next, h.end - h.next))
      && (a in h.live ==> a != 0 && a % 4 == 0)
      && |h.lists| == KLIST_MAX
      && (i < KLIST_MAX && k < |h.lists[i]| ==>
            && (a in h.live ==> Apart(a, h.live[a], h.lists[i][k], ClassSize(i)))
            && (h.next < h.end ==> Apart(h.lists[i][k], ClassSize(i), h.next, h.end - h.next)))
  {
    var h := Run(Initial(page), steps);
    RunKeepsHeap(Initial(page), steps, 0);
    if a in h.live {
      assert LiveOk(h, a, h.live[a]);
      if b in h.live && a != b {
        assert LiveOk(h, b, h.live[b]);
        UsesApart(h, a, h.live[a], Live(a), b, h.live[b], Live(b));
      }
      if h.next < h.end {
        UsesApart(h, a, h.live[a], Live(a), h.next, h.end - h.next, Bump);
      }
    }
    if i < KLIST_MAX && k < |h.lists[i]| {
      var f := h.lists[i][k];
      OnFreeList(h, i, k);
      if a in h.live {
        UsesApart(h, a, h.live[a], Live(a), f, ClassSize(i), Free(f));
      }
      if h.next < h.end {
        UsesApart(h, f, ClassSize(i), Free(f), h.next, h.end - h.next, Bump);
      }
    }
  }

  // Blocks on free lists are apart from one another, whichever lists they are on.
  lemma FreeBlocksDisjoint(h: Heap, i: nat, k: nat, j: nat, l: nat)
    requires HeapInv(h) && i < KLIST_MAX && j < KLIST_MAX && k < |h.lists[i]| && l < |h.lists[j]| && (i, k) != (j, l)
    ensures Apart(h.lists[i][k], ClassSize(i), h.lists[j][l], ClassSize(j))
  {
    OnFreeList(h, i, k);
    OnFreeList(h, j, l);
    assert ListOk(h, i, h.heads[i], h.lists[i]);
    UsesApart(h, h.lists[i][k], ClassSize(i), Free(h.lists[i][k]), h.lists[j][l], ClassSize(j), Free(h.lists[j][l]));
  }

  // The word reached from the head of a list after n links.
  function Walk(mem: nat -> nat, head: nat, n: nat): nat
    decreases n
  {
    if n == 0 then head else Walk(mem, mem(head), n - 1)
  }

  // Following the links visits the blocks of the list, each once, and ends.
  lemma {:induction false} WalkVisits(mem: nat -> nat, head: nat, s: seq<nat>, n: nat)
    requires Chained(mem, head, s) && n <= |s|
    ensures Walk(mem, head, n) == if n == |s| then 0 else s[n]
    decreases n
  {
    if n > 0 {
      WalkVisits(mem, mem(head), s[1..], n - 1);
    }
  }

  // ---------------------------------------------------------------- port names

  function VsToPort(vs: nat): nat {
    vs + 1
  }

  // port & ~3
  function PortToVs(port: nat): nat {
    port - port % 4
  }

  predicate PortIsVs(port: nat) {
    port % 4 == 1
  }

  // The port name gives the address back exactly when the address is a multiple of 4.
  lemma PortsExactly(vs: nat)
    ensures PortIsVs(VsToPort(vs)) && PortToVs(VsToPort(vs)) == vs <==> vs % 4 == 0
  {
  }

  // So it does for every block that is ever handed out.
  lemma BlocksMakePorts(page: nat, steps: seq<Step>, vs: nat)
    requires page > 0 && page % 4 == 0 && CanRun(Initial(page), steps) && vs in Run(Initial(page), steps).live
    ensures PortIsVs(VsToPort(vs)) && PortToVs(VsToPort(vs)) == vs
  {
    BlocksDisjoint(page, steps, vs, vs, 0, 0);
  }

  // ---------------------------------------------------------------- the allocator

  function ClassFrom(i: nat, size: nat): (j: nat)
    ensures j >= i && ClassSize(j) >= size && (j > i ==> ClassSize(j - 1) < size)
    decreases size - ClassSize(i)
  {
    if ClassSize(i) >= size then i else ClassFrom(i + 1, size)
  }

  function AllocSize(size: nat, page: nat): nat {
    if size < KallocMax(page) then ClassSize(ClassFrom(0, size)) else size
  }

  // The bytes that belong to a block asked for as `size`.
  function Granted(size: nat, page: nat): nat
    requires page > 0
  {
    var n := AllocSize(size, page);
    if n < KallocMax(page) then n else RoundPage(n, page)
  }

  lemma {:induction false} ClassesGrow(i: nat, j: nat)
    requires i < j
    ensures ClassSize(i) < ClassSize(j)
  {
    if i + 1 < j {
      ClassesGrow(i, j - 1);
    }
  }

  class Allocator {
    var h: Heap

    ghost predicate Valid()
      reads this
    {
      HeapInv(h)
    }

    constructor (page: nat)
      requires page > 0 && page % 4 == 0
      ensures Valid() && h == Initial(page)
    {
      InitialHeap(page);
      h := Initial(page);
    }

    // The loop of kalloc and kfree: the free list's index never leaves the array of lists.
    static method SizeClass(size: nat, page: nat) returns (allocsize: nat, i: nat)
      requires size < KallocMax(page)
      ensures allocsize == ClassSize(i) == AllocSize(size, page) && i < KLIST_MAX
    {
      allocsize, i := MINSIZE, 0;
      while allocsize < size
        invariant allocsize == ClassSize(i) && i < KLIST_MAX && ClassFrom(0, size) == ClassFrom(i, size)
        decreases KLIST_MAX - i
      {
        assert ClassSize(12) == LARGEST;
        allocsize, i := allocsize * 2, i + 1;
      }
    }

    // kget_space for thread t.  `space` is what vm_map would return, and `others` what other threads
    // do while this one has dropped the lock; `mid` is the heap from which the block is finally cut.
    method GetSpace(i: nat, t: nat, space: Option<nat>, others: seq<Step>) returns (addr: nat, ghost mid: Heap)
      requires Valid() && t !in h.held && SparesThread(others, t)
      requires space.Some? ==> Mappable(h, i, t, space.value, others)
      modifies this
      ensures Valid() && h.page == old(h).page && t !in h.held
      ensures mid == old(h) || (space.Some? && mid == Mapped(old(h), i, t, space.value, others))
      ensures addr == 0 ==> space.None? && h == old(h) && h.next + ClassSize(i) > h.end
      ensures addr != 0 ==> addr % 4 == 0 && addr !in mid.live && h.live == mid.live[addr := ClassSize(i)]
      ensures h.lists == mid.lists && h.mem == mid.mem
      ensures old(h.next + ClassSize(i) <= h.end) ==> mid == old(h) && addr == old(h.next)
      ensures addr != 0 ==> addr == CutAt(mid, ClassSize(i), space) && h.next == addr + ClassSize(i)
      ensures addr != 0 ==> h.end == if mid.next + ClassSize(i) <= mid.end || space.None? then mid.end
                                     else space.value + RoundPage(ClassSize(i), h.page)
    {
      var size, newSpace := ClassSize(i), 0;
      mid := h;
      while h.next + size > h.end
        invariant Valid() && h.page == old(h).page && (newSpace != 0 <==> t in h.held)
        invariant newSpace == 0 && h.next + size > h.end ==> h == old(h)
        invariant newSpace != 0 ==> h.held[t] == (newSpace, RoundPage(size, h.page)) && mid == h
        invariant mid == old(h) || (space.Some? && mid == Mapped(old(h), i, t, space.value, others))
        invariant h.live == mid.live && h.lists == mid.lists && h.mem == mid.mem
        invariant old(h.next + size <= h.end) ==> h == old(h) && mid == old(h)
        invariant newSpace == 0 && h != old(h) ==>
          && space.Some? && h.next == CutAt(mid, size, space)
          && h.end == space.value + RoundPage(size, h.page) && mid.next + size > mid.end
        invariant newSpace != 0 ==> space == Some(newSpace)
        invariant h == old(h) ==> mid == h
        decreases if h.next + size <= h.end then 0 else if newSpace != 0 then 1 else 2
      {
        if newSpace == 0 {
          if space.None? {
            return 0, h;
          }
          newSpace := space.value;
          Hold(i, t, newSpace, others);
          mid := h;
          continue;
        }
        RoundUp(size, h.page);
        StepKeepsHeap(h, AddSpace(t));
        h := Take(h, AddSpace(t));
        newSpace := 0;
      }
      addr := Cut(i, t);
    }

    // Drop the lock and map new space; take the lock again when the other threads have run.
    method Hold(i: nat, t: nat, a: nat, others: seq<Step>)
      requires Valid() && t !in h.held && SparesThread(others, t) && Mappable(h, i, t, a, others)
      modifies this
      ensures Valid() && h == Mapped(old(h), i, t, a, others) && h.page == old(h).page
      ensures t in h.held && h.held[t] == (a, RoundPage(ClassSize(i), h.page))
    {
      var s := MapSpace(t, a, RoundPage(ClassSize(i), h.page));
      StepKeepsHeap(h, s);
      RunKeepsHeap(Take(h, s), others, t);
      h := Run(Take(h, s), others);
    }

    // Cut a block from the space, and give back a mapping that was not needed after all.
    method Cut(i: nat, t: nat) returns (addr: nat)
      requires Valid() && h.next + ClassSize(i) <= h.end
      modifies this
      ensures Valid() && h.page == old(h).page && t !in h.held
      ensures addr == old(h.next) != 0 && addr % 4 == 0 && addr !in old(h).live
      ensures h.next == addr + ClassSize(i) && h.end == old(h).end
      ensures h.live == old(h).live[addr := ClassSize(i)] && h.lists == old(h).lists && h.mem == old(h).mem
    {
      addr := h.next;
      CutIsFresh(h, i);
      StepKeepsHeap(h, TakeSpace(i));
      h := Take(h, TakeSpace(i));
      if t in h.held {
        StepKeepsHeap(h, ReturnSpace(t));
        h := Take(h, ReturnSpace(t));
      }
    }

    // kalloc.  A small block is the first of the list of its class, or else, when that list is empty,
    // cut from the space.
    method Alloc(size: nat, t: nat, space: Option<nat>, others: seq<Step>) returns (addr: nat, ghost mid: Heap)
      requires Valid() && t !in h.held && SparesThread(others, t)
      requires space.Some? ==>
        if AllocSize(size, h.page) < KallocMax(h.page) then Mappable(h, ClassFrom(0, size), t, space.value, others)
        else IsFresh(h, space.value, RoundPage(AllocSize(size, h.page), h.page))
      modifies this
      ensures Valid() && h.page == old(h).page && t !in h.held
      ensures mid == old(h)
        || (space.Some? && AllocSize(size, old(h).page) < KallocMax(old(h).page)
            && mid == Mapped(old(h), ClassFrom(0, size), t, space.value, others))
      ensures addr == 0 ==> h == old(h) && space.None?
      ensures addr != 0 ==> addr % 4 == 0 && addr !in mid.live && h.live == mid.live[addr := Granted(size, h.page)]
      ensures Granted(size, h.page) >= size
      ensures AllocSize(size, h.page) < KallocMax(h.page) ==>
        var i := ClassFrom(0, size);
        && i < KLIST_MAX && |old(h).heads| == |old(h).lists| == KLIST_MAX
        && (old(h).heads[i] != 0 <==> old(h).lists[i] != [])
        && (if old(h).heads[i] != 0 then
              && addr == old(h).heads[i] == old(h).lists[i][0] && mid == old(h)
              && h.lists == old(h).lists[i := old(h).lists[i][1..]] && h.next == old(h).next && h.end == old(h).end
            else
              && h.lists == mid.lists
              && (addr != 0 ==> addr == CutAt(mid, ClassSize(i), space) && h.next == addr + ClassSize(i)))
      ensures AllocSize(size, h.page) >= KallocMax(h.page) ==>
        && addr == (if space.Some? then space.value else 0)
        && h.lists == old(h).lists && h.next == old(h).next && h.end == old(h).end
      ensures h.mem == mid.mem
    {
      mid := h;
      GrantedEnough(size, h.page);
      if size < KallocMax(h.page) {
        var allocsize, i := SizeClass(size, h.page);
        ClassUnique(size, i);
        if allocsize < KallocMax(h.page) {
          addr := h.heads[i];
          HeadsAndLists(h, i);
          if addr != 0 {
            HeadIsFree(h, i);
            StepKeepsHeap(h, Pop(i));
            h := Take(h, Pop(i));
          } else {
            addr, mid := GetSpace(i, t, space, others);
          }
          return;
        }
      }
      addr := AllocPages(AllocSize(size, h.page), space);
    }

    // vm_allocate.
    method AllocPages(n: nat, space: Option<nat>) returns (addr: nat)
      requires Valid() && (space.Some? ==> IsFresh(h, space.value, RoundPage(n, h.page)))
      modifies this
      ensures Valid() && h.page == old(h).page && h.held == old(h).held
      ensures addr == (if space.Some? then space.value else 0) && (addr == 0 ==> h == old(h) && space.None?)
      ensures addr != 0 ==> addr % 4 == 0 && addr !in old(h).live && h.live == old(h).live[addr := RoundPage(n, h.page)]
      ensures h == old(h).(use := h.use, live := h.live)
    {
      if space.None? {
        return 0;
      }
      addr := space.value;
      FreshIsNotLive(h, addr, RoundPage(n, h.page));
      StepKeepsHeap(h, AllocLarge(addr, RoundPage(n, h.page)));
      h := Take(h, AllocLarge(addr, RoundPage(n, h.page)));
    }

    // kfree, with the size that the block was asked for: it goes to the front of its list, or back to
    // the kernel.
    method Release(data: nat, size: nat)
      requires Valid() && data in h.live && h.live[data] == Granted(size, h.page)
      modifies this
      ensures Valid() && h.page == old(h).page && h.live == old(h).live - {data} && h.held == old(h).held
      ensures AllocSize(size, h.page) < KallocMax(h.page) ==>
        && ClassFrom(0, size) < KLIST_MAX
        && h.lists == old(h).lists[ClassFrom(0, size) := [data] + old(h).lists[ClassFrom(0, size)]]
      ensures AllocSize(size, h.page) >= KallocMax(h.page) ==> h.lists == old(h).lists && h.mem == old(h).mem
      ensures h.next == old(h).next && h.end == old(h).end && forall b :: b != data ==> h.mem(b) == old(h).mem(b)
    {
      if size < KallocMax(h.page) {
        var freesize, i := SizeClass(size, h.page);
        ClassUnique(size, i);
        if freesize < KallocMax(h.page) {
          StepKeepsHeap(h, Push(data, i));
          h := Take(h, Push(data, i));
          return;
        }
      }
      StepKeepsHeap(h, FreeLarge(data));
      h := Take(h, FreeLarge(data));
    }
  }

  // Where a block of n bytes is cut: where the last one ended, unless new space is needed that does not
  // follow the old.
  function CutAt(mid: Heap, n: nat, space: Option<nat>): nat {
    if mid.next + n <= mid.end || space.None? || space.value == mid.end then mid.next else space.value
  }

  lemma HeadsAndLists(h: Heap, i: nat)
    requires HeapInv(h) && i < KLIST_MAX
    ensures h.heads[i] != 0 <==> h.lists[i] != []
  {
    assert ListOk(h, i, h.heads[i], h.lists[i]);
    if h.lists[i] != [] {
      OnFreeList(h, i, 0);
    }
  }

  lemma RoundUp(size: nat, page: nat)
    requires page > 0
    ensures RoundPage(size, page) >= size
  {
    var q := (size + page - 1) / page;
    assert size + page - 1 == q * page + (size + page - 1) % page;
  }

  lemma CutIsFresh(h: Heap, i: nat)
    requires HeapInv(h) && h.next + ClassSize(i) <= h.end
    ensures h.next !in h.live
  {
    assert h.use(h.next) == Bump;
    assert h.next in h.live ==> LiveOk(h, h.next, h.live[h.next]) && h.use(h.next) == Live(h.next);
  }

  // The space that vm_map offers at `a` is fresh, and the other threads can run meanwhile.
  ghost predicate Mappable(h: Heap, i: nat, t: nat, a: nat, others: seq<Step>)
    requires HeapInv(h) && t !in h.held
  {
    var n := RoundPage(ClassSize(i), h.page);
    IsFresh(h, a, n) && CanRun(Take(h, MapSpace(t, a, n)), others)
  }

  function Mapped(h: Heap, i: nat, t: nat, a: nat, others: seq<Step>): Heap
    requires HeapInv(h) && t !in h.held && Mappable(h, i, t, a, others)
  {
    Run(Take(h, MapSpace(t, a, RoundPage(ClassSize(i), h.page))), others)
  }

  lemma ClassUnique(size: nat, i: nat)
    requires ClassSize(i) == ClassSize(ClassFrom(0, size))
    ensures i == ClassFrom(0, size)
  {
    if i < ClassFrom(0, size) {
      ClassesGrow(i, ClassFrom(0, size));
    } else if ClassFrom(0, size) < i {
      ClassesGrow(ClassFrom(0, size), i);
    }
  }

  lemma GrantedEnough(size: nat, page: nat)
    requires page > 0
    ensures Granted(size, page) >= AllocSize(size, page) >= size
  {
    RoundUp(AllocSize(size, page), page);
  }

  lemma HeadIsFree(h: Heap, i: nat)
    requires HeapInv(h) && i < KLIST_MAX && h.heads[i] != 0
    ensures h.lists[i] != [] && h.heads[i] == h.lists[i][0] && h.heads[i] % 4 == 0 && h.heads[i] !in h.live
  {
    assert ListOk(h, i, h.heads[i], h.lists[i]);
    OnFreeList(h, i, 0);
    var a := h.heads[i];
    assert a in h.live ==> LiveOk(h, a, h.live[a]) && h.use(a) == Live(a);
  }

  lemma FreshIsNotLive(h: Heap, a: nat, n: nat)
    requires HeapInv(h) && IsFresh(h, a, n)
    ensures a !in h.live
  {
    assert h.use(a) == Unmapped;
    assert a in h.live ==> LiveOk(h, a, h.live[a]) && h.use(a) == Live(a);
  }

  // A block that is freed is the next of its class to be handed out, and the lists are as before.
  lemma FreeThenAlloc(h: Heap, a: nat, i: nat)
    requires HeapInv(h) && Enabled(h, Push(a, i))
    ensures var u := Take(h, Push(a, i));
      && HeapInv(u) && Enabled(u, Pop(i)) && u.heads[i] == a
      && Take(u, Pop(i)).heads == h.heads && Take(u, Pop(i)).lists == h.lists && Take(u, Pop(i)).live == h.live
  {
    StepKeepsHeap(h, Push(a, i));
    assert LiveOk(h, a, h.live[a]);
    var u := Take(h, Push(a, i));
    assert u.lists[i][1..] == h.lists[i];
    assert h.lists[i := h.lists[i]] == h.lists && h.heads[i := h.heads[i]] == h.heads;
  }
}
