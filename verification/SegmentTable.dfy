// The table of paging segments and the choice of the one to take a cluster from: for each priority,
// highest first, a round-robin scan that starts after the segment chosen last time.

module SegmentTable {
  import opened Segment
  import opened Totals
  import opened Wrappers

  const MAX_SEGMENTS := 31
  const PRIORITIES := 5
  const BS_NOPRI := -1
  const BS_FULLPRI := -2

  // What the scan looks at in a segment, and the table as a value.
  datatype Row = Row(priority: nat, goingAway: bool, clcount: int, clshift: nat)
  datatype Table = Table(rows: seq<Option<Row>>, max: nat, count: nat, select: seq<int>)

  // Fault is the read of paging_segments[-1] that follows BS_FULLPRI.
  datatype Selection = Chosen(index: nat) | NoSpace | Fault

  function Present(r: Option<Row>): int {
    if r.Some? then 1 else 0
  }

  ghost predicate TableInv(t: Table) {
    && |t.rows| == MAX_SEGMENTS && t.max < MAX_SEGMENTS && |t.select| == PRIORITIES
    && t.count == Total(t.rows, Present)
    && (if t.count > 0 then t.rows[t.max].Some? else t.max == 0)
    && (forall x :: 0 <= x < MAX_SEGMENTS && t.rows[x].Some? ==>
          x <= t.max && t.rows[x].value.priority < PRIORITIES && t.rows[x].value.clcount >= 0
          && t.select[t.rows[x].value.priority] != BS_NOPRI)
    && forall p :: 0 <= p < PRIORITIES ==>
      t.select[p] == BS_NOPRI || t.select[p] == BS_FULLPRI || 0 <= t.select[p] <= t.max
  }

  predicate Open(r: Option<Row>, p: nat, shift: nat) {
    r.Some? && r.value.priority == p && !r.value.goingAway && r.value.clcount > 0 && r.value.clshift >= shift
  }

  ghost predicate NoneOpen(t: Table, p: nat, shift: nat)
    requires TableInv(t)
  {
    forall x :: 0 <= x <= t.max ==> !Open(t.rows[x], p, shift)
  }

  // The position of x in the round-robin order that starts after `start`: 1 for its successor, up to
  // t.max + 1 for `start` itself.
  function Turn(start: nat, x: nat, max: nat): int {
    if x > start then x - start else x - start + max + 1
  }

  // The order of a round robin: the successor of `start` comes first, each index is followed by its own
  // successor, `start` itself comes last, and no two indices come at the same time.
  lemma TurnIsRoundRobin(start: nat, x: nat, y: nat, max: nat)
    requires start <= max && x <= max && y <= max
    ensures 1 <= Turn(start, x, max) <= max + 1
    ensures Turn(start, x, max) == max + 1 <==> x == start
    ensures Turn(start, y, max) == 1 <==> y == (start + 1) % (max + 1)
    ensures Turn(start, y, max) == Turn(start, x, max) + 1 <==> x != start && y == (x + 1) % (max + 1)
    ensures Turn(start, x, max) == Turn(start, y, max) ==> x == y
  {
    WrapsAtEnd(start, max);
    WrapsAtEnd(x, max);
  }

  lemma WrapsAtEnd(x: nat, max: nat)
    requires x <= max
    ensures (x + 1) % (max + 1) == if x == max then 0 else x + 1
  {
  }

  function Took(rows: seq<Option<Row>>, j: nat): seq<Option<Row>>
    requires j < |rows| && rows[j].Some?
  {
    rows[j := Some(rows[j].value.(clcount := rows[j].value.clcount - 1))]
  }

  function Exhausted(s: int): int {
    if s == BS_NOPRI then BS_NOPRI else BS_FULLPRI
  }

  // The path taken when there is exactly one segment.
  ghost predicate FastSelects(t: Table, r: Selection, u: Table)
    requires TableInv(t) && t.count == 1
  {
    var only := t.rows[t.max].value;
    if !only.goingAway && only.clcount > 0 then r == Chosen(t.max) && u == t.(rows := Took(t.rows, t.max))
    else r == NoSpace && u == t
  }

  // The general scan: its answer, and what it leaves in ps_select_array.
  ghost predicate Scanned(t: Table, shift: nat, r: Selection, select: seq<int>)
    requires TableInv(t)
  {
    && |select| == PRIORITIES
    && match r
       case Chosen(j) =>
         && j <= t.max && t.rows[j].Some?
         && (var p := t.rows[j].value.priority;
             && Open(t.rows[j], p, shift) && t.select[p] != BS_FULLPRI
             && (forall x :: 0 <= x <= t.max && Turn(t.select[p], x, t.max) < Turn(t.select[p], j, t.max) ==>
               !Open(t.rows[x], p, shift))
             && (forall q :: p < q < PRIORITIES ==> NoneOpen(t, q, shift) && t.select[q] != BS_FULLPRI)
             && (forall q :: 0 <= q < PRIORITIES ==>
                   select[q] == if q > p then Exhausted(t.select[q]) else if q == p then j else t.select[q]))
       case NoSpace =>
         && (forall q :: 0 <= q < PRIORITIES ==> NoneOpen(t, q, shift) && t.select[q] != BS_FULLPRI)
         && (forall q :: 0 <= q < PRIORITIES ==> select[q] == Exhausted(t.select[q]))
       case Fault => exists p: nat :: p < PRIORITIES && FaultsAt(t, shift, p, select)
  }

  // The scan has passed the priorities above p, which is marked full.
  ghost predicate FaultsAt(t: Table, shift: nat, p: nat, select: seq<int>)
    requires TableInv(t) && p < PRIORITIES
  {
    && |select| == PRIORITIES && t.select[p] == BS_FULLPRI && NoneOpenAbove(t, p, shift)
    && forall q :: 0 <= q < PRIORITIES ==> select[q] == if q > p then Exhausted(t.select[q]) else t.select[q]
  }

  // The scan has passed the priorities from i on, and has found nothing open in them.
  ghost predicate Passed(t: Table, shift: nat, i: nat, select: seq<int>)
    requires TableInv(t)
  {
    && |select| == PRIORITIES && (forall q :: 0 <= q < i && q < PRIORITIES ==> select[q] == t.select[q])
    && forall q :: i <= q < PRIORITIES ==>
         NoneOpen(t, q, shift) && t.select[q] != BS_FULLPRI && select[q] == Exhausted(t.select[q])
  }

  lemma PassedEmpty(t: Table, shift: nat, i: nat, select: seq<int>)
    requires TableInv(t) && i < PRIORITIES && Passed(t, shift, i + 1, select) && t.select[i] == BS_NOPRI
    ensures Passed(t, shift, i, select)
  {
    assert NoneOpen(t, i, shift);
  }

  lemma PassedFull(t: Table, shift: nat, i: nat, select: seq<int>)
    requires TableInv(t) && i < PRIORITIES && Passed(t, shift, i + 1, select) && t.select[i] >= 0
    requires NoneOpen(t, i, shift)
    ensures Passed(t, shift, i, select[i := BS_FULLPRI])
  {
  }

  lemma PassedFound(t: Table, shift: nat, i: nat, select: seq<int>, j: nat)
    requires TableInv(t) && i < PRIORITIES && Passed(t, shift, i + 1, select) && t.select[i] >= 0
    requires j <= t.max && Open(t.rows[j], i, shift)
    requires forall x :: 0 <= x <= t.max && Turn(t.select[i], x, t.max) < Turn(t.select[i], j, t.max) ==>
      !Open(t.rows[x], i, shift)
    ensures Scanned(t, shift, Chosen(j), select[i := j])
  {
  }

  ghost predicate ScanSelects(t: Table, shift: nat, r: Selection, u: Table)
    requires TableInv(t)
  {
    && Scanned(t, shift, r, u.select)
    && u == t.(select := u.select, rows := if r.Chosen? then Took(t.rows, r.index) else t.rows)
  }

  ghost predicate NoneOpenAbove(t: Table, p: nat, shift: nat)
    requires TableInv(t)
  {
    forall q :: p < q < PRIORITIES ==> NoneOpen(t, q, shift)
  }

  ghost predicate Selects(t: Table, shift: nat, r: Selection, u: Table)
    requires TableInv(t)
  {
    if t.count == 1 then FastSelects(t, r, u)
    else if t.count == 0 then r == NoSpace && u == t
    else ScanSelects(t, shift, r, u)
  }

  // The scan leaves the table exactly when it meets a priority marked full before any open segment.
  lemma FaultsExactly(t: Table, shift: nat, r: Selection, u: Table)
    requires TableInv(t) && Selects(t, shift, r, u)
    ensures r.Fault?
      <==> t.count >= 2 && exists p :: 0 <= p < PRIORITIES && t.select[p] == BS_FULLPRI && NoneOpenAbove(t, p, shift)
  {
    if r.Chosen? && t.count >= 2 {
      var p' := t.rows[r.index].value.priority;
      assert !NoneOpen(t, p', shift);
    }
  }

  // Whatever the answer, the table stays well formed.
  lemma SelectionKeepsInv(t: Table, shift: nat, r: Selection, u: Table)
    requires TableInv(t) && Selects(t, shift, r, u)
    ensures TableInv(u) && u.count == t.count && u.max == t.max
  {
    if t.count == 1 {
      OnlyOne(t);
    }
    TotalBounds(t.rows, Present);
    if r.Chosen? {
      TotalUpdate(t.rows, r.index, Took(t.rows, r.index)[r.index], Present);
    }
  }

  // Otherwise the answer is the best there is: a null result means that no segment of any priority was
  // open, and a chosen segment was open with none open at any higher priority.
  lemma SelectionIsBest(t: Table, shift: nat, r: Selection, u: Table)
    requires TableInv(t) && Selects(t, shift, r, u) && !r.Fault?
    requires forall x :: 0 <= x < MAX_SEGMENTS && t.rows[x].Some? ==> t.rows[x].value.clshift >= shift
    ensures r.NoSpace? <==> forall p :: 0 <= p < PRIORITIES ==> NoneOpen(t, p, shift)
    ensures r.Chosen? ==> (
      && r.index <= t.max && t.rows[r.index].Some?
      && Open(t.rows[r.index], t.rows[r.index].value.priority, shift)
      && NoneOpenAbove(t, t.rows[r.index].value.priority, shift))
    ensures TableInv(u) && u.count == t.count
  {
    if t.count == 1 {
      OnlyOne(t);
    }
    assert t.count == 0 ==> forall x :: 0 <= x < MAX_SEGMENTS ==> t.rows[x].None? by {
      TotalBounds(t.rows, Present);
    }
    SelectionKeepsInv(t, shift, r, u);
    if r.Chosen? {
      assert !NoneOpen(t, t.rows[r.index].value.priority, shift);
    }
  }

  lemma OnlyOne(t: Table)
    requires TableInv(t) && t.count == 1
    ensures forall x :: 0 <= x < MAX_SEGMENTS && x != t.max ==> t.rows[x].None?
  {
    var rest := t.rows[t.max := None];
    TotalUpdate(t.rows, t.max, None, Present);
    TotalBounds(rest, Present);
    assert forall x :: 0 <= x < MAX_SEGMENTS && x != t.max ==> rest[x] == t.rows[x] && Present(rest[x]) == 0;
  }

  // The one-segment path answers what the scan would have answered.
  lemma FastPathAgrees(t: Table, shift: nat, r: Selection, u: Table, r': Selection, u': Table)
    requires TableInv(t) && t.count == 1 && t.rows[t.max].value.clshift >= shift
    requires FastSelects(t, r, u) && ScanSelects(t, shift, r', u') && !r'.Fault?
    ensures r == r' && u.rows == u'.rows
  {
    OnlyOne(t);
    var only := t.rows[t.max];
    if r'.NoSpace? {
      assert NoneOpen(t, only.value.priority, shift);
    }
  }

  // Once a scan of several segments has found nothing, the next call leaves the table.
  lemma SecondFailureFaults(t: Table, shift: nat, u: Table, r: Selection, v: Table)
    requires TableInv(t) && TableInv(u) && t.count >= 2
    requires Selects(t, shift, NoSpace, u) && Selects(u, shift, r, v)
    ensures r.Fault?
  {
    var p := t.rows[t.max].value.priority;
    assert u.select[p] == BS_FULLPRI;
    forall q | p < q < PRIORITIES ensures NoneOpen(u, q, shift) {
      assert NoneOpen(t, q, shift);
    }
    assert NoneOpenAbove(u, p, shift);
    FaultsExactly(u, shift, r, v);
  }

  // ps_enter on values: the segment goes into the first free slot; a priority marked full stays so.
  ghost predicate Enters(t: Table, row: Row, slot: nat, u: Table)
    requires TableInv(t) && row.priority < PRIORITIES
  {
    && slot < MAX_SEGMENTS && t.rows[slot].None? && (forall x :: 0 <= x < slot ==> t.rows[x].Some?)
    && u.rows == t.rows[slot := Some(row)]
    && u.max == (if slot > t.max then slot else t.max) && u.count == t.count + 1
    && u.select == if t.select[row.priority] == BS_NOPRI then t.select[row.priority := 0] else t.select
  }

  lemma EnterKeepsInv(t: Table, row: Row, slot: nat, u: Table)
    requires TableInv(t) && row.priority < PRIORITIES && row.clcount >= 0 && Enters(t, row, slot, u)
    ensures TableInv(u)
  {
    TotalUpdate(t.rows, slot, Some(row), Present);
    TotalBounds(t.rows, Present);
    assert t.count > 0 ==> u.rows[t.max].Some?;
  }

  // New space of a priority already marked full is not reached: the next scan faults first, unless a
  // higher priority has room.
  lemma NewSpaceBehindFull(t: Table, row: Row, slot: nat, u: Table, shift: nat, r: Selection, v: Table)
    requires TableInv(t) && row.priority < PRIORITIES && row.clcount >= 0 && Enters(t, row, slot, u) && TableInv(u)
    requires t.count > 0 && t.select[row.priority] == BS_FULLPRI && NoneOpenAbove(t, row.priority, shift)
    requires Selects(u, shift, r, v)
    ensures r.Fault?
  {
    forall q | row.priority < q < PRIORITIES ensures NoneOpen(u, q, shift) {
      assert NoneOpen(t, q, shift);
      assert forall x :: 0 <= x <= u.max && x != slot && u.rows[x].Some? ==> x <= t.max;
    }
    assert NoneOpenAbove(u, row.priority, shift);
    FaultsExactly(u, shift, r, v);
  }

  // ps_deallocate_cluster on values: segment j has one free cluster more, and its priority is no longer
  // marked full.
  ghost predicate Reopens(t: Table, j: nat, u: Table)
    requires TableInv(t) && j <= t.max && t.rows[j].Some?
  {
    var row := t.rows[j].value;
    && u.rows == t.rows[j := Some(row.(clcount := row.clcount + 1))] && u.max == t.max && u.count == t.count
    && u.select == if t.select[row.priority] == BS_FULLPRI then t.select[row.priority := 0] else t.select
  }

  lemma ReopenKeepsInv(t: Table, j: nat, u: Table)
    requires TableInv(t) && j <= t.max && t.rows[j].Some? && Reopens(t, j, u)
    ensures TableInv(u)
  {
    TotalUpdate(t.rows, j, u.rows[j], Present);
  }

  // A freed cluster can be had at once, unless a higher priority is still marked full: only its own
  // priority is opened again.
  lemma FreedIsServed(t: Table, j: nat, u: Table, shift: nat, r: Selection, v: Table)
    requires TableInv(t) && j <= t.max && t.rows[j].Some? && Reopens(t, j, u) && TableInv(u)
    requires !t.rows[j].value.goingAway && t.rows[j].value.clshift >= shift
    requires Selects(u, shift, r, v)
    ensures (t.count >= 2 && exists q :: t.rows[j].value.priority < q < PRIORITIES
                                         && t.select[q] == BS_FULLPRI && NoneOpenAbove(u, q, shift))
      <==> r.Fault?
    ensures !r.Fault? ==>
      r.Chosen? && u.rows[r.index].Some? && u.rows[r.index].value.priority >= t.rows[j].value.priority
  {
    var p := t.rows[j].value.priority;
    assert Open(u.rows[j], p, shift);
    assert !NoneOpen(u, p, shift);
    TotalBounds(u.rows, Present);
    FaultsExactly(u, shift, r, v);
    if u.count == 1 {
      OnlyOne(u);
    }
  }

  // ---------------------------------------------------------------- a run that faults

  function NoSegments(): Table {
    Table(seq(MAX_SEGMENTS, _ => None), 0, 0, [BS_NOPRI, BS_NOPRI, BS_NOPRI, BS_NOPRI, BS_NOPRI])
  }

  // Segments of one cluster size and the lowest priority, with so many free clusters.
  function WithFree(n: int): Row {
    Row(0, false, n, 0)
  }

  function OneSegment(n: int): Table {
    Table(NoSegments().rows[0 := Some(WithFree(n))], 0, 1, NoSegments().select[0 := 0])
  }

  function TwoSegments(n: int, m: int, mark: int): Table {
    Table(OneSegment(n).rows[1 := Some(WithFree(m))], 1, 2, NoSegments().select[0 := mark])
  }

  lemma TwoEntered()
    ensures TableInv(NoSegments()) && Enters(NoSegments(), WithFree(1), 0, OneSegment(1))
    ensures TableInv(OneSegment(1)) && Enters(OneSegment(1), WithFree(1), 1, TwoSegments(1, 1, 0))
    ensures TableInv(TwoSegments(1, 1, 0))
  {
    TotalBounds(NoSegments().rows, Present);
    EnterKeepsInv(NoSegments(), WithFree(1), 0, OneSegment(1));
    assert TwoSegments(1, 1, 0).select == OneSegment(1).select;
    EnterKeepsInv(OneSegment(1), WithFree(1), 1, TwoSegments(1, 1, 0));
  }

  lemma TakeSecond()
    requires TableInv(TwoSegments(1, 1, 0))
    ensures Selects(TwoSegments(1, 1, 0), 0, Chosen(1), TwoSegments(1, 0, 1)) && TableInv(TwoSegments(1, 0, 1))
  {
    assert TwoSegments(1, 0, 1).rows == Took(TwoSegments(1, 1, 0).rows, 1);
    SelectionKeepsInv(TwoSegments(1, 1, 0), 0, Chosen(1), TwoSegments(1, 0, 1));
  }

  lemma TakeFirst()
    requires TableInv(TwoSegments(1, 0, 1))
    ensures Selects(TwoSegments(1, 0, 1), 0, Chosen(0), TwoSegments(0, 0, 0)) && TableInv(TwoSegments(0, 0, 0))
  {
    assert TwoSegments(0, 0, 0).rows == Took(TwoSegments(1, 0, 1).rows, 0);
    SelectionKeepsInv(TwoSegments(1, 0, 1), 0, Chosen(0), TwoSegments(0, 0, 0));
  }

  lemma NothingLeft()
    requires TableInv(TwoSegments(0, 0, 0))
    ensures Selects(TwoSegments(0, 0, 0), 0, NoSpace, TwoSegments(0, 0, BS_FULLPRI))
    ensures TableInv(TwoSegments(0, 0, BS_FULLPRI))
    ensures Selects(TwoSegments(0, 0, BS_FULLPRI), 0, Fault, TwoSegments(0, 0, BS_FULLPRI))
  {
    SelectionKeepsInv(TwoSegments(0, 0, 0), 0, NoSpace, TwoSegments(0, 0, BS_FULLPRI));
    assert FaultsAt(TwoSegments(0, 0, BS_FULLPRI), 0, 0, TwoSegments(0, 0, BS_FULLPRI).select);
  }

  // Two segments of one cluster are entered and both clusters taken; the next request finds no space,
  // and the one after that reads in front of the table.
  lemma FaultIsReached()
    ensures TableInv(NoSegments()) && Enters(NoSegments(), WithFree(1), 0, OneSegment(1))
    ensures TableInv(OneSegment(1)) && Enters(OneSegment(1), WithFree(1), 1, TwoSegments(1, 1, 0))
    ensures TableInv(TwoSegments(1, 1, 0)) && Selects(TwoSegments(1, 1, 0), 0, Chosen(1), TwoSegments(1, 0, 1))
    ensures TableInv(TwoSegments(1, 0, 1)) && Selects(TwoSegments(1, 0, 1), 0, Chosen(0), TwoSegments(0, 0, 0))
    ensures TableInv(TwoSegments(0, 0, 0)) && Selects(TwoSegments(0, 0, 0), 0, NoSpace, TwoSegments(0, 0, BS_FULLPRI))
    ensures TableInv(TwoSegments(0, 0, BS_FULLPRI))
    ensures Selects(TwoSegments(0, 0, BS_FULLPRI), 0, Fault, TwoSegments(0, 0, BS_FULLPRI))
  {
    TwoEntered();
    TakeSecond();
    TakeFirst();
    NothingLeft();
  }

  // ---------------------------------------------------------------- the table in memory

  class PagingSegments {
    const segments: array<PagingSegment?>
    const select: array<int>
    var max: nat
    var count: nat

    ghost function RowOf(s: PagingSegment?): Option<Row>
      reads s
    {
      if s == null then None else Some(Row(s.geo.priority, s.goingAway, s.clcount, s.geo.clshift))
    }

    ghost function Value(): Table
      reads this, segments, select, segments[..]
    {
      Table(seq(segments.Length, x requires 0 <= x < segments.Length reads this, segments, segments[..] =>
              RowOf(segments[x])),
            max, count, select[..])
    }

    ghost predicate Valid()
      reads this, segments, select, segments[..]
    {
      && segments.Length == MAX_SEGMENTS && select.Length == PRIORITIES
      && Distinct() && TableInv(Value())
    }

    ghost predicate Distinct()
      reads segments
    {
      forall x, y :: 0 <= x < y < segments.Length && segments[x] != null ==> segments[x] != segments[y]
    }

    constructor ()
      ensures Valid() && count == 0 && fresh(segments) && fresh(select)
    {
      segments := new PagingSegment?[MAX_SEGMENTS](_ => null);
      select := new int[PRIORITIES](_ => BS_NOPRI);
      max, count := 0, 0;
      new;
      TotalBounds(Value().rows, Present);
    }

    // ps_select_segment: take one from the free count of the chosen segment.
    method Select(shift: nat) returns (r: Selection)
      requires Valid()
      modifies select, set x | 0 <= x < segments.Length && segments[x] != null :: segments[x]
      ensures Valid() && Selects(old(Value()), shift, r, Value())
      ensures !r.Fault? ==> forall x :: 0 <= x < MAX_SEGMENTS && segments[x] != null ==>
        segments[x].reserved == old(segments[x].reserved) + if r == Chosen(x) then 1 else 0
    {
      ghost var t := Value();
      if count == 1 {
        r := SelectOnly(shift);
      } else if count == 0 {
        r := NoSpace;
      } else {
        r := SelectAny(shift);
      }
      ghost var u := Value();
      SelectionKeepsInv(t, shift, r, u);
    }

    // The path for one segment.
    method SelectOnly(shift: nat) returns (r: Selection)
      requires Valid() && count == 1
      modifies set x | 0 <= x < segments.Length && segments[x] != null :: segments[x]
      ensures Selects(old(Value()), shift, r, Value()) && !r.Fault?
      ensures forall x :: 0 <= x < MAX_SEGMENTS && segments[x] != null ==>
        segments[x].reserved == old(segments[x].reserved) + if r == Chosen(x) then 1 else 0
    {
      OnlyOne(Value());
      var ps := segments[max];
      r := NoSpace;
      if !ps.goingAway && ps.clcount > 0 {
        Take(max, ps);
        r := Chosen(max);
      }
    }

    // The path for two segments and more.
    method SelectAny(shift: nat) returns (r: Selection)
      requires Valid() && count > 1
      modifies select, set x | 0 <= x < segments.Length && segments[x] != null :: segments[x]
      ensures Selects(old(Value()), shift, r, Value())
      ensures !r.Fault? ==> forall x :: 0 <= x < MAX_SEGMENTS && segments[x] != null ==>
        segments[x].reserved == old(segments[x].reserved) + if r == Chosen(x) then 1 else 0
    {
      r := ScanAll(shift);
      if r.Chosen? {
        Take(r.index, segments[r.index]);
      }
    }

    // The scan over the priorities.
    method ScanAll(shift: nat) returns (r: Selection)
      requires Valid()
      modifies select
      ensures Scanned(old(Value()), shift, r, select[..])
    {
      ghost var t := Value();
      var i := PRIORITIES;
      while i > 0
        invariant 0 <= i <= PRIORITIES && Passed(t, shift, i, select[..])
        invariant forall x :: 0 <= x < MAX_SEGMENTS ==> t.rows[x] == RowOf(segments[x])
      {
        i := i - 1;
        ghost var was := select[..];
        var start := select[i];
        if start == BS_NOPRI {
          PassedEmpty(t, shift, i, was);
          continue;
        }
        if start == BS_FULLPRI {
          assert FaultsAt(t, shift, i, was);
          return Fault;
        }
        var found, j := ScanPriority(i, start, shift, t.rows);
        if found {
          select[i] := j;
          PassedFound(t, shift, i, was, j);
          assert select[..] == was[i := j];
          return Chosen(j);
        }
        select[i] := BS_FULLPRI;
        PassedFull(t, shift, i, was);
        assert select[..] == was[i := BS_FULLPRI];
      }
      return NoSpace;
    }

    // The inner loop: visit every index once, from the one after `start` round to `start` itself.
    method ScanPriority(i: nat, start: nat, shift: nat, ghost rows: seq<Option<Row>>) returns (found: bool, j: nat)
      requires segments.Length == |rows| == MAX_SEGMENTS && start <= max < MAX_SEGMENTS
      requires forall x :: 0 <= x < MAX_SEGMENTS ==> rows[x] == RowOf(segments[x])
      ensures j <= max
      ensures found ==> Open(rows[j], i, shift)
      ensures found ==> forall x :: 0 <= x <= max && Turn(start, x, max) < Turn(start, j, max) ==>
        !Open(rows[x], i, shift)
      ensures !found ==> forall x :: 0 <= x <= max ==> !Open(rows[x], i, shift)
    {
      j := start + 1;
      while true
        invariant 0 < j <= max + 1
        invariant forall x :: 0 <= x <= max && Turn(start, x, max) < Turn(start, if j > max then 0 else j, max) ==>
          !Open(rows[x], i, shift)
        decreases max + 1 - Turn(start, if j > max then 0 else j, max)
      {
        if j > max {
          j := 0;
        }
        var ps := segments[j];
        if ps != null && ps.geo.priority == i {
          if !ps.goingAway && ps.clcount > 0 && ps.geo.clshift >= shift {
            return true, j;
          }
        }
        assert !Open(rows[j], i, shift);
        if j == start {
          return false, j;
        }
        j := j + 1;
      }
    }

    method Take(ghost j: nat, ps: PagingSegment)
      requires Distinct() && j < segments.Length && segments[j] == ps
      modifies ps`clcount, ps`reserved
      ensures Value() == old(Value()).(rows := Took(old(Value()).rows, j))
      ensures ps.reserved == old(ps.reserved) + 1
    {
      ps.clcount := ps.clcount - 1;
      ps.reserved := ps.reserved + 1;
    }

    // ps_enter.
    method Enter(ps: PagingSegment) returns (ok: bool)
      requires Valid() && ps.geo.priority < PRIORITIES && ps.clcount >= 0
      requires forall x :: 0 <= x < MAX_SEGMENTS ==> segments[x] != ps
      modifies this, segments, select
      ensures Valid()
      ensures ok <==> exists x :: 0 <= x < MAX_SEGMENTS && old(Value().rows[x].None?)
      ensures ok ==> exists slot :: Enters(old(Value()), RowOf(ps).value, slot, Value())
      ensures !ok ==> Value() == old(Value())
    {
      ghost var t := Value();
      var i := FreeSlot();
      if i == MAX_SEGMENTS {
        return false;
      }
      Put(i, ps);
      EnterKeepsInv(t, RowOf(ps).value, i, Value());
      ok := true;
    }

    method Put(i: nat, ps: PagingSegment)
      requires Valid() && i < MAX_SEGMENTS && segments[i] == null && ps.geo.priority < PRIORITIES
      requires forall x :: 0 <= x < i ==> segments[x] != null
      requires forall x :: 0 <= x < MAX_SEGMENTS ==> segments[x] != ps
      modifies this`max, this`count, segments, select
      ensures Enters(old(Value()), RowOf(ps).value, i, Value())
      ensures segments[..] == old(segments[..])[i := ps]
    {
      segments[i] := ps;
      if i > max {
        max := i;
      }
      count := count + 1;
      if select[ps.geo.priority] == BS_NOPRI {
        select[ps.geo.priority] := 0;
      }
    }

    // The first free slot, if there is one.
    method FreeSlot() returns (i: nat)
      requires Valid()
      ensures i <= MAX_SEGMENTS && (i < MAX_SEGMENTS ==> segments[i] == null)
      ensures forall x :: 0 <= x < i ==> segments[x] != null
    {
      i := 0;
      while i < MAX_SEGMENTS && segments[i] != null
        invariant i <= MAX_SEGMENTS
        invariant forall x :: 0 <= x < i ==> segments[x] != null
      {
        i := i + 1;
      }
    }

    // ps_deallocate_cluster for segment j: the cluster is freed, and then, under the lock of the table,
    // the priority is opened again if it is marked full.
    method Deallocate(ghost j: nat, ps: PagingSegment, cluster: nat)
      requires Valid() && j < MAX_SEGMENTS && segments[j] == ps && ps.Valid()
      requires cluster < ps.geo.ncls && InUse(ps.Value(), cluster)
      requires (ps.bmap as object) != (select as object) && (ps.bmap as object) != (segments as object)
      modifies ps`hint, ps`clcount, ps.bmap, select
      ensures Valid() && ps.Valid() && ps.Value() == Freed(old(ps.Value()), cluster)
      ensures j <= old(Value()).max && old(Value()).rows[j].Some? && Reopens(old(Value()), j, Value())
    {
      ghost var t := Value();
      assert t.rows[j].Some?;
      ps.Deallocate(cluster);
      Reopen(ps.geo.priority);
      ghost var u := Value();
      assert forall x :: 0 <= x < MAX_SEGMENTS && x != j ==> RowOf(segments[x]) == t.rows[x];
      assert Reopens(t, j, u);
      ReopenKeepsInv(t, j, u);
    }

    // Its last part, after the segment's own lock is released.
    method Reopen(priority: nat)
      requires priority < PRIORITIES == select.Length
      modifies select
      ensures select[..] == if old(select[priority]) == BS_FULLPRI then old(select[..])[priority := 0]
                            else old(select[..])
    {
      if select[priority] == BS_FULLPRI {
        select[priority] := 0;
      }
    }
  }
}
