// The last step of reading the boot configuration: requests for data devices are moved behind the
// servers, in the array they were read into.

module Partition {

  function Select<T>(s: seq<T>, p: T -> bool, want: bool): seq<T> {
    if s == [] then [] else Select(s[..|s| - 1], p, want) + if p(s[|s| - 1]) == want then [s[|s| - 1]] else []
  }

  lemma {:induction false} SelectConcat<T>(s: seq<T>, t: seq<T>, p: T -> bool, want: bool)
    ensures Select(s + t, p, want) == Select(s, p, want) + Select(t, p, want)
  {
    if t == [] {
      assert s + t == s;
    } else {
      SelectConcat(s, t[..|t| - 1], p, want);
      assert (s + t)[..|s + t| - 1] == s + t[..|t| - 1];
    }
  }

  lemma {:induction false} SelectAll<T>(s: seq<T>, p: T -> bool, want: bool)
    requires forall k :: 0 <= k < |s| ==> p(s[k]) == want
    ensures Select(s, p, want) == s && Select(s, p, !want) == []
  {
    if s != [] {
      SelectAll(s[..|s| - 1], p, want);
    }
  }

  // Splitting by a flag loses and adds nothing.
  lemma {:induction false} SelectCount<T>(s: seq<T>, p: T -> bool)
    ensures multiset(Select(s, p, false) + Select(s, p, true)) == multiset(s)
  {
    if s != [] {
      var m := |s| - 1;
      SelectCount(s[..m], p);
      CountOne(Select(s[..m], p, false), Select(s[..m], p, true), s[m]);
      assert s == s[..m] + [s[m]];
    }
  }

  lemma CountOne<T>(a: seq<T>, b: seq<T>, x: T)
    ensures multiset((a + [x]) + b) == multiset(a + b) + multiset{x} == multiset(a + (b + [x]))
  {
    assert multiset((a + [x]) + b) == multiset(a) + multiset{x} + multiset(b);
  }

  // Where element k of the input ends up: those of the same kind in front of it are the same.
  lemma {:induction false} SelectAt<T>(s: seq<T>, p: T -> bool, want: bool, k: nat)
    requires k < |s| && p(s[k]) == want
    ensures |Select(s[..k], p, want)| < |Select(s, p, want)|
    ensures Select(s, p, want)[|Select(s[..k], p, want)|] == s[k]
  {
    var m := |s| - 1;
    if k < m {
      SelectAt(s[..m], p, want, k);
      assert s[..m][..k] == s[..k];
    }
  }

  // The array in the middle of the loop: positions from `i` on are done, with the data requests from
  // `data` on.
  ghost predicate Done<T>(was: seq<T>, now: seq<T>, isData: T -> bool, i: nat, data: nat) {
    && |now| == |was| && i <= data <= |was| && now[..i] == was[..i]
    && now[i..data] == Select(was[i..], isData, false) && now[data..] == Select(was[i..], isData, true)
  }

  lemma DoneNext<T>(was: seq<T>, now: seq<T>, next: seq<T>, isData: T -> bool, i: nat, data: nat)
    requires 0 < i && Done(was, now, isData, i, data)
    requires next == if isData(now[i - 1]) then now[..i - 1] + now[i..data] + [now[i - 1]] + now[data..] else now
    ensures Done(was, next, isData, i - 1, if isData(now[i - 1]) then data - 1 else data)
  {
    var x := was[i - 1];
    assert now[i - 1] == was[..i][i - 1] == x;
    SelectFront(was, isData, i);
    assert was[..i][..i - 1] == was[..i - 1] && now[..i][..i - 1] == now[..i - 1];
    if !isData(x) {
      assert now[i - 1..data] == [x] + now[i..data];
    } else {
      Rotated(now, next, i, data);
    }
  }

  lemma Rotated<T>(now: seq<T>, next: seq<T>, i: nat, data: nat)
    requires 0 < i <= data <= |now| && next == now[..i - 1] + now[i..data] + [now[i - 1]] + now[data..]
    ensures |next| == |now| && next[..i - 1] == now[..i - 1]
    ensures next[i - 1..data - 1] == now[i..data] && next[data - 1..] == [now[i - 1]] + now[data..]
  {
  }

  lemma SelectFront<T>(was: seq<T>, isData: T -> bool, i: nat)
    requires 0 < i <= |was|
    ensures forall want ::
      Select(was[i - 1..], isData, want)
      == (if isData(was[i - 1]) == want then [was[i - 1]] else []) + Select(was[i..], isData, want)
  {
    var x := was[i - 1];
    assert was[i - 1..] == [x] + was[i..];
    SelectConcat([x], was[i..], isData, false);
    SelectConcat([x], was[i..], isData, true);
    SelectAll([x], isData, isData(x));
  }

  // The loop of parse_config_file.  Afterwards the servers come first and the data requests last, each
  // in the order they were read.
  method Isolate<T>(servers: array<T>, isData: T -> bool) returns (nservers: nat, ndatadev: nat)
    modifies servers
    ensures nservers + ndatadev == servers.Length
    ensures servers[..nservers] == Select(old(servers[..]), isData, false)
    ensures servers[nservers..] == Select(old(servers[..]), isData, true)
  {
    ghost var was := servers[..];
    var datadev, sp := servers.Length, servers.Length;
    nservers, ndatadev := servers.Length, 0;
    assert was[sp..] == [];
    while sp > 0
      invariant sp <= datadev == nservers <= servers.Length && nservers + ndatadev == servers.Length
      invariant Done(was, servers[..], isData, sp, datadev)
    {
      ghost var now := servers[..];
      sp := sp - 1;
      if !isData(servers[sp]) {
        DoneNext(was, now, now, isData, sp + 1, datadev);
        continue;
      }
      MoveBehind(servers, sp, datadev);
      DoneNext(was, now, servers[..], isData, sp + 1, datadev);
      datadev := datadev - 1;
      ndatadev := ndatadev + 1;
      nservers := nservers - 1;
    }
    assert was[0..] == was;
    assert servers[..datadev] == servers[0..datadev];
  }

  // The element at sp goes to the place in front of datadev.
  method MoveBehind<T>(servers: array<T>, sp: nat, datadev: nat)
    requires sp < datadev <= servers.Length
    modifies servers
    ensures var now := old(servers[..]);
      servers[..] == now[..sp] + now[sp + 1..datadev] + [now[sp]] + now[datadev..]
  {
    var s := servers[sp];
    ShiftDown(servers, sp, datadev);
    servers[datadev - 1] := s;
    assert servers[..] == servers[..sp] + servers[sp..datadev - 1] + [servers[datadev - 1]] + servers[datadev..];
  }

  // Move the elements between sp and datadev down by one.  The source also copies the element at
  // datadev, to a place that it overwrites at once; when there is none it is left alone here.
  method ShiftDown<T>(servers: array<T>, sp: nat, datadev: nat)
    requires sp < datadev <= servers.Length
    modifies servers
    ensures servers[sp..datadev - 1] == old(servers[sp + 1..datadev])
    ensures servers[..sp] == old(servers[..sp]) && servers[datadev..] == old(servers[datadev..])
  {
    var spp := sp;
    while spp < datadev
      invariant sp <= spp <= datadev
      invariant forall k :: sp <= k < spp && k + 1 < servers.Length ==> servers[k] == old(servers[k + 1])
      invariant forall k :: 0 <= k < servers.Length && (k < sp || k >= spp) ==> servers[k] == old(servers[k])
    {
      if spp + 1 < servers.Length {
        servers[spp] := servers[spp + 1];
      }
      spp := spp + 1;
    }
    assert forall k :: sp <= k < datadev - 1 ==> servers[k] == old(servers[k + 1]);
  }
}
