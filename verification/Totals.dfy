// Weighted sums over sequences: the one counting device used by the models that keep a counter
// equal to the number (or the total size) of the things it stands for.

module Totals {

  ghost function Total<T>(s: seq<T>, w: T -> int): int {
    if s == [] then 0 else Total(s[..|s| - 1], w) + w(s[|s| - 1])
  }

  lemma {:induction false} TotalAppend<T>(s: seq<T>, x: T, w: T -> int)
    ensures Total(s + [x], w) == Total(s, w) + w(x)
  {
    assert (s + [x])[..|s|] == s;
  }

  lemma {:induction false} TotalUpdate<T>(s: seq<T>, i: nat, x: T, w: T -> int)
    requires i < |s|
    ensures Total(s[i := x], w) == Total(s, w) - w(s[i]) + w(x)
  {
    var m := |s| - 1;
    if i == m {
      assert s[i := x][..m] == s[..m];
    } else {
      TotalUpdate(s[..m], i, x, w);
      assert s[i := x][..m] == s[..m][i := x];
    }
  }

  lemma {:induction false} TotalRemove<T>(s: seq<T>, i: nat, w: T -> int)
    requires i < |s|
    ensures Total(s[..i] + s[i + 1..], w) == Total(s, w) - w(s[i])
  {
    var m := |s| - 1;
    if i == m {
      assert s[..i] + s[i + 1..] == s[..m];
    } else {
      TotalRemove(s[..m], i, w);
      assert (s[..i] + s[i + 1..])[..m - 1] == s[..m][..i] + s[..m][i + 1..];
    }
  }

  lemma {:induction false} TotalSame<T>(s: seq<T>, t: seq<T>, w: T -> int)
    requires |s| == |t| && forall k :: 0 <= k < |s| ==> w(s[k]) == w(t[k])
    ensures Total(s, w) == Total(t, w)
  {
    if s != [] {
      TotalSame(s[..|s| - 1], t[..|t| - 1], w);
    }
  }

  lemma {:induction false} TotalBounds<T>(s: seq<T>, w: T -> int)
    requires forall k :: 0 <= k < |s| ==> w(s[k]) >= 0
    ensures forall k :: 0 <= k < |s| ==> w(s[k]) <= Total(s, w)
    ensures Total(s, w) >= 0
    ensures (forall k :: 0 <= k < |s| ==> w(s[k]) == 0) ==> Total(s, w) == 0
  {
    if s != [] {
      var t := s[..|s| - 1];
      assert forall k :: 0 <= k < |t| ==> t[k] == s[k];
      TotalBounds(t, w);
    }
  }
}
