// Looking up a path.  The path is a C string in a buffer; a symbolic link is followed by moving what
// is left of the path up, putting the link's text in front of it, and starting over at the text.

module Ext2Path {
  import opened Wrappers

  const PATH_MAX := 1024
  const MAXPATHLEN := 1024
  const MAXSYMLINKS := 8
  const MAXNAMLEN := 255
  const ROOTINO := 2

  datatype Error = NoEntry | NotDirectory | NameTooLong | InvalidParameter | SymlinkLoop | ReadFailed

  datatype Node = Directory | Link(text: seq<char>, readable: bool) | Plain
  datatype Entry = Inode(number: nat) | NotFound(error: Error)
  datatype Answer = Opened(inode: nat) | Refused(error: Error)

  // What inodes hold, and what search_directory finds in a directory.
  datatype FileSystem = FileSystem(node: nat -> Option<Node>, search: (nat, seq<char>) -> Entry)

  // ---------------------------------------------------------------- the recursive resolver

  function SkipSlashes(p: seq<char>): (r: seq<char>)
    ensures |r| <= |p|
    ensures p != [] && p[0] == '/' ==> |r| < |p|
  {
    if p != [] && p[0] == '/' then SkipSlashes(p[1..]) else p
  }

  // The next component of a path and what follows it.
  datatype Split = Name(name: seq<char>, rest: seq<char>) | Bad(error: Error)

  // `len` characters of the component have been seen.
  function Scan(p: seq<char>, len: nat): (r: Split)
    ensures r.Name? ==> |r.name| + |r.rest| == |p|
    ensures r.Name? && p != [] && p[0] != '/' ==> |r.rest| < |p|
  {
    if p == [] || p[0] == '/' then Name([], p)
    else if len > MAXNAMLEN then Bad(NameTooLong)
    else if p[0] >= 128 as char then Bad(InvalidParameter)
    else match Scan(p[1..], len + 1)
      case Bad(e) => Bad(e)
      case Name(name, rest) => Name([p[0]] + name, rest)
  }

  // The part of a string in front of its first NUL.
  function Cut(s: seq<char>): (r: seq<char>)
    ensures |r| <= |s|
  {
    if s == [] || s[0] == '\0' then [] else [s[0]] + Cut(s[1..])
  }

  // The inode a path leads to from a directory, following at most `links` links.
  function Resolve(fs: FileSystem, at: nat, path: seq<char>, links: nat): Answer
    decreases links, |path|, 0
  {
    if path == [] then Opened(at)
    else if fs.node(at) != Some(Directory) then Refused(NotDirectory)
    else match Scan(SkipSlashes(path), 0)
      case Bad(e) => Refused(e)
      case Name(name, rest) =>
        match fs.search(at, name)
        case NotFound(e) => Refused(e)
        case Inode(child) => ResolveFrom(fs, at, child, rest, links)
  }

  // A component has been found in directory `at`: what comes of it and the rest of the path.
  function ResolveFrom(fs: FileSystem, at: nat, child: nat, rest: seq<char>, links: nat): Answer
    decreases links, |rest|, 1
  {
    match fs.node(child)
    case None => Refused(ReadFailed)
    case Some(Link(text, readable)) =>
      if |text| + |rest| + 1 >= MAXPATHLEN - 1 then Refused(NameTooLong)
      else if links == 0 then Refused(SymlinkLoop)
      else if !readable then Refused(ReadFailed)
      else
        var next := Cut(text + rest);
        var start := if next != [] && next[0] == '/' then ROOTINO else at;
        if fs.node(start).None? then Refused(ReadFailed) else Resolve(fs, start, next, links - 1)
    case Some(_) => Resolve(fs, child, rest, links)
  }

  lemma ResolveOne(fs: FileSystem, at: nat, path: seq<char>, links: nat)
    requires path != [] && fs.node(at) == Some(Directory) && Scan(SkipSlashes(path), 0).Name?
    requires fs.search(at, Scan(SkipSlashes(path), 0).name).Inode?
    ensures var c := Scan(SkipSlashes(path), 0);
      Resolve(fs, at, path, links) == ResolveFrom(fs, at, fs.search(at, c.name).number, c.rest, links)
  {
  }

  // The limit on links only ever turns an answer into a loop error.
  lemma {:induction false} LinksOnlyLimit(fs: FileSystem, at: nat, path: seq<char>, links: nat, more: nat)
    requires links <= more && Resolve(fs, at, path, links) != Refused(SymlinkLoop)
    ensures Resolve(fs, at, path, more) == Resolve(fs, at, path, links)
    decreases links, |path|
  {
    if path != [] && fs.node(at) == Some(Directory) && Scan(SkipSlashes(path), 0).Name? {
      var split := Scan(SkipSlashes(path), 0);
      var entry := fs.search(at, split.name);
      if entry.Inode? && fs.node(entry.number).Some? {
        var node := fs.node(entry.number).value;
        if !node.Link? {
          LinksOnlyLimit(fs, entry.number, split.rest, links, more);
        } else if |node.text| + |split.rest| + 1 < MAXPATHLEN - 1 && links > 0 && node.readable {
          var next := Cut(node.text + split.rest);
          var start := if next != [] && next[0] == '/' then ROOTINO else at;
          if fs.node(start).Some? {
            LinksOnlyLimit(fs, start, next, links - 1, more - 1);
          }
        }
      }
    }
  }

  // A component is accepted exactly when it has at most MAXNAMLEN + 1 characters, all of seven bits.
  predicate Acceptable(name: seq<char>) {
    |name| <= MAXNAMLEN + 1 && SevenBits(name)
  }

  // The component of the first n characters, up to a slash or the end.
  lemma ScanAccepts(p: seq<char>, n: nat)
    requires n <= |p| && (n < |p| ==> p[n] == '/') && forall k :: 0 <= k < n ==> p[k] != '/'
    ensures Scan(p, 0).Name? <==> Acceptable(p[..n])
    ensures Scan(p, 0).Name? ==> Scan(p, 0).name == p[..n] && Scan(p, 0).rest == p[n..]
  {
    ScanFrom(p, 0, n);
  }

  predicate SevenBits(s: seq<char>) {
    forall k :: 0 <= k < |s| ==> s[k] < 128 as char
  }

  lemma {:induction false} ScanFrom(p: seq<char>, len: nat, n: nat)
    requires n <= |p| && (n < |p| ==> p[n] == '/') && len <= MAXNAMLEN + 1
    requires forall k :: 0 <= k < n ==> p[k] != '/'
    ensures Scan(p, len).Name? <==> len + n <= MAXNAMLEN + 1 && SevenBits(p[..n])
    ensures Scan(p, len).Name? ==> Scan(p, len).name == p[..n] && Scan(p, len).rest == p[n..]
  {
    if n > 0 && len <= MAXNAMLEN {
      var q := p[1..];
      ScanFrom(q, len + 1, n - 1);
      FirstOfName(p, q, n);
    }
  }

  lemma FirstOfName(p: seq<char>, q: seq<char>, n: nat)
    requires 0 < n <= |p| && q == p[1..]
    ensures p[..n] == [p[0]] + q[..n - 1] && p[n..] == q[n - 1..]
    ensures SevenBits(p[..n]) <==> p[0] < 128 as char && SevenBits(q[..n - 1])
  {
    assert p[..n] == [p[0]] + q[..n - 1];
    var name, rest := p[..n], q[..n - 1];
    if SevenBits(name) {
      assert name[0] == p[0];
      forall k | 0 <= k < |rest| ensures rest[k] < 128 as char {
        assert name[k + 1] == rest[k];
      }
    }
    if SevenBits(q[..n - 1]) && p[0] < 128 as char {
      forall k | 0 <= k < n ensures p[..n][k] < 128 as char {
        assert k > 0 ==> p[..n][k] == q[..n - 1][k - 1];
      }
    }
  }

  // A name that stands first in a path, up to a slash or the end.
  predicate IsName(name: seq<char>, rest: seq<char>) {
    && name != [] && (forall k :: 0 <= k < |name| ==> name[k] != '/') && Acceptable(name)
    && (rest == [] || rest[0] == '/')
  }

  lemma NameIsScanned(name: seq<char>, rest: seq<char>)
    requires IsName(name, rest)
    ensures SkipSlashes(name + rest) == name + rest && Scan(name + rest, 0) == Name(name, rest)
  {
    var p := name + rest;
    assert p[..|name|] == name && p[|name|..] == rest && p[0] == name[0];
    ScanAccepts(p, |name|);
  }

  // A name that is no link leads on to its inode.
  lemma NameLeadsOn(fs: FileSystem, at: nat, name: seq<char>, rest: seq<char>, child: nat, links: nat)
    requires fs.node(at) == Some(Directory) && IsName(name, rest) && fs.search(at, name) == Inode(child)
    requires fs.node(child).Some? && !fs.node(child).value.Link?
    ensures Resolve(fs, at, name + rest, links) == Resolve(fs, child, rest, links)
  {
    NameIsScanned(name, rest);
  }

  // A link stands for its text: a path that begins with the link's name leads where the path leads that
  // has the text in place of the name, from the same directory, or from the root if the text is absolute.
  lemma LinkStandsForText(
      fs: FileSystem, at: nat, name: seq<char>, rest: seq<char>, child: nat, text: seq<char>, links: nat)
    requires fs.node(at) == Some(Directory) && IsName(name, rest) && fs.search(at, name) == Inode(child)
    requires fs.node(child) == Some(Link(text, true)) && '\0' !in text && '\0' !in rest && text != []
    requires fs.node(ROOTINO).Some? && links > 0 && |text| + |rest| + 1 < MAXPATHLEN - 1
    ensures Resolve(fs, at, name + rest, links)
      == Resolve(fs, if text[0] == '/' then ROOTINO else at, text + rest, links - 1)
  {
    NameIsScanned(name, rest);
    CutWhole(text + rest);
  }

  // ---------------------------------------------------------------- strings in a buffer

  function StringAt(b: seq<char>, i: nat): (s: seq<char>)
    decreases |b| - i
    ensures i <= |b| ==> |s| <= |b| - i
  {
    if i >= |b| || b[i] == '\0' then [] else [b[i]] + StringAt(b, i + 1)
  }

  // The string at i ends inside the buffer.
  predicate Terminated(b: seq<char>, i: nat) {
    i + |StringAt(b, i)| < |b|
  }

  lemma {:induction false} StringIs(b: seq<char>, i: nat, s: seq<char>)
    requires i + |s| < |b| && b[i..i + |s|] == s && b[i + |s|] == '\0'
    ensures StringAt(b, i) == Cut(s) && Terminated(b, i)
    decreases |s|
  {
    if s != [] && s[0] != '\0' {
      assert b[i] == s[0] && b[i + 1..i + 1 + |s[1..]|] == s[1..];
      StringIs(b, i + 1, s[1..]);
    }
  }

  lemma {:induction false} StringBytes(b: seq<char>, i: nat)
    requires Terminated(b, i)
    ensures b[i..i + |StringAt(b, i)|] == StringAt(b, i) && b[i + |StringAt(b, i)|] == '\0'
    ensures '\0' !in StringAt(b, i)
    decreases |b| - i
  {
    if b[i] != '\0' {
      StringBytes(b, i + 1);
    }
  }

  lemma {:induction false} CutWhole(s: seq<char>)
    requires '\0' !in s
    ensures Cut(s) == s
  {
    if s != [] {
      CutWhole(s[1..]);
    }
  }

  // ovbcopy: the bytes arrive as they were, whichever way the ranges overlap.
  method Ovbcopy(b: array<char>, from: nat, to: nat, bytes: nat)
    requires from + bytes <= b.Length && to + bytes <= b.Length
    modifies b
    ensures b[to..to + bytes] == old(b[from..from + bytes])
    ensures forall k :: 0 <= k < b.Length && (k < to || k >= to + bytes) ==> b[k] == old(b[k])
  {
    if from + bytes <= to || to + bytes <= from || to == from || from > to {
      Memcpy(b, from, to, bytes);
    } else {
      var n := bytes;
      while n > 0
        invariant 0 <= n <= bytes
        invariant forall k :: to + n <= k < to + bytes ==> b[k] == old(b[from + (k - to)])
        invariant forall k :: 0 <= k < b.Length && (k < to + n || k >= to + bytes) ==> b[k] == old(b[k])
      {
        n := n - 1;
        b[to + n] := b[from + n];
      }
    }
  }

  // Copies from low addresses to high ones.
  method Memcpy(b: array<char>, from: nat, to: nat, bytes: nat)
    requires from + bytes <= b.Length && to + bytes <= b.Length
    requires from + bytes <= to || to <= from
    modifies b
    ensures b[to..to + bytes] == old(b[from..from + bytes])
    ensures forall k :: 0 <= k < b.Length && (k < to || k >= to + bytes) ==> b[k] == old(b[k])
  {
    var n := 0;
    while n < bytes
      invariant n <= bytes
      invariant forall k :: to <= k < to + n ==> b[k] == old(b[from + (k - to)])
      invariant forall k :: 0 <= k < b.Length && (k < to || k >= to + n) ==> b[k] == old(b[k])
    {
      b[to + n] := b[from + n];
      n := n + 1;
    }
  }

  // ---------------------------------------------------------------- the lookup

  lemma TextThenRest(was: seq<char>, now: seq<char>, text: seq<char>, rest: seq<char>)
    requires |now| == |was| && |text| + |rest| < |was|
    requires was[|text|..|text| + |rest| + 1] == rest + ['\0']
    requires now[..|text|] == text && now[|text|..] == was[|text|..]
    ensures now[0..|text + rest|] == text + rest && now[|text + rest|] == '\0'
  {
    var n := |text|;
    forall k | n <= k < |now| ensures now[k] == was[k] {
      assert now[k] == now[n..][k - n] && was[k] == was[n..][k - n];
    }
    forall k | 0 <= k <= |rest| ensures was[n + k] == (rest + ['\0'])[k] {
      assert was[n..n + |rest| + 1][k] == was[n + k];
    }
    forall k | 0 <= k < n ensures now[k] == text[k] {
      assert now[..n][k] == now[k];
    }
  }

  class Lookup {
    const namebuf: array<char>
    var cp: nat
    var inumber: nat
    var nlinks: nat

    predicate Valid()
      reads this, namebuf
    {
      namebuf.Length == PATH_MAX + 1 && Terminated(namebuf[..], cp) && nlinks <= MAXSYMLINKS
    }

    // What is left of the path.
    ghost function Left(): seq<char>
      reads this, namebuf
    {
      StringAt(namebuf[..], cp)
    }

    // The path is copied into the buffer.
    constructor (path: seq<char>)
      requires |path| <= PATH_MAX && '\0' !in path
      ensures Valid() && Left() == path && inumber == ROOTINO && nlinks == 0 && fresh(namebuf)
    {
      namebuf := new char[PATH_MAX + 1](i => if 0 <= i < |path| then path[i] else '\0');
      cp, inumber, nlinks := 0, ROOTINO, 0;
      new;
      StringIs(namebuf[..], 0, path);
      CutWhole(path);
    }

    method SkipSeparators()
      requires Valid()
      modifies this`cp
      ensures Valid() && Left() == SkipSlashes(old(Left()))
    {
      while namebuf[cp] == '/'
        invariant Valid() && SkipSlashes(Left()) == SkipSlashes(old(Left()))
        decreases namebuf.Length - cp
      {
        cp := cp + 1;
      }
    }

    // Move to the end of the next component, unless something is wrong with it.
    method ScanComponent() returns (bad: Option<Error>)
      requires Valid()
      modifies this`cp
      ensures Valid() && old(cp) <= cp
      ensures bad.Some? <==> Scan(old(Left()), 0).Bad?
      ensures bad.Some? ==> Scan(old(Left()), 0) == Bad(bad.value)
      ensures bad.None? ==> Scan(old(Left()), 0) == Name(namebuf[old(cp)..cp], Left()) && '\0' !in namebuf[old(cp)..cp]
    {
      ghost var b, left := namebuf[..], Left();
      var component, len := cp, 0;
      ScanStarts(b, left, cp);
      while namebuf[cp] != '\0' && namebuf[cp] != '/'
        invariant Valid() && component <= cp && len == cp - component && ScanSoFar(left, b, component, cp, len)
        decreases namebuf.Length - cp
      {
        ScanGoesOn(left, b, component, cp, len);
        if len > MAXNAMLEN {
          return Some(NameTooLong);
        }
        if namebuf[cp] >= 128 as char {
          return Some(InvalidParameter);
        }
        len := len + 1;
        cp := cp + 1;
      }
      ScanEnds(left, b, component, cp, len);
      bad := None;
    }

    // Get the next component; the buffer ends the string there for as long as it is looked up.
    method Component() returns (r: Split)
      requires Valid()
      modifies this`cp, namebuf
      ensures Valid() && r == Scan(old(Left()), 0) && (r.Name? ==> Left() == r.rest)
      ensures namebuf[..] == old(namebuf[..])
    {
      var component := cp;
      var bad := ScanComponent();
      if bad.Some? {
        return Bad(bad.value);
      }
      var name := ReadName(component);
      r := Name(name, ReadString(cp));
    }

    method ReadName(component: nat) returns (name: seq<char>)
      requires Valid() && component <= cp && '\0' !in namebuf[component..cp]
      modifies namebuf
      ensures namebuf[..] == old(namebuf[..]) && name == namebuf[component..cp]
    {
      ghost var before := namebuf[..];
      var c := namebuf[cp];
      namebuf[cp] := '\0';
      assert namebuf[component..cp] == before[component..cp];
      StringIs(namebuf[..], component, before[component..cp]);
      CutWhole(before[component..cp]);
      name := ReadString(component);
      namebuf[cp] := c;
      assert namebuf[..] == before;
    }

    method Strlen(i: nat) returns (len: nat)
      requires namebuf.Length > i && Terminated(namebuf[..], i)
      ensures len == |StringAt(namebuf[..], i)|
    {
      len := 0;
      while namebuf[i + len] != '\0'
        invariant len <= |StringAt(namebuf[..], i)| && i + len < namebuf.Length
        invariant |StringAt(namebuf[..], i)| == len + |StringAt(namebuf[..], i + len)|
        decreases namebuf.Length - len
      {
        len := len + 1;
      }
    }

    // Put a link's text in front of what is left of the path, and start over at the text.
    method Splice(text: seq<char>)
      requires Valid() && |text| + |Left()| + 1 < MAXPATHLEN - 1
      modifies this`cp, namebuf
      ensures Valid() && cp == 0 && Left() == Cut(text + old(Left()))
    {
      StringBytes(namebuf[..], cp);
      ghost var rest := Left();
      var len := Strlen(cp);
      Ovbcopy(namebuf, cp, |text|, len + 1);
      assert namebuf[|text|..|text| + len + 1] == rest + ['\0'];
      ghost var was := namebuf[..];
      assert was[|text|..|text| + len + 1] == namebuf[|text|..|text| + len + 1];
      PutText(text);
      TextThenRest(was, namebuf[..], text, rest);
      StringIs(namebuf[..], 0, text + rest);
      cp := 0;
    }

    method PutText(text: seq<char>)
      requires |text| <= namebuf.Length
      modifies namebuf
      ensures namebuf[..|text|] == text && namebuf[|text|..] == old(namebuf[|text|..])
    {
      forall k | 0 <= k < |text| {
        namebuf[k] := text[k];
      }
    }

    // One round of the loop of ext2fs_open_file: the answer, or a shorter path or one link fewer.
    method Round(fs: FileSystem) returns (answer: Option<Answer>)
      requires Valid() && Left() != [] && fs.node(inumber).Some?
      modifies this, namebuf
      ensures Valid()
      ensures answer.Some? ==> answer.value == old(Resolve(fs, inumber, Left(), MAXSYMLINKS - nlinks))
      ensures answer.None? ==> (
        && fs.node(inumber).Some?
        && Resolve(fs, inumber, Left(), MAXSYMLINKS - nlinks) == old(Resolve(fs, inumber, Left(), MAXSYMLINKS - nlinks))
        && (nlinks > old(nlinks) || (nlinks == old(nlinks) && |Left()| < old(|Left()|))))
    {
      ghost var at, path, links := inumber, Left(), MAXSYMLINKS - nlinks;
      if fs.node(inumber) != Some(Directory) {
        return Some(Refused(NotDirectory));
      }
      SkipSeparators();
      var c := Component();
      if c.Bad? {
        return Some(Refused(c.error));
      }
      var parent := inumber;
      var entry := fs.search(parent, c.name);
      if entry.NotFound? {
        return Some(Refused(entry.error));
      }
      inumber := entry.number;
      ResolveOne(fs, at, path, links);
      match fs.node(inumber)
      case None => answer := Some(Refused(ReadFailed));
      case Some(Link(text, readable)) => answer := Follow(fs, text, readable, parent);
      case Some(_) => answer := None;
    }

    // A symbolic link has been met.
    method Follow(fs: FileSystem, text: seq<char>, readable: bool, parent: nat) returns (answer: Option<Answer>)
      requires Valid()
      modifies this, namebuf
      ensures Valid()
      ensures var next := Cut(text + old(Left()));
        var start := if next != [] && next[0] == '/' then ROOTINO else parent;
        if |text| + old(|Left()|) + 1 >= MAXPATHLEN - 1 then answer == Some(Refused(NameTooLong))
        else if old(nlinks) == MAXSYMLINKS then answer == Some(Refused(SymlinkLoop))
        else if !readable || fs.node(start).None? then answer == Some(Refused(ReadFailed))
        else answer == None && inumber == start && Left() == next && nlinks == old(nlinks) + 1
    {
      var len := Strlen(cp);
      if |text| + len + 1 >= MAXPATHLEN - 1 {
        return Some(Refused(NameTooLong));
      }
      if nlinks + 1 > MAXSYMLINKS {
        return Some(Refused(SymlinkLoop));
      }
      nlinks := nlinks + 1;
      if !readable {
        return Some(Refused(ReadFailed));
      }
      Splice(text);
      inumber := if namebuf[cp] != '/' then parent else ROOTINO;
      answer := if fs.node(inumber).None? then Some(Refused(ReadFailed)) else None;
    }

    // The loop of ext2fs_open_file.
    method Run(fs: FileSystem) returns (answer: Answer)
      requires Valid() && fs.node(inumber).Some?
      modifies this, namebuf
      ensures answer == old(Resolve(fs, inumber, Left(), MAXSYMLINKS - nlinks))
    {
      while namebuf[cp] != '\0'
        invariant Valid() && fs.node(inumber).Some?
        invariant Resolve(fs, inumber, Left(), MAXSYMLINKS - nlinks)
          == old(Resolve(fs, inumber, Left(), MAXSYMLINKS - nlinks))
        decreases MAXSYMLINKS - nlinks, |Left()|
      {
        var stop := Round(fs);
        if stop.Some? {
          return stop.value;
        }
      }
      answer := Opened(inumber);
    }

    function ReadString(i: nat): seq<char>
      reads namebuf
    {
      StringAt(namebuf[..], i)
    }
  }

  // ext2fs_open_file.
  method OpenFile(fs: FileSystem, path: seq<char>) returns (answer: Answer)
    requires |path| <= PATH_MAX && '\0' !in path
    ensures answer == if path == [] then Refused(NoEntry)
                      else if fs.node(ROOTINO).None? then Refused(ReadFailed)
                      else Resolve(fs, ROOTINO, path, MAXSYMLINKS)
  {
    if path == [] {
      return Refused(NoEntry);
    }
    if fs.node(ROOTINO).None? {
      return Refused(ReadFailed);
    }
    var lookup := new Lookup(path);
    answer := lookup.Run(fs);
  }

  function InFront(pre: seq<char>, s: Split): Split {
    match s
    case Bad(e) => Bad(e)
    case Name(name, rest) => Name(pre + name, rest)
  }

  lemma ScanStep(b: seq<char>, component: nat, cp: nat, len: nat)
    requires component <= cp < |b| && b[cp] != '\0' && b[cp] != '/' && len <= MAXNAMLEN && b[cp] < 128 as char
    ensures InFront(b[component..cp], Scan(StringAt(b, cp), len))
      == InFront(b[component..cp + 1], Scan(StringAt(b, cp + 1), len + 1))
    ensures b[component..cp + 1] == b[component..cp] + [b[cp]]
  {
    var pre, p, rest := b[component..cp], StringAt(b, cp), StringAt(b, cp + 1);
    assert p[0] == b[cp] && p[1..] == rest;
    var s := Scan(rest, len + 1);
    assert Scan(p, len) == InFront([b[cp]], s);
    InFrontTwice(pre, b[cp], s);
    assert b[component..cp + 1] == pre + [b[cp]];
  }

  // The scan of `left` has come from `component` to `cp`.
  ghost predicate ScanSoFar(left: seq<char>, b: seq<char>, component: nat, cp: nat, len: nat) {
    && component <= cp <= |b| && '\0' !in b[component..cp]
    && Scan(left, 0) == InFront(b[component..cp], Scan(StringAt(b, cp), len))
  }

  lemma ScanStarts(b: seq<char>, left: seq<char>, cp: nat)
    requires cp <= |b| && left == StringAt(b, cp)
    ensures ScanSoFar(left, b, cp, cp, 0)
  {
    var s := Scan(left, 0);
    assert s.Name? ==> [] + s.name == s.name;
  }

  // The next character ends it, or is taken.
  lemma ScanGoesOn(left: seq<char>, b: seq<char>, component: nat, cp: nat, len: nat)
    requires ScanSoFar(left, b, component, cp, len) && cp < |b| && b[cp] != '\0' && b[cp] != '/'
    ensures if len > MAXNAMLEN then Scan(left, 0) == Bad(NameTooLong)
      else if b[cp] >= 128 as char then Scan(left, 0) == Bad(InvalidParameter)
      else ScanSoFar(left, b, component, cp + 1, len + 1)
  {
    if len <= MAXNAMLEN && b[cp] < 128 as char {
      ScanStep(b, component, cp, len);
    }
  }

  lemma ScanEnds(left: seq<char>, b: seq<char>, component: nat, cp: nat, len: nat)
    requires ScanSoFar(left, b, component, cp, len) && cp < |b| && (b[cp] == '\0' || b[cp] == '/')
    ensures Scan(left, 0) == Name(b[component..cp], StringAt(b, cp)) && '\0' !in b[component..cp]
  {
    assert b[component..cp] + [] == b[component..cp];
  }

  lemma InFrontTwice(pre: seq<char>, c: char, s: Split)
    ensures InFront(pre, InFront([c], s)) == InFront(pre + [c], s)
  {
    if s.Name? {
      assert pre + ([c] + s.name) == (pre + [c]) + s.name;
    }
  }
}
