/** Path names: resolution by kernel/fs.c, and the path that sys_getcwd() in
    kernel/syscall.c builds by walking up. */
module Paths {
  type str = seq<char>

  const NUL: char := '\0'
  const DIRSIZ := 14
  const ROOT := 1

  /** The 14 bytes of a name, which a NUL ends only if the name is shorter. */
  type Field = s: str | |s| == DIRSIZ witness seq(DIRSIZ, _ => NUL)

  /** A directory entry: inum 0 when unused. */
  datatype Dirent = Dirent(inum: int, field: Field)

  type Dir = seq<Dirent>

  /** The characters before the first NUL. */
  function Text(field: str): (s: str)
    ensures |s| <= |field| && NUL !in s
  {
    if field == [] || field[0] == NUL then [] else [field[0]] + Text(field[1..])
  }

  /** The characters of a C string that namecmp() looks at. */
  function Cut(s: str): str {
    if |s| > DIRSIZ then s[..DIRSIZ] else s
  }

  // ----- directories -----

  /** Character j of a C string, NUL from its end on. */
  function CharAt(s: str, j: nat): char {
    if j < |s| then s[j] else NUL
  }

  /** The first 14 characters are the same, as far as the name goes, its NUL included. */
  ghost predicate SameName(field: Field, name: str) {
    forall j: nat :: j < DIRSIZ && j <= |name| ==> CharAt(field, j) == CharAt(name, j)
  }

  /** namecmp(), which is strncmp() for 14 characters. */
  method Namecmp(name: str, field: Field) returns (diff: int)
    requires NUL !in name
    ensures diff == 0 <==> SameName(field, name)
  {
    var j := 0;
    while j < DIRSIZ && CharAt(name, j) != NUL && CharAt(name, j) == CharAt(field, j)
      invariant 0 <= j <= DIRSIZ && j <= |name|
      invariant forall i: nat :: i < j ==> CharAt(field, i) == CharAt(name, i)
    {
      j := j + 1;
    }
    if j == DIRSIZ {
      return 0;
    }
    diff := CharAt(name, j) as int - CharAt(field, j) as int;
  }

  /** The first used entry with this name, and none before it, has this inode; 0 stands for
      no such entry. */
  ghost predicate IsFound(dir: Dir, name: str, inum: int) {
    if inum == 0 then forall k :: 0 <= k < |dir| && dir[k].inum != 0 ==> !SameName(dir[k].field, name)
    else
      exists k :: 0 <= k < |dir| && dir[k].inum == inum && SameName(dir[k].field, name)
                  && forall j :: 0 <= j < k && dir[j].inum != 0 ==> !SameName(dir[j].field, name)
  }

  /** dirlookup(): the inode of the first used entry with this name, or 0. */
  function Lookup(dir: Dir, name: str): int {
    if dir == [] then 0
    else if dir[0].inum != 0 && Text(dir[0].field) == Cut(name) then dir[0].inum
    else Lookup(dir[1..], name)
  }

  /** Text and Cut say what namecmp() compares. */
  lemma {:induction false} TextAt(field: str, j: nat)
    ensures j < |Text(field)| ==> Text(field)[j] == field[j] && field[j] != NUL
    ensures j == |Text(field)| ==> CharAt(field, j) == NUL
    decreases |field|
  {
    if field != [] && field[0] != NUL && j > 0 {
      TextAt(field[1..], j - 1);
    }
  }

  lemma NameLength(field: Field, name: str)
    requires NUL !in name && SameName(field, name)
    ensures |Text(field)| == |Cut(name)|
  {
    var t, c := |Text(field)|, |Cut(name)|;
    TextAt(field, t);
    TextAt(field, c);
    assert t < DIRSIZ && t <= |name| ==> CharAt(field, t) == CharAt(name, t);
    assert c < DIRSIZ ==> c == |name| && CharAt(field, c) == CharAt(name, c);
  }

  lemma NameTest(field: Field, name: str)
    requires NUL !in name
    ensures Text(field) == Cut(name) <==> SameName(field, name)
  {
    var t, c := Text(field), Cut(name);
    if t == c {
      forall j: nat | j < DIRSIZ && j <= |name| ensures CharAt(field, j) == CharAt(name, j) {
        TextAt(field, j);
      }
    } else if SameName(field, name) {
      NameLength(field, name);
      forall j | 0 <= j < |t| ensures t[j] == c[j] {
        TextAt(field, j);
        assert CharAt(field, j) == CharAt(name, j);
      }
    }
  }

  lemma {:induction false} LookupAt(dir: Dir, name: str, k: nat)
    requires NUL !in name && k <= |dir|
    requires forall j :: 0 <= j < k && dir[j].inum != 0 ==> !SameName(dir[j].field, name)
    ensures Lookup(dir, name) == Lookup(dir[k..], name)
    ensures k < |dir| && dir[k].inum != 0 && SameName(dir[k].field, name) ==> Lookup(dir, name) == dir[k].inum
  {
    if k > 0 {
      NameTest(dir[0].field, name);
      assert dir[1..][k - 1..] == dir[k..];
      LookupAt(dir[1..], name, k - 1);
    } else if dir != [] {
      NameTest(dir[0].field, name);
    }
  }

  method DirLookup(dir: Dir, name: str) returns (inum: int)
    requires NUL !in name
    ensures inum == 0 <==> forall k :: 0 <= k < |dir| && dir[k].inum != 0 ==> !SameName(dir[k].field, name)
    ensures inum != 0 ==>
              exists k :: 0 <= k < |dir| && dir[k].inum == inum && SameName(dir[k].field, name)
                          && forall j :: 0 <= j < k && dir[j].inum != 0 ==> !SameName(dir[j].field, name)
    ensures IsFound(dir, name, inum) && inum == Lookup(dir, name)
  {
    var off := 0;
    while off < |dir|
      invariant 0 <= off <= |dir|
      invariant forall j :: 0 <= j < off && dir[j].inum != 0 ==> !SameName(dir[j].field, name)
    {
      var de := dir[off];
      LookupAt(dir, name, off);
      if de.inum != 0 {
        var diff := Namecmp(name, de.field);
        if diff == 0 {
          return de.inum;
        }
      }
      off := off + 1;
    }
    LookupAt(dir, name, |dir|);
    return 0;
  }

  /** So Lookup is that entry's inode; entries below k have been looked at. */
  lemma {:induction false} LookupIsFound(dir: Dir, name: str, k: nat)
    requires NUL !in name && k <= |dir|
    requires forall j :: 0 <= j < k && dir[j].inum != 0 ==> !SameName(dir[j].field, name)
    ensures IsFound(dir, name, Lookup(dir, name))
    decreases |dir| - k
  {
    LookupAt(dir, name, k);
    if k < |dir| && !(dir[k].inum != 0 && SameName(dir[k].field, name)) {
      LookupIsFound(dir, name, k + 1);
    }
  }

  /** Names of used entries differ. */
  ghost predicate UniqueNames(dir: Dir) {
    forall j, k :: 0 <= j < k < |dir| && dir[j].inum != 0 && dir[k].inum != 0 ==>
      Text(dir[j].field) != Text(dir[k].field)
  }

  /** A name is found where it is: names being unique, lookup inverts an entry. */
  lemma {:induction false} LookupFinds(dir: Dir, k: nat)
    requires UniqueNames(dir) && k < |dir| && dir[k].inum != 0
    ensures Lookup(dir, Text(dir[k].field)) == dir[k].inum
  {
    if k > 0 {
      assert dir[0].inum != 0 ==> Text(dir[0].field) != Text(dir[k].field);
      assert dir[1..][k - 1] == dir[k];
      LookupFinds(dir[1..], k - 1);
    }
  }

  /** The first entry with this inode, as an index, or -1: getcwd()'s scan. */
  function IndexOf(dir: Dir, inum: int): (k: int)
    ensures -1 <= k < |dir| && (k >= 0 ==> dir[k].inum == inum)
    ensures k == -1 ==> forall j :: 0 <= j < |dir| ==> dir[j].inum != inum
  {
    if dir == [] then -1
    else if dir[0].inum == inum then 0
    else
      var k := IndexOf(dir[1..], inum);
      if k == -1 then -1 else k + 1
  }

  lemma {:induction false} IndexFirst(dir: Dir, inum: int)
    ensures IndexOf(dir, inum) >= 0 ==> forall j :: 0 <= j < IndexOf(dir, inum) ==> dir[j].inum != inum
  {
    if dir != [] && dir[0].inum != inum {
      IndexFirst(dir[1..], inum);
      assert forall j :: 0 < j < |dir| ==> dir[j] == dir[1..][j - 1];
    }
  }

  // ----- path elements -----

  function SkipSlashes(path: str): (r: str)
    ensures |r| <= |path| && (r != [] ==> r[0] != '/')
  {
    if path != [] && path[0] == '/' then SkipSlashes(path[1..]) else path
  }

  /** The length of the element a path begins with. */
  function ElemLen(path: str): (n: nat)
    ensures n <= |path|
  {
    if path == [] || path[0] == '/' then 0 else 1 + ElemLen(path[1..])
  }

  /** What follows an element, without leading slashes. */
  function RestOf(path: str): str {
    SkipSlashes(SkipSlashes(path)[ElemLen(SkipSlashes(path))..])
  }

  /** The element itself, as far as it counts. */
  function ElemOf(path: str): str {
    Cut(SkipSlashes(path)[..ElemLen(SkipSlashes(path))])
  }

  method PastSlashes(path: str, from: nat) returns (p: nat)
    requires from <= |path|
    ensures from <= p <= |path| && path[p..] == SkipSlashes(path[from..])
  {
    p := from;
    while p < |path| && path[p] == '/'
      invariant from <= p <= |path| && SkipSlashes(path[p..]) == SkipSlashes(path[from..])
    {
      p := p + 1;
    }
  }

  method PastElem(path: str, from: nat) returns (p: nat)
    requires from <= |path|
    ensures from <= p <= |path| && p - from == ElemLen(path[from..])
  {
    p := from;
    while p < |path| && path[p] != '/'
      invariant from <= p <= |path| && ElemLen(path[from..]) == p - from + ElemLen(path[p..])
    {
      assert path[p..][1..] == path[p + 1..];
      p := p + 1;
    }
  }

  lemma {:induction false} TextWhole(s: str)
    requires NUL !in s
    ensures Text(s) == s
  {
    if s != [] {
      TextWhole(s[1..]);
    }
  }

  lemma {:induction false} TextPrefix(s: str, t: str)
    requires NUL !in s && t != [] && t[0] == NUL
    ensures Text(s + t) == s
  {
    if s != [] {
      assert (s + t)[1..] == s[1..] + t;
      TextPrefix(s[1..], t);
    }
  }

  /** The copy into the name buffer: no NUL after 14 characters. */
  method CopyElem(elem: str, name: str) returns (name': str)
    requires |name| == DIRSIZ && NUL !in elem
    ensures |name'| == DIRSIZ && Text(name') == Cut(elem)
  {
    var len := |elem|;
    if len >= DIRSIZ {
      name' := elem[..DIRSIZ];
      TextWhole(name');
    } else {
      name' := elem + ([NUL] + name[len + 1..]);
      TextPrefix(elem, [NUL] + name[len + 1..]);
    }
  }

  lemma ElemTaken(p: str)
    ensures p != [] && p[0] != '/' ==> ElemLen(p) >= 1
  {
  }

  /** skipelem(): the next element, cut to 14 characters, and the rest of the path without
      leading slashes; `more` is false when there is no element.  `name` is the buffer it
      fills, which keeps what was beyond the element's NUL. */
  method SkipElem(path: str, name: str) returns (more: bool, rest: str, name': str)
    requires |name| == DIRSIZ && NUL !in path
    ensures more <==> SkipSlashes(path) != []
    ensures more ==> rest == RestOf(path) && |rest| < |path| && NUL !in rest
    ensures |name'| == DIRSIZ && if more then Text(name') == ElemOf(path) else name' == name
  {
    var s := PastSlashes(path, 0);
    assert path[0..] == path;
    if s == |path| {
      return false, [], name;
    }
    ElemTaken(path[s..]);
    var e := PastElem(path, s);
    assert path[s..][e - s..] == path[e..] && path[s..][..e - s] == path[s..e];
    name' := CopyElem(path[s..e], name);
    var p := PastSlashes(path, e);
    more, rest := true, path[p..];
  }

  // ----- resolution -----

  /** namex() from inode ip: the inode that the path leads to, or 0. */
  function Resolve(dirs: map<int, Dir>, ip: int, path: str): int
    decreases |path|
  {
    var p := SkipSlashes(path);
    if p == [] then ip
    else if ip !in dirs then 0
    else
      var n := ElemLen(p);
      var next := Lookup(dirs[ip], p[..n]);
      if next == 0 then 0 else ElemTaken(p); Resolve(dirs, next, p[n..])
  }

  lemma {:induction false} SkipTwice(p: str)
    ensures SkipSlashes(SkipSlashes(p)) == SkipSlashes(p)
  {
    if p != [] && p[0] == '/' {
      SkipTwice(p[1..]);
    }
  }

  lemma {:induction false} LookupCut(dir: Dir, name: str)
    ensures Lookup(dir, Cut(name)) == Lookup(dir, name)
  {
    assert Cut(Cut(name)) == Cut(name);
    if dir != [] {
      LookupCut(dir[1..], name);
    }
  }

  /** One element of resolution, as the loop of namex() sees it. */
  lemma ResolveStep(dirs: map<int, Dir>, ip: int, path: str)
    ensures SkipSlashes(path) == [] ==> Resolve(dirs, ip, path) == ip
    ensures SkipSlashes(path) != [] && ip !in dirs ==> Resolve(dirs, ip, path) == 0
    ensures SkipSlashes(path) != [] && ip in dirs ==>
              Resolve(dirs, ip, path) == if Lookup(dirs[ip], ElemOf(path)) == 0 then 0
                  else Resolve(dirs, Lookup(dirs[ip], ElemOf(path)), RestOf(path))
  {
    var p := SkipSlashes(path);
    if p != [] && ip in dirs {
      var n := ElemLen(p);
      LookupCut(dirs[ip], p[..n]);
      SkipTwice(p[n..]);
    }
  }

  // ----- what a path means -----

  function Slashes(n: nat): str {
    seq(n, _ => '/')
  }

  /** Names separated by slashes: pads[0] of them, a name, pads[1] of them, and so on. */
  function Padded(pads: seq<nat>, names: seq<str>): str
    requires |pads| == |names| + 1
  {
    if names == [] then Slashes(pads[0]) else Slashes(pads[0]) + (names[0] + Padded(pads[1..], names[1..]))
  }

  predicate IsName(name: str) {
    name != [] && '/' !in name
  }

  /** The names are the elements of a path: no slash is in one, and some are between two. */
  ghost predicate Splits(pads: seq<nat>, names: seq<str>) {
    && |pads| == |names| + 1 && (forall i {:trigger names[i]} :: 0 <= i < |names| ==> IsName(names[i]))
    && forall i {:trigger pads[i]} :: 0 < i < |names| ==> pads[i] > 0
  }

  lemma SplitsRest(pads: seq<nat>, names: seq<str>)
    requires Splits(pads, names) && names != []
    ensures Splits(pads[1..], names[1..])
    ensures var rest := Padded(pads[1..], names[1..]); rest == [] || rest[0] == '/'
  {
    var pads', names' := pads[1..], names[1..];
    forall i | 0 <= i < |names'| ensures IsName(names'[i]) {
      assert names'[i] == names[i + 1];
    }
    forall i | 0 < i < |names'| ensures pads'[i] > 0 {
      assert pads'[i] == pads[i + 1];
    }
    if names' != [] {
      assert pads'[0] == pads[1];
    }
  }

  lemma {:induction false} SkipPad(n: nat, rest: str)
    requires rest == [] || rest[0] != '/'
    ensures SkipSlashes(Slashes(n) + rest) == rest
  {
    var path := Slashes(n) + rest;
    if n > 0 {
      assert path[1..] == Slashes(n - 1) + rest;
      SkipPad(n - 1, rest);
    } else {
      assert path == rest;
    }
  }

  /** Every path is such a sequence of names. */
  lemma {:induction false} SplitExists(path: str) returns (pads: seq<nat>, names: seq<str>)
    ensures Splits(pads, names) && path == Padded(pads, names)
    decreases |path|
  {
    var n := 0;
    while n < |path| && path[n] == '/'
      invariant 0 <= n <= |path| && path[..n] == Slashes(n)
    {
      n := n + 1;
    }
    pads, names := [n], [];
    if n < |path| {
      var m := n;
      while m < |path| && path[m] != '/'
        invariant n <= m <= |path| && '/' !in path[n..m]
      {
        assert path[n..m + 1] == path[n..m] + [path[m]];
        m := m + 1;
      }
      var pads', names' := SplitExists(path[m..]);
      pads, names := [n] + pads', [path[n..m]] + names';
      assert pads[1..] == pads' && names[1..] == names';
      assert path == path[..n] + (path[n..m] + path[m..]);
      if names' != [] {
        assert pads'[0] > 0;
      }
    } else {
      assert path == path[..n];
    }
  }

  ghost predicate StepDown(dirs: map<int, Dir>, names: seq<str>, way: seq<int>, k: int)
    requires 0 <= k < |way| - 1 <= |names|
  {
    way[k] in dirs && way[k + 1] != 0 && IsFound(dirs[way[k]], names[k], way[k + 1])
  }

  /** The inodes on the way: each name is looked up in the directory that the one before led
      to. */
  ghost predicate OnTheWay(dirs: map<int, Dir>, names: seq<str>, way: seq<int>) {
    && 0 < |way| <= |names| + 1
    && forall k {:trigger StepDown(dirs, names, way, k)} :: 0 <= k < |way| - 1 ==> StepDown(dirs, names, way, k)
  }

  /** The path leads to ip: by all of its names, or to 0 because at some name there is no
      directory, or no used entry with that name. */
  ghost predicate LeadsTo(dirs: map<int, Dir>, names: seq<str>, way: seq<int>, ip: int) {
    && OnTheWay(dirs, names, way)
    && var last := way[|way| - 1];
       if |way| == |names| + 1 then ip == last
       else ip == 0 && (last !in dirs || IsFound(dirs[last], names[|way| - 1], 0))
  }

  lemma {:induction false} ElemLenJoin(x: str, rest: str)
    requires '/' !in x && (rest == [] || rest[0] == '/')
    ensures ElemLen(x + rest) == |x|
  {
    if x != [] {
      assert (x + rest)[0] == x[0] && (x + rest)[1..] == x[1..] + rest;
      ElemLenJoin(x[1..], rest);
    } else {
      assert x + rest == rest;
    }
  }

  /** Looking names up one after another. */
  function Walk(dirs: map<int, Dir>, ip: int, names: seq<str>): int
    decreases |names|
  {
    if names == [] then ip
    else if ip !in dirs || Lookup(dirs[ip], names[0]) == 0 then 0
    else Walk(dirs, Lookup(dirs[ip], names[0]), names[1..])
  }

  /** Resolving a path is walking its names, whatever slashes are around them. */
  lemma {:induction false} ResolvePadded(dirs: map<int, Dir>, ip: int, pads: seq<nat>, names: seq<str>)
    requires Splits(pads, names)
    ensures Resolve(dirs, ip, Padded(pads, names)) == Walk(dirs, ip, names)
    decreases |names|
  {
    if names == [] {
      assert Slashes(pads[0]) + [] == Slashes(pads[0]);
      SkipPad(pads[0], []);
    } else {
      var x, rest := names[0], Padded(pads[1..], names[1..]);
      SplitsRest(pads, names);
      assert IsName(x) && x[0] in x && (x + rest)[0] == x[0];
      SkipPad(pads[0], x + rest);
      ElemLenJoin(x, rest);
      assert (x + rest)[..|x|] == x && (x + rest)[|x|..] == rest;
      if ip in dirs && Lookup(dirs[ip], x) != 0 {
        ResolvePadded(dirs, Lookup(dirs[ip], x), pads[1..], names[1..]);
      }
    }
  }

  lemma {:induction false} WalkLeads(dirs: map<int, Dir>, ip: int, names: seq<str>) returns (way: seq<int>)
    requires forall i :: 0 <= i < |names| ==> NUL !in names[i]
    ensures LeadsTo(dirs, names, way, Walk(dirs, ip, names)) && way[0] == ip
    decreases |names|
  {
    way := [ip];
    if names != [] && ip in dirs {
      var next, names' := Lookup(dirs[ip], names[0]), names[1..];
      LookupIsFound(dirs[ip], names[0], 0);
      if next != 0 {
        var rest := WalkLeads(dirs, next, names');
        way := [ip] + rest;
        forall k | 0 <= k < |way| - 1 ensures StepDown(dirs, names, way, k) {
          assert k > 0 ==> StepDown(dirs, names', rest, k - 1);
        }
      }
    }
  }

  lemma {:induction false} PaddedClean(pads: seq<nat>, names: seq<str>)
    requires |pads| == |names| + 1 && NUL !in Padded(pads, names)
    ensures forall i :: 0 <= i < |names| ==> NUL !in names[i]
  {
    if names != [] {
      PaddedClean(pads[1..], names[1..]);
    }
  }

  /** What namei() is for, without the functions that compute it: the path is split into
      names, and each is the first used entry with that name of the directory before. */
  lemma ResolveMeans(dirs: map<int, Dir>, ip: int, path: str)
      returns (pads: seq<nat>, names: seq<str>, way: seq<int>)
    requires NUL !in path
    ensures Splits(pads, names) && path == Padded(pads, names)
    ensures LeadsTo(dirs, names, way, Resolve(dirs, ip, path)) && way[0] == ip
  {
    pads, names := SplitExists(path);
    PaddedClean(pads, names);
    ResolvePadded(dirs, ip, pads, names);
    way := WalkLeads(dirs, ip, names);
  }

  lemma RestShorter(path: str)
    requires SkipSlashes(path) != []
    ensures |RestOf(path)| < |path|
  {
    ElemTaken(SkipSlashes(path));
  }

  /** namex() with nameiparent: the directory that the last element is to be looked up in, or
      0. */
  function ParentOf(dirs: map<int, Dir>, ip: int, path: str): int
    decreases |path|
  {
    if SkipSlashes(path) == [] || ip !in dirs then 0
    else if RestOf(path) == [] then ip
    else
      var next := Lookup(dirs[ip], ElemOf(path));
      if next == 0 then 0 else RestShorter(path); ParentOf(dirs, next, RestOf(path))
  }

  function LastElem(path: str): str
    requires SkipSlashes(path) != []
    decreases |path|
  {
    RestShorter(path);
    SkipTwice(SkipSlashes(path)[ElemLen(SkipSlashes(path))..]);
    if RestOf(path) == [] then ElemOf(path) else LastElem(RestOf(path))
  }

  /** namex(): absolute paths from the root, others from cwd; with `parent` it stops one
      level early and leaves the last element in the name buffer. */
  method Namex(dirs: map<int, Dir>, cwd: int, path: str, parent: bool) returns (ip: int, name: Field)
    requires NUL !in path
    ensures var start := if path != [] && path[0] == '/' then ROOT else cwd;
            if !parent then ip == Resolve(dirs, start, path)
            else
              ip == ParentOf(dirs, start, path)
              && (ip != 0 ==> SkipSlashes(path) != [] && Text(name) == LastElem(path))
  {
    ip := if path != [] && path[0] == '/' then ROOT else cwd;
    ghost var start, at := ip, path;
    var more, rest;
    more, rest, name := SkipElem(path, seq(DIRSIZ, _ => NUL));
    while more
      invariant if parent then ParentOf(dirs, start, path) == ParentOf(dirs, ip, at)
                else Resolve(dirs, start, path) == Resolve(dirs, ip, at)
      invariant more <==> SkipSlashes(at) != []
      invariant more ==> SkipSlashes(path) != [] && LastElem(path) == LastElem(at)
      invariant more ==> rest == RestOf(at) && NUL !in rest && Text(name) == ElemOf(at)
      decreases if more then |rest| + 1 else 0
    {
      ResolveStep(dirs, ip, at);
      if ip !in dirs {
        return 0, name;
      }
      if parent && rest == [] {
        return;
      }
      LookupCut(dirs[ip], SkipSlashes(at)[..ElemLen(SkipSlashes(at))]);
      var next := DirLookup(dirs[ip], Text(name));
      if next == 0 {
        return 0, name;
      }
      ip := next;
      at := rest;
      more, rest, name := SkipElem(rest, name);
    }
    ResolveStep(dirs, ip, at);
    if parent {
      ip := 0;
    }
  }

  method Namei(dirs: map<int, Dir>, cwd: int, path: str) returns (ip: int)
    requires NUL !in path
    ensures ip == Resolve(dirs, if path != [] && path[0] == '/' then ROOT else cwd, path)
  {
    var name;
    ip, name := Namex(dirs, cwd, path, false);
  }

  method Nameiparent(dirs: map<int, Dir>, cwd: int, path: str) returns (ip: int, name: Field)
    requires NUL !in path
    ensures ip == ParentOf(dirs, if path != [] && path[0] == '/' then ROOT else cwd, path)
    ensures ip != 0 ==> SkipSlashes(path) != [] && Text(name) == LastElem(path)
  {
    ip, name := Namex(dirs, cwd, path, true);
  }

  lemma {:induction false} RestPadded(pads: seq<nat>, names: seq<str>)
    requires Splits(pads, names) && names != []
    ensures var pads', names' := pads[1..][0 := 0], names[1..];
            && Splits(pads', names') && RestOf(Padded(pads, names)) == Padded(pads', names')
            && ElemOf(Padded(pads, names)) == Cut(names[0]) && SkipSlashes(Padded(pads, names)) != []
            && (Padded(pads', names') == [] <==> names' == [])
  {
    var x, rest := names[0], Padded(pads[1..], names[1..]);
    var pads', names' := pads[1..][0 := 0], names[1..];
    SplitsRest(pads, names);
    assert IsName(x) && x[0] in x && (x + rest)[0] == x[0];
    SkipPad(pads[0], x + rest);
    ElemLenJoin(x, rest);
    assert (x + rest)[..|x|] == x && (x + rest)[|x|..] == rest;
    forall i | 0 < i < |names'| ensures pads'[i] > 0 {
      assert pads'[i] == pads[1..][i];
    }
    assert pads'[1..] == pads[1..][1..];
    if names' == [] {
      assert Slashes(pads[1]) + [] == Slashes(pads[1]);
      SkipPad(pads[1], []);
    } else {
      var y := names'[0];
      assert IsName(y) && y[0] in y;
      SkipPad(pads[1], y + Padded(pads[1..][1..], names'[1..]));
    }
  }

  /** What nameiparent() is for: it walks all names but the last to a directory, and the last
      is in the name buffer; so namei() is looking that up in there. */
  lemma {:induction false} ParentMeans(dirs: map<int, Dir>, ip: int, pads: seq<nat>, names: seq<str>)
    requires Splits(pads, names) && names != [] && 0 !in dirs
    ensures var path, d := Padded(pads, names), Walk(dirs, ip, names[..|names| - 1]);
            && ParentOf(dirs, ip, path) == (if d in dirs then d else 0)
            && SkipSlashes(path) != [] && LastElem(path) == Cut(names[|names| - 1])
            && Resolve(dirs, ip, path) == if d in dirs then Lookup(dirs[d], LastElem(path)) else 0
    decreases |names|
  {
    var path := Padded(pads, names);
    var pads', names' := pads[1..][0 := 0], names[1..];
    RestPadded(pads, names);
    ResolveStep(dirs, ip, path);
    if names' == [] {
      assert names[..|names| - 1] == [];
      if ip in dirs {
        SkipTwice([]);
        ResolveStep(dirs, Lookup(dirs[ip], ElemOf(path)), RestOf(path));
      }
    } else {
      assert names[..|names| - 1][0] == names[0] && names[..|names| - 1][1..] == names'[..|names'| - 1];
      assert names'[|names'| - 1] == names[|names| - 1];
      var next := if ip in dirs then Lookup(dirs[ip], ElemOf(path)) else 0;
      if ip in dirs {
        LookupCut(dirs[ip], names[0]);
      }
      ParentMeans(dirs, next, pads', names');
    }
  }

  // ----- the way up -----

  ghost predicate ParentOk(dirs: map<int, Dir>, rank: map<int, nat>, d: int)
    requires d in dirs && d in rank
  {
    var p := Lookup(dirs[d], "..");
    p != 0 ==> p in dirs && p in rank && (p != d ==> rank[p] < rank[d])
  }

  /** Going up by ".." ends: each parent is a directory of smaller rank, unless it is the
      directory itself. */
  ghost predicate Grounded(dirs: map<int, Dir>, rank: map<int, nat>) {
    0 !in dirs && forall d {:trigger dirs[d]} {:trigger d in dirs} :: d in dirs ==>
        d in rank && ParentOk(dirs, rank, d)
  }

  datatype Trail = Lost | Found(names: seq<str>)

  function Extend(t: Trail, tail: seq<str>): Trail {
    if t.Lost? then Lost else Found(t.names + tail)
  }

  /** The names from the top directory down to d; lost when a ".." or an entry is missing. */
  ghost function TrailOf(dirs: map<int, Dir>, rank: map<int, nat>, d: int): Trail
    requires Grounded(dirs, rank) && d in dirs
    decreases rank[d]
  {
    var p := Lookup(dirs[d], "..");
    if p == 0 then Lost
    else if p == d then Found([])
    else
      var k := IndexOf(dirs[p], d);
      if k == -1 then Lost else Extend(TrailOf(dirs, rank, p), [Text(dirs[p][k].field)])
  }

  /** How many names the way up finds before it ends. */
  ghost function Depth(dirs: map<int, Dir>, rank: map<int, nat>, d: int): nat
    requires Grounded(dirs, rank) && d in dirs
    decreases rank[d]
  {
    var p := Lookup(dirs[d], "..");
    if p == 0 || p == d || IndexOf(dirs[p], d) == -1 then 0 else 1 + Depth(dirs, rank, p)
  }

  lemma {:induction false} TrailDepth(dirs: map<int, Dir>, rank: map<int, nat>, d: int)
    requires Grounded(dirs, rank) && d in dirs
    ensures TrailOf(dirs, rank, d).Found? ==> |TrailOf(dirs, rank, d).names| == Depth(dirs, rank, d)
    decreases rank[d]
  {
    var p := Lookup(dirs[d], "..");
    if p != 0 && p != d {
      TrailDepth(dirs, rank, p);
    }
  }

  /** The first entry with this inode. */
  ghost predicate FirstEntry(dir: Dir, inum: int, e: int) {
    0 <= e < |dir| && dir[e].inum == inum && forall j :: 0 <= j < e ==> dir[j].inum != inum
  }

  /** One level up: ".." leads to another directory, where the first entry for the one below
      is entries[k]. */
  ghost predicate StepUp(dirs: map<int, Dir>, ups: seq<int>, entries: seq<int>, k: int)
    requires 0 <= k < |entries| && |ups| == |entries| + 1
  {
    && ups[k] in dirs && ups[k + 1] in dirs && ups[k + 1] != ups[k] && IsFound(dirs[ups[k]], "..", ups[k + 1])
    && FirstEntry(dirs[ups[k + 1]], ups[k], entries[k])
  }

  ghost predicate NameAt(dirs: map<int, Dir>, ups: seq<int>, entries: seq<int>, names: seq<str>, k: int)
    requires 0 <= k < |entries| == |names| && |ups| == |entries| + 1
  {
    && StepUp(dirs, ups, entries, k)
    && names[|names| - 1 - k] == Text(dirs[ups[k + 1]][entries[k]].field)
  }

  ghost predicate Climbs(dirs: map<int, Dir>, ups: seq<int>, entries: seq<int>) {
    && |ups| == |entries| + 1
    && forall k {:trigger StepUp(dirs, ups, entries, k)} :: 0 <= k < |entries| ==> StepUp(dirs, ups, entries, k)
  }

  /** What the way up finds: it ends at a directory that is its own parent, and the names are
      those of the entries, the topmost first; or at one without "..", or that is in no entry
      of its parent. */
  ghost predicate EndsWith(dirs: map<int, Dir>, ups: seq<int>, entries: seq<int>, t: Trail)
    requires Climbs(dirs, ups, entries) && ups[|entries|] in dirs
  {
    var last := ups[|entries|];
    match t
    case Found(names) =>
      && IsFound(dirs[last], "..", last) && |names| == |entries|
      && forall k {:trigger NameAt(dirs, ups, entries, names, k)} :: 0 <= k < |entries| ==>
           NameAt(dirs, ups, entries, names, k)
    case Lost =>
      || IsFound(dirs[last], "..", 0)
      || exists p :: p in dirs && p != last && IsFound(dirs[last], "..", p)
                     && forall j :: 0 <= j < |dirs[p]| ==> dirs[p][j].inum != last
  }

  lemma StepUpCons(dirs: map<int, Dir>, d: int, e: int, ups: seq<int>, entries: seq<int>, t: Trail)
    requires Climbs(dirs, ups, entries) && ups[|entries|] in dirs && EndsWith(dirs, ups, entries, t)
    requires StepUp(dirs, [d, ups[0]], [e], 0)
    ensures Climbs(dirs, [d] + ups, [e] + entries)
    ensures EndsWith(dirs, [d] + ups, [e] + entries, Extend(t, [Text(dirs[ups[0]][e].field)]))
  {
    var ups', entries' := [d] + ups, [e] + entries;
    forall k | 0 <= k < |entries'| ensures StepUp(dirs, ups', entries', k) {
      assert k > 0 ==> StepUp(dirs, ups, entries, k - 1);
    }
    if t.Found? {
      var names' := Extend(t, [Text(dirs[ups[0]][e].field)]).names;
      forall k | 0 <= k < |entries'| ensures NameAt(dirs, ups', entries', names', k) {
        assert k > 0 ==> NameAt(dirs, ups, entries, t.names, k - 1);
      }
    }
  }

  /** So the trail is what climbing by ".." finds, and Depth its length. */
  lemma {:induction false} TrailMeans(dirs: map<int, Dir>, rank: map<int, nat>, d: int)
      returns (ups: seq<int>, entries: seq<int>)
    requires Grounded(dirs, rank) && d in dirs
    ensures Climbs(dirs, ups, entries) && ups[0] == d && |entries| == Depth(dirs, rank, d)
    ensures ups[|entries|] in dirs && EndsWith(dirs, ups, entries, TrailOf(dirs, rank, d))
    decreases rank[d]
  {
    var p := Lookup(dirs[d], "..");
    LookupIsFound(dirs[d], "..", 0);
    assert ParentOk(dirs, rank, d);
    ups, entries := [d], [];
    if p != 0 && p != d {
      var k := IndexOf(dirs[p], d);
      if k != -1 {
        ups, entries := TrailMeans(dirs, rank, p);
        IndexFirst(dirs[p], d);
        StepUpCons(dirs, d, k, ups, entries, TrailOf(dirs, rank, p));
        ups, entries := [d] + ups, [k] + entries;
      }
    }
  }

  lemma ExtendTwice(t: Trail, a: seq<str>, b: seq<str>)
    ensures Extend(Extend(t, a), b) == Extend(t, a + b)
  {
    if t.Found? {
      assert (t.names + a) + b == t.names + (a + b);
    }
  }

  /** Each name after a slash. */
  function Join(names: seq<str>): str {
    if names == [] then [] else ['/'] + names[0] + Join(names[1..])
  }

  /** What getcwd() writes for these names. */
  function PathOf(names: seq<str>): str {
    if names == [] then ['/'] else Join(names)
  }

  /** One slash before each name and none behind the last. */
  function OneEach(n: nat): seq<nat> {
    seq(n + 1, i => if i < n then 1 else 0)
  }

  lemma {:induction false} JoinIsPadded(names: seq<str>)
    ensures Join(names) == Padded(OneEach(|names|), names)
  {
    if names != [] {
      JoinIsPadded(names[1..]);
      assert OneEach(|names|)[1..] == OneEach(|names| - 1) && Slashes(1) == ['/'];
    }
  }

  lemma {:induction false} JoinSnoc(names: seq<str>, x: str)
    ensures Join(names + [x]) == Join(names) + ['/'] + x
  {
    if names == [] {
      assert [x][1..] == [];
    } else {
      assert (names + [x])[0] == names[0] && (names + [x])[1..] == names[1..] + [x];
      JoinSnoc(names[1..], x);
    }
  }

  lemma {:induction false} JoinLength(names: seq<str>)
    requires forall i :: 0 <= i < |names| ==> |names[i]| <= DIRSIZ
    ensures |Join(names)| <= 15 * |names|
  {
    if names != [] {
      JoinLength(names[1..]);
    }
  }

  /** The texts of components depth - 1 down to i. */
  function Reversed(components: seq<str>, i: nat): seq<str>
    requires i <= |components|
    decreases |components| - i
  {
    if i == |components| then [] else Reversed(components, i + 1) + [Text(components[i])]
  }

  lemma {:induction false} ReversedSnoc(components: seq<str>, c: str, i: nat)
    requires i <= |components|
    ensures Reversed(components + [c], i) == [Text(c)] + Reversed(components, i)
    decreases |components| - i
  {
    if i < |components| {
      ReversedSnoc(components, c, i + 1);
      assert (components + [c])[i] == components[i];
    } else {
      assert Reversed(components + [c], i + 1) == [];
    }
  }

  /** A NUL after the 14 bytes ends a name that fills them. */
  lemma {:induction false} TextEnded(field: str)
    ensures Text(field + [NUL]) == Text(field) && |Text(field)| <= |field|
  {
    if field != [] && field[0] != NUL {
      assert (field + [NUL])[1..] == field[1..] + [NUL];
      TextEnded(field[1..]);
    }
  }

  lemma {:induction false} ReversedShort(components: seq<str>, i: nat)
    requires i <= |components|
    requires forall k :: 0 <= k < |components| ==>
               |components[k]| == DIRSIZ + 1 && components[k][DIRSIZ] == NUL
    ensures |Reversed(components, i)| == |components| - i
    ensures forall k :: 0 <= k < |Reversed(components, i)| ==>
              |Reversed(components, i)[k]| <= DIRSIZ && NUL !in Reversed(components, i)[k]
    decreases |components| - i
  {
    if i < |components| {
      ReversedShort(components, i + 1);
      TextEnded(components[i][..DIRSIZ]);
      assert components[i] == components[i][..DIRSIZ] + [NUL];
    }
  }

  const MAXDEPTH := 32
  const KBUF := 512

  /** The component copied extends the trail. */
  lemma ClimbStep(dirs: map<int, Dir>, rank: map<int, nat>, cur: int, components: seq<str>)
    requires Grounded(dirs, rank) && cur in dirs && Lookup(dirs[cur], "..") !in {0, cur}
    requires IndexOf(dirs[Lookup(dirs[cur], "..")], cur) != -1
    ensures var p := Lookup(dirs[cur], "..");
            var field := dirs[p][IndexOf(dirs[p], cur)].field;
            |field| == DIRSIZ && Extend(TrailOf(dirs, rank, cur), Reversed(components, 0))
                                 == Extend(TrailOf(dirs, rank, p), Reversed(components + [field + [NUL]], 0))
  {
    var p := Lookup(dirs[cur], "..");
    var field := dirs[p][IndexOf(dirs[p], cur)].field;
    TextEnded(field);
    ExtendTwice(TrailOf(dirs, rank, p), [Text(field)], Reversed(components, 0));
    ReversedSnoc(components, field + [NUL], 0);
  }

  lemma {:induction false} FirstIndex(dir: Dir, inum: int, k: nat)
    requires k < |dir| && dir[k].inum == inum && forall j :: 0 <= j < k ==> dir[j].inum != inum
    ensures IndexOf(dir, inum) == k
  {
    if k > 0 {
      FirstIndex(dir[1..], inum, k - 1);
    }
  }

  /** The scan of the parent for an entry with this inode. */
  method Scan(dir: Dir, inum: int) returns (k: int)
    requires inum != 0
    ensures k == IndexOf(dir, inum)
  {
    k := 0;
    while k < |dir|
      invariant 0 <= k <= |dir| && forall j :: 0 <= j < k ==> dir[j].inum != inum
    {
      if dir[k].inum != 0 && dir[k].inum == inum {
        FirstIndex(dir, inum, k);
        return;
      }
      k := k + 1;
    }
    k := -1;
  }

  /** The loop of getcwd(): the components deepest first, each a name and a NUL. */
  method Climb(dirs: map<int, Dir>, cwd: int, ghost rank: map<int, nat>)
    returns (found: bool, components: seq<str>, inside: bool)
    requires Grounded(dirs, rank) && cwd in dirs
    ensures inside <==> Depth(dirs, rank, cwd) <= MAXDEPTH
    ensures inside ==> (found <==> TrailOf(dirs, rank, cwd).Found?)
    ensures inside && found ==>
              TrailOf(dirs, rank, cwd) == Found(Reversed(components, 0)) && |components| <= MAXDEPTH
    ensures forall k :: 0 <= k < |components| ==>
              |components[k]| == DIRSIZ + 1 && components[k][DIRSIZ] == NUL
  {
    var cur := cwd;
    components := [];
    while true
      invariant cur in dirs && |components| <= MAXDEPTH
      invariant Depth(dirs, rank, cwd) == |components| + Depth(dirs, rank, cur)
      invariant TrailOf(dirs, rank, cwd) == Extend(TrailOf(dirs, rank, cur), Reversed(components, 0))
      invariant forall k :: 0 <= k < |components| ==>
                  |components[k]| == DIRSIZ + 1 && components[k][DIRSIZ] == NUL
      decreases rank[cur]
    {
      assert ParentOk(dirs, rank, cur);
      var parent := DirLookup(dirs[cur], "..");
      if parent == 0 {
        return false, components, true;
      }
      if cur == parent {
        assert [] + Reversed(components, 0) == Reversed(components, 0);
        return true, components, true;
      }
      var k := Scan(dirs[parent], cur);
      if k == -1 {
        return false, components, true;
      }
      if |components| == MAXDEPTH {
        return false, components, false;
      }
      var field := dirs[parent][k].field;
      ClimbStep(dirs, rank, cur, components);
      components := components + [field + [NUL]];
      cur := parent;
    }
  }

  /** One slash and one name. */
  method Append(kbuf: array<char>, len: int, name: str) returns (len': int)
    requires kbuf.Length == KBUF && 0 <= len && len + 1 + |name| <= KBUF
    modifies kbuf
    ensures len' == len + 1 + |name| && kbuf[..len'] == old(kbuf[..len]) + ['/'] + name
  {
    kbuf[len] := '/';
    len' := len + 1;
    var j := 0;
    while j < |name|
      invariant 0 <= j <= |name| && kbuf[..len' + j] == old(kbuf[..len]) + ['/'] + name[..j]
    {
      kbuf[len' + j] := name[j];
      j := j + 1;
    }
    len' := len' + |name|;
  }

  /** Builds the path in kbuf, with its NUL; every index stays inside. */
  method Build(kbuf: array<char>, components: seq<str>) returns (len: int)
    requires kbuf.Length == KBUF && |components| <= MAXDEPTH
    requires forall k :: 0 <= k < |components| ==>
               |components[k]| == DIRSIZ + 1 && components[k][DIRSIZ] == NUL
    modifies kbuf
    ensures |Reversed(components, 0)| == |components|
    ensures forall k :: 0 <= k < |components| ==>
              |Reversed(components, 0)[k]| <= DIRSIZ && NUL !in Reversed(components, 0)[k]
    ensures 0 < len <= KBUF && kbuf[..len] == PathOf(Reversed(components, 0)) + [NUL]
  {
    ReversedShort(components, 0);
    if |components| == 0 {
      kbuf[0] := '/';
      kbuf[1] := NUL;
      return 2;
    }
    len := 0;
    var i := |components| - 1;
    while i >= 0
      invariant -1 <= i < |components| && 0 <= len <= 15 * (|components| - 1 - i)
      invariant kbuf[..len] == Join(Reversed(components, i + 1))
    {
      JoinSnoc(Reversed(components, i + 1), Text(components[i]));
      ReversedShort(components, i);
      ghost var done := kbuf[..len];
      assert Reversed(components, i) == Reversed(components, i + 1) + [Text(components[i])];
      assert Reversed(components, i)[|components| - 1 - i] == Text(components[i]);
      len := Append(kbuf, len, Text(components[i]));
      assert kbuf[..len] == done + ['/'] + Text(components[i]);
      i := i - 1;
    }
    kbuf[len] := NUL;
    len := len + 1;
  }

  /** Names without NUL make a path without NUL. */
  lemma {:induction false} JoinClean(names: seq<str>)
    requires forall i :: 0 <= i < |names| ==> NUL !in names[i]
    ensures NUL !in Join(names)
  {
    if names != [] {
      JoinClean(names[1..]);
    }
  }

  lemma PathClean(names: seq<str>)
    requires forall i :: 0 <= i < |names| ==> NUL !in names[i]
    ensures NUL !in PathOf(names)
  {
    JoinClean(names);
  }

  /** sys_getcwd(): walks up collecting names, and writes them top down; fails when the way
      up is lost, the user's buffer is smaller than the path and its NUL, or copyout() fails.
      It stays inside components[] exactly for directories at most 32 deep; where it would
      write past the end, the model stops. */
  method Getcwd(dirs: map<int, Dir>, cwd: int, size: int, copies: bool, ghost rank: map<int, nat>)
    returns (ok: bool, path: str, inside: bool)
    requires Grounded(dirs, rank) && cwd in dirs
    ensures inside <==> Depth(dirs, rank, cwd) <= MAXDEPTH
    ensures inside && TrailOf(dirs, rank, cwd).Lost? ==> !ok
    ensures inside && TrailOf(dirs, rank, cwd).Found? ==>
              && |PathOf(TrailOf(dirs, rank, cwd).names)| + 1 <= 481
              && (ok <==> |PathOf(TrailOf(dirs, rank, cwd).names)| + 1 <= size && copies)
              && (ok ==> path == PathOf(TrailOf(dirs, rank, cwd).names))
    ensures inside && ok ==>
              var names := TrailOf(dirs, rank, cwd).names;
              path == if names == [] then "/" else Padded(OneEach(|names|), names)
    ensures NUL !in path
  {
    var found, components;
    found, components, inside := Climb(dirs, cwd, rank);
    if !found || !inside {
      return false, [], inside;
    }
    ghost var names := Reversed(components, 0);
    var kbuf := new char[KBUF](_ => NUL);
    var len := Build(kbuf, components);
    JoinLength(names);
    assert names == [] <==> components == [];
    if len > size || !copies {
      return false, [], true;
    }
    PathClean(names);
    JoinIsPadded(names);
    path := kbuf[..len - 1];
    ok := true;
  }

  // ----- the round trip -----

  /** A name that resolution can take from a path whole. */
  predicate IsElem(name: str) {
    0 < |name| <= DIRSIZ && '/' !in name
  }

  ghost predicate ElemNames(dir: Dir) {
    forall k {:trigger dir[k]} :: 0 <= k < |dir| && dir[k].inum != 0 ==> IsElem(Text(dir[k].field))
  }

  ghost predicate Entered(dirs: map<int, Dir>, d: int)
    requires d in dirs
  {
    var p := Lookup(dirs[d], "..");
    p in dirs && (p == d <==> d == ROOT) && (d != ROOT ==> IndexOf(dirs[p], d) >= 0)
  }

  ghost predicate DirOk(dirs: map<int, Dir>, d: int)
    requires d in dirs
  {
    UniqueNames(dirs[d]) && ElemNames(dirs[d]) && Entered(dirs, d)
  }

  /** The directories form a tree below ROOT: only ROOT is its own parent, every other
      directory is entered in its parent, and in each directory the names in use differ
      and are proper elements. */
  ghost predicate Tree(dirs: map<int, Dir>, rank: map<int, nat>) {
    && Grounded(dirs, rank) && ROOT in dirs
    && forall d {:trigger DirOk(dirs, d)} :: d in dirs ==> DirOk(dirs, d)
  }

  /** Resolving a joined path is walking its names. */
  lemma ResolveJoin(dirs: map<int, Dir>, ip: int, names: seq<str>)
    requires forall i :: 0 <= i < |names| ==> IsElem(names[i])
    ensures Resolve(dirs, ip, Join(names)) == Walk(dirs, ip, names)
  {
    JoinIsPadded(names);
    ResolvePadded(dirs, ip, OneEach(|names|), names);
  }

  lemma {:induction false} WalkSnoc(dirs: map<int, Dir>, ip: int, names: seq<str>, x: str)
    requires Walk(dirs, ip, names) != 0 && Walk(dirs, ip, names) in dirs
    ensures Walk(dirs, ip, names + [x]) == Lookup(dirs[Walk(dirs, ip, names)], x)
    decreases |names|
  {
    if names == [] {
      assert [x][1..] == [];
    } else {
      assert (names + [x])[0] == names[0] && (names + [x])[1..] == names[1..] + [x];
      WalkSnoc(dirs, Lookup(dirs[ip], names[0]), names[1..], x);
    }
  }

  /** In a tree the way up is never lost, and walking back down its names returns. */
  lemma {:induction false} TrailWalks(dirs: map<int, Dir>, rank: map<int, nat>, d: int)
    requires Tree(dirs, rank) && d in dirs
    ensures TrailOf(dirs, rank, d).Found? && Walk(dirs, ROOT, TrailOf(dirs, rank, d).names) == d
    ensures forall i :: 0 <= i < |TrailOf(dirs, rank, d).names| ==> IsElem(TrailOf(dirs, rank, d).names[i])
    decreases rank[d]
  {
    var p := Lookup(dirs[d], "..");
    assert DirOk(dirs, d) && ParentOk(dirs, rank, d) && d != 0;
    if p != d {
      TrailWalks(dirs, rank, p);
      var k := IndexOf(dirs[p], d);
      assert DirOk(dirs, p);
      var x := Text(dirs[p][k].field);
      LookupFinds(dirs[p], k);
      WalkSnoc(dirs, ROOT, TrailOf(dirs, rank, p).names, x);
    }
  }

  lemma PathResolves(dirs: map<int, Dir>, names: seq<str>)
    requires forall i :: 0 <= i < |names| ==> IsElem(names[i])
    ensures Resolve(dirs, ROOT, PathOf(names)) == Walk(dirs, ROOT, names)
    ensures PathOf(names)[0..1] == ['/']
  {
    ResolveJoin(dirs, ROOT, names);
    if names == [] {
      assert SkipSlashes(['/']) == SkipSlashes([]);
    }
  }

  /** The round trip: in a tree, the path getcwd() builds for a directory resolves, from
      anywhere, to that directory. */
  lemma GetcwdResolves(dirs: map<int, Dir>, rank: map<int, nat>, d: int)
    requires Tree(dirs, rank) && d in dirs
    ensures TrailOf(dirs, rank, d).Found?
    ensures PathOf(TrailOf(dirs, rank, d).names)[0..1] == ['/']
    ensures Resolve(dirs, ROOT, PathOf(TrailOf(dirs, rank, d).names)) == d
    ensures |TrailOf(dirs, rank, d).names| == Depth(dirs, rank, d)
  {
    TrailDepth(dirs, rank, d);
    TrailWalks(dirs, rank, d);
    PathResolves(dirs, TrailOf(dirs, rank, d).names);
  }

  /** The round trip as calls: in a tree, what namei() makes of the path that getcwd() gave is
      the directory it was asked for, whatever the current directory is by then. */
  method GetcwdThenNamei(dirs: map<int, Dir>, cwd: int, size: int, copies: bool, later: int, ghost rank: map<int, nat>)
    returns (ok: bool, ip: int)
    requires Tree(dirs, rank) && cwd in dirs
    ensures Depth(dirs, rank, cwd) <= MAXDEPTH && 481 <= size && copies ==> ok
    ensures ok ==> ip == cwd
  {
    var path, inside;
    ok, path, inside := Getcwd(dirs, cwd, size, copies, rank);
    GetcwdResolves(dirs, rank, cwd);
    ip := 0;
    if ok && inside {
      assert path[0] == path[0..1][0];
      ip := Namei(dirs, later, path);
    } else {
      ok := false;
    }
  }
}
