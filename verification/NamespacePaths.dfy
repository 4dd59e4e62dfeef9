/**
 The two walks of internal/rpc/operator.go between a directory inode and its
 path: GetInodePath climbs parent links and joins the names it finds,
 GetDirPathInodeId splits a path and descends.
 */
module NamespacePaths {
  import opened Decimal
  import opened Paths

  datatype Kind = DirectoryKind | OtherKind

  datatype Dentry = Dentry(name: string, ino: nat, kind: Kind)

  /** `Panicked`: the first of no parents is asked for. */
  datatype Error = NotFound | NotDirectory | Panicked

  datatype Result<T> = Ok(value: T) | Err(error: Error)

  /** What the servers answer: directory listings and parent lists.  An inode
      that is in neither map is one the RPC fails for. */
  datatype Namespace = Namespace(dirs: map<nat, seq<Dentry>>, parents: map<nat, seq<nat>>)

  const ROOT: nat := 1

  function Find(es: seq<Dentry>, name: string): Result<Dentry> {
    if es == [] then Err(NotFound)
    else if es[0].name == name then Ok(es[0])
    else Find(es[1..], name)
  }

  function GetDentry(ns: Namespace, parent: nat, name: string): Result<Dentry> {
    if parent in ns.dirs then Find(ns.dirs[parent], name) else Err(NotFound)
  }

  function ListDentry(ns: Namespace, ino: nat): Result<seq<Dentry>> {
    if ino in ns.dirs then Ok(ns.dirs[ino]) else Err(NotFound)
  }

  function GetInode(ns: Namespace, ino: nat): Result<seq<nat>> {
    if ino in ns.parents then Ok(ns.parents[ino]) else Err(NotFound)
  }

  // ----------------------------------------------------------- path to inode

  function Descend(ns: Namespace, ino: nat, cs: seq<string>): Result<nat>
    decreases |cs|
  {
    if cs == [] then Ok(ino)
    else
      match GetDentry(ns, ino, cs[0])
      case Err(e) => Err(e)
      case Ok(d) => if d.kind.DirectoryKind? then Descend(ns, d.ino, cs[1..]) else Err(NotDirectory)
  }

  method GetDirPathInodeId(ns: Namespace, path: string) returns (r: Result<nat>)
    ensures r == Descend(ns, ROOT, Components(path))
  {
    if path == "/" {
      ComponentsOfRooted([]);
      assert "/" + Join([]) == "/";
      return Ok(ROOT);
    }
    var inodeId := ROOT;
    var rest := path;
    while rest != ""
      invariant Descend(ns, inodeId, Components(rest)) == Descend(ns, ROOT, Components(path))
      decreases |rest|
    {
      var names := SplitTwo(rest);
      ghost var later := if |names| == 2 then Components(names[1]) else [];
      assert [] + later == later;
      if names[0] != "" {
        assert Components(rest) == [names[0]] + later;
        var dentry := GetDentry(ns, inodeId, names[0]);
        if dentry.Err? {
          return Err(dentry.error);
        }
        if !dentry.value.kind.DirectoryKind? {
          return Err(NotDirectory);
        }
        assert ([names[0]] + later)[1..] == later;
        inodeId := dentry.value.ino;
      }
      if |names| == 1 {
        return Ok(inodeId);
      }
      rest := names[1];
    }
    r := Ok(inodeId);
  }

  // ----------------------------------------------------------- inode to path

  /** First-parent links lead towards the root. */
  ghost predicate Climbable(ns: Namespace, depth: nat -> nat) {
    forall i :: i in ns.parents && i != ROOT && ns.parents[i] != [] ==> depth(ns.parents[i][0]) < depth(i)
  }

  /** The name of `ino` in a listing; none if it is not listed. */
  function NameOf(es: seq<Dentry>, ino: nat): seq<string> {
    if es == [] then [] else if es[0].ino == ino then [es[0].name] else NameOf(es[1..], ino)
  }

  /** A climb so far: the names met and the inodes they belong to, as text. */
  datatype Trail = Trail(names: seq<string>, inodes: seq<string>)

  /** What a climb collects from `ino` upwards, lowest first. */
  ghost function Climb(ns: Namespace, depth: nat -> nat, ino: nat): Result<Trail>
    requires Climbable(ns, depth)
    decreases depth(ino)
  {
    if ino == ROOT then Ok(Trail([], []))
    else
      match GetInode(ns, ino)
      case Err(e) => Err(e)
      case Ok(parents) =>
        if parents == [] then Err(Panicked)
        else
          match ListDentry(ns, parents[0])
          case Err(e) => Err(e)
          case Ok(es) =>
            var name := NameOf(es, ino);
            match Climb(ns, depth, parents[0])
            case Err(e) => Err(e)
            case Ok(t) => Ok(Trail(name + t.names, (if name == [] then [] else [Itoa(ino)]) + t.inodes))
  }

  function Reversed<T>(s: seq<T>): (r: seq<T>)
    ensures |r| == |s|
    ensures forall i :: 0 <= i < |s| ==> r[i] == s[|s| - 1 - i]
  {
    seq(|s|, i requires 0 <= i < |s| => s[|s| - 1 - i])
  }

  /** The path and the chain of inodes from the root that GetInodePath reports.
      path.Join leaves joined numbers as they are. */
  ghost function PathOf(ns: Namespace, depth: nat -> nat, ino: nat): Result<(string, string)>
    requires Climbable(ns, depth)
  {
    if ino == ROOT then Ok(("/", Itoa(ROOT)))
    else
      match Climb(ns, depth, ino)
      case Err(e) => Err(e)
      case Ok(t) =>
        if t.names == [] then Ok(("", ""))
        else Ok((PathJoin(["/"] + Reversed(t.names)), Join([Itoa(ROOT)] + Reversed(t.inodes))))
  }

  /** The closure `reverse`: swaps from both ends inwards. */
  method Reverse<T>(s: array<T>)
    modifies s
    ensures s[..] == Reversed(old(s[..]))
  {
    var i, j := 0, s.Length - 1;
    while i < j
      invariant 0 <= i && i + j == s.Length - 1 && i <= j + 1
      invariant forall k :: 0 <= k < i || j < k < s.Length ==> s[k] == old(s[s.Length - 1 - k])
      invariant forall k :: i <= k <= j ==> s[k] == old(s[k])
    {
      s[i], s[j] := s[j], s[i];
      i, j := i + 1, j - 1;
    }
  }

  /** Adds the root to a list collected bottom up and turns the list round. */
  method RootFirst<T(0)>(list: seq<T>, root: T) returns (r: seq<T>)
    ensures r == [root] + Reversed(list)
  {
    var a := new T[|list| + 1](k requires 0 <= k <= |list| => if k < |list| then list[k] else root);
    assert a[..] == list + [root];
    assert Reversed(list + [root]) == [root] + Reversed(list);
    Reverse(a);
    r := a[..];
  }

  /** The inner loop: the first listed entry with this inode, if any. */
  method FindEntry(es: seq<Dentry>, ino: nat) returns (name: seq<string>)
    ensures name == NameOf(es, ino)
  {
    var i := 0;
    while i < |es|
      invariant 0 <= i <= |es|
      invariant NameOf(es[i..], ino) == NameOf(es, ino)
    {
      if es[i].ino == ino {
        return [es[i].name];
      }
      assert es[i..][1..] == es[i + 1..];
      i := i + 1;
    }
    name := [];
  }

  /** The climbing loop. */
  method CollectNames(ns: Namespace, start: nat, ghost depth: nat -> nat) returns (r: Result<Trail>)
    requires Climbable(ns, depth)
    ensures r == Climb(ns, depth, start)
  {
    var inodeId := start;
    var t := Trail([], []);
    BelowNothing(Climb(ns, depth, start));
    while inodeId != ROOT
      invariant Climb(ns, depth, start) == Below(t, Climb(ns, depth, inodeId))
      decreases depth(inodeId)
    {
      var inode := GetInode(ns, inodeId);
      if inode.Err? {
        return Err(inode.error);
      }
      if inode.value == [] {
        return Err(Panicked);
      }
      var parentId := inode.value[0];
      var entries := ListDentry(ns, parentId);
      if entries.Err? {
        return Err(entries.error);
      }
      var name := FindEntry(entries.value, inodeId);
      BelowStep(t, name, Itoa(inodeId), Climb(ns, depth, parentId));
      t := Trail(t.names + name, t.inodes + if name == [] then [] else [Itoa(inodeId)]);
      inodeId := parentId;
    }
    assert t.names + [] == t.names && t.inodes + [] == t.inodes;
    r := Ok(t);
  }

  method GetInodePath(ns: Namespace, start: nat, ghost depth: nat -> nat) returns (r: Result<(string, string)>)
    requires Climbable(ns, depth)
    ensures r == PathOf(ns, depth, start)
  {
    if start == ROOT {
      return Ok(("/", Itoa(ROOT)));
    }
    var climb := CollectNames(ns, start, depth);
    if climb.Err? {
      return Err(climb.error);
    }
    if climb.value.names == [] { // the directory may have been deleted
      return Ok(("", ""));
    }
    var names := RootFirst(climb.value.names, "/");
    var inodes := RootFirst(climb.value.inodes, Itoa(ROOT));
    r := Ok((PathJoin(names), Join(inodes)));
  }

  /** A climb resumed above what has been collected so far. */
  ghost function Below(t: Trail, upper: Result<Trail>): Result<Trail> {
    match upper
    case Err(e) => Err(e)
    case Ok(u) => Ok(Trail(t.names + u.names, t.inodes + u.inodes))
  }

  lemma BelowNothing(upper: Result<Trail>)
    ensures Below(Trail([], []), upper) == upper
  {
    if upper.Ok? {
      assert [] + upper.value.names == upper.value.names && [] + upper.value.inodes == upper.value.inodes;
    }
  }

  lemma BelowStep(t: Trail, name: seq<string>, ino: string, upper: Result<Trail>)
    ensures var own := if name == [] then [] else [ino];
      Below(t, Below(Trail(name, own), upper)) == Below(Trail(t.names + name, t.inodes + own), upper)
  {
    if upper.Ok? {
      var own := if name == [] then [] else [ino];
      assert t.names + (name + upper.value.names) == (t.names + name) + upper.value.names;
      assert t.inodes + (own + upper.value.inodes) == (t.inodes + own) + upper.value.inodes;
    }
  }

  // -------------------------------------------------------------- round trips

  /** Listings and parent links agree: every directory but the root is listed in
      its first parent, as a directory, under one name that is its own there. */
  ghost predicate WellFormed(ns: Namespace) {
    && ROOT in ns.dirs
    && (forall p, e {:trigger OwnName(ns, p, e)} :: p in ns.dirs && e in ns.dirs[p] ==> OwnName(ns, p, e))
    && (forall p, e {:trigger Listed(ns, p, e)} :: p in ns.dirs && e in ns.dirs[p] && e.kind.DirectoryKind? ==>
          Listed(ns, p, e))
    && (forall d {:trigger HasEntry(ns, d)} :: d in ns.dirs && d != ROOT ==> HasEntry(ns, d))
  }

  ghost predicate OwnName(ns: Namespace, p: nat, e: Dentry)
    requires p in ns.dirs
  {
    Name(e.name) && Find(ns.dirs[p], e.name) == Ok(e)
  }

  ghost predicate HasEntry(ns: Namespace, d: nat) {
    exists p, e :: p in ns.dirs && e in ns.dirs[p] && e.kind.DirectoryKind? && e.ino == d
  }

  ghost predicate Listed(ns: Namespace, p: nat, e: Dentry)
    requires p in ns.dirs
  {
    && e.ino in ns.dirs && e.ino != ROOT
    && e.ino in ns.parents && ns.parents[e.ino] != [] && ns.parents[e.ino][0] == p
    && NameOf(ns.dirs[p], e.ino) == [e.name]
  }

  lemma {:induction false} DescendSnoc(ns: Namespace, ino: nat, cs: seq<string>, c: string)
    ensures var d := Descend(ns, ino, cs);
      Descend(ns, ino, cs + [c]) == if d.Ok? then Descend(ns, d.value, [c]) else d
    decreases |cs|
  {
    if cs == [] {
      assert [] + [c] == [c];
    } else {
      assert (cs + [c])[0] == cs[0] && (cs + [c])[1..] == cs[1..] + [c];
      var g := GetDentry(ns, ino, cs[0]);
      if g.Ok? && g.value.kind.DirectoryKind? {
        DescendSnoc(ns, g.value.ino, cs[1..], c);
      }
    }
  }

  lemma ReversedCons<T>(x: T, s: seq<T>)
    ensures Reversed([x] + s) == Reversed(s) + [x]
  {
  }

  /** Climbing from a directory and descending by what was met leads back to it. */
  lemma {:induction false} ClimbThenDescend(ns: Namespace, depth: nat -> nat, d: nat) returns (t: Trail)
    requires WellFormed(ns) && Climbable(ns, depth) && d in ns.dirs
    ensures Climb(ns, depth, d) == Ok(t)
    ensures forall c :: c in t.names ==> Name(c)
    ensures Descend(ns, ROOT, Reversed(t.names)) == Ok(d)
    ensures d != ROOT ==> t.names != []
    decreases depth(d)
  {
    if d == ROOT {
      t := Trail([], []);
    } else {
      assert HasEntry(ns, d);
      var p, e :| p in ns.dirs && e in ns.dirs[p] && e.kind.DirectoryKind? && e.ino == d;
      assert Listed(ns, p, e) && OwnName(ns, p, e);
      var u := ClimbThenDescend(ns, depth, p);
      t := Trail([e.name] + u.names, [Itoa(d)] + u.inodes);
      ReversedCons(e.name, u.names);
      DescendSnoc(ns, ROOT, Reversed(u.names), e.name);
    }
  }

  lemma FindFinds(es: seq<Dentry>, name: string)
    ensures Find(es, name).Ok? ==> Find(es, name).value in es && Find(es, name).value.name == name
  {
  }

  /** Descending by components and climbing back meets the same names. */
  lemma {:induction false} DescendThenClimb(ns: Namespace, depth: nat -> nat, cs: seq<string>, d: nat)
    requires WellFormed(ns) && Climbable(ns, depth)
    requires Descend(ns, ROOT, cs) == Ok(d)
    ensures d in ns.dirs
    ensures Climb(ns, depth, d).Ok? && Climb(ns, depth, d).value.names == Reversed(cs)
    decreases |cs|
  {
    if cs != [] {
      var k := |cs| - 1;
      assert cs == cs[..k] + [cs[k]];
      DescendSnoc(ns, ROOT, cs[..k], cs[k]);
      var p := Descend(ns, ROOT, cs[..k]).value;
      DescendThenClimb(ns, depth, cs[..k], p);
      FindFinds(ns.dirs[p], cs[k]);
      var e := GetDentry(ns, p, cs[k]).value;
      assert Listed(ns, p, e);
      assert Reversed(cs) == [cs[k]] + Reversed(cs[..k]);
    }
  }

  lemma ReversedTwice<T>(s: seq<T>)
    ensures Reversed(Reversed(s)) == s
    ensures forall x :: x in Reversed(s) <==> x in s
  {
    forall x | x in s ensures x in Reversed(s) {
      var i :| 0 <= i < |s| && s[i] == x;
      assert Reversed(s)[|s| - 1 - i] == x;
    }
  }

  /** For every directory, the path reported for its inode parses back to the inode
      exactly when no directory on the way is called "." or "..": path.Join
      interprets those two names. */
  lemma InodePathInode(ns: Namespace, depth: nat -> nat, d: nat)
    requires WellFormed(ns) && Climbable(ns, depth) && d in ns.dirs
    ensures Climb(ns, depth, d).Ok? && PathOf(ns, depth, d).Ok?
    ensures Descend(ns, ROOT, Components(PathOf(ns, depth, d).value.0)) == Ok(d)
      <==> NoDots(Climb(ns, depth, d).value.names)
  {
    var t := ClimbThenDescend(ns, depth, d);
    ReversedTwice(t.names);
    PathJoinNames(Reversed(t.names));
    if d == ROOT {
      ComponentsOfRooted([]);
      assert "/" + Join([]) == "/";
    } else if Descend(ns, ROOT, Dots([], Reversed(t.names))) == Ok(d) {
      OnlyWay(ns, depth, Dots([], Reversed(t.names)), d);
    }
  }

  /** The names met on the climb are the only ones that lead to a directory. */
  lemma OnlyWay(ns: Namespace, depth: nat -> nat, cs: seq<string>, d: nat)
    requires WellFormed(ns) && Climbable(ns, depth) && Descend(ns, ROOT, cs) == Ok(d)
    ensures Climb(ns, depth, d).Ok? && cs == Reversed(Climb(ns, depth, d).value.names)
  {
    DescendThenClimb(ns, depth, cs, d);
    ReversedTwice(cs);
  }

  /** For every path that leads to a directory, the path reported for the inode it
      parses to is that path with redundant slashes removed, provided it has no
      "." or ".." component. */
  lemma PathInodePath(ns: Namespace, depth: nat -> nat, path: string, d: nat)
    requires WellFormed(ns) && Climbable(ns, depth)
    requires Descend(ns, ROOT, Components(path)) == Ok(d)
    ensures PathOf(ns, depth, d).Ok?
    ensures PathOf(ns, depth, d).value.0 == Normal(path) <==> NoDots(Components(path))
  {
    var cs := Components(path);
    DescendThenClimb(ns, depth, cs, d);
    var t := ClimbThenDescend(ns, depth, d);
    ReversedTwice(cs);
    PathJoinNames(cs);
    assert d == ROOT ==> cs == [];
  }

  lemma ParentOf(ns: Namespace, d: nat)
    requires WellFormed(ns) && d in ns.dirs && d != ROOT
    ensures d in ns.parents && ns.parents[d] != [] && ns.parents[d][0] in ns.dirs
    ensures |NameOf(ns.dirs[ns.parents[d][0]], d)| == 1
  {
    assert HasEntry(ns, d);
    var p, e :| p in ns.dirs && e in ns.dirs[p] && e.kind.DirectoryKind? && e.ino == d;
    assert Listed(ns, p, e);
  }

  /** The inodes from a directory up to the root, without the root. */
  ghost function Ancestors(ns: Namespace, depth: nat -> nat, d: nat): (a: seq<nat>)
    requires WellFormed(ns) && Climbable(ns, depth) && d in ns.dirs
    decreases depth(d)
  {
    if d == ROOT then []
    else
      ParentOf(ns, d);
      [d] + Ancestors(ns, depth, ns.parents[d][0])
  }

  function Texts(inodes: seq<nat>): seq<string> {
    if inodes == [] then [] else [Itoa(inodes[0])] + Texts(inodes[1..])
  }

  lemma {:induction false} TextsAreNames(inodes: seq<nat>)
    ensures forall c :: c in Texts(inodes) ==> Name(c)
  {
    if inodes != [] {
      ItoaDigits(inodes[0]);
      TextsAreNames(inodes[1..]);
    }
  }

  lemma {:induction false} ClimbMeetsAncestors(ns: Namespace, depth: nat -> nat, d: nat)
    requires WellFormed(ns) && Climbable(ns, depth) && d in ns.dirs
    ensures Climb(ns, depth, d).Ok? && Climb(ns, depth, d).value.inodes == Texts(Ancestors(ns, depth, d))
    decreases depth(d)
  {
    if d != ROOT {
      ParentOf(ns, d);
      ClimbMeetsAncestors(ns, depth, ns.parents[d][0]);
      var a := Ancestors(ns, depth, d);
      assert a[0] == d && a[1..] == Ancestors(ns, depth, ns.parents[d][0]);
    }
  }

  /** The second result lists the inodes from the root to the directory. */
  lemma InodeChain(ns: Namespace, depth: nat -> nat, d: nat)
    requires WellFormed(ns) && Climbable(ns, depth) && d in ns.dirs
    ensures PathOf(ns, depth, d).Ok?
    ensures Components(PathOf(ns, depth, d).value.1) == [Itoa(ROOT)] + Reversed(Texts(Ancestors(ns, depth, d)))
  {
    var t := ClimbThenDescend(ns, depth, d);
    ClimbMeetsAncestors(ns, depth, d);
    ItoaDigits(ROOT);
    TextsAreNames(Ancestors(ns, depth, d));
    ReversedTwice(Texts(Ancestors(ns, depth, d)));
    var chain := [Itoa(ROOT)] + Reversed(Texts(Ancestors(ns, depth, d)));
    ComponentsOfJoin(chain);
    if d == ROOT {
      assert chain == [Itoa(ROOT)];
    }
  }

  const DOTS := Namespace(map[1 := [Dentry("..", 2, DirectoryKind)], 2 := []], map[2 := [1]])

  lemma DotsIsWellFormed(depth: nat -> nat)
    requires depth(1) < depth(2)
    ensures WellFormed(DOTS) && Climbable(DOTS, depth)
  {
    var e := Dentry("..", 2, DirectoryKind);
    assert DOTS.dirs[1] == [e] && [e][0] == e && DOTS.dirs[2] == [];
    assert HasEntry(DOTS, 2) by { assert e in DOTS.dirs[1]; }
  }

  /** A directory called "..": its path is reported as that of the root. */
  lemma DotsMislead(depth: nat -> nat)
    requires depth(1) < depth(2)
    ensures WellFormed(DOTS) && Climbable(DOTS, depth)
    ensures PathOf(DOTS, depth, 2).Ok? && PathOf(DOTS, depth, 2).value.0 == "/"
    ensures Descend(DOTS, ROOT, Components("/")) == Ok(1)
  {
    DotsIsWellFormed(depth);
    var t := ClimbThenDescend(DOTS, depth, 2);
    assert t.names == [".."] by {
      assert Climb(DOTS, depth, 1) == Ok(Trail([], []));
      assert NameOf(DOTS.dirs[1], 2) == [".."] && [".."] + [] == [".."];
    }
    assert Reversed([".."]) == [".."] && ["/"] + [".."] == ["/", ".."];
    assert [".."][1..] == [];
    ComponentsOfElems([".."]);
    ComponentsOfRooted([]);
    assert "/" + Join([]) == "/";
  }
}
