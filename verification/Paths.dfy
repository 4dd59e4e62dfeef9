/**
 Slash-separated paths as internal/rpc/operator.go uses them: strings.SplitN with
 a limit of two, and path.Join of a list that starts with "/".
 */
module Paths {

  /** Position of the first slash, or the length of the text. */
  function Slash(p: string): (i: nat)
    ensures i <= |p| && '/' !in p[..i]
    ensures i < |p| ==> p[i] == '/'
  {
    if p == "" || p[0] == '/' then 0 else 1 + Slash(p[1..])
  }

  /** strings.SplitN(p, "/", 2) */
  function SplitTwo(p: string): (parts: seq<string>)
    ensures 1 <= |parts| <= 2
    ensures |parts| == 2 ==> |parts[1]| < |p|
  {
    var i := Slash(p);
    if i < |p| then [p[..i], p[i + 1..]] else [p]
  }

  predicate Name(s: string) {
    s != "" && '/' !in s
  }

  /** The non-empty parts between slashes. */
  function Components(p: string): (cs: seq<string>)
    ensures forall c :: c in cs ==> Name(c)
    decreases |p|
  {
    if p == "" then []
    else
      var parts := SplitTwo(p);
      (if parts[0] == "" then [] else [parts[0]]) + if |parts| == 2 then Components(parts[1]) else []
  }

  function Join(cs: seq<string>): string {
    if cs == [] then "" else if |cs| == 1 then cs[0] else cs[0] + "/" + Join(cs[1..])
  }

  /** How path.Clean treats the components of a rooted path. */
  function Dots(done: seq<string>, cs: seq<string>): seq<string>
    decreases |cs|
  {
    if cs == [] then done
    else if cs[0] == "." then Dots(done, cs[1..])
    else if cs[0] == ".." then Dots(if done == [] then [] else done[..|done| - 1], cs[1..])
    else Dots(done + [cs[0]], cs[1..])
  }

  function CleanRooted(p: string): string {
    "/" + Join(Dots([], Components(p)))
  }

  /** path.Join of elements the first of which is "/". */
  function PathJoin(elems: seq<string>): string {
    CleanRooted(Join(elems))
  }

  /** A path with redundant slashes removed. */
  function Normal(p: string): string {
    "/" + Join(Components(p))
  }

  predicate NoDots(cs: seq<string>) {
    "." !in cs && ".." !in cs
  }

  // -------------------------------------------------------------- properties

  lemma {:induction false} SlashAfter(c: string, rest: string)
    requires '/' !in c
    ensures Slash(c + "/" + rest) == |c| && Slash(c) == |c|
  {
    if c != "" {
      assert (c + "/" + rest)[1..] == c[1..] + "/" + rest;
      SlashAfter(c[1..], rest);
    }
  }

  lemma ComponentsOfOne(c: string)
    requires Name(c)
    ensures Components(c) == [c]
  {
    SlashAfter(c, "");
  }

  lemma ComponentsAfter(c: string, rest: string)
    requires '/' !in c
    ensures Components(c + "/" + rest) == (if c == "" then [] else [c]) + Components(rest)
  {
    var p := c + "/" + rest;
    SlashAfter(c, rest);
    assert p[..|c|] == c && p[|c| + 1..] == rest;
  }

  /** Joining names and taking them apart again. */
  lemma {:induction false} ComponentsOfJoin(cs: seq<string>)
    requires forall c :: c in cs ==> Name(c)
    ensures Components(Join(cs)) == cs
  {
    if |cs| == 1 {
      ComponentsOfOne(cs[0]);
    } else if |cs| > 1 {
      assert Name(cs[0]);
      ComponentsAfter(cs[0], Join(cs[1..]));
      ComponentsOfJoin(cs[1..]);
    }
  }

  lemma ComponentsOfRooted(cs: seq<string>)
    requires forall c :: c in cs ==> Name(c)
    ensures Components("/" + Join(cs)) == cs
  {
    ComponentsAfter("", Join(cs));
    assert "" + "/" + Join(cs) == "/" + Join(cs);
    ComponentsOfJoin(cs);
  }

  lemma ComponentsOfElems(names: seq<string>)
    requires forall c :: c in names ==> Name(c)
    ensures Components(Join(["/"] + names)) == names
  {
    if names == [] {
      assert Join(["/"] + names) == "/" == "/" + Join(names);
      ComponentsOfRooted(names);
    } else {
      var elems := ["/"] + names;
      assert elems[1..] == names;
      assert Join(elems) == "" + "/" + ("/" + Join(names));
      ComponentsAfter("", "/" + Join(names));
      ComponentsOfRooted(names);
    }
  }

  /** path.Clean keeps the components exactly when none is "." or "..". */
  lemma {:induction false} DotsKeeps(done: seq<string>, cs: seq<string>)
    ensures |Dots(done, cs)| <= |done| + |cs|
    ensures NoDots(cs) ==> Dots(done, cs) == done + cs
    ensures |Dots(done, cs)| == |done| + |cs| ==> NoDots(cs)
    ensures forall c :: c in Dots(done, cs) ==> c in done || c in cs
    decreases |cs|
  {
    if cs != [] {
      var done' := if cs[0] == "." then done
                   else if cs[0] == ".." then (if done == [] then [] else done[..|done| - 1])
                   else done + [cs[0]];
      DotsKeeps(done', cs[1..]);
      assert Dots(done, cs) == Dots(done', cs[1..]);
      assert cs == [cs[0]] + cs[1..];
    }
  }

  /** What path.Join makes of "/" and a list of names: it loses none of them, and
      adds nothing, exactly when none is "." or "..". */
  lemma PathJoinNames(names: seq<string>)
    requires forall c :: c in names ==> Name(c)
    ensures Components(PathJoin(["/"] + names)) == Dots([], names)
    ensures Dots([], names) == names <==> NoDots(names)
    ensures PathJoin(["/"] + names) == "/" + Join(names) <==> NoDots(names)
  {
    ComponentsOfElems(names);
    DotsKeeps([], names);
    assert [] + names == names;
    ComponentsOfRooted(Dots([], names));
    ComponentsOfRooted(names);
  }
}
