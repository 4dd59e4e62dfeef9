/**
 The installed-component manager of internal/component/component_manager.go and
 the repository lookups of internal/component/repo.go.
 */
module Components {
  import opened Decimal

  // --------------------------------------------------------- version strings

  /** Go's `<` on strings. */
  predicate Less(a: string, b: string) {
    if b == "" then false
    else if a == "" then true
    else a[0] < b[0] || (a[0] == b[0] && Less(a[1..], b[1..]))
  }

  lemma {:induction false} LessTotal(a: string, b: string)
    ensures Less(a, b) || Less(b, a) || a == b
    ensures !(Less(a, b) && Less(b, a)) && !Less(a, a)
    decreases |a|
  {
    if a != "" && b != "" {
      LessTotal(a[1..], b[1..]);
      LessIrreflexive(a);
      assert a == [a[0]] + a[1..] && b == [b[0]] + b[1..];
    } else {
      LessIrreflexive(a);
    }
  }

  lemma {:induction false} LessIrreflexive(a: string)
    ensures !Less(a, a)
  {
    if a != "" {
      LessIrreflexive(a[1..]);
    }
  }

  lemma {:induction false} LessTransitive(a: string, b: string, c: string)
    requires Less(a, b) && Less(b, c)
    ensures Less(a, c)
    decreases |a|
  {
    if a != "" && a[0] == b[0] == c[0] {
      LessTransitive(a[1..], b[1..], c[1..]);
    }
  }

  // ------------------------------------------------------------ the repository

  datatype Detail = Detail(path: string, buildTime: string, commit: string)

  datatype Repo = Repo(branches: map<string, Detail>, tags: map<string, Detail>)

  datatype Option<T> = None | Some(value: T)

  const MAIN := "main"
  const LATEST := "latest"
  const FLOOR := "v0.0.0"

  /** `v` is the greatest tag in string order, and not below the floor. */
  ghost predicate IsLatest(tags: map<string, Detail>, v: string) {
    v in tags && !Less(v, FLOOR) && forall t :: t in tags ==> !Less(v, t)
  }

  /** The tags come in whatever order the map delivers them. */
  method GetLatest(repo: Repo) returns (r: Option<string>)
    ensures r.Some? ==> IsLatest(repo.tags, r.value)
    ensures r.None? <==> forall t :: t in repo.tags ==> Less(t, FLOOR)
  {
    var latest := FLOOR;
    var todo := repo.tags.Keys;
    LessIrreflexive(FLOOR);
    while todo != {}
      invariant todo <= repo.tags.Keys
      invariant latest == FLOOR || (latest in repo.tags && Less(FLOOR, latest))
      invariant forall t :: t in repo.tags.Keys - todo ==> !Less(latest, t)
      decreases todo
    {
      var version :| version in todo;
      if Less(latest, version) {
        forall t | t in repo.tags.Keys - todo ensures !Less(version, t) {
          if Less(version, t) {
            LessTransitive(latest, version, t);
          }
        }
        if latest != FLOOR {
          LessTransitive(FLOOR, latest, version);
        }
        latest := version;
      }
      LessTotal(version, latest);
      todo := todo - {version};
    }
    LessTotal(FLOOR, latest);
    if latest in repo.tags {
      return Some(latest);
    }
    forall t | t in repo.tags ensures Less(t, FLOOR) {
      LessTotal(t, FLOOR);
    }
    r := None;
  }

  /** There is one greatest tag, so the order of the map plays no part. */
  lemma LatestUnique(tags: map<string, Detail>, v: string, w: string)
    requires IsLatest(tags, v) && IsLatest(tags, w)
    ensures v == w
  {
    LessTotal(v, w);
  }

  // ------------------------------------------------------- tags and numbers

  /** The tag of a version: "v" and its components between dots. */
  function Tag(v: seq<nat>): string {
    "v" + Dotted(v)
  }

  function Dotted(v: seq<nat>): string
    decreases |v|, 0
  {
    if v == [] then "" else Itoa(v[0]) + Tail(v[1..])
  }

  function Tail(v: seq<nat>): string
    decreases |v|, 1
  {
    if v == [] then "" else "." + Dotted(v)
  }

  /** The numeric order: the first component that differs decides. */
  predicate Precedes(a: seq<nat>, b: seq<nat>) {
    b != [] && (a == [] || a[0] < b[0] || (a[0] == b[0] && Precedes(a[1..], b[1..])))
  }

  lemma {:induction false} LessBehind(p: string, a: string, b: string)
    ensures Less(p + a, p + b) <==> Less(a, b)
  {
    if p == "" {
      assert p + a == a && p + b == b;
    } else {
      assert (p + a)[1..] == p[1..] + a && (p + b)[1..] == p[1..] + b;
      LessBehind(p[1..], a, b);
    }
  }

  /** What follows two different runs of digits does not matter: a dot is below
      every digit. */
  lemma {:induction false} DigitsDecide(s: string, t: string, a: seq<nat>, b: seq<nat>)
    requires Digits(s) && Digits(t) && s != t
    ensures Less(s + Tail(a), t + Tail(b)) <==> Less(s, t)
    decreases |s|
  {
    if s == "" || t == "" {
      assert s + Tail(a) == if s == "" then Tail(a) else s + Tail(a);
      assert t + Tail(b) == if t == "" then Tail(b) else t + Tail(b);
    } else {
      assert (s + Tail(a))[1..] == s[1..] + Tail(a) && (t + Tail(b))[1..] == t[1..] + Tail(b);
      if s[0] == t[0] {
        assert s == [s[0]] + s[1..] && t == [t[0]] + t[1..];
        DigitsDecide(s[1..], t[1..], a, b);
      }
    }
  }

  /** Two tags are ordered by the digits of the first component that differs, so
      as their numbers are iff those two components are ordered alike as text. */
  lemma {:induction false} TagOrder(p: seq<nat>, x: nat, y: nat, a: seq<nat>, b: seq<nat>)
    requires x != y
    ensures Less(Dotted(p + [x] + a), Dotted(p + [y] + b)) <==> Less(Itoa(x), Itoa(y))
    ensures Less(Tag(p + [x] + a), Tag(p + [y] + b)) <==> Less(Itoa(x), Itoa(y))
    decreases |p|
  {
    var v, w := p + [x] + a, p + [y] + b;
    if p == [] {
      assert v[0] == x && v[1..] == a && w[0] == y && w[1..] == b;
      ItoaDigits(x);
      ItoaDigits(y);
      if Itoa(x) == Itoa(y) {
        ItoaInjective(x, y);
      }
      DigitsDecide(Itoa(x), Itoa(y), a, b);
    } else {
      assert v[1..] == p[1..] + [x] + a && w[1..] == p[1..] + [y] + b;
      TagOrder(p[1..], x, y, a, b);
      LessBehind(".", Dotted(v[1..]), Dotted(w[1..]));
      LessBehind(Itoa(p[0]), Tail(v[1..]), Tail(w[1..]));
    }
    LessBehind("v", Dotted(v), Dotted(w));
  }

  ghost predicate Below(v: seq<nat>, bound: nat) {
    forall i :: 0 <= i < |v| ==> v[i] < bound
  }

  /** One-digit components: a version that precedes has the lesser tag. */
  lemma {:induction false} OneDigitOrder(a: seq<nat>, b: seq<nat>)
    requires Below(a, 10) && Below(b, 10) && a != [] && Precedes(a, b)
    ensures Less(Dotted(a), Dotted(b))
    decreases |a|
  {
    if a[0] < b[0] {
      TagOrder([], a[0], b[0], a[1..], b[1..]);
      assert [] + [a[0]] + a[1..] == a && [] + [b[0]] + b[1..] == b;
      assert Itoa(a[0])[0] < Itoa(b[0])[0];
    } else {
      if a[1..] == [] {
        assert Less(Tail(a[1..]), Tail(b[1..]));
      } else {
        OneDigitOrder(a[1..], b[1..]);
        LessBehind(".", Dotted(a[1..]), Dotted(b[1..]));
      }
      LessBehind(Itoa(a[0]), Tail(a[1..]), Tail(b[1..]));
    }
  }

  /** A repository whose tags are those of the versions `vs`, components below `bound`. */
  ghost predicate Tagged(tags: map<string, Detail>, vs: set<seq<nat>>, bound: nat) {
    && (forall v :: v in vs ==> v != [] && Below(v, bound) && Tag(v) in tags)
    && forall t :: t in tags ==> exists v :: v in vs && Tag(v) == t
  }

  /** Whenever GetLatest names a version of such a repository, no version of it is
      numerically greater. */
  ghost predicate LatestIsGreatest(bound: nat) {
    forall tags, vs, v :: Tagged(tags, vs, bound) && v in vs && IsLatest(tags, Tag(v)) ==> Greatest(vs, v)
  }

  ghost predicate Greatest(vs: set<seq<nat>>, v: seq<nat>) {
    forall w :: w in vs ==> !Precedes(v, w)
  }

  /** GetLatest is right for all components below a bound iff they have one digit. */
  lemma LatestIsGreatestIff(bound: nat)
    ensures LatestIsGreatest(bound) <==> bound <= 10
  {
    if bound <= 10 {
      forall tags, vs, v | Tagged(tags, vs, bound) && v in vs && IsLatest(tags, Tag(v)) ensures Greatest(vs, v) {
        OneDigitGreatest(tags, vs, v, bound);
      }
    } else {
      var tags, vs, v := TwoDigitsMislead(bound);
    }
  }

  lemma OneDigitGreatest(tags: map<string, Detail>, vs: set<seq<nat>>, v: seq<nat>, bound: nat)
    requires bound <= 10 && Tagged(tags, vs, bound) && v in vs && IsLatest(tags, Tag(v))
    ensures Greatest(vs, v)
  {
    forall w | w in vs ensures !Precedes(v, w) {
      if Precedes(v, w) {
        OneDigitOrder(v, w);
        LessBehind("v", Dotted(v), Dotted(w));
      }
    }
  }

  lemma TwoDigitsMislead(bound: nat) returns (tags: map<string, Detail>, vs: set<seq<nat>>, v: seq<nat>)
    requires bound > 10
    ensures Tagged(tags, vs, bound) && v in vs && IsLatest(tags, Tag(v)) && !Greatest(vs, v)
  {
    var w: seq<nat>;
    v, w := [9, 0, 0], [10, 0, 0];
    vs := {v, w};
    tags := map[Tag(v) := Detail("", "", ""), Tag(w) := Detail("", "", "")];
    NineBeforeTen();
    TwoTags(tags, v, w, bound);
    assert w in vs && Precedes(v, w);
  }

  lemma TwoTags(tags: map<string, Detail>, v: seq<nat>, w: seq<nat>, bound: nat)
    requires tags.Keys == {Tag(v), Tag(w)} && v != [] && w != [] && Below(v, bound) && Below(w, bound)
    requires Less(Tag(w), Tag(v)) && !Less(Tag(v), FLOOR)
    ensures Tagged(tags, {v, w}, bound) && IsLatest(tags, Tag(v))
  {
    LessTotal(Tag(v), Tag(w));
    forall t | t in tags ensures exists x :: x in {v, w} && Tag(x) == t {
      assert v in {v, w} && w in {v, w};
    }
  }

  lemma TagOfThree(a: nat, b: nat, c: nat)
    ensures Tag([a, b, c]) == "v" + (Itoa(a) + ("." + (Itoa(b) + ("." + (Itoa(c) + "")))))
  {
    assert [a, b, c][1..] == [b, c] && [b, c][1..] == [c] && [c][1..] == [];
    assert Tail([]) == "" && Dotted([c]) == Itoa(c) + "" && Tail([c]) == "." + Dotted([c]);
    assert Dotted([b, c]) == Itoa(b) + Tail([c]) && Tail([b, c]) == "." + Dotted([b, c]);
    assert Dotted([a, b, c]) == Itoa(a) + Tail([b, c]);
  }

  /** v10.0.0 is below v9.0.0 as text, although 9.0.0 precedes it. */
  lemma NineBeforeTen()
    ensures Less(Tag([10, 0, 0]), Tag([9, 0, 0])) && !Less(Tag([9, 0, 0]), FLOOR)
    ensures Precedes([9, 0, 0], [10, 0, 0])
  {
    TagOrder([], 10, 9, [0, 0], [0, 0]);
    TagOrder([], 9, 0, [0, 0], [0, 0]);
    assert [] + [10] + [0, 0] == [10, 0, 0] && [] + [9] + [0, 0] == [9, 0, 0] && [] + [0] + [0, 0] == [0, 0, 0];
    assert Itoa(10)[0] == '1' && Itoa(9)[0] == '9' && Itoa(0)[0] == '0';
    TagOfThree(0, 0, 0);
    assert Itoa(0) == "0";
  }

  /** "Latest" is the greatest string: v10.0.0 is never the latest beside v9.0.0. */
  lemma LatestIsNotNumeric(tags: map<string, Detail>)
    requires "v9.0.0" in tags
    ensures !IsLatest(tags, "v10.0.0")
  {
    NineBeforeTen();
    TagOfThree(9, 0, 0);
    TagOfThree(10, 0, 0);
    assert Itoa(0) == "0" && Itoa(9) == "9" && Itoa(10) == "10";
    assert Tag([9, 0, 0]) == "v9.0.0" && Tag([10, 0, 0]) == "v10.0.0";
  }
}
