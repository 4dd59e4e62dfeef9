/**
 The reference syntax of pkg/variable/variables.go: the regular expression
 `\${([^${}]+)}` written out as a tokenizer, and substitution of references.
 */
module VariableText {

  datatype Token = Text(c: char) | Ref(name: string)

  predicate Plain(c: char) {
    c != '$' && c != '{' && c != '}'
  }

  /** Length of the longest prefix of plain characters. */
  function PlainRun(s: string): (n: nat)
    ensures n <= |s|
    ensures forall i :: 0 <= i < n ==> Plain(s[i])
    ensures n < |s| ==> !Plain(s[n])
  {
    if s == [] || !Plain(s[0]) then 0 else 1 + PlainRun(s[1..])
  }

  /** Length of the name if `s` begins with a reference, 0 otherwise. */
  function HeadRef(s: string): (n: nat)
    ensures n > 0 ==> n + 3 <= |s|
  {
    if |s| < 2 || s[0] != '$' || s[1] != '{' then 0
    else
      var n := PlainRun(s[2..]);
      if n + 2 < |s| && s[n + 2] == '}' then n else 0
  }

  /** Leftmost, non-overlapping matches; everything else is text. */
  function Tokenize(s: string): seq<Token> {
    if s == [] then []
    else
      var n := HeadRef(s);
      if n > 0 then [Ref(s[2..n + 2])] + Tokenize(s[n + 3..])
      else [Text(s[0])] + Tokenize(s[1..])
  }

  function Unparse(ts: seq<Token>): string {
    if ts == [] then []
    else (match ts[0] case Text(c) => [c] case Ref(n) => "${" + n + "}") + Unparse(ts[1..])
  }

  /** The names FindAllStringSubmatch delivers, in order. */
  function Refs(ts: seq<Token>): seq<string> {
    if ts == [] then []
    else if ts[0].Ref? then [ts[0].name] + Refs(ts[1..])
    else Refs(ts[1..])
  }

  function RefsOf(s: string): seq<string> {
    Refs(Tokenize(s))
  }

  /** ReplaceAllStringFunc: references give way to their values, once. */
  function Substitute(ts: seq<Token>, values: map<string, string>): string {
    if ts == [] then []
    else
      (match ts[0]
       case Text(c) => [c]
       case Ref(n) => if n in values then values[n] else "")
      + Substitute(ts[1..], values)
  }

  predicate IsName(n: string) {
    n != [] && forall i :: 0 <= i < |n| ==> Plain(n[i])
  }

  lemma HeadRefParts(s: string)
    requires HeadRef(s) > 0
    ensures var n := HeadRef(s);
      IsName(s[2..n + 2]) && s == "${" + s[2..n + 2] + "}" + s[n + 3..]
  {
    var n := HeadRef(s);
    var t := s[2..];
    assert s[2..n + 2] == t[..n];
    assert s[..2] == "${" && s[n + 2..n + 3] == "}";
    assert s == s[..2] + s[2..n + 2] + s[n + 2..n + 3] + s[n + 3..];
  }

  /** Tokenizing loses nothing, and what it calls a reference is one. */
  lemma {:induction false} TokenizeLosesNothing(s: string)
    ensures Unparse(Tokenize(s)) == s
    ensures forall n :: n in RefsOf(s) ==> IsName(n)
    decreases |s|
  {
    if s != [] {
      var ts := Tokenize(s);
      var n := HeadRef(s);
      if n > 0 {
        HeadRefParts(s);
        TokenizeLosesNothing(s[n + 3..]);
        assert ts[1..] == Tokenize(s[n + 3..]);
      } else {
        TokenizeLosesNothing(s[1..]);
        assert ts[1..] == Tokenize(s[1..]);
        assert s == [s[0]] + s[1..];
      }
    }
  }

  /** A reference written at the front of a text is recognised as such. */
  lemma TokenizeRef(n: string, rest: string)
    requires IsName(n)
    ensures Tokenize("${" + n + "}" + rest) == [Ref(n)] + Tokenize(rest)
  {
    var s := "${" + n + "}" + rest;
    assert s[2..] == n + ("}" + rest);
    PlainRunPrefix(n, "}" + rest);
    assert s[|n| + 2] == '}';
    assert s[2..|n| + 2] == n && s[|n| + 3..] == rest;
  }

  lemma {:induction false} PlainRunPrefix(n: string, rest: string)
    requires forall i :: 0 <= i < |n| ==> Plain(n[i])
    requires rest != [] && !Plain(rest[0])
    ensures PlainRun(n + rest) == |n|
  {
    if n != [] {
      assert (n + rest)[0] == n[0] && (n + rest)[1..] == n[1..] + rest;
      PlainRunPrefix(n[1..], rest);
    } else {
      assert n + rest == rest;
    }
  }

  /** A text without references stands for itself. */
  lemma {:induction false} NoRefsIsText(s: string, values: map<string, string>)
    requires RefsOf(s) == []
    ensures Substitute(Tokenize(s), values) == s
    decreases |s|
  {
    if s != [] {
      assert HeadRef(s) == 0;
      assert Tokenize(s)[1..] == Tokenize(s[1..]);
      NoRefsIsText(s[1..], values);
    }
  }

  /** Substitution looks at the values of the references only. */
  lemma {:induction false} SubstituteAgrees(ts: seq<Token>, v1: map<string, string>, v2: map<string, string>)
    requires forall n :: n in Refs(ts) ==> n in v1 && n in v2 && v1[n] == v2[n]
    ensures Substitute(ts, v1) == Substitute(ts, v2)
  {
    if ts != [] {
      SubstituteAgrees(ts[1..], v1, v2);
    }
  }

  // --------------------------------------- texts that stand for the same everywhere

  ghost predicate Defines(values: map<string, string>, text: string) {
    forall n :: n in RefsOf(text) ==> n in values
  }

  ghost predicate SameEverywhere(text: string) {
    forall v, w :: Defines(v, text) && Defines(w, text) ==>
      Substitute(Tokenize(text), v) == Substitute(Tokenize(text), w)
  }

  /** Substituting texts of one length, none or one, for every reference. */
  lemma {:induction false} SubstituteLength(ts: seq<Token>, values: map<string, string>, one: bool)
    requires forall n :: n in Refs(ts) ==> n in values && |values[n]| == if one then 1 else 0
    ensures |Substitute(ts, values)| == |ts| - if one then 0 else |Refs(ts)|
  {
    if ts != [] {
      SubstituteLength(ts[1..], values, one);
    }
  }

  /** A text stands for the same with any values of its references iff it has none. */
  lemma SameEverywhereIff(text: string)
    ensures SameEverywhere(text) <==> RefsOf(text) == []
  {
    var ts := Tokenize(text);
    if RefsOf(text) == [] {
      forall v: map<string, string> ensures Substitute(ts, v) == text {
        NoRefsIsText(text, v);
      }
    } else {
      var v, w := map n | n in RefsOf(text) :: "", map n | n in RefsOf(text) :: "x";
      SubstituteLength(ts, v, false);
      SubstituteLength(ts, w, true);
      assert Defines(v, text) && Defines(w, text);
    }
  }
}
