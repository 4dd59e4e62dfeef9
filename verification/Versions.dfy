/** The version numbers of the self-upgrade: a dotted version read as one number in base 1000, and the
    comparison built on it.  A version is the list of its items, each the integer it parses to or None. */
module Versions {
  datatype Item = Number(n: int) | Malformed

  const WORD := 0x1_0000_0000_0000_0000
  const HALF := 0x8000_0000_0000_0000

  /** Two's-complement wrap-around of a 64-bit signed integer. */
  function Wrap(x: int): int {
    (x + HALF) % WORD - HALF
  }

  predicate Parsed(items: seq<Item>) {
    forall k :: 0 <= k < |items| ==> items[k].Number?
  }

  /** The version as an unbounded number. */
  function Value(items: seq<Item>): int
    requires Parsed(items)
  {
    if items == [] then 0 else Value(items[..|items| - 1]) * 1000 + items[|items| - 1].n
  }

  /** Wrapping at each step is wrapping once at the end. */
  lemma WrapOnce(x: int, n: int)
    ensures Wrap(Wrap(x) * 1000 + n) == Wrap(x * 1000 + n)
  {
    var q := (x + HALF) / WORD;
    assert Wrap(x) == x - WORD * q;
    var y := x * 1000 + n + HALF;
    assert Wrap(x) * 1000 + n + HALF == y - WORD * (q * 1000);
    ModuloShift(y, q * 1000);
  }

  lemma ModuloShift(y: int, k: int)
    ensures (y - WORD * k) % WORD == y % WORD
  {
    var d := (y - WORD * k) / WORD;
    assert y == WORD * (d + k) + (y - WORD * k) % WORD;
  }

  method CalcVersion(items: seq<Item>) returns (num: int)
    ensures num == if Parsed(items) then Wrap(Value(items)) else -1
  {
    num := 0;
    for i := 0 to |items|
      invariant Parsed(items[..i]) && num == Wrap(Value(items[..i]))
    {
      if items[i].Malformed? { return -1; }
      assert items[..i + 1][..i] == items[..i];
      WrapOnce(Value(items[..i]), items[i].n);
      num := Wrap(num * 1000 + items[i].n);
    }
    assert items[..|items|] == items;
  }

  /** Every component is a number from 0 to below a bound. */
  ghost predicate Below(items: seq<Item>, bound: int) {
    forall k :: 0 <= k < |items| ==> items[k].Number? && 0 <= items[k].n < bound
  }

  /** Every component is a base-1000 digit. */
  ghost predicate Digits(items: seq<Item>) {
    Below(items, 1000)
  }

  /** The order a reader of version numbers expects: the first component that differs decides. */
  ghost predicate Older(a: seq<Item>, b: seq<Item>)
    requires |a| == |b| && Parsed(a) && Parsed(b)
  {
    exists k :: OlderAt(a, b, k)
  }

  ghost predicate OlderAt(a: seq<Item>, b: seq<Item>, k: int)
    requires |a| == |b| && Parsed(a) && Parsed(b)
  {
    0 <= k < |a| && a[..k] == b[..k] && a[k].n < b[k].n
  }

  function Thousands(k: nat): (p: nat) {
    if k == 0 then 1 else Thousands(k - 1) * 1000
  }

  /** A version of k components lies below 1000^k, so up to six components never wrap around. */
  lemma {:induction false} ValueBound(a: seq<Item>)
    requires Digits(a)
    ensures 0 <= Value(a) < Thousands(|a|)
    ensures |a| <= 6 ==> Wrap(Value(a)) == Value(a)
  {
    if a != [] {
      ValueBound(a[..|a| - 1]);
    }
    if |a| <= 6 { SixFit(|a|); }
  }

  lemma SixFit(k: nat)
    requires k <= 6
    ensures Thousands(k) < HALF
  {
    assert Thousands(2) == 1_000_000;
    assert Thousands(4) == 1_000_000_000_000;
    assert Thousands(6) == 1_000_000_000_000_000_000;
  }

  /** On versions of equal length the number is injective and ordered as the components are. */
  lemma {:induction false} ValueOrders(a: seq<Item>, b: seq<Item>)
    requires |a| == |b| && Digits(a) && Digits(b)
    ensures Value(a) == Value(b) <==> a == b
    ensures Value(a) < Value(b) <==> Older(a, b)
  {
    if a == [] {
      assert !Older(a, b);
    } else {
      var n := |a| - 1;
      ValueOrders(a[..n], b[..n]);
      assert a == a[..n] + [a[n]] && b == b[..n] + [b[n]];
      OlderByLast(a, b);
    }
  }

  lemma OlderByLast(a: seq<Item>, b: seq<Item>)
    requires |a| == |b| > 0 && Digits(a) && Digits(b)
    ensures var n := |a| - 1;
            Older(a, b) <==> Older(a[..n], b[..n]) || (a[..n] == b[..n] && a[n].n < b[n].n)
  {
    var n := |a| - 1;
    var a', b' := a[..n], b[..n];
    assert forall k | 0 <= k <= n :: a'[..k] == a[..k] && b'[..k] == b[..k];
    if k :| OlderAt(a', b', k) { assert OlderAt(a, b, k); }
    if a' == b' && a[n].n < b[n].n { assert OlderAt(a, b, n); }
    if k :| OlderAt(a, b, k) && k < n { assert OlderAt(a', b', k); }
  }

  datatype Answer = Invalid | Latest(yes: bool)

  /** Without wrap-around and the -1 sentinel in the way, the comparison is on the two numbers. */
  method IsLatest(current: seq<Item>, remote: seq<Item>) returns (r: Answer)
    ensures r == Compare(current, remote)
    ensures Short(current) && Short(remote) && |current| == |remote| ==> r == Latest(!Older(current, remote))
    ensures Short(current) && Short(remote) && |current| <= |remote| ==>
      (r == Latest(true) <==> LeadingZeros(remote, |remote| - |current|) &&
                              !Older(current, remote[|remote| - |current|..]))
    ensures Short(current) && Short(remote) && |current| >= |remote| ==>
      (r == Latest(false) <==> LeadingZeros(current, |current| - |remote|) &&
                               Older(current[|current| - |remote|..], remote))
  {
    var v1 := CalcVersion(current);
    var v2 := CalcVersion(remote);
    r := if v1 == -1 || v2 == -1 then Invalid else Latest(v1 >= v2);
    if Short(current) && Short(remote) {
      ValueBound(current);
      ValueBound(remote);
      if |current| <= |remote| { LongerIsNewer(current, remote); }
      if |current| >= |remote| { LongerIsNewer(remote, current); }
    }
  }

  /** A version that yields a number the comparison accepts: every item parses and the number is not -1. */
  predicate Usable(items: seq<Item>) {
    Parsed(items) && Wrap(Value(items)) != -1
  }

  ghost predicate Short(items: seq<Item>) {
    Digits(items) && |items| <= 6
  }

  ghost predicate LeadingZeros(items: seq<Item>, k: int) {
    forall i :: 0 <= i < k <= |items| ==> items[i] == Number(0)
  }

  /** Versions of unequal length: the shorter one is compared as if zeros stood in front of it, so a longer
      version that does not start with zeros is newer whatever the components say. */
  lemma LongerIsNewer(a: seq<Item>, b: seq<Item>)
    requires |a| <= |b| && Digits(a) && Digits(b)
    ensures var d := |b| - |a|;
            && (Value(a) >= Value(b) <==> LeadingZeros(b, d) && !Older(a, b[d..]))
            && (Value(b) < Value(a) <==> LeadingZeros(b, d) && Older(b[d..], a))
  {
    var d := |b| - |a|;
    assert b == b[..d] + b[d..];
    LongerByPrefix(a, b[..d], b[d..]);
    assert LeadingZeros(b, d) <==> LeadingZeros(b[..d], d);
  }

  lemma LongerByPrefix(a: seq<Item>, high: seq<Item>, low: seq<Item>)
    requires |a| == |low| && Digits(a) && Digits(high) && Digits(low)
    ensures Value(a) >= Value(high + low) <==> LeadingZeros(high, |high|) && !Older(a, low)
    ensures Value(a) > Value(high + low) <==> LeadingZeros(high, |high|) && Older(low, a)
  {
    HighPartDecides(a, high, low);
    ZeroIffZeros(high);
    ValueOrders(a, low);
    ValueOrders(low, a);
  }

  lemma HighPartDecides(a: seq<Item>, high: seq<Item>, low: seq<Item>)
    requires |a| == |low| && Digits(a) && Digits(high) && Digits(low)
    ensures Value(a) >= Value(high + low) <==> Value(high) == 0 && Value(a) >= Value(low)
    ensures Value(a) > Value(high + low) <==> Value(high) == 0 && Value(a) > Value(low)
  {
    ValueOfConcat(high, low);
    ValueBound(a);
    ValueBound(high);
    ValueBound(low);
    AtLeastOnce(Value(high), Thousands(|a|));
  }

  lemma AtLeastOnce(p: int, t: int)
    requires p >= 0 && t >= 0
    ensures p == 0 ==> p * t == 0
    ensures p > 0 ==> p * t >= t
  {
    if p > 1 { AtLeastOnce(p - 1, t); }
  }

  lemma {:induction false} ValueOfConcat(high: seq<Item>, low: seq<Item>)
    requires Digits(high) && Digits(low)
    ensures Value(high + low) == Value(high) * Thousands(|low|) + Value(low)
  {
    if low == [] {
      assert high + low == high;
    } else {
      var n := |low| - 1;
      assert (high + low)[..|high| + n] == high + low[..n];
      ValueOfConcat(high, low[..n]);
    }
  }

  lemma {:induction false} ZeroIffZeros(a: seq<Item>)
    requires Digits(a)
    ensures Value(a) >= 0 && (Value(a) == 0 <==> LeadingZeros(a, |a|))
  {
    if a != [] {
      var n := |a| - 1;
      ZeroIffZeros(a[..n]);
      assert a == a[..n] + [a[n]];
    }
  }

  // ------------------------------------------------- when the comparison is right

  function Compare(current: seq<Item>, remote: seq<Item>): Answer {
    if Usable(current) && Usable(remote) then Latest(Wrap(Value(current)) >= Wrap(Value(remote))) else Invalid
  }

  function Zeros(k: nat): seq<Item> {
    seq(k, _ => Number(0))
  }

  /** A version continued by zeros: 2 and 2.0 are the same version. */
  function Padded(items: seq<Item>, k: nat): seq<Item> {
    if |items| < k then items + Zeros(k - |items|) else items
  }

  /** The comparison answers as the order of the components says. */
  ghost predicate Right(a: seq<Item>, b: seq<Item>)
    requires Parsed(a) && Parsed(b)
  {
    Compare(a, b) == Latest(!Older(Padded(a, |b|), Padded(b, |a|)))
  }

  /** It does so for all versions of two lengths with components below a bound. */
  ghost predicate RightBelow(j: nat, k: nat, bound: int) {
    forall a, b :: |a| == j && |b| == k && Below(a, bound) && Below(b, bound) ==> Right(a, b)
  }

  /** A version whose last two components alone are not zero. */
  function LastTwo(k: nat, m: int, n: int): (v: seq<Item>)
    requires k >= 2
    ensures |v| == k
  {
    Zeros(k - 2) + [Number(m), Number(n)]
  }

  lemma Sparse(d: nat, n: int)
    requires 0 <= n
    ensures var v := Zeros(d) + [Number(n)]; Parsed(v) && Value(v) == n
  {
    var v := Zeros(d) + [Number(n)];
    assert v[..d] == Zeros(d);
    ZeroIffZeros(Zeros(d));
  }

  lemma SparseTwo(k: nat, m: int, n: int)
    requires k >= 2 && 0 <= m && 0 <= n
    ensures Parsed(LastTwo(k, m, n)) && Value(LastTwo(k, m, n)) == m * 1000 + n
  {
    var v := LastTwo(k, m, n);
    assert v[..k - 1] == Zeros(k - 2) + [Number(m)];
    Sparse(k - 2, m);
  }

  /** Different lengths, the shorter first: 1 is taken for older than 1.0, or than 0.1.0. */
  lemma ShorterMisleads(j: nat, k: nat, bound: int)
    requires 1 <= j < k && bound > 1
    ensures !RightBelow(j, k, bound)
  {
    var a, b := Zeros(j - 1) + [Number(1)], LastTwo(k, 1, 0);
    Sparse(j - 1, 1);
    SparseTwo(k, 1, 0);
    assert Padded(b, j) == b && Below(a, bound) && Below(b, bound);
    NotOlder(Padded(a, k), b, j - 1, k - 2);
    assert !Right(a, b);
  }

  /** Two versions with a single 1 each. */
  lemma NotOlder(p: seq<Item>, b: seq<Item>, x: nat, y: nat)
    requires |p| == |b| && x <= y < |b| && Parsed(p) && Parsed(b)
    requires p[x] == Number(1) && p[..x] == b[..x] && forall i :: 0 <= i < |p| ==> p[i].n >= 0
    requires forall i :: 0 <= i < |b| ==> b[i] == if i == y then Number(1) else Number(0)
    ensures !Older(p, b)
  {
    forall i ensures !OlderAt(p, b, i) {
      if 0 <= i < x {
        assert p[..x][i] == p[i] && b[..x][i] == b[i];
      } else if x < i < |b| {
        assert p[..i][x] == p[x] && b[..i][x] == b[x];
      }
    }
  }

  /** The longer first: 0.1 is taken for no older than 1. */
  lemma LongerMisleads(j: nat, k: nat, bound: int)
    requires 1 <= j < k && bound > 1
    ensures !RightBelow(k, j, bound)
  {
    var a, c := Zeros(j - 1) + [Number(1)], Zeros(k - 1) + [Number(1)];
    var p := Padded(a, k);
    Sparse(j - 1, 1);
    Sparse(k - 1, 1);
    assert Padded(c, j) == c && Below(a, bound) && Below(c, bound);
    assert OlderAt(c, p, j - 1) by {
      assert c[..j - 1] == p[..j - 1];
    }
    assert !Right(c, a);
  }

  /** The seventh component from the end counts 10^18. */
  lemma SeventhValue(k: nat, n: int)
    requires k >= 7 && 0 <= n < 1000
    ensures var v := Zeros(k - 7) + ([Number(n)] + Zeros(6));
            |v| == k && Digits(v) && Value(v) == n * 1_000_000_000_000_000_000
  {
    assert Thousands(2) == 1_000_000 && Thousands(4) == 1_000_000_000_000;
    TrailingZeros(n, 6);
    ValueOfConcat(Zeros(k - 7), [Number(n)] + Zeros(6));
    ZeroIffZeros(Zeros(k - 7));
  }

  /** Seven components and more: 10.0.0.0.0.0.0 wraps around. */
  lemma SevenMislead(k: nat, bound: int)
    requires k >= 7 && bound > 10
    ensures !RightBelow(k, k, bound)
  {
    var a, b := Zeros(k - 7) + ([Number(10)] + Zeros(6)), Zeros(k - 7) + ([Number(1)] + Zeros(6));
    SeventhValue(k, 10);
    SeventhValue(k, 1);
    ValueOrders(a, b);
    assert Padded(a, k) == a && Padded(b, k) == b;
    assert !Right(a, b);
  }

  /** A component of 1000 carries: 0.1000 is taken for no older than 1.0. */
  lemma ThousandMisleads(k: nat, bound: int)
    requires k >= 2 && bound > 1000
    ensures !RightBelow(k, k, bound)
  {
    var a, b := LastTwo(k, 0, 1000), LastTwo(k, 1, 0);
    SparseTwo(k, 0, 1000);
    SparseTwo(k, 1, 0);
    assert OlderAt(a, b, k - 2) by {
      assert a[..k - 2] == b[..k - 2];
    }
    assert !Right(a, b);
  }

  /** Seven components below ten stay below 2^63. */
  lemma SevenFit(a: seq<Item>)
    requires |a| == 7 && Below(a, 10)
    ensures Value(a) < HALF
  {
    var high, low := a[..2], a[2..];
    assert a == high + low;
    ValueOfConcat(high, low);
    ValueBound(low);
    assert high[..1] == [a[0]] && [a[0]][..0] == [];
    assert Value([a[0]]) == a[0].n && Value(high) <= 9009;
    assert Thousands(2) == 1_000_000 && Thousands(4) == 1_000_000_000_000;
    assert Thousands(5) == 1_000_000_000_000_000;
  }

  /** On equal lengths, digits whose numbers do not wrap around compare rightly. */
  lemma RightIfFit(a: seq<Item>, b: seq<Item>)
    requires |a| == |b| && Digits(a) && Digits(b) && Value(a) < HALF && Value(b) < HALF
    ensures Right(a, b)
  {
    ValueBound(a);
    ValueBound(b);
    ValueOrders(a, b);
    assert Padded(a, |b|) == a && Padded(b, |a|) == b;
    assert Wrap(Value(a)) == Value(a) && Wrap(Value(b)) == Value(b);
  }

  lemma SingleValue(a: seq<Item>)
    requires |a| == 1 && Parsed(a)
    ensures Value(a) == a[0].n
  {
    assert a[..0] == [];
  }

  lemma SingleItem(a: seq<Item>, b: seq<Item>)
    requires |a| == |b| == 1 && Below(a, HALF) && Below(b, HALF)
    ensures Right(a, b)
  {
    SingleValue(a);
    SingleValue(b);
    if a[0].n < b[0].n {
      assert OlderAt(a, b, 0);
    }
  }

  /** Only the version that is all zeros has components below one. */
  lemma OnlyZeros(a: seq<Item>, b: seq<Item>)
    requires Below(a, 1) && Below(b, 1)
    ensures Right(a, b)
  {
    ZeroIffZeros(a);
    ZeroIffZeros(b);
  }

  /** The components for which the comparison is right, by the lengths of the versions;
      a component is at most the greatest 64-bit integer. */
  lemma RightBelowIff(j: nat, k: nat, bound: int)
    requires 1 <= j && 1 <= k && (j == k ==> k <= 7) && bound <= HALF
    ensures RightBelow(j, k, bound) <==>
      || bound <= 1
      || (j == k && (k == 1 || (k <= 6 && bound <= 1000) || bound <= 10))
  {
    if bound > 1 && j < k {
      ShorterMisleads(j, k, bound);
    } else if bound > 1 && k < j {
      LongerMisleads(k, j, bound);
    } else if bound > 1 && 2 <= k <= 6 && bound > 1000 {
      ThousandMisleads(k, bound);
    } else if bound > 10 && k == 7 {
      SevenMislead(k, bound);
    } else {
      forall a, b | |a| == j && |b| == k && Below(a, bound) && Below(b, bound) ensures Right(a, b) {
        if bound <= 1 {
          OnlyZeros(a, b);
        } else if k == 1 {
          SingleItem(a, b);
        } else {
          BelowFits(a, bound);
          BelowFits(b, bound);
          RightIfFit(a, b);
        }
      }
    }
  }

  lemma BelowFits(a: seq<Item>, bound: int)
    requires Below(a, bound) && ((|a| <= 6 && bound <= 1000) || (|a| == 7 && bound <= 10))
    ensures Digits(a) && Value(a) < HALF
  {
    if |a| <= 6 {
      ValueBound(a);
      SixFit(|a|);
    } else {
      SevenFit(a);
    }
  }

  /** With components of up to three digits the comparison is right for all versions of
      two lengths iff the lengths are equal and at most six. */
  lemma RightIff(j: nat, k: nat)
    requires j >= 1 && k >= 1
    ensures RightBelow(j, k, 1000) <==> j == k && k <= 6
  {
    if j == k && k > 7 {
      SevenMislead(k, 1000);
    } else {
      RightBelowIff(j, k, 1000);
    }
  }

  // ------------------------------------------------- when a version is refused

  /** Items of up to three digits, with or without a sign. */
  ghost predicate Small(items: seq<Item>) {
    forall k :: 0 <= k < |items| ==> items[k].Number? && -1000 < items[k].n < 1000
  }

  /** Zeros, then -1, then only 999s. */
  ghost predicate MinusOneAt(items: seq<Item>, k: int) {
    && 0 <= k < |items| && items[k] == Number(-1)
    && (forall i :: 0 <= i < k ==> items[i] == Number(0))
    && forall i :: k < i < |items| ==> items[i] == Number(999)
  }

  /** A version that parses is taken for malformed iff it is one of these. */
  lemma RefusedIff(items: seq<Item>)
    requires Small(items) && |items| <= 6
    ensures !Usable(items) <==> exists k :: MinusOneAt(items, k)
  {
    SmallBound(items);
    SixFit(|items|);
    SmallValue(items);
  }

  lemma {:induction false} SmallBound(items: seq<Item>)
    requires Small(items)
    ensures 0 - Thousands(|items|) < Value(items) < Thousands(|items|)
  {
    if items != [] {
      SmallBound(items[..|items| - 1]);
    }
  }

  lemma {:induction false} SmallValue(items: seq<Item>)
    requires Small(items)
    ensures Value(items) == 0 <==> LeadingZeros(items, |items|)
    ensures Value(items) == -1 <==> exists k :: MinusOneAt(items, k)
  {
    if items != [] {
      var n := |items| - 1;
      var front := items[..n];
      SmallValue(front);
      assert items == front + [items[n]];
      if k :| MinusOneAt(front, k) {
        assert items[n] == Number(999) ==> MinusOneAt(items, k);
      }
      if k :| MinusOneAt(items, k) && k < n {
        assert MinusOneAt(front, k);
      }
      if LeadingZeros(front, n) && items[n] == Number(-1) {
        assert MinusOneAt(items, n);
      }
    }
  }

  /** Inputs that mislead: 2.0 is taken for older than 1.0.0, 1.1000.0 for no older than
      2.0.0, 0.-1 for malformed, and 10.0.0.0.0.0.0 for older than 1.0.0.0.0.0.0. */
  lemma BoundsAreNeeded()
    ensures Compare([Number(2), Number(0)], [Number(1), Number(0), Number(0)]) == Latest(false)
    ensures Compare([Number(1), Number(1000), Number(0)], [Number(2), Number(0), Number(0)]) == Latest(true)
    ensures Compare([Number(0), Number(-1)], [Number(0), Number(0)]) == Invalid
    ensures Compare([Number(10)] + Zeros(6), [Number(1)] + Zeros(6)) == Latest(false)
  {
    TrailingZeros(2, 1);
    TrailingZeros(1, 2);
    assert [Number(2)] + Zeros(1) == [Number(2), Number(0)];
    assert [Number(1)] + Zeros(2) == [Number(1), Number(0), Number(0)];
    Carries();
    TrailingZeros(2, 2);
    assert [Number(2)] + Zeros(2) == [Number(2), Number(0), Number(0)];
    MinusOne();
    TrailingZeros(10, 6);
    TrailingZeros(1, 6);
    assert Thousands(2) == 1_000_000 && Thousands(4) == 1_000_000_000_000;
  }

  lemma Carries()
    ensures var v := [Number(1), Number(1000), Number(0)]; Parsed(v) && Value(v) == 2_000_000
  {
    var v := [Number(1), Number(1000), Number(0)];
    assert v[..2] == [Number(1), Number(1000)] && v[..2][..1] == [Number(1)] && [Number(1)][..0] == [];
    assert Value([Number(1)]) == 1 && Value(v[..2]) == 2000;
  }

  lemma MinusOne()
    ensures !Usable([Number(0), Number(-1)])
  {
    var v := [Number(0), Number(-1)];
    assert v[..1] == [Number(0)] && [Number(0)][..0] == [];
    assert Value([Number(0)]) == 0;
    assert Value(v) == -1 && Wrap(-1) == -1;
  }

  lemma {:induction false} TrailingZeros(n: int, k: nat)
    ensures var v := [Number(n)] + Zeros(k); Parsed(v) && Value(v) == n * Thousands(k)
  {
    var v := [Number(n)] + Zeros(k);
    if k > 0 {
      assert v[..k] == [Number(n)] + Zeros(k - 1);
      TrailingZeros(n, k - 1);
    }
  }
}
