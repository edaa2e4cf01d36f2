/**
 Vocabulary of the sequence-length partitioner in verl/utils/seqlen_balancing.py: items, parts, sums,
 exact covers, and what any assignment of the items to parts has to satisfy.
 */
module Partition {
  import opened Arithmetic

  // ---------------------------------------------------------------- sums and maxima

  function Sum(s: seq<int>): int {
    if s == [] then 0 else s[0] + Sum(s[1..])
  }

  lemma {:induction false} SumConcat(a: seq<int>, b: seq<int>)
    ensures Sum(a + b) == Sum(a) + Sum(b)
  {
    if a == [] {
      assert a + b == b;
    } else {
      SumConcat(a[1..], b);
      assert (a + b)[1..] == a[1..] + b;
    }
  }

  lemma {:induction false} SumUpdate(s: seq<int>, i: nat, v: int)
    requires i < |s|
    ensures Sum(s[i := v]) == Sum(s) - s[i] + v
  {
    if i == 0 {
      assert s[0 := v][1..] == s[1..];
    } else {
      SumUpdate(s[1..], i - 1, v);
      assert s[i := v][1..] == s[1..][i - 1 := v];
    }
  }

  lemma {:induction false} SumAtLeast(s: seq<int>, low: int)
    requires forall i | 0 <= i < |s| :: s[i] >= low
    ensures Sum(s) >= |s| * low
  {
    if s != [] {
      SumAtLeast(s[1..], low);
      assert |s| * low == low + |s[1..]| * low;
    }
  }

  lemma {:induction false} SumAtMost(s: seq<int>, high: int)
    requires forall i | 0 <= i < |s| :: s[i] <= high
    ensures Sum(s) <= |s| * high
  {
    if s != [] {
      SumAtMost(s[1..], high);
      assert |s| * high == high + |s[1..]| * high;
    }
  }

  /** One entry at most high, the others at least low. */
  lemma {:induction false} SumAtLeastWithTop(s: seq<int>, i: nat, low: int)
    requires i < |s| && forall j | 0 <= j < |s| :: s[j] >= low
    ensures Sum(s) >= s[i] + (|s| - 1) * low
  {
    if i == 0 {
      SumAtLeast(s[1..], low);
    } else {
      SumAtLeastWithTop(s[1..], i - 1, low);
      assert (|s| - 1) * low == low + (|s[1..]| - 1) * low;
    }
  }

  function Max(s: seq<int>): (m: int)
    requires s != []
    ensures m in s && forall i | 0 <= i < |s| :: s[i] <= m
  {
    if |s| == 1 then s[0] else
    var m := Max(s[1..]);
    if m < s[0] then s[0] else m
  }

  /** The sum of a measure over a sequence. */
  function SumOf<T>(f: T -> int, s: seq<T>): int {
    if s == [] then 0 else f(s[0]) + SumOf(f, s[1..])
  }

  lemma {:induction false} SumOfConcat<T>(f: T -> int, a: seq<T>, b: seq<T>)
    ensures SumOf(f, a + b) == SumOf(f, a) + SumOf(f, b)
  {
    if a == [] {
      assert a + b == b;
    } else {
      SumOfConcat(f, a[1..], b);
      assert (a + b)[1..] == a[1..] + b;
    }
  }

  lemma RemoveOne<T>(f: T -> int, b: seq<T>, x: T) returns (rest: seq<T>)
    requires x in b
    ensures |rest| == |b| - 1 && multiset(b) == multiset(rest) + multiset{x}
    ensures SumOf(f, b) == f(x) + SumOf(f, rest)
  {
    var i :| 0 <= i < |b| && b[i] == x;
    rest := b[..i] + b[i + 1..];
    assert b == b[..i] + ([x] + b[i + 1..]);
    SumOfConcat(f, b[..i], [x] + b[i + 1..]);
    SumOfConcat(f, [x], b[i + 1..]);
    SumOfConcat(f, b[..i], b[i + 1..]);
  }

  /** The sum only depends on which elements occur how often. */
  lemma {:induction false} SumOfPermutation<T>(f: T -> int, a: seq<T>, b: seq<T>)
    requires multiset(a) == multiset(b)
    ensures SumOf(f, a) == SumOf(f, b)
  {
    if a == [] {
      assert |multiset(b)| == 0;
    } else {
      assert a == [a[0]] + a[1..];
      assert a[0] in multiset(b);
      var rest := RemoveOne(f, b, a[0]);
      assert multiset(a) == multiset{a[0]} + multiset(a[1..]);
      assert multiset(a[1..]) == multiset(a) - multiset{a[0]} && multiset(rest) == multiset(b) - multiset{a[0]};
      SumOfPermutation(f, a[1..], rest);
    }
  }

  /** Replacing two elements by one that measures as much as both keeps the sum. */
  lemma SumOfMerge<T>(f: T -> int, before: seq<T>, rest: seq<T>, a: T, b: T, r: T)
    requires multiset(before) == multiset(rest) + multiset{a, b}
    requires f(r) == f(a) + f(b)
    ensures SumOf(f, rest + [r]) == SumOf(f, before)
  {
    assert multiset(before) == multiset(rest + [a, b]);
    SumOfPermutation(f, before, rest + [a, b]);
    SumOfConcat(f, rest, [a, b]);
    SumOfConcat(f, rest, [r]);
    assert [a, b][1..] == [b];
    assert SumOf(f, [b]) == f(b) && SumOf(f, [r]) == f(r);
  }

  // ---------------------------------------------------------------- parts

  function Flatten(parts: seq<seq<nat>>): seq<nat> {
    if parts == [] then [] else parts[0] + Flatten(parts[1..])
  }

  lemma FlattenStep(parts: seq<seq<nat>>)
    requires parts != []
    ensures multiset(Flatten(parts)) == multiset(parts[0]) + multiset(Flatten(parts[1..]))
  {
  }

  function Range(n: nat): seq<nat> {
    seq(n, i requires 0 <= i => i)
  }

  /** Every index below n is in exactly one part, exactly once. */
  ghost predicate ExactCover(parts: seq<seq<nat>>, n: nat) {
    multiset(Flatten(parts)) == multiset(Range(n))
  }

  predicate InRange(part: seq<nat>, n: nat) {
    forall i | 0 <= i < |part| :: part[i] < n
  }

  function LengthOf(lens: seq<int>): nat -> int {
    (i: nat) => if i < |lens| then lens[i] else 0
  }

  /** The total length of the items of a part. */
  function Load(lens: seq<int>, part: seq<nat>): int {
    SumOf(LengthOf(lens), part)
  }

  function Loads(lens: seq<int>, parts: seq<seq<nat>>): seq<int> {
    seq(|parts|, i requires 0 <= i < |parts| => Load(lens, parts[i]))
  }

  lemma {:induction false} LoadOfFlatten(lens: seq<int>, parts: seq<seq<nat>>)
    ensures Load(lens, Flatten(parts)) == Sum(Loads(lens, parts))
  {
    if parts != [] {
      SumOfConcat<nat>(LengthOf(lens), parts[0], Flatten(parts[1..]));
      LoadOfFlatten(lens, parts[1..]);
      assert Loads(lens, parts)[1..] == Loads(lens, parts[1..]);
    }
  }

  lemma {:induction false} LoadOfRange(lens: seq<int>, n: nat)
    requires n <= |lens|
    ensures Load(lens, Range(n)) == Sum(lens[..n])
  {
    if n > 0 {
      LoadOfRange(lens, n - 1);
      assert Range(n) == Range(n - 1) + [n - 1];
      SumOfConcat<nat>(LengthOf(lens), Range(n - 1), [n - 1]);
      assert lens[..n] == lens[..n - 1] + [lens[n - 1]];
      SumConcat(lens[..n - 1], [lens[n - 1]]);
    }
  }

  /** The loads of an exact cover add up to the total length. */
  lemma LoadsOfCover(lens: seq<int>, parts: seq<seq<nat>>)
    requires ExactCover(parts, |lens|)
    ensures Sum(Loads(lens, parts)) == Sum(lens)
  {
    LoadOfFlatten(lens, parts);
    SumOfPermutation<nat>(LengthOf(lens), Flatten(parts), Range(|lens|));
    LoadOfRange(lens, |lens|);
    assert lens[..|lens|] == lens;
  }

  lemma {:induction false} FlattenHasParts(parts: seq<seq<nat>>, i: nat)
    requires i < |parts|
    ensures multiset(parts[i]) <= multiset(Flatten(parts))
  {
    if i > 0 {
      FlattenHasParts(parts[1..], i - 1);
    }
  }

  lemma {:induction false} FlattenMember(parts: seq<seq<nat>>, x: nat) returns (i: nat)
    requires x in Flatten(parts)
    ensures i < |parts| && x in parts[i]
  {
    if x in parts[0] {
      i := 0;
    } else {
      i := FlattenMember(parts[1..], x);
      i := i + 1;
    }
  }

  lemma {:induction false} NonNegativeLoad(lens: seq<int>, part: seq<nat>)
    requires forall i | 0 <= i < |lens| :: lens[i] >= 0
    ensures Load(lens, part) >= 0
    ensures forall i | 0 <= i < |part| && part[i] < |lens| :: lens[part[i]] <= Load(lens, part)
  {
    if part != [] {
      NonNegativeLoad(lens, part[1..]);
      forall i | 0 <= i < |part| && part[i] < |lens|
        ensures lens[part[i]] <= Load(lens, part)
      {
        if i > 0 {
          assert part[i] == part[1..][i - 1];
        }
      }
    }
  }

  /** The assertion on equal sizes that ends both partitioners. */
  method CheckEqual(parts: seq<seq<nat>>, k: nat, n: nat) returns (ok: bool)
    ensures ok <==> forall i | 0 <= i < |parts| :: |parts[i]| * k == n
  {
    for i := 0 to |parts|
      invariant forall j | 0 <= j < i :: |parts[j]| * k == n
    {
      if |parts[i]| * k != n {
        return false;
      }
    }
    return true;
  }

  lemma CoverInRange(parts: seq<seq<nat>>, n: nat, j: nat)
    requires ExactCover(parts, n) && j < |parts|
    ensures InRange(parts[j], n)
  {
    FlattenHasParts(parts, j);
    forall i | 0 <= i < |parts[j]|
      ensures parts[j][i] < n
    {
      assert parts[j][i] in multiset(parts[j]);
      assert parts[j][i] in multiset(Range(n));
      assert parts[j][i] in Range(n);
    }
  }

  // ---------------------------------------------------------------- the balance guarantee

  ghost predicate NonNegative(lens: seq<int>) {
    forall i | 0 <= i < |lens| :: lens[i] >= 0
  }

  /** No two parts differ by more than the bound. */
  ghost predicate SpreadAtMost(loads: seq<int>, bound: int) {
    forall i, j | 0 <= i < |loads| && 0 <= j < |loads| :: loads[i] - loads[j] <= bound
  }

  /** k times the heaviest part is at most the total plus k - 1 times the bound. */
  predicate CloseToAverage(k: nat, heaviest: int, total: int, bound: int) {
    k * heaviest <= total + (k - 1) * bound
  }

  /** The heaviest part is at most 2 - 1/k times the other one. */
  predicate WithinTwice(k: nat, heaviest: int, other: int) {
    k * heaviest <= (2 * k - 1) * other
  }

  /** A bounded spread bounds the heaviest part: k times it is at most the total plus k - 1 bounds. */
  lemma HeaviestPart(loads: seq<int>, bound: int)
    requires loads != [] && SpreadAtMost(loads, bound)
    ensures CloseToAverage(|loads|, Max(loads), Sum(loads), bound)
  {
    var i :| 0 <= i < |loads| && loads[i] == Max(loads);
    PartAgainstTotal(loads, i, bound);
  }

  lemma PartAgainstTotal(loads: seq<int>, i: nat, bound: int)
    requires i < |loads| && SpreadAtMost(loads, bound)
    ensures CloseToAverage(|loads|, loads[i], Sum(loads), bound)
  {
    forall j | 0 <= j < |loads|
      ensures loads[j] >= loads[i] - bound
    {
      assert loads[i] - loads[j] <= bound;
    }
    SumAtLeastWithTop(loads, i, loads[i] - bound);
    AverageArithmetic(|loads|, loads[i], bound, Sum(loads));
  }

  lemma AverageArithmetic(k: int, top: int, bound: int, total: int)
    requires total >= top + (k - 1) * (top - bound)
    ensures k * top <= total + (k - 1) * bound
  {
    Distributes(top, k, -1);
    Distributes(k - 1, top - bound, bound);
  }

  /** An exact cover puts every index into some part. */
  lemma CoverReaches(parts: seq<seq<nat>>, n: nat, i: nat) returns (p: nat)
    requires ExactCover(parts, n) && i < n
    ensures p < |parts| && i in parts[p]
  {
    assert Range(n)[i] == i;
    assert i in multiset(Range(n));
    assert i in Flatten(parts);
    p := FlattenMember(parts, i);
  }

  /** Whatever the assignment, the heaviest part carries the largest item... */
  lemma AnyAssignmentCarriesLargest(lens: seq<int>, other: seq<seq<nat>>)
    requires lens != [] && NonNegative(lens) && other != [] && ExactCover(other, |lens|)
    ensures Max(lens) <= Max(Loads(lens, other))
  {
    var i :| 0 <= i < |lens| && lens[i] == Max(lens);
    var p := CoverReaches(other, |lens|, i);
    NonNegativeLoad(lens, other[p]);
    assert Loads(lens, other)[p] == Load(lens, other[p]);
  }

  /** ...and at least the average. */
  lemma AnyAssignmentCarriesAverage(lens: seq<int>, other: seq<seq<nat>>)
    requires other != [] && ExactCover(other, |lens|)
    ensures Sum(lens) <= |other| * Max(Loads(lens, other))
  {
    LoadsOfCover(lens, other);
    SumAtMost(Loads(lens, other), Max(Loads(lens, other)));
  }

  lemma TwoMinusOneOverK(k: nat, heaviest: int, total: int, largest: int, best: int)
    requires 1 <= k && CloseToAverage(k, heaviest, total, largest)
    requires largest <= best && total <= k * best
    ensures WithinTwice(k, heaviest, best)
  {
  }

  /**
   A cover whose loads differ by at most the largest item: its heaviest part exceeds the average by at
   most (k - 1)/k of the largest item.
   */
  lemma NearTheAverage(lens: seq<int>, parts: seq<seq<nat>>)
    requires lens != [] && parts != [] && ExactCover(parts, |lens|)
    requires SpreadAtMost(Loads(lens, parts), Max(lens))
    ensures CloseToAverage(|parts|, Max(Loads(lens, parts)), Sum(lens), Max(lens))
  {
    LoadsOfCover(lens, parts);
    HeaviestPart(Loads(lens, parts), Max(lens));
  }

  /** Such a cover is within a factor of 2 - 1/k of every assignment to as many parts. */
  lemma WithinTwiceTheBest(lens: seq<int>, parts: seq<seq<nat>>, other: seq<seq<nat>>)
    requires lens != [] && NonNegative(lens)
    requires |parts| == |other| > 0 && ExactCover(parts, |lens|) && ExactCover(other, |lens|)
    requires SpreadAtMost(Loads(lens, parts), Max(lens))
    ensures WithinTwice(|parts|, Max(Loads(lens, parts)), Max(Loads(lens, other)))
  {
    NearTheAverage(lens, parts);
    AnyAssignmentCarriesLargest(lens, other);
    AnyAssignmentCarriesAverage(lens, other);
    TwoMinusOneOverK(|parts|, Max(Loads(lens, parts)), Sum(lens), Max(lens), Max(Loads(lens, other)));
  }
}
