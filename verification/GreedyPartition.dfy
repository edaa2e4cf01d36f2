/**
 greedy_partition: list scheduling onto the part with the smallest sum, with a bias that forces equal
 sizes.
 */
module GreedyPartition {
  import opened Wrappers
  import opened Arithmetic
  import opened Partition

  datatype Error = NoPart | UnequalParts

  /** The lengths as the code compares them: each raised by the bias. */
  function Biased(lens: seq<int>, bias: int): seq<int> {
    seq(|lens|, i requires 0 <= i < |lens| => lens[i] + bias)
  }

  function SizeOf(parts: seq<seq<nat>>): seq<int> {
    seq(|parts|, i requires 0 <= i < |parts| => |parts[i]|)
  }

  // ---------------------------------------------------------------- one assignment

  /** The first part with the smallest sum. */
  method Smallest(sums: seq<int>) returns (m: nat)
    requires sums != []
    ensures m < |sums|
    ensures forall j | 0 <= j < |sums| :: sums[m] <= sums[j]
    ensures forall j | 0 <= j < m :: sums[m] < sums[j]
  {
    m := 0;
    for j := 1 to |sums|
      invariant m < j <= |sums|
      invariant forall l | 0 <= l < j :: sums[m] <= sums[l]
      invariant forall l | 0 <= l < m :: sums[m] < sums[l]
    {
      if sums[j] < sums[m] {
        m := j;
      }
    }
  }

  /** Adding to the smallest sum never spreads the sums further than the largest addition. */
  lemma AddingKeepsSpread(sums: seq<int>, m: nat, x: int, bound: int)
    requires m < |sums| && forall j | 0 <= j < |sums| :: sums[m] <= sums[j]
    requires 0 <= x <= bound && SpreadAtMost(sums, bound)
    ensures SpreadAtMost(sums[m := sums[m] + x], bound)
  {
  }

  lemma {:induction false} FlattenExtended(parts: seq<seq<nat>>, m: nat, x: nat)
    requires m < |parts|
    ensures multiset(Flatten(parts[m := parts[m] + [x]])) == multiset(Flatten(parts)) + multiset{x}
  {
    if m == 0 {
      assert parts[0 := parts[0] + [x]][1..] == parts[1..];
    } else {
      FlattenExtended(parts[1..], m - 1, x);
      assert parts[m := parts[m] + [x]][1..] == parts[1..][m - 1 := parts[1..][m - 1] + [x]];
    }
  }

  lemma AssignKeepsCover(parts: seq<seq<nat>>, m: nat, i: nat)
    requires m < |parts| && ExactCover(parts, i)
    ensures ExactCover(parts[m := parts[m] + [i]], i + 1)
  {
    FlattenExtended(parts, m, i);
    assert Range(i + 1) == Range(i) + [i];
  }

  // ---------------------------------------------------------------- what the bias is for

  lemma {:induction false} BiasedLoad(lens: seq<int>, bias: int, part: seq<nat>)
    requires InRange(part, |lens|)
    ensures Load(Biased(lens, bias), part) == Load(lens, part) + |part| * bias
  {
    if part != [] {
      assert InRange(part[1..], |lens|) by {
        assert forall i | 0 <= i < |part[1..]| :: part[1..][i] == part[i + 1];
      }
      BiasedLoad(lens, bias, part[1..]);
      Distributes(bias, 1, |part[1..]|);
    }
  }

  lemma LoadsOfPrefix(lens: seq<int>, parts: seq<seq<nat>>, i: nat)
    requires i <= |lens| && ExactCover(parts, i)
    ensures Sum(Loads(lens, parts)) == Sum(lens[..i])
  {
    LoadOfFlatten(lens, parts);
    SumOfPermutation<nat>(LengthOf(lens), Flatten(parts), Range(i));
    LoadOfRange(lens, i);
  }

  lemma PrefixBelowTotal(lens: seq<int>, i: nat)
    requires NonNegative(lens) && i <= |lens|
    ensures Sum(lens[..i]) <= Sum(lens)
  {
    SumConcat(lens[..i], lens[i..]);
    assert lens == lens[..i] + lens[i..];
    SumAtLeast(lens[i..], 0);
  }

  /** No part of a partial cover weighs more than all items together. */
  lemma LoadBelowTotal(lens: seq<int>, parts: seq<seq<nat>>, i: nat, j: nat)
    requires NonNegative(lens) && i <= |lens| && ExactCover(parts, i) && j < |parts|
    ensures 0 <= Load(lens, parts[j]) <= Sum(lens)
  {
    LoadsOfPrefix(lens, parts, i);
    PrefixBelowTotal(lens, i);
    var loads := Loads(lens, parts);
    forall l | 0 <= l < |parts|
      ensures loads[l] >= 0
    {
      NonNegativeLoad(lens, parts[l]);
    }
    SumAtLeastWithTop(loads, j, 0);
  }

  lemma SmallerCount(a: int, b: int, x: int, y: int, bias: int)
    requires x + a * bias <= y + b * bias && 0 <= x && 0 <= y < bias
    ensures a <= b
  {
    if b + 1 <= a {
      ProductMonotone(b + 1, a, bias);
      Distributes(bias, b, 1);
    }
  }

  /** With the bias, the part with the smallest sum is one with the fewest items. */
  lemma SmallestHasFewest(lens: seq<int>, parts: seq<seq<nat>>, i: nat, m: nat, j: nat)
    requires NonNegative(lens) && i <= |lens| && ExactCover(parts, i) && m < |parts| && j < |parts|
    requires var b := Biased(lens, Sum(lens) + 1); Load(b, parts[m]) <= Load(b, parts[j])
    ensures |parts[m]| <= |parts[j]|
  {
    CoverInRange(parts, i, m);
    CoverInRange(parts, i, j);
    BiasedLoad(lens, Sum(lens) + 1, parts[m]);
    BiasedLoad(lens, Sum(lens) + 1, parts[j]);
    LoadBelowTotal(lens, parts, i, m);
    LoadBelowTotal(lens, parts, i, j);
    SmallerCount(|parts[m]|, |parts[j]|, Load(lens, parts[m]), Load(lens, parts[j]), Sum(lens) + 1);
  }

  lemma {:induction false} SizesAddUp(parts: seq<seq<nat>>)
    ensures Sum(SizeOf(parts)) == |Flatten(parts)|
  {
    if parts != [] {
      SizesAddUp(parts[1..]);
      assert SizeOf(parts)[1..] == SizeOf(parts[1..]);
    }
  }

  lemma {:induction false} SumAtMostWithBottom(s: seq<int>, i: nat, high: int)
    requires i < |s| && forall j | 0 <= j < |s| :: s[j] <= high
    ensures Sum(s) <= s[i] + (|s| - 1) * high
  {
    if i == 0 {
      SumAtMost(s[1..], high);
    } else {
      SumAtMostWithBottom(s[1..], i - 1, high);
      Distributes(high, 1, |s[1..]| - 1);
    }
  }

  /** Sizes that differ by at most one and average to a whole number are all that number. */
  lemma SizesAreEqual(sizes: seq<int>, m: int, i: nat)
    requires i < |sizes| && SpreadAtMost(sizes, 1) && Sum(sizes) == |sizes| * m
    ensures sizes[i] == m
  {
    Distributes(m, |sizes| - 1, 1);
    if sizes[i] > m {
      forall j | 0 <= j < |sizes|
        ensures sizes[j] >= m
      {
        assert sizes[i] - sizes[j] <= 1;
      }
      SumAtLeastWithTop(sizes, i, m);
    } else if sizes[i] < m {
      forall j | 0 <= j < |sizes|
        ensures sizes[j] <= m
      {
        assert sizes[j] - sizes[i] <= 1;
      }
      SumAtMostWithBottom(sizes, i, m);
    }
  }

  // ---------------------------------------------------------------- the loop

  ghost predicate LoopInv(lens: seq<int>, bias: int, parts: seq<seq<nat>>, sums: seq<int>, i: nat) {
    && ExactCover(parts, i)
    && |sums| == |parts|
    && forall j | 0 <= j < |parts| :: sums[j] == Load(Biased(lens, bias), parts[j])
  }

  lemma AssignKeepsSums(lens: seq<int>, bias: int, parts: seq<seq<nat>>, sums: seq<int>, i: nat, m: nat)
    requires i < |lens| && m < |parts| && LoopInv(lens, bias, parts, sums, i)
    ensures LoopInv(lens, bias, parts[m := parts[m] + [i]], sums[m := sums[m] + lens[i] + bias], i + 1)
  {
    AssignKeepsCover(parts, m, i);
    SumOfConcat<nat>(LengthOf(Biased(lens, bias)), parts[m], [i]);
    assert Load(Biased(lens, bias), [i]) == lens[i] + bias;
  }

  lemma FewestItems(lens: seq<int>, parts: seq<seq<nat>>, sums: seq<int>, i: nat, m: nat, j: nat)
    requires NonNegative(lens) && i < |lens| && m < |sums| && LoopInv(lens, Sum(lens) + 1, parts, sums, i)
    requires j < |sums| && sums[m] <= sums[j]
    ensures |parts| == |sums| && |parts[m]| <= |parts[j]|
  {
    hide ExactCover, NonNegative, Sum, Load, Biased;
    SmallestHasFewest(lens, parts, i, m, j);
  }

  /** With the bias: the sizes stay within one of each other. */
  lemma AssignKeepsSizes(lens: seq<int>, parts: seq<seq<nat>>, sums: seq<int>, i: nat, m: nat)
    requires NonNegative(lens) && i < |lens| && m < |sums| && LoopInv(lens, Sum(lens) + 1, parts, sums, i)
    requires forall j | 0 <= j < |sums| :: sums[m] <= sums[j]
    requires SpreadAtMost(SizeOf(parts), 1)
    ensures SpreadAtMost(SizeOf(parts[m := parts[m] + [i]]), 1)
  {
    hide SpreadAtMost, LoopInv, NonNegative, Sum;
    forall j | 0 <= j < |sums|
      ensures |parts| == |sums| && |parts[m]| <= |parts[j]|
    {
      FewestItems(lens, parts, sums, i, m, j);
    }
    SizesGrow(parts, m, i);
    assert forall j | 0 <= j < |parts| :: SizeOf(parts)[m] <= SizeOf(parts)[j];
    hide SizeOf;
    AddingKeepsSpread(SizeOf(parts), m, 1, 1);
  }

  lemma SizesGrow(parts: seq<seq<nat>>, m: nat, i: nat)
    requires m < |parts|
    ensures |SizeOf(parts)| == |parts|
    ensures SizeOf(parts[m := parts[m] + [i]]) == SizeOf(parts)[m := SizeOf(parts)[m] + 1]
  {
  }

  lemma {:induction false} NothingYet(parts: seq<seq<nat>>)
    requires forall i | 0 <= i < |parts| :: parts[i] == []
    ensures Flatten(parts) == []
  {
    if parts != [] {
      NothingYet(parts[1..]);
    }
  }

  /** The loop invariant for both modes. */
  ghost predicate AssignInv(lens: seq<int>, equal: bool, parts: seq<seq<nat>>, sums: seq<int>, i: nat)
    requires i <= |lens|
  {
    && LoopInv(lens, if equal then Sum(lens) + 1 else 0, parts, sums, i)
    && (lens != [] && !equal ==> SpreadAtMost(sums, Max(lens)))
    && (equal ==> SpreadAtMost(SizeOf(parts), 1))
  }

  lemma AssignUnequal(lens: seq<int>, parts: seq<seq<nat>>, sums: seq<int>, i: nat, m: nat)
    requires NonNegative(lens) && i < |lens| && m < |sums| == |parts| && LoopInv(lens, 0, parts, sums, i)
    requires SpreadAtMost(sums, Max(lens)) && forall j | 0 <= j < |sums| :: sums[m] <= sums[j]
    ensures LoopInv(lens, 0, parts[m := parts[m] + [i]], sums[m := sums[m] + lens[i] + 0], i + 1)
    ensures SpreadAtMost(sums[m := sums[m] + lens[i] + 0], Max(lens))
  {
    hide LoopInv, SpreadAtMost;
    AssignKeepsSums(lens, 0, parts, sums, i, m);
    AddingKeepsSpread(sums, m, lens[i] + 0, Max(lens));
    assert sums[m] + (lens[i] + 0) == sums[m] + lens[i] + 0;
  }

  lemma AssignKeepsInv(lens: seq<int>, equal: bool, parts: seq<seq<nat>>, sums: seq<int>, i: nat, m: nat)
    requires NonNegative(lens) && i < |lens| && m < |sums| == |parts| && AssignInv(lens, equal, parts, sums, i)
    requires forall j | 0 <= j < |sums| :: sums[m] <= sums[j]
    ensures var bias := if equal then Sum(lens) + 1 else 0;
            AssignInv(lens, equal, parts[m := parts[m] + [i]], sums[m := sums[m] + lens[i] + bias], i + 1)
  {
    hide LoopInv, SpreadAtMost, SizeOf, NonNegative, Sum, Max;
    if equal {
      AssignKeepsSums(lens, Sum(lens) + 1, parts, sums, i, m);
      AssignKeepsSizes(lens, parts, sums, i, m);
    } else {
      AssignUnequal(lens, parts, sums, i, m);
    }
  }

  function EmptyParts(k: nat): seq<seq<nat>> {
    seq(k, _ => [])
  }

  function ZeroSums(k: nat): seq<int> {
    seq(k, _ => 0)
  }

  lemma StartInv(lens: seq<int>, equal: bool, k: nat)
    requires NonNegative(lens)
    ensures |EmptyParts(k)| == |ZeroSums(k)| == k && AssignInv(lens, equal, EmptyParts(k), ZeroSums(k), 0)
  {
    NothingYet(EmptyParts(k));
    assert Range(0) == [];
  }

  lemma FinalInv(lens: seq<int>, equal: bool, parts: seq<seq<nat>>, sums: seq<int>)
    requires AssignInv(lens, equal, parts, sums, |lens|)
    ensures ExactCover(parts, |lens|)
    ensures !equal && lens != [] ==> SpreadAtMost(Loads(lens, parts), Max(lens))
    ensures equal ==> SpreadAtMost(SizeOf(parts), 1)
  {
    if !equal {
      FinalLoads(lens, parts, sums);
    }
  }

  lemma FinalLoads(lens: seq<int>, parts: seq<seq<nat>>, sums: seq<int>)
    requires AssignInv(lens, false, parts, sums, |lens|)
    ensures lens != [] ==> SpreadAtMost(Loads(lens, parts), Max(lens))
  {
    assert Biased(lens, 0) == lens;
    assert Loads(lens, parts) == sums;
  }

  // ---------------------------------------------------------------- which item goes where

  /** No part weighs less, and every earlier one more. */
  ghost predicate FirstLightest(w: seq<int>, parts: seq<seq<nat>>, m: nat) {
    && m < |parts|
    && (forall j | 0 <= j < |parts| :: Load(w, parts[m]) <= Load(w, parts[j]))
    && (forall j | 0 <= j < m :: Load(w, parts[m]) < Load(w, parts[j]))
  }

  ghost predicate GoesToLightest(w: seq<int>, before: seq<seq<nat>>, after: seq<seq<nat>>, i: nat) {
    exists m: nat :: FirstLightest(w, before, m) && after == before[m := before[m] + [i]]
  }

  /** Item after item, each to the part that is lightest by then. */
  ghost predicate IsSchedule(w: seq<int>, k: nat, steps: seq<seq<seq<nat>>>, n: nat) {
    && |steps| == n + 1 && steps[0] == EmptyParts(k)
    && forall i | 0 <= i < n :: GoesToLightest(w, steps[i], steps[i + 1], i)
  }

  ghost predicate Scheduled(w: seq<int>, k: nat, parts: seq<seq<nat>>) {
    exists steps :: IsSchedule(w, k, steps, |w|) && parts == steps[|w|]
  }

  /** Adding to the smallest of the sums is a step of the schedule. */
  lemma NextItem(lens: seq<int>, bias: int, k: nat, steps: seq<seq<seq<nat>>>, parts: seq<seq<nat>>, sums: seq<int>,
                 i: nat, m: nat)
    requires IsSchedule(Biased(lens, bias), k, steps, i) && steps[i] == parts && LoopInv(lens, bias, parts, sums, i)
    requires m < |sums| && forall j | 0 <= j < |sums| :: sums[m] <= sums[j]
    requires forall j | 0 <= j < m :: sums[m] < sums[j]
    ensures IsSchedule(Biased(lens, bias), k, steps + [parts[m := parts[m] + [i]]], i + 1)
  {
    assert FirstLightest(Biased(lens, bias), parts, m);
    hide Load, Biased, ExactCover, EmptyParts;
    var more := steps + [parts[m := parts[m] + [i]]];
    forall j | 0 <= j < i + 1
      ensures GoesToLightest(Biased(lens, bias), more[j], more[j + 1], j)
    {
      assert j < i ==> GoesToLightest(Biased(lens, bias), steps[j], steps[j + 1], j);
    }
  }

  lemma AssignLoop(lens: seq<int>, equal: bool, parts: seq<seq<nat>>, sums: seq<int>, i: nat)
    requires i <= |lens| && AssignInv(lens, equal, parts, sums, i)
    ensures LoopInv(lens, if equal then Sum(lens) + 1 else 0, parts, sums, i)
  {
  }

  lemma StartSchedule(w: seq<int>, k: nat)
    ensures IsSchedule(w, k, [EmptyParts(k)], 0)
  {
  }

  lemma EndOfSchedule(lens: seq<int>, bias: int, k: nat, steps: seq<seq<seq<nat>>>)
    requires IsSchedule(Biased(lens, bias), k, steps, |lens|)
    ensures Scheduled(Biased(lens, bias), k, steps[|lens|])
  {
    assert |Biased(lens, bias)| == |lens|;
  }

  /** The schedule leaves no choice. */
  lemma {:induction false} SameSteps(w: seq<int>, k: nat, s: seq<seq<seq<nat>>>, t: seq<seq<seq<nat>>>, n: nat, i: nat)
    requires IsSchedule(w, k, s, n) && IsSchedule(w, k, t, n) && i <= n
    ensures s[i] == t[i]
  {
    if i > 0 {
      SameSteps(w, k, s, t, n, i - 1);
      assert GoesToLightest(w, s[i - 1], s[i - 1 + 1], i - 1) && GoesToLightest(w, t[i - 1], t[i - 1 + 1], i - 1);
      var a: nat :| FirstLightest(w, s[i - 1], a) && s[i] == s[i - 1][a := s[i - 1][a] + [i - 1]];
      var b: nat :| FirstLightest(w, s[i - 1], b) && t[i] == s[i - 1][b := s[i - 1][b] + [i - 1]];
      hide Load;
      assert a == b;
    }
  }

  lemma ScheduleOnce(w: seq<int>, k: nat, parts: seq<seq<nat>>, other: seq<seq<nat>>)
    requires Scheduled(w, k, parts) && Scheduled(w, k, other)
    ensures parts == other
  {
    var s :| IsSchedule(w, k, s, |w|) && parts == s[|w|];
    var t :| IsSchedule(w, k, t, |w|) && other == t[|w|];
    SameSteps(w, k, s, t, |w|, |w|);
  }

  /** The assignment loop with its result for both modes. */
  method Assign(lens: seq<int>, k: nat, equal: bool) returns (parts: seq<seq<nat>>)
    requires NonNegative(lens) && 1 <= k
    ensures |parts| == k && ExactCover(parts, |lens|)
    ensures lens != [] && !equal ==> SpreadAtMost(Loads(lens, parts), Max(lens))
    ensures equal ==> SpreadAtMost(SizeOf(parts), 1)
    ensures Scheduled(Biased(lens, if equal then Sum(lens) + 1 else 0), k, parts)
  {
    var bias := if equal then Sum(lens) + 1 else 0;
    hide *;
    parts := EmptyParts(k);
    var sums := ZeroSums(k);
    ghost var steps := [parts];
    StartInv(lens, equal, k);
    StartSchedule(Biased(lens, bias), k);
    for i := 0 to |lens|
      invariant |parts| == |sums| == k && AssignInv(lens, equal, parts, sums, i)
      invariant |steps| == i + 1 && steps[i] == parts && IsSchedule(Biased(lens, bias), k, steps, i)
    {
      var m := Smallest(sums);
      AssignLoop(lens, equal, parts, sums, i);
      NextItem(lens, bias, k, steps, parts, sums, i, m);
      AssignKeepsInv(lens, equal, parts, sums, i, m);
      steps := steps + [parts[m := parts[m] + [i]]];
      parts := parts[m := parts[m] + [i]];
      sums := sums[m := sums[m] + lens[i] + bias];
    }
    FinalInv(lens, equal, parts, sums);
    EndOfSchedule(lens, bias, k, steps);
  }

  lemma DivisibleSizes(parts: seq<seq<nat>>, k: nat, n: nat, i: nat)
    requires |parts| == k && i < k && ExactCover(parts, n) && SpreadAtMost(SizeOf(parts), 1) && n % k == 0
    ensures |parts[i]| * k == n
  {
    CoverSize(parts, n);
    SizesAreEqual(SizeOf(parts), n / k, i);
  }

  lemma CoverSize(parts: seq<seq<nat>>, n: nat)
    requires ExactCover(parts, n)
    ensures Sum(SizeOf(parts)) == n
  {
    SizesAddUp(parts);
    assert |multiset(Flatten(parts))| == |multiset(Range(n))|;
  }

  /** With equal sizes the final assertion holds exactly when k divides the number of items. */
  method Greedy(lens: seq<int>, k: nat, equal: bool) returns (r: Result<seq<seq<nat>>, Error>)
    requires NonNegative(lens)
    ensures k == 0 ==> r == if lens == [] then Success([]) else Failure(NoPart)
    ensures k > 0 ==> (r.Success? <==> !equal || |lens| % k == 0)
    ensures k > 0 && r.Success? ==> |r.value| == k && ExactCover(r.value, |lens|)
    ensures k > 0 && r.Success? && !equal && lens != [] ==> SpreadAtMost(Loads(lens, r.value), Max(lens))
    ensures k > 0 && r.Success? && equal ==> forall i | 0 <= i < k :: |r.value[i]| * k == |lens|
    ensures k > 0 && r.Success? ==> Scheduled(Biased(lens, if equal then Sum(lens) + 1 else 0), k, r.value)
  {
    hide Scheduled, Biased;
    if k == 0 {
      return if lens == [] then Success([]) else Failure(NoPart);
    }
    var parts := Assign(lens, k, equal);
    if equal {
      var ok := CheckEqual(parts, k, |lens|);
      if |lens| % k == 0 {
        forall i | 0 <= i < k
          ensures |parts[i]| * k == |lens|
        {
          DivisibleSizes(parts, k, |lens|, i);
        }
      } else {
        QuotientOfMultiple(|parts[0]|, k);
      }
      if !ok {
        return Failure(UnequalParts);
      }
    }
    return Success(parts);
  }
}
