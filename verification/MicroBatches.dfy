/**
 get_seqlen_balanced_partitions and the dynamic micro-batches built on it: splitting, reordering, and
 restoring the original row order.
 */
module MicroBatches {
  import opened Wrappers
  import opened Arithmetic
  import opened Partition
  import opened KarmarkarKarp
  import opened DifferencingRun
  import opened MicroBatchTokens
  import opened MicroBatchCounts
  import opened MicroBatchOrder
  import opened Sorting

  // ---------------------------------------------------------------- sorting one part

  predicate Ascending(s: seq<nat>) {
    forall i, j | 0 <= i < j < |s| :: s[i] <= s[j]
  }

  predicate AtMost(a: nat, b: nat) {
    a <= b
  }

  /** sorted(partition) */
  function SortIndices(s: seq<nat>): (r: seq<nat>)
    ensures Ascending(r) && multiset(r) == multiset(s)
  {
    SortSorts(AtMost, s);
    Sort(AtMost, s)
  }

  function SortEach(parts: seq<seq<nat>>): seq<seq<nat>> {
    seq(|parts|, i requires 0 <= i < |parts| => SortIndices(parts[i]))
  }

  lemma {:induction false} SortEachKeepsCover(parts: seq<seq<nat>>)
    ensures multiset(Flatten(SortEach(parts))) == multiset(Flatten(parts))
  {
    if parts != [] {
      SortEachKeepsCover(parts[1..]);
      assert SortEach(parts)[1..] == SortEach(parts[1..]);
      assert SortEach(parts)[0] == SortIndices(parts[0]);
      hide Flatten, SortEach;
      FlattenStep(parts);
      FlattenStep(SortEach(parts));
    }
  }

  lemma SortEachKeepsLoads(lens: seq<int>, parts: seq<seq<nat>>)
    ensures Loads(lens, SortEach(parts)) == Loads(lens, parts)
  {
    forall i | 0 <= i < |parts|
      ensures Loads(lens, SortEach(parts))[i] == Loads(lens, parts)[i]
    {
      SumOfPermutation<nat>(LengthOf(lens), SortIndices(parts[i]), parts[i]);
    }
  }

  // ---------------------------------------------------------------- _check_and_sort_partitions

  ghost predicate Reaches(parts: seq<seq<nat>>, x: nat) {
    exists i | 0 <= i < |parts| :: x in parts[i]
  }

  /** The checks pass exactly on k non-empty parts that together reach the indices below n. */
  method CheckAndSort(parts: seq<seq<nat>>, k: nat, n: nat) returns (r: Result<seq<seq<nat>>, Error>)
    ensures r.Success? <==>
              && |parts| == k && (forall i | 0 <= i < k :: parts[i] != [])
              && forall x: nat :: Reaches(parts, x) <==> x < n
    ensures r.Success? ==> r.value == SortEach(parts)
  {
    if |parts| != k {
      return Failure(WrongCount);
    }
    var seen: set<nat> := {};
    var sorted: seq<seq<nat>> := [];
    for i := 0 to k
      invariant forall j | 0 <= j < i :: parts[j] != []
      invariant sorted == SortEach(parts)[..i]
      invariant forall x: nat :: x in seen <==> Reaches(parts[..i], x)
    {
      if parts[i] == [] {
        return Failure(EmptyPart);
      }
      assert forall x: nat :: Reaches(parts[..i + 1], x) <==> Reaches(parts[..i], x) || x in parts[i] by {
        assert parts[..i + 1][i] == parts[i];
        assert forall j | 0 <= j < i :: parts[..i + 1][j] == parts[..i][j];
      }
      seen := seen + set j | 0 <= j < |parts[i]| :: parts[i][j];
      sorted := sorted + [SortIndices(parts[i])];
    }
    assert parts[..k] == parts;
    forall x: nat
      ensures x in Range(n) <==> x < n
    {
      if x < n {
        assert Range(n)[x] == x;
      }
    }
    if seen != set x: nat | x in Range(n) {
      return Failure(NotACover);
    }
    return Success(sorted);
  }

  lemma CoverReachesAll(parts: seq<seq<nat>>, n: nat, x: nat)
    requires ExactCover(parts, n)
    ensures Reaches(parts, x) <==> x < n
  {
    if x < n {
      var i := CoverReaches(parts, n, x);
    }
    forall i | 0 <= i < |parts| && x in parts[i]
      ensures x < n
    {
      CoverInRange(parts, n, i);
    }
  }

  // ---------------------------------------------------------------- get_seqlen_balanced_partitions

  /** The parts of the differencing run, each in ascending order. */
  ghost predicate SortedParts(lens: seq<int>, k: nat, equal: bool, parts: seq<seq<nat>>) {
    exists raw :: Differenced(lens, k, equal, raw) && SameParts(raw, parts)
  }

  ghost predicate SameParts(raw: seq<seq<nat>>, parts: seq<seq<nat>>) {
    |raw| == |parts| && forall i | 0 <= i < |raw| :: Ascending(parts[i]) && multiset(parts[i]) == multiset(raw[i])
  }

  lemma AscendingOnce(s: seq<nat>, t: seq<nat>)
    requires Ascending(s) && Ascending(t) && multiset(s) == multiset(t)
    ensures s == t
  {
    SortedOnce(AtMost, s, t);
  }

  /** The sorted parts are a function of the lengths too. */
  lemma SortedPartsOnce(lens: seq<int>, k: nat, equal: bool, parts: seq<seq<nat>>, other: seq<seq<nat>>)
    requires lens != [] && NonNegative(lens) && 1 <= k
    requires SortedParts(lens, k, equal, parts) && SortedParts(lens, k, equal, other)
    ensures parts == other
  {
    hide Differenced;
    var raw :| Differenced(lens, k, equal, raw) && SameParts(raw, parts);
    var raw' :| Differenced(lens, k, equal, raw') && SameParts(raw', other);
    PartitionIsUnique(lens, k, equal, raw, raw');
    forall i | 0 <= i < |raw|
      ensures parts[i] == other[i]
    {
      AscendingOnce(parts[i], other[i]);
    }
  }

  /** No part of the result is empty, each is sorted, and the loads are balanced as promised. */
  ghost predicate BalancedPartition(lens: seq<int>, parts: seq<seq<nat>>, k: nat, equal: bool)
    requires lens != [] && 1 <= k
  {
    && Balanced(lens, parts, k, equal)
    && forall i | 0 <= i < k :: parts[i] != [] && Ascending(parts[i])
  }

  lemma SortedPartsBalanced(lens: seq<int>, parts: seq<seq<nat>>, k: nat, equal: bool)
    requires lens != [] && 1 <= k <= |lens| && Balanced(lens, parts, k, equal)
    ensures BalancedPartition(lens, SortEach(parts), k, equal)
    ensures forall i | 0 <= i < k :: parts[i] != []
  {
    SortEachKeepsCover(parts);
    SortEachKeepsLoads(lens, parts);
    forall i | 0 <= i < k
      ensures |SortEach(parts)[i]| == |parts[i]| && Ascending(SortEach(parts)[i])
      ensures parts[i] != []
    {
      assert |multiset(SortIndices(parts[i]))| == |multiset(parts[i])|;
      if equal {
      }
    }
  }

  /**
   The call succeeds exactly when there is an item for every part and, for equal sizes, when the sizes
   come out even; none of the assertions on the computed partition can fire.
   */
  method GetSeqlenBalancedPartitions(lens: seq<int>, k: nat, equal: bool) returns (r: Result<seq<seq<nat>>, Error>)
    requires NonNegative(lens)
    ensures |lens| < k ==> r == Failure(TooFewItems)
    ensures k == 0 ==> r == Failure(if equal then DivisionByZero else IndexError)
    ensures 1 <= k <= |lens| && equal && |lens| % k != 0 ==> r == Failure(NotDivisible)
    ensures r.Success? <==> 1 <= k <= |lens| && (equal ==> |lens| % k == 0)
    ensures r.Success? ==> BalancedPartition(lens, r.value, k, equal) && SortedParts(lens, k, equal, r.value)
  {
    hide Differenced;
    if |lens| < k {
      return Failure(TooFewItems);
    }
    var partitions := KarmarkarKarpPartition(lens, k, equal);
    if partitions.Failure? {
      return Failure(partitions.error);
    }
    SortedPartsBalanced(lens, partitions.value, k, equal);
    forall x: nat
      ensures Reaches(partitions.value, x) <==> x < |lens|
    {
      CoverReachesAll(partitions.value, |lens|, x);
    }
    r := CheckAndSort(partitions.value, k, |lens|);
    assert r.Success? ==> SameParts(partitions.value, r.value);
  }

  /** The approximation guarantee of the unequal mode, against every other partition. */
  lemma PartitionQuality(lens: seq<int>, parts: seq<seq<nat>>, k: nat, other: seq<seq<nat>>)
    requires lens != [] && NonNegative(lens) && 1 <= k && BalancedPartition(lens, parts, k, false)
    requires |other| == k && ExactCover(other, |lens|)
    ensures CloseToAverage(k, Max(Loads(lens, parts)), Sum(lens), Max(lens))
    ensures WithinTwice(k, Max(Loads(lens, parts)), Max(Loads(lens, other)))
  {
    NearTheAverage(lens, parts);
    WithinTwiceTheBest(lens, parts, other);
  }

  // ---------------------------------------------------------------- permutations of parts

  function CountIn(x: nat): seq<nat> -> int {
    (p: seq<nat>) => multiset(p)[x]
  }

  lemma {:induction false} FlattenCount(parts: seq<seq<nat>>, x: nat)
    ensures multiset(Flatten(parts))[x] == SumOf(CountIn(x), parts)
  {
    if parts != [] {
      FlattenCount(parts[1..], x);
    }
  }

  lemma PermutedPartsCover(a: seq<seq<nat>>, b: seq<seq<nat>>)
    requires multiset(a) == multiset(b)
    ensures multiset(Flatten(a)) == multiset(Flatten(b))
  {
    forall x: nat
      ensures multiset(Flatten(a))[x] == multiset(Flatten(b))[x]
    {
      FlattenCount(a, x);
      FlattenCount(b, x);
      SumOfPermutation(CountIn(x), a, b);
    }
  }

  // ---------------------------------------------------------------- rearrange_micro_batches

  datatype SplitError =
    | SequenceTooLong
    | ZeroTokenLimit
    | ZeroDivisor
    | TooManyMicroBatches
    | Unbalanced(error: Error)

  lemma WorkloadsNonNegative(seqLens: seq<nat>)
    ensures NonNegative(Workloads(seqLens))
  {
  }

  /**
   What holds of the tokens in every micro-batch: the limit is kept if the rows are safe, only if there are not too
   many tokens, and for rows of one length exactly when the rounded-up average number of rows fits; in any case
   24577 times the tokens are at most 2 - 1/k times the work of a row as long as the limit.
   */
  ghost predicate TokensAsPromised(seqLens: seq<nat>, parts: seq<seq<nat>>, limit: nat)
    requires seqLens != [] && parts != []
  {
    && (Safe(seqLens, limit, |parts|) ==> WithinLimit(seqLens, parts, limit))
    && (WithinLimit(seqLens, parts, limit) ==> Sum(seqLens) <= |parts| * limit)
    && (AllAre(seqLens, seqLens[0]) ==>
          (WithinLimit(seqLens, parts, limit) <==> seqLens[0] * CeilDiv(|seqLens|, |parts|) <= limit))
    && (RowsFit(seqLens, limit) ==>
          forall i | 0 <= i < |parts| :: AtMostTwoFullRows(|parts|, Load(seqLens, parts[i]), limit))
  }

  lemma TokenPromises(seqLens: seq<nat>, limit: nat, minCount: Option<int>, peers: seq<int>, dividedBy: Option<nat>,
                      parts: seq<seq<nat>>)
    requires limit > 0 && (dividedBy.Some? ==> dividedBy.value > 0)
    requires Split(seqLens, parts)
    requires |parts| == MicroBatchCount(seqLens, limit, minCount, peers, dividedBy)
    ensures TokensAsPromised(seqLens, parts, limit)
  {
    if Safe(seqLens, limit, |parts|) {
      SafeRowsFit(seqLens, parts, limit);
    }
    if WithinLimit(seqLens, parts, limit) {
      TooManyTokens(seqLens, parts, limit);
    }
    if AllAre(seqLens, seqLens[0]) {
      EqualRowsExactlyWhen(seqLens, seqLens[0], parts, limit);
    }
    if RowsFit(seqLens, limit) {
      CountCoversTokens(seqLens, limit, minCount, peers, dividedBy);
      forall i | 0 <= i < |parts|
        ensures AtMostTwoFullRows(|parts|, Load(seqLens, parts[i]), limit)
      {
        TokensAtMost(seqLens, parts, limit, i);
      }
    }
  }

  /**
   The micro-batches in their order: the sorted parts as they come, or from the heaviest in the middle
   outwards, by turns to the left and to the right.
   */
  ghost predicate Arranged(w: seq<int>, k: nat, balance: bool, r: seq<seq<nat>>) {
    exists parts, sorted :: SortedParts(w, k, false, parts) && ArrangedFrom(w, balance, parts, sorted, r)
  }

  ghost predicate ArrangedFrom(w: seq<int>, balance: bool, parts: seq<seq<nat>>, sorted: seq<seq<nat>>,
                               r: seq<seq<nat>>) {
    if balance then HeaviestFirst(w, sorted) && multiset(sorted) == multiset(parts) && FromTheMiddle(sorted, r)
    else r == parts
  }

  /** The heaviest in the middle, the next one right of it, the third left of it, and so on. */
  ghost predicate FromTheMiddle(sorted: seq<seq<nat>>, r: seq<seq<nat>>) {
    && |r| == |sorted|
    && (forall i | 0 <= 2 * i < |r| :: r[(|r| - 1) / 2 - i] == sorted[2 * i])
    && (forall i | 0 <= 2 * i + 1 < |r| :: r[(|r| - 1) / 2 + 1 + i] == sorted[2 * i + 1])
  }

  lemma ReorderedFromTheMiddle(sorted: seq<seq<nat>>)
    ensures FromTheMiddle(sorted, Reordered(sorted))
  {
    var n, peak, r := |sorted|, (|sorted| - 1) / 2, Reordered(sorted);
    forall i | 0 <= i < n
      ensures |r| == n && PlaceOf(peak, i) < n && r[i] == sorted[PlaceOf(peak, i)]
    {
      ReorderedAt(sorted, i);
    }
    hide Reordered;
    if n == 0 {
      assert |Reordered(sorted)| == 0;
    }
  }

  lemma FromTheMiddleOnce(sorted: seq<seq<nat>>, r: seq<seq<nat>>)
    requires FromTheMiddle(sorted, r)
    ensures r == Reordered(sorted)
  {
    var peak := (|r| - 1) / 2;
    forall i | 0 <= i < |r|
      ensures |Reordered(sorted)| == |r| && r[i] == Reordered(sorted)[i]
    {
      ReorderedAt(sorted, i);
      if i <= peak {
        assert r[peak - (peak - i)] == sorted[2 * (peak - i)];
      } else {
        assert r[peak + 1 + (i - peak - 1)] == sorted[2 * (i - peak - 1) + 1];
      }
    }
    assert |Reordered(sorted)| == |r|;
  }

  /** Two parts of a cover that begin with the same index are the same. */
  lemma SameFirstIndex(parts: seq<seq<nat>>, n: nat, a: seq<nat>, b: seq<nat>)
    requires ExactCover(parts, n) && a in parts && b in parts && a != [] && b != [] && a[0] == b[0]
    ensures a == b
  {
    var x := a[0];
    if a != b {
      SumOfTwo(CountIn(x), parts, a, b);
      FlattenCount(parts, x);
      RangeCounts(n, x);
      assert false;
    }
  }

  lemma HeaviestFirstOnce(w: seq<int>, s: seq<seq<nat>>, t: seq<seq<nat>>, n: nat)
    requires HeaviestFirst(w, s) && HeaviestFirst(w, t) && multiset(s) == multiset(t)
    requires ExactCover(s, n) && [] !in s
    ensures s == t
  {
    var le := (a: seq<nat>, b: seq<nat>) => NoLighter(w, a, b);
    forall x, y | x in s && y in s && le(x, y) && le(y, x)
      ensures x == y
    {
      SameFirstIndex(s, n, x, y);
    }
    SortedOnce(le, s, t);
  }

  /** The micro-batches and their order are a function of the row lengths and their number. */
  lemma ArrangedOnce(w: seq<int>, k: nat, balance: bool, r: seq<seq<nat>>, other: seq<seq<nat>>)
    requires w != [] && NonNegative(w) && 1 <= k && ExactCover(r, |w|) && [] !in r
    requires Arranged(w, k, balance, r) && Arranged(w, k, balance, other)
    ensures r == other
  {
    hide SortedParts, Reordered, FromTheMiddle, HeaviestFirst, ExactCover;
    var parts, sorted :| SortedParts(w, k, false, parts) && ArrangedFrom(w, balance, parts, sorted, r);
    var parts', sorted' :| SortedParts(w, k, false, parts') && ArrangedFrom(w, balance, parts', sorted', other);
    SortedPartsOnce(w, k, false, parts, parts');
    if balance {
      FromTheMiddleOnce(sorted, r);
      FromTheMiddleOnce(sorted', other);
      ReorderedMultiset(sorted);
      CoverOfPermutation(r, sorted, |w|);
      HeaviestFirstOnce(w, sorted, sorted', |w|);
    }
  }

  lemma CoverOfPermutation(a: seq<seq<nat>>, b: seq<seq<nat>>, n: nat)
    requires multiset(a) == multiset(b) && ExactCover(a, n) && [] !in a
    ensures ExactCover(b, n) && [] !in b
  {
    PermutedPartsCover(a, b);
    assert [] !in multiset(a);
  }

  /** The order of the micro-batches. */
  method Arrange(w: seq<int>, k: nat, parts: seq<seq<nat>>, balance: bool) returns (r: seq<seq<nat>>)
    requires w != [] && 1 <= k && BalancedPartition(w, parts, k, false) && SortedParts(w, k, false, parts)
    ensures |r| == k && ExactCover(r, |w|) && [] !in r && SpreadAtMost(Loads(w, r), Max(w))
    ensures Arranged(w, k, balance, r) && (balance ==> RisesThenFalls(w, r, (k - 1) / 2))
  {
    hide SortedParts;
    if !balance {
      assert ArrangedFrom(w, balance, parts, parts, parts);
      return parts;
    }
    var sorted := SortByKey(w, parts);
    assert |multiset(sorted)| == |multiset(parts)|;
    ReorderedShape(w, sorted);
    ReorderedMultiset(sorted);
    ReorderKeeps(w, parts, Reordered(sorted));
    ReorderedFromTheMiddle(sorted);
    r := Reordered(sorted);
    assert ArrangedFrom(w, balance, parts, sorted, r);
  }

  /**
   rearrange_micro_batches, for the index lists.  maxSeqLen is the width of the attention mask (or the
   longest nested row), peers the counts of the other ranks ([] without a process group).
   */
  method RearrangeMicroBatches(
    seqLens: seq<nat>, maxSeqLen: nat, maxTokenLen: nat, minCount: Option<int>, peers: seq<int>,
    dividedBy: Option<nat>, balance: bool)
    returns (r: Result<seq<seq<nat>>, SplitError>)
    ensures maxTokenLen < maxSeqLen <==> r == Failure(SequenceTooLong)
    ensures maxTokenLen == maxSeqLen == 0 <==> r == Failure(ZeroTokenLimit)
    ensures maxSeqLen <= maxTokenLen && 0 < maxTokenLen && dividedBy == Some(0) <==> r == Failure(ZeroDivisor)
    ensures maxSeqLen <= maxTokenLen && 0 < maxTokenLen && (dividedBy.Some? ==> dividedBy.value > 0) ==>
              var count := MicroBatchCount(seqLens, maxTokenLen, minCount, peers, dividedBy);
              && (count > |seqLens| <==> r == Failure(TooManyMicroBatches))
              && (count < 1 <==> r == Failure(Unbalanced(IndexError)))
    ensures r.Success? <==>
              && maxSeqLen <= maxTokenLen && 0 < maxTokenLen && (dividedBy.Some? ==> dividedBy.value > 0)
              && 1 <= MicroBatchCount(seqLens, maxTokenLen, minCount, peers, dividedBy) <= |seqLens|
    ensures r.Success? ==>
              && |r.value| == MicroBatchCount(seqLens, maxTokenLen, minCount, peers, dividedBy)
              && Split(seqLens, r.value) && TokensAsPromised(seqLens, r.value, maxTokenLen)
              && Arranged(Workloads(seqLens), |r.value|, balance, r.value)
              && (balance ==> RisesThenFalls(Workloads(seqLens), r.value, (|r.value| - 1) / 2))
    ensures r.Success? && (forall i | 0 <= i < |seqLens| :: seqLens[i] <= maxSeqLen) ==>
              && Sum(seqLens) <= |r.value| * maxTokenLen
              && forall i | 0 <= i < |r.value| :: AtMostTwoFullRows(|r.value|, Load(seqLens, r.value[i]), maxTokenLen)
  {
    hide SortedParts, Arranged, MicroBatchCount, TokensAsPromised, RisesThenFalls;
    if maxTokenLen < maxSeqLen {
      return Failure(SequenceTooLong);
    }
    if maxTokenLen == 0 {
      return Failure(ZeroTokenLimit);
    }
    if dividedBy == Some(0) {
      return Failure(ZeroDivisor);
    }
    var count := MicroBatchCount(seqLens, maxTokenLen, minCount, peers, dividedBy);
    if count > |seqLens| {
      return Failure(TooManyMicroBatches);
    }
    var w := Workloads(seqLens);
    WorkloadsNonNegative(seqLens);
    var partitions := GetSeqlenBalancedPartitions(w, if count < 0 then 0 else count, false);
    if partitions.Failure? {
      return Failure(Unbalanced(partitions.error));
    }
    var parts := Arrange(w, count, partitions.value, balance);
    TokenPromises(seqLens, maxTokenLen, minCount, peers, dividedBy, parts);
    if RowsFit(seqLens, maxTokenLen) {
      CountCoversTokens(seqLens, maxTokenLen, minCount, peers, dividedBy);
    }
    return Success(parts);
  }

  lemma PermutedPart(a: seq<seq<nat>>, b: seq<seq<nat>>, i: nat) returns (j: nat)
    requires multiset(a) == multiset(b) && i < |b|
    ensures j < |a| && a[j] == b[i]
  {
    assert b[i] in multiset(b);
    assert b[i] in a;
    j :| 0 <= j < |a| && a[j] == b[i];
  }

  lemma PermutedSpread(w: seq<int>, a: seq<seq<nat>>, b: seq<seq<nat>>, bound: int)
    requires multiset(a) == multiset(b) && SpreadAtMost(Loads(w, a), bound)
    ensures SpreadAtMost(Loads(w, b), bound)
  {
    forall i, j | 0 <= i < |b| && 0 <= j < |b|
      ensures Loads(w, b)[i] - Loads(w, b)[j] <= bound
    {
      var p := PermutedPart(a, b, i);
      var q := PermutedPart(a, b, j);
      assert Loads(w, a)[p] - Loads(w, a)[q] <= bound;
    }
  }

  lemma ReorderKeeps(w: seq<int>, a: seq<seq<nat>>, b: seq<seq<nat>>)
    requires multiset(a) == multiset(b) && w != []
    requires ExactCover(a, |w|) && [] !in a && SpreadAtMost(Loads(w, a), Max(w))
    ensures |a| == |b| && ExactCover(b, |w|) && [] !in b && SpreadAtMost(Loads(w, b), Max(w))
  {
    assert |multiset(a)| == |multiset(b)|;
    PermutedPartsCover(a, b);
    assert [] !in multiset(a);
    PermutedSpread(w, a, b, Max(w));
  }

  // ---------------------------------------------------------------- restoring the row order

  /** Position j holds the last occurrence of its index among the first n. */
  ghost predicate LastAt(idx: seq<nat>, j: nat, n: nat)
    requires j < n <= |idx|
  {
    forall l | j < l < n :: idx[l] != idx[j]
  }

  /** Index j is not among the first n entries. */
  ghost predicate Missing(idx: seq<nat>, j: nat, n: nat)
    requires n <= |idx|
  {
    forall l | 0 <= l < n :: idx[l] != j
  }

  /** The copied map after its first n assignments. */
  function Overwritten(idx: seq<nat>, n: nat): (r: seq<nat>)
    requires InRange(idx, |idx|) && n <= |idx|
    ensures |r| == |idx|
  {
    if n == 0 then idx else Overwritten(idx, n - 1)[idx[n - 1] := n - 1]
  }

  /** The last position of an index wins; an index that does not occur keeps the copied entry. */
  lemma {:induction false} OverwrittenEntries(idx: seq<nat>, n: nat, j: nat)
    requires InRange(idx, |idx|) && n <= |idx| && j < |idx|
    ensures j < n && LastAt(idx, j, n) ==> Overwritten(idx, n)[idx[j]] == j
    ensures Missing(idx, j, n) ==> Overwritten(idx, n)[j] == idx[j]
  {
    if n > 0 {
      OverwrittenEntries(idx, n - 1, j);
    }
  }

  /** get_reverse_idx: a copy of the map, overwritten entry by entry. */
  method GetReverseIdx(idxMap: seq<nat>) returns (reverse: array<nat>)
    requires InRange(idxMap, |idxMap|)
    ensures fresh(reverse) && reverse[..] == Overwritten(idxMap, |idxMap|)
  {
    reverse := new nat[|idxMap|](i requires 0 <= i < |idxMap| => idxMap[i]);
    for i := 0 to |idxMap|
      invariant reverse[..] == Overwritten(idxMap, i)
    {
      reverse[idxMap[i]] := i;
    }
  }

  ghost predicate IsPermutation(idx: seq<nat>) {
    multiset(idx) == multiset(Range(|idx|))
  }

  lemma {:induction false} RangeCounts(n: nat, x: nat)
    ensures multiset(Range(n))[x] == if x < n then 1 else 0
  {
    if n > 0 {
      RangeCounts(n - 1, x);
      assert Range(n) == Range(n - 1) + [n - 1];
    }
  }

  lemma OccursTwice(s: seq<nat>, a: nat, b: nat)
    requires a < b < |s| && s[a] == s[b]
    ensures multiset(s)[s[a]] >= 2
  {
    assert s == s[..a] + [s[a]] + s[a + 1..b] + [s[b]] + s[b + 1..];
  }

  /** In a permutation every index below the length occurs at exactly one position. */
  lemma PermutationOnce(idx: seq<nat>, i: nat, j: nat)
    requires IsPermutation(idx) && i < |idx| && j < |idx| && idx[i] == idx[j]
    ensures i == j && idx[i] < |idx|
  {
    if i < j {
      OccursTwice(idx, i, j);
    } else if j < i {
      OccursTwice(idx, j, i);
    }
    assert idx[i] in multiset(idx);
    RangeCounts(|idx|, idx[i]);
  }

  lemma PermutationHits(idx: seq<nat>, x: nat) returns (i: nat)
    requires IsPermutation(idx) && x < |idx|
    ensures i < |idx| && idx[i] == x
  {
    assert Range(|idx|)[x] == x;
    assert x in multiset(Range(|idx|));
    assert x in idx;
    i :| 0 <= i < |idx| && idx[i] == x;
  }

  ghost predicate Inverse(idx: seq<nat>, reverse: seq<nat>) {
    && |reverse| == |idx|
    && (forall i | 0 <= i < |idx| :: idx[i] < |idx| && reverse[idx[i]] == i)
    && (forall j | 0 <= j < |idx| :: reverse[j] < |idx| && idx[reverse[j]] == j)
  }

  /** On a permutation, what GetReverseIdx leaves is its two-sided inverse. */
  lemma ReverseInverts(idx: seq<nat>)
    requires IsPermutation(idx) && InRange(idx, |idx|)
    ensures Inverse(idx, Overwritten(idx, |idx|))
  {
    var reverse := Overwritten(idx, |idx|);
    forall i | 0 <= i < |idx|
      ensures reverse[idx[i]] == i
    {
      forall l | i < l < |idx|
        ensures idx[l] != idx[i]
      {
        if idx[l] == idx[i] {
          PermutationOnce(idx, l, i);
        }
      }
      OverwrittenEntries(idx, |idx|, i);
    }
    forall j | 0 <= j < |idx|
      ensures reverse[j] < |idx| && idx[reverse[j]] == j
    {
      var i := PermutationHits(idx, j);
    }
  }

  function Pick<T>(rows: seq<T>, idx: seq<nat>): seq<T>
    requires InRange(idx, |rows|)
  {
    seq(|idx|, i requires 0 <= i < |idx| => rows[idx[i]])
  }

  datatype RestoreError = LengthMismatch | IndexOutOfRange

  lemma OverwrittenInRange(idx: seq<nat>, n: nat)
    requires InRange(idx, |idx|) && n <= |idx|
    ensures InRange(Overwritten(idx, n), |idx|)
  {
  }

  /** restore_dynamic_batch: the assertion on the length, then the rows at the reversed indices. */
  method RestoreDynamicBatch<T>(data: seq<T>, batchIdx: seq<seq<nat>>) returns (r: Result<seq<T>, RestoreError>)
    ensures |Flatten(batchIdx)| != |data| ==> r == Failure(LengthMismatch)
    ensures r.Success? <==> |Flatten(batchIdx)| == |data| && InRange(Flatten(batchIdx), |data|)
    ensures r.Success? ==>
              && InRange(Overwritten(Flatten(batchIdx), |data|), |data|)
              && r.value == Pick(data, Overwritten(Flatten(batchIdx), |data|))
  {
    var indices := Flatten(batchIdx);
    if |indices| != |data| {
      return Failure(LengthMismatch);
    }
    if !InRange(indices, |data|) {
      return Failure(IndexOutOfRange);
    }
    var reverse := GetReverseIdx(indices);
    OverwrittenInRange(indices, |indices|);
    return Success(Pick(data, reverse[..]));
  }

  function MapRows<T, U>(f: T -> U, rows: seq<T>): seq<U> {
    seq(|rows|, i requires 0 <= i < |rows| => f(rows[i]))
  }

  /** What a row-wise computation yields on one micro-batch after the other, concatenated. */
  function PerMicroBatch<T, U>(f: T -> U, rows: seq<T>, parts: seq<seq<nat>>): (r: seq<U>)
    requires forall i | 0 <= i < |parts| :: InRange(parts[i], |rows|)
    ensures |r| == |Flatten(parts)|
  {
    if parts == [] then []
    else MapRows(f, Pick(rows, parts[0])) + PerMicroBatch(f, rows, parts[1..])
  }

  lemma {:induction false} PerMicroBatchRow<T, U>(f: T -> U, rows: seq<T>, parts: seq<seq<nat>>, i: nat)
    requires forall p | 0 <= p < |parts| :: InRange(parts[p], |rows|)
    requires i < |Flatten(parts)|
    ensures Flatten(parts)[i] < |rows| && PerMicroBatch(f, rows, parts)[i] == f(rows[Flatten(parts)[i]])
  {
    if i >= |parts[0]| {
      PerMicroBatchRow(f, rows, parts[1..], i - |parts[0]|);
    }
  }

  lemma CoverIsPermutation(parts: seq<seq<nat>>, n: nat)
    requires ExactCover(parts, n)
    ensures |Flatten(parts)| == n && IsPermutation(Flatten(parts)) && InRange(Flatten(parts), n)
    ensures forall p | 0 <= p < |parts| :: InRange(parts[p], n)
  {
    assert |multiset(Flatten(parts))| == |multiset(Range(n))|;
    forall i | 0 <= i < n
      ensures Flatten(parts)[i] < n
    {
      PermutationOnce(Flatten(parts), i, i);
    }
    forall p | 0 <= p < |parts|
      ensures InRange(parts[p], n)
    {
      CoverInRange(parts, n, p);
    }
  }

  /**
   Splitting by any exact cover in any order, computing row by row on every micro-batch, and restoring
   gives each row's result at the row's original place.
   */
  lemma MicroBatchingIsTransparent<T, U>(f: T -> U, rows: seq<T>, parts: seq<seq<nat>>)
    requires ExactCover(parts, |rows|)
    ensures |Flatten(parts)| == |rows| && InRange(Flatten(parts), |rows|)
    ensures forall p | 0 <= p < |parts| :: InRange(parts[p], |rows|)
    ensures InRange(Overwritten(Flatten(parts), |rows|), |rows|)
    ensures Pick(PerMicroBatch(f, rows, parts), Overwritten(Flatten(parts), |rows|)) == MapRows(f, rows)
  {
    CoverIsPermutation(parts, |rows|);
    ReverseInverts(Flatten(parts));
    var reverse := Overwritten(Flatten(parts), |rows|);
    forall i | 0 <= i < |rows|
      ensures PerMicroBatch(f, rows, parts)[reverse[i]] == f(rows[i])
    {
      PerMicroBatchRow(f, rows, parts, reverse[i]);
    }
  }

  // ---------------------------------------------------------------- a promise the code does not keep

  /**
   The documentation calls maxTokenLen the largest number of tokens of a micro-batch.  Three rows of 6
   tokens with a limit of 10 get two micro-batches, and in every split into two one of them has 12.
   */
  lemma TokenLimitCanBeExceeded(parts: seq<seq<nat>>)
    requires |parts| == 2 && ExactCover(parts, 3)
    ensures MicroBatchCount([6, 6, 6], 10, None, [], None) == 2
    ensures Max(Loads([6, 6, 6], parts)) >= 12
  {
    var lens := [6, 6, 6];
    assert Sum([6, 6, 6]) == 18 by {
      assert [6, 6, 6][1..] == [6, 6] && [6, 6][1..] == [6] && [6][1..] == [];
      assert Sum([6]) == 6 && Sum([6, 6]) == 12;
    }
    var m := Max(Loads(lens, parts));
    AnyAssignmentCarriesAverage(lens, parts);
    CoverInRange(parts, 3, 0);
    CoverInRange(parts, 3, 1);
    LoadOfEqual(lens, 6, parts[0]);
    LoadOfEqual(lens, 6, parts[1]);
    assert m in Loads(lens, parts);
  }
}
