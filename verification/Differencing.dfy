/**
 The values behind karmarkar_karp: sets of items, states of k sets in decreasing order, and what one
 differencing merge does to them.
 */
module Differencing {
  import opened Arithmetic
  import opened Sorting
  import opened Partition

  datatype Item = Item(idx: nat, val: int)

  /** The value of a Set object. */
  datatype SetVal = SetVal(sum: int, items: seq<Item>)

  function SumItems(items: seq<Item>): int {
    if items == [] then 0 else items[0].val + SumItems(items[1..])
  }

  lemma {:induction false} SumItemsConcat(a: seq<Item>, b: seq<Item>)
    ensures SumItems(a + b) == SumItems(a) + SumItems(b)
  {
    if a == [] {
      assert a + b == b;
    } else {
      SumItemsConcat(a[1..], b);
      assert (a + b)[1..] == a[1..] + b;
    }
  }

  // ---------------------------------------------------------------- the orders

  /** Python's order on lists of pairs. */
  predicate ItemsLess(a: seq<Item>, b: seq<Item>) {
    b != [] &&
    (a == [] ||
     a[0].idx < b[0].idx ||
     (a[0].idx == b[0].idx && a[0].val < b[0].val) ||
     (a[0] == b[0] && ItemsLess(a[1..], b[1..])))
  }

  /** Set.__lt__ */
  predicate SetLess(a: SetVal, b: SetVal) {
    if a.sum != b.sum then a.sum < b.sum
    else if |a.items| != |b.items| then |a.items| < |b.items|
    else ItemsLess(a.items, b.items)
  }

  lemma {:induction false} ItemsLessAsymmetric(a: seq<Item>, b: seq<Item>)
    requires ItemsLess(a, b)
    ensures !ItemsLess(b, a)
  {
    if a != [] && a[0] == b[0] {
      ItemsLessAsymmetric(a[1..], b[1..]);
    }
  }

  lemma {:induction false} ItemsNotLessTransitive(a: seq<Item>, b: seq<Item>, c: seq<Item>)
    requires !ItemsLess(a, b) && !ItemsLess(b, c)
    ensures !ItemsLess(a, c)
  {
    if ItemsLess(a, c) {
      if a != [] && b != [] && a[0] == b[0] && b[0] == c[0] {
        ItemsNotLessTransitive(a[1..], b[1..], c[1..]);
      }
    }
  }

  lemma SetLessAsymmetric(a: SetVal, b: SetVal)
    requires SetLess(a, b)
    ensures !SetLess(b, a)
  {
    if a.sum == b.sum && |a.items| == |b.items| {
      ItemsLessAsymmetric(a.items, b.items);
    }
  }

  lemma SetNotLessTransitive(a: SetVal, b: SetVal, c: SetVal)
    requires !SetLess(a, b) && !SetLess(b, c)
    ensures !SetLess(a, c)
  {
    if a.sum == b.sum == c.sum && |a.items| == |b.items| == |c.items| {
      ItemsNotLessTransitive(a.items, b.items, c.items);
    }
  }

  /** Neighbours in decreasing order, as sorted(..., reverse=True) leaves them. */
  predicate Decreasing(v: seq<SetVal>) {
    forall i | 0 < i < |v| :: !SetLess(v[i - 1], v[i])
  }

  lemma {:induction false} SumsDecrease(v: seq<SetVal>, i: nat, j: nat)
    requires Decreasing(v) && i <= j < |v|
    ensures v[i].sum >= v[j].sum
  {
    if i < j {
      SumsDecrease(v, i, j - 1);
    }
  }

  // ---------------------------------------------------------------- states

  function Spread(v: seq<SetVal>): int
    requires v != []
  {
    v[0].sum - v[|v| - 1].sum
  }

  /** State.__lt__: the larger spread is popped first, then the larger first set. */
  predicate StateLess(a: seq<SetVal>, b: seq<SetVal>)
    requires a != [] && b != []
  {
    if Spread(a) != Spread(b) then Spread(a) > Spread(b) else SetLess(b[0], a[0])
  }

  lemma StateLessAsymmetric(a: seq<SetVal>, b: seq<SetVal>)
    requires a != [] && b != [] && StateLess(a, b)
    ensures !StateLess(b, a)
  {
    if Spread(a) == Spread(b) {
      SetLessAsymmetric(b[0], a[0]);
    }
  }

  lemma StateNotLessTransitive(a: seq<SetVal>, b: seq<SetVal>, c: seq<SetVal>)
    requires a != [] && b != [] && c != []
    requires !StateLess(a, b) && !StateLess(b, c)
    ensures !StateLess(a, c)
  {
    if Spread(a) == Spread(b) == Spread(c) {
      SetNotLessTransitive(c[0], b[0], a[0]);
    }
  }

  function Occurrences(x: Item): SetVal -> int {
    (s: SetVal) => multiset(s.items)[x]
  }

  /** How often an item occurs in a state. */
  function ItemCount(v: seq<SetVal>, x: Item): int {
    SumOf(Occurrences(x), v)
  }

  const NON_EMPTY: SetVal -> int := (s: SetVal) => if s.items == [] then 0 else 1

  predicate Consistent(v: seq<SetVal>) {
    forall i | 0 <= i < |v| :: v[i].sum == SumItems(v[i].items)
  }

  predicate WellFormed(v: seq<SetVal>, k: nat) {
    |v| == k > 0 && Consistent(v) && Decreasing(v)
  }

  /** The sets of both states paired largest with smallest, before the final sort. */
  function Paired(a: seq<SetVal>, b: seq<SetVal>): seq<SetVal>
    requires |a| == |b|
  {
    seq(|a|, i requires 0 <= i < |a| =>
      SetVal(a[i].sum + b[|b| - 1 - i].sum, a[i].items + b[|b| - 1 - i].items))
  }

  /** r is the result of merging b into a: the paired sets in decreasing order. */
  ghost predicate IsMerge(a: seq<SetVal>, b: seq<SetVal>, r: seq<SetVal>)
    requires |a| == |b|
  {
    |r| == |a| && Decreasing(r) && multiset(r) == multiset(Paired(a, b))
  }

  // ---------------------------------------------------------------- properties a merge keeps

  lemma PairedStep(a: seq<SetVal>, b: seq<SetVal>)
    requires |a| == |b|
    ensures var p := Paired(a, b);
            && |p| == |a|
            && (a != [] ==> p[0].items == a[0].items + b[|b| - 1].items
                            && p[1..] == Paired(a[1..], b[..|b| - 1]))
  {
  }

  lemma {:induction false} OccurrencesPaired(a: seq<SetVal>, b: seq<SetVal>, x: Item)
    requires |a| == |b|
    ensures ItemCount(Paired(a, b), x) == ItemCount(a, x) + ItemCount(b, x)
  {
    hide Paired;
    PairedStep(a, b);
    if a != [] {
      var b', last := b[..|b| - 1], b[|b| - 1];
      OccurrencesPaired(a[1..], b', x);
      assert b == b' + [last];
      SumOfConcat(Occurrences(x), b', [last]);
    }
  }

  /** Merging loses and duplicates no item. */
  lemma MergeKeepsItems(a: seq<SetVal>, b: seq<SetVal>, r: seq<SetVal>, x: Item)
    requires |a| == |b| && IsMerge(a, b, r)
    ensures ItemCount(r, x) == ItemCount(a, x) + ItemCount(b, x)
  {
    OccurrencesPaired(a, b, x);
    SumOfPermutation(Occurrences(x), Paired(a, b), r);
  }

  lemma InPaired(a: seq<SetVal>, b: seq<SetVal>, r: seq<SetVal>, j: nat) returns (i: nat)
    requires |a| == |b| && IsMerge(a, b, r) && j < |r|
    ensures i < |a| && r[j] == Paired(a, b)[i]
  {
    assert r[j] in multiset(r);
    assert r[j] in Paired(a, b);
    i :| 0 <= i < |a| && r[j] == Paired(a, b)[i];
  }

  lemma MergeKeepsWellFormed(a: seq<SetVal>, b: seq<SetVal>, r: seq<SetVal>, k: nat)
    requires WellFormed(a, k) && WellFormed(b, k) && IsMerge(a, b, r)
    ensures WellFormed(r, k)
  {
    forall j | 0 <= j < |r|
      ensures r[j].sum == SumItems(r[j].items)
    {
      var i := InPaired(a, b, r, j);
      SumItemsConcat(a[i].items, b[k - 1 - i].items);
    }
  }

  /** Differencing: the spread of the merged state is at most the larger of the two spreads. */
  lemma MergeKeepsSpread(a: seq<SetVal>, b: seq<SetVal>, r: seq<SetVal>, k: nat, bound: int)
    requires WellFormed(a, k) && WellFormed(b, k) && IsMerge(a, b, r)
    requires Spread(a) <= bound && Spread(b) <= bound
    ensures Spread(r) <= bound
  {
    var i := InPaired(a, b, r, 0);
    var j := InPaired(a, b, r, k - 1);
    PairedSpread(a, b, i, j, k, bound);
  }

  lemma PairedSpread(a: seq<SetVal>, b: seq<SetVal>, i: nat, j: nat, k: nat, bound: int)
    requires WellFormed(a, k) && WellFormed(b, k) && i < k && j < k
    requires Spread(a) <= bound && Spread(b) <= bound
    ensures Paired(a, b)[i].sum - Paired(a, b)[j].sum <= bound
  {
    if i <= j {
      // the difference within a is at most its spread, and b takes away
      SumsDecrease(a, 0, i);
      SumsDecrease(a, j, k - 1);
      SumsDecrease(b, k - 1 - j, k - 1 - i);
    } else {
      SumsDecrease(a, j, i);
      SumsDecrease(b, 0, k - 1 - i);
      SumsDecrease(b, k - 1 - j, k - 1);
    }
  }

  /** Every set holds the same number of items. */
  predicate EvenlyFilled(v: seq<SetVal>, count: nat) {
    forall i | 0 <= i < |v| :: |v[i].items| == count
  }

  lemma MergeKeepsEvenlyFilled(a: seq<SetVal>, b: seq<SetVal>, r: seq<SetVal>, m: nat, n: nat)
    requires |a| == |b| && IsMerge(a, b, r) && EvenlyFilled(a, m) && EvenlyFilled(b, n)
    ensures EvenlyFilled(r, m + n)
  {
    forall j | 0 <= j < |r|
      ensures |r[j].items| == m + n
    {
      var i := InPaired(a, b, r, j);
    }
  }

  /** No item has a negative length. */
  predicate NonNegativeItems(v: seq<SetVal>) {
    forall i | 0 <= i < |v| :: forall x | 0 <= x < |v[i].items| :: v[i].items[x].val >= 0
  }

  lemma {:induction false} NonNegativeSum(items: seq<Item>)
    requires forall x | 0 <= x < |items| :: items[x].val >= 0
    ensures SumItems(items) >= 0
  {
    if items != [] {
      NonNegativeSum(items[1..]);
    }
  }

  /** Exactly the first n sets are non-empty: empty sets sort last, even next to sets that sum to zero. */
  predicate FilledPrefix(v: seq<SetVal>, n: nat) {
    n <= |v| && forall i | 0 <= i < |v| :: v[i].items != [] <==> i < n
  }

  /** In decreasing order with no negative sum, an empty set is followed by empty sets only. */
  lemma {:induction false} EmptySetsLast(v: seq<SetVal>, i: nat, j: nat)
    requires Consistent(v) && Decreasing(v) && NonNegativeItems(v)
    requires i <= j < |v| && v[i].items == []
    ensures v[j].items == []
  {
    if i < j {
      EmptySetsLast(v, i, j - 1);
      NonNegativeSum(v[j].items);
      assert !SetLess(v[j - 1], v[j]);
    }
  }

  lemma {:induction false} HasFilledPrefix(v: seq<SetVal>) returns (n: nat)
    requires Consistent(v) && Decreasing(v) && NonNegativeItems(v)
    ensures FilledPrefix(v, n)
  {
    n := 0;
    while n < |v| && v[n].items != []
      invariant n <= |v| && forall i | 0 <= i < n :: v[i].items != []
    {
      n := n + 1;
    }
    forall i | n <= i < |v|
      ensures v[i].items == []
    {
      EmptySetsLast(v, n, i);
    }
  }

  lemma {:induction false} PrefixLength(v: seq<SetVal>, n: nat)
    requires FilledPrefix(v, n)
    ensures SumOf(NON_EMPTY, v) == n
  {
    if v != [] {
      PrefixLength(v[1..], if n == 0 then 0 else n - 1);
    }
  }

  /** Paired largest with smallest, m and n non-empty sets fill min(k, m + n) sets. */
  lemma {:induction false} PairedFilled(a: seq<SetVal>, b: seq<SetVal>, m: nat, n: nat)
    requires |a| == |b| && FilledPrefix(a, m) && FilledPrefix(b, n)
    ensures SumOf(NON_EMPTY, Paired(a, b)) == if m + n <= |a| then m + n else |a|
  {
    if a != [] {
      var b' := b[..|b| - 1];
      assert Paired(a, b)[1..] == Paired(a[1..], b');
      PairedFilled(a[1..], b', if m == 0 then 0 else m - 1, if n == |b| then n - 1 else n);
    }
  }

  lemma MergeKeepsFilledPrefix(a: seq<SetVal>, b: seq<SetVal>, r: seq<SetVal>, k: nat, m: nat, n: nat)
    requires WellFormed(a, k) && WellFormed(b, k) && WellFormed(r, k) && IsMerge(a, b, r) && NonNegativeItems(r)
    requires FilledPrefix(a, m) && FilledPrefix(b, n)
    ensures FilledPrefix(r, if m + n <= k then m + n else k)
  {
    PairedFilled(a, b, m, n);
    SumOfPermutation(NON_EMPTY, Paired(a, b), r);
    var p := HasFilledPrefix(r);
    PrefixLength(r, p);
  }

  lemma MergeKeepsNonNegative(a: seq<SetVal>, b: seq<SetVal>, r: seq<SetVal>)
    requires |a| == |b| && IsMerge(a, b, r) && NonNegativeItems(a) && NonNegativeItems(b)
    ensures NonNegativeItems(r)
  {
    forall j | 0 <= j < |r|
      ensures forall x | 0 <= x < |r[j].items| :: r[j].items[x].val >= 0
    {
      var i := InPaired(a, b, r, j);
    }
  }

  // ---------------------------------------------------------------- the invariant of one state

  const LENGTH: SetVal -> int := (s: SetVal) => |s.items|

  /** Number of items in a state. */
  function Size(v: seq<SetVal>): int {
    SumOf(LENGTH, v)
  }

  function Least(a: int, b: int): int {
    if a <= b then a else b
  }

  ghost predicate StateInv(v: seq<SetVal>, k: nat, bound: int, equal: bool) {
    && WellFormed(v, k)
    && Spread(v) <= bound
    && NonNegativeItems(v)
    && Size(v) >= 1
    && if equal then EvenlyFilled(v, |v[0].items|) else FilledPrefix(v, Least(k, Size(v)))
  }

  lemma {:induction false} EvenSize(v: seq<SetVal>, count: nat)
    requires EvenlyFilled(v, count)
    ensures Size(v) == |v| * count
  {
    if v != [] {
      EvenSize(v[1..], count);
      Distributes(count, 1, |v| - 1);
    }
  }

  lemma {:induction false} SizePaired(a: seq<SetVal>, b: seq<SetVal>)
    requires |a| == |b|
    ensures Size(Paired(a, b)) == Size(a) + Size(b)
  {
    hide Paired;
    PairedStep(a, b);
    if a != [] {
      var b', last := b[..|b| - 1], b[|b| - 1];
      SizePaired(a[1..], b');
      assert b == b' + [last];
      SumOfConcat(LENGTH, b', [last]);
    }
  }

  lemma MergeKeepsSize(a: seq<SetVal>, b: seq<SetVal>, r: seq<SetVal>)
    requires |a| == |b| && IsMerge(a, b, r)
    ensures Size(r) == Size(a) + Size(b)
  {
    SizePaired(a, b);
    SumOfPermutation(LENGTH, Paired(a, b), r);
  }

  lemma MergeKeepsStateInv(a: seq<SetVal>, b: seq<SetVal>, r: seq<SetVal>, k: nat, bound: int, equal: bool)
    requires StateInv(a, k, bound, equal) && StateInv(b, k, bound, equal) && IsMerge(a, b, r)
    ensures StateInv(r, k, bound, equal)
  {
    MergeKeepsWellFormed(a, b, r, k);
    MergeKeepsSpread(a, b, r, k, bound);
    MergeKeepsNonNegative(a, b, r);
    MergeKeepsSize(a, b, r);
    if equal {
      MergeKeepsEvenlyFilled(a, b, r, |a[0].items|, |b[0].items|);
    } else {
      MergeKeepsFilledPrefix(a, b, r, k, Least(k, Size(a)), Least(k, Size(b)));
    }
  }

  // ---------------------------------------------------------------- the heap of states

  function CountIn(x: Item): seq<SetVal> -> int {
    (v: seq<SetVal>) => ItemCount(v, x)
  }

  const SIZE: seq<SetVal> -> int := (v: seq<SetVal>) => Size(v)

  /** The states on the heap hold exactly the items pushed so far. */
  ghost predicate PoolInv(pool: seq<seq<SetVal>>, source: seq<Item>, k: nat, bound: int, equal: bool) {
    && (forall v | v in pool :: StateInv(v, k, bound, equal))
    && (forall x: Item :: SumOf(CountIn(x), pool) == multiset(source)[x])
    && SumOf(SIZE, pool) == |source|
  }

  lemma PushKeepsPoolInv(
    pool: seq<seq<SetVal>>, source: seq<Item>, v: seq<SetVal>, items: seq<Item>, k: nat, bound: int, equal: bool)
    requires PoolInv(pool, source, k, bound, equal) && StateInv(v, k, bound, equal)
    requires Size(v) == |items| && forall x: Item :: ItemCount(v, x) == multiset(items)[x]
    ensures PoolInv(pool + [v], source + items, k, bound, equal)
  {
    forall x: Item
      ensures SumOf(CountIn(x), pool + [v]) == multiset(source + items)[x]
    {
      SumOfConcat(CountIn(x), pool, [v]);
      assert SumOf(CountIn(x), [v]) == ItemCount(v, x);
      assert multiset(source + items) == multiset(source) + multiset(items);
    }
    SumOfConcat(SIZE, pool, [v]);
    assert SumOf(SIZE, [v]) == Size(v);
  }

  /** One heap iteration: two states leave, their merge comes back. */
  lemma MergeKeepsPoolInv(
    pool: seq<seq<SetVal>>, rest: seq<seq<SetVal>>, a: seq<SetVal>, b: seq<SetVal>, r: seq<SetVal>,
    source: seq<Item>, k: nat, bound: int, equal: bool)
    requires PoolInv(pool, source, k, bound, equal)
    requires multiset(pool) == multiset(rest) + multiset{a, b}
    requires |a| == |b| == k && IsMerge(a, b, r)
    ensures PoolInv(rest + [r], source, k, bound, equal)
  {
    forall v | v in multiset(rest) + multiset{a, b}
      ensures StateInv(v, k, bound, equal)
    {
      assert v in multiset(pool);
      assert v in pool;
    }
    MergeKeepsStateInv(a, b, r, k, bound, equal);
    forall x: Item
      ensures SumOf(CountIn(x), rest + [r]) == multiset(source)[x]
    {
      MergeKeepsItems(a, b, r, x);
      SumOfMerge(CountIn(x), pool, rest, a, b, r);
    }
    MergeKeepsSize(a, b, r);
    SumOfMerge(SIZE, pool, rest, a, b, r);
    assert forall v | v in rest :: v in multiset(rest);
  }

  // ---------------------------------------------------------------- sorting the items

  function ItemsOf(lens: seq<int>): seq<Item> {
    seq(|lens|, i requires 0 <= i < |lens| => Item(i, lens[i]))
  }

  /** The order of the pairs (length, index). */
  predicate Before(a: Item, b: Item) {
    a.val < b.val || (a.val == b.val && a.idx <= b.idx)
  }

  ghost predicate AscendingItems(s: seq<Item>) {
    forall i, j | 0 <= i < j < |s| :: Before(s[i], s[j])
  }

  /** sorted((seqlen, i) ...) */
  function SortItems(s: seq<Item>): (r: seq<Item>)
    ensures AscendingItems(r) && multiset(r) == multiset(s)
  {
    SortSorts(Before, s);
    Sort(Before, s)
  }

  /** The largest spread of a block of k neighbours in the sorted list. */
  function LargestBlockSpread(s: seq<Item>, k: nat): (m: int)
    requires 1 <= k
    decreases |s|
  {
    if |s| < k then 0
    else
      var m := LargestBlockSpread(s[k..], k);
      if m < s[k - 1].val - s[0].val then s[k - 1].val - s[0].val else m
  }

  /** It is the spread of some block, or 0, and no block has a larger one. */
  lemma {:induction false} BlockSpreads(s: seq<Item>, k: nat, i: nat)
    requires 1 <= k
    ensures LargestBlockSpread(s, k) == 0 || HasBlockSpread(s, k, LargestBlockSpread(s, k))
    ensures LargestBlockSpread(s, k) >= 0
    ensures i * k + k <= |s| ==> 0 <= i * k && s[i * k + k - 1].val - s[i * k].val <= LargestBlockSpread(s, k)
    decreases |s|
  {
    ProductMonotone(0, i, k);
    if |s| >= k {
      BlockSpreads(s[k..], k, if i > 0 then i - 1 else 0);
      Distributes(k, i, -1);
      if HasBlockSpread(s[k..], k, LargestBlockSpread(s[k..], k)) {
        NextBlockSpread(s, k, LargestBlockSpread(s[k..], k));
      }
      assert IsBlockSpread(s, k, 0, s[k - 1].val - s[0].val);
    }
  }

  ghost predicate IsBlockSpread(s: seq<Item>, k: nat, i: nat, spread: int)
    requires 1 <= k
  {
    ProductMonotone(0, i, k);
    i * k + k <= |s| && spread == s[i * k + k - 1].val - s[i * k].val
  }

  ghost predicate HasBlockSpread(s: seq<Item>, k: nat, spread: int)
    requires 1 <= k
  {
    exists i: nat :: IsBlockSpread(s, k, i, spread)
  }

  lemma NextBlockSpread(s: seq<Item>, k: nat, spread: int)
    requires 1 <= k <= |s| && HasBlockSpread(s[k..], k, spread)
    ensures HasBlockSpread(s, k, spread)
  {
    var i: nat :| IsBlockSpread(s[k..], k, i, spread);
    ProductMonotone(0, i, k);
    Distributes(k, i, 1);
    assert IsBlockSpread(s, k, i + 1, spread);
  }

  // ---------------------------------------------------------------- new states

  /** The sets of a new state before they are sorted: one item each, then empty ones. */
  function Initial(items: seq<Item>, k: nat): seq<SetVal>
    requires |items| <= k
  {
    seq(k, i requires 0 <= i < k => if i < |items| then SetVal(items[i].val, [items[i]]) else SetVal(0, []))
  }

  lemma InitialStep(items: seq<Item>, k: nat)
    requires |items| <= k && k > 0
    ensures var v := Initial(items, k);
            && |v| == k
            && v[0].items == (if items == [] then [] else [items[0]])
            && v[1..] == Initial(if items == [] then [] else items[1..], k - 1)
  {
  }

  lemma {:induction false} InitialCounts(items: seq<Item>, k: nat, x: Item)
    requires |items| <= k
    ensures ItemCount(Initial(items, k), x) == multiset(items)[x]
    ensures Size(Initial(items, k)) == |items|
    ensures SumOf(NON_EMPTY, Initial(items, k)) == |items|
  {
    if k > 0 {
      InitialStep(items, k);
      hide Initial;
      if items == [] {
        InitialCounts([], k - 1, x);
      } else {
        InitialCounts(items[1..], k - 1, x);
        assert items == [items[0]] + items[1..];
      }
    }
  }

  lemma InInitial(v: seq<SetVal>, items: seq<Item>, k: nat, j: nat) returns (i: nat)
    requires |items| <= k && |v| == k && multiset(v) == multiset(Initial(items, k)) && j < k
    ensures i < k && v[j] == Initial(items, k)[i]
  {
    assert v[j] in multiset(v);
    assert v[j] in Initial(items, k);
    i :| 0 <= i < k && v[j] == Initial(items, k)[i];
  }

  lemma InitialWellFormed(v: seq<SetVal>, items: seq<Item>, k: nat)
    requires |items| <= k && |v| == k > 0 && multiset(v) == multiset(Initial(items, k)) && Decreasing(v)
    requires forall i | 0 <= i < |items| :: items[i].val >= 0
    ensures WellFormed(v, k) && NonNegativeItems(v) && Size(v) == |items|
    ensures forall x :: ItemCount(v, x) == multiset(items)[x]
  {
    forall j | 0 <= j < k
      ensures v[j].sum == SumItems(v[j].items)
      ensures forall x | 0 <= x < |v[j].items| :: v[j].items[x].val >= 0
    {
      var i := InInitial(v, items, k, j);
    }
    forall x: Item
      ensures ItemCount(v, x) == multiset(items)[x]
    {
      InitialCounts(items, k, x);
      SumOfPermutation(Occurrences(x), v, Initial(items, k));
    }
    InitialCounts(items, k, Item(0, 0));
    SumOfPermutation(LENGTH, v, Initial(items, k));
  }

  /** A state of k sorted items: one item per set, and no more spread than the block. */
  lemma BlockState(v: seq<SetVal>, items: seq<Item>, k: nat)
    requires 0 < k == |v| == |items| && multiset(v) == multiset(Initial(items, k)) && AscendingItems(items)
    ensures EvenlyFilled(v, 1) && Spread(v) <= items[k - 1].val - items[0].val
  {
    var i := InInitial(v, items, k, 0);
    var j := InInitial(v, items, k, k - 1);
    assert Before(items[0], items[j]) || j == 0;
    assert Before(items[i], items[k - 1]) || i == k - 1;
    forall l | 0 <= l < k
      ensures |v[l].items| == 1
    {
      var m := InInitial(v, items, k, l);
    }
  }

  /** A state of one item: one filled set, and no more spread than the item. */
  lemma SingleState(v: seq<SetVal>, items: seq<Item>, k: nat)
    requires 0 < k == |v| && |items| == 1 && items[0].val >= 0 && multiset(v) == multiset(Initial(items, k))
    requires WellFormed(v, k) && NonNegativeItems(v)
    ensures FilledPrefix(v, 1) && Spread(v) <= items[0].val
  {
    var i := InInitial(v, items, k, 0);
    var j := InInitial(v, items, k, k - 1);
    var n := HasFilledPrefix(v);
    PrefixLength(v, n);
    InitialCounts(items, k, items[0]);
    SumOfPermutation(NON_EMPTY, v, Initial(items, k));
  }

  lemma NewStateInv(v: seq<SetVal>, items: seq<Item>, k: nat, bound: int, equal: bool)
    requires 0 < k == |v| && |items| <= k && multiset(v) == multiset(Initial(items, k)) && Decreasing(v)
    requires forall i | 0 <= i < |items| :: 0 <= items[i].val
    requires if equal
             then |items| == k && AscendingItems(items) && items[k - 1].val - items[0].val <= bound
             else |items| == 1 && items[0].val <= bound
    ensures StateInv(v, k, bound, equal)
    ensures Size(v) == |items| && forall x :: ItemCount(v, x) == multiset(items)[x]
  {
    InitialWellFormed(v, items, k);
    hide WellFormed, NonNegativeItems, Initial, Decreasing, AscendingItems, ItemCount, FilledPrefix;
    if equal {
      BlockState(v, items, k);
      assert |v[0].items| == 1;
    } else {
      SingleState(v, items, k);
    }
  }

  // ---------------------------------------------------------------- the partition of the last state

  function Indices(items: seq<Item>): seq<nat> {
    seq(|items|, i requires 0 <= i < |items| => items[i].idx)
  }

  function PartsOf(v: seq<SetVal>): seq<seq<nat>> {
    seq(|v|, i requires 0 <= i < |v| => Indices(v[i].items))
  }

  function AllItems(v: seq<SetVal>): seq<Item> {
    if v == [] then [] else v[0].items + AllItems(v[1..])
  }

  lemma {:induction false} AllItemsCount(v: seq<SetVal>, x: Item)
    ensures multiset(AllItems(v))[x] == ItemCount(v, x)
  {
    if v != [] {
      AllItemsCount(v[1..], x);
    }
  }

  lemma {:induction false} IndicesOfAll(v: seq<SetVal>)
    ensures Indices(AllItems(v)) == Flatten(PartsOf(v))
  {
    if v != [] {
      IndicesOfAll(v[1..]);
      assert PartsOf(v)[1..] == PartsOf(v[1..]);
    }
  }

  function HasIndex(y: nat): Item -> int {
    (x: Item) => if x.idx == y then 1 else 0
  }

  lemma {:induction false} IndexCount(items: seq<Item>, y: nat)
    ensures multiset(Indices(items))[y] == SumOf(HasIndex(y), items)
  {
    if items != [] {
      IndexCount(items[1..], y);
      assert Indices(items) == [items[0].idx] + Indices(items[1..]);
    }
  }

  lemma IndicesOfPermutation(a: seq<Item>, b: seq<Item>)
    requires multiset(a) == multiset(b)
    ensures multiset(Indices(a)) == multiset(Indices(b))
  {
    forall y: nat
      ensures multiset(Indices(a))[y] == multiset(Indices(b))[y]
    {
      IndexCount(a, y);
      IndexCount(b, y);
      SumOfPermutation(HasIndex(y), a, b);
    }
  }

  lemma {:induction false} LoadOfIndices(lens: seq<int>, items: seq<Item>)
    requires forall x | x in items :: x.idx < |lens| && x.val == lens[x.idx]
    ensures Load(lens, Indices(items)) == SumItems(items)
  {
    if items != [] {
      LoadOfIndices(lens, items[1..]);
      assert Indices(items) == [items[0].idx] + Indices(items[1..]);
      assert items[0] in items;
    }
  }

  lemma {:induction false} InAllItems(v: seq<SetVal>, i: nat, x: Item)
    requires i < |v| && x in v[i].items
    ensures x in AllItems(v)
  {
    if i > 0 {
      InAllItems(v[1..], i - 1, x);
    }
  }

  /** The last state's sets are an exact cover, and their sums are the loads of the parts. */
  lemma FinalSets(v: seq<SetVal>, lens: seq<int>, k: nat)
    requires WellFormed(v, k) && forall x :: ItemCount(v, x) == multiset(ItemsOf(lens))[x]
    ensures ExactCover(PartsOf(v), |lens|)
    ensures forall i | 0 <= i < k :: Load(lens, PartsOf(v)[i]) == v[i].sum
  {
    forall x: Item
      ensures multiset(AllItems(v))[x] == multiset(ItemsOf(lens))[x]
    {
      AllItemsCount(v, x);
    }
    assert multiset(AllItems(v)) == multiset(ItemsOf(lens));
    IndicesOfAll(v);
    IndicesOfPermutation(AllItems(v), ItemsOf(lens));
    assert Indices(ItemsOf(lens)) == Range(|lens|);
    forall i | 0 <= i < k
      ensures Load(lens, PartsOf(v)[i]) == v[i].sum
    {
      forall x | x in v[i].items
        ensures x.idx < |lens| && x.val == lens[x.idx]
      {
        InAllItems(v, i, x);
        assert x in multiset(ItemsOf(lens));
        assert x in ItemsOf(lens);
      }
      LoadOfIndices(lens, v[i].items);
    }
  }
}
