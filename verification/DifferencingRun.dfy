/**
 What a whole run of karmarkar_karp is, in sums and positions alone: which states a turn of the heap
 loop takes, what it puts back, and that this leaves no choice in the partition that comes out.
 */
module DifferencingRun {
  import opened Sorting
  import opened Partition
  import opened Differencing

  // ---------------------------------------------------------------- what is larger

  /** At the first place where two item lists differ, a has the smaller pair, or has ended. */
  ghost predicate LexBefore(a: seq<Item>, b: seq<Item>) {
    exists i: nat :: LexBeforeAt(a, b, i)
  }

  ghost predicate LexBeforeAt(a: seq<Item>, b: seq<Item>, i: nat) {
    && i <= |a| && i < |b| && a[..i] == b[..i]
    && (i == |a| || a[i].idx < b[i].idx || (a[i].idx == b[i].idx && a[i].val < b[i].val))
  }

  lemma {:induction false} ItemsLessIsLexBefore(a: seq<Item>, b: seq<Item>)
    ensures ItemsLess(a, b) <==> LexBefore(a, b)
  {
    if ItemsLess(a, b) {
      LexFromItemsLess(a, b);
    } else if LexBefore(a, b) {
      var i: nat :| LexBeforeAt(a, b, i);
      ItemsLessFromLex(a, b, i);
    }
  }

  lemma {:induction false} LexFromItemsLess(a: seq<Item>, b: seq<Item>)
    requires ItemsLess(a, b)
    ensures LexBefore(a, b)
  {
    if a != [] && a[0] == b[0] {
      LexFromItemsLess(a[1..], b[1..]);
      var i: nat :| LexBeforeAt(a[1..], b[1..], i);
      assert a[..i + 1] == [a[0]] + a[1..][..i];
      assert b[..i + 1] == [b[0]] + b[1..][..i];
      assert LexBeforeAt(a, b, i + 1);
    } else {
      assert LexBeforeAt(a, b, 0);
    }
  }

  lemma {:induction false} ItemsLessFromLex(a: seq<Item>, b: seq<Item>, i: nat)
    requires LexBeforeAt(a, b, i)
    ensures ItemsLess(a, b)
  {
    if i > 0 {
      assert a[0] == a[..i][0] && b[0] == b[..i][0];
      assert a[1..][..i - 1] == a[..i][1..] && b[1..][..i - 1] == b[..i][1..];
      ItemsLessFromLex(a[1..], b[1..], i - 1);
    }
  }

  lemma {:induction false} NeitherLess(a: seq<Item>, b: seq<Item>)
    requires !ItemsLess(a, b) && !ItemsLess(b, a)
    ensures a == b
  {
    if a != [] && b != [] {
      NeitherLess(a[1..], b[1..]);
      assert a == [a[0]] + a[1..] && b == [b[0]] + b[1..];
    }
  }

  /** By sum, then by number of items, then by the items. */
  ghost predicate AtMostAsLarge(a: SetVal, b: SetVal) {
    a.sum < b.sum ||
    (a.sum == b.sum &&
     (|a.items| < |b.items| || (|a.items| == |b.items| && !LexBefore(b.items, a.items))))
  }

  lemma NotLessIsAtMost(a: SetVal, b: SetVal)
    ensures !SetLess(b, a) <==> AtMostAsLarge(a, b)
  {
    ItemsLessIsLexBefore(b.items, a.items);
  }

  lemma EquallyLarge(a: SetVal, b: SetVal)
    requires AtMostAsLarge(a, b) && AtMostAsLarge(b, a)
    ensures a == b
  {
    ItemsLessIsLexBefore(a.items, b.items);
    ItemsLessIsLexBefore(b.items, a.items);
    NeitherLess(a.items, b.items);
  }

  /** Largest set first. */
  ghost predicate InOrder(v: seq<SetVal>) {
    forall i, j | 0 <= i < j < |v| :: AtMostAsLarge(v[j], v[i])
  }

  lemma {:induction false} DecreasingFrom(v: seq<SetVal>, i: nat, j: nat)
    requires Decreasing(v) && i < j < |v|
    ensures !SetLess(v[i], v[j])
  {
    if i + 1 < j {
      DecreasingFrom(v, i, j - 1);
      SetNotLessTransitive(v[i], v[j - 1], v[j]);
    }
  }

  lemma DecreasingIsInOrder(v: seq<SetVal>)
    ensures Decreasing(v) <==> InOrder(v)
  {
    forall i, j | 0 <= i < j < |v|
      ensures Decreasing(v) ==> AtMostAsLarge(v[j], v[i])
      ensures AtMostAsLarge(v[j], v[i]) <==> !SetLess(v[i], v[j])
    {
      NotLessIsAtMost(v[j], v[i]);
      if Decreasing(v) {
        DecreasingFrom(v, i, j);
      }
    }
  }

  /** No state of the pool has a larger difference of sums, nor the same one and a larger first set. */
  ghost predicate IsLargest(v: seq<SetVal>, pool: seq<seq<SetVal>>) {
    v != [] && forall w | w in pool :: w != [] && NoLarger(w, v)
  }

  ghost predicate NoLarger(w: seq<SetVal>, v: seq<SetVal>)
    requires w != [] && v != []
  {
    var dw, dv := w[0].sum - w[|w| - 1].sum, v[0].sum - v[|v| - 1].sum;
    dw < dv || (dw == dv && AtMostAsLarge(w[0], v[0]))
  }

  lemma NotLessIsNoLarger(w: seq<SetVal>, v: seq<SetVal>)
    requires w != [] && v != []
    ensures !StateLess(w, v) <==> NoLarger(w, v)
  {
    NotLessIsAtMost(w[0], v[0]);
  }

  // ---------------------------------------------------------------- a run

  /** A new state: one item per set, the other sets empty, largest set first. */
  ghost predicate IsStart(v: seq<SetVal>, items: seq<Item>, k: nat) {
    |items| <= k && |v| == k && InOrder(v) && multiset(v) == multiset(Initial(items, k))
  }

  ghost predicate Starts(pool: seq<seq<SetVal>>, blocks: seq<seq<Item>>, k: nat) {
    |pool| == |blocks| && forall i | 0 <= i < |pool| :: IsStart(pool[i], blocks[i], k)
  }

  /** Largest of one with smallest of the other, and so on, put in order again. */
  ghost predicate Merges(a: seq<SetVal>, b: seq<SetVal>, r: seq<SetVal>) {
    |a| == |b| == |r| && InOrder(r) && multiset(r) == multiset(Paired(a, b))
  }

  /** The largest state leaves the pool, then the largest of the others; what they merge to comes back. */
  ghost predicate IsTurn(before: seq<seq<SetVal>>, after: seq<seq<SetVal>>,
                         a: seq<SetVal>, b: seq<SetVal>, r: seq<SetVal>, left: seq<seq<SetVal>>) {
    && multiset(before) == multiset(left) + multiset{a, b}
    && IsLargest(a, before) && IsLargest(b, left)
    && Merges(a, b, r) && after == left + [r]
  }

  ghost predicate Follows(before: seq<seq<SetVal>>, after: seq<seq<SetVal>>) {
    exists a, b, r, left :: IsTurn(before, after, a, b, r, left)
  }

  ghost predicate Run(pools: seq<seq<seq<SetVal>>>) {
    pools != [] && forall t | 0 < t < |pools| :: Follows(pools[t - 1], pools[t])
  }

  function Joined(blocks: seq<seq<Item>>): seq<Item> {
    if blocks == [] then [] else Joined(blocks[..|blocks| - 1]) + blocks[|blocks| - 1]
  }

  /** By length, and by index among equal lengths. */
  ghost predicate SortedByLength(s: seq<Item>) {
    forall i, j | 0 <= i < j < |s| :: s[i].val < s[j].val || (s[i].val == s[j].val && s[i].idx < s[j].idx)
  }

  ghost predicate IsRun(lens: seq<int>, k: nat, equal: bool, sorted: seq<Item>, blocks: seq<seq<Item>>,
                        pools: seq<seq<seq<SetVal>>>) {
    && SortedByLength(sorted) && multiset(sorted) == multiset(ItemsOf(lens))
    && Joined(blocks) == sorted && (forall i | 0 <= i < |blocks| :: |blocks[i]| == if equal then k else 1)
    && Run(pools) && Starts(pools[0], blocks, k)
    && |pools[|pools| - 1]| == 1
  }

  /**
   The parts are read off the last state of a run: the items in order of length are the states, one at
   a time or k at a time, and every turn merges two states of largest difference between their sums.
   */
  ghost predicate Differenced(lens: seq<int>, k: nat, equal: bool, parts: seq<seq<nat>>) {
    exists sorted, blocks, pools ::
      IsRun(lens, k, equal, sorted, blocks, pools) && parts == PartsOf(pools[|pools| - 1][0])
  }

  // ---------------------------------------------------------------- the invariant along a run

  ghost predicate Fits(items: seq<Item>, k: nat, bound: int, equal: bool) {
    && (forall i | 0 <= i < |items| :: 0 <= items[i].val)
    && if equal then 0 < k == |items| && AscendingItems(items) && items[k - 1].val - items[0].val <= bound
       else |items| == 1 && items[0].val <= bound
  }

  lemma {:induction false} StartsInv(pool: seq<seq<SetVal>>, blocks: seq<seq<Item>>, k: nat, bound: int, equal: bool)
    requires k > 0 && Starts(pool, blocks, k)
    requires forall i | 0 <= i < |blocks| :: Fits(blocks[i], k, bound, equal)
    ensures PoolInv(pool, Joined(blocks), k, bound, equal)
  {
    hide StateInv, InOrder, Initial, Decreasing, AscendingItems;
    if pool != [] {
      var n := |pool| - 1;
      StartsInv(pool[..n], blocks[..n], k, bound, equal);
      assert IsStart(pool[n], blocks[n], k) && Fits(blocks[n], k, bound, equal);
      DecreasingIsInOrder(pool[n]);
      NewStateInv(pool[n], blocks[n], k, bound, equal);
      PushKeepsPoolInv(pool[..n], Joined(blocks[..n]), pool[n], blocks[n], k, bound, equal);
      assert pool == pool[..n] + [pool[n]];
    }
  }

  lemma MergesIsMerge(a: seq<SetVal>, b: seq<SetVal>, r: seq<SetVal>)
    requires |a| == |b|
    ensures Merges(a, b, r) <==> IsMerge(a, b, r)
  {
    DecreasingIsInOrder(r);
  }

  lemma TurnKeepsPoolInv(before: seq<seq<SetVal>>, after: seq<seq<SetVal>>,
                         a: seq<SetVal>, b: seq<SetVal>, r: seq<SetVal>, left: seq<seq<SetVal>>,
                         source: seq<Item>, k: nat, bound: int, equal: bool)
    requires PoolInv(before, source, k, bound, equal) && IsTurn(before, after, a, b, r, left)
    ensures PoolInv(after, source, k, bound, equal)
  {
    assert |a| == |b|;
    hide IsLargest, Merges, IsMerge;
    assert a in multiset(before);
    assert a in before;
    MergesIsMerge(a, b, r);
    MergeKeepsPoolInv(before, left, a, b, r, source, k, bound, equal);
  }

  // ---------------------------------------------------------------- a run leaves no choice

  ghost predicate NoneTwice(source: seq<Item>) {
    forall x: Item :: multiset(source)[x] <= 1
  }

  lemma {:induction false} SumOfAtLeastZero<T(!new)>(f: T -> int, s: seq<T>)
    requires forall x | x in s :: f(x) >= 0
    ensures SumOf(f, s) >= 0
  {
    if s != [] {
      SumOfAtLeastZero(f, s[1..]);
    }
  }

  lemma {:induction false} SumOfTwo<T(!new)>(f: T -> int, s: seq<T>, v: T, w: T)
    requires v in s && w in s && v != w && forall x | x in s :: f(x) >= 0
    ensures SumOf(f, s) >= f(v) + f(w)
  {
    var rest := RemoveOne(f, s, v);
    assert w in multiset(s);
    assert w in multiset(rest);
    var others := RemoveOne(f, rest, w);
    forall x | x in others
      ensures f(x) >= 0
    {
      assert x in multiset(others);
      assert x in multiset(s);
    }
    SumOfAtLeastZero(f, others);
  }

  lemma CountOfFirst(v: seq<SetVal>, x: Item)
    requires v != [] && x in v[0].items
    ensures ItemCount(v, x) >= 1
  {
    SumOfAtLeastZero(Occurrences(x), v[1..]);
  }

  /** A state of the heap has an item in its first set. */
  lemma FirstSetFilled(v: seq<SetVal>, k: nat, bound: int, equal: bool)
    requires StateInv(v, k, bound, equal)
    ensures v != [] && v[0].items != []
  {
    if equal {
      EvenSize(v, |v[0].items|);
    }
  }

  /** Where no item occurs twice, two states of a pool with the same first set are the same. */
  lemma SameFirstSet(pool: seq<seq<SetVal>>, source: seq<Item>, k: nat, bound: int, equal: bool,
                     v: seq<SetVal>, w: seq<SetVal>)
    requires PoolInv(pool, source, k, bound, equal) && NoneTwice(source)
    requires v in pool && w in pool && v != [] && w != [] && v[0] == w[0]
    ensures v == w
  {
    hide StateInv, ItemCount;
    if v != w {
      FirstSetFilled(v, k, bound, equal);
      var x := v[0].items[0];
      CountOfFirst(v, x);
      CountOfFirst(w, x);
      forall u | u in pool
        ensures CountIn(x)(u) >= 0
      {
        CountsAreNatural(u, x);
      }
      SumOfTwo(CountIn(x), pool, v, w);
      assert false;
    }
  }

  lemma CountsAreNatural(v: seq<SetVal>, x: Item)
    ensures ItemCount(v, x) >= 0
  {
    SumOfAtLeastZero(Occurrences(x), v);
  }

  /** Two states of a pool neither of which is larger are the same. */
  lemma LargestIsUnique(pool: seq<seq<SetVal>>, source: seq<Item>, k: nat, bound: int, equal: bool,
                        v: seq<SetVal>, w: seq<SetVal>)
    requires PoolInv(pool, source, k, bound, equal) && NoneTwice(source)
    requires v in pool && w in pool && v != [] && w != [] && NoLarger(v, w) && NoLarger(w, v)
    ensures v == w
  {
    hide PoolInv, NoneTwice, AtMostAsLarge;
    EquallyLarge(v[0], w[0]);
    SameFirstSet(pool, source, k, bound, equal, v, w);
  }

  lemma InOrderOnce(v: seq<SetVal>, w: seq<SetVal>)
    requires InOrder(v) && InOrder(w) && multiset(v) == multiset(w)
    ensures v == w
  {
    var le := (a: SetVal, b: SetVal) => AtMostAsLarge(b, a);
    forall x, y | le(x, y) && le(y, x)
      ensures x == y
    {
      EquallyLarge(x, y);
    }
    SortedOnce(le, v, w);
  }

  lemma SortedByLengthOnce(s: seq<Item>, t: seq<Item>)
    requires SortedByLength(s) && SortedByLength(t) && multiset(s) == multiset(t)
    ensures s == t
  {
    SortedOnce((a: Item, b: Item) => a.val < b.val || (a.val == b.val && a.idx < b.idx), s, t);
  }

  lemma {:induction false} JoinedOnce(p: seq<seq<Item>>, q: seq<seq<Item>>, size: nat)
    requires size > 0 && Joined(p) == Joined(q)
    requires forall i | 0 <= i < |p| :: |p[i]| == size
    requires forall i | 0 <= i < |q| :: |q[i]| == size
    ensures p == q
  {
    if p != [] && q != [] {
      var p', q' := p[..|p| - 1], q[..|q| - 1];
      var n := |Joined(p)| - size;
      assert Joined(p') == Joined(p)[..n] && p[|p| - 1] == Joined(p)[n..];
      assert Joined(q') == Joined(q)[..n] && q[|q| - 1] == Joined(q)[n..];
      JoinedOnce(p', q', size);
      assert p == p' + [p[|p| - 1]] && q == q' + [q[|q| - 1]];
    }
  }

  lemma StartsOnce(p: seq<seq<SetVal>>, q: seq<seq<SetVal>>, blocks: seq<seq<Item>>, k: nat)
    requires Starts(p, blocks, k) && Starts(q, blocks, k)
    ensures p == q
  {
    forall i | 0 <= i < |p|
      ensures p[i] == q[i]
    {
      assert IsStart(p[i], blocks[i], k) && IsStart(q[i], blocks[i], k);
      InOrderOnce(p[i], q[i]);
    }
  }

  /** The second state of a turn is as determined as the first. */
  lemma SecondIsUnique(pool: seq<seq<SetVal>>, source: seq<Item>, k: nat, bound: int, equal: bool,
                       v: seq<SetVal>, w: seq<SetVal>, others: seq<seq<SetVal>>, others': seq<seq<SetVal>>)
    requires PoolInv(pool, source, k, bound, equal) && NoneTwice(source)
    requires v in pool && w in pool && IsLargest(v, others) && IsLargest(w, others')
    requires multiset(others) + multiset{v} == multiset(others') + multiset{w}
    ensures v == w
  {
    hide PoolInv, NoneTwice, NoLarger;
    if v != w {
      assert v in multiset(others') + multiset{w} && w in multiset(others) + multiset{v};
      assert v in multiset(others') && w in multiset(others);
      LargestIsUnique(pool, source, k, bound, equal, v, w);
    }
  }

  lemma TurnsAgree(before: seq<seq<SetVal>>, after: seq<seq<SetVal>>,
                   before': seq<seq<SetVal>>, after': seq<seq<SetVal>>,
                   source: seq<Item>, k: nat, bound: int, equal: bool)
    requires PoolInv(before, source, k, bound, equal) && NoneTwice(source)
    requires multiset(before) == multiset(before') && Follows(before, after) && Follows(before', after')
    ensures multiset(after) == multiset(after') && PoolInv(after, source, k, bound, equal)
  {
    var a, b, r, left :| IsTurn(before, after, a, b, r, left);
    var a', b', r', left' :| IsTurn(before', after', a', b', r', left');
    TurnKeepsPoolInv(before, after, a, b, r, left, source, k, bound, equal);
    SameTurn(before, after, a, b, r, left, before', after', a', b', r', left', source, k, bound, equal);
  }

  lemma InPool(before: seq<seq<SetVal>>, before': seq<seq<SetVal>>, a: seq<SetVal>, b: seq<SetVal>,
               left: seq<seq<SetVal>>)
    requires multiset(before) == multiset(before') && multiset(before') == multiset(left) + multiset{a, b}
    ensures a in before && b in before && a in before' && b in before'
  {
    assert a in multiset(before) && b in multiset(before);
    assert a in multiset(before') && b in multiset(before');
  }

  lemma SameTurn(before: seq<seq<SetVal>>, after: seq<seq<SetVal>>,
                 a: seq<SetVal>, b: seq<SetVal>, r: seq<SetVal>, left: seq<seq<SetVal>>,
                 before': seq<seq<SetVal>>, after': seq<seq<SetVal>>,
                 a': seq<SetVal>, b': seq<SetVal>, r': seq<SetVal>, left': seq<seq<SetVal>>,
                 source: seq<Item>, k: nat, bound: int, equal: bool)
    requires PoolInv(before, source, k, bound, equal) && NoneTwice(source) && multiset(before) == multiset(before')
    requires IsTurn(before, after, a, b, r, left) && IsTurn(before', after', a', b', r', left')
    ensures multiset(after) == multiset(after')
  {
    hide PoolInv, NoneTwice, NoLarger, InOrder, Paired;
    InPool(before, before', a', b', left');
    InPool(before', before, a, b, left);
    LargestIsUnique(before, source, k, bound, equal, a, a');
    assert multiset(left) + multiset{b} == multiset(before) - multiset{a};
    assert multiset(left') + multiset{b'} == multiset(before') - multiset{a};
    SecondIsUnique(before, source, k, bound, equal, b, b', left, left');
    assert multiset(left) == multiset(before) - multiset{a, b} == multiset(left');
    InOrderOnce(r, r');
    assert multiset(after) == multiset(left) + multiset{r} && multiset(after') == multiset(left') + multiset{r};
  }

  lemma TurnTakesTwo(before: seq<seq<SetVal>>, after: seq<seq<SetVal>>)
    requires Follows(before, after)
    ensures |before| == |after| + 1 >= 2
  {
    var a, b, r, left :| IsTurn(before, after, a, b, r, left);
    assert |multiset(before)| == |multiset(left)| + 2;
  }

  lemma LastPoolStays(pools: seq<seq<seq<SetVal>>>)
    requires Run(pools) && |pools[0]| == 1
    ensures |pools| == 1
  {
    hide Follows;
    if |pools| > 1 {
      TurnTakesTwo(pools[1 - 1], pools[1]);
    }
  }

  lemma RunGoesOn(pools: seq<seq<seq<SetVal>>>)
    requires Run(pools) && |pools| > 1
    ensures Follows(pools[0], pools[1]) && Run(pools[1..])
  {
    forall t | 0 < t < |pools| - 1
      ensures Follows(pools[1..][t - 1], pools[1..][t])
    {
      assert Follows(pools[t + 1 - 1], pools[t + 1]);
    }
    assert Follows(pools[1 - 1], pools[1]);
  }

  lemma SamePoolSize(p: seq<seq<SetVal>>, q: seq<seq<SetVal>>)
    requires multiset(p) == multiset(q)
    ensures |p| == |q| && (|p| == 1 ==> p == q)
  {
    assert |multiset(p)| == |p| && |multiset(q)| == |q|;
    if |p| == 1 {
      assert p[0] in multiset(q);
    }
  }

  /** Two runs from the same states end in the same state, wherever the heap keeps what. */
  lemma {:induction false} RunsAgree(p: seq<seq<seq<SetVal>>>, q: seq<seq<seq<SetVal>>>,
                                     source: seq<Item>, k: nat, bound: int, equal: bool)
    requires Run(p) && Run(q) && |p[|p| - 1]| == 1 && |q[|q| - 1]| == 1
    requires PoolInv(p[0], source, k, bound, equal) && NoneTwice(source) && multiset(p[0]) == multiset(q[0])
    ensures p[|p| - 1] == q[|q| - 1]
  {
    assert p != [] && q != [];
    hide PoolInv, NoneTwice, Run, Follows;
    SamePoolSize(p[0], q[0]);
    if |p[0]| == 1 {
      LastPoolStays(p);
      LastPoolStays(q);
    } else {
      RunGoesOn(p);
      RunGoesOn(q);
      TurnsAgree(p[0], p[1], q[0], q[1], source, k, bound, equal);
      RunsAgree(p[1..], q[1..], source, k, bound, equal);
    }
  }

  // ---------------------------------------------------------------- from lengths to the partition

  lemma ItemsOfOnce(lens: seq<int>)
    ensures NoneTwice(ItemsOf(lens))
  {
    forall x: Item
      ensures multiset(ItemsOf(lens))[x] <= 1
    {
      ItemsOfCount(lens, |lens|, x);
      assert ItemsOf(lens)[..|lens|] == ItemsOf(lens);
    }
  }

  lemma {:induction false} ItemsOfCount(lens: seq<int>, n: nat, x: Item)
    requires n <= |lens|
    ensures multiset(ItemsOf(lens)[..n])[x] == if x.idx < n && x.val == lens[x.idx] then 1 else 0
  {
    if n > 0 {
      ItemsOfCount(lens, n - 1, x);
      assert ItemsOf(lens)[..n] == ItemsOf(lens)[..n - 1] + [Item(n - 1, lens[n - 1])];
    }
  }

  lemma {:induction false} InJoined(blocks: seq<seq<Item>>, i: nat) returns (at: nat)
    requires i < |blocks|
    ensures at + |blocks[i]| <= |Joined(blocks)| && Joined(blocks)[at..at + |blocks[i]|] == blocks[i]
  {
    var n := |blocks| - 1;
    if i == n {
      at := |Joined(blocks[..n])|;
    } else {
      at := InJoined(blocks[..n], i);
      assert Joined(blocks)[at..at + |blocks[i]|] == Joined(blocks[..n])[at..at + |blocks[i]|];
    }
  }

  /** The pairs (length, index) are all different, so sorting them leaves no ties. */
  lemma ItemsAreSortedByLength(lens: seq<int>, sorted: seq<Item>)
    requires AscendingItems(sorted) && multiset(sorted) == multiset(ItemsOf(lens))
    ensures SortedByLength(sorted)
  {
    ItemsOfOnce(lens);
    forall i, j | 0 <= i < j < |sorted|
      ensures sorted[i] != sorted[j]
    {
      assert multiset(sorted)[sorted[i]] <= 1;
      assert sorted == sorted[..i] + [sorted[i]] + sorted[i + 1..j] + [sorted[j]] + sorted[j + 1..];
    }
    forall i, j | 0 <= i < j < |sorted|
      ensures Before(sorted[i], sorted[j]) && sorted[i] != sorted[j]
    {
    }
  }

  lemma NoStates(k: nat)
    ensures Starts([], [], k) && Joined([]) == []
  {
  }

  lemma ItemsInRange(lens: seq<int>, sorted: seq<Item>, i: nat)
    requires lens != [] && NonNegative(lens) && multiset(sorted) == multiset(ItemsOf(lens)) && i < |sorted|
    ensures 0 <= sorted[i].val <= Max(lens)
  {
    assert sorted[i] in multiset(sorted);
    assert sorted[i] in ItemsOf(lens);
  }

  /** Every block of a run can be a state, with the largest length as the bound on its spread. */
  lemma BlockFits(lens: seq<int>, k: nat, equal: bool, sorted: seq<Item>, blocks: seq<seq<Item>>, i: nat)
    requires lens != [] && NonNegative(lens) && 1 <= k && i < |blocks|
    requires SortedByLength(sorted) && multiset(sorted) == multiset(ItemsOf(lens)) && Joined(blocks) == sorted
    requires |blocks[i]| == if equal then k else 1
    ensures Fits(blocks[i], k, Max(lens), equal)
  {
    var at := InJoined(blocks, i);
    var items := blocks[i];
    forall j | 0 <= j < |items|
      ensures items[j] == sorted[at + j] && 0 <= items[j].val <= Max(lens)
    {
      assert items[j] == sorted[at..at + |items|][j];
      ItemsInRange(lens, sorted, at + j);
    }
    assert AscendingItems(items);
  }

  lemma RunInv(lens: seq<int>, k: nat, equal: bool, sorted: seq<Item>, blocks: seq<seq<Item>>,
               pools: seq<seq<seq<SetVal>>>)
    requires lens != [] && NonNegative(lens) && 1 <= k && IsRun(lens, k, equal, sorted, blocks, pools)
    ensures PoolInv(pools[0], sorted, k, Max(lens), equal) && NoneTwice(sorted)
  {
    forall i | 0 <= i < |blocks|
      ensures Fits(blocks[i], k, Max(lens), equal)
    {
      BlockFits(lens, k, equal, sorted, blocks, i);
    }
    StartsInv(pools[0], blocks, k, Max(lens), equal);
    ItemsOfOnce(lens);
  }

  /**
   The partition is a function of the lengths: however the heap arranges its states, and whichever of
   several least states it would hand out, there is one partition that a run can end with.
   */
  lemma PartitionIsUnique(lens: seq<int>, k: nat, equal: bool, parts: seq<seq<nat>>, other: seq<seq<nat>>)
    requires lens != [] && NonNegative(lens) && 1 <= k
    requires Differenced(lens, k, equal, parts) && Differenced(lens, k, equal, other)
    ensures parts == other
  {
    var sorted, blocks, pools :| IsRun(lens, k, equal, sorted, blocks, pools)
                                 && parts == PartsOf(pools[|pools| - 1][0]);
    var sorted', blocks', pools' :| IsRun(lens, k, equal, sorted', blocks', pools')
                                    && other == PartsOf(pools'[|pools'| - 1][0]);
    SortedByLengthOnce(sorted, sorted');
    JoinedOnce(blocks, blocks', if equal then k else 1);
    StartsOnce(pools[0], pools'[0], blocks, k);
    RunInv(lens, k, equal, sorted, blocks, pools);
    RunsAgree(pools, pools', sorted, k, Max(lens), equal);
  }
}
