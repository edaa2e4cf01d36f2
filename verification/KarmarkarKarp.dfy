/**
 karmarkar_karp with the Set and State objects that it updates in place.
 */
module KarmarkarKarp {
  import opened Wrappers
  import opened Arithmetic
  import opened Partition
  import opened Differencing
  import opened DifferencingRun

  class Set {
    var sum: int
    var items: seq<Item>

    function Value(): SetVal
      reads this
    {
      SetVal(sum, items)
    }

    constructor ()
      ensures Value() == SetVal(0, [])
    {
      sum, items := 0, [];
    }

    method Add(idx: nat, val: int)
      modifies this
      ensures Value() == SetVal(old(sum) + val, old(items) + [Item(idx, val)])
    {
      items := items + [Item(idx, val)];
      sum := sum + val;
    }

    method Merge(other: Set)
      requires other != this
      modifies this
      ensures Value() == SetVal(old(sum) + SumItems(other.items), old(items) + other.items)
    {
      for i := 0 to |other.items|
        invariant items == old(items) + other.items[..i]
        invariant sum == old(sum) + SumItems(other.items[..i])
      {
        items := items + [other.items[i]];
        sum := sum + other.items[i].val;
        assert other.items[..i + 1] == other.items[..i] + [other.items[i]];
        SumItemsConcat(other.items[..i], [other.items[i]]);
      }
      assert other.items[..|other.items|] == other.items;
    }
  }

  function Values(sets: seq<Set>): seq<SetVal>
    reads sets
  {
    seq(|sets|, i requires 0 <= i < |sets| reads sets => sets[i].Value())
  }

  predicate Distinct(sets: seq<Set>) {
    forall i, j | 0 <= i < j < |sets| :: sets[i] != sets[j]
  }

  lemma OneMoreValue(sets: seq<Set>, s: Set)
    ensures Values(sets + [s]) == Values(sets) + [s.Value()]
  {
  }

  lemma NoValues()
    ensures Values([]) == [] && Decreasing([])
  {
  }

  /** sorted(sets, reverse=True): the same objects in decreasing order. */
  method SortDecreasing(sets: seq<Set>) returns (r: seq<Set>)
    requires Distinct(sets)
    ensures |r| == |sets| && Distinct(r) && forall s :: s in r <==> s in sets
    ensures InOrder(Values(r)) && multiset(Values(r)) == multiset(Values(sets))
  {
    hide SetLess, Values, Decreasing, InOrder;
    NoValues();
    r := [];
    for i := 0 to |sets|
      invariant |r| == i && Distinct(r) && forall s :: s in r <==> s in sets[..i]
      invariant Decreasing(Values(r)) && multiset(Values(r)) == multiset(Values(sets[..i]))
    {
      r := InsertDecreasing(r, sets[i]);
      assert sets[..i + 1] == sets[..i] + [sets[i]];
      OneMoreValue(sets[..i], sets[i]);
    }
    assert sets[..|sets|] == sets;
    DecreasingIsInOrder(Values(r));
  }

  method InsertDecreasing(sets: seq<Set>, s: Set) returns (r: seq<Set>)
    requires Distinct(sets) && s !in sets && Decreasing(Values(sets))
    ensures |r| == |sets| + 1 && Distinct(r) && forall t :: t in r <==> t == s || t in sets
    ensures Decreasing(Values(r)) && multiset(Values(r)) == multiset(Values(sets)) + multiset{s.Value()}
  {
    var i := 0;
    while i < |sets| && !SetLess(sets[i].Value(), s.Value())
      invariant 0 <= i <= |sets|
      invariant i > 0 ==> !SetLess(sets[i - 1].Value(), s.Value())
    {
      i := i + 1;
    }
    r := sets[..i] + [s] + sets[i..];
    if i < |sets| {
      SetLessAsymmetric(sets[i].Value(), s.Value());
    }
    InsertKeepsDecreasing(Values(sets), i, s.Value());
    InsertKeepsValues(sets, i, s);
    InsertKeepsDistinct(sets, i, s);
  }

  lemma InsertKeepsValues(sets: seq<Set>, i: nat, s: Set)
    requires i <= |sets|
    ensures var r := sets[..i] + [s] + sets[i..];
            && Values(r) == Values(sets)[..i] + [s.Value()] + Values(sets)[i..]
            && multiset(Values(r)) == multiset(Values(sets)) + multiset{s.Value()}
  {
    assert Values(sets) == Values(sets)[..i] + Values(sets)[i..];
  }

  lemma InsertKeepsDistinct(sets: seq<Set>, i: nat, s: Set)
    requires i <= |sets| && Distinct(sets) && s !in sets
    ensures var r := sets[..i] + [s] + sets[i..];
            Distinct(r) && forall t :: t in r <==> t == s || t in sets
  {
  }

  lemma InsertKeepsDecreasing(v: seq<SetVal>, i: nat, s: SetVal)
    requires Decreasing(v) && i <= |v|
    requires i > 0 ==> !SetLess(v[i - 1], s)
    requires i < |v| ==> !SetLess(s, v[i])
    ensures Decreasing(v[..i] + [s] + v[i..])
  {
  }

  method EmptySets(k: nat) returns (list: seq<Set>)
    ensures |list| == k && Distinct(list)
    ensures forall i | 0 <= i < k :: fresh(list[i]) && list[i].Value() == SetVal(0, [])
  {
    list := [];
    for i := 0 to k
      invariant |list| == i && Distinct(list)
      invariant forall j | 0 <= j < i :: fresh(list[j]) && list[j].Value() == SetVal(0, [])
    {
      var s := new Set();
      list := list + [s];
    }
  }

  /** The first sets get one item each. */
  method DealItems(list: seq<Set>, items: seq<Item>)
    requires Distinct(list) && |items| <= |list|
    requires forall i | 0 <= i < |list| :: list[i].Value() == SetVal(0, [])
    modifies set s | s in list
    ensures Values(list) == Initial(items, |list|)
  {
    for i := 0 to |items|
      invariant forall j | 0 <= j < |list| ::
                  list[j].Value() == if j < i then SetVal(items[j].val, [items[j]]) else SetVal(0, [])
    {
      list[i].Add(items[i].idx, items[i].val);
    }
  }

  /** Merge the largest set of one list with the smallest of the other, and so on. */
  method MergePairwise(mine: seq<Set>, theirs: seq<Set>)
    requires |mine| == |theirs| && Distinct(mine) && forall s | s in theirs :: s !in mine
    requires Consistent(Values(theirs))
    modifies set s | s in mine
    ensures Values(mine) == Paired(old(Values(mine)), old(Values(theirs)))
  {
    ghost var a, b := Values(mine), Values(theirs);
    for i := 0 to |mine|
      invariant Values(theirs) == b
      invariant forall j | 0 <= j < i :: mine[j].Value() == Paired(a, b)[j]
      invariant forall j | i <= j < |mine| :: mine[j].Value() == a[j]
    {
      var other := theirs[|mine| - 1 - i];
      assert other.Value() == b[|mine| - 1 - i];
      mine[i].Merge(other);
    }
  }

  class State {
    const k: nat
    var sets: seq<Set>
    ghost const Repr: set<object>

    ghost predicate Valid()
      reads this
    {
      && |sets| == k > 0 && Distinct(sets)
      && this in Repr && forall s | s in sets :: s in Repr
    }

    function Value(): (v: seq<SetVal>)
      requires Valid()
      reads this, Repr
      ensures |v| == k
    {
      Values(sets)
    }

    constructor (items: seq<Item>, k: nat)
      requires 1 <= k && (|items| == 1 || |items| == k)
      ensures Valid() && this.k == k && fresh(Repr)
      ensures IsStart(Value(), items, k)
    {
      var list := EmptySets(k);
      DealItems(list, items);
      assert Values(list) == Initial(items, k);
      var sorted := SortDecreasing(list);
      this.k := k;
      sets := sorted;
      Repr := {this} + set s: Set | s in list;
    }

    method Merge(other: State)
      requires Valid() && other.Valid() && k == other.k && Repr !! other.Repr
      requires Consistent(other.Value())
      modifies Repr
      ensures Valid()
      ensures Merges(old(Value()), old(other.Value()), Value())
    {
      MergePairwise(sets, other.sets);
      sets := SortDecreasing(sets);
    }
  }

  // ---------------------------------------------------------------- the heap

  /** The list that heapq works on.  pool holds the values of its states. */
  class Heap {
    const k: nat
    var states: seq<State>
    ghost var pool: seq<seq<SetVal>>
    ghost var Repr: set<object>

    ghost predicate Valid()
      reads this, Repr
    {
      && this in Repr && |states| == |pool| && k > 0
      && (forall i | 0 <= i < |states| ::
            && states[i] in Repr && states[i].Repr <= Repr && this !in states[i].Repr
            && states[i].Valid() && states[i].k == k && states[i].Value() == pool[i])
      && (forall i, j | 0 <= i < j < |states| :: states[i].Repr !! states[j].Repr)
    }

    constructor (k: nat)
      requires k > 0
      ensures Valid() && fresh(Repr) && this.k == k && pool == []
    {
      this.k := k;
      states, pool, Repr := [], [], {this};
    }

    /** heapq.heappush; where the state is kept does not matter to Pop. */
    method Push(s: State)
      requires Valid() && s.Valid() && s.k == k && s.Repr !! Repr
      modifies this
      ensures Valid() && pool == old(pool) + [s.Value()]
      ensures Repr == old(Repr) + s.Repr
    {
      states, pool, Repr := states + [s], pool + [s.Value()], Repr + s.Repr;
    }

    /** The position of some state that the heap order lets leave first. */
    method First() returns (best: nat)
      requires Valid() && states != []
      ensures best < |states| && IsLargest(pool[best], pool)
    {
      hide State.Value, StateLess, NoLarger;
      best := 0;
      assert forall j | 0 <= j < |pool| :: states[j].Value() == pool[j];
      NotLessItself(pool[0]);
      for i := 1 to |states|
        invariant 0 <= best < i <= |states|
        invariant forall j | 0 <= j < i :: !StateLess(pool[j], pool[best])
      {
        if StateLess(states[i].Value(), states[best].Value()) {
          NotLessItself(pool[i]);
          StateLessAsymmetric(pool[i], pool[best]);
          forall j | 0 <= j < i
            ensures !StateLess(pool[j], pool[i])
          {
            StateNotLessTransitive(pool[j], pool[best], pool[i]);
          }
          best := i;
        }
      }
      forall j | 0 <= j < |pool|
        ensures NoLarger(pool[j], pool[best])
      {
        NotLessIsNoLarger(pool[j], pool[best]);
      }
    }

    /** heapq.heappop */
    method Pop() returns (s: State)
      requires Valid() && states != []
      modifies this
      ensures Valid() && Repr == old(Repr) - s.Repr
      ensures s.Valid() && s.k == k && s.Repr <= old(Repr) && this !in s.Repr
      ensures |old(pool)| == |pool| + 1 && multiset(old(pool)) == multiset(pool) + multiset{s.Value()}
      ensures IsLargest(s.Value(), old(pool))
    {
      hide IsLargest, State.Value;
      var best := First();
      s := states[best];
      ghost var before := pool;
      states := states[..best] + states[best + 1..];
      pool := pool[..best] + pool[best + 1..];
      Repr := Repr - s.Repr;
      assert s.Value() == before[best];
      TakeOut(before, best);
    }
  }

  lemma TakeOut<T>(pool: seq<T>, i: nat)
    requires i < |pool|
    ensures multiset(pool) == multiset(pool[..i] + pool[i + 1..]) + multiset{pool[i]}
  {
    assert pool == pool[..i] + [pool[i]] + pool[i + 1..];
  }

  lemma NotLessItself(v: seq<SetVal>)
    requires v != []
    ensures !StateLess(v, v)
  {
    if StateLess(v, v) {
      StateLessAsymmetric(v, v);
    }
  }

  // ---------------------------------------------------------------- the two halves of karmarkar_karp

  /** Push the state made of the given items. */
  method PushItems(heap: Heap, items: seq<Item>, ghost blocks: seq<seq<Item>>)
    requires heap.Valid() && Starts(heap.pool, blocks, heap.k)
    requires |items| == 1 || |items| == heap.k
    modifies heap
    ensures heap.Valid() && fresh(heap.Repr - old(heap.Repr))
    ensures Starts(heap.pool, blocks + [items], heap.k)
  {
    hide IsStart;
    var state := new State(items, heap.k);
    heap.Push(state);
  }

  lemma OneMoreBlock(blocks: seq<seq<Item>>, items: seq<Item>)
    ensures Joined(blocks + [items]) == Joined(blocks) + items
  {
    assert (blocks + [items])[..|blocks|] == blocks;
  }

  /** One state per item. */
  method PushSingles(heap: Heap, sorted: seq<Item>) returns (ghost blocks: seq<seq<Item>>)
    requires heap.Valid() && heap.pool == []
    modifies heap
    ensures heap.Valid() && fresh(heap.Repr - old(heap.Repr))
    ensures Starts(heap.pool, blocks, heap.k) && Joined(blocks) == sorted
    ensures forall i | 0 <= i < |blocks| :: |blocks[i]| == 1
  {
    hide Starts, Joined;
    NoStates(heap.k);
    blocks := [];
    for i := 0 to |sorted|
      invariant heap.Valid() && fresh(heap.Repr - old(heap.Repr))
      invariant Starts(heap.pool, blocks, heap.k) && Joined(blocks) == sorted[..i]
      invariant forall j | 0 <= j < |blocks| :: |blocks[j]| == 1
    {
      PushItems(heap, [sorted[i]], blocks);
      OneMoreBlock(blocks, [sorted[i]]);
      assert sorted[..i + 1] == sorted[..i] + [sorted[i]];
      blocks := blocks + [[sorted[i]]];
    }
    assert sorted[..|sorted|] == sorted;
  }

  /** Whole blocks of k neighbours, each with a spread of at most the bound. */
  ghost predicate Blocks(s: seq<Item>, k: nat, bound: int)
    requires 1 <= k
  {
    |s| % k == 0 && LargestBlockSpread(s, k) <= bound
  }

  lemma FirstBlock(s: seq<Item>, k: nat, bound: int)
    requires 1 <= k && s != [] && Blocks(s, k, bound)
    ensures k <= |s| && s[k - 1].val - s[0].val <= bound && Blocks(s[k..], k, bound)
  {
    PositiveMultiple(|s|, k);
    RemoveOneMultiple(|s|, k);
  }

  /** One state per block of k neighbours, for parts of equal size. */
  method PushBlocks(heap: Heap, sorted: seq<Item>, ghost bound: int) returns (ghost blocks: seq<seq<Item>>)
    requires heap.Valid() && heap.pool == []
    requires AscendingItems(sorted) && forall i | 0 <= i < |sorted| :: 0 <= sorted[i].val
    requires Blocks(sorted, heap.k, bound)
    modifies heap
    ensures heap.Valid() && fresh(heap.Repr - old(heap.Repr))
    ensures Starts(heap.pool, blocks, heap.k) && Joined(blocks) == sorted
    ensures forall i | 0 <= i < |blocks| :: Fits(blocks[i], heap.k, bound, true)
  {
    hide Starts, Joined, LargestBlockSpread;
    NoStates(heap.k);
    var k := heap.k;
    var offset := 0;
    blocks := [];
    while offset < |sorted|
      invariant 0 <= offset <= |sorted| && Blocks(sorted[offset..], k, bound)
      invariant heap.Valid() && fresh(heap.Repr - old(heap.Repr))
      invariant Starts(heap.pool, blocks, k) && Joined(blocks) == sorted[..offset]
      invariant forall i | 0 <= i < |blocks| :: Fits(blocks[i], k, bound, true)
    {
      NextBlock(sorted, offset, k, bound);
      var items := sorted[offset..offset + k];
      PushItems(heap, items, blocks);
      OneMoreBlock(blocks, items);
      blocks := blocks + [items];
      offset := offset + k;
    }
  }

  lemma NextBlock(sorted: seq<Item>, offset: nat, k: nat, bound: int)
    requires AscendingItems(sorted) && forall i | 0 <= i < |sorted| :: 0 <= sorted[i].val
    requires 1 <= k && offset < |sorted| && Blocks(sorted[offset..], k, bound)
    ensures offset + k <= |sorted| && Fits(sorted[offset..offset + k], k, bound, true)
    ensures Blocks(sorted[offset + k..], k, bound)
    ensures sorted[..offset + k] == sorted[..offset] + sorted[offset..offset + k]
  {
    FirstBlock(sorted[offset..], k, bound);
    assert sorted[offset..][k..] == sorted[offset + k..];
  }

  lemma TwoLeave(pool: seq<seq<SetVal>>, rest: seq<seq<SetVal>>, left: seq<seq<SetVal>>,
                 a: seq<SetVal>, b: seq<SetVal>)
    requires multiset(pool) == multiset(rest) + multiset{a} && multiset(rest) == multiset(left) + multiset{b}
    ensures multiset(pool) == multiset(left) + multiset{a, b} && b in pool
    ensures IsLargest(b, rest) ==> IsLargest(b, left)
  {
    assert b in multiset(pool);
    forall w | w in left
      ensures w in rest
    {
      assert w in multiset(rest);
    }
  }

  method MergePush(heap: Heap, state0: State, state1: State)
    requires heap.Valid() && state0.Valid() && state1.Valid() && state0.k == state1.k == heap.k
    requires state0.Repr !! heap.Repr && state0.Repr !! state1.Repr && Consistent(state1.Value())
    modifies heap, state0.Repr
    ensures heap.Valid() && heap.Repr == old(heap.Repr) + state0.Repr && state0.Valid()
    ensures Merges(old(state0.Value()), old(state1.Value()), state0.Value())
    ensures heap.pool == old(heap.pool) + [state0.Value()]
  {
    state0.Merge(state1);
    heap.Push(state0);
  }

  /** One turn of the heap loop: pop two states, merge the second into the first, push it back. */
  method MergeTwo(heap: Heap) returns (ghost a: seq<SetVal>, ghost b: seq<SetVal>, ghost r: seq<SetVal>,
                                       ghost left: seq<seq<SetVal>>)
    requires heap.Valid() && |heap.pool| > 1 && forall v | v in heap.pool :: WellFormed(v, heap.k)
    modifies heap.Repr
    ensures heap.Valid() && heap.Repr <= old(heap.Repr)
    ensures IsTurn(old(heap.pool), heap.pool, a, b, r, left)
  {
    hide IsLargest, Merges;
    ghost var pool := heap.pool;
    var state0 := heap.Pop();
    ghost var rest := heap.pool;
    var state1 := heap.Pop();
    a, b, left := state0.Value(), state1.Value(), heap.pool;
    TwoLeave(pool, rest, left, a, b);
    assert WellFormed(b, heap.k);
    MergePush(heap, state0, state1);
    r := state0.Value();
  }

  /** Merge until one state is left. */
  method MergeAll(heap: Heap, ghost source: seq<Item>, ghost equal: bool, ghost bound: int)
    returns (ghost pools: seq<seq<seq<SetVal>>>)
    requires heap.Valid() && heap.pool != [] && PoolInv(heap.pool, source, heap.k, bound, equal)
    modifies heap.Repr
    ensures heap.Valid() && |heap.pool| == 1 && PoolInv(heap.pool, source, heap.k, bound, equal)
    ensures Run(pools) && pools[0] == old(heap.pool) && pools[|pools| - 1] == heap.pool
  {
    hide IsTurn, PoolInv;
    pools := [heap.pool];
    while |heap.states| > 1
      invariant heap.Valid() && heap.Repr <= old(heap.Repr) && heap.pool != []
      invariant PoolInv(heap.pool, source, heap.k, bound, equal)
      invariant Run(pools) && pools[0] == old(heap.pool) && pools[|pools| - 1] == heap.pool
      decreases |heap.pool|
    {
      ghost var pool := heap.pool;
      PoolIsWellFormed(pool, source, heap.k, bound, equal);
      ghost var a, b, r, left := MergeTwo(heap);
      TurnTakesTwo(pool, heap.pool);
      TurnKeepsPoolInv(pool, heap.pool, a, b, r, left, source, heap.k, bound, equal);
      pools := pools + [heap.pool];
    }
  }

  lemma PoolIsWellFormed(pool: seq<seq<SetVal>>, source: seq<Item>, k: nat, bound: int, equal: bool)
    requires PoolInv(pool, source, k, bound, equal)
    ensures forall v | v in pool :: WellFormed(v, k)
  {
  }

  // ---------------------------------------------------------------- karmarkar_karp

  datatype Error =
    | IndexError
    | DivisionByZero
    | NotDivisible
    | UnequalParts
    | TooFewItems
    | WrongCount
    | EmptyPart
    | NotACover

  /** The bound on the spread: the largest item, or the largest spread of a sorted block. */
  function Bound(lens: seq<int>, k: nat, equal: bool): int
    requires lens != [] && 1 <= k
  {
    if equal then LargestBlockSpread(SortItems(ItemsOf(lens)), k) else Max(lens)
  }

  lemma SortedItems(lens: seq<int>, sorted: seq<Item>)
    requires lens != [] && NonNegative(lens) && sorted == SortItems(ItemsOf(lens))
    ensures |sorted| == |lens| && forall i | 0 <= i < |sorted| :: 0 <= sorted[i].val <= Max(lens)
  {
    assert |multiset(sorted)| == |multiset(ItemsOf(lens))|;
    forall i | 0 <= i < |sorted|
      ensures 0 <= sorted[i].val <= Max(lens)
    {
      assert sorted[i] in multiset(sorted);
      assert sorted[i] in ItemsOf(lens);
    }
  }

  /** What the partition owes to its caller. */
  ghost predicate Balanced(lens: seq<int>, parts: seq<seq<nat>>, k: nat, equal: bool)
    requires lens != [] && 1 <= k
  {
    && |parts| == k
    && ExactCover(parts, |lens|)
    && SpreadAtMost(Loads(lens, parts), Bound(lens, k, equal))
    && if equal then forall i | 0 <= i < k :: |parts[i]| * k == |lens|
       else forall i | 0 <= i < k :: parts[i] != [] <==> i < |lens|
  }

  lemma SpreadOfSums(v: seq<SetVal>, k: nat, i: nat, j: nat)
    requires WellFormed(v, k) && i < k && j < k
    ensures v[i].sum - v[j].sum <= Spread(v)
  {
    SumsDecrease(v, 0, i);
    SumsDecrease(v, j, k - 1);
  }

  lemma LastStateCounts(v: seq<SetVal>, source: seq<Item>, k: nat, bound: int, equal: bool)
    requires PoolInv([v], source, k, bound, equal)
    ensures StateInv(v, k, bound, equal)
    ensures Size(v) == |source| && forall x: Item :: ItemCount(v, x) == multiset(source)[x]
  {
    assert v in [v];
    assert SumOf(SIZE, [v]) == Size(v);
    forall x: Item
      ensures ItemCount(v, x) == multiset(source)[x]
    {
      assert SumOf(CountIn(x), [v]) == ItemCount(v, x);
    }
  }

  lemma LastStateSpread(v: seq<SetVal>, lens: seq<int>, k: nat, bound: int)
    requires WellFormed(v, k) && Spread(v) <= bound
    requires forall i | 0 <= i < k :: Load(lens, PartsOf(v)[i]) == v[i].sum
    ensures SpreadAtMost(Loads(lens, PartsOf(v)), bound)
  {
    forall i, j | 0 <= i < k && 0 <= j < k
      ensures Loads(lens, PartsOf(v))[i] - Loads(lens, PartsOf(v))[j] <= bound
    {
      SpreadOfSums(v, k, i, j);
    }
  }

  lemma EqualSizes(v: seq<SetVal>, k: nat, n: nat, i: nat)
    requires |v| == k && i < k && EvenlyFilled(v, |v[0].items|) && Size(v) == n
    ensures |PartsOf(v)[i]| * k == n
  {
    EvenSize(v, |v[0].items|);
    assert |PartsOf(v)[i]| == |v[i].items| == |v[0].items|;
  }

  /** From the last state on the heap to the partition. */
  lemma LastStateIsBalanced(v: seq<SetVal>, lens: seq<int>, k: nat, equal: bool)
    requires lens != [] && 1 <= k && StateInv(v, k, Bound(lens, k, equal), equal)
    requires Size(v) == |lens| && forall x: Item :: ItemCount(v, x) == multiset(ItemsOf(lens))[x]
    ensures Balanced(lens, PartsOf(v), k, equal)
  {
    FinalSets(v, lens, k);
    LastStateSpread(v, lens, k, Bound(lens, k, equal));
    if equal {
      forall i | 0 <= i < k
        ensures |PartsOf(v)[i]| * k == |lens|
      {
        EqualSizes(v, k, |lens|, i);
      }
    } else {
      forall i | 0 <= i < k
        ensures PartsOf(v)[i] != [] <==> i < |lens|
      {
        assert |PartsOf(v)[i]| == |v[i].items|;
      }
    }
  }

  method GetPartitions(v: seq<Set>) returns (parts: seq<seq<nat>>)
    ensures parts == PartsOf(Values(v))
  {
    parts := [];
    for i := 0 to |v|
      invariant parts == PartsOf(Values(v))[..i]
    {
      var part: seq<nat> := [];
      for j := 0 to |v[i].items|
        invariant part == Indices(v[i].items)[..j]
      {
        part := part + [v[i].items[j].idx];
      }
      assert part == PartsOf(Values(v))[i];
      parts := parts + [part];
    }
  }

  /** The pool of new states keeps the invariant, whichever way its blocks were cut. */
  lemma PushedInv(pool: seq<seq<SetVal>>, blocks: seq<seq<Item>>, sorted: seq<Item>, k: nat, equal: bool, bound: int)
    requires 1 <= k && sorted != [] && Starts(pool, blocks, k) && Joined(blocks) == sorted
    requires forall i | 0 <= i < |blocks| :: Fits(blocks[i], k, bound, equal)
    ensures pool != [] && PoolInv(pool, sorted, k, bound, equal)
  {
    StartsInv(pool, blocks, k, bound, equal);
  }

  lemma SinglesFit(sorted: seq<Item>, blocks: seq<seq<Item>>, k: nat, bound: int)
    requires forall i | 0 <= i < |sorted| :: 0 <= sorted[i].val <= bound
    requires Joined(blocks) == sorted && forall i | 0 <= i < |blocks| :: |blocks[i]| == 1
    ensures forall i | 0 <= i < |blocks| :: Fits(blocks[i], k, bound, false)
  {
    forall i | 0 <= i < |blocks|
      ensures Fits(blocks[i], k, bound, false)
    {
      var at := InJoined(blocks, i);
      assert blocks[i][0] == sorted[at..at + 1][0] == sorted[at];
    }
  }

  /** Build the heap and merge it down to one state. */
  method LastState(sorted: seq<Item>, k: nat, equal: bool, ghost bound: int)
    returns (last: State, ghost v: seq<SetVal>, ghost blocks: seq<seq<Item>>, ghost pools: seq<seq<seq<SetVal>>>)
    requires 1 <= k && sorted != [] && AscendingItems(sorted) && forall i | 0 <= i < |sorted| :: 0 <= sorted[i].val
    requires if equal then Blocks(sorted, k, bound) else forall i | 0 <= i < |sorted| :: sorted[i].val <= bound
    ensures last.Valid() && v == last.Value() && PoolInv([v], sorted, k, bound, equal)
    ensures Joined(blocks) == sorted && forall i | 0 <= i < |blocks| :: |blocks[i]| == if equal then k else 1
    ensures Run(pools) && Starts(pools[0], blocks, k) && pools[|pools| - 1] == [v]
  {
    hide PoolInv, Run, Starts;
    var heap := new Heap(k);
    NoStates(k);
    if equal {
      blocks := PushBlocks(heap, sorted, bound);
    } else {
      blocks := PushSingles(heap, sorted);
      SinglesFit(sorted, blocks, k, bound);
    }
    PushedInv(heap.pool, blocks, sorted, k, equal, bound);
    pools := MergeAll(heap, sorted, equal, bound);
    last := heap.states[0];
    v := last.Value();
    assert heap.pool == [v];
  }

  /** Everything between the divisibility check and the final assertions. */
  method Difference(lens: seq<int>, k: nat, equal: bool) returns (parts: seq<seq<nat>>)
    requires NonNegative(lens) && lens != [] && 1 <= k && (equal ==> |lens| % k == 0)
    ensures Balanced(lens, parts, k, equal) && Differenced(lens, k, equal, parts)
  {
    hide Balanced, PoolInv, Run, Starts, LargestBlockSpread;
    var sorted := SortItems(ItemsOf(lens));
    SortedItems(lens, sorted);
    var last, v, blocks, pools := LastState(sorted, k, equal, Bound(lens, k, equal));
    LastStateCounts(v, sorted, k, Bound(lens, k, equal), equal);
    LastStateIsBalanced(v, lens, k, equal);
    parts := GetPartitions(last.sets);
    ItemsAreSortedByLength(lens, sorted);
    assert IsRun(lens, k, equal, sorted, blocks, pools);
  }

  /** The assertion on equal sizes is part of the code; it never fires. */
  method KarmarkarKarpPartition(lens: seq<int>, k: nat, equal: bool) returns (r: Result<seq<seq<nat>>, Error>)
    requires NonNegative(lens)
    ensures k == 0 ==> r == Failure(if equal then DivisionByZero else IndexError)
    ensures k > 0 && equal && |lens| % k != 0 ==> r == Failure(NotDivisible)
    ensures k > 0 && lens == [] ==> r == Failure(IndexError)
    ensures k > 0 && lens != [] && (equal ==> |lens| % k == 0) ==>
              r.Success? && Balanced(lens, r.value, k, equal) && Differenced(lens, k, equal, r.value)
  {
    if k == 0 {
      return Failure(if equal then DivisionByZero else IndexError);
    }
    if equal && |lens| % k != 0 {
      return Failure(NotDivisible);
    }
    if lens == [] {
      return Failure(IndexError);
    }
    var parts := Difference(lens, k, equal);
    if equal {
      var ok := CheckEqual(parts, k, |lens|);
      if !ok {
        return Failure(UnequalParts);
      }
    }
    return Success(parts);
  }
}
