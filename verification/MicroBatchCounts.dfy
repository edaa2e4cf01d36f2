/**
 How many micro-batches rearrange_micro_batches makes: what a rank needs, what the ranks agree on, and
 the divisor that the number is rounded up to.
 */
module MicroBatchCounts {
  import opened Wrappers
  import opened Arithmetic
  import opened Partition
  import opened MicroBatchTokens

  function MinInt(a: int, b: int): int {
    if a <= b then a else b
  }

  function MaxInt(a: int, b: int): int {
    if a >= b then a else b
  }

  /** The number that one rank needs by itself. */
  function LocalCount(seqLens: seq<nat>, maxTokenLen: nat, minCount: Option<int>): int
    requires maxTokenLen > 0
  {
    var byTokens := MinInt(|seqLens|, CeilDiv(Sum(seqLens), maxTokenLen));
    if minCount.Some? then MaxInt(minCount.value, byTokens) else byTokens
  }

  /** The all-reduced maximum over this rank's number and those of its data-parallel peers. */
  function AgreedCount(mine: int, peers: seq<int>): int {
    if peers == [] then mine else MaxInt(peers[0], AgreedCount(mine, peers[1..]))
  }

  function RoundUp(a: int, b: int): int
    requires b > 0
  {
    ((a + b - 1) / b) * b
  }

  /** The number of micro-batches before it is compared with the batch size. */
  function MicroBatchCount(
    seqLens: seq<nat>, maxTokenLen: nat, minCount: Option<int>, peers: seq<int>, dividedBy: Option<nat>): int
    requires maxTokenLen > 0 && (dividedBy.Some? ==> dividedBy.value > 0)
  {
    var agreed := AgreedCount(LocalCount(seqLens, maxTokenLen, minCount), peers);
    if dividedBy.Some? then RoundUp(agreed, dividedBy.value) else agreed
  }

  // ---------------------------------------------------------------- one rank

  predicate Enough(count: nat, limit: nat, total: int) {
    total <= count * limit
  }

  /** Without a minimum: the least number with room for all tokens, or one per row if that is less. */
  ghost predicate LeastNeed(count: int, rows: nat, limit: nat, total: int) {
    && 0 <= count <= rows
    && (count < rows ==> Enough(count, limit, total))
    && forall fewer: nat | fewer < count :: !Enough(fewer, limit, total)
  }

  lemma {:induction false} TotalAtLeastZero(seqLens: seq<nat>)
    ensures Sum(seqLens) >= 0
  {
    SumAtLeast(seqLens, 0);
  }

  /** What one rank needs, and that a given minimum only ever raises it, and no further than to itself. */
  lemma LocalCountIs(seqLens: seq<nat>, limit: nat, minimum: int)
    requires limit > 0
    ensures LeastNeed(LocalCount(seqLens, limit, None), |seqLens|, limit, Sum(seqLens))
    ensures var need, count := LocalCount(seqLens, limit, None), LocalCount(seqLens, limit, Some(minimum));
            count >= need && count >= minimum && (count == need || count == minimum)
  {
    TotalAtLeastZero(seqLens);
    var count, total := CeilDiv(Sum(seqLens), limit), Sum(seqLens);
    CeilDivIs(total, limit, count);
    CeilDivIs(total, limit, -1);
    forall fewer: nat | fewer < count
      ensures !Enough(fewer, limit, total)
    {
      CeilDivIs(total, limit, fewer);
    }
  }

  // ---------------------------------------------------------------- all ranks

  /** m is the largest of the numbers. */
  ghost predicate IsLargestOf(m: int, numbers: seq<int>) {
    m in numbers && forall i | 0 <= i < |numbers| :: numbers[i] <= m
  }

  lemma {:induction false} AgreedIsLargest(mine: int, peers: seq<int>)
    ensures IsLargestOf(AgreedCount(mine, peers), [mine] + peers)
  {
    if peers != [] {
      AgreedIsLargest(mine, peers[1..]);
      var rest := [mine] + peers[1..];
      assert forall i | 1 < i <= |peers| :: ([mine] + peers)[i] == rest[i - 1];
      assert rest[0] == ([mine] + peers)[0];
    }
  }

  lemma RoundUpIs(a: int, b: int)
    requires b > 0
    ensures RoundUp(a, b) % b == 0 && a <= RoundUp(a, b) < a + b
  {
    var q := (a + b - 1) / b;
    assert a + b - 1 == q * b + (a + b - 1) % b;
    QuotientOfMultiple(q, b);
  }

  /** The largest number of any rank, or the first multiple of the divisor from there. */
  ghost predicate CountFor(count: int, largest: int, dividedBy: Option<nat>)
    requires dividedBy.Some? ==> dividedBy.value > 0
  {
    && (dividedBy.None? ==> count == largest)
    && (dividedBy.Some? ==> count % dividedBy.value == 0 && largest <= count < largest + dividedBy.value)
  }

  lemma CountIs(seqLens: seq<nat>, limit: nat, minCount: Option<int>, peers: seq<int>, dividedBy: Option<nat>)
    returns (largest: int)
    requires limit > 0 && (dividedBy.Some? ==> dividedBy.value > 0)
    ensures IsLargestOf(largest, [LocalCount(seqLens, limit, minCount)] + peers)
    ensures CountFor(MicroBatchCount(seqLens, limit, minCount, peers, dividedBy), largest, dividedBy)
  {
    largest := AgreedCount(LocalCount(seqLens, limit, minCount), peers);
    AgreedIsLargest(LocalCount(seqLens, limit, minCount), peers);
    if dividedBy.Some? {
      RoundUpIs(largest, dividedBy.value);
    }
  }

  /** At most one multiple of d lies in any d consecutive numbers. */
  lemma OneMultiple(a: int, b: int, low: int, d: nat)
    requires d > 0 && a % d == 0 && b % d == 0 && low <= a < low + d && low <= b < low + d
    ensures a == b
  {
    var p, q := a / d, b / d;
    assert a == d * p && b == d * q;
    if p < q {
      ProductMonotone(p + 1, q, d);
      Distributes(d, p, 1);
    } else if q < p {
      ProductMonotone(q + 1, p, d);
      Distributes(d, q, 1);
    }
  }

  /** The rows, the limit and the minimum that a rank brings along. */
  datatype Rank = Rank(seqLens: seq<nat>, limit: nat, minCount: Option<int>)

  function LocalCounts(world: seq<Rank>): seq<int>
    requires forall i | 0 <= i < |world| :: world[i].limit > 0
  {
    seq(|world|, i requires 0 <= i < |world| => LocalCount(world[i].seqLens, world[i].limit, world[i].minCount))
  }

  function Others<T>(s: seq<T>, i: nat): seq<T>
    requires i < |s|
  {
    s[..i] + s[i + 1..]
  }

  lemma LargestOfWorld(numbers: seq<int>, i: nat, m: int)
    requires i < |numbers| && IsLargestOf(m, [numbers[i]] + Others(numbers, i))
    ensures IsLargestOf(m, numbers)
  {
    var mine := [numbers[i]] + Others(numbers, i);
    forall j | 0 <= j < |numbers|
      ensures numbers[j] <= m
    {
      assert numbers[j] == mine[if j < i then j + 1 else if j == i then 0 else j];
    }
    var j :| 0 <= j < |mine| && mine[j] == m;
    assert m == numbers[if j == 0 then i else if j <= i then j - 1 else j];
  }

  /**
   In any world of ranks, each knowing the numbers of the others, every rank makes the same number of
   micro-batches: that of the largest need, or the next multiple of the divisor.
   */
  lemma RanksMakeTheSame(world: seq<Rank>, i: nat, j: nat, dividedBy: Option<nat>)
    requires i < |world| && j < |world| && forall r | 0 <= r < |world| :: world[r].limit > 0
    requires dividedBy.Some? ==> dividedBy.value > 0
    ensures var a, b, counts := world[i], world[j], LocalCounts(world);
            MicroBatchCount(a.seqLens, a.limit, a.minCount, Others(counts, i), dividedBy) ==
            MicroBatchCount(b.seqLens, b.limit, b.minCount, Others(counts, j), dividedBy)
  {
    var a, b, counts := world[i], world[j], LocalCounts(world);
    var m := CountIs(a.seqLens, a.limit, a.minCount, Others(counts, i), dividedBy);
    var n := CountIs(b.seqLens, b.limit, b.minCount, Others(counts, j), dividedBy);
    hide MicroBatchCount, LocalCount;
    LargestOfWorld(counts, i, m);
    LargestOfWorld(counts, j, n);
    assert m == n;
    if dividedBy.Some? {
      OneMultiple(MicroBatchCount(a.seqLens, a.limit, a.minCount, Others(counts, i), dividedBy),
                  MicroBatchCount(b.seqLens, b.limit, b.minCount, Others(counts, j), dividedBy), m, dividedBy.value);
    }
  }

  /** There are enough micro-batches for all tokens, if no row is longer than the limit. */
  lemma CountCoversTokens(seqLens: seq<nat>, limit: nat, minCount: Option<int>, peers: seq<int>, dividedBy: Option<nat>)
    requires limit > 0 && (dividedBy.Some? ==> dividedBy.value > 0) && RowsFit(seqLens, limit)
    ensures Sum(seqLens) <= MicroBatchCount(seqLens, limit, minCount, peers, dividedBy) * limit
  {
    var need, mine := LocalCount(seqLens, limit, None), LocalCount(seqLens, limit, minCount);
    LocalCountIs(seqLens, limit, if minCount.Some? then minCount.value else 0);
    SumAtMost(seqLens, limit);
    assert Enough(need, limit, Sum(seqLens));
    var largest := CountIs(seqLens, limit, minCount, peers, dividedBy);
    hide MicroBatchCount;
    assert ([mine] + peers)[0] == mine;
    ProductMonotone(need, MicroBatchCount(seqLens, limit, minCount, peers, dividedBy), limit);
  }
}
