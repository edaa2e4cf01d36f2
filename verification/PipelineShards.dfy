/**
 get_dynamic_pipeline_shards of verl/model_merger/megatron_model_merger.py: how many layers each pipeline
 stage gets.
 */
module PipelineShards {
  import opened Wrappers
  import opened Arithmetic
  import opened Partition

  datatype Error = TooFewLayers | NoStage | NoCandidate

  lemma {:induction false} SumOfEqual(m: int, count: nat)
    ensures Sum(seq(count, _ => m)) == m * count
  {
    if count > 0 {
      assert seq(count, _ => m)[1..] == seq(count - 1, _ => m);
      SumOfEqual(m, count - 1);
      Distributes(m, 1, count - 1);
    }
  }

  // ---------------------------------------------------------------- the search

  /** What is left for the first and the last stage when every middle stage has m layers. */
  function Rest(layers: int, pp: int, m: int): int {
    layers - m * (pp - 2)
  }

  function First(layers: int, pp: int, m: int): int {
    Rest(layers, pp, m) / 2
  }

  function Last(layers: int, pp: int, m: int): int {
    Rest(layers, pp, m) - Rest(layers, pp, m) / 2
  }

  predicate Candidate(layers: int, pp: int, m: int) {
    && 0 < First(layers, pp, m) <= m
    && 0 < Last(layers, pp, m) <= m
  }

  function Stages(layers: int, pp: int, m: int): seq<int>
    requires pp >= 2
  {
    [First(layers, pp, m)] + seq(pp - 2, _ => m) + [Last(layers, pp, m)]
  }

  /** How far the first stage is from the middle ones. */
  function Diff(layers: int, pp: int, m: int): int {
    if First(layers, pp, m) >= m then First(layers, pp, m) - m else m - First(layers, pp, m)
  }

  /** Larger middle stages are further from the first one, so the smallest candidate is chosen. */
  lemma DiffGrows(layers: int, pp: int, m: int, n: int)
    requires pp >= 3 && m < n && Candidate(layers, pp, m) && Candidate(layers, pp, n)
    ensures Diff(layers, pp, m) < Diff(layers, pp, n)
  {
    ProductMonotone(m, n, pp - 2);
  }

  /** The candidates below limit, as the loop collects them. */
  function Candidates(layers: int, pp: int, limit: nat): seq<int> {
    if limit == 0 then []
    else Candidates(layers, pp, limit - 1) + (if Candidate(layers, pp, limit - 1) then [limit - 1] else [])
  }

  /** c lists exactly the candidates below limit, in increasing order. */
  ghost predicate ListsCandidates(c: seq<int>, layers: int, pp: int, limit: nat) {
    && (forall m :: m in c <==> 0 <= m < limit && Candidate(layers, pp, m))
    && (forall i, j | 0 <= i < j < |c| :: c[i] < c[j])
  }

  lemma {:induction false} CandidatesAscend(layers: int, pp: int, limit: nat)
    ensures ListsCandidates(Candidates(layers, pp, limit), layers, pp, limit)
  {
    if limit > 0 {
      CandidatesAscend(layers, pp, limit - 1);
      var before := Candidates(layers, pp, limit - 1);
      forall i | 0 <= i < |before|
        ensures before[i] < limit - 1
      {
        assert before[i] in before;
      }
    }
  }

  /** A search candidate: the middle stage size, the stages, and the difference they are sorted by. */
  datatype Strategy = Strategy(middle: int, stages: seq<int>, diff: int)

  function Strategies(layers: int, pp: int, c: seq<int>): seq<Strategy>
    requires pp >= 2
  {
    seq(|c|, i requires 0 <= i < |c| => Strategy(c[i], Stages(layers, pp, c[i]), Diff(layers, pp, c[i])))
  }

  /** The search loop. */
  method Collect(layers: nat, pp: int) returns (found: seq<Strategy>)
    requires pp >= 3
    ensures found == Strategies(layers, pp, Candidates(layers, pp, layers))
  {
    var middle := pp - 2;
    found := [];
    for m := 0 to layers
      invariant found == Strategies(layers, pp, Candidates(layers, pp, m))
    {
      var both := layers - m * middle;
      var first := both / 2;
      var last := both - both / 2;
      if 0 < first <= m && 0 < last <= m {
        var diff := if first >= m then first - m else m - first;
        found := found + [Strategy(m, [first] + seq(middle, _ => m) + [last], diff)];
      }
    }
  }

  /** The first element of the list sorted by difference; sorting is stable. */
  method LeastDiff(found: seq<Strategy>) returns (best: Strategy)
    requires found != []
    ensures exists i | 0 <= i < |found| :: best == found[i]
              && (forall j | 0 <= j < |found| :: best.diff <= found[j].diff)
              && (forall j | 0 <= j < i :: best.diff < found[j].diff)
  {
    var b := 0;
    for j := 1 to |found|
      invariant 0 <= b < j <= |found|
      invariant forall l | 0 <= l < j :: found[b].diff <= found[l].diff
      invariant forall l | 0 <= l < b :: found[b].diff < found[l].diff
    {
      if found[j].diff < found[b].diff {
        b := j;
      }
    }
    best := found[b];
  }

  /** Some candidate exists only if the largest stage of an even split is one, and that is the least. */
  lemma LeastCandidate(layers: nat, pp: int, n: int)
    requires 3 <= pp <= layers && n >= 0 && Candidate(layers, pp, n)
    ensures CeilDiv(layers, pp) <= n && CeilDiv(layers, pp) * (pp - 2) <= layers - 2
  {
    CeilDivIs(layers, pp, n);
    ProductMonotone(CeilDiv(layers, pp), n, pp - 2);
  }

  lemma EvenSplitCandidate(layers: nat, pp: int)
    requires 3 <= pp <= layers && CeilDiv(layers, pp) * (pp - 2) <= layers - 2
    ensures 0 <= CeilDiv(layers, pp) < layers && Candidate(layers, pp, CeilDiv(layers, pp))
  {
    var m := CeilDiv(layers, pp);
    CeilDivIs(layers, pp, m);
    hide CeilDiv;
    RestOfEvenSplit(layers, pp, m);
  }

  /** The even split leaves between 2 and 2 * m layers for the two end stages. */
  lemma RestOfEvenSplit(layers: int, pp: int, m: int)
    requires 3 <= pp <= layers <= m * pp && m * (pp - 2) <= layers - 2
    ensures 2 <= Rest(layers, pp, m) <= 2 * m && 0 < m < layers
  {
    if m <= 0 {
      ProductMonotone(m, 0, pp);
    }
    Distributes(m, pp, -2);
    ProductMonotone(1, pp - 2, m);
  }

  /** There is a candidate exactly when the even split's largest stage is one, and then that comes first. */
  lemma CandidateExists(c: seq<int>, layers: nat, pp: int)
    requires 3 <= pp <= layers && ListsCandidates(c, layers, pp, layers)
    ensures c != [] <==> CeilDiv(layers, pp) * (pp - 2) <= layers - 2
    ensures c != [] ==> c[0] == CeilDiv(layers, pp)
  {
    if CeilDiv(layers, pp) * (pp - 2) <= layers - 2 {
      EvenSplitCandidate(layers, pp);
      assert CeilDiv(layers, pp) in c;
    }
    if c != [] {
      assert c[0] in c;
      LeastCandidate(layers, pp, c[0]);
      forall n | n in c
        ensures CeilDiv(layers, pp) <= n
      {
        LeastCandidate(layers, pp, n);
      }
      FirstIsLeast(c, CeilDiv(layers, pp));
    }
  }

  lemma FirstIsLeast(c: seq<int>, m: int)
    requires m in c && (forall x | x in c :: m <= x) && forall i, j | 0 <= i < j < |c| :: c[i] < c[j]
    ensures c[0] == m
  {
    var i :| 0 <= i < |c| && c[i] == m;
    assert c[0] in c;
  }

  // ---------------------------------------------------------------- the function

  lemma FirstHasLeastDiff(c: seq<int>, layers: nat, pp: int, m: int)
    requires 3 <= pp <= layers && ListsCandidates(c, layers, pp, layers) && m in c
    requires Diff(layers, pp, m) <= Diff(layers, pp, c[0])
    ensures m == c[0]
  {
    assert c[0] in c;
    if m != c[0] {
      DiffGrows(layers, pp, c[0], m);
    }
  }

  /** The part of the function for three or more stages. */
  method Search(layers: nat, pp: int) returns (r: Result<seq<int>, Error>)
    requires 3 <= pp <= layers
    ensures r.Success? <==> CeilDiv(layers, pp) * (pp - 2) <= layers - 2
    ensures r.Failure? ==> r.error == NoCandidate
    ensures r.Success? ==> r.value == Stages(layers, pp, CeilDiv(layers, pp))
  {
    var found := Collect(layers, pp);
    ghost var c := Candidates(layers, pp, layers);
    CandidatesAscend(layers, pp, layers);
    CandidateExists(c, layers, pp);
    if found == [] {
      return Failure(NoCandidate);
    }
    var best := LeastDiff(found);
    assert best.diff <= found[0].diff;
    FirstHasLeastDiff(c, layers, pp, best.middle);
    return Success(best.stages);
  }

  function Shards(layers: int, pp: int): seq<int>
    requires 1 <= pp
  {
    if pp == 1 then [layers]
    else if pp == 2 then [layers / 2, layers - layers / 2]
    else Stages(layers, pp, CeilDiv(layers, pp))
  }

  predicate HasShards(layers: int, pp: int) {
    1 <= pp <= layers && (pp >= 3 ==> CeilDiv(layers, pp) * (pp - 2) <= layers - 2)
  }

  /**
   get_dynamic_pipeline_shards.  With three or more stages it indexes an empty list unless the condition of
   HasShards holds, and otherwise gives every middle stage ceil(layers / pp) layers.
   */
  method GetDynamicPipelineShards(layers: int, pp: int) returns (r: Result<seq<int>, Error>)
    ensures layers < pp ==> r == Failure(TooFewLayers)
    ensures pp < 1 && pp <= layers ==> r == Failure(NoStage)
    ensures 1 <= pp <= layers && !HasShards(layers, pp) ==> r == Failure(NoCandidate)
    ensures r.Success? <==> HasShards(layers, pp)
    ensures r.Success? ==> r.value == Shards(layers, pp)
  {
    if layers < pp {
      return Failure(TooFewLayers);
    }
    if pp < 1 {
      return Failure(NoStage);
    }
    if pp == 1 {
      return Success([layers]);
    }
    if pp == 2 {
      return Success([layers / 2, layers - layers / 2]);
    }
    r := Search(layers, pp);
  }

  /** Two middle stages of two layers would leave one layer for the first and the last stage together. */
  lemma FiveLayersOnFourStages()
    ensures !HasShards(5, 4)
  {
  }

  // ---------------------------------------------------------------- what the shards are worth

  function Smallest(s: seq<int>): (m: int)
    requires s != []
    ensures m in s && forall i | 0 <= i < |s| :: m <= s[i]
  {
    if |s| == 1 then s[0] else
    var m := Smallest(s[1..]);
    if s[0] < m then s[0] else m
  }

  predicate IsSplit(s: seq<int>, layers: int, pp: int) {
    |s| == pp && Sum(s) == layers
  }

  lemma StagesTotal(layers: int, pp: int, m: int)
    requires pp >= 2
    ensures IsSplit(Stages(layers, pp, m), layers, pp)
  {
    SumConcat([First(layers, pp, m)] + seq(pp - 2, _ => m), [Last(layers, pp, m)]);
    SumConcat([First(layers, pp, m)], seq(pp - 2, _ => m));
    SumOfEqual(m, pp - 2);
    assert Sum([First(layers, pp, m)]) == First(layers, pp, m);
    assert Sum([Last(layers, pp, m)]) == Last(layers, pp, m);
  }

  lemma PairTotal(a: int, b: int)
    ensures Sum([a, b]) == a + b
  {
    assert [a, b][1..] == [b];
    assert Sum([b]) == b;
  }

  lemma ThreeOrMoreShards(layers: int, pp: int)
    requires HasShards(layers, pp) && pp >= 3
    ensures Candidate(layers, pp, CeilDiv(layers, pp))
    ensures IsSplit(Shards(layers, pp), layers, pp)
    ensures Max(Shards(layers, pp)) == CeilDiv(layers, pp)
    ensures Smallest(Shards(layers, pp)) == First(layers, pp, CeilDiv(layers, pp)) >= 1
  {
    var m := CeilDiv(layers, pp);
    CeilDivIs(layers, pp, m);
    StagesTotal(layers, pp, m);
  }

  /** The shards add up to the layers and no stage is empty. */
  lemma ShardsSplit(layers: int, pp: int)
    requires HasShards(layers, pp)
    ensures IsSplit(Shards(layers, pp), layers, pp)
    ensures forall i | 0 <= i < pp :: Shards(layers, pp)[i] >= 1
  {
    if pp >= 3 {
      ThreeOrMoreShards(layers, pp);
    } else if pp == 2 {
      PairTotal(layers / 2, layers - layers / 2);
    } else {
      assert Sum([layers]) == layers;
    }
  }

  /** No split has a smaller largest stage. */
  lemma ShardsLargestIsLeast(layers: int, pp: int, other: seq<int>)
    requires HasShards(layers, pp) && IsSplit(other, layers, pp)
    ensures Max(Shards(layers, pp)) <= Max(other)
  {
    SumAtMost(other, Max(other));
    CeilDivIs(layers, pp, Max(other));
    if pp >= 3 {
      ThreeOrMoreShards(layers, pp);
    } else if pp == 2 {
      PairTotal(other[0], other[1]);
      assert other == [other[0], other[1]];
    } else {
      assert other == [other[0]] && Sum(other) == other[0];
    }
  }

  /** The rounded-up average for every middle stage, the rest in halves, the smaller half first. */
  ghost predicate HalvesAround(s: seq<int>, layers: int, pp: int) {
    && IsSplit(s, layers, pp)
    && (forall i | 0 < i < |s| - 1 :: (s[i] - 1) * pp < layers <= s[i] * pp)
    && (|s| >= 2 ==> s[0] <= s[|s| - 1] <= s[0] + 1)
  }

  lemma RoundedUpOnce(layers: int, pp: int, m: int)
    requires pp >= 1 && (m - 1) * pp < layers <= m * pp
    ensures m == CeilDiv(layers, pp)
  {
    CeilDivIs(layers, pp, m);
    CeilDivIs(layers, pp, m - 1);
  }

  lemma MiddleIsRoundedUp(layers: int, pp: int)
    requires pp >= 1
    ensures (CeilDiv(layers, pp) - 1) * pp < layers <= CeilDiv(layers, pp) * pp
  {
    CeilDivIs(layers, pp, CeilDiv(layers, pp));
    CeilDivIs(layers, pp, CeilDiv(layers, pp) - 1);
  }

  lemma EndsFromSum(s: seq<int>, m: int)
    requires |s| >= 2 && forall i | 0 < i < |s| - 1 :: s[i] == m
    ensures Sum(s) == s[0] + m * (|s| - 2) + s[|s| - 1]
  {
    var middle := seq(|s| - 2, _ => m);
    assert s == [s[0]] + middle + [s[|s| - 1]];
    SumConcat([s[0]] + middle, [s[|s| - 1]]);
    SumConcat([s[0]], middle);
    SumOfEqual(m, |s| - 2);
    assert Sum([s[0]]) == s[0] && Sum([s[|s| - 1]]) == s[|s| - 1];
  }

  /** That is what the shards are, and nothing else is. */
  lemma ShardsExactly(layers: int, pp: int, s: seq<int>)
    requires HasShards(layers, pp)
    ensures HalvesAround(s, layers, pp) <==> s == Shards(layers, pp)
  {
    MiddleIsRoundedUp(layers, pp);
    ShardsSplit(layers, pp);
    var m := CeilDiv(layers, pp);
    hide CeilDiv;
    if HalvesAround(s, layers, pp) && pp >= 2 {
      forall i | 0 < i < pp - 1
        ensures s[i] == m
      {
        RoundedUpOnce(layers, pp, s[i]);
      }
      EndsFromSum(s, m);
    } else if pp == 1 && |s| == 1 {
      assert s == [s[0]] && Sum(s) == s[0];
    }
  }

  // ---------------------------------------------------------------- "as uniform as possible"

  function Unevenness(s: seq<int>): int
    requires s != []
  {
    Max(s) - Smallest(s)
  }

  /** The even split: some stages of m, the others one smaller. */
  function EvenSplit(layers: int, pp: int): seq<int>
    requires 1 <= pp
  {
    var m := CeilDiv(layers, pp);
    var short := m * pp - layers;
    if 0 <= short <= pp then seq(pp - short, _ => m) + seq(short, _ => m - 1) else []
  }

  lemma Shortfall(layers: int, pp: int)
    requires 1 <= pp
    ensures 0 <= CeilDiv(layers, pp) * pp - layers < pp
  {
  }

  lemma EvenSplitArithmetic(m: int, pp: int, short: int, layers: int)
    requires short == m * pp - layers
    ensures m * (pp - short) + (m - 1) * short == layers
  {
  }

  lemma EvenSplitIsSplit(layers: int, pp: int)
    requires 1 <= pp
    ensures IsSplit(EvenSplit(layers, pp), layers, pp)
    ensures Unevenness(EvenSplit(layers, pp)) <= 1
  {
    Shortfall(layers, pp);
    var m := CeilDiv(layers, pp);
    var short := m * pp - layers;
    SumConcat(seq(pp - short, _ => m), seq(short, _ => m - 1));
    SumOfEqual(m, pp - short);
    SumOfEqual(m - 1, short);
    EvenSplitArithmetic(m, pp, short, layers);
    var s := EvenSplit(layers, pp);
    assert forall i | 0 <= i < pp :: m - 1 <= s[i] <= m;
  }

  /** When pp does not divide the layers, every split is uneven. */
  lemma UnevenUnlessDivisible(layers: int, pp: int, s: seq<int>)
    requires 1 <= pp && IsSplit(s, layers, pp) && CeilDiv(layers, pp) * pp != layers
    ensures Unevenness(s) >= 1
  {
    if Max(s) == Smallest(s) {
      SumAtMost(s, Max(s));
      SumAtLeast(s, Max(s));
      assert layers == Max(s) * pp;
      CeilDivIs(layers, pp, Max(s));
      CeilDivIs(layers, pp, CeilDiv(layers, pp));
      ProductMonotone(CeilDiv(layers, pp), Max(s), pp);
    }
  }

  lemma ShardsUnevenness(layers: int, pp: int)
    requires HasShards(layers, pp) && pp >= 3
    ensures Unevenness(Shards(layers, pp)) == (CeilDiv(layers, pp) * pp - layers + 1) / 2
  {
    ThreeOrMoreShards(layers, pp);
    Distributes(CeilDiv(layers, pp), pp, -2);
  }

  ghost predicate AsUniformAsPossible(s: seq<int>, layers: int, pp: int)
    requires s != []
  {
    forall other | IsSplit(other, layers, pp) && other != [] :: Unevenness(s) <= Unevenness(other)
  }

  lemma FewStagesAreUniform(layers: int, pp: int, other: seq<int>)
    requires HasShards(layers, pp) && pp <= 2 && IsSplit(other, layers, pp)
    ensures Unevenness(Shards(layers, pp)) <= Unevenness(other)
  {
    if pp == 2 {
      PairTotal(other[0], other[1]);
      assert other == [other[0], other[1]];
      PairUnevenness(other[0], other[1]);
      PairUnevenness(layers / 2, layers - layers / 2);
    } else {
      assert |Shards(layers, pp)| == 1 && |other| == 1;
      OneStageIsUniform(other);
      OneStageIsUniform(Shards(layers, pp));
    }
  }

  lemma PairUnevenness(a: int, b: int)
    ensures Unevenness([a, b]) == if a <= b then b - a else a - b
  {
    assert [a, b][1..] == [b];
  }

  lemma OneStageIsUniform(s: seq<int>)
    requires |s| == 1
    ensures Unevenness(s) == 0
  {
  }

  lemma SmallShortfallIsUniform(layers: int, pp: int, other: seq<int>)
    requires HasShards(layers, pp) && pp >= 3 && IsSplit(other, layers, pp)
    requires CeilDiv(layers, pp) * pp - layers <= 2
    ensures Unevenness(Shards(layers, pp)) <= Unevenness(other)
  {
    ShardsUnevenness(layers, pp);
    if CeilDiv(layers, pp) * pp != layers {
      UnevenUnlessDivisible(layers, pp, other);
    }
  }

  /**
   The documentation promises shards "as uniform as possible".  That holds exactly when there are at most
   two stages or the layers fall short of the next multiple of pp by at most two.
   */
  lemma UniformExactlyWhen(layers: int, pp: int)
    requires HasShards(layers, pp)
    ensures AsUniformAsPossible(Shards(layers, pp), layers, pp) <==>
            pp <= 2 || CeilDiv(layers, pp) * pp - layers <= 2
  {
    forall other | IsSplit(other, layers, pp) && (pp <= 2 || CeilDiv(layers, pp) * pp - layers <= 2)
      ensures Unevenness(Shards(layers, pp)) <= Unevenness(other)
    {
      if pp <= 2 {
        FewStagesAreUniform(layers, pp, other);
      } else {
        SmallShortfallIsUniform(layers, pp, other);
      }
    }
    EvenSplitIsSplit(layers, pp);
    if pp >= 3 {
      ShardsUnevenness(layers, pp);
    }
  }

  /** For example 9 layers on 4 stages: the shards are 1, 3, 3, 2 although 3, 2, 2, 2 is possible. */
  lemma NineLayersOnFourStages()
    ensures HasShards(9, 4) && Shards(9, 4) == [1, 3, 3, 2]
    ensures IsSplit([3, 2, 2, 2], 9, 4) && Unevenness([3, 2, 2, 2]) < Unevenness([1, 3, 3, 2])
  {
  }
}
