/**
 get_transformer_layer_offset of verl/utils/megatron_utils.py against the places that number layers
 independently of it: the sizes of the model chunks, the dynamic pipeline shards, and the running count of
 the checkpoint mergers.
 */
module LayerOffsets {
  import opened Wrappers
  import opened Arithmetic
  import opened Partition
  import opened PipelineShards

  /** layers, pipeline stages, virtual stages per rank, and the optional sizes of the two end stages. */
  datatype Config = Config(layers: nat, pp: nat, vp: Option<nat>, first: Option<nat>, last: Option<nat>) {
    function Chunks(): nat {
      if vp.Some? then vp.value else 1
    }

    function FirstLayers(): nat {
      if first.Some? then first.value else 0
    }

    function LastLayers(): nat {
      if last.Some? then last.value else 0
    }

    predicate Uneven() {
      first.Some? || last.Some?
    }

    /** Number of stages that share the remaining layers. */
    function MiddleStages(): int {
      pp - (if first.Some? then 1 else 0) - (if last.Some? then 1 else 0)
    }

    function MiddleLayers(): int {
      layers - FirstLayers() - LastLayers()
    }
  }

  datatype OffsetError = MissingVirtualStage | DivisionByZero

  /** get_transformer_layer_offset without a custom layout and without the embedding and loss flags. */
  function Offset(c: Config, rank: nat, stage: Option<nat>): Result<int, OffsetError> {
    if c.pp <= 1 then Success(0)
    else if c.Uneven() then
      if c.vp.Some? then
        if stage.None? then Failure(MissingVirtualStage)
        else if c.vp.value == 0 then Failure(DivisionByZero)
        else
          var firstChunk, lastChunk := c.FirstLayers() / c.vp.value, c.LastLayers() / c.vp.value;
          var middleChunk := c.MiddleLayers() / c.vp.value;
          var perStage := firstChunk + middleChunk + lastChunk;
          if rank == 0 then Success(stage.value * perStage)
          else if c.MiddleStages() == 0 then Failure(DivisionByZero)
          else Success(stage.value * perStage + firstChunk + (rank - 1) * (middleChunk / c.MiddleStages()))
      else
        var perRank := if c.MiddleStages() > 0 then c.MiddleLayers() / c.MiddleStages() else 0;
        var middleRank := if c.first.None? then rank else rank - 1;
        if rank == 0 then Success(0) else Success(middleRank * perRank + c.FirstLayers())
    else
      var perRank := c.layers / c.pp;
      if c.vp.Some? then
        if stage.None? then Failure(MissingVirtualStage)
        else if c.vp.value == 0 then Failure(DivisionByZero)
        else Success(stage.value * (c.layers / c.vp.value) + rank * (perRank / c.vp.value))
      else
        Success(rank * perRank)
  }

  // ---------------------------------------------------------------- the chunks that are built

  /** Layers in each chunk of a rank: the configured end stages, an equal share for the rest. */
  function ChunkLayers(c: Config, rank: nat): int
    requires 1 <= c.pp && c.Chunks() > 0
  {
    if c.pp == 1 then c.layers / c.Chunks()
    else if !c.Uneven() then c.layers / c.pp / c.Chunks()
    else if rank == 0 && c.first.Some? then c.FirstLayers() / c.Chunks()
    else if rank == c.pp - 1 && c.last.Some? then c.LastLayers() / c.Chunks()
    else if c.MiddleStages() > 0 then c.MiddleLayers() / c.Chunks() / c.MiddleStages()
    else 0
  }

  /** The divisions come out even. */
  predicate Divides(c: Config) {
    && 1 <= c.pp && c.Chunks() > 0
    && if c.pp == 1 then c.layers % c.Chunks() == 0
       else if !c.Uneven() then c.layers % c.pp == 0 && (c.layers / c.pp) % c.Chunks() == 0
       else
         && c.FirstLayers() % c.Chunks() == 0 && c.LastLayers() % c.Chunks() == 0
         && c.MiddleLayers() >= 0 && c.MiddleLayers() % c.Chunks() == 0
         && (if c.MiddleStages() > 0 then (c.MiddleLayers() / c.Chunks()) % c.MiddleStages() == 0
             else c.MiddleLayers() == 0)
  }

  /**
   Without interleaving, or interleaved over several stages: evenly, or with the first-stage size set and a stage in
   the middle, or with nothing in front of the last stage.
   */
  predicate Supported(c: Config) {
    c.vp.None? ||
    if c.pp <= 1 then c.vp.value == 1 || c.layers == 0
    else !c.Uneven() || if c.first.Some? then c.MiddleStages() > 0 else c.MiddleLayers() == 0
  }

  function StageArg(c: Config, stage: nat): Option<nat> {
    if c.vp.Some? then Some(stage) else None
  }

  /** Chunks in the order in which layers are numbered: virtual stage by virtual stage, rank by rank. */
  function Sizes(c: Config): (s: seq<int>)
    requires 1 <= c.pp && c.Chunks() > 0
    ensures |s| == c.Chunks() * c.pp
  {
    seq(c.Chunks() * c.pp, i requires 0 <= i => ChunkLayers(c, i % c.pp))
  }

  /** The offset of a chunk is the number of layers in all chunks numbered before it. */
  ghost predicate TileAt(c: Config, stage: nat, rank: nat)
    requires 1 <= c.pp && c.Chunks() > 0
  {
    var at := stage * c.pp + rank;
    0 <= at < |Sizes(c)| && Offset(c, rank, StageArg(c, stage)) == Success(Sum(Sizes(c)[..at]))
  }

  /** That holds of every chunk, and all chunks together have all layers. */
  ghost predicate Tiles(c: Config)
    requires 1 <= c.pp && c.Chunks() > 0
  {
    && (forall stage: nat, rank: nat | stage < c.Chunks() && rank < c.pp :: TileAt(c, stage, rank))
    && Sum(Sizes(c)) == c.layers
  }

  // ---------------------------------------------------------------- prefix sums

  /** Layers of the first ranks within one virtual stage. */
  function RowPrefix(c: Config, rank: nat): int
    requires 1 <= c.pp && c.Chunks() > 0
  {
    if rank == 0 then 0 else RowPrefix(c, rank - 1) + ChunkLayers(c, rank - 1)
  }

  lemma ChunkIndex(c: Config, stage: nat, rank: nat)
    requires 1 <= c.pp && stage < c.Chunks() && rank < c.pp
    ensures 0 <= stage * c.pp + rank < c.Chunks() * c.pp
    ensures (stage * c.pp + rank) % c.pp == rank
  {
    QuotientUnique(stage * c.pp + rank, stage, rank, c.pp);
    ProductMonotone(stage + 1, c.Chunks(), c.pp);
    Distributes(c.pp, stage, 1);
    ProductMonotone(0, stage, c.pp);
  }

  lemma {:induction false} SizesPrefix(c: Config, stage: nat, rank: nat)
    requires 1 <= c.pp && stage < c.Chunks() && rank <= c.pp
    ensures 0 <= stage * c.pp + rank <= |Sizes(c)|
    ensures Sum(Sizes(c)[..stage * c.pp + rank]) == stage * RowPrefix(c, c.pp) + RowPrefix(c, rank)
    decreases stage, rank
  {
    var n := stage * c.pp + rank;
    if rank > 0 {
      ChunkIndex(c, stage, rank - 1);
      SizesPrefix(c, stage, rank - 1);
      assert Sizes(c)[..n] == Sizes(c)[..n - 1] + [Sizes(c)[n - 1]];
      SumConcat(Sizes(c)[..n - 1], [Sizes(c)[n - 1]]);
      assert Sum([Sizes(c)[n - 1]]) == Sizes(c)[n - 1];
    } else if stage > 0 {
      SizesPrefix(c, stage - 1, c.pp);
      Distributes(c.pp, stage, -1);
      Distributes(RowPrefix(c, c.pp), stage, -1);
    } else {
      ChunkIndex(c, 0, 0);
    }
  }

  lemma SizesTotal(c: Config)
    requires 1 <= c.pp && c.Chunks() > 0
    ensures Sum(Sizes(c)) == c.Chunks() * RowPrefix(c, c.pp)
  {
    SizesPrefix(c, c.Chunks() - 1, c.pp);
    Distributes(c.pp, c.Chunks(), -1);
    Distributes(RowPrefix(c, c.pp), c.Chunks(), -1);
    assert Sizes(c)[..|Sizes(c)|] == Sizes(c);
  }

  // ---------------------------------------------------------------- one virtual stage in closed form

  lemma {:induction false} EvenRow(c: Config, rank: nat)
    requires 1 < c.pp && c.Chunks() > 0 && !c.Uneven()
    ensures RowPrefix(c, rank) == rank * (c.layers / c.pp / c.Chunks())
  {
    if rank > 0 {
      EvenRow(c, rank - 1);
      Distributes(c.layers / c.pp / c.Chunks(), rank, -1);
    }
  }

  function Share(c: Config): int
    requires c.Chunks() > 0
  {
    if c.MiddleStages() > 0 then c.MiddleLayers() / c.Chunks() / c.MiddleStages() else 0
  }

  /** Before the last rank: the first stage if it is set, then equal shares. */
  lemma {:induction false} UnevenRow(c: Config, rank: nat)
    requires 1 < c.pp && c.Chunks() > 0 && c.Uneven() && rank < c.pp
    ensures RowPrefix(c, rank) ==
            if rank == 0 then 0
            else if c.first.Some? then c.FirstLayers() / c.Chunks() + (rank - 1) * Share(c)
            else rank * Share(c)
  {
    if rank > 0 {
      UnevenRow(c, rank - 1);
      Distributes(Share(c), rank, -1);
      Distributes(Share(c), rank - 1, -1);
    }
  }

  lemma LastChunk(c: Config)
    requires 1 < c.pp && c.Chunks() > 0 && c.Uneven()
    ensures ChunkLayers(c, c.pp - 1) == if c.last.Some? then c.LastLayers() / c.Chunks() else Share(c)
  {
  }

  lemma UnevenRowTotal(c: Config)
    requires 1 < c.pp && c.Chunks() > 0 && c.Uneven()
    ensures RowPrefix(c, c.pp) ==
            c.FirstLayers() / c.Chunks() + c.MiddleStages() * Share(c) + c.LastLayers() / c.Chunks()
  {
    var u, f, l := Share(c), c.FirstLayers() / c.Chunks(), c.LastLayers() / c.Chunks();
    UnevenRow(c, c.pp - 1);
    LastChunk(c);
    NoneOfZero(c.Chunks());
    hide Share, ChunkLayers;
    assert RowPrefix(c, c.pp) == RowPrefix(c, c.pp - 1) + ChunkLayers(c, c.pp - 1);
    assert c.pp - 1 - 1 == c.pp - 2;
    hide RowPrefix;
    RowArithmetic(c.pp, u, f, l, c.first.Some?, c.last.Some?);
  }

  lemma NoneOfZero(k: int)
    requires k > 0
    ensures 0 / k == 0
  {
  }

  lemma RowArithmetic(pp: int, u: int, f: int, l: int, first: bool, last: bool)
    requires (!first ==> f == 0) && (!last ==> l == 0)
    ensures (if first then f + (pp - 2) * u else (pp - 1) * u) + (if last then l else u)
            == f + (pp - (if first then 1 else 0) - (if last then 1 else 0)) * u + l
  {
    Distributes(u, pp - 2, 1);
    Distributes(u, pp - 1, 1);
  }

  // ---------------------------------------------------------------- the offsets tile

  lemma ExactQuotient(a: int, k: int)
    requires k > 0 && a % k == 0
    ensures k * (a / k) == a && (a / k) * k == a
  {
  }

  lemma EvenOffsets(c: Config, stage: nat, rank: nat)
    requires 1 < c.pp && Divides(c) && !c.Uneven() && stage < c.Chunks() && rank < c.pp
    ensures Offset(c, rank, StageArg(c, stage)) == Success(stage * RowPrefix(c, c.pp) + RowPrefix(c, rank))
    ensures c.Chunks() * RowPrefix(c, c.pp) == c.layers
  {
    EvenRow(c, rank);
    EvenRow(c, c.pp);
    var v := c.Chunks();
    var u := c.layers / c.pp / v;
    EvenArithmetic(c.layers, c.pp, v, u);
  }

  lemma EvenArithmetic(layers: int, pp: int, v: int, u: int)
    requires pp > 0 && v > 0 && layers == (v * u) * pp
    ensures layers == v * (pp * u) && layers / v == pp * u
  {
    assert (v * u) * pp == (pp * u) * v;
    QuotientOfMultiple(pp * u, v);
  }

  lemma UnevenTotal(c: Config)
    requires 1 < c.pp && Divides(c) && c.Uneven()
    ensures c.Chunks() * RowPrefix(c, c.pp) == c.layers
    ensures c.MiddleStages() * Share(c) == c.MiddleLayers() / c.Chunks()
  {
    UnevenRowTotal(c);
    var v := c.Chunks();
    ExactQuotient(c.FirstLayers(), v);
    ExactQuotient(c.LastLayers(), v);
    ExactQuotient(c.MiddleLayers(), v);
    if c.MiddleStages() > 0 {
      ExactQuotient(c.MiddleLayers() / v, c.MiddleStages());
    }
    Distributes(v, c.FirstLayers() / v + c.MiddleLayers() / v, c.LastLayers() / v);
    Distributes(v, c.FirstLayers() / v, c.MiddleLayers() / v);
  }

  /** Uneven stages, interleaved only with the first-stage size set. */
  lemma UnevenOffsets(c: Config, stage: nat, rank: nat)
    requires 1 < c.pp && Divides(c) && c.Uneven() && stage < c.Chunks() && rank < c.pp
    requires c.vp.Some? ==> c.first.Some? && c.MiddleStages() > 0
    ensures Offset(c, rank, StageArg(c, stage)) == Success(stage * RowPrefix(c, c.pp) + RowPrefix(c, rank))
  {
    UnevenRow(c, rank);
    UnevenRowTotal(c);
    UnevenTotal(c);
  }

  /** Interleaved with only the last-stage size set, and no layers for the stages in front of it. */
  lemma LastOnlyOffsets(c: Config, stage: nat, rank: nat)
    requires 1 < c.pp && c.vp.Some? && c.first.None? && c.last.Some? && Divides(c) && c.MiddleLayers() == 0
    requires stage < c.Chunks() && rank < c.pp
    ensures Offset(c, rank, StageArg(c, stage)) == Success(stage * RowPrefix(c, c.pp) + RowPrefix(c, rank))
  {
    UnevenRow(c, rank);
    UnevenRowTotal(c);
  }

  lemma OneStageOffsets(c: Config, stage: nat)
    requires c.pp == 1 && Divides(c) && Supported(c) && stage < c.Chunks()
    ensures Offset(c, 0, StageArg(c, stage)) == Success(stage * RowPrefix(c, c.pp) + RowPrefix(c, 0))
  {
    if c.layers == 0 {
      NoneOfZero(c.Chunks());
      assert RowPrefix(c, 1) == 0;
    }
  }

  lemma OffsetIsPrefix(c: Config, stage: nat, rank: nat)
    requires Divides(c) && Supported(c)
    requires stage < c.Chunks() && rank < c.pp
    ensures Offset(c, rank, StageArg(c, stage)) == Success(stage * RowPrefix(c, c.pp) + RowPrefix(c, rank))
  {
    if c.pp == 1 {
      OneStageOffsets(c, stage);
    } else if !c.Uneven() {
      EvenOffsets(c, stage, rank);
    } else if c.vp.Some? && c.first.None? {
      LastOnlyOffsets(c, stage, rank);
    } else {
      UnevenOffsets(c, stage, rank);
    }
  }

  lemma RowsMakeAllLayers(c: Config)
    requires Divides(c)
    ensures Sum(Sizes(c)) == c.layers
  {
    SizesTotal(c);
    if c.pp == 1 {
      ExactQuotient(c.layers, c.Chunks());
      assert RowPrefix(c, 1) == RowPrefix(c, 0) + ChunkLayers(c, 0);
    } else if c.Uneven() {
      UnevenTotal(c);
    } else {
      EvenOffsets(c, 0, 0);
    }
  }

  lemma OffsetOfChunk(c: Config, stage: nat, rank: nat, at: int)
    requires Divides(c) && Supported(c)
    requires stage < c.Chunks() && rank < c.pp && at == stage * c.pp + rank
    ensures 0 <= at < |Sizes(c)| && Offset(c, rank, StageArg(c, stage)) == Success(Sum(Sizes(c)[..at]))
  {
    ChunkIndex(c, stage, rank);
    SizesPrefix(c, stage, rank);
    OffsetIsPrefix(c, stage, rank);
  }

  lemma ChunkIsTile(c: Config, stage: nat, rank: nat)
    requires Divides(c) && Supported(c)
    requires stage < c.Chunks() && rank < c.pp
    ensures TileAt(c, stage, rank)
  {
    OffsetOfChunk(c, stage, rank, stage * c.pp + rank);
  }

  /** Offsets agree with the running layer count in every branch, when the divisions come out even. */
  lemma OffsetsTile(c: Config)
    requires Divides(c) && Supported(c)
    ensures Tiles(c)
  {
    RowsMakeAllLayers(c);
    forall stage: nat, rank: nat | stage < c.Chunks() && rank < c.pp
      ensures TileAt(c, stage, rank)
    {
      ChunkIsTile(c, stage, rank);
    }
    hide TileAt, Divides;
  }

  /** Non-negative sizes laid end to end: every layer is in exactly one chunk. */
  lemma {:induction false} EveryLayerOnce(sizes: seq<int>, layer: int) returns (at: nat)
    requires (forall i | 0 <= i < |sizes| :: sizes[i] >= 0) && 0 <= layer < Sum(sizes)
    ensures at < |sizes| && Sum(sizes[..at]) <= layer < Sum(sizes[..at]) + sizes[at]
    ensures forall i | 0 <= i < |sizes| && Sum(sizes[..i]) <= layer < Sum(sizes[..i]) + sizes[i] :: i == at
  {
    if layer < sizes[0] {
      at := 0;
      forall i | 0 < i < |sizes|
        ensures Sum(sizes[..i]) >= sizes[0]
      {
        assert sizes[..i][1..] == sizes[1..i];
        SumAtLeast(sizes[1..i], 0);
      }
    } else {
      var a := EveryLayerOnce(sizes[1..], layer - sizes[0]);
      at := a + 1;
      assert forall i | 0 < i <= |sizes| :: sizes[..i][1..] == sizes[1..][..i - 1];
    }
  }

  // ---------------------------------------------------------------- where they do not

  /** Interleaved on a single stage, every chunk gets offset 0. */
  lemma OneStageInterleaved(c: Config, stage: nat)
    requires c.pp == 1
    ensures Offset(c, 0, Some(stage)) == Success(0)
  {
  }

  /** Interleaved on two stages that both have their sizes set, the second divides by the number of middle stages. */
  lemma BothEndsInterleaved(c: Config, stage: nat)
    requires c.pp == 2 && c.first.Some? && c.last.Some? && c.vp.Some? && c.vp.value > 0
    ensures Offset(c, 1, Some(stage)) == Failure(DivisionByZero)
  {
  }

  /** Interleaved with only the last-stage size set, ranks 0 and 1 get the same offset. */
  lemma LastOnlyInterleaved(c: Config, stage: nat)
    requires 1 < c.pp && c.vp.Some? && c.vp.value > 0 && c.first.None? && c.last.Some?
    ensures Offset(c, 0, Some(stage)) == Offset(c, 1, Some(stage))
  {
    NoneOfZero(c.vp.value);
  }

  lemma OneStageFails(c: Config)
    requires c.pp == 1 && c.vp.Some? && Divides(c) && c.vp.value > 1 && c.layers > 0
    ensures !TileAt(c, 1, 0)
  {
    assert Sizes(c)[..1] == [Sizes(c)[0]];
    assert Sum([Sizes(c)[0]]) == Sizes(c)[0];
    ExactQuotient(c.layers, c.vp.value);
  }

  lemma BothEndsFail(c: Config)
    requires c.pp == 2 && c.first.Some? && c.last.Some? && c.vp.Some? && c.vp.value > 0
    ensures !TileAt(c, 0, 1)
  {
    BothEndsInterleaved(c, 0);
  }

  lemma LastOnlyFails(c: Config)
    requires 1 < c.pp && c.vp.Some? && c.first.None? && c.last.Some? && Divides(c) && c.MiddleLayers() != 0
    ensures !TileAt(c, 0, 1)
  {
    UnevenTotal(c);
    UnevenRow(c, 1);
    ChunkIndex(c, 0, 1);
    SizesPrefix(c, 0, 1);
    LastOnlyInterleaved(c, 0);
  }

  /** For all configurations whose divisions come out even: the offsets tile exactly in the supported ones. */
  lemma OffsetsTileExactlyWhen(c: Config)
    requires Divides(c)
    ensures Tiles(c) <==> Supported(c)
  {
    if Supported(c) {
      OffsetsTile(c);
    } else if c.pp == 1 {
      OneStageFails(c);
    } else if c.first.None? {
      LastOnlyFails(c);
    } else {
      BothEndsFail(c);
    }
  }

  // ---------------------------------------------------------------- dynamic shards

  /** The configuration that converter and merger derive from the dynamic shards. */
  function ShardConfig(layers: nat, pp: nat): Config
    requires HasShards(layers, pp)
  {
    ShardsSplit(layers, pp);
    var s := Shards(layers, pp);
    Config(layers, pp, None, if |s| > 1 then Some(s[0]) else None, if |s| > 2 then Some(s[|s| - 1]) else None)
  }

  lemma ManyShards(layers: nat, pp: nat)
    requires HasShards(layers, pp) && pp >= 3
    ensures var s, c, m := Shards(layers, pp), ShardConfig(layers, pp), CeilDiv(layers, pp);
            && |s| == pp && c == Config(layers, pp, None, Some(s[0]), Some(s[pp - 1]))
            && c.MiddleStages() == pp - 2 && c.MiddleLayers() == m * (pp - 2) && 0 <= m
            && forall rank | 0 < rank < pp - 1 :: s[rank] == m
  {
    ShardsSplit(layers, pp);
    CeilDivIs(layers, pp, -1);
  }

  lemma ShardConfigDivides(layers: nat, pp: nat)
    requires HasShards(layers, pp)
    ensures Divides(ShardConfig(layers, pp))
    ensures |Shards(layers, pp)| == pp
    ensures ShardConfig(layers, pp).first.Some? <==> pp != 1
    ensures ShardConfig(layers, pp).last.Some? <==> pp != 1 && pp != 2
    ensures forall rank | 0 <= rank < pp :: ChunkLayers(ShardConfig(layers, pp), rank) == Shards(layers, pp)[rank]
  {
    if pp >= 3 {
      ManyShards(layers, pp);
      MiddleOfMany(ShardConfig(layers, pp), CeilDiv(layers, pp));
    }
  }

  lemma MiddleOfMany(c: Config, m: nat)
    requires c.vp.None? && c.first.Some? && c.last.Some? && c.pp >= 3
    requires c.MiddleStages() == c.pp - 2 && c.MiddleLayers() == m * (c.pp - 2)
    ensures Divides(c)
    ensures forall rank | 0 < rank < c.pp - 1 :: ChunkLayers(c, rank) == m
    ensures ChunkLayers(c, 0) == c.first.value && ChunkLayers(c, c.pp - 1) == c.last.value
  {
    ProductMonotone(0, m, c.pp - 2);
    QuotientOfMultiple(m, c.pp - 2);
  }

  lemma SizesOfShards(layers: nat, pp: nat)
    requires HasShards(layers, pp)
    ensures Sizes(ShardConfig(layers, pp)) == Shards(layers, pp)
  {
    ShardConfigDivides(layers, pp);
    var c := ShardConfig(layers, pp);
    forall i | 0 <= i < pp
      ensures Sizes(c)[i] == Shards(layers, pp)[i]
    {
      QuotientUnique(i, 0, i, pp);
    }
  }

  /** With that configuration the offset of a rank is the cumulative sum of the shards before it. */
  lemma ShardOffsets(layers: nat, pp: nat, rank: nat)
    requires HasShards(layers, pp) && rank < pp == |Shards(layers, pp)|
    ensures Offset(ShardConfig(layers, pp), rank, None) == Success(Sum(Shards(layers, pp)[..rank]))
    ensures Sum(Shards(layers, pp)) == layers
  {
    hide Offset, Sum, Shards, Divides;
    var c := ShardConfig(layers, pp);
    ShardConfigDivides(layers, pp);
    SizesOfShards(layers, pp);
    RowsMakeAllLayers(c);
    OffsetOfChunk(c, 0, rank, rank);
  }

  // ---------------------------------------------------------------- file numbers

  function Scaled(s: seq<int>, k: int): seq<int> {
    seq(|s|, i requires 0 <= i < |s| => s[i] * k)
  }

  lemma {:induction false} SumScaled(s: seq<int>, k: int)
    ensures Sum(Scaled(s, k)) == Sum(s) * k
  {
    if s != [] {
      SumScaled(s[1..], k);
      assert Scaled(s, k)[1..] == Scaled(s[1..], k);
      Distributes(k, s[0], Sum(s[1..]));
    }
  }

  /** The number of the i-th file that a rank saves. */
  function FileNumber(shards: seq<int>, perLayer: int, rank: nat, i: nat): int
    requires rank <= |shards|
  {
    Sum(shards[..rank]) * perLayer + i + 1
  }

  /** Every file number from 1 to the total is used by exactly one rank, for exactly one of its chunks. */
  lemma FileNumbersTile(shards: seq<int>, perLayer: int, number: int) returns (rank: nat, i: nat)
    requires (forall j | 0 <= j < |shards| :: shards[j] >= 0) && perLayer > 0
    requires 1 <= number <= Sum(shards) * perLayer
    ensures rank < |shards| && i < shards[rank] * perLayer && FileNumber(shards, perLayer, rank, i) == number
    ensures forall r: nat, j: nat | r < |shards| && j < shards[r] * perLayer &&
              FileNumber(shards, perLayer, r, j) == number :: r == rank && j == i
  {
    SumScaled(shards, perLayer);
    forall r | 0 <= r <= |shards|
      ensures Sum(Scaled(shards, perLayer)[..r]) == Sum(shards[..r]) * perLayer
    {
      SumScaled(shards[..r], perLayer);
      assert Scaled(shards, perLayer)[..r] == Scaled(shards[..r], perLayer);
    }
    forall r | 0 <= r < |shards|
      ensures Scaled(shards, perLayer)[r] >= 0
    {
      ProductMonotone(0, shards[r], perLayer);
    }
    rank := EveryLayerOnce(Scaled(shards, perLayer), number - 1);
    i := number - 1 - Sum(shards[..rank]) * perLayer;
  }
}
