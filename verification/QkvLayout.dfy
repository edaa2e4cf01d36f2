/**
 Checkpoint layout of attention and gated MLP weights: rows of q, k and v interleaved by query group and of
 gate and up joined per shard, cut over tensor-parallel ranks, and taken apart again by four readers.
 */
module QkvLayout {
  import opened Wrappers
  import opened Arithmetic
  import opened Tensors

  datatype Qkv<T> = Qkv(q: seq<T>, k: seq<T>, v: seq<T>)

  datatype LayoutError =
    NoShards | DivisionByZero | HeadsNotGrouped | RowsNotGrouped | NoGroups | SplitMismatch | NotTwoHalves

  // ---------------------------------------------------------------- writing

  /** view(groups, rows / groups, -1). */
  function View<T>(t: seq<T>, groups: nat): seq<seq<T>>
    requires groups > 0 && |t| >= groups
  {
    Pieces(t, |t| / groups)
  }

  /** One block per query group: its queries, its key and its value. */
  function Blocks<T>(qs: seq<seq<T>>, ks: seq<seq<T>>, vs: seq<seq<T>>): (b: seq<seq<T>>)
    requires |qs| == |ks| == |vs|
  {
    seq(|qs|, i requires 0 <= i < |qs| => qs[i] + ks[i] + vs[i])
  }

  /** heads query heads and groups key-value heads of headDim rows each. */
  predicate HasHeads<T>(w: Qkv<T>, heads: nat, groups: nat, headDim: nat) {
    && groups > 0 && headDim > 0 && heads > 0 && heads % groups == 0
    && |w.q| == heads * headDim && |w.k| == |w.v| == groups * headDim
  }

  /** The grouping of the three weights: groups of per * headDim, headDim and headDim rows. */
  ghost predicate Grouped<T>(w: Qkv<T>, groups: nat, per: nat, headDim: nat) {
    && groups > 0 && headDim > 0 && per > 0 && per * headDim > 0
    && |w.q| == groups * (per * headDim) && |w.k| == |w.v| == groups * headDim
  }

  lemma Grouping<T>(w: Qkv<T>, heads: nat, groups: nat, headDim: nat)
    requires HasHeads(w, heads, groups, headDim)
    ensures Grouped(w, groups, heads / groups, headDim)
    ensures heads == (heads / groups) * groups
  {
    var per := heads / groups;
    assert heads == per * groups;
    PositiveMultiple(heads, groups);
    ProductMonotone(1, per, headDim);
  }

  lemma Reassociate(a: int, b: int, c: int)
    ensures a * b * c == a * (b * c) == b * (a * c)
    ensures b * a == a * b
  {
  }

  lemma ViewIs<T>(t: seq<T>, groups: nat, size: nat)
    requires groups > 0 && size > 0 && |t| == groups * size
    ensures |t| >= groups
    ensures View(t, groups) == Pieces(t, size) && |View(t, groups)| == groups && Uniform(View(t, groups), size)
  {
    ProductMonotone(1, size, groups);
    QuotientOfMultiple(size, groups);
    PiecesUniform(t, groups, size);
  }

  /** The fused weight that the converter writes: the blocks of all query groups. */
  function Fused<T>(w: Qkv<T>, heads: nat, groups: nat, headDim: nat): seq<T>
    requires HasHeads(w, heads, groups, headDim)
  {
    Grouping(w, heads, groups, headDim);
    ViewIs(w.q, groups, heads / groups * headDim);
    ViewIs(w.k, groups, headDim);
    ViewIs(w.v, groups, headDim);
    Concat(Blocks(View(w.q, groups), View(w.k, groups), View(w.v, groups)))
  }

  // ---------------------------------------------------------------- reading

  /** The chunks of all shards in order, m of each. */
  function Parts<T>(shards: seq<seq<T>>, m: nat): seq<seq<T>>
    requires m > 0
  {
    if shards == [] then [] else Chunk(shards[0], m) + Parts(shards[1..], m)
  }

  /** The rows from..to of every part. */
  function Rows<T>(parts: seq<seq<T>>, from: nat, to: nat): seq<seq<T>> {
    seq(|parts|, i requires 0 <= i < |parts| => Slice(parts[i], from, to))
  }

  function RowsFrom<T>(parts: seq<seq<T>>, from: nat): seq<seq<T>> {
    seq(|parts|, i requires 0 <= i < |parts| => Slice(parts[i], from, |parts[i]|))
  }

  /** The rows per group that a reader derives from the first shard. */
  datatype Sizes = Sizes(m: nat, q: nat, kv: nat) {
    function Block(): nat {
      q + kv + kv
    }
  }

  lemma NonNegativeQuotient(a: int, b: int)
    requires a >= 0 && b > 0
    ensures a / b >= 0
  {
  }

  function MergeSizes(rows: nat, heads: nat, groups: nat, tp: nat): Result<Sizes, LayoutError> {
    if groups == 0 then Failure(DivisionByZero)
    else if heads % groups != 0 then Failure(HeadsNotGrouped)
    else
    NonNegativeQuotient(heads, groups);
    if rows % (heads / groups + 2) != 0 then Failure(RowsNotGrouped)
    else if tp == 0 then Failure(DivisionByZero)
    else if groups / tp == 0 then Failure(NoGroups)
    else
      var kv := rows / (heads / groups + 2);
      NonNegativeQuotient(rows, heads / groups + 2);
      ProductMonotone(0, kv, heads / groups);
      NonNegativeQuotient(kv * (heads / groups), groups / tp);
      NonNegativeQuotient(kv, groups / tp);
      Success(Sizes(groups / tp, kv * (heads / groups) / (groups / tp), kv / (groups / tp)))
  }

  /** What the mergers make of a list of shards. */
  function Merged<T>(shards: seq<seq<T>>, heads: nat, groups: nat, tp: nat): Result<Qkv<T>, LayoutError> {
    if shards == [] then Failure(NoShards)
    else
      var sizes := MergeSizes(|shards[0]|, heads, groups, tp);
      if sizes.Failure? then Failure(sizes.error)
      else TakenApart(Parts(shards, sizes.value.m), sizes.value)
  }

  /** Every assertion and division that can fail before the shards are taken apart, and exactly when it does. */
  lemma MergeErrors<T>(shards: seq<seq<T>>, heads: nat, groups: nat, tp: nat)
    ensures var r := Merged(shards, heads, groups, tp);
            && (r == Failure(NoShards) <==> shards == [])
            && (r == Failure(HeadsNotGrouped) <==> shards != [] && groups > 0 && heads % groups != 0)
            && (r == Failure(RowsNotGrouped) <==>
                  shards != [] && groups > 0 && heads % groups == 0 && |shards[0]| % (heads / groups + 2) != 0)
    ensures var r := Merged(shards, heads, groups, tp);
            shards != [] && groups > 0 && heads % groups == 0 && |shards[0]| % (heads / groups + 2) == 0 ==>
              && (r == Failure(NoGroups) <==> 0 < tp && groups < tp)
              && (r == Failure(DivisionByZero) <==> tp == 0)
    ensures groups == 0 && shards != [] ==> Merged(shards, heads, groups, tp) == Failure(DivisionByZero)
  {
    hide TakenApart;
    if 0 < tp && groups < tp {
      QuotientUnique(groups, 0, groups, tp);
    } else if 0 < tp {
      AtLeastOne(groups, tp);
    }
    if shards != [] {
      TakenApartFails(shards, heads, groups, tp);
    }
  }

  lemma AtLeastOne(a: nat, b: nat)
    requires 0 < b <= a
    ensures a / b >= 1
  {
    if a / b < 1 {
      ProductMonotone(a / b, 0, b);
    }
  }

  lemma TakenApartFails<T>(shards: seq<seq<T>>, heads: nat, groups: nat, tp: nat)
    requires shards != []
    ensures var sizes := MergeSizes(|shards[0]|, heads, groups, tp);
            sizes.Success? ==>
              var r := TakenApart(Parts(shards, sizes.value.m), sizes.value);
              r.Failure? ==> r.error == SplitMismatch
  {
  }

  function TakenApart<T>(parts: seq<seq<T>>, s: Sizes): Result<Qkv<T>, LayoutError> {
    if Uniform(parts, s.Block()) then
      Success(Qkv(Concat(Rows(parts, 0, s.q)), Concat(Rows(parts, s.q, s.q + s.kv)),
                  Concat(Rows(parts, s.q + s.kv, s.Block()))))
    else Failure(SplitMismatch)
  }

  /** The lists that the loops of the mergers append to. */
  datatype Lists<T> = Lists(q: seq<seq<T>>, k: seq<seq<T>>, v: seq<seq<T>>)

  ghost predicate Collected<T>(l: Lists<T>, parts: seq<seq<T>>, s: Sizes) {
    && l.q == Rows(parts, 0, s.q) && l.k == Rows(parts, s.q, s.q + s.kv)
    && l.v == Rows(parts, s.q + s.kv, s.Block())
    && Uniform(parts, s.Block())
  }

  /** The inner loop: split every chunk of one shard. */
  method SplitShard<T>(shard: seq<T>, s: Sizes, before: Lists<T>, ghost parts: seq<seq<T>>)
    returns (r: Result<Lists<T>, LayoutError>)
    requires s.m > 0 && Collected(before, parts, s)
    ensures r.Success? <==> Uniform(Chunk(shard, s.m), s.Block())
    ensures r.Success? ==> Collected(r.value, parts + Chunk(shard, s.m), s)
    ensures r.Failure? ==> r.error == SplitMismatch
  {
    var lists, chunks := before, Chunk(shard, s.m);
    for i := 0 to |chunks|
      invariant Collected(lists, parts + chunks[..i], s) && Uniform(chunks[..i], s.Block())
    {
      var chunk := chunks[i];
      if |chunk| != s.Block() {
        return Failure(SplitMismatch);
      }
      assert parts + chunks[..i + 1] == (parts + chunks[..i]) + [chunk];
      assert chunks[..i + 1] == chunks[..i] + [chunk];
      CollectOne(lists, parts + chunks[..i], s, chunk);
      lists := Lists(lists.q + [chunk[..s.q]], lists.k + [chunk[s.q..s.q + s.kv]], lists.v + [chunk[s.q + s.kv..]]);
    }
    assert chunks[..|chunks|] == chunks;
    return Success(lists);
  }

  lemma CollectOne<T>(l: Lists<T>, parts: seq<seq<T>>, s: Sizes, chunk: seq<T>)
    requires Collected(l, parts, s) && |chunk| == s.Block()
    ensures Collected(Lists(l.q + [chunk[..s.q]], l.k + [chunk[s.q..s.q + s.kv]], l.v + [chunk[s.q + s.kv..]]),
                      parts + [chunk], s)
  {
    assert chunk[s.q + s.kv..] == chunk[s.q + s.kv..s.Block()];
  }

  lemma {:induction false} PartsAppend<T>(a: seq<seq<T>>, shard: seq<T>, m: nat)
    requires m > 0
    ensures Parts(a + [shard], m) == Parts(a, m) + Chunk(shard, m)
  {
    hide Chunk;
    if a == [] {
      assert [] + [shard] == [shard] && [shard][1..] == [] && Parts<T>([], m) == [];
      assert Chunk(shard, m) + [] == Chunk(shard, m) == [] + Chunk(shard, m);
    } else {
      PartsAppend(a[1..], shard, m);
      assert (a + [shard])[1..] == a[1..] + [shard];
      JoinAssociates(Chunk(a[0], m), Parts(a[1..], m), Chunk(shard, m));
    }
  }

  lemma {:induction false} PartsUniform<T>(shards: seq<seq<T>>, i: nat, m: nat, size: nat)
    requires m > 0 && i < |shards| && Uniform(Parts(shards, m), size)
    ensures Uniform(Chunk(shards[i], m), size)
  {
    var first, rest := Chunk(shards[0], m), Parts(shards[1..], m);
    UniformAppend(first, rest, size);
    if i > 0 {
      PartsUniform(shards[1..], i - 1, m, size);
    }
  }

  /** _merge_across_tp for a fused attention weight, and the loops of default_tp_concat_fn. */
  method MergeAcrossTp<T>(shards: seq<seq<T>>, heads: nat, groups: nat, tp: nat)
    returns (r: Result<Qkv<T>, LayoutError>)
    ensures r == Merged(shards, heads, groups, tp)
  {
    if shards == [] {
      return Failure(NoShards);
    }
    var sizes := MergeSizes(|shards[0]|, heads, groups, tp);
    if sizes.Failure? {
      return Failure(sizes.error);
    }
    var s := sizes.value;
    var lists := Lists([], [], []);
    for i := 0 to |shards|
      invariant Collected(lists, Parts(shards[..i], s.m), s)
    {
      var next := SplitShard(shards[i], s, lists, Parts(shards[..i], s.m));
      assert shards[..i + 1] == shards[..i] + [shards[i]];
      PartsAppend(shards[..i], shards[i], s.m);
      if next.Failure? {
        if Uniform(Parts(shards, s.m), s.Block()) {
          PartsUniform(shards, i, s.m, s.Block());
        }
        return Failure(next.error);
      }
      lists := next.value;
    }
    assert shards[..|shards|] == shards;
    return Success(Qkv(Concat(lists.q), Concat(lists.k), Concat(lists.v)));
  }

  /** _split_tensors: the same loop over the groups of the only shard. */
  method SplitTensors<T>(tensor: seq<T>, heads: nat, groups: nat) returns (r: Result<Qkv<T>, LayoutError>)
    ensures r == Merged([tensor], heads, groups, 1)
  {
    var sizes := MergeSizes(|tensor|, heads, groups, 1);
    if sizes.Failure? {
      return Failure(sizes.error);
    }
    var s := sizes.value;
    PartsAppend([], tensor, s.m);
    assert [] + [tensor] == [tensor];
    assert [] + Chunk(tensor, s.m) == Chunk(tensor, s.m);
    var lists := SplitShard(tensor, s, Lists([], [], []), []);
    if lists.Failure? {
      return Failure(lists.error);
    }
    return Success(Qkv(Concat(lists.value.q), Concat(lists.value.k), Concat(lists.value.v)));
  }

  /** Rows of one rank: headDim * heads // tp. */
  function RankRows(headDim: nat, heads: nat, tp: nat): nat
    requires tp > 0
  {
    ProductMonotone(0, headDim, heads);
    headDim * heads / tp
  }

  function PerGroup(rows: nat, m: nat): nat
    requires m > 0
  {
    rows / m
  }

  function SlicedRows<T>(parts: seq<seq<T>>, q: nat, kv: nat): Qkv<T> {
    Qkv(Concat(Rows(parts, 0, q)), Concat(Rows(parts, q, q + kv)), Concat(RowsFrom(parts, q + kv)))
  }

  /** What convert_qkv_shard makes of the concatenated shards, from the rows of one rank. */
  function SlicedApart<T>(full: seq<T>, qRows: nat, kvRows: nat, tp: nat, m: nat): Qkv<T>
    requires m > 0
  {
    SlicedRows(Parts(ShardSlices(full, tp, qRows + 2 * kvRows), m), PerGroup(qRows, m), PerGroup(kvRows, m))
  }

  function Converted<T>(full: seq<T>, headDim: nat, heads: nat, kvHeads: nat, tp: nat, groups: nat)
    : Result<Qkv<T>, LayoutError>
    requires tp > 0
  {
    if groups / tp == 0 then Failure(DivisionByZero)
    else Success(SlicedApart(full, RankRows(headDim, heads, tp), RankRows(headDim, kvHeads, tp), tp, groups / tp))
  }

  function ShardSlice<T>(full: seq<T>, i: nat, total: nat): seq<T> {
    ProductMonotone(0, i, total);
    ProductMonotone(0, i + 1, total);
    Slice(full, i * total, (i + 1) * total)
  }

  /** The slices of the first n shards. */
  function ShardSlices<T>(full: seq<T>, n: nat, total: nat): (r: seq<seq<T>>)
    ensures |r| == n
  {
    if n == 0 then [] else ShardSlices(full, n - 1, total) + [ShardSlice(full, n - 1, total)]
  }

  ghost predicate Sliced<T>(l: Lists<T>, parts: seq<seq<T>>, q: nat, kv: nat) {
    l.q == Rows(parts, 0, q) && l.k == Rows(parts, q, q + kv) && l.v == RowsFrom(parts, q + kv)
  }

  /** The loop over the ranks. */
  method SliceAllShards<T>(full: seq<T>, qSizeTp: nat, kvSizeTp: nat, tp: nat, m: nat) returns (r: Qkv<T>)
    requires m > 0
    ensures r == SlicedApart(full, qSizeTp, kvSizeTp, tp, m)
  {
    var totalSize, qSize, kvSize := qSizeTp + 2 * kvSizeTp, PerGroup(qSizeTp, m), PerGroup(kvSizeTp, m);
    var lists := Lists([], [], []);
    for i := 0 to tp
      invariant Sliced(lists, Parts(ShardSlices(full, i, totalSize), m), qSize, kvSize)
    {
      var part := ShardSlice(full, i, totalSize);
      PartsAppend(ShardSlices(full, i, totalSize), part, m);
      lists := SliceShard(part, m, qSize, kvSize, lists, Parts(ShardSlices(full, i, totalSize), m));
    }
    return Qkv(Concat(lists.q), Concat(lists.k), Concat(lists.v));
  }

  method ConvertQkvShard<T>(full: seq<T>, headDim: nat, heads: nat, kvHeads: nat, tp: nat, groups: nat)
    returns (r: Result<Qkv<T>, LayoutError>)
    requires kvHeads >= tp > 0
    ensures r == Converted(full, headDim, heads, kvHeads, tp, groups)
  {
    var qSizeTp, kvSizeTp := RankRows(headDim, heads, tp), RankRows(headDim, kvHeads, tp);
    var m := groups / tp;
    if m == 0 {
      return Failure(DivisionByZero);
    }
    var w := SliceAllShards(full, qSizeTp, kvSizeTp, tp, m);
    return Success(w);
  }

  method SliceShard<T>(part: seq<T>, m: nat, qSize: nat, kvSize: nat, before: Lists<T>, ghost parts: seq<seq<T>>)
    returns (lists: Lists<T>)
    requires m > 0 && Sliced(before, parts, qSize, kvSize)
    ensures Sliced(lists, parts + Chunk(part, m), qSize, kvSize)
  {
    lists := before;
    var chunks := Chunk(part, m);
    for i := 0 to |chunks|
      invariant Sliced(lists, parts + chunks[..i], qSize, kvSize)
    {
      var chunk := chunks[i];
      assert parts + chunks[..i + 1] == (parts + chunks[..i]) + [chunk];
      lists := Lists(lists.q + [Slice(chunk, 0, qSize)], lists.k + [Slice(chunk, qSize, qSize + kvSize)],
                     lists.v + [Slice(chunk, qSize + kvSize, |chunk|)]);
    }
    assert chunks[..|chunks|] == chunks;
  }

  // ---------------------------------------------------------------- round trip

  /** The contiguous row shards of a weight. */
  function Shards<T>(full: seq<T>, tp: nat): seq<seq<T>>
    requires tp > 0 && |full| >= tp
  {
    Pieces(full, |full| / tp)
  }

  lemma RowsOfBlocks<T>(qs: seq<seq<T>>, ks: seq<seq<T>>, vs: seq<seq<T>>, s: Sizes)
    requires |qs| == |ks| == |vs| && Uniform(qs, s.q) && Uniform(ks, s.kv) && Uniform(vs, s.kv)
    ensures var b := Blocks(qs, ks, vs);
            && Uniform(b, s.Block()) && Rows(b, 0, s.q) == qs && Rows(b, s.q, s.q + s.kv) == ks
            && Rows(b, s.q + s.kv, s.Block()) == vs && RowsFrom(b, s.q + s.kv) == vs
  {
    var b := Blocks(qs, ks, vs);
    forall i | 0 <= i < |b|
      ensures |b[i]| == s.Block() && Slice(b[i], 0, s.q) == qs[i] && Slice(b[i], s.q, s.q + s.kv) == ks[i]
      ensures Slice(b[i], s.q + s.kv, s.Block()) == vs[i]
    {
      var t := qs[i] + ks[i] + vs[i];
      assert t[..s.q] == qs[i] && t[s.q..s.q + s.kv] == ks[i] && t[s.q + s.kv..] == vs[i];
      assert t[s.q + s.kv..s.Block()] == vs[i];
    }
  }

  /** Chunking every shard of equal blocks yields the blocks. */
  lemma {:induction false} PartsOfShards<T>(shards: seq<seq<seq<T>>>, m: nat, size: nat)
    requires m > 0 && size > 0
    requires forall i | 0 <= i < |shards| :: |shards[i]| == m && Uniform(shards[i], size)
    ensures Parts(ConcatEach(shards), m) == Concat(shards)
  {
    if shards != [] {
      var shard := Concat(shards[0]);
      UniformLength(shards[0], size);
      ChunkOfMultiple(shard, m, size);
      PiecesOfConcat(shards[0], size);
      assert ConcatEach(shards)[1..] == ConcatEach(shards[1..]);
      PartsOfShards(shards[1..], m, size);
    }
  }

  /**
   The shape of a weight of tp * m groups: every shard is a run of m blocks, and its chunks are the blocks.
   */
  lemma ShardParts<T>(blocks: seq<seq<T>>, tp: nat, m: nat, size: nat)
    requires tp > 0 && m > 0 && size > 0 && |blocks| == tp * m && Uniform(blocks, size)
    ensures var full := Concat(blocks);
            && |full| == tp * (m * size) && |full| >= tp && m * size > 0
            && |full| / tp == m * size
            && Shards(full, tp) == Pieces(full, m * size) && |Shards(full, tp)| == tp
            && |Shards(full, tp)[0]| == m * size
            && Parts(Shards(full, tp), m) == blocks
  {
    UniformLength(blocks, size);
    Reassociate(tp, m, size);
    Regroup(blocks, tp, m, size);
    ProductMonotone(1, m * size, tp);
    QuotientOfMultiple(m * size, tp);
    PiecesUniform(Concat(blocks), tp, m * size);
    var runs := Pieces(blocks, m);
    forall i | 0 <= i < tp
      ensures |runs[i]| == m && Uniform(runs[i], size)
    {
      PieceIsSlice(blocks, tp, m, i);
    }
    PartsOfShards(runs, m, size);
  }

  lemma {:induction false} ShardSlicesArePieces<T>(full: seq<T>, tp: nat, size: nat, n: nat)
    requires size > 0 && |full| == tp * size && n <= tp
    ensures |Pieces(full, size)| == tp && ShardSlices(full, n, size) == Pieces(full, size)[..n]
  {
    PiecesUniform(full, tp, size);
    if n > 0 {
      ShardSlicesArePieces(full, tp, size, n - 1);
      PieceIsSlice(full, tp, size, n - 1);
    }
  }

  // The sizes that the readers derive come out as the sizes the converter wrote.

  lemma BlockOfGroups(m: nat, per: nat, headDim: nat)
    ensures m * (per * headDim + headDim + headDim) == (m * headDim) * (per + 2)
    ensures m * (per * headDim + headDim + headDim) == per * headDim * m + 2 * (headDim * m)
    ensures m * headDim * per == per * headDim * m
  {
    Distributes(m, per * headDim, 2 * headDim);
    Distributes(m * headDim, per, 2);
  }

  lemma MergeSizesAre(m: nat, tp: nat, per: nat, headDim: nat)
    requires m > 0 && tp > 0
    ensures MergeSizes(m * Sizes(m, per * headDim, headDim).Block(), per * (tp * m), tp * m, tp) ==
            Success(Sizes(m, per * headDim, headDim))
  {
    ProductMonotone(1, m, tp);
    BlockOfGroups(m, per, headDim);
    QuotientOfMultiple(per, tp * m);
    QuotientOfMultiple(m * headDim, per + 2);
    QuotientOfMultiple(m, tp);
    QuotientOfMultiple(per * headDim, m);
    QuotientOfMultiple(headDim, m);
  }

  lemma RankRowsIs(headDim: nat, perRank: nat, tp: nat)
    requires tp > 0
    ensures RankRows(headDim, perRank * tp, tp) == headDim * perRank
  {
    Reassociate(headDim, perRank, tp);
    ProductMonotone(0, headDim, perRank * tp);
    QuotientOfMultiple(headDim * perRank, tp);
  }

  lemma QueryRows(m: nat, tp: nat, per: nat, headDim: nat)
    requires m > 0 && tp > 0
    ensures RankRows(headDim, per * (tp * m), tp) == per * headDim * m
  {
    assert per * (tp * m) == (per * m) * tp by {
    }
    RankRowsIs(headDim, per * m, tp);
  }

  lemma PerGroupIs(rows: nat, m: nat)
    requires m > 0
    ensures PerGroup(rows * m, m) == rows
  {
    QuotientOfMultiple(rows, m);
  }

  lemma MergersSeeBlocks<T>(blocks: seq<seq<T>>, tp: nat, m: nat, s: Sizes, heads: nat, groups: nat)
    requires tp > 0 && m > 0 && s.m == m && s.Block() > 0 && |blocks| == tp * m && Uniform(blocks, s.Block())
    requires 0 <= m * s.Block() && MergeSizes(m * s.Block(), heads, groups, tp) == Success(s)
    ensures |Concat(blocks)| >= tp && Merged(Shards(Concat(blocks), tp), heads, groups, tp) == TakenApart(blocks, s)
  {
    ShardParts(blocks, tp, m, s.Block());
  }

  /** The slices of the converter, with the right number of rows per rank, are the shards. */
  lemma SlicesAreShards<T>(full: seq<T>, tp: nat, rows: nat)
    requires rows > 0 && tp > 0 && |full| == tp * rows && |full| >= tp && |full| / tp == rows
    ensures ShardSlices(full, tp, rows) == Shards(full, tp)
  {
    ShardSlicesArePieces(full, tp, rows, tp);
    assert Pieces(full, rows)[..tp] == Pieces(full, rows);
  }

  lemma SlicesAreBlocks<T>(blocks: seq<seq<T>>, tp: nat, m: nat, size: nat, rows: nat)
    requires tp > 0 && m > 0 && size > 0 && |blocks| == tp * m && Uniform(blocks, size) && rows == m * size
    ensures Parts(ShardSlices(Concat(blocks), tp, rows), m) == blocks
  {
    ShardParts(blocks, tp, m, size);
    SlicesAreShards(Concat(blocks), tp, rows);
  }

  lemma ConvertedIs<T>(full: seq<T>, tp: nat, m: nat, per: nat, headDim: nat)
    requires tp > 0 && m > 0
    ensures Converted(full, headDim, per * (tp * m), tp * m, tp, tp * m) ==
            Success(SlicedApart(full, per * headDim * m, headDim * m, tp, m))
  {
    QueryRows(m, tp, per, headDim);
    RankRowsIs(headDim, m, tp);
    QuotientOfMultiple(m, tp);
  }

  lemma ApartIsRows<T>(blocks: seq<seq<T>>, tp: nat, m: nat, s: Sizes, qRows: nat, kvRows: nat)
    requires tp > 0 && m > 0 && s.Block() > 0 && |blocks| == tp * m && Uniform(blocks, s.Block())
    requires qRows + 2 * kvRows == m * s.Block() && PerGroup(qRows, m) == s.q && PerGroup(kvRows, m) == s.kv
    ensures SlicedApart(Concat(blocks), qRows, kvRows, tp, m) == SlicedRows(blocks, s.q, s.kv)
  {
    var rows := qRows + 2 * kvRows;
    SlicesAreBlocks(blocks, tp, m, s.Block(), rows);
  }

  lemma RowsPerRank(s: Sizes, m: nat) returns (qRows: nat, kvRows: nat)
    requires m > 0
    ensures qRows == s.q * m && kvRows == s.kv * m
    ensures qRows + 2 * kvRows == m * s.Block() && PerGroup(qRows, m) == s.q && PerGroup(kvRows, m) == s.kv
  {
    ProductMonotone(0, s.q, m);
    ProductMonotone(0, s.kv, m);
    qRows, kvRows := s.q * m, s.kv * m;
    PerGroupIs(s.q, m);
    PerGroupIs(s.kv, m);
    Distributes(m, s.q, s.kv + s.kv);
    Distributes(m, s.kv, s.kv);
  }

  lemma ConverterSeesBlocks<T>(blocks: seq<seq<T>>, tp: nat, m: nat, per: nat, headDim: nat, s: Sizes)
    requires tp > 0 && m > 0 && headDim > 0 && |blocks| == tp * m && Uniform(blocks, s.Block())
    requires s.q == per * headDim && s.kv == headDim
    ensures Converted(Concat(blocks), headDim, per * (tp * m), tp * m, tp, tp * m) ==
            Success(SlicedRows(blocks, s.q, s.kv))
  {
    ConvertedIs(Concat(blocks), tp, m, per, headDim);
    var qRows, kvRows := RowsPerRank(s, m);
    ApartIsRows(blocks, tp, m, s, qRows, kvRows);
  }

  lemma BlocksOfFused<T>(w: Qkv<T>, heads: nat, groups: nat, headDim: nat, s: Sizes) returns (blocks: seq<seq<T>>)
    requires HasHeads(w, heads, groups, headDim) && s.q == heads / groups * headDim && s.kv == headDim
    ensures blocks != [] && |blocks| == groups && Uniform(blocks, s.Block())
    ensures Concat(blocks) == Fused(w, heads, groups, headDim)
    ensures TakenApart(blocks, s) == Success(w) && SlicedRows(blocks, s.q, s.kv) == w
  {
    Grouping(w, heads, groups, headDim);
    ViewIs(w.q, groups, s.q);
    ViewIs(w.k, groups, s.kv);
    ViewIs(w.v, groups, s.kv);
    blocks := Blocks(View(w.q, groups), View(w.k, groups), View(w.v, groups));
    RowsOfBlocks(View(w.q, groups), View(w.k, groups), View(w.v, groups), s);
  }

  /**
   Round trip: the fused weight, cut over any number of ranks that divides the number of query groups, gives
   back exactly q, k and v, whether merged from the shards (_merge_across_tp, default_tp_concat_fn), split by
   the single-rank merger (_split_tensors, tp = 1), or sliced from the joined shards (convert_qkv_shard).
   */
  lemma QkvRoundTrip<T>(w: Qkv<T>, heads: nat, groups: nat, headDim: nat, tp: nat)
    requires groups > 0 && headDim > 0 && heads > 0 && heads % groups == 0 && tp > 0 && groups % tp == 0
    requires |w.q| == heads * headDim && |w.k| == |w.v| == groups * headDim
    ensures var full := Fused(w, heads, groups, headDim);
            && |full| >= tp
            && Merged(Shards(full, tp), heads, groups, tp) == Success(w)
            && Converted(Concat(Shards(full, tp)), headDim, heads, groups, tp, groups) == Success(w)
            && Concat(Shards(full, tp)) == full
  {
    var m, per := groups / tp, heads / groups;
    PositiveMultiple(groups, tp);
    assert groups == m * tp == tp * m;
    if m == 0 {
      assert false;
    }
    Grouping(w, heads, groups, headDim);
    var s := Sizes(m, per * headDim, headDim);
    var blocks := BlocksOfFused(w, heads, groups, headDim, s);
    ProductMonotone(0, m, s.Block());
    MergeSizesAre(m, tp, per, headDim);
    MergersSeeBlocks(blocks, tp, m, s, heads, groups);
    ConverterSeesBlocks(blocks, tp, m, per, headDim, s);
  }

  /** The single-rank splitter reads the whole fused weight the same way. */
  lemma SplitRoundTrip<T>(w: Qkv<T>, heads: nat, groups: nat, headDim: nat)
    requires HasHeads(w, heads, groups, headDim)
    ensures Merged([Fused(w, heads, groups, headDim)], heads, groups, 1) == Success(w)
  {
    QkvRoundTrip(w, heads, groups, headDim, 1);
    var full := Fused(w, heads, groups, headDim);
    assert Shards(full, 1) == [full];
  }

  /** With more ranks than query groups the mergers have no group to cut out, whatever the shards hold. */
  lemma MoreRanksThanGroups<T>(shards: seq<seq<T>>, heads: nat, groups: nat, tp: nat)
    requires groups < tp
    ensures Merged(shards, heads, groups, tp).Failure?
  {
    if groups > 0 {
      QuotientUnique(groups, 0, groups, tp);
    }
  }

  // ---------------------------------------------------------------- gate and up

  /** gate, up = shard.chunk(2), which unpacks only if there are two chunks. */
  function Halves<T>(shard: seq<T>): Result<(seq<T>, seq<T>), LayoutError> {
    var chunks := Chunk(shard, 2);
    if |chunks| == 2 then Success((chunks[0], chunks[1])) else Failure(NotTwoHalves)
  }

  /** Two matrices, extended by further rows of each. */
  function Below<T>(x: (seq<T>, seq<T>), y: (seq<T>, seq<T>)): (seq<T>, seq<T>) {
    (x.0 + y.0, x.1 + y.1)
  }

  /** The two matrices read off a list of shards by chunking each in two. */
  function GateUp<T>(shards: seq<seq<T>>): Result<(seq<T>, seq<T>), LayoutError> {
    if shards == [] then Success(([], []))
    else
      var first, rest := Halves(shards[0]), GateUp(shards[1..]);
      if first.Failure? then first
      else if rest.Failure? then rest
      else Success(Below(first.value, rest.value))
  }

  lemma BelowAssociates<T>(x: (seq<T>, seq<T>), y: (seq<T>, seq<T>), z: (seq<T>, seq<T>))
    ensures Below(Below(x, y), z) == Below(x, Below(y, z))
  {
    assert (x.0 + y.0) + z.0 == x.0 + (y.0 + z.0) && (x.1 + y.1) + z.1 == x.1 + (y.1 + z.1);
  }

  lemma {:induction false} GateUpAppend<T>(a: seq<seq<T>>, shard: seq<T>)
    ensures GateUp(a).Success? && Halves(shard).Success? ==>
              GateUp(a + [shard]) == Success(Below(GateUp(a).value, Halves(shard).value))
    ensures Halves(shard).Failure? ==> GateUp(a + [shard]).Failure?
  {
    if a == [] {
      assert a + [shard] == [shard] && [shard][1..] == [];
      if Halves(shard).Success? {
        var h := Halves(shard).value;
        assert h.0 + [] == h.0 == [] + h.0 && h.1 + [] == h.1 == [] + h.1;
      }
    } else {
      GateUpAppend(a[1..], shard);
      assert (a + [shard])[1..] == a[1..] + [shard];
      if GateUp(a).Success? && Halves(shard).Success? {
        BelowAssociates(Halves(a[0]).value, GateUp(a[1..]).value, Halves(shard).value);
      }
    }
  }

  lemma {:induction false} GateUpFails<T>(a: seq<seq<T>>, b: seq<seq<T>>)
    requires GateUp(a).Failure?
    ensures GateUp(a + b).Failure? && GateUp(a + b).error == NotTwoHalves
  {
    assert (a + b)[1..] == a[1..] + b;
    if Halves(a[0]).Success? {
      GateUpFails(a[1..], b);
    }
  }

  /** The gate and up loop of _merge_across_tp, _split_tensors and default_tp_concat_fn. */
  method MergeGateUp<T>(shards: seq<seq<T>>) returns (r: Result<(seq<T>, seq<T>), LayoutError>)
    ensures r == GateUp(shards)
  {
    var gates, ups := [], [];
    for i := 0 to |shards|
      invariant GateUp(shards[..i]) == Success((Concat(gates), Concat(ups)))
    {
      hide Halves, GateUp, Concat;
      var halves := Halves(shards[i]);
      assert shards[..i + 1] == shards[..i] + [shards[i]];
      GateUpAppend(shards[..i], shards[i]);
      if halves.Failure? {
        GateUpFails(shards[..i + 1], shards[i + 1..]);
        assert shards == shards[..i + 1] + shards[i + 1..];
        return Failure(NotTwoHalves);
      }
      OneMorePiece(gates, halves.value.0);
      OneMorePiece(ups, halves.value.1);
      gates, ups := gates + [halves.value.0], ups + [halves.value.1];
    }
    assert shards[..|shards|] == shards;
    return Success((Concat(gates), Concat(ups)));
  }

  lemma OneMorePiece<T>(a: seq<seq<T>>, t: seq<T>)
    ensures Concat(a + [t]) == Concat(a) + t
  {
    ConcatAppend(a, [t]);
    ConcatOne(t);
  }

  /** convert_gate_up_shard: slices of twice a rank's rows, each cut after the rank's rows. */
  method ConvertGateUpShard<T>(full: seq<T>, intermediate: nat, tp: nat) returns (gate: seq<T>, up: seq<T>)
    requires tp > 0
    ensures gate == Concat(Rows(ShardSlices(full, tp, 2 * (intermediate / tp)), 0, intermediate / tp))
    ensures up == Concat(RowsFrom(ShardSlices(full, tp, 2 * (intermediate / tp)), intermediate / tp))
  {
    var rows := intermediate / tp;
    var gates, ups := [], [];
    for i := 0 to tp
      invariant gates == Rows(ShardSlices(full, i, 2 * rows), 0, rows)
      invariant ups == RowsFrom(ShardSlices(full, i, 2 * rows), rows)
    {
      var part := ShardSlice(full, i, 2 * rows);
      gates, ups := gates + [Slice(part, 0, rows)], ups + [Slice(part, rows, |part|)];
    }
    return Concat(gates), Concat(ups);
  }

  /** A rank's shard of the joined weight holds its gate rows and then its up rows. */
  function Paired<T>(gates: seq<seq<T>>, ups: seq<seq<T>>): seq<seq<T>>
    requires |gates| == |ups|
  {
    seq(|gates|, i requires 0 <= i < |gates| => gates[i] + ups[i])
  }

  lemma {:induction false} MergedPairs<T>(gates: seq<seq<T>>, ups: seq<seq<T>>, rows: nat)
    requires |gates| == |ups| && Uniform(gates, rows) && Uniform(ups, rows)
    ensures GateUp(Paired(gates, ups)) == Success((Concat(gates), Concat(ups)))
  {
    if gates != [] {
      var shard := gates[0] + ups[0];
      if rows > 0 {
        ChunkOfMultiple(shard, 2, rows);
        PieceIsSlice(shard, 2, rows, 0);
        PieceIsSlice(shard, 2, rows, 1);
      }
      assert Halves(shard) == Success((gates[0], ups[0]));
      MergedPairs(gates[1..], ups[1..], rows);
      assert Paired(gates, ups)[1..] == Paired(gates[1..], ups[1..]);
    }
  }

  lemma SlicedPairs<T>(gates: seq<seq<T>>, ups: seq<seq<T>>, rows: nat)
    requires |gates| == |ups| > 0 && Uniform(gates, rows) && Uniform(ups, rows) && rows > 0
    ensures ShardSlices(Concat(Paired(gates, ups)), |gates|, 2 * rows) == Paired(gates, ups)
  {
    var pairs, tp := Paired(gates, ups), |gates|;
    UniformLength(pairs, 2 * rows);
    PiecesOfConcat(pairs, 2 * rows);
    ShardSlicesArePieces(Concat(pairs), tp, 2 * rows, tp);
    assert pairs[..tp] == pairs;
  }

  lemma RowsOfPairs<T>(gates: seq<seq<T>>, ups: seq<seq<T>>, rows: nat)
    requires |gates| == |ups| && Uniform(gates, rows) && Uniform(ups, rows)
    ensures Rows(Paired(gates, ups), 0, rows) == gates && RowsFrom(Paired(gates, ups), rows) == ups
  {
    forall i | 0 <= i < |gates|
      ensures Slice(gates[i] + ups[i], 0, rows) == gates[i]
      ensures Slice(gates[i] + ups[i], rows, |gates[i] + ups[i]|) == ups[i]
    {
      assert (gates[i] + ups[i])[..rows] == gates[i] && (gates[i] + ups[i])[rows..] == ups[i];
    }
  }

  /** Both readers of gate and up give back what was cut over the ranks. */
  lemma GateUpRoundTrip<T>(gate: seq<T>, up: seq<T>, intermediate: nat, tp: nat)
    requires tp > 0 && |gate| == |up| == intermediate && intermediate >= tp && intermediate % tp == 0
    ensures |Shards(gate, tp)| == |Shards(up, tp)|
    ensures var shards, rows := Paired(Shards(gate, tp), Shards(up, tp)), intermediate / tp;
            && GateUp(shards) == Success((gate, up))
            && Concat(Rows(ShardSlices(Concat(shards), tp, 2 * rows), 0, rows)) == gate
            && Concat(RowsFrom(ShardSlices(Concat(shards), tp, 2 * rows), rows)) == up
  {
    var rows := intermediate / tp;
    assert intermediate == tp * rows;
    PiecesUniform(gate, tp, rows);
    PiecesUniform(up, tp, rows);
    MergedPairs(Shards(gate, tp), Shards(up, tp), rows);
    SlicedPairs(Shards(gate, tp), Shards(up, tp), rows);
    RowsOfPairs(Shards(gate, tp), Shards(up, tp), rows);
  }
}
