/**
 DataProto of verl/protocol.py: a batch of tensor rows with columns of objects beside it; padding to a divisor,
 chunking over workers, concatenating their results and removing the padding.
 */
module BatchProtocol {
  import opened Wrappers
  import opened Arithmetic
  import opened Tensors

  type Key = nat

  /** One item: its tensors, unless the batch has none, and its objects. */
  datatype Row<T> = Row(tensors: Option<T>, objects: map<Key, T>)

  function ColumnItems<T>(objects: map<Key, seq<T>>, from: nat, to: nat, size: nat): (r: map<Key, seq<T>>)
    requires (forall k | k in objects :: |objects[k]| == size) && from <= to <= size
    ensures r.Keys == objects.Keys && forall k | k in r :: |r[k]| == to - from
  {
    map k | k in objects :: objects[k][from..to]
  }

  /** size is len(): the number of items. */
  datatype DataProto<T> = DataProto(size: nat, batch: Option<seq<T>>, objects: map<Key, seq<T>>) {
    predicate Valid() {
      && (batch.Some? ==> |batch.value| == size)
      && (forall k | k in objects :: |objects[k]| == size)
      && (batch.None? && objects.Keys == {} ==> size == 0)
    }

    function At(i: nat): Row<T>
      requires Valid() && i < size
    {
      Row(if batch.Some? then Some(batch.value[i]) else None, map k | k in objects :: objects[k][i])
    }

    function Rows(): seq<Row<T>>
      requires Valid()
    {
      seq(size, i requires 0 <= i < size => At(i))
    }

    /** data[from:to]. */
    function Items(from: nat, to: nat): (d: DataProto<T>)
      requires Valid() && from <= to <= size
      ensures d.Valid() && d.size == to - from && SameColumns(d)
    {
      DataProto(to - from, if batch.Some? then Some(batch.value[from..to]) else None,
                ColumnItems(objects, from, to, size))
    }

    predicate SameColumns(d: DataProto<T>) {
      (batch.Some? <==> d.batch.Some?) && objects.Keys == d.objects.Keys
    }

    /** The items of two batches with the same columns, one after the other. */
    function Join(d: DataProto<T>): (r: DataProto<T>)
      requires Valid() && d.Valid() && SameColumns(d)
      ensures r.Valid() && r.size == size + d.size && SameColumns(r)
    {
      DataProto(size + d.size, if batch.Some? then Some(batch.value + d.batch.value) else None,
                map k | k in objects :: objects[k] + d.objects[k])
    }
  }

  /** len() is the number of tensor rows, or else that of the items of any column of objects, or else 0. */
  ghost predicate IsLength<T>(n: nat, d: DataProto<T>) {
    if d.batch.Some? then n == |d.batch.value|
    else if d.objects.Keys != {} then exists k :: k in d.objects && n == |d.objects[k]|
    else n == 0
  }

  /** A batch is valid exactly when its size is its length and no column of objects has another one. */
  lemma SizeIsLength<T>(d: DataProto<T>)
    ensures d.Valid() <==> IsLength(d.size, d) && forall k | k in d.objects :: |d.objects[k]| == d.size
  {
    if d.objects.Keys != {} {
      var k :| k in d.objects.Keys;
      assert k in d.objects;
    }
  }

  lemma ItemAt<T>(d: DataProto<T>, from: nat, to: nat, i: nat)
    requires d.Valid() && from <= to <= d.size && i < to - from
    ensures d.Items(from, to).At(i) == d.At(from + i)
  {
  }

  lemma RowsOfItems<T>(d: DataProto<T>, from: nat, to: nat)
    requires d.Valid() && from <= to <= d.size
    ensures d.Items(from, to).Rows() == d.Rows()[from..to]
  {
    forall i | 0 <= i < to - from
      ensures d.Items(from, to).At(i) == d.At(from + i)
    {
      ItemAt(d, from, to, i);
    }
  }

  lemma JoinAt<T>(d: DataProto<T>, e: DataProto<T>, i: nat)
    requires d.Valid() && e.Valid() && d.SameColumns(e) && i < d.size + e.size
    ensures d.Join(e).At(i) == if i < d.size then d.At(i) else e.At(i - d.size)
  {
    var there := if i < d.size then d.At(i) else e.At(i - d.size);
    assert d.Join(e).At(i).objects == there.objects;
  }

  lemma RowsOfJoin<T>(d: DataProto<T>, e: DataProto<T>)
    requires d.Valid() && e.Valid() && d.SameColumns(e)
    ensures d.Join(e).Rows() == d.Rows() + e.Rows()
  {
    forall i | 0 <= i < d.size + e.size
      ensures d.Join(e).At(i) == if i < d.size then d.At(i) else e.At(i - d.size)
    {
      JoinAt(d, e, i);
    }
  }

  // ---------------------------------------------------------------- concat

  /** A list of batches with the same columns. */
  ghost predicate Alike<T>(ds: seq<DataProto<T>>) {
    (forall i | 0 <= i < |ds| :: ds[i].Valid()) && forall i | 0 <= i < |ds| :: ds[0].SameColumns(ds[i])
  }

  /** DataProto.concat. */
  function ConcatProtos<T>(ds: seq<DataProto<T>>): (r: DataProto<T>)
    requires ds != [] && Alike(ds)
    ensures r.Valid() && r.SameColumns(ds[0])
  {
    if |ds| == 1 then ds[0] else ds[0].Join(ConcatProtos(ds[1..]))
  }

  ghost function RowsOf<T>(ds: seq<DataProto<T>>): seq<seq<Row<T>>>
    requires forall i | 0 <= i < |ds| :: ds[i].Valid()
  {
    seq(|ds|, i requires 0 <= i < |ds| => ds[i].Rows())
  }

  lemma {:induction false} RowsOfConcat<T>(ds: seq<DataProto<T>>)
    requires ds != [] && Alike(ds)
    ensures ConcatProtos(ds).Rows() == Concat(RowsOf(ds))
  {
    hide DataProto.Join, DataProto.At, DataProto.Rows;
    if |ds| == 1 {
      assert RowsOf(ds) == [ds[0].Rows()];
    } else {
      RowsOfConcat(ds[1..]);
      RowsOfJoin(ds[0], ConcatProtos(ds[1..]));
      assert RowsOf(ds)[1..] == RowsOf(ds[1..]);
    }
  }

  // ---------------------------------------------------------------- padding

  /** The first k items of the rows repeated over and over. */
  ghost function Cycle<T>(rows: seq<T>, k: nat): seq<T>
    requires rows != []
  {
    seq(k, i requires 0 <= i => rows[i % |rows|])
  }

  lemma WrapsTo(k: nat, n: nat, i: nat)
    requires n > 0 && k % n == 0 && i < n
    ensures (k + i) % n == i
  {
    QuotientUnique(k + i, k / n, i, n);
  }

  lemma CycleGrows<T>(rows: seq<T>, k: nat, take: nat)
    requires rows != [] && k % |rows| == 0 && take <= |rows|
    ensures Cycle(rows, k + take) == Cycle(rows, k) + rows[..take]
  {
    var longer := Cycle(rows, k + take);
    forall i | k <= i < k + take
      ensures longer[i] == rows[i - k]
    {
      WrapsTo(k, |rows|, i - k);
    }
  }

  lemma FullTurn(k: nat, n: nat)
    requires n > 0 && k % n == 0
    ensures (k + n) % n == 0
  {
    Distributes(n, k / n, 1);
    QuotientOfMultiple(k / n + 1, n);
  }

  /** What padding has to achieve: the rows over and over up to the next multiple of the divisor. */
  ghost predicate Padded<T>(data: DataProto<T>, divisor: nat, r: DataProto<T>, padSize: nat)
    requires data.Valid() && divisor > 0
  {
    && r.Valid() && r.SameColumns(data) && r.size == data.size + padSize
    && r.size % divisor == 0 && padSize < divisor
    && (data.size == 0 ==> r == data)
    && (data.size > 0 ==> r.Rows() == Cycle(data.Rows(), r.size))
  }

  /** pad_dataproto_to_divisor. */
  method PadToDivisor<T>(data: DataProto<T>, divisor: nat) returns (r: DataProto<T>, padSize: nat)
    requires data.Valid() && divisor > 0
    ensures Padded(data, divisor, r, padSize)
  {
    if data.size % divisor == 0 {
      if data.size > 0 {
        CycleOnce(data.Rows());
      }
      return data, 0;
    }
    padSize := divisor - data.size % divisor;
    PaddedSize(data.size, divisor);
    var protos, remaining := [data], padSize;
    CycleOnce(data.Rows());
    assert RowsOf(protos) == [data.Rows()];
    while remaining > 0
      invariant 0 <= remaining <= padSize
      invariant protos != [] && protos[0] == data && Alike(protos)
      invariant Concat(RowsOf(protos)) == Cycle(data.Rows(), data.size + padSize - remaining)
      invariant remaining > 0 ==> (data.size + padSize - remaining) % data.size == 0
    {
      var take := if remaining < data.size then remaining else data.size;
      AddProto(protos, data, take);
      CycleGrows(data.Rows(), data.size + padSize - remaining, take);
      FullTurn(data.size + padSize - remaining, data.size);
      protos := protos + [data.Items(0, take)];
      remaining := remaining - take;
    }
    RowsOfConcat(protos);
    r := ConcatProtos(protos);
    assert r.size == |r.Rows()|;
  }

  lemma CycleOnce<T>(rows: seq<T>)
    requires rows != []
    ensures Cycle(rows, |rows|) == rows && |rows| % |rows| == 0
  {
    forall i | 0 <= i < |rows|
      ensures i % |rows| == i
    {
      QuotientUnique(i, 0, i, |rows|);
    }
    QuotientUnique(|rows|, 1, 0, |rows|);
  }

  lemma PaddedSize(n: nat, divisor: nat)
    requires divisor > 0 && n % divisor != 0
    ensures (n + (divisor - n % divisor)) % divisor == 0 && 0 < divisor - n % divisor < divisor && n > 0
  {
    Distributes(divisor, n / divisor, 1);
    QuotientOfMultiple(n / divisor + 1, divisor);
    if n == 0 {
      QuotientOfMultiple(0, divisor);
    }
  }

  lemma AddProto<T>(protos: seq<DataProto<T>>, data: DataProto<T>, take: nat)
    requires protos != [] && protos[0] == data && Alike(protos) && data.Valid() && take <= data.size
    ensures Alike(protos + [data.Items(0, take)])
    ensures Concat(RowsOf(protos + [data.Items(0, take)])) == Concat(RowsOf(protos)) + data.Rows()[..take]
  {
    var more := data.Items(0, take);
    RowsOfItems(data, 0, take);
    assert RowsOf(protos + [more]) == RowsOf(protos) + [more.Rows()];
    ConcatAppend(RowsOf(protos), [more.Rows()]);
  }

  /** unpad_dataproto: data[:-padSize]. */
  function Unpad<T>(data: DataProto<T>, padSize: nat): (r: DataProto<T>)
    requires data.Valid()
    ensures r.Valid()
  {
    if padSize == 0 then data else data.Items(0, if padSize <= data.size then data.size - padSize else 0)
  }

  // ---------------------------------------------------------------- chunk

  datatype Error = UnequalChunks | TooFewChunks

  /** Cut points 0 = starts[0] <= starts[1] <= ... = size. */
  ghost predicate CutPoints(starts: seq<nat>, size: nat) {
    && |starts| > 0 && starts[0] == 0 && starts[|starts| - 1] == size
    && Ascending(starts) && forall i | 0 <= i < |starts| :: starts[i] <= size
  }

  ghost predicate Ascending(starts: seq<nat>) {
    forall i | 0 < i < |starts| :: starts[i - 1] <= starts[i]
  }

  /** Start of the i-th part of np.array_split(val, chunks): the first size % chunks parts get one item more. */
  function SplitStart(size: nat, chunks: nat, i: nat): nat
    requires chunks > 0
  {
    ProductMonotone(0, size / chunks, i);
    (size / chunks) * i + if i < size % chunks then i else size % chunks
  }

  lemma SplitStartStep(size: nat, chunks: nat, i: nat)
    requires chunks > 0 && 0 < i <= chunks
    ensures SplitStart(size, chunks, i) ==
            SplitStart(size, chunks, i - 1) + size / chunks + if i <= size % chunks then 1 else 0
  {
    Distributes(size / chunks, i - 1, 1);
  }

  function SplitStarts(size: nat, chunks: nat): seq<nat>
    requires chunks > 0
  {
    seq(chunks + 1, i requires 0 <= i => SplitStart(size, chunks, i))
  }

  lemma SplitStartInRange(size: nat, chunks: nat, i: nat)
    requires chunks > 0 && i <= chunks
    ensures SplitStart(size, chunks, i) <= size
    ensures SplitStart(size, chunks, chunks) == size
  {
    ProductMonotone(i, chunks, size / chunks);
  }

  lemma SplitStartsAreCuts(size: nat, chunks: nat)
    requires chunks > 0
    ensures CutPoints(SplitStarts(size, chunks), size)
  {
    var s := SplitStarts(size, chunks);
    SplitStartInRange(size, chunks, chunks);
    forall i | 0 < i < |s|
      ensures s[i - 1] <= s[i]
    {
      SplitStartStep(size, chunks, i);
    }
    forall i | 0 <= i < |s|
      ensures s[i] <= size
    {
      SplitStartInRange(size, chunks, i);
    }
  }

  /** The cumulative sizes of the tensor chunks. */
  method CumulativeSizes<T>(pieces: seq<seq<T>>) returns (starts: seq<nat>)
    ensures |starts| == |pieces| + 1 && CutPoints(starts, |Concat(pieces)|)
    ensures forall i | 0 < i <= |pieces| :: starts[i] - starts[i - 1] == |pieces[i - 1]|
  {
    starts := [0];
    ConcatUpTo(pieces, 0);
    for n := 0 to |pieces|
      invariant |starts| == n + 1 && CutPoints(starts, |Concat(pieces[..n])|)
      invariant forall i | 0 < i <= n :: starts[i] - starts[i - 1] == |pieces[i - 1]|
    {
      ConcatUpTo(pieces, n + 1);
      starts := starts + [starts[n] + |pieces[n]|];
    }
    assert pieces[..|pieces|] == pieces;
  }

  lemma ConcatUpTo<T>(pieces: seq<seq<T>>, n: nat)
    requires n <= |pieces|
    ensures n > 0 ==> Concat(pieces[..n]) == Concat(pieces[..n - 1]) + pieces[n - 1]
  {
    if n > 0 {
      assert pieces[..n] == pieces[..n - 1] + [pieces[n - 1]];
      ConcatAppend(pieces[..n - 1], [pieces[n - 1]]);
    }
  }

  ghost predicate CutAt<T>(d: DataProto<T>, starts: seq<nat>, ds: seq<DataProto<T>>, i: nat)
    requires d.Valid() && i < |ds| && i + 1 < |starts|
  {
    starts[i] <= starts[i + 1] <= d.size && ds[i] == d.Items(starts[i], starts[i + 1])
  }

  /** Batches cut out of d at the given points. */
  ghost predicate CutOf<T>(d: DataProto<T>, starts: seq<nat>, ds: seq<DataProto<T>>)
    requires d.Valid()
  {
    |ds| < |starts| && forall i | 0 <= i < |ds| :: CutAt(d, starts, ds, i)
  }

  lemma CutsAreValid<T>(d: DataProto<T>, starts: seq<nat>, ds: seq<DataProto<T>>)
    requires d.Valid() && CutOf(d, starts, ds)
    ensures forall i | 0 <= i < |ds| :: ds[i].Valid() && ds[i].SameColumns(d)
  {
    forall i | 0 <= i < |ds|
      ensures ds[i].Valid() && ds[i].SameColumns(d)
    {
      assert CutAt(d, starts, ds, i);
    }
  }

  /** Cutting keeps every item once, in order, with its own objects. */
  lemma {:induction false} RowsOfCut<T>(d: DataProto<T>, starts: seq<nat>, ds: seq<DataProto<T>>, n: nat)
    requires d.Valid() && CutPoints(starts, d.size) && CutOf(d, starts, ds) && n <= |ds|
    requires forall i | 0 <= i < |ds| :: ds[i].Valid()
    ensures Concat(RowsOf(ds)[..n]) == d.Rows()[..starts[n]]
  {
    if n > 0 {
      RowsOfCut(d, starts, ds, n - 1);
      ConcatUpTo(RowsOf(ds), n);
      assert CutAt(d, starts, ds, n - 1);
      RowsOfItems(d, starts[n - 1], starts[n]);
    }
  }

  lemma CutIsAlike<T>(d: DataProto<T>, starts: seq<nat>, ds: seq<DataProto<T>>)
    requires d.Valid() && CutPoints(starts, d.size) && CutOf(d, starts, ds) && |ds| + 1 == |starts|
    ensures Alike(ds) && (forall i | 0 <= i < |ds| :: ds[i].SameColumns(d))
    ensures Concat(RowsOf(ds)) == d.Rows()
  {
    CutsAreValid(d, starts, ds);
    RowsOfCut(d, starts, ds, |ds|);
    assert RowsOf(ds)[..|ds|] == RowsOf(ds) && d.Rows()[..d.size] == d.Rows();
  }

  lemma {:induction false} PiecesCount<T>(t: seq<T>, size: nat)
    requires size > 0 && t != []
    ensures |Pieces(t, size)| == CeilDiv(|t|, size)
    ensures |t| % size == 0 ==> Uniform(Pieces(t, size), size)
    decreases |t|
  {
    if |t| <= size {
      CeilDivIs(|t|, size, 1);
      CeilDivIs(|t|, size, 0);
      if |t| % size == 0 {
        PositiveMultiple(|t|, size);
      }
    } else {
      PiecesCount(t[size..], size);
      RemoveOneMultiple(|t| + size - 1, size);
      RemoveOneMultiple(|t|, size);
    }
  }

  /** Fewer than the asked number of tensor chunks come out when the last one would be empty. */
  predicate TooFew(size: nat, chunks: nat)
    requires chunks > 0
  {
    size <= (chunks - 1) * CeilDiv(size, chunks)
  }

  /** Pieces of two rows: five rows only make three. */
  lemma FiveRowsInFourChunks()
    ensures TooFew(5, 4)
  {
  }

  lemma ChunkCount<T>(t: seq<T>, chunks: nat)
    requires t != [] && chunks > 0
    ensures |Chunk(t, chunks)| == chunks <==> !TooFew(|t|, chunks)
    ensures Concat(Chunk(t, chunks)) == t
  {
    var c := CeilDiv(|t|, chunks);
    PiecesCount(t, c);
    CeilDivIs(|t|, c, chunks - 1);
    CeilDivIs(|t|, c, chunks);
    CeilDivIs(|t|, chunks, c);
  }

  lemma EvenChunks<T>(t: seq<T>, chunks: nat)
    requires t != [] && chunks > 0 && |t| % chunks == 0
    ensures |Chunk(t, chunks)| == chunks && Uniform(Chunk(t, chunks), |t| / chunks)
  {
    var q := |t| / chunks;
    assert |t| == chunks * q;
    if q <= 0 {
      ProductMonotone(q, 0, chunks);
    }
    ChunkOfMultiple(t, chunks, q);
    PiecesUniform(t, chunks, q);
  }

  lemma {:induction false} PieceSizes<T>(t: seq<T>, size: nat, i: nat)
    requires size > 0 && i < |Pieces(t, size)|
    ensures i < |Pieces(t, size)| - 1 ==> |Pieces(t, size)[i]| == size
    ensures 0 < |Pieces(t, size)[i]| <= size
    decreases |t|
  {
    if i > 0 {
      PieceSizes(t[size..], size, i - 1);
    }
  }

  /** The steps between the cut points: rounded-up averages for tensors, differing by at most one for objects alone. */
  ghost predicate StepsOf(starts: seq<nat>, size: nat, chunks: nat, tensors: bool)
    requires chunks > 0 && |starts| == chunks + 1
  {
    if tensors then
      && (forall i | 0 < i < chunks :: starts[i] == starts[i - 1] + CeilDiv(size, chunks))
      && starts[chunks - 1] < starts[chunks] <= starts[chunks - 1] + CeilDiv(size, chunks)
    else
      var q, r := size / chunks, size % chunks;
      forall i | 0 < i <= chunks :: starts[i] == starts[i - 1] + q + if i <= r then 1 else 0
  }

  /** At most the rounded-up average, and exactly that unless it is the last part. */
  ghost predicate TensorPart(size: nat, total: nat, chunks: nat, last: bool) {
    0 < size && (size - 1) * chunks < total && (last || total <= size * chunks)
  }

  /**
   Tensors are cut into rounded-up averages with what is left at the end; objects alone into parts of which
   none is larger than an earlier one, nor smaller by more than one.
   */
  ghost predicate SizesOf<T>(d: DataProto<T>, ds: seq<DataProto<T>>) {
    if d.batch.Some? then
      forall i | 0 <= i < |ds| :: TensorPart(ds[i].size, d.size, |ds|, i == |ds| - 1)
    else
      forall i, j | 0 <= i < j < |ds| :: ds[j].size <= ds[i].size <= ds[j].size + 1
  }

  lemma StepIsPart(step: nat, total: nat, chunks: nat, last: bool)
    requires chunks > 0 && 0 < step <= CeilDiv(total, chunks) && (last || step == CeilDiv(total, chunks))
    ensures TensorPart(step, total, chunks, last)
  {
    var c := CeilDiv(total, chunks);
    CeilDivIs(total, chunks, c);
    CeilDivIs(total, chunks, c - 1);
    ProductMonotone(step - 1, c - 1, chunks);
  }

  lemma CutSizes<T>(d: DataProto<T>, starts: seq<nat>, ds: seq<DataProto<T>>)
    requires d.Valid() && CutOf(d, starts, ds)
    ensures forall i | 0 <= i < |ds| :: starts[i + 1] == starts[i] + ds[i].size
  {
    forall i | 0 <= i < |ds|
      ensures starts[i + 1] == starts[i] + ds[i].size
    {
      assert CutAt(d, starts, ds, i);
    }
  }

  lemma StepsGiveSizes<T>(d: DataProto<T>, starts: seq<nat>, ds: seq<DataProto<T>>)
    requires 0 < |ds| && |starts| == |ds| + 1 && StepsOf(starts, d.size, |ds|, d.batch.Some?)
    requires forall i | 0 <= i < |ds| :: starts[i + 1] == starts[i] + ds[i].size
    ensures SizesOf(d, ds)
  {
    var n, c := |ds|, CeilDiv(d.size, |ds|);
    if d.batch.Some? {
      forall i | 0 <= i < n
        ensures TensorPart(ds[i].size, d.size, n, i == n - 1)
      {
        assert i < n - 1 ==> starts[i + 1] == starts[i + 1 - 1] + c;
        StepIsPart(ds[i].size, d.size, n, i == n - 1);
      }
    } else {
      ObjectSteps(d, starts, ds);
    }
  }

  lemma ObjectSteps<T>(d: DataProto<T>, starts: seq<nat>, ds: seq<DataProto<T>>)
    requires 0 < |ds| && |starts| == |ds| + 1 && StepsOf(starts, d.size, |ds|, false)
    requires forall i | 0 <= i < |ds| :: starts[i + 1] == starts[i] + ds[i].size
    ensures forall i, j | 0 <= i < j < |ds| :: ds[j].size <= ds[i].size <= ds[j].size + 1
  {
    var q, r := d.size / |ds|, d.size % |ds|;
    forall i | 0 <= i < |ds|
      ensures ds[i].size == q + if i + 1 <= r then 1 else 0
    {
      assert starts[i + 1] == starts[i + 1 - 1] + q + if i + 1 <= r then 1 else 0;
    }
  }

  /** What chunking has to achieve: the items in order, in equal parts if the workers divide them. */
  ghost predicate Chunked<T>(d: DataProto<T>, chunks: nat, ds: seq<DataProto<T>>)
    requires d.Valid() && chunks > 0
  {
    && |ds| == chunks && Alike(ds) && (forall i | 0 <= i < |ds| :: ds[i].SameColumns(d))
    && Concat(RowsOf(ds)) == d.Rows()
    && (d.size % chunks == 0 ==> forall i | 0 <= i < |ds| :: ds[i].size == d.size / chunks)
    && SizesOf(d, ds)
  }

  lemma ChunkSteps<T>(t: seq<T>, chunks: nat, starts: seq<nat>)
    requires t != [] && chunks > 0 && |Chunk(t, chunks)| == chunks == |starts| - 1
    requires forall i | 0 < i < |starts| :: starts[i] == starts[i - 1] + |Chunk(t, chunks)[i - 1]|
    ensures StepsOf(starts, |t|, chunks, true)
  {
    CeilDivIs(|t|, chunks, 0);
    PiecesCount(t, CeilDiv(|t|, chunks));
    forall i | 0 < i <= chunks
      ensures 0 < starts[i] - starts[i - 1] <= CeilDiv(|t|, chunks)
      ensures i < chunks ==> starts[i] == starts[i - 1] + CeilDiv(|t|, chunks)
    {
      PieceSizes(t, CeilDiv(|t|, chunks), i - 1);
    }
  }

  lemma SplitSteps(size: nat, chunks: nat)
    requires chunks > 0
    ensures var s := SplitStarts(size, chunks);
            && StepsOf(s, size, chunks, false)
            && (size % chunks == 0 ==> forall i | 0 < i <= chunks :: s[i] == s[i - 1] + size / chunks)
  {
    forall i | 0 < i <= chunks
      ensures SplitStarts(size, chunks)[i] ==
              SplitStarts(size, chunks)[i - 1] + size / chunks + if i <= size % chunks then 1 else 0
    {
      SplitStartStep(size, chunks, i);
    }
  }

  /** The cut points of chunk, or an error if the tensors come in too few chunks. */
  method ChunkStarts<T>(d: DataProto<T>, chunks: nat) returns (r: Result<seq<nat>, Error>)
    requires d.Valid() && chunks > 0 && (d.batch.Some? ==> d.size > 0)
    ensures r.Failure? <==> d.batch.Some? && TooFew(d.size, chunks)
    ensures r.Success? ==> |r.value| == chunks + 1 && CutPoints(r.value, d.size)
    ensures r.Success? && d.size % chunks == 0 ==> forall i | 0 < i <= chunks :: r.value[i] == r.value[i - 1] + d.size / chunks
    ensures r.Success? ==> StepsOf(r.value, d.size, chunks, d.batch.Some?)
    ensures r.Failure? ==> r.error == TooFewChunks
  {
    hide StepsOf, Chunk, TooFew;
    if d.batch.Some? {
      var pieces := Chunk(d.batch.value, chunks);
      ChunkCount(d.batch.value, chunks);
      if |pieces| != chunks {
        return Failure(TooFewChunks);
      }
      if d.size % chunks == 0 {
        EvenChunks(d.batch.value, chunks);
      }
      var starts := CumulativeSizes(pieces);
      ChunkSteps(d.batch.value, chunks, starts);
      return Success(starts);
    }
    SplitStartsAreCuts(d.size, chunks);
    SplitSteps(d.size, chunks);
    return Success(SplitStarts(d.size, chunks));
  }

  /** DataProto.chunk: every column is cut at the same points. */
  method ChunkProto<T>(d: DataProto<T>, chunks: nat, paddingEnabled: bool) returns (r: Result<seq<DataProto<T>>, Error>)
    requires d.Valid() && chunks > 0 && (d.batch.Some? ==> d.size > 0)
    ensures r == Failure(UnequalChunks) <==> !paddingEnabled && d.size % chunks != 0
    ensures r == Failure(TooFewChunks) <==> (paddingEnabled || d.size % chunks == 0) && d.batch.Some? && TooFew(d.size, chunks)
    ensures r.Success? ==> Chunked(d, chunks, r.value)
  {
    hide StepsOf, SizesOf;
    if !paddingEnabled && d.size % chunks != 0 {
      return Failure(UnequalChunks);
    }
    var cuts := ChunkStarts(d, chunks);
    if cuts.Failure? {
      return Failure(cuts.error);
    }
    var starts, output := cuts.value, [];
    for i := 0 to chunks
      invariant |output| == i && CutOf(d, starts, output)
    {
      assert starts[i + 1 - 1] <= starts[i + 1];
      var before := output;
      output := output + [d.Items(starts[i], starts[i + 1])];
      MoreCuts(d, starts, before, d.Items(starts[i], starts[i + 1]));
    }
    CutIsAlike(d, starts, output);
    CutSizes(d, starts, output);
    StepsGiveSizes(d, starts, output);
    if d.size % chunks == 0 {
      EqualParts(d, starts, output, d.size / chunks);
    }
    return Success(output);
  }

  lemma MoreCuts<T>(d: DataProto<T>, starts: seq<nat>, ds: seq<DataProto<T>>, next: DataProto<T>)
    requires d.Valid() && CutOf(d, starts, ds) && |ds| + 1 < |starts|
    requires starts[|ds|] <= starts[|ds| + 1] <= d.size && next == d.Items(starts[|ds|], starts[|ds| + 1])
    ensures CutOf(d, starts, ds + [next])
  {
    forall i | 0 <= i < |ds| + 1
      ensures CutAt(d, starts, ds + [next], i)
    {
      if i < |ds| {
        assert CutAt(d, starts, ds, i);
      }
    }
  }

  lemma EqualParts<T>(d: DataProto<T>, starts: seq<nat>, ds: seq<DataProto<T>>, size: nat)
    requires d.Valid() && CutOf(d, starts, ds)
    requires forall i | 0 < i < |starts| :: starts[i] == starts[i - 1] + size
    ensures forall i | 0 <= i < |ds| :: ds[i].size == size
  {
    forall i | 0 <= i < |ds|
      ensures ds[i].size == size
    {
      assert CutAt(d, starts, ds, i);
      assert starts[i + 1] == starts[i + 1 - 1] + size;
    }
  }

  // ---------------------------------------------------------------- the round trip

  function Mapped<A, B>(f: A -> B, xs: seq<A>): seq<B> {
    seq(|xs|, i requires 0 <= i < |xs| => f(xs[i]))
  }

  /** Every worker has applied the function to each of its rows. */
  ghost predicate AppliedTo<A, B>(f: Row<A> -> Row<B>, parts: seq<DataProto<A>>, results: seq<DataProto<B>>)
    requires forall i | 0 <= i < |parts| :: parts[i].Valid()
    requires forall i | 0 <= i < |results| :: results[i].Valid()
  {
    |parts| == |results| && forall i | 0 <= i < |parts| :: results[i].Rows() == Mapped(f, parts[i].Rows())
  }

  lemma {:induction false} RowsOfApplied<A, B>(f: Row<A> -> Row<B>, parts: seq<DataProto<A>>, results: seq<DataProto<B>>)
    requires forall i | 0 <= i < |parts| :: parts[i].Valid()
    requires forall i | 0 <= i < |results| :: results[i].Valid()
    requires AppliedTo(f, parts, results)
    ensures Concat(RowsOf(results)) == Mapped(f, Concat(RowsOf(parts)))
  {
    if parts != [] {
      RowsOfApplied(f, parts[1..], results[1..]);
      assert RowsOf(parts)[1..] == RowsOf(parts[1..]) && RowsOf(results)[1..] == RowsOf(results[1..]);
    }
  }

  /**
   Pad to the number of workers, chunk, let every worker apply a function row by row, concatenate and unpad:
   the result is the function applied to every row of the original batch, in order.
   */
  lemma PaddingIsTransparent<A, B>(f: Row<A> -> Row<B>, data: DataProto<A>, workers: nat, padded: DataProto<A>,
                                   padSize: nat, parts: seq<DataProto<A>>, results: seq<DataProto<B>>)
    requires data.Valid() && data.size > 0 && workers > 0
    requires Padded(data, workers, padded, padSize) && Chunked(padded, workers, parts)
    requires Alike(results) && AppliedTo(f, parts, results)
    ensures Unpad(ConcatProtos(results), padSize).Rows() == Mapped(f, data.Rows())
  {
    hide SizesOf;
    RowsOfApplied(f, parts, results);
    RowsOfConcat(results);
    var r, rows := ConcatProtos(results), data.Rows();
    assert r.Rows() == Mapped(f, Cycle(rows, padded.size));
    assert r.size == |r.Rows()| == data.size + padSize;
    CyclePrefix(rows, padded.size);
    UnpadRows(r, padSize, data.size);
    assert Mapped(f, Cycle(rows, padded.size))[..data.size] == Mapped(f, rows);
  }

  lemma UnpadRows<T>(r: DataProto<T>, padSize: nat, n: nat)
    requires r.Valid() && r.size == n + padSize
    ensures Unpad(r, padSize).Rows() == r.Rows()[..n]
  {
    if padSize > 0 {
      RowsOfItems(r, 0, n);
    }
  }

  lemma CyclePrefix<T>(rows: seq<T>, k: nat)
    requires rows != [] && k >= |rows|
    ensures Cycle(rows, k)[..|rows|] == rows
  {
    CycleOnce(rows);
    assert Cycle(rows, k)[..|rows|] == Cycle(rows, |rows|);
  }

  /** After padding to the number of workers, chunking cannot fail. */
  lemma PaddedChunksWell<T>(data: DataProto<T>, workers: nat, padded: DataProto<T>, padSize: nat)
    requires data.Valid() && data.size > 0 && workers > 0 && Padded(data, workers, padded, padSize)
    ensures padded.size > 0 && padded.size % workers == 0 && !TooFew(padded.size, workers)
  {
    var n := padded.size;
    assert n == workers * (n / workers);
    CeilDivIs(n, workers, n / workers);
    CeilDivIs(n, workers, n / workers - 1);
    Distributes(workers, n / workers, -1);
    assert CeilDiv(n, workers) == n / workers;
    Distributes(n / workers, workers, -1);
  }
}
