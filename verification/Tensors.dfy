/** Tensors as sequences of rows along their first dimension: concatenation, chunk and slices. */
module Tensors {
  import opened Arithmetic

  function Concat<T>(ts: seq<seq<T>>): seq<T> {
    if ts == [] then [] else ts[0] + Concat(ts[1..])
  }

  /** Consecutive pieces of the given size; the last one may be shorter. */
  function Pieces<T>(t: seq<T>, size: nat): (r: seq<seq<T>>)
    requires size > 0
    ensures Concat(r) == t
  {
    if |t| == 0 then []
    else if |t| <= size then
      assert t + Concat<T>([]) == t;
      [t]
    else
      assert t[..size] + t[size..] == t;
      [t[..size]] + Pieces(t[size..], size)
  }

  /** torch.chunk: pieces of ceil(len / n) rows, possibly fewer than n; n empty ones of an empty tensor. */
  function Chunk<T>(t: seq<T>, n: nat): seq<seq<T>>
    requires n > 0
  {
    if |t| == 0 then seq(n, _ => [])
    else
      Pieces(t, CeilDiv(|t|, n))
  }

  /** A Python slice, which never fails. */
  function Slice<T>(t: seq<T>, from: nat, to: nat): seq<T> {
    var hi := if to <= |t| then to else |t|;
    if from <= hi then t[from..hi] else []
  }

  predicate Uniform<T>(ts: seq<seq<T>>, size: nat) {
    forall i | 0 <= i < |ts| :: |ts[i]| == size
  }

  lemma UniformAppend<T>(a: seq<seq<T>>, b: seq<seq<T>>, size: nat)
    ensures Uniform(a + b, size) <==> Uniform(a, size) && Uniform(b, size)
  {
    if Uniform(a + b, size) {
      assert forall i | 0 <= i < |a| :: (a + b)[i] == a[i];
      assert forall i | 0 <= i < |b| :: (a + b)[|a| + i] == b[i];
    }
  }

  lemma {:induction false} ConcatAppend<T>(a: seq<seq<T>>, b: seq<seq<T>>)
    ensures Concat(a + b) == Concat(a) + Concat(b)
  {
    if a == [] {
      assert a + b == b;
    } else {
      ConcatAppend(a[1..], b);
      assert (a + b)[1..] == a[1..] + b;
      JoinAssociates(a[0], Concat(a[1..]), Concat(b));
    }
  }

  lemma JoinAssociates<T>(a: seq<T>, b: seq<T>, c: seq<T>)
    ensures (a + b) + c == a + (b + c)
  {
  }

  lemma ConcatOne<T>(t: seq<T>)
    ensures Concat([t]) == t
  {
  }

  lemma {:induction false} UniformLength<T>(ts: seq<seq<T>>, size: nat)
    requires Uniform(ts, size)
    ensures |Concat(ts)| == |ts| * size
  {
    if ts != [] {
      UniformLength(ts[1..], size);
      Distributes(size, 1, |ts| - 1);
    }
  }

  /** Joined rows of one size: the element of a row and column. */
  lemma {:induction false} ConcatAt<T>(ts: seq<seq<T>>, size: nat, b: nat, t: nat)
    requires Uniform(ts, size) && b < |ts| && t < size
    ensures 0 <= b * size + t < |Concat(ts)| && Concat(ts)[b * size + t] == ts[b][t]
  {
    if b > 0 {
      ConcatAt(ts[1..], size, b - 1, t);
      Distributes(size, b, -1);
    }
  }

  /** Cutting undoes joining when all pieces have the size. */
  lemma {:induction false} PiecesOfConcat<T>(ts: seq<seq<T>>, size: nat)
    requires Uniform(ts, size) && size > 0
    ensures Pieces(Concat(ts), size) == ts
  {
    if ts != [] {
      PiecesOfConcat(ts[1..], size);
      var t := Concat(ts);
      assert t[..size] == ts[0] && t[size..] == Concat(ts[1..]);
      if |ts| == 1 {
        assert ts == [ts[0]];
      } else {
        UniformLength(ts[1..], size);
        ProductMonotone(1, |ts| - 1, size);
        assert ts == [ts[0]] + ts[1..];
      }
    }
  }

  lemma {:induction false} PiecesUniform<T>(t: seq<T>, n: nat, size: nat)
    requires |t| == n * size && size > 0
    ensures |Pieces(t, size)| == n && Uniform(Pieces(t, size), size)
    decreases n
  {
    if n > 1 {
      Distributes(size, n - 1, 1);
      ProductMonotone(1, n - 1, size);
      PiecesUniform(t[size..], n - 1, size);
    }
  }

  /** The pieces are the slices at the multiples of the size. */
  lemma {:induction false} PieceIsSlice<T>(t: seq<T>, n: nat, size: nat, i: nat)
    requires |t| == n * size && size > 0 && i < n
    ensures |Pieces(t, size)| == n
    ensures 0 <= i * size <= (i + 1) * size <= |t|
    ensures Pieces(t, size)[i] == t[i * size..(i + 1) * size] == Slice(t, i * size, (i + 1) * size)
    decreases n
  {
    PiecesUniform(t, n, size);
    ProductMonotone(0, i, size);
    ProductMonotone(i, i + 1, size);
    ProductMonotone(i + 1, n, size);
    if i > 0 {
      Distributes(size, n - 1, 1);
      Distributes(size, i - 1, 1);
      Distributes(size, i, 1);
      ProductMonotone(1, n - 1, size);
      PieceIsSlice(t[size..], n - 1, size, i - 1);
    }
  }

  lemma ChunkOfMultiple<T>(t: seq<T>, n: nat, size: nat)
    requires |t| == n * size && size > 0 && n > 0
    ensures Chunk(t, n) == Pieces(t, size)
  {
    ProductMonotone(1, n, size);
    CeilDivIs(|t|, n, size);
    CeilDivIs(|t|, n, size - 1);
    Distributes(n, size, -1);
  }

  // ---------------------------------------------------------------- pieces of pieces

  function ConcatEach<T>(tss: seq<seq<seq<T>>>): seq<seq<T>> {
    seq(|tss|, i requires 0 <= i < |tss| => Concat(tss[i]))
  }

  lemma {:induction false} ConcatTwice<T>(tss: seq<seq<seq<T>>>)
    ensures Concat(ConcatEach(tss)) == Concat(Concat(tss))
  {
    if tss != [] {
      ConcatTwice(tss[1..]);
      assert ConcatEach(tss)[1..] == ConcatEach(tss[1..]);
      ConcatAppend(tss[0], Concat(tss[1..]));
    }
  }

  /** Cutting a joined list of n * m equal blocks into n pieces joins the blocks in runs of m. */
  lemma Regroup<T>(blocks: seq<seq<T>>, n: nat, m: nat, size: nat)
    requires Uniform(blocks, size) && size > 0 && m > 0 && |blocks| == n * m
    ensures m * size > 0
    ensures Pieces(Concat(blocks), m * size) == ConcatEach(Pieces(blocks, m))
    ensures |Pieces(blocks, m)| == n && Uniform(Pieces(blocks, m), m)
  {
    PiecesUniform(blocks, n, m);
    ProductMonotone(1, m, size);
    var groups := Pieces(blocks, m);
    assert Uniform(ConcatEach(groups), m * size) by {
      forall i | 0 <= i < n
        ensures |Concat(groups[i])| == m * size
      {
        PieceIsSlice(blocks, n, m, i);
        UniformLength(groups[i], size);
      }
    }
    ConcatTwice(groups);
    PiecesOfConcat(ConcatEach(groups), m * size);
  }
}
