/**
 The two loss paths of verl/trainer/fsdp_sft_trainer.py: over the padded batch, and over the tokens that
 unpad_input of verl/utils/npu_utils.py selects, padded back by pad_input.
 */
module PackedLoss {
  import opened Arithmetic
  import R = Reals
  import opened Tensors

  type Token = int

  /** Cross entropy of the logits at a position of the flattened batch against a label. */
  type Entropy = (nat, Token) -> real

  // ---------------------------------------------------------------- gather and scatter

  /** torch.nonzero of a mask. */
  function NonZero(mask: seq<bool>): seq<nat> {
    if mask == [] then []
    else
      var n := |mask| - 1;
      NonZero(mask[..n]) + if mask[n] then [n] else []
  }

  predicate Within(indices: seq<nat>, n: nat) {
    forall i | 0 <= i < |indices| :: indices[i] < n
  }

  predicate Increasing(indices: seq<nat>) {
    forall i, j | 0 <= i < j < |indices| :: indices[i] < indices[j]
  }

  predicate Distinct(indices: seq<nat>) {
    forall i, j | 0 <= i < j < |indices| :: indices[i] != indices[j]
  }

  lemma {:induction false} NonZeroIsWithin(mask: seq<bool>)
    ensures Within(NonZero(mask), |mask|)
    ensures forall i | 0 <= i < |NonZero(mask)| :: NonZero(mask)[i] < |mask| && mask[NonZero(mask)[i]]
  {
    if mask != [] {
      var n := |mask| - 1;
      var before := NonZero(mask[..n]);
      NonZeroIsWithin(mask[..n]);
      forall i | 0 <= i < |NonZero(mask)|
        ensures NonZero(mask)[i] < |mask| && mask[NonZero(mask)[i]]
      {
        if i < |before| {
          assert NonZero(mask)[i] == before[i] && mask[..n][before[i]] == mask[before[i]];
        }
      }
    }
  }

  lemma {:induction false} NonZeroIncreases(mask: seq<bool>)
    ensures Increasing(NonZero(mask))
  {
    if mask != [] {
      var n := |mask| - 1;
      NonZeroIncreases(mask[..n]);
      NonZeroIsWithin(mask[..n]);
    }
  }

  /** The number of selected positions before p, which is the place of p among them. */
  function PlaceOf(mask: seq<bool>, p: nat): nat
    requires p <= |mask|
  {
    |NonZero(mask[..p])|
  }

  lemma {:induction false} SelectedAt(mask: seq<bool>, p: nat)
    requires p < |mask| && mask[p]
    ensures PlaceOf(mask, p) < |NonZero(mask)| && NonZero(mask)[PlaceOf(mask, p)] == p
    ensures PlaceOf(mask, p + 1) == PlaceOf(mask, p) + 1
  {
    var n := |mask| - 1;
    assert mask[..p + 1][..p] == mask[..p];
    if p == n {
      assert mask[..p + 1] == mask;
    } else {
      SelectedAt(mask[..n], p);
      assert mask[..n][..p] == mask[..p];
    }
  }

  /** index_first_axis. */
  function Gather<T>(x: seq<T>, indices: seq<nat>): seq<T>
    requires Within(indices, |x|)
  {
    seq(|indices|, i requires 0 <= i < |indices| => x[indices[i]])
  }

  /** output[indices] = values on zeros. */
  ghost predicate IsScatter(out: seq<real>, values: seq<real>, indices: seq<nat>, n: nat)
    requires |values| == |indices|
  {
    && |out| == n && Within(indices, n)
    && (forall i | 0 <= i < |indices| :: out[indices[i]] == values[i])
    && (forall p | 0 <= p < n && p !in indices :: out[p] == 0.0)
  }

  /** index_put_first_axis, which writes the values into a new buffer of zeros. */
  method IndexPutFirstAxis(values: seq<real>, indices: seq<nat>, n: nat) returns (output: array<real>)
    requires |values| == |indices| && Within(indices, n) && Distinct(indices)
    ensures fresh(output) && IsScatter(output[..], values, indices, n)
  {
    output := new real[n](_ => 0.0);
    for i := 0 to |indices|
      invariant forall j | 0 <= j < i :: output[indices[j]] == values[j]
      invariant forall p | 0 <= p < n && p !in indices[..i] :: output[p] == 0.0
    {
      output[indices[i]] := values[i];
      assert indices[..i + 1] == indices[..i] + [indices[i]];
    }
    assert indices[..|indices|] == indices;
  }

  lemma ScatterIsUnique(out: seq<real>, out': seq<real>, values: seq<real>, indices: seq<nat>, n: nat)
    requires |values| == |indices|
    requires IsScatter(out, values, indices, n) && IsScatter(out', values, indices, n)
    ensures out == out'
  {
  }

  // ---------------------------------------------------------------- the padded path

  /** Every row has the sequence length. */
  predicate Shaped<T>(rows: seq<seq<T>>, batch: nat, seqlen: nat) {
    |rows| == batch && Uniform(rows, seqlen) && seqlen > 0
  }

  function Tails<T>(rows: seq<seq<T>>, seqlen: nat): (r: seq<seq<T>>)
    requires Uniform(rows, seqlen) && seqlen > 0
    ensures |r| == |rows| && Uniform(r, seqlen - 1)
  {
    seq(|rows|, b requires 0 <= b < |rows| => rows[b][1..])
  }

  function Fronts<T>(rows: seq<seq<T>>, seqlen: nat): (r: seq<seq<T>>)
    requires Uniform(rows, seqlen) && seqlen > 0
    ensures |r| == |rows| && Uniform(r, seqlen - 1)
  {
    seq(|rows|, b requires 0 <= b < |rows| => rows[b][..seqlen - 1])
  }

  /** x[:, 1:].reshape(-1). */
  function WithoutFirst<T>(rows: seq<seq<T>>, seqlen: nat): seq<T>
    requires Uniform(rows, seqlen) && seqlen > 0
  {
    Concat(Tails(rows, seqlen))
  }

  /** x[:, :-1].reshape(-1). */
  function WithoutLast<T>(rows: seq<seq<T>>, seqlen: nat): seq<T>
    requires Uniform(rows, seqlen) && seqlen > 0
  {
    Concat(Fronts(rows, seqlen))
  }

  /** The flattened positions of a row. */
  function Positions(b: nat, seqlen: nat): (r: seq<nat>)
    ensures |r| == seqlen
  {
    ProductMonotone(0, b, seqlen);
    seq(seqlen, t requires 0 <= t => b * seqlen + t)
  }

  function Elementwise(a: seq<real>, b: seq<real>): seq<real>
    requires |a| == |b|
  {
    seq(|a|, i requires 0 <= i < |a| => R.Product(a[i], b[i]))
  }

  /** loss_fct over flattened logits, which are named by their positions, and labels. */
  function Losses(ce: Entropy, positions: seq<nat>, labels: seq<Token>): seq<real>
    requires |positions| == |labels|
  {
    seq(|labels|, i requires 0 <= i < |labels| => ce(positions[i], labels[i]))
  }

  function AllPositions(batch: nat, seqlen: nat): (r: seq<seq<nat>>)
    ensures |r| == batch && Uniform(r, seqlen)
  {
    seq(batch, b requires 0 <= b => Positions(b, seqlen))
  }

  lemma ColumnsLength<T>(rows: seq<seq<T>>, seqlen: nat)
    requires Uniform(rows, seqlen) && seqlen > 0
    ensures |WithoutFirst(rows, seqlen)| == |WithoutLast(rows, seqlen)| == |rows| * (seqlen - 1)
  {
    UniformLength(Tails(rows, seqlen), seqlen - 1);
    UniformLength(Fronts(rows, seqlen), seqlen - 1);
  }

  /** The masked per-token losses without sequence parallelism. */
  function PaddedLoss(ce: Entropy, ids: seq<seq<Token>>, lossMask: seq<seq<real>>, batch: nat, seqlen: nat): seq<real>
    requires Shaped(ids, batch, seqlen) && Shaped(lossMask, batch, seqlen)
  {
    ColumnsLength(ids, seqlen);
    ColumnsLength(lossMask, seqlen);
    ColumnsLength(AllPositions(batch, seqlen), seqlen);
    Elementwise(Losses(ce, WithoutLast(AllPositions(batch, seqlen), seqlen), WithoutFirst(ids, seqlen)),
                WithoutFirst(lossMask, seqlen))
  }

  // ---------------------------------------------------------------- the packed path

  /** torch.roll by -1. */
  function Rolled<T>(x: seq<T>): (r: seq<T>)
    ensures |r| == |x|
  {
    if x == [] then [] else x[1..] + [x[0]]
  }

  /** The losses of the packed tokens, each against the next packed token. */
  function PackedLosses(ce: Entropy, ids: seq<Token>, mask: seq<bool>): (r: seq<real>)
    requires |ids| == |mask|
    ensures |r| == |NonZero(mask)|
  {
    NonZeroIsWithin(mask);
    Losses(ce, NonZero(mask), Rolled(Gather(ids, NonZero(mask))))
  }

  /** The masked losses after padding back, dropping the last column and flattening. */
  ghost predicate IsPackedLoss(r: seq<real>, ce: Entropy, ids: seq<seq<Token>>, attn: seq<seq<bool>>,
                               lossMask: seq<seq<real>>, batch: nat, seqlen: nat)
    requires Shaped(ids, batch, seqlen) && Shaped(attn, batch, seqlen) && Shaped(lossMask, batch, seqlen)
  {
    UniformLength(ids, seqlen);
    UniformLength(attn, seqlen);
    exists full: seq<real> ::
      && IsScatter(full, PackedLosses(ce, Concat(ids), Concat(attn)), NonZero(Concat(attn)), batch * seqlen)
      && r == FinishPacked(full, lossMask, batch, seqlen)
  }

  function FinishPacked(full: seq<real>, lossMask: seq<seq<real>>, batch: nat, seqlen: nat): seq<real>
    requires Shaped(lossMask, batch, seqlen) && |full| == batch * seqlen
  {
    PiecesUniform(full, batch, seqlen);
    ColumnsLength(Pieces(full, seqlen), seqlen);
    ColumnsLength(lossMask, seqlen);
    Elementwise(WithoutLast(Pieces(full, seqlen), seqlen), WithoutFirst(lossMask, seqlen))
  }

  /** The sequence-parallel branch of _compute_loss_and_backward up to the masked losses. */
  method PackedLoss(ce: Entropy, ids: seq<seq<Token>>, attn: seq<seq<bool>>, lossMask: seq<seq<real>>,
                    batch: nat, seqlen: nat) returns (r: seq<real>)
    requires Shaped(ids, batch, seqlen) && Shaped(attn, batch, seqlen) && Shaped(lossMask, batch, seqlen)
    ensures IsPackedLoss(r, ce, ids, attn, lossMask, batch, seqlen)
  {
    UniformLength(ids, seqlen);
    UniformLength(attn, seqlen);
    var mask := Concat(attn);
    NonZeroIsWithin(mask);
    NonZeroIncreases(mask);
    var indices := NonZero(mask);
    var packedIds := Gather(Concat(ids), indices);
    var loss := Losses(ce, indices, Rolled(packedIds));
    ProductMonotone(0, batch, seqlen);
    var output := IndexPutFirstAxis(loss, indices, batch * seqlen);
    r := FinishPacked(output[..], lossMask, batch, seqlen);
  }

  // ---------------------------------------------------------------- entry by entry

  /** The entry of the flattened losses for the token at row b and column t. */
  lemma ColumnAt<T>(rows: seq<seq<T>>, seqlen: nat, b: nat, t: nat)
    requires Uniform(rows, seqlen) && b < |rows| && t + 1 < seqlen
    ensures 0 <= b * (seqlen - 1) + t < |rows| * (seqlen - 1)
    ensures |WithoutFirst(rows, seqlen)| == |WithoutLast(rows, seqlen)| == |rows| * (seqlen - 1)
    ensures WithoutFirst(rows, seqlen)[b * (seqlen - 1) + t] == rows[b][t + 1]
    ensures WithoutLast(rows, seqlen)[b * (seqlen - 1) + t] == rows[b][t]
  {
    ColumnsLength(rows, seqlen);
    ConcatAt(Tails(rows, seqlen), seqlen - 1, b, t);
    ConcatAt(Fronts(rows, seqlen), seqlen - 1, b, t);
  }

  lemma PaddedAt(ce: Entropy, ids: seq<seq<Token>>, lossMask: seq<seq<real>>, batch: nat, seqlen: nat, b: nat, t: nat)
    requires Shaped(ids, batch, seqlen) && Shaped(lossMask, batch, seqlen) && b < batch && t + 1 < seqlen
    ensures 0 <= b * seqlen + t && 0 <= b * (seqlen - 1) + t < |PaddedLoss(ce, ids, lossMask, batch, seqlen)|
    ensures PaddedLoss(ce, ids, lossMask, batch, seqlen)[b * (seqlen - 1) + t] ==
            R.Product(ce(b * seqlen + t, ids[b][t + 1]), lossMask[b][t + 1])
  {
    ColumnAt(ids, seqlen, b, t);
    ColumnAt(lossMask, seqlen, b, t);
    ColumnAt(AllPositions(batch, seqlen), seqlen, b, t);
    assert AllPositions(batch, seqlen)[b][t] == b * seqlen + t;
  }

  lemma PackedAt(full: seq<real>, lossMask: seq<seq<real>>, batch: nat, seqlen: nat, b: nat, t: nat)
    requires Shaped(lossMask, batch, seqlen) && |full| == batch * seqlen && b < batch && t + 1 < seqlen
    ensures 0 <= b * seqlen + t < |full|
    ensures 0 <= b * (seqlen - 1) + t < |FinishPacked(full, lossMask, batch, seqlen)|
    ensures FinishPacked(full, lossMask, batch, seqlen)[b * (seqlen - 1) + t] ==
            R.Product(full[b * seqlen + t], lossMask[b][t + 1])
  {
    PiecesUniform(full, batch, seqlen);
    ColumnAt(Pieces(full, seqlen), seqlen, b, t);
    ColumnAt(lossMask, seqlen, b, t);
    ConcatAt(Pieces(full, seqlen), seqlen, b, t);
  }

  // ---------------------------------------------------------------- equality, entry by entry

  ghost predicate IsFull(full: seq<real>, ce: Entropy, ids: seq<Token>, mask: seq<bool>)
    requires |ids| == |mask|
  {
    IsScatter(full, PackedLosses(ce, ids, mask), NonZero(mask), |mask|)
  }

  /** The target after column t does not count, or its packed loss is the loss against it. */
  ghost predicate SameEntry(full: seq<real>, ce: Entropy, ids: seq<seq<Token>>, lossMask: seq<seq<real>>, b: nat, t: nat,
                            p: nat)
    requires b < |ids| && b < |lossMask| && t + 1 < |ids[b]| && t + 1 < |lossMask[b]|
  {
    p < |full| && (lossMask[b][t + 1] == 0.0 || full[p] == ce(p, ids[b][t + 1]))
  }

  ghost predicate SameEntries(full: seq<real>, ce: Entropy, ids: seq<seq<Token>>, lossMask: seq<seq<real>>, batch: nat,
                              seqlen: nat)
    requires Shaped(ids, batch, seqlen) && Shaped(lossMask, batch, seqlen)
  {
    forall b, t, p: nat | 0 <= b < batch && 0 <= t < seqlen - 1 && p == b * seqlen + t ::
      SameEntry(full, ce, ids, lossMask, b, t, p)
  }

  lemma LossIsSame(full: seq<real>, ce: Entropy, ids: seq<seq<Token>>, lossMask: seq<seq<real>>, batch: nat,
                   seqlen: nat, b: nat, t: nat, p: nat, j: nat)
    requires Shaped(ids, batch, seqlen) && Shaped(lossMask, batch, seqlen) && |full| == batch * seqlen
    requires b < batch && t + 1 < seqlen && p == b * seqlen + t && j == b * (seqlen - 1) + t
    ensures j < |FinishPacked(full, lossMask, batch, seqlen)| && j < |PaddedLoss(ce, ids, lossMask, batch, seqlen)|
    ensures FinishPacked(full, lossMask, batch, seqlen)[j] == PaddedLoss(ce, ids, lossMask, batch, seqlen)[j] <==>
            SameEntry(full, ce, ids, lossMask, b, t, p)
  {
    PaddedAt(ce, ids, lossMask, batch, seqlen, b, t);
    PackedAt(full, lossMask, batch, seqlen, b, t);
    hide FinishPacked, PaddedLoss;
    var mine, theirs, m := full[p], ce(p, ids[b][t + 1]), lossMask[b][t + 1];
    if m == 0.0 {
      R.ProductOfOne(mine);
      R.ProductOfOne(theirs);
    } else if R.Product(mine, m) == R.Product(theirs, m) {
      R.ProductCancels(mine, theirs, m);
    }
  }

  lemma FinishedLength(full: seq<real>, ce: Entropy, ids: seq<seq<Token>>, lossMask: seq<seq<real>>, batch: nat,
                       seqlen: nat)
    requires Shaped(ids, batch, seqlen) && Shaped(lossMask, batch, seqlen) && |full| == batch * seqlen
    ensures |FinishPacked(full, lossMask, batch, seqlen)| == batch * (seqlen - 1)
    ensures |PaddedLoss(ce, ids, lossMask, batch, seqlen)| == batch * (seqlen - 1)
  {
    PiecesUniform(full, batch, seqlen);
    ColumnsLength(Pieces(full, seqlen), seqlen);
    ColumnsLength(ids, seqlen);
  }

  lemma RowAndColumn(j: nat, rows: nat, width: nat) returns (b: nat, t: nat)
    requires j < rows * width
    ensures b < rows && t < width && j == b * width + t
  {
    if width == 0 {
      assert false;
    }
    b, t := j / width, j % width;
    if b >= rows {
      ProductMonotone(rows, b, width);
    }
  }

  lemma EqualEntries(full: seq<real>, ce: Entropy, ids: seq<seq<Token>>, lossMask: seq<seq<real>>, batch: nat, seqlen: nat)
    requires Shaped(ids, batch, seqlen) && Shaped(lossMask, batch, seqlen) && |full| == batch * seqlen
    requires SameEntries(full, ce, ids, lossMask, batch, seqlen)
    ensures FinishPacked(full, lossMask, batch, seqlen) == PaddedLoss(ce, ids, lossMask, batch, seqlen)
  {
    hide FinishPacked, PaddedLoss, SameEntry;
    FinishedLength(full, ce, ids, lossMask, batch, seqlen);
    forall j | 0 <= j < batch * (seqlen - 1)
      ensures FinishPacked(full, lossMask, batch, seqlen)[j] == PaddedLoss(ce, ids, lossMask, batch, seqlen)[j]
    {
      var b, t := RowAndColumn(j, batch, seqlen - 1);
      ProductMonotone(0, b, seqlen);
      LossIsSame(full, ce, ids, lossMask, batch, seqlen, b, t, b * seqlen + t, j);
    }
  }

  // ---------------------------------------------------------------- when every counted target is attended

  /** If the token after column t counts as a target, it is attended, and so is the one at t. */
  predicate TargetCovered(attn: seq<seq<bool>>, lossMask: seq<seq<real>>, b: nat, t: nat)
    requires b < |attn| && b < |lossMask| && t + 1 < |attn[b]| && t + 1 < |lossMask[b]|
  {
    lossMask[b][t + 1] != 0.0 ==> attn[b][t] && attn[b][t + 1]
  }

  ghost predicate Covered(attn: seq<seq<bool>>, lossMask: seq<seq<real>>, batch: nat, seqlen: nat)
    requires Shaped(attn, batch, seqlen) && Shaped(lossMask, batch, seqlen)
  {
    forall b, t | 0 <= b < batch && 0 <= t < seqlen - 1 :: TargetCovered(attn, lossMask, b, t)
  }

  /** The token that an attended token's packed loss is taken against. */
  lemma NextAttended(ce: Entropy, ids: seq<Token>, mask: seq<bool>, p: nat) returns (q: nat)
    requires |ids| == |mask| && p + 1 < |mask| && mask[p]
    ensures q < |mask| && mask[q] && (mask[p + 1] ==> q == p + 1)
    ensures var k := PlaceOf(mask, p);
            k < |NonZero(mask)| && NonZero(mask)[k] == p && PackedLosses(ce, ids, mask)[k] == ce(p, ids[q])
  {
    SelectedAt(mask, p);
    if mask[p + 1] {
      SelectedAt(mask, p + 1);
    }
    NonZeroIsWithin(mask);
    hide PlaceOf, NonZero;
    var k, indices := PlaceOf(mask, p), NonZero(mask);
    var next := if k + 1 < |indices| then k + 1 else 0;
    q := indices[next];
    RolledAt(Gather(ids, indices), k);
  }

  lemma RolledAt<T>(x: seq<T>, k: nat)
    requires k < |x|
    ensures Rolled(x)[k] == x[if k + 1 < |x| then k + 1 else 0]
  {
  }

  /** The loss of an attended token is taken against the next attended one, which may come later or wrap around. */
  lemma AttendedLoss(full: seq<real>, ce: Entropy, ids: seq<Token>, mask: seq<bool>, p: nat) returns (q: nat)
    requires |ids| == |mask| && IsFull(full, ce, ids, mask) && p + 1 < |mask| && mask[p]
    ensures p < |full| && q < |mask| && mask[q] && full[p] == ce(p, ids[q])
    ensures mask[p + 1] ==> q == p + 1
  {
    hide PackedLosses, NonZero, PlaceOf;
    q := NextAttended(ce, ids, mask, p);
  }

  lemma UnattendedLoss(full: seq<real>, ce: Entropy, ids: seq<Token>, mask: seq<bool>, p: nat)
    requires |ids| == |mask| && IsFull(full, ce, ids, mask) && p < |mask| && !mask[p]
    ensures p < |full| && full[p] == 0.0
  {
    NonZeroIsWithin(mask);
    if p in NonZero(mask) {
      assert false;
    }
  }

  lemma FlatAt<T>(rows: seq<seq<T>>, seqlen: nat, b: nat, t: nat, p: nat)
    requires Uniform(rows, seqlen) && b < |rows| && t < seqlen && p == b * seqlen + t
    ensures p < |Concat(rows)| && Concat(rows)[p] == rows[b][t]
  {
    ConcatAt(rows, seqlen, b, t);
  }

  /** Three entries of the flattened batch. */
  lemma FlatEntries(ids: seq<seq<Token>>, attn: seq<seq<bool>>, batch: nat, seqlen: nat, b: nat, t: nat, p: nat)
    requires Shaped(ids, batch, seqlen) && Shaped(attn, batch, seqlen) && b < batch && t + 1 < seqlen
    requires p == b * seqlen + t
    ensures |Concat(ids)| == |Concat(attn)| == batch * seqlen && p + 1 < |Concat(ids)|
    ensures Concat(attn)[p] == attn[b][t] && Concat(attn)[p + 1] == attn[b][t + 1]
    ensures Concat(ids)[p + 1] == ids[b][t + 1]
  {
    UniformLength(ids, seqlen);
    UniformLength(attn, seqlen);
    FlatAt(attn, seqlen, b, t, p);
    FlatAt(attn, seqlen, b, t + 1, p + 1);
    FlatAt(ids, seqlen, b, t + 1, p + 1);
  }

  lemma CoveredEntry(full: seq<real>, ce: Entropy, ids: seq<seq<Token>>, attn: seq<seq<bool>>, lossMask: seq<seq<real>>,
                     batch: nat, seqlen: nat, b: nat, t: nat, p: nat)
    requires Shaped(ids, batch, seqlen) && Shaped(attn, batch, seqlen) && Shaped(lossMask, batch, seqlen)
    requires |Concat(ids)| == |Concat(attn)| && IsFull(full, ce, Concat(ids), Concat(attn)) && |full| == batch * seqlen
    requires b < batch && t + 1 < seqlen && p == b * seqlen + t && TargetCovered(attn, lossMask, b, t)
    ensures SameEntry(full, ce, ids, lossMask, b, t, p)
  {
    FlatEntries(ids, attn, batch, seqlen, b, t, p);
    hide Concat, IsFull;
    if lossMask[b][t + 1] != 0.0 {
      var q := AttendedLoss(full, ce, Concat(ids), Concat(attn), p);
    }
  }

  /** The buffer that a packed loss is read from. */
  lemma FullOf(r: seq<real>, ce: Entropy, ids: seq<seq<Token>>, attn: seq<seq<bool>>, lossMask: seq<seq<real>>, batch: nat,
               seqlen: nat) returns (full: seq<real>)
    requires Shaped(ids, batch, seqlen) && Shaped(attn, batch, seqlen) && Shaped(lossMask, batch, seqlen)
    requires IsPackedLoss(r, ce, ids, attn, lossMask, batch, seqlen)
    ensures |Concat(ids)| == |Concat(attn)| == |full| == batch * seqlen
    ensures IsFull(full, ce, Concat(ids), Concat(attn)) && r == FinishPacked(full, lossMask, batch, seqlen)
  {
    UniformLength(ids, seqlen);
    UniformLength(attn, seqlen);
    hide FinishPacked, Concat;
    full :| IsScatter(full, PackedLosses(ce, Concat(ids), Concat(attn)), NonZero(Concat(attn)), batch * seqlen)
            && r == FinishPacked(full, lossMask, batch, seqlen);
  }

  /** Packing changes nothing when the loss mask only asks for covered targets. */
  lemma PackedEqualsPadded(r: seq<real>, ce: Entropy, ids: seq<seq<Token>>, attn: seq<seq<bool>>,
                           lossMask: seq<seq<real>>, batch: nat, seqlen: nat)
    requires Shaped(ids, batch, seqlen) && Shaped(attn, batch, seqlen) && Shaped(lossMask, batch, seqlen)
    requires Covered(attn, lossMask, batch, seqlen) && IsPackedLoss(r, ce, ids, attn, lossMask, batch, seqlen)
    ensures r == PaddedLoss(ce, ids, lossMask, batch, seqlen)
  {
    hide PaddedLoss, FinishPacked, Concat, IsFull, IsPackedLoss, SameEntry;
    var full := FullOf(r, ce, ids, attn, lossMask, batch, seqlen);
    forall b, t, p: nat | 0 <= b < batch && 0 <= t < seqlen - 1 && p == b * seqlen + t
      ensures SameEntry(full, ce, ids, lossMask, b, t, p)
    {
      CoveredEntry(full, ce, ids, attn, lossMask, batch, seqlen, b, t, p);
    }
    EqualEntries(full, ce, ids, lossMask, batch, seqlen);
  }

  // ---------------------------------------------------------------- exactly when

  /** The tokens are below the vocabulary size. */
  ghost predicate InVocabulary(ids: seq<seq<Token>>, vocab: nat) {
    forall b, t | 0 <= b < |ids| && 0 <= t < |ids[b]| :: 0 <= ids[b][t] < vocab
  }

  /** All tokens have the same loss at a position. */
  ghost predicate Constant(ce: Entropy, vocab: nat, p: nat) {
    forall x, y: Token | 0 <= x < vocab && 0 <= y < vocab :: ce(p, x) == ce(p, y)
  }

  /** All tokens have no loss at a position. */
  ghost predicate Zero(ce: Entropy, vocab: nat, p: nat) {
    forall x: Token | 0 <= x < vocab :: ce(p, x) == 0.0
  }

  /** The target counts only if the loss cannot tell it from what the packed path puts in its place. */
  ghost predicate Harmless(ce: Entropy, vocab: nat, attn: seq<seq<bool>>, lossMask: seq<seq<real>>, b: nat, t: nat, p: nat)
    requires b < |attn| && b < |lossMask| && t + 1 < |attn[b]| && t + 1 < |lossMask[b]|
  {
    lossMask[b][t + 1] != 0.0 ==>
      if attn[b][t] then attn[b][t + 1] || Constant(ce, vocab, p) else Zero(ce, vocab, p)
  }

  ghost predicate AllHarmless(ce: Entropy, vocab: nat, attn: seq<seq<bool>>, lossMask: seq<seq<real>>, batch: nat,
                              seqlen: nat)
    requires Shaped(attn, batch, seqlen) && Shaped(lossMask, batch, seqlen)
  {
    forall b, t, p: nat | 0 <= b < batch && 0 <= t < seqlen - 1 && p == b * seqlen + t ::
      Harmless(ce, vocab, attn, lossMask, b, t, p)
  }

  /** For one loss, that is for fixed logits, and these masks the two paths give the same losses of all tokens. */
  ghost predicate SameLoss(ce: Entropy, vocab: nat, attn: seq<seq<bool>>, lossMask: seq<seq<real>>, batch: nat, seqlen: nat)
    requires Shaped(attn, batch, seqlen) && Shaped(lossMask, batch, seqlen)
  {
    forall ids, r | Shaped(ids, batch, seqlen) && InVocabulary(ids, vocab)
                    && IsPackedLoss(r, ce, ids, attn, lossMask, batch, seqlen) ::
      r == PaddedLoss(ce, ids, lossMask, batch, seqlen)
  }

  lemma FlatInVocabulary(ids: seq<seq<Token>>, vocab: nat, batch: nat, seqlen: nat, q: nat)
    requires Shaped(ids, batch, seqlen) && InVocabulary(ids, vocab) && q < |Concat(ids)|
    ensures 0 <= Concat(ids)[q] < vocab
  {
    UniformLength(ids, seqlen);
    var b, t := RowAndColumn(q, batch, seqlen);
    FlatAt(ids, seqlen, b, t, q);
  }

  lemma HarmlessEntry(full: seq<real>, ce: Entropy, vocab: nat, ids: seq<seq<Token>>, attn: seq<seq<bool>>,
                      lossMask: seq<seq<real>>, batch: nat, seqlen: nat, b: nat, t: nat, p: nat)
    requires Shaped(ids, batch, seqlen) && Shaped(attn, batch, seqlen) && Shaped(lossMask, batch, seqlen)
    requires InVocabulary(ids, vocab) && |full| == batch * seqlen
    requires |Concat(ids)| == |Concat(attn)| && IsFull(full, ce, Concat(ids), Concat(attn))
    requires b < batch && t + 1 < seqlen && p == b * seqlen + t && Harmless(ce, vocab, attn, lossMask, b, t, p)
    ensures SameEntry(full, ce, ids, lossMask, b, t, p)
  {
    FlatEntries(ids, attn, batch, seqlen, b, t, p);
    hide Concat, IsFull;
    if lossMask[b][t + 1] != 0.0 {
      if attn[b][t] {
        var q := AttendedLoss(full, ce, Concat(ids), Concat(attn), p);
        FlatInVocabulary(ids, vocab, batch, seqlen, q);
      } else {
        UnattendedLoss(full, ce, Concat(ids), Concat(attn), p);
      }
    }
  }

  lemma HarmlessIsSame(r: seq<real>, ce: Entropy, vocab: nat, ids: seq<seq<Token>>, attn: seq<seq<bool>>,
                       lossMask: seq<seq<real>>, batch: nat, seqlen: nat)
    requires Shaped(ids, batch, seqlen) && Shaped(attn, batch, seqlen) && Shaped(lossMask, batch, seqlen)
    requires InVocabulary(ids, vocab) && AllHarmless(ce, vocab, attn, lossMask, batch, seqlen)
    requires IsPackedLoss(r, ce, ids, attn, lossMask, batch, seqlen)
    ensures r == PaddedLoss(ce, ids, lossMask, batch, seqlen)
  {
    hide PaddedLoss, FinishPacked, Concat, IsFull, IsPackedLoss, SameEntry, Harmless;
    var full := FullOf(r, ce, ids, attn, lossMask, batch, seqlen);
    forall b, t, p: nat | 0 <= b < batch && 0 <= t < seqlen - 1 && p == b * seqlen + t
      ensures SameEntry(full, ce, ids, lossMask, b, t, p)
    {
      HarmlessEntry(full, ce, vocab, ids, attn, lossMask, batch, seqlen, b, t, p);
    }
    EqualEntries(full, ce, ids, lossMask, batch, seqlen);
  }

  /** A batch of one token, but for one place. */
  function OneOther(batch: nat, seqlen: nat, b: nat, t: nat, x: Token, y: Token): (ids: seq<seq<Token>>)
    ensures |ids| == batch && Uniform(ids, seqlen)
  {
    seq(batch, i requires 0 <= i => seq(seqlen, j requires 0 <= j => if i == b && j == t then x else y))
  }

  lemma OneOtherHas(batch: nat, seqlen: nat, b: nat, t: nat, x: Token, y: Token)
    requires b < batch && t < seqlen
    ensures OneOther(batch, seqlen, b, t, x, y)[b][t] == x
  {
  }

  lemma OneOtherAt(batch: nat, seqlen: nat, b: nat, t: nat, x: Token, y: Token, q: nat)
    requires q < |Concat(OneOther(batch, seqlen, b, t, x, y))| && q != b * seqlen + t
    ensures Concat(OneOther(batch, seqlen, b, t, x, y))[q] == y
  {
    var ids := OneOther(batch, seqlen, b, t, x, y);
    UniformLength(ids, seqlen);
    var b', t' := RowAndColumn(q, batch, seqlen);
    FlatAt(ids, seqlen, b', t', q);
  }

  lemma UncoveredEntry(full: seq<real>, ce: Entropy, attn: seq<seq<bool>>, batch: nat, seqlen: nat, b: nat, t: nat,
                       p: nat, x: Token, y: Token)
    requires Shaped(attn, batch, seqlen) && b < batch && t + 1 < seqlen && p == b * seqlen + t
    requires ce(p, x) != (if attn[b][t] then ce(p, y) else 0.0) && (attn[b][t] ==> !attn[b][t + 1])
    requires var ids := OneOther(batch, seqlen, b, t + 1, x, y);
             |Concat(ids)| == |Concat(attn)| && IsFull(full, ce, Concat(ids), Concat(attn))
    ensures p < |full| && full[p] != ce(p, x)
  {
    hide OneOther, IsFull, Concat;
    var ids := OneOther(batch, seqlen, b, t + 1, x, y);
    OneOtherHas(batch, seqlen, b, t + 1, x, y);
    FlatEntries(ids, attn, batch, seqlen, b, t, p);
    if attn[b][t] {
      var q := AttendedLoss(full, ce, Concat(ids), Concat(attn), p);
      OneOtherAt(batch, seqlen, b, t + 1, x, y, q);
    } else {
      UnattendedLoss(full, ce, Concat(ids), Concat(attn), p);
    }
  }

  /**
   A target that counts, but is not attended or follows a token that is not: with the token x as that target and y
   everywhere else, the packed loss is not the padded one, if the loss of x is neither that of y nor zero.
   */
  lemma UncoveredDiffers(r: seq<real>, ce: Entropy, attn: seq<seq<bool>>, lossMask: seq<seq<real>>, batch: nat,
                         seqlen: nat, b: nat, t: nat, p: nat, x: Token, y: Token)
    requires Shaped(attn, batch, seqlen) && Shaped(lossMask, batch, seqlen) && b < batch && t + 1 < seqlen
    requires lossMask[b][t + 1] != 0.0 && p == b * seqlen + t
    requires ce(p, x) != (if attn[b][t] then ce(p, y) else 0.0) && (attn[b][t] ==> !attn[b][t + 1])
    requires IsPackedLoss(r, ce, OneOther(batch, seqlen, b, t + 1, x, y), attn, lossMask, batch, seqlen)
    ensures r != PaddedLoss(ce, OneOther(batch, seqlen, b, t + 1, x, y), lossMask, batch, seqlen)
  {
    hide OneOther, PaddedLoss, FinishPacked, IsPackedLoss, IsFull, Concat;
    var ids := OneOther(batch, seqlen, b, t + 1, x, y);
    OneOtherHas(batch, seqlen, b, t + 1, x, y);
    var full := FullOf(r, ce, ids, attn, lossMask, batch, seqlen);
    UncoveredEntry(full, ce, attn, batch, seqlen, b, t, p, x, y);
    ProductMonotone(0, b, seqlen - 1);
    LossIsSame(full, ce, ids, lossMask, batch, seqlen, b, t, p, b * (seqlen - 1) + t);
  }

  /** Some loss of the packed path: the scatter always exists. */
  lemma PackedLossExists(ce: Entropy, ids: seq<seq<Token>>, attn: seq<seq<bool>>, lossMask: seq<seq<real>>,
                         batch: nat, seqlen: nat) returns (r: seq<real>)
    requires Shaped(ids, batch, seqlen) && Shaped(attn, batch, seqlen) && Shaped(lossMask, batch, seqlen)
    ensures IsPackedLoss(r, ce, ids, attn, lossMask, batch, seqlen)
  {
    UniformLength(ids, seqlen);
    UniformLength(attn, seqlen);
    var values, indices := PackedLosses(ce, Concat(ids), Concat(attn)), NonZero(Concat(attn));
    NonZeroIsWithin(Concat(attn));
    NonZeroIncreases(Concat(attn));
    var full := ScatterExists(values, indices, batch * seqlen, |indices|);
    assert indices[..|indices|] == indices && values[..|indices|] == values;
    r := FinishPacked(full, lossMask, batch, seqlen);
  }

  lemma {:induction false} ScatterExists(values: seq<real>, indices: seq<nat>, n: nat, k: nat) returns (out: seq<real>)
    requires |values| == |indices| && Within(indices, n) && Increasing(indices) && k <= |indices|
    ensures IsScatter(out, values[..k], indices[..k], n)
  {
    if k == 0 {
      out := seq(n, _ => 0.0);
    } else {
      var before := ScatterExists(values, indices, n, k - 1);
      out := before[indices[k - 1] := values[k - 1]];
      assert indices[..k] == indices[..k - 1] + [indices[k - 1]];
    }
  }

  lemma SameIsHarmless(ce: Entropy, vocab: nat, attn: seq<seq<bool>>, lossMask: seq<seq<real>>, batch: nat, seqlen: nat,
                       b: nat, t: nat, p: nat)
    requires Shaped(attn, batch, seqlen) && Shaped(lossMask, batch, seqlen) && b < batch && t + 1 < seqlen
    requires p == b * seqlen + t && SameLoss(ce, vocab, attn, lossMask, batch, seqlen)
    ensures Harmless(ce, vocab, attn, lossMask, b, t, p)
  {
    if !Harmless(ce, vocab, attn, lossMask, b, t, p) {
      var x, y: Token :| 0 <= x < vocab && 0 <= y < vocab && ce(p, x) != (if attn[b][t] then ce(p, y) else 0.0);
      var ids := OneOther(batch, seqlen, b, t + 1, x, y);
      assert InVocabulary(ids, vocab);
      hide OneOther, PaddedLoss, IsPackedLoss;
      var r := PackedLossExists(ce, ids, attn, lossMask, batch, seqlen);
      UncoveredDiffers(r, ce, attn, lossMask, batch, seqlen, b, t, p, x, y);
    }
  }

  /** For every loss: packing is exact for the masks of a batch if and only if every target is harmless. */
  lemma SameExactlyWhenHarmless(ce: Entropy, vocab: nat, attn: seq<seq<bool>>, lossMask: seq<seq<real>>, batch: nat,
                                seqlen: nat)
    requires Shaped(attn, batch, seqlen) && Shaped(lossMask, batch, seqlen)
    ensures SameLoss(ce, vocab, attn, lossMask, batch, seqlen) <==>
            AllHarmless(ce, vocab, attn, lossMask, batch, seqlen)
  {
    hide PaddedLoss, IsPackedLoss, Harmless;
    if AllHarmless(ce, vocab, attn, lossMask, batch, seqlen) {
      forall ids, r | Shaped(ids, batch, seqlen) && InVocabulary(ids, vocab)
                      && IsPackedLoss(r, ce, ids, attn, lossMask, batch, seqlen)
        ensures r == PaddedLoss(ce, ids, lossMask, batch, seqlen)
      {
        HarmlessIsSame(r, ce, vocab, ids, attn, lossMask, batch, seqlen);
      }
    }
    if SameLoss(ce, vocab, attn, lossMask, batch, seqlen) {
      forall b, t, p: nat | 0 <= b < batch && 0 <= t < seqlen - 1 && p == b * seqlen + t
        ensures Harmless(ce, vocab, attn, lossMask, b, t, p)
      {
        SameIsHarmless(ce, vocab, attn, lossMask, batch, seqlen, b, t, p);
      }
    }
  }

  // ---------------------------------------------------------------- cross entropy

  /**
   The cross entropy of logits over at least two tokens: positive, and different for two tokens by the difference of
   their logits.
   */
  ghost predicate IsCrossEntropy(ce: Entropy, logits: (nat, Token) -> real, vocab: nat) {
    && vocab >= 2
    && (forall p: nat, x: Token | 0 <= x < vocab :: ce(p, x) > 0.0)
    && (forall p: nat, x: Token, y: Token | 0 <= x < vocab && 0 <= y < vocab ::
          ce(p, x) - ce(p, y) == logits(p, y) - logits(p, x))
  }

  ghost predicate UsefulTargets(logits: (nat, Token) -> real, vocab: nat, attn: seq<seq<bool>>, lossMask: seq<seq<real>>,
                                batch: nat, seqlen: nat)
    requires Shaped(attn, batch, seqlen) && Shaped(lossMask, batch, seqlen)
  {
    forall b, t, p: nat | 0 <= b < batch && 0 <= t < seqlen - 1 && p == b * seqlen + t ::
      UsefulTarget(logits, vocab, attn, lossMask, b, t, p)
  }

  /** A target that counts follows an attended token, and is attended or predicted by logits that are all equal. */
  ghost predicate UsefulTarget(logits: (nat, Token) -> real, vocab: nat, attn: seq<seq<bool>>, lossMask: seq<seq<real>>,
                                b: nat, t: nat, p: nat)
    requires b < |attn| && b < |lossMask| && t + 1 < |attn[b]| && t + 1 < |lossMask[b]|
  {
    lossMask[b][t + 1] != 0.0 ==> attn[b][t] && (attn[b][t + 1] || Constant(logits, vocab, p))
  }

  lemma HarmlessForCrossEntropy(ce: Entropy, logits: (nat, Token) -> real, vocab: nat, attn: seq<seq<bool>>,
                                lossMask: seq<seq<real>>, b: nat, t: nat, p: nat)
    requires b < |attn| && b < |lossMask| && t + 1 < |attn[b]| && t + 1 < |lossMask[b]|
    requires IsCrossEntropy(ce, logits, vocab)
    ensures Harmless(ce, vocab, attn, lossMask, b, t, p) <==> UsefulTarget(logits, vocab, attn, lossMask, b, t, p)
  {
    assert ce(p, 0) > 0.0;
    assert Constant(ce, vocab, p) <==> Constant(logits, vocab, p) by {
      assert forall x, y: Token | 0 <= x < vocab && 0 <= y < vocab :: ce(p, x) - ce(p, y) == logits(p, y) - logits(p, x);
    }
  }

  /**
   For any logits: the two paths agree on all tokens if and only if every target that counts follows an attended
   token, and is attended itself or predicted by logits that are all equal.
   */
  lemma SameExactlyForLogits(ce: Entropy, logits: (nat, Token) -> real, vocab: nat, attn: seq<seq<bool>>,
                             lossMask: seq<seq<real>>, batch: nat, seqlen: nat)
    requires |attn| == |lossMask| == batch && Uniform(attn, seqlen) && Uniform(lossMask, seqlen) && seqlen > 0
    requires IsCrossEntropy(ce, logits, vocab)
    ensures SameLoss(ce, vocab, attn, lossMask, batch, seqlen) <==>
            UsefulTargets(logits, vocab, attn, lossMask, batch, seqlen)
  {
    SameExactlyWhenHarmless(ce, vocab, attn, lossMask, batch, seqlen);
    hide Harmless, UsefulTarget, SameLoss, IsCrossEntropy;
    forall b, t, p: nat | 0 <= b < batch && 0 <= t < seqlen - 1 && p == b * seqlen + t
      ensures Harmless(ce, vocab, attn, lossMask, b, t, p) <==> UsefulTarget(logits, vocab, attn, lossMask, b, t, p)
    {
      HarmlessForCrossEntropy(ce, logits, vocab, attn, lossMask, b, t, p);
    }
  }

  /** No position of the batch has all logits equal. */
  ghost predicate Separates(logits: (nat, Token) -> real, vocab: nat, batch: nat, seqlen: nat) {
    forall p: nat | p < batch * seqlen :: !Constant(logits, vocab, p)
  }

  /** So unless logits are all equal somewhere, they agree if and only if every target that counts is covered. */
  lemma SameExactlyWhenCovered(ce: Entropy, logits: (nat, Token) -> real, vocab: nat, attn: seq<seq<bool>>,
                               lossMask: seq<seq<real>>, batch: nat, seqlen: nat)
    requires Shaped(attn, batch, seqlen) && Shaped(lossMask, batch, seqlen)
    requires IsCrossEntropy(ce, logits, vocab) && Separates(logits, vocab, batch, seqlen)
    ensures SameLoss(ce, vocab, attn, lossMask, batch, seqlen) <==> Covered(attn, lossMask, batch, seqlen)
  {
    SameExactlyForLogits(ce, logits, vocab, attn, lossMask, batch, seqlen);
    hide SameLoss, IsCrossEntropy, Constant;
    forall b, t, p: nat | 0 <= b < batch && 0 <= t < seqlen - 1 && p == b * seqlen + t
      ensures UsefulTarget(logits, vocab, attn, lossMask, b, t, p) <==> TargetCovered(attn, lossMask, b, t)
    {
      ProductMonotone(b + 1, batch, seqlen);
      Distributes(seqlen, b, 1);
    }
    forall b, t | 0 <= b < batch && 0 <= t < seqlen - 1 && UsefulTargets(logits, vocab, attn, lossMask, batch, seqlen)
      ensures TargetCovered(attn, lossMask, b, t)
    {
      ProductMonotone(0, b, seqlen);
      var p: nat := b * seqlen + t;
      assert UsefulTarget(logits, vocab, attn, lossMask, b, t, p);
    }
  }
}
