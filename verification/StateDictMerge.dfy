/**
 What the checkpoint mergers make of the parameters of the model chunks themselves, and when that is the model
 that was cut into the chunks.
 */
module StateDictMerge {
  import opened Wrappers
  import opened CheckpointEntries
  import opened Partition
  import opened LayerOffsets
  import opened CheckpointMerge

  // ---------------------------------------------------------------- what the parameters become

  /** The largest layer number of a chunk's parameters, or 0. */
  ghost predicate IsTopLayer(d: Chunk, top: nat) {
    && (forall n | n in d && n.InLayer? :: n.layer <= top)
    && (top == 0 || exists n :: n in d && n.InLayer? && n.layer == top)
  }

  /** The layer numbers that the chunks start at: each is one more than the largest layer before it. */
  ghost predicate LayerCounts(chunks: seq<Chunk>, start: nat, cums: seq<nat>) {
    && |cums| == |chunks| + 1 && cums[0] == start
    && forall c | 0 <= c < |chunks| :: cums[c] < cums[c + 1] && IsTopLayer(chunks[c], cums[c + 1] - cums[c] - 1)
  }

  /** Every part of every parameter in a layer is there under its own layer number. */
  ghost predicate LayersMerged(chunks: seq<Chunk>, cums: seq<nat>, m: Dict)
    requires |cums| == |chunks| + 1
  {
    forall c, n, part | 0 <= c < |chunks| && n in chunks[c] && n.InLayer? && part in PartsOf(chunks[c][n]) ::
      var key := Layer(n.layer + cums[c], Component(n.id, part));
      key in m && m[key] == PartsOf(chunks[c][n])[part]
  }

  /** No later chunk has the part of the parameter. */
  ghost predicate NoneLater(chunks: seq<Chunk>, c: nat, n: Name, part: Part)
    requires c < |chunks|
  {
    forall later | c < later < |chunks| :: !(n in chunks[later] && part in PartsOf(chunks[later][n]))
  }

  /** The last one of every parameter outside the layers is there, but for an output layer with tied embeddings. */
  ghost predicate OthersMerged(chunks: seq<Chunk>, tied: bool, m: Dict) {
    forall c, n, part | 0 <= c < |chunks| && n in chunks[c] && n.Outside? && part in PartsOf(chunks[c][n])
                        && !(tied && n == OUTPUT_LAYER) && NoneLater(chunks, c, n, part) ::
      var key := Global(Component(n.id, part));
      key in m && m[key] == PartsOf(chunks[c][n])[part]
  }

  /** Some parameter has the part that the key stands for. */
  ghost predicate HasSource(chunks: seq<Chunk>, tied: bool, cums: seq<nat>, key: Key)
    requires |cums| == |chunks| + 1
  {
    exists c | 0 <= c < |chunks| ::
      match key
      case Layer(l, comp) =>
        cums[c] <= l && InLayer(l - cums[c], comp.id) in chunks[c]
        && comp.part in PartsOf(chunks[c][InLayer(l - cums[c], comp.id)])
      case Global(comp) =>
        !(tied && Outside(comp.id) == OUTPUT_LAYER) && Outside(comp.id) in chunks[c]
        && comp.part in PartsOf(chunks[c][Outside(comp.id)])
  }

  ghost predicate DirectlyMerged(chunks: seq<Chunk>, tied: bool, cums: seq<nat>, m: Dict)
    requires |cums| == |chunks| + 1
  {
    && LayersMerged(chunks, cums, m) && OthersMerged(chunks, tied, m)
    && forall key | key in m :: HasSource(chunks, tied, cums, key)
  }

  // ---------------------------------------------------------------- from entries to parameters

  lemma SomePart(p: Pieces) returns (part: Part)
    ensures part in PartsOf(p)
  {
    part := match p case Whole(_) => Plain case GateUp(_, _) => Gate case Qkv(_, _, _) => Q;
  }

  lemma TopOfEntries(d: Chunk, tied: bool, top: nat)
    requires IsTop(Entries(d, tied), top)
    ensures IsTopLayer(d, top)
  {
    hide Entries;
    forall n | n in d && n.InLayer?
      ensures n.layer <= top
    {
      var part := SomePart(d[n]);
      assert HasEntry(d, tied, Layer(n.layer, Component(n.id, part)));
    }
    if top > 0 {
      var k :| k in Entries(d, tied) && k.Layer? && k.layer == top;
      assert HasEntry(d, tied, k);
    }
  }

  lemma CountsOfEntries(chunks: seq<Chunk>, tied: bool, start: nat, cums: seq<nat>)
    requires |cums| == |chunks| + 1 && cums[0] == start && RunningCounts(AllEntries(chunks, tied), cums, |chunks|)
    ensures LayerCounts(chunks, start, cums)
  {
    hide Entries, AreEntries, IsTop, IsTopLayer;
    forall c | 0 <= c < |chunks|
      ensures cums[c] < cums[c + 1] && IsTopLayer(chunks[c], cums[c + 1] - cums[c] - 1)
    {
      TopOfEntries(chunks[c], tied, cums[c + 1] - cums[c] - 1);
    }
  }

  lemma LayersOfEntries(chunks: seq<Chunk>, tied: bool, cums: seq<nat>, m: Dict)
    requires |cums| == |chunks| + 1 && LayersKept(AllEntries(chunks, tied), cums, |chunks|, m)
    ensures LayersMerged(chunks, cums, m)
  {
    hide Entries;
    forall c, n, part | 0 <= c < |chunks| && n in chunks[c] && n.InLayer? && part in PartsOf(chunks[c][n])
      ensures Layer(n.layer + cums[c], Component(n.id, part)) in m
      ensures m[Layer(n.layer + cums[c], Component(n.id, part))] == PartsOf(chunks[c][n])[part]
    {
      var k := Layer(n.layer, Component(n.id, part));
      assert HasEntry(chunks[c], tied, k) && k in AllEntries(chunks, tied)[c];
      assert Shifted(k, cums[c]) in m;
    }
  }

  lemma OthersOfEntries(chunks: seq<Chunk>, tied: bool, m: Dict)
    requires LastGlobalsKept(AllEntries(chunks, tied), |chunks|, m)
    ensures OthersMerged(chunks, tied, m)
  {
    hide Entries;
    var entries := AllEntries(chunks, tied);
    forall c, n, part | 0 <= c < |chunks| && n in chunks[c] && n.Outside? && part in PartsOf(chunks[c][n])
                        && !(tied && n == OUTPUT_LAYER) && NoneLater(chunks, c, n, part)
      ensures Global(Component(n.id, part)) in m && m[Global(Component(n.id, part))] == PartsOf(chunks[c][n])[part]
    {
      var k := Global(Component(n.id, part));
      assert HasEntry(chunks[c], tied, k) && k in entries[c];
      forall later | c < later < |chunks|
        ensures k !in entries[later]
      {
        assert HasEntry(chunks[later], tied, k) <==> k in entries[later];
      }
      assert LastWith(entries, c, |chunks|, k);
    }
  }

  lemma SourceOfEntry(chunks: seq<Chunk>, tied: bool, cums: seq<nat>, m: Dict, key: Key)
    requires |cums| == |chunks| + 1 && NothingElse(AllEntries(chunks, tied), cums, |chunks|, m) && key in m
    ensures HasSource(chunks, tied, cums, key)
  {
    hide Entries, PartsOf, AreEntries;
    var entries := AllEntries(chunks, tied);
    assert ComesFrom(entries, cums, |chunks|, key);
    var c, k :| 0 <= c < |chunks| && k in entries[c] && Shifted(k, cums[c]) == key;
    EntryIs(chunks[c], tied, k);
  }

  lemma EntriesMergeDirectly(chunks: seq<Chunk>, tied: bool, cums: seq<nat>, m: Dict)
    requires |cums| == |chunks| + 1 && Merged(AllEntries(chunks, tied), cums, |chunks|, m)
    ensures DirectlyMerged(chunks, tied, cums, m)
  {
    LayersOfEntries(chunks, tied, cums, m);
    OthersOfEntries(chunks, tied, m);
    hide HasSource, LayersMerged, OthersMerged, LayersKept, LastGlobalsKept;
    forall key | key in m
      ensures HasSource(chunks, tied, cums, key)
    {
      SourceOfEntry(chunks, tied, cums, m, key);
    }
  }

  // ---------------------------------------------------------------- the model itself

  /** A chunk has the layers of the model from start on, renumbered, and some of its other parameters. */
  ghost predicate HoldsPiece(model: Chunk, d: Chunk, start: nat, size: int) {
    && (forall n | n in d && n.InLayer? ::
          n.layer < size && InLayer(n.layer + start, n.id) in model && d[n] == model[InLayer(n.layer + start, n.id)])
    && (forall l: nat, id | l < size && InLayer(l + start, id) in model :: InLayer(l, id) in d)
    && (forall n | n in d && n.Outside? :: n in model && d[n] == model[n])
  }

  /** A model cut into chunks of the given numbers of layers. */
  ghost predicate CutInto(model: Chunk, chunks: seq<Chunk>, sizes: seq<int>, starts: seq<nat>) {
    && |chunks| == |sizes| && Starts(sizes, starts)
    && (forall c | 0 <= c < |chunks| :: HoldsPiece(model, chunks[c], starts[c], sizes[c]))
    && (forall n | n in model && n.InLayer? :: n.layer < Sum(sizes))
    && (forall n | n in model && n.Outside? :: exists c :: 0 <= c < |chunks| && n in chunks[c])
  }

  ghost predicate HasLayerNumber(d: Chunk, l: nat) {
    exists n :: n in d && n.InLayer? && n.layer == l
  }

  /** Every chunk has parameters in exactly the layers below its size. */
  ghost predicate EveryLayer(chunks: seq<Chunk>, sizes: seq<int>) {
    && |chunks| == |sizes|
    && forall c | 0 <= c < |chunks| :: sizes[c] >= 0 && forall l: nat :: HasLayerNumber(chunks[c], l) <==> l < sizes[c]
  }

  /** Exactly the parts of the model's parameters, but for an output layer with tied embeddings. */
  ghost predicate IsModel(model: Chunk, tied: bool, m: Dict) {
    && (forall n, part | n in model && n.InLayer? && part in PartsOf(model[n]) ::
          var key := Layer(n.layer, Component(n.id, part)); key in m && m[key] == PartsOf(model[n])[part])
    && (forall n, part | n in model && n.Outside? && !(tied && n == OUTPUT_LAYER) && part in PartsOf(model[n]) ::
          var key := Global(Component(n.id, part)); key in m && m[key] == PartsOf(model[n])[part])
    && (forall key | key in m ::
          match key
          case Layer(l, comp) => InLayer(l, comp.id) in model && comp.part in PartsOf(model[InLayer(l, comp.id)])
          case Global(comp) =>
            !(tied && Outside(comp.id) == OUTPUT_LAYER) && Outside(comp.id) in model
            && comp.part in PartsOf(model[Outside(comp.id)]))
  }

  lemma ModelIsEntries(model: Chunk, tied: bool, m: Dict)
    ensures IsModel(model, tied, m) <==> m == Entries(model, tied)
  {
    hide Entries;
    if IsModel(model, tied, m) {
      forall k
        ensures k in m <==> HasEntry(model, tied, k)
      {
        if k.Layer? {
          assert k == Layer(k.layer, Component(k.component.id, k.component.part));
        } else {
          assert k == Global(Component(k.component.id, k.component.part));
        }
      }
      EntriesAreUnique(model, tied, m);
    }
    if m == Entries(model, tied) {
      forall n, part | n in model && n.InLayer? && part in PartsOf(model[n])
        ensures Layer(n.layer, Component(n.id, part)) in m
      {
        assert HasEntry(model, tied, Layer(n.layer, Component(n.id, part)));
      }
      forall n, part | n in model && n.Outside? && !(tied && n == OUTPUT_LAYER) && part in PartsOf(model[n])
        ensures Global(Component(n.id, part)) in m
      {
        assert HasEntry(model, tied, Global(Component(n.id, part)));
      }
    }
  }

  lemma EntryIs(d: Chunk, tied: bool, k: Key)
    ensures k in Entries(d, tied) <==> HasEntry(d, tied, k)
    ensures k in Entries(d, tied) ==> Entries(d, tied)[k] == PartsOf(d[Origin(k)])[k.component.part]
  {
    hide Entries, HasEntry, PartsOf;
  }

  lemma PieceOfLayers(model: Chunk, d: Chunk, tied: bool, start: nat, size: int)
    requires HoldsPiece(model, d, start, size)
    ensures HoldsLayers(Entries(model, tied), Entries(d, tied), start, size)
  {
    hide Entries, PartsOf, AreEntries;
    var whole, chunk := Entries(model, tied), Entries(d, tied);
    forall k | k in chunk && k.Layer?
      ensures k.layer < size && Shifted(k, start) in whole && chunk[k] == whole[Shifted(k, start)]
    {
      EntryIs(d, tied, k);
      EntryIs(model, tied, Shifted(k, start));
    }
    forall l: nat, comp | l < size && Layer(l + start, comp) in whole
      ensures Layer(l, comp) in chunk
    {
      EntryIs(model, tied, Layer(l + start, comp));
      assert InLayer(l, comp.id) in d;
      EntryIs(d, tied, Layer(l, comp));
    }
  }

  lemma PieceOfGlobals(model: Chunk, d: Chunk, tied: bool, start: nat, size: int)
    requires HoldsPiece(model, d, start, size)
    ensures HoldsGlobals(Entries(model, tied), Entries(d, tied))
  {
    hide Entries, PartsOf, AreEntries;
    var whole, chunk := Entries(model, tied), Entries(d, tied);
    forall k | k in chunk && k.Global?
      ensures k in whole && chunk[k] == whole[k]
    {
      EntryIs(d, tied, k);
      EntryIs(model, tied, k);
    }
  }

  lemma CutOfEntries(model: Chunk, chunks: seq<Chunk>, tied: bool, sizes: seq<int>, starts: seq<nat>)
    requires CutInto(model, chunks, sizes, starts)
    ensures IsSplit(Entries(model, tied), AllEntries(chunks, tied), sizes, starts)
  {
    hide Entries, HoldsPiece, HoldsLayers, HoldsGlobals;
    var whole, entries := Entries(model, tied), AllEntries(chunks, tied);
    forall c | 0 <= c < |chunks|
      ensures HoldsLayers(whole, entries[c], starts[c], sizes[c]) && HoldsGlobals(whole, entries[c])
    {
      PieceOfLayers(model, chunks[c], tied, starts[c], sizes[c]);
      PieceOfGlobals(model, chunks[c], tied, starts[c], sizes[c]);
    }
    forall k | k in whole && k.Global?
      ensures exists c :: 0 <= c < |entries| && k in entries[c]
    {
      OtherIsSomewhere(model, chunks, tied, sizes, starts, k);
    }
    forall k | k in whole && k.Layer?
      ensures k.layer < Sum(sizes)
    {
      assert HasEntry(model, tied, k);
    }
  }

  lemma OtherIsSomewhere(model: Chunk, chunks: seq<Chunk>, tied: bool, sizes: seq<int>, starts: seq<nat>, k: Key)
    requires CutInto(model, chunks, sizes, starts) && k in Entries(model, tied) && k.Global?
    ensures exists c :: 0 <= c < |chunks| && k in AllEntries(chunks, tied)[c]
  {
    hide Entries;
    assert HasEntry(model, tied, k);
    var c :| 0 <= c < |chunks| && Origin(k) in chunks[c];
    assert HoldsPiece(model, chunks[c], starts[c], sizes[c]);
    assert HasEntry(chunks[c], tied, k) && k in AllEntries(chunks, tied)[c];
  }

  lemma LayersOfChunk(d: Chunk, tied: bool, l: nat)
    ensures HasLayer(Entries(d, tied), l) <==> HasLayerNumber(d, l)
  {
    hide Entries;
    if HasLayer(Entries(d, tied), l) {
      var k :| k in Entries(d, tied) && k.Layer? && k.layer == l;
      assert HasEntry(d, tied, k);
    }
    if HasLayerNumber(d, l) {
      var n :| n in d && n.InLayer? && n.layer == l;
      var part := SomePart(d[n]);
      assert HasEntry(d, tied, Layer(l, Component(n.id, part)));
    }
  }

  lemma SizesOfEntries(chunks: seq<Chunk>, tied: bool, sizes: seq<int>)
    requires EveryLayer(chunks, sizes)
    ensures Sized(AllEntries(chunks, tied), sizes)
  {
    hide Entries, AreEntries, HasLayer, HasLayerNumber;
    forall c | 0 <= c < |chunks|
      ensures HasLayers(AllEntries(chunks, tied)[c], sizes[c])
    {
      forall l: nat
        ensures HasLayer(AllEntries(chunks, tied)[c], l) <==> l < sizes[c]
      {
        LayersOfChunk(chunks[c], tied, l);
      }
    }
  }

  /**
   What the mergers make of a model that was cut into chunks of the given sizes: the model itself, parameter by
   parameter, exactly when no chunk without layers comes before one with layers.
   */
  lemma MergedModelExactlyWhen(model: Chunk, chunks: seq<Chunk>, tied: bool, sizes: seq<int>, starts: seq<nat>,
                               cums: seq<nat>, m: Dict)
    requires CutInto(model, chunks, sizes, starts) && EveryLayer(chunks, sizes)
    requires |cums| == |chunks| + 1 && cums[0] == 0
    requires RunningCounts(AllEntries(chunks, tied), cums, |chunks|) && Merged(AllEntries(chunks, tied), cums, |chunks|, m)
    ensures IsModel(model, tied, m) <==> EmptyOnlyAtEnd(sizes)
  {
    hide Entries, AreEntries, IsModel, CutInto, EveryLayer, IsSplit, Sized, RunningCounts, Merged, EmptyOnlyAtEnd;
    CutOfEntries(model, chunks, tied, sizes, starts);
    SizesOfEntries(chunks, tied, sizes);
    ModelIsEntries(model, tied, m);
    MergeRebuildsExactlyWhen(Entries(model, tied), AllEntries(chunks, tied), sizes, starts, cums, m);
  }

  /** Whatever model was cut into the chunks, and however, m is that model exactly when it can be rebuilt. */
  ghost predicate RebuildsModels(chunks: seq<Chunk>, tied: bool, m: Dict) {
    forall model, sizes, starts | CutInto(model, chunks, sizes, starts) && EveryLayer(chunks, sizes) ::
      IsModel(model, tied, m) <==> EmptyOnlyAtEnd(sizes)
  }

  lemma NoChunksYet(chunks: seq<Dict>, start: nat)
    ensures RunningCounts(chunks, [start], 0) && Merged(chunks, [start], 0, map[])
  {
  }

  /** The chunks of the list merged in order, starting from a given layer number. */
  method MergeStateDicts(chunks: seq<Chunk>, tied: bool, start: nat) returns (r: Result<Dict, MergeError>)
    ensures r.Success? <==> forall c | 0 <= c < |chunks| :: Known(chunks[c])
    ensures r.Success? ==> exists cums :: LayerCounts(chunks, start, cums) && DirectlyMerged(chunks, tied, cums, r.value)
    ensures r.Success? && start == 0 ==> RebuildsModels(chunks, tied, r.value)
    ensures r.Success? ==>
              var entries := AllEntries(chunks, tied);
              var cums := Counts(entries, start, |chunks|);
              && |cums| == |chunks| + 1 && cums[0] == start
              && RunningCounts(entries, cums, |chunks|) && Merged(entries, cums, |chunks|, r.value)
  {
    hide Extends, Entries, AreEntries, IsTop, Merged, RunningCounts, EmptyOnlyAtEnd, TopOf, Known, LayerCounts, DirectlyMerged;
    hide CutInto, EveryLayer, IsModel;
    ghost var entries := AllEntries(chunks, tied);
    NoChunksYet(entries, start);
    var merged: Dict, layersCum := map[], start;
    for c := 0 to |chunks|
      invariant layersCum == CountAfter(entries, start, c) && |Counts(entries, start, c)| == c + 1
      invariant RunningCounts(entries, Counts(entries, start, c), c)
      invariant Merged(entries, Counts(entries, start, c), c, merged)
      invariant forall i | 0 <= i < c :: Known(chunks[i])
    {
      CountsEnd(entries, start, c);
      var one := MergeChunk(chunks[c], tied, layersCum, merged);
      if one.Failure? {
        return Failure(one.error);
      }
      var (after, handled) := one.value;
      TopIsUnique(entries[c], handled);
      layersCum := layersCum + handled + 1;
      MergeStep(entries, Counts(entries, start, c), c, merged, after, layersCum);
      merged := after;
    }
    ghost var cums := Counts(entries, start, |chunks|);
    CountsEnd(entries, start, |chunks|);
    CountsOfEntries(chunks, tied, start, cums);
    EntriesMergeDirectly(chunks, tied, cums, merged);
    forall model, sizes, starts | start == 0 && CutInto(model, chunks, sizes, starts) && EveryLayer(chunks, sizes)
      ensures IsModel(model, tied, merged) <==> EmptyOnlyAtEnd(sizes)
    {
      MergedModelExactlyWhen(model, chunks, tied, sizes, starts, cums, merged);
    }
    return Success(merged);
  }
}
