/**
 _merge_state_dicts of the checkpoint mergers: local layer numbers of one model chunk after the other are
 shifted by a running count of the layers handled so far.
 */
module CheckpointMerge {
  import opened Wrappers
  import opened CheckpointEntries
  import opened Partition
  import opened LayerOffsets

  function Shifted(k: Key, cum: nat): Key {
    match k
    case Layer(l, comp) => Layer(l + cum, comp)
    case Global(_) => k
  }

  /** top is the largest local layer number, or 0 without any. */
  ghost predicate IsTop(d: Dict, top: nat) {
    && (forall k | k in d && k.Layer? :: k.layer <= top)
    && (top == 0 || exists k :: k in d && k.Layer? && k.layer == top)
  }

  /** The running count before each of the first n chunks, and after them. */
  ghost predicate RunningCounts(chunks: seq<Dict>, cums: seq<nat>, n: nat) {
    && n <= |chunks| && n < |cums|
    && forall c | 0 <= c < n :: cums[c] < cums[c + 1] && IsTop(chunks[c], cums[c + 1] - cums[c] - 1)
  }

  /** Some entry of the first n chunks stands for the global name. */
  ghost predicate ComesFrom(chunks: seq<Dict>, cums: seq<nat>, n: nat, name: Key)
    requires n <= |chunks| && n <= |cums|
  {
    exists c, k | 0 <= c < n && k in chunks[c] :: Shifted(k, cums[c]) == name
  }

  /** No chunk after c (and before n) has the name. */
  ghost predicate LastWith(chunks: seq<Dict>, c: nat, n: nat, name: Key)
    requires c < n <= |chunks|
  {
    forall later | c < later < n :: name !in chunks[later]
  }

  /** Every layer entry of every chunk is there under its own global name. */
  ghost predicate LayersKept(chunks: seq<Dict>, cums: seq<nat>, n: nat, m: Dict)
    requires n <= |chunks| && n <= |cums|
  {
    forall c, k | 0 <= c < n && k in chunks[c] && k.Layer? ::
      Shifted(k, cums[c]) in m && m[Shifted(k, cums[c])] == chunks[c][k]
  }

  /** For the other names the entry of the last chunk that has one is there. */
  ghost predicate LastGlobalsKept(chunks: seq<Dict>, n: nat, m: Dict)
    requires n <= |chunks|
  {
    forall c, k | 0 <= c < n && k in chunks[c] && k.Global? && LastWith(chunks, c, n, k) ::
      k in m && m[k] == chunks[c][k]
  }

  ghost predicate NothingElse(chunks: seq<Dict>, cums: seq<nat>, n: nat, m: Dict)
    requires n <= |chunks| && n <= |cums|
  {
    forall name | name in m :: ComesFrom(chunks, cums, n, name)
  }

  ghost predicate Merged(chunks: seq<Dict>, cums: seq<nat>, n: nat, m: Dict)
    requires n <= |chunks| && n <= |cums|
  {
    LayersKept(chunks, cums, n, m) && LastGlobalsKept(chunks, n, m) && NothingElse(chunks, cums, n, m)
  }

  ghost predicate Named(d: Dict, cum: nat, name: Key) {
    exists k :: k in d && Shifted(k, cum) == name
  }

  /** after has all entries of d under their shifted names, and exactly before's entries for other names. */
  ghost predicate Extends(before: Dict, d: Dict, cum: nat, after: Dict) {
    && (forall k | k in d :: Shifted(k, cum) in after && after[Shifted(k, cum)] == d[k])
    && (forall name | name in before && !Named(d, cum, name) :: name in after && after[name] == before[name])
    && (forall name | name in after :: name in before || Named(d, cum, name))
  }

  lemma ExtendsByOne(before: Dict, d: Dict, cum: nat, after: Dict, k: Key, v: int)
    requires Extends(before, d, cum, after)
    ensures Extends(before, d[k := v], cum, after[Shifted(k, cum) := v])
  {
    forall name
      ensures Named(d[k := v], cum, name) <==> Named(d, cum, name) || name == Shifted(k, cum)
    {
      if Named(d, cum, name) {
        var k' :| k' in d && Shifted(k', cum) == name;
        assert k' in d[k := v];
      }
      if name == Shifted(k, cum) {
        assert k in d[k := v];
      }
    }
  }

  lemma OneMore(d: Dict, e: Dict, k: Key, v: int)
    ensures (d + e)[k := v] == d + e[k := v]
  {
  }

  lemma InTurn(d: Dict, k: Key, v: int, k': Key, v': int)
    ensures d[k := v][k' := v'] == d + map[k := v, k' := v']
  {
  }

  /** All pieces of one tensor are stored under their own names. */
  method Store(n: Name, p: Pieces, ghost d: Dict, cum: nat, ghost was: Dict, before: Dict) returns (after: Dict)
    requires Extends(was, d, cum, before)
    ensures Extends(was, d + OwnEntries(n, p), cum, after)
  {
    hide Extends, Shifted, Renamed;
    match p
    case Whole(t) =>
      OneMore(d, map[], Renamed(n, Plain), t);
      assert d + map[] == d;
      after := StoreOne(Renamed(n, Plain), t, d, cum, was, before);
    case GateUp(gate, up) =>
      after := StoreOne(Renamed(n, Gate), gate, d, cum, was, before);
      after := StoreOne(Renamed(n, Up), up, d[Renamed(n, Gate) := gate], cum, was, after);
      InTurn(d, Renamed(n, Gate), gate, Renamed(n, Up), up);
    case Qkv(q, k, v) =>
      after := StoreOne(Renamed(n, Q), q, d, cum, was, before);
      after := StoreOne(Renamed(n, K), k, d[Renamed(n, Q) := q], cum, was, after);
      after := StoreOne(Renamed(n, V), v, d[Renamed(n, Q) := q][Renamed(n, K) := k], cum, was, after);
      InTurn(d, Renamed(n, Q), q, Renamed(n, K), k);
      OneMore(d, map[Renamed(n, Q) := q, Renamed(n, K) := k], Renamed(n, V), v);
  }

  method StoreOne(k: Key, v: int, ghost d: Dict, cum: nat, ghost was: Dict, before: Dict) returns (after: Dict)
    requires Extends(was, d, cum, before)
    ensures Extends(was, d[k := v], cum, after)
  {
    after := before[Shifted(k, cum) := v];
    ExtendsByOne(was, d, cum, before, k, v);
  }

  lemma NothingYet(before: Dict, tied: bool, cum: nat)
    ensures Extends(before, Entries(map[], tied), cum, before) && IsTop(Entries(map[], tied), 0)
  {
    assert Entries(map[], tied) == map[];
  }

  lemma TopOfMore(d: Dict, handled: nat, n: Name, p: Pieces)
    requires IsTop(d, handled) && (n.InLayer? || n.Outside?)
    ensures IsTop(d + OwnEntries(n, p), if n.InLayer? && n.layer > handled then n.layer else handled)
  {
    forall k
      ensures k in OwnEntries(n, p) <==> Origin(k) == n && k.component.part in PartsOf(p)
    {
      OwnEntriesAre(n, p, k);
    }
    hide OwnEntries;
    var e, part := d + OwnEntries(n, p), if p.Whole? then Plain else if p.GateUp? then Gate else Q;
    if n.InLayer? && n.layer > handled {
      assert Layer(n.layer, Component(n.id, part)) in e;
    } else if handled > 0 {
      var k :| k in d && k.Layer? && k.layer == handled;
      assert k in e;
    }
  }

  datatype MergeError = UnknownName

  ghost predicate Known(d: Chunk) {
    forall n | n in d :: !n.Unknown?
  }

  lemma AllOrNothing(d: Chunk)
    ensures d - d.Keys == map[] && d - {} == d && Known(map[])
  {
  }

  lemma TakeOne(d: Chunk, rest: set<Name>, n: Name)
    requires n in rest && rest <= d.Keys
    ensures n !in d - rest && d - (rest - {n}) == (d - rest)[n := d[n]]
  {
  }

  lemma KnownWithOne(d: Chunk, done: Chunk, n: Name)
    requires n in d && Known(done)
    ensures if n.Unknown? then !Known(d) else Known(done[n := d[n]])
  {
  }

  /** One parameter with a known name. */
  method MergeParameter(n: Name, p: Pieces, tied: bool, ghost done: Chunk, cum: nat, ghost before: Dict, sofar: Dict,
                        handled: nat) returns (after: Dict, top: nat)
    requires n !in done && !n.Unknown?
    requires Extends(before, Entries(done, tied), cum, sofar) && IsTop(Entries(done, tied), handled)
    ensures Extends(before, Entries(done[n := p], tied), cum, after) && IsTop(Entries(done[n := p], tied), top)
  {
    hide Extends, Entries, AreEntries, IsTop, OwnEntries;
    after, top := sofar, handled;
    if Skipped(n, tied) {
      SkippedAddsNothing(done, tied, n, p);
    } else {
      EntryAddsParts(done, tied, n, p);
      TopOfMore(Entries(done, tied), handled, n, p);
      if n.InLayer? && n.layer > handled {
        top := n.layer;
      }
      after := Store(n, p, Entries(done, tied), cum, before, sofar);
    }
  }

  /**
   One chunk: copy every entry under its shifted name and find the largest layer number, unless a name is unknown.
   */
  method MergeChunk(d: Chunk, tied: bool, cum: nat, before: Dict) returns (r: Result<(Dict, nat), MergeError>)
    ensures r.Success? <==> Known(d)
    ensures r.Success? ==> Extends(before, Entries(d, tied), cum, r.value.0) && IsTop(Entries(d, tied), r.value.1)
  {
    var after, handled := before, 0;
    var rest := d.Keys;
    NothingYet(before, tied, cum);
    AllOrNothing(d);
    hide Extends, Entries, AreEntries, IsTop, OwnEntries, Known;
    while rest != {}
      invariant rest <= d.Keys
      invariant Extends(before, Entries(d - rest, tied), cum, after)
      invariant IsTop(Entries(d - rest, tied), handled) && Known(d - rest)
    {
      var n :| n in rest;
      ghost var done := d - rest;
      TakeOne(d, rest, n);
      KnownWithOne(d, done, n);
      rest := rest - {n};
      if n.Unknown? {
        return Failure(UnknownName);
      }
      after, handled := MergeParameter(n, d[n], tied, done, cum, before, after, handled);
    }
    return Success((after, handled));
  }

  lemma {:induction false} CountsIncrease(chunks: seq<Dict>, cums: seq<nat>, n: nat, a: nat, b: nat)
    requires RunningCounts(chunks, cums, n) && a <= b <= n
    ensures cums[a] <= cums[b]
  {
    if a < b {
      CountsIncrease(chunks, cums, n, a, b - 1);
    }
  }

  /** Layers of one chunk never land on names that an earlier chunk's layers have taken. */
  lemma RangesAreDisjoint(chunks: seq<Dict>, cums: seq<nat>, c: nat, k: Key, later: nat, k': Key)
    requires RunningCounts(chunks, cums, later) && c < later < |chunks|
    requires k in chunks[c] && k' in chunks[later] && k.Layer?
    ensures Shifted(k, cums[c]) != Shifted(k', cums[later])
  {
    CountsIncrease(chunks, cums, later, c + 1, later);
    assert k.layer <= cums[c + 1] - cums[c] - 1;
  }

  lemma LayersStep(chunks: seq<Dict>, cums: seq<nat>, n: nat, before: Dict, after: Dict)
    requires RunningCounts(chunks, cums, n) && n < |chunks|
    requires LayersKept(chunks, cums, n, before) && Extends(before, chunks[n], cums[n], after)
    ensures LayersKept(chunks, cums, n + 1, after)
  {
    forall c, k | 0 <= c < n && k in chunks[c] && k.Layer?
      ensures Shifted(k, cums[c]) in after && after[Shifted(k, cums[c])] == chunks[c][k]
    {
      var name := Shifted(k, cums[c]);
      if Named(chunks[n], cums[n], name) {
        var k' :| k' in chunks[n] && Shifted(k', cums[n]) == name;
        RangesAreDisjoint(chunks, cums, c, k, n, k');
      }
    }
  }

  lemma GlobalsStep(chunks: seq<Dict>, cum: nat, n: nat, before: Dict, after: Dict)
    requires n < |chunks|
    requires LastGlobalsKept(chunks, n, before) && Extends(before, chunks[n], cum, after)
    ensures LastGlobalsKept(chunks, n + 1, after)
  {
  }

  lemma NothingElseStep(chunks: seq<Dict>, cums: seq<nat>, n: nat, before: Dict, after: Dict)
    requires n < |chunks| && n < |cums|
    requires NothingElse(chunks, cums, n, before) && Extends(before, chunks[n], cums[n], after)
    ensures NothingElse(chunks, cums, n + 1, after)
  {
  }

  /** A longer list of counts says the same about the chunks merged so far. */
  lemma MoreCounts(chunks: seq<Dict>, n: nat, cums: seq<nat>, x: nat, m: Dict)
    requires n <= |chunks| && n <= |cums| && Merged(chunks, cums, n, m)
    ensures Merged(chunks, cums + [x], n, m)
  {
  }

  lemma MergeStep(chunks: seq<Dict>, cums: seq<nat>, c: nat, before: Dict, after: Dict, x: nat)
    requires c < |chunks| && |cums| == c + 1 && cums[c] < x && IsTop(chunks[c], x - cums[c] - 1)
    requires RunningCounts(chunks, cums, c) && Merged(chunks, cums, c, before)
    requires Extends(before, chunks[c], cums[c], after)
    ensures RunningCounts(chunks, cums + [x], c + 1) && Merged(chunks, cums + [x], c + 1, after)
  {
    CountsStep(chunks, cums, c, x);
    MoreCounts(chunks, c, cums, x, before);
    LayersStep(chunks, cums + [x], c, before, after);
    GlobalsStep(chunks, cums[c], c, before, after);
    NothingElseStep(chunks, cums + [x], c, before, after);
  }

  lemma CountsStep(chunks: seq<Dict>, cums: seq<nat>, c: nat, x: nat)
    requires c < |chunks| && |cums| == c + 1 && cums[c] < x && IsTop(chunks[c], x - cums[c] - 1)
    requires RunningCounts(chunks, cums, c)
    ensures RunningCounts(chunks, cums + [x], c) && RunningCounts(chunks, cums + [x], c + 1)
  {
  }

  /** The largest local layer number of a chunk, or 0. */
  ghost function TopOf(d: Dict): nat {
    if exists top: nat :: IsTop(d, top) then var top: nat :| IsTop(d, top); top else 0
  }

  lemma TopIsUnique(d: Dict, top: nat)
    requires IsTop(d, top)
    ensures TopOf(d) == top
  {
    var other := TopOf(d);
    assert IsTop(d, other);
  }

  /** The running count after n chunks: each counts for one more than its largest local number. */
  ghost function CountAfter(chunks: seq<Dict>, start: nat, n: nat): nat
    requires n <= |chunks|
  {
    if n == 0 then start else CountAfter(chunks, start, n - 1) + TopOf(chunks[n - 1]) + 1
  }

  ghost function Counts(chunks: seq<Dict>, start: nat, n: nat): seq<nat>
    requires n <= |chunks|
  {
    if n == 0 then [start] else Counts(chunks, start, n - 1) + [CountAfter(chunks, start, n)]
  }

  lemma {:induction false} CountsEnd(chunks: seq<Dict>, start: nat, n: nat)
    requires n <= |chunks|
    ensures |Counts(chunks, start, n)| == n + 1 && Counts(chunks, start, n)[n] == CountAfter(chunks, start, n)
    ensures Counts(chunks, start, n)[0] == start
  {
    if n > 0 {
      CountsEnd(chunks, start, n - 1);
    }
  }

  // ---------------------------------------------------------------- what the running count has to be

  ghost predicate HasLayer(d: Dict, l: nat) {
    exists k :: k in d && k.Layer? && k.layer == l
  }

  /** The chunk has exactly the local layers below n. */
  ghost predicate HasLayers(d: Dict, n: nat) {
    forall l: nat :: HasLayer(d, l) <==> l < n
  }

  ghost predicate Sized(chunks: seq<Dict>, sizes: seq<int>) {
    |sizes| == |chunks| && forall c | 0 <= c < |chunks| :: sizes[c] >= 0 && HasLayers(chunks[c], sizes[c])
  }

  /** A chunk counts for its layers, but an empty one counts for one layer too. */
  lemma CountOfChunk(d: Dict, n: nat, top: nat)
    requires HasLayers(d, n) && IsTop(d, top)
    ensures top + 1 == if n == 0 then 1 else n
  {
    assert HasLayer(d, top) <==> top < n;
    if n > 0 {
      assert HasLayer(d, n - 1);
    }
  }

  function Counted(sizes: seq<int>): seq<int> {
    seq(|sizes|, i requires 0 <= i < |sizes| => if sizes[i] == 0 then 1 else sizes[i])
  }

  lemma {:induction false} RunningCountIs(chunks: seq<Dict>, sizes: seq<int>, cums: seq<nat>, c: nat)
    requires RunningCounts(chunks, cums, |chunks|) && Sized(chunks, sizes) && c <= |chunks|
    ensures cums[c] == cums[0] + Sum(Counted(sizes)[..c])
  {
    if c > 0 {
      RunningCountIs(chunks, sizes, cums, c - 1);
      CountOfChunk(chunks[c - 1], sizes[c - 1], cums[c] - cums[c - 1] - 1);
      assert Counted(sizes)[..c] == Counted(sizes)[..c - 1] + [Counted(sizes)[c - 1]];
      SumConcat(Counted(sizes)[..c - 1], [Counted(sizes)[c - 1]]);
      assert Sum([Counted(sizes)[c - 1]]) == Counted(sizes)[c - 1];
    }
  }

  lemma {:induction false} CountedAtLeast(sizes: seq<int>, c: nat)
    requires c <= |sizes| && forall i | 0 <= i < |sizes| :: sizes[i] >= 0
    ensures Sum(Counted(sizes)[..c]) >= Sum(sizes[..c])
    ensures Sum(Counted(sizes)[..c]) == Sum(sizes[..c]) <==> forall i | 0 <= i < c :: sizes[i] >= 1
  {
    if c > 0 {
      CountedAtLeast(sizes, c - 1);
      assert sizes[..c] == sizes[..c - 1] + [sizes[c - 1]];
      assert Counted(sizes)[..c] == Counted(sizes)[..c - 1] + [Counted(sizes)[c - 1]];
      SumConcat(sizes[..c - 1], [sizes[c - 1]]);
      SumConcat(Counted(sizes)[..c - 1], [Counted(sizes)[c - 1]]);
      assert Sum([sizes[c - 1]]) == sizes[c - 1];
      assert Sum([Counted(sizes)[c - 1]]) == Counted(sizes)[c - 1];
    }
  }

  ghost predicate NoneEmpty(sizes: seq<int>, n: nat)
    requires n <= |sizes|
  {
    forall c | 0 <= c < n :: sizes[c] >= 1
  }

  ghost predicate CountsAreOffsets(cums: seq<nat>, sizes: seq<int>)
    requires |cums| == |sizes| + 1
  {
    forall c | 0 <= c < |sizes| :: cums[c] == cums[0] + Sum(sizes[..c])
  }

  lemma CountIsOffsetWhen(chunks: seq<Dict>, sizes: seq<int>, cums: seq<nat>, c: nat)
    requires RunningCounts(chunks, cums, |chunks|) && Sized(chunks, sizes) && c <= |chunks|
    ensures cums[c] == cums[0] + Sum(sizes[..c]) <==> NoneEmpty(sizes, c)
  {
    RunningCountIs(chunks, sizes, cums, c);
    CountedAtLeast(sizes, c);
  }

  /** The running count is the number of layers before every chunk exactly when no chunk but the last is empty. */
  lemma CountsAreOffsetsWhen(chunks: seq<Dict>, sizes: seq<int>, cums: seq<nat>)
    requires RunningCounts(chunks, cums, |chunks|) && |cums| == |chunks| + 1 && Sized(chunks, sizes)
    ensures CountsAreOffsets(cums, sizes) <==> chunks == [] || NoneEmpty(sizes, |sizes| - 1)
  {
    forall c | 0 <= c < |chunks|
      ensures cums[c] == cums[0] + Sum(sizes[..c]) <==> NoneEmpty(sizes, c)
    {
      CountIsOffsetWhen(chunks, sizes, cums, c);
    }
  }

  /** The same for chunks of the sizes of a configuration: the renumbering is get_transformer_layer_offset. */
  lemma CountsAreLayerOffsets(c: Config, chunks: seq<Dict>, cums: seq<nat>, stage: nat, rank: nat, at: nat)
    requires Divides(c) && Supported(c)
    requires Sized(chunks, Sizes(c)) && NoneEmpty(Sizes(c), |chunks|)
    requires RunningCounts(chunks, cums, |chunks|) && cums[0] == 0
    requires stage < c.Chunks() && rank < c.pp && at == stage * c.pp + rank
    ensures at < |chunks| && Offset(c, rank, StageArg(c, stage)) == Success(cums[at])
  {
    OffsetOfChunk(c, stage, rank, at);
    CountIsOffsetWhen(chunks, Sizes(c), cums, at);
  }

  // ---------------------------------------------------------------- splitting and merging

  ghost predicate Starts(sizes: seq<int>, cums: seq<nat>) {
    && |cums| == |sizes| + 1
    && forall c | 0 <= c < |sizes| :: sizes[c] >= 0 && cums[c] == Sum(sizes[..c])
  }

  /** Chunk c holds exactly the layers from its start on, renumbered from 0. */
  ghost predicate HoldsLayers(whole: Dict, chunk: Dict, start: nat, size: int) {
    && (forall k | k in chunk && k.Layer? ::
          k.layer < size && Shifted(k, start) in whole && chunk[k] == whole[Shifted(k, start)])
    && (forall l: nat, comp | l < size && Layer(l + start, comp) in whole :: Layer(l, comp) in chunk)
  }

  ghost predicate HoldsGlobals(whole: Dict, chunk: Dict) {
    forall k | k in chunk && k.Global? :: k in whole && chunk[k] == whole[k]
  }

  /** A model of Sum(sizes) layers cut into chunks; every other parameter is in some chunk. */
  ghost predicate IsSplit(whole: Dict, chunks: seq<Dict>, sizes: seq<int>, cums: seq<nat>) {
    && |chunks| == |sizes| && Starts(sizes, cums)
    && (forall c | 0 <= c < |chunks| :: HoldsLayers(whole, chunks[c], cums[c], sizes[c]) && HoldsGlobals(whole, chunks[c]))
    && (forall k | k in whole && k.Layer? :: k.layer < Sum(sizes))
    && (forall k | k in whole && k.Global? :: exists c :: 0 <= c < |chunks| && k in chunks[c])
  }

  lemma {:induction false} LastChunkWith(chunks: seq<Dict>, n: nat, name: Key) returns (c: nat)
    requires n <= |chunks| && exists i :: 0 <= i < n && name in chunks[i]
    ensures c < n && name in chunks[c] && LastWith(chunks, c, n, name)
  {
    if name in chunks[n - 1] {
      c := n - 1;
    } else {
      c := LastChunkWith(chunks, n - 1, name);
    }
  }

  ghost predicate Keeps(merged: Dict, whole: Dict, name: Key)
    requires name in whole
  {
    name in merged && merged[name] == whole[name]
  }

  /** The entry of a chunk that a layer entry of the model went to. */
  lemma LocalKey(whole: Dict, chunk: Dict, start: nat, size: int, name: Key) returns (k: Key)
    requires HoldsLayers(whole, chunk, start, size)
    requires name in whole && name.Layer? && start <= name.layer < start + size
    ensures k in chunk && k.Layer? && Shifted(k, start) == name && chunk[k] == whole[name]
  {
    k := Layer(name.layer - start, name.component);
    assert Layer(k.layer + start, name.component) == name;
  }

  lemma LayerIsKept(whole: Dict, chunks: seq<Dict>, sizes: seq<int>, cums: seq<nat>, merged: Dict, name: Key)
    requires |chunks| == |sizes| && Starts(sizes, cums) && LayersKept(chunks, cums, |chunks|, merged)
    requires forall c | 0 <= c < |chunks| :: HoldsLayers(whole, chunks[c], cums[c], sizes[c])
    requires name in whole && name.Layer? && name.layer < Sum(sizes)
    ensures Keeps(merged, whole, name)
  {
    var c := EveryLayerOnce(sizes, name.layer);
    assert cums[c] == Sum(sizes[..c]);
    hide Starts;
    var k := LocalKey(whole, chunks[c], cums[c], sizes[c], name);
    hide HoldsLayers;
    assert Shifted(k, cums[c]) in merged && merged[Shifted(k, cums[c])] == chunks[c][k];
  }

  lemma GlobalIsKept(whole: Dict, chunks: seq<Dict>, merged: Dict, name: Key)
    requires LastGlobalsKept(chunks, |chunks|, merged)
    requires forall c | 0 <= c < |chunks| :: HoldsGlobals(whole, chunks[c])
    requires name in whole && name.Global? && exists c :: 0 <= c < |chunks| && name in chunks[c]
    ensures Keeps(merged, whole, name)
  {
    var c := LastChunkWith(chunks, |chunks|, name);
    assert HoldsGlobals(whole, chunks[c]);
  }

  lemma WholeIsKept(whole: Dict, chunks: seq<Dict>, sizes: seq<int>, cums: seq<nat>, merged: Dict, name: Key)
    requires IsSplit(whole, chunks, sizes, cums) && Merged(chunks, cums, |chunks|, merged)
    requires name in whole
    ensures Keeps(merged, whole, name)
  {
    if name.Layer? {
      LayerIsKept(whole, chunks, sizes, cums, merged, name);
    } else {
      GlobalIsKept(whole, chunks, merged, name);
    }
  }

  lemma NothingIsAdded(whole: Dict, chunks: seq<Dict>, sizes: seq<int>, cums: seq<nat>, merged: Dict, name: Key)
    requires IsSplit(whole, chunks, sizes, cums) && NothingElse(chunks, cums, |chunks|, merged)
    requires name in merged
    ensures name in whole
  {
    assert ComesFrom(chunks, cums, |chunks|, name);
    var c, k :| 0 <= c < |chunks| && k in chunks[c] && Shifted(k, cums[c]) == name;
    assert HoldsLayers(whole, chunks[c], cums[c], sizes[c]) && HoldsGlobals(whole, chunks[c]);
  }

  lemma SameDict(a: Dict, b: Dict)
    requires (forall k | k in b :: Keeps(a, b, k)) && forall k | k in a :: k in b
    ensures a == b
  {
  }

  /** Merging with running counts that are the chunks' first layers gives back the model that was split. */
  lemma MergeUndoesSplit(whole: Dict, chunks: seq<Dict>, sizes: seq<int>, cums: seq<nat>, merged: Dict)
    requires IsSplit(whole, chunks, sizes, cums) && Merged(chunks, cums, |chunks|, merged)
    ensures merged == whole
  {
    assert |chunks| < |cums|;
    assert NothingElse(chunks, cums, |chunks|, merged);
    hide IsSplit, Merged, NothingElse, Keeps;
    forall name | name in whole
      ensures Keeps(merged, whole, name)
    {
      WholeIsKept(whole, chunks, sizes, cums, merged, name);
    }
    forall name | name in merged
      ensures name in whole
    {
      NothingIsAdded(whole, chunks, sizes, cums, merged, name);
    }
    SameDict(merged, whole);
  }

  // ---------------------------------------------------------------- when the mergers rebuild a model

  /** Chunks without layers come after all chunks with layers. */
  ghost predicate EmptyOnlyAtEnd(sizes: seq<int>) {
    forall i, j | 0 <= i < j < |sizes| :: sizes[j] >= 1 ==> sizes[i] >= 1
  }

  /** A chunk with layers gets its own start as running count, if no empty chunk comes before it. */
  lemma StartIsCount(chunks: seq<Dict>, sizes: seq<int>, starts: seq<nat>, cums: seq<nat>, c: nat)
    requires RunningCounts(chunks, cums, |chunks|) && cums[0] == 0
    requires Sized(chunks, sizes) && Starts(sizes, starts) && EmptyOnlyAtEnd(sizes) && c < |chunks| && sizes[c] >= 1
    ensures cums[c] == starts[c]
  {
    CountIsOffsetWhen(chunks, sizes, cums, c);
  }

  /** An entry lands on the same name, whether it is shifted by the running count or by the chunk's start. */
  lemma SameShift(chunks: seq<Dict>, sizes: seq<int>, starts: seq<nat>, cums: seq<nat>, c: nat, k: Key)
    requires RunningCounts(chunks, cums, |chunks|) && cums[0] == 0
    requires Sized(chunks, sizes) && Starts(sizes, starts) && EmptyOnlyAtEnd(sizes) && c < |chunks| && k in chunks[c]
    ensures Shifted(k, cums[c]) == Shifted(k, starts[c])
  {
    if k.Layer? {
      assert HasLayer(chunks[c], k.layer);
      StartIsCount(chunks, sizes, starts, cums, c);
    }
  }

  lemma MergedAtStarts(chunks: seq<Dict>, sizes: seq<int>, starts: seq<nat>, cums: seq<nat>, merged: Dict)
    requires RunningCounts(chunks, cums, |chunks|) && cums[0] == 0 && Merged(chunks, cums, |chunks|, merged)
    requires Sized(chunks, sizes) && Starts(sizes, starts) && EmptyOnlyAtEnd(sizes)
    ensures Merged(chunks, starts, |chunks|, merged)
  {
    forall c, k | 0 <= c < |chunks| && k in chunks[c]
      ensures Shifted(k, cums[c]) == Shifted(k, starts[c])
    {
      SameShift(chunks, sizes, starts, cums, c, k);
    }
    forall name | name in merged
      ensures ComesFrom(chunks, starts, |chunks|, name)
    {
      assert ComesFrom(chunks, cums, |chunks|, name);
    }
  }

  /** The last chunk with layers, among the first n. */
  lemma {:induction false} LastWithLayers(sizes: seq<int>, n: nat) returns (c: nat)
    requires n <= |sizes| && (forall i | 0 <= i < |sizes| :: sizes[i] >= 0) && exists i :: 0 <= i < n && sizes[i] >= 1
    ensures c < n && sizes[c] >= 1 && Sum(sizes[..n]) == Sum(sizes[..c]) + sizes[c]
    ensures forall i | c < i < n :: sizes[i] == 0
  {
    assert sizes[..n] == sizes[..n - 1] + [sizes[n - 1]];
    SumConcat(sizes[..n - 1], [sizes[n - 1]]);
    assert Sum([sizes[n - 1]]) == sizes[n - 1];
    if sizes[n - 1] >= 1 {
      c := n - 1;
    } else {
      c := LastWithLayers(sizes, n - 1);
    }
  }

  /** A chunk without layers in the middle: every later layer comes out one too high. */
  lemma EmptyChunkShiftsLayers(chunks: seq<Dict>, sizes: seq<int>, cums: seq<nat>, c: nat, later: nat)
    requires RunningCounts(chunks, cums, |chunks|) && Sized(chunks, sizes)
    requires c < later < |chunks| && sizes[c] == 0
    ensures cums[later] > cums[0] + Sum(sizes[..later])
  {
    RunningCountIs(chunks, sizes, cums, later);
    CountedAtLeast(sizes, later);
    assert !NoneEmpty(sizes, later);
  }

  /** Behind an empty chunk the last layer of all gets a number that the model does not have. */
  lemma LastLayerIsBeyond(chunks: seq<Dict>, sizes: seq<int>, cums: seq<nat>, merged: Dict) returns (name: Key)
    requires RunningCounts(chunks, cums, |chunks|) && Sized(chunks, sizes) && LayersKept(chunks, cums, |chunks|, merged)
    requires !EmptyOnlyAtEnd(sizes)
    ensures name in merged && name.Layer? && name.layer >= Sum(sizes)
  {
    var i, j :| 0 <= i < j < |sizes| && sizes[j] >= 1 && sizes[i] < 1;
    var c := LastWithLayers(sizes, |sizes|);
    assert sizes[..|sizes|] == sizes;
    EmptyChunkShiftsLayers(chunks, sizes, cums, i, c);
    assert HasLayer(chunks[c], sizes[c] - 1);
    var k :| k in chunks[c] && k.Layer? && k.layer == sizes[c] - 1;
    name := Shifted(k, cums[c]);
  }

  /**
   What the mergers make of a model that was split into chunks of the given sizes: the model itself exactly when
   no chunk without layers comes before one with layers.
   */
  lemma MergeRebuildsExactlyWhen(whole: Dict, chunks: seq<Dict>, sizes: seq<int>, starts: seq<nat>, cums: seq<nat>,
                                 merged: Dict)
    requires IsSplit(whole, chunks, sizes, starts) && Sized(chunks, sizes)
    requires RunningCounts(chunks, cums, |chunks|) && cums[0] == 0 && Merged(chunks, cums, |chunks|, merged)
    ensures merged == whole <==> EmptyOnlyAtEnd(sizes)
  {
    if EmptyOnlyAtEnd(sizes) {
      MergedAtStarts(chunks, sizes, starts, cums, merged);
      MergeUndoesSplit(whole, chunks, sizes, starts, merged);
    } else {
      var name := LastLayerIsBeyond(chunks, sizes, cums, merged);
      assert name !in whole;
    }
  }
}
