/** The parameters of a model chunk, and the entries that the checkpoint mergers make of them. */
module CheckpointEntries {

  /** A parameter of a chunk; OUTPUT_LAYER is the head that tied embeddings leave out, Unknown what has no new name. */
  datatype Name = InLayer(layer: nat, id: int) | Outside(id: int) | ExtraState(id: int) | Unknown(id: int)

  const OUTPUT_LAYER: Name := Outside(0)

  /** What a tensor is split into, if it is a fused one. */
  datatype Pieces = Whole(t: int) | GateUp(gate: int, up: int) | Qkv(q: int, k: int, v: int)

  type Chunk = map<Name, Pieces>

  datatype Part = Plain | Gate | Up | Q | K | V

  datatype Component = Component(id: int, part: Part)

  /** A name in the merged model: a layer number with a component, or a component outside the layers. */
  datatype Key = Layer(layer: nat, component: Component) | Global(component: Component)

  type Dict = map<Key, int>

  function PartsOf(p: Pieces): map<Part, int> {
    match p
    case Whole(t) => map[Plain := t]
    case GateUp(gate, up) => map[Gate := gate, Up := up]
    case Qkv(q, k, v) => map[Q := q, K := k, V := v]
  }

  predicate Skipped(n: Name, tied: bool) {
    n.ExtraState? || (tied && n == OUTPUT_LAYER)
  }

  /** Makes entries of the merged model. */
  predicate IsMerged(n: Name, tied: bool) {
    !Skipped(n, tied) && !n.Unknown?
  }

  function Renamed(n: Name, part: Part): Key {
    if n.InLayer? then Layer(n.layer, Component(n.id, part)) else Global(Component(n.id, part))
  }

  /** The parameter that an entry is made of. */
  function Origin(k: Key): Name {
    match k
    case Layer(l, c) => InLayer(l, c.id)
    case Global(c) => Outside(c.id)
  }

  predicate HasEntry(d: Chunk, tied: bool, k: Key) {
    Origin(k) in d && IsMerged(Origin(k), tied) && k.component.part in PartsOf(d[Origin(k)])
  }

  /** e has exactly the parts of all parameters that are not skipped. */
  ghost predicate AreEntries(d: Chunk, tied: bool, e: Dict) {
    && (forall k :: k in e <==> HasEntry(d, tied, k))
    && (forall k | k in e :: e[k] == PartsOf(d[Origin(k)])[k.component.part])
  }

  /** The entries of a chunk under their new names, with local layer numbers. */
  function Entries(d: Chunk, tied: bool): (e: Dict)
    ensures AreEntries(d, tied, e)
  {
    var keys := set n, part | n in d && IsMerged(n, tied) && part in PartsOf(d[n]) :: Renamed(n, part);
    assert forall k | HasEntry(d, tied, k) :: Renamed(Origin(k), k.component.part) == k;
    map k | k in keys :: PartsOf(d[Origin(k)])[k.component.part]
  }

  lemma EntriesAreUnique(d: Chunk, tied: bool, e: Dict)
    requires AreEntries(d, tied, e)
    ensures e == Entries(d, tied)
  {
  }

  function AllEntries(chunks: seq<Chunk>, tied: bool): seq<Dict> {
    seq(|chunks|, i requires 0 <= i < |chunks| => Entries(chunks[i], tied))
  }

  lemma SkippedAddsNothing(d: Chunk, tied: bool, n: Name, p: Pieces)
    requires n !in d && Skipped(n, tied)
    ensures Entries(d[n := p], tied) == Entries(d, tied)
  {
    hide Entries;
    EntriesAreUnique(d[n := p], tied, Entries(d, tied));
  }

  /** The entries of one parameter. */
  function OwnEntries(n: Name, p: Pieces): Dict {
    match p
    case Whole(t) => map[Renamed(n, Plain) := t]
    case GateUp(gate, up) => map[Renamed(n, Gate) := gate, Renamed(n, Up) := up]
    case Qkv(q, k, v) => map[Renamed(n, Q) := q, Renamed(n, K) := k, Renamed(n, V) := v]
  }

  lemma OwnEntriesAre(n: Name, p: Pieces, k: Key)
    requires n.InLayer? || n.Outside?
    ensures k in OwnEntries(n, p) <==> Origin(k) == n && k.component.part in PartsOf(p)
    ensures k in OwnEntries(n, p) ==> OwnEntries(n, p)[k] == PartsOf(p)[k.component.part]
  {
  }

  lemma EntryAddsParts(d: Chunk, tied: bool, n: Name, p: Pieces)
    requires n !in d && IsMerged(n, tied)
    ensures Entries(d[n := p], tied) == Entries(d, tied) + OwnEntries(n, p)
  {
    hide Entries, OwnEntries, PartsOf;
    forall k
      ensures k in OwnEntries(n, p) <==> Origin(k) == n && k.component.part in PartsOf(p)
      ensures k in OwnEntries(n, p) ==> OwnEntries(n, p)[k] == PartsOf(p)[k.component.part]
    {
      OwnEntriesAre(n, p, k);
    }
    EntriesAreUnique(d[n := p], tied, Entries(d, tied) + OwnEntries(n, p));
  }
}
