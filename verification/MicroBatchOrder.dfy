/** The order of the micro-batches: sorted by workload, the heaviest in the middle. */
module MicroBatchOrder {
  import opened Partition
  import opened Sorting

  /** The sort key: total workload, then first index. */
  predicate KeyLess(w: seq<int>, a: seq<nat>, b: seq<nat>) {
    Load(w, a) < Load(w, b) ||
    (Load(w, a) == Load(w, b) && (if a != [] then a[0] else 0) < (if b != [] then b[0] else 0))
  }

  function NotLighter(w: seq<int>): (seq<nat>, seq<nat>) -> bool {
    (a, b) => !KeyLess(w, a, b)
  }

  ghost predicate Falling(w: seq<int>, s: seq<seq<nat>>) {
    forall i, j | 0 <= i < j < |s| :: Load(w, s[i]) >= Load(w, s[j])
  }

  /** By total workload, and among equal ones by first index, the larger first. */
  ghost predicate HeaviestFirst(w: seq<int>, s: seq<seq<nat>>) {
    forall i, j | 0 <= i < j < |s| :: NoLighter(w, s[i], s[j])
  }

  predicate NoLighter(w: seq<int>, a: seq<nat>, b: seq<nat>) {
    || Load(w, a) > Load(w, b)
    || (Load(w, a) == Load(w, b) && (a != [] && b != [] ==> a[0] >= b[0]) && (a == [] && b != [] ==> b[0] == 0))
  }

  /** micro_bsz_idx.sort(key=..., reverse=True) */
  function SortByKey(w: seq<int>, s: seq<seq<nat>>): (r: seq<seq<nat>>)
    ensures Falling(w, r) && HeaviestFirst(w, r) && multiset(r) == multiset(s)
  {
    SortSorts(NotLighter(w), s);
    Sort(NotLighter(w), s)
  }

  /** s[::2] */
  function Evens<T>(s: seq<T>): seq<T> {
    seq((|s| + 1) / 2, i requires 0 <= i < (|s| + 1) / 2 => s[2 * i])
  }

  /** s[1::2] */
  function Odds<T>(s: seq<T>): seq<T> {
    seq(|s| / 2, i requires 0 <= i < |s| / 2 => s[2 * i + 1])
  }

  /** s[::-1] */
  function Reversed<T>(s: seq<T>): seq<T> {
    seq(|s|, i requires 0 <= i < |s| => s[|s| - 1 - i])
  }

  function Reordered<T>(s: seq<T>): seq<T> {
    Reversed(Evens(s)) + Odds(s)
  }

  /** Small workloads at both ends: up to the peak the loads rise, after it they fall. */
  ghost predicate RisesThenFalls(w: seq<int>, s: seq<seq<nat>>, peak: nat) {
    && peak < |s|
    && (forall i, j | 0 <= i < j <= peak :: Load(w, s[i]) <= Load(w, s[j]))
    && (forall i, j | peak <= i < j < |s| :: Load(w, s[i]) >= Load(w, s[j]))
  }

  /** Where the entries come from: the even places in front of and at the peak, the odd ones behind it. */
  function PlaceOf(peak: nat, i: nat): nat {
    if i <= peak then 2 * (peak - i) else 2 * (i - peak - 1) + 1
  }

  lemma ReorderedAt<T>(s: seq<T>, i: nat)
    requires i < |s|
    ensures |Reordered(s)| == |s| && PlaceOf((|s| - 1) / 2, i) < |s|
    ensures Reordered(s)[i] == s[PlaceOf((|s| - 1) / 2, i)]
  {
    var peak := (|s| - 1) / 2;
    assert |Evens(s)| == peak + 1 && |Odds(s)| == |s| - peak - 1;
    if i <= peak {
      assert Reordered(s)[i] == Reversed(Evens(s))[i] == Evens(s)[peak - i];
    } else {
      assert Reordered(s)[i] == Odds(s)[i - peak - 1];
    }
  }

  lemma ReorderedShape(w: seq<int>, s: seq<seq<nat>>)
    requires s != [] && Falling(w, s)
    ensures RisesThenFalls(w, Reordered(s), (|s| - 1) / 2)
  {
    var peak := (|s| - 1) / 2;
    ReorderedAt(s, 0);
    forall i | 0 <= i < |s|
      ensures PlaceOf(peak, i) < |s| && Reordered(s)[i] == s[PlaceOf(peak, i)]
    {
      ReorderedAt(s, i);
    }
    hide Reordered;
  }

  lemma {:induction false} ReversedMultiset<T>(s: seq<T>)
    ensures multiset(Reversed(s)) == multiset(s)
  {
    if s != [] {
      ReversedMultiset(s[1..]);
      assert Reversed(s) == Reversed(s[1..]) + [s[0]];
      assert s == [s[0]] + s[1..];
    }
  }

  lemma {:induction false} EvensAndOdds<T>(s: seq<T>)
    ensures multiset(Evens(s)) + multiset(Odds(s)) == multiset(s)
    decreases |s|
  {
    if |s| == 1 {
      assert Evens(s) == s && Odds(s) == [];
    } else if |s| > 1 {
      EvensAndOdds(s[2..]);
      assert Evens(s) == [s[0]] + Evens(s[2..]);
      assert Odds(s) == [s[1]] + Odds(s[2..]);
      assert s == [s[0], s[1]] + s[2..];
    }
  }

  lemma ReorderedMultiset<T>(s: seq<T>)
    ensures multiset(Reordered(s)) == multiset(s)
  {
    EvensAndOdds(s);
    ReversedMultiset(Evens(s));
  }
}
