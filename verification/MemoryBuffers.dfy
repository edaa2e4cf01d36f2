/**
 verl/utils/memory_buffer.py: the parameters of a module packed into one flat buffer per data type, each at an
 aligned start of its own.
 */
module MemoryBuffers {
  import opened Wrappers
  import opened Arithmetic

  datatype Dtype = Float8 | Float16 | BFloat16 | Float32 | Float64 {
    function Bits(): (b: nat)
      ensures b > 0 && 128 / b > 0
    {
      match this
      case Float8 => 8
      case Float16 => 16
      case BFloat16 => 16
      case Float32 => 32
      case Float64 => 64
    }

    /** Elements in 128 bits. */
    function Align(): (n: nat)
      ensures n > 0
    {
      128 / Bits()
    }
  }

  /** One parameter of the sorted list of names: its data type and number of elements. */
  datatype Meta = Meta(dtype: Dtype, numel: nat)

  /** calc_padded_numel. */
  function PaddedNumel(m: Meta): (n: nat)
    ensures n >= m.numel && n < m.numel + m.dtype.Align() && n % m.dtype.Align() == 0
  {
    var a := m.dtype.Align();
    assert (m.numel + a - 1) / a * a + (m.numel + a - 1) % a == m.numel + a - 1;
    QuotientOfMultiple((m.numel + a - 1) / a, a);
    (m.numel + a - 1) / a * a
  }

  lemma AlignIsExact(d: Dtype)
    ensures d.Align() * d.Bits() == 128
  {
  }

  /** In bits: a multiple of 128 that holds the elements, and the least one. */
  lemma PaddedBits(m: Meta)
    ensures var bits := PaddedNumel(m) * m.dtype.Bits();
            bits % 128 == 0 && m.numel * m.dtype.Bits() <= bits < m.numel * m.dtype.Bits() + 128
  {
    var n, a, b := PaddedNumel(m), m.dtype.Align(), m.dtype.Bits();
    AlignIsExact(m.dtype);
    var q := n / a;
    assert n == q * a;
    assert n * b == q * 128 by {
      Associates(q, a, b);
    }
    ProductMonotone(m.numel, n, b);
    ProductMonotone(n + 1, m.numel + a, b);
    Distributes(b, m.numel, a);
    Distributes(b, n, 1);
    QuotientOfMultiple(q, 128);
  }

  lemma Associates(a: int, b: int, c: int)
    ensures (a * b) * c == a * (b * c)
  {
  }

  /** A single element takes 16, 8, 8, 4 or 2 elements of its type. */
  lemma OneElement()
    ensures PaddedNumel(Meta(Float8, 1)) == 16 && PaddedNumel(Meta(Float16, 1)) == 8
    ensures PaddedNumel(Meta(BFloat16, 1)) == 8 && PaddedNumel(Meta(Float32, 1)) == 4
    ensures PaddedNumel(Meta(Float64, 1)) == 2
  {
  }

  /** Elements that the first n parameters take in the buffer of a data type. */
  function Used(metas: seq<Meta>, n: nat, d: Dtype): nat
    requires n <= |metas|
  {
    if n == 0 then 0
    else Used(metas, n - 1, d) + if metas[n - 1].dtype == d then PaddedNumel(metas[n - 1]) else 0
  }

  lemma {:induction false} UsedGrows(metas: seq<Meta>, m: nat, n: nat, d: Dtype)
    requires m <= n <= |metas|
    ensures Used(metas, m, d) <= Used(metas, n, d)
  {
    if m < n {
      UsedGrows(metas, m, n - 1, d);
    }
  }

  lemma {:induction false} UsedIsAligned(metas: seq<Meta>, n: nat, d: Dtype)
    requires n <= |metas|
    ensures Used(metas, n, d) % d.Align() == 0
  {
    if n > 0 {
      UsedIsAligned(metas, n - 1, d);
      if metas[n - 1].dtype == d {
        SumOfMultiples(Used(metas, n - 1, d), PaddedNumel(metas[n - 1]), d.Align());
      } else {
        assert Used(metas, n, d) == Used(metas, n - 1, d);
      }
    } else {
      QuotientOfMultiple(0, d.Align());
    }
  }

  lemma SumOfMultiples(a: nat, b: nat, k: nat)
    requires k > 0 && a % k == 0 && b % k == 0
    ensures (a + b) % k == 0
  {
    Distributes(k, a / k, b / k);
    QuotientOfMultiple(a / k + b / k, k);
  }

  /** A view of numel elements of a buffer. */
  datatype View = View(dtype: Dtype, start: nat, numel: nat) {
    function End(): nat {
      start + numel
    }

    predicate Overlaps(v: View) {
      dtype == v.dtype && start < v.End() && v.start < End()
    }
  }

  /** Where the i-th parameter lies. */
  function ViewOf(metas: seq<Meta>, i: nat): View
    requires i < |metas|
  {
    View(metas[i].dtype, Used(metas, i, metas[i].dtype), metas[i].numel)
  }

  /** Every view lies in its buffer, starts at a multiple of 128 bits, and overlaps no other view. */
  lemma ViewsAreApart(metas: seq<Meta>, i: nat, j: nat)
    requires i < |metas| && j < |metas|
    ensures ViewOf(metas, i).End() <= Used(metas, |metas|, metas[i].dtype)
    ensures ViewOf(metas, i).start % metas[i].dtype.Align() == 0
    ensures i != j ==> !ViewOf(metas, i).Overlaps(ViewOf(metas, j))
  {
    UsedGrows(metas, i + 1, |metas|, metas[i].dtype);
    UsedIsAligned(metas, i, metas[i].dtype);
    if i < j {
      UsedGrows(metas, i + 1, j, metas[i].dtype);
    } else if j < i {
      UsedGrows(metas, j + 1, i, metas[j].dtype);
    }
  }

  // ---------------------------------------------------------------- buffers

  class MemoryBuffer {
    const numel: nat
    const data: array<real>

    ghost predicate Valid() {
      data.Length == numel
    }

    constructor (n: nat)
      ensures Valid() && numel == n && fresh(data) && forall k | 0 <= k < n :: data[k] == 0.0
    {
      numel, data := n, new real[n](_ => 0.0);
    }

    /** get: a view, unless the request is out of range. */
    method Get(dtype: Dtype, n: nat, start: nat) returns (v: Option<View>)
      ensures v == if start + n <= numel then Some(View(dtype, start, n)) else None
    {
      if start + n > numel {
        return None;
      }
      return Some(View(dtype, start, n));
    }
  }

  type Buffers = map<Dtype, MemoryBuffer>

  ghost predicate HasType(metas: seq<Meta>, n: nat, d: Dtype)
    requires n <= |metas|
  {
    exists i :: 0 <= i < n && metas[i].dtype == d
  }

  /** One buffer of its own for each data type that occurs, just large enough for its parameters. */
  ghost predicate BuiltFor(metas: seq<Meta>, buffers: Buffers) {
    && (forall d | HasType(metas, |metas|, d) :: d in buffers)
    && (forall d | d in buffers :: buffers[d].Valid() && buffers[d].numel == Used(metas, |metas|, d))
    && (forall d, e | d in buffers && e in buffers && d != e :: buffers[d].data != buffers[e].data)
  }

  /** The totals of build_memory_buffer. */
  method TotalNumel(metas: seq<Meta>) returns (totals: map<Dtype, nat>)
    ensures forall d :: d in totals <==> HasType(metas, |metas|, d)
    ensures forall d | d in totals :: totals[d] == Used(metas, |metas|, d)
  {
    totals := map[];
    for i := 0 to |metas|
      invariant forall d :: d in totals <==> HasType(metas, i, d)
      invariant forall d :: Used(metas, i, d) == if d in totals then totals[d] else 0
    {
      var d := metas[i].dtype;
      var before := if d in totals then totals[d] else 0;
      totals := totals[d := before + PaddedNumel(metas[i])];
    }
  }

  /** build_memory_buffer. */
  method BuildMemoryBuffer(metas: seq<Meta>) returns (buffers: Buffers)
    ensures BuiltFor(metas, buffers)
    ensures forall d | d in buffers :: fresh(buffers[d]) && fresh(buffers[d].data)
  {
    var totals := TotalNumel(metas);
    buffers := map[];
    var rest := totals.Keys;
    while rest != {}
      invariant rest <= totals.Keys && buffers.Keys == totals.Keys - rest
      invariant forall d | d in buffers :: fresh(buffers[d]) && fresh(buffers[d].data)
      invariant forall d | d in buffers :: buffers[d].Valid() && buffers[d].numel == Used(metas, |metas|, d)
      invariant forall d, e | d in buffers && e in buffers && d != e :: buffers[d].data != buffers[e].data
    {
      var d :| d in rest;
      var b := new MemoryBuffer(totals[d]);
      buffers := buffers[d := b];
      rest := rest - {d};
    }
  }

  ghost predicate StartsAt(metas: seq<Meta>, i: nat, starts: map<Dtype, nat>)
    requires i <= |metas|
  {
    forall d | d in starts :: starts[d] == Used(metas, i, d)
  }

  /** build_memory_reference: no request is out of range, and the views are where ViewOf says. */
  method BuildMemoryReference(metas: seq<Meta>, buffers: Buffers) returns (views: seq<View>)
    requires BuiltFor(metas, buffers)
    ensures |views| == |metas| && forall i | 0 <= i < |metas| :: views[i] == ViewOf(metas, i)
  {
    var starts: map<Dtype, nat> := map d | d in buffers :: 0;
    views := [];
    for i := 0 to |metas|
      invariant |views| == i && forall j | 0 <= j < i :: views[j] == ViewOf(metas, j)
      invariant starts.Keys == buffers.Keys && StartsAt(metas, i, starts)
    {
      var d := metas[i].dtype;
      assert HasType(metas, |metas|, d);
      ViewsAreApart(metas, i, i);
      var view := buffers[d].Get(d, metas[i].numel, starts[d]);
      starts := starts[d := starts[d] + PaddedNumel(metas[i])];
      views := views + [view.value];
    }
  }

  /** What the buffers hold. */
  type Memory = map<Dtype, seq<real>>

  ghost function Snapshot(buffers: Buffers): (m: Memory)
    reads set d | d in buffers :: buffers[d].data
    ensures m.Keys == buffers.Keys && forall d | d in buffers :: m[d] == buffers[d].data[..]
  {
    map d | d in buffers :: buffers[d].data[..]
  }

  /** A parameter that is a view of the buffers reads x. */
  ghost predicate Reads(m: Memory, v: View, x: seq<real>) {
    v.dtype in m && v.End() <= |m[v.dtype]| && m[v.dtype][v.start..v.End()] == x
  }

  /** The first i parameters read what they held before. */
  ghost predicate Kept(metas: seq<Meta>, params: seq<seq<real>>, m: Memory, i: nat)
    requires i <= |metas| == |params|
  {
    forall j | 0 <= j < i :: Reads(m, ViewOf(metas, j), params[j])
  }

  /** x written at the start of a view. */
  ghost function Written(m: Memory, v: View, x: seq<real>): Memory
    requires v.dtype in m && v.End() <= |m[v.dtype]|
  {
    m[v.dtype := m[v.dtype][..v.start] + x + m[v.dtype][v.End()..]]
  }

  /** Writing one view leaves what the views that do not overlap it read. */
  lemma WriteKeeps(m: Memory, v: View, x: seq<real>, w: View, y: seq<real>)
    requires v.dtype in m && v.End() <= |m[v.dtype]| && |x| == v.numel
    ensures Reads(Written(m, v, x), v, x)
    ensures Reads(m, w, y) && !v.Overlaps(w) ==> Reads(Written(m, v, x), w, y)
  {
  }

  lemma WriteKeepsAll(metas: seq<Meta>, params: seq<seq<real>>, m: Memory, i: nat)
    requires i < |metas| == |params| && |params[i]| == metas[i].numel && Kept(metas, params, m, i)
    requires metas[i].dtype in m && ViewOf(metas, i).End() <= |m[metas[i].dtype]|
    ensures Kept(metas, params, Written(m, ViewOf(metas, i), params[i]), i + 1)
  {
    var v := ViewOf(metas, i);
    forall j | 0 <= j < i + 1
      ensures Reads(Written(m, v, params[i]), ViewOf(metas, j), params[j])
    {
      ViewsAreApart(metas, i, j);
      WriteKeeps(m, v, params[i], ViewOf(metas, j), params[j]);
    }
  }

  /** buffer.copy_(param.data). */
  method CopyInto(a: array<real>, start: nat, x: seq<real>)
    requires start + |x| <= a.Length
    modifies a
    ensures a[..] == old(a[..start]) + x + old(a[start + |x|..])
  {
    for k := 0 to |x|
      invariant a[..start] == old(a[..start]) && a[start..start + k] == x[..k]
      invariant a[start + k..] == old(a[start + k..])
    {
      a[start + k] := x[k];
      assert a[start..start + k + 1] == a[start..start + k] + [x[k]];
      assert x[..k + 1] == x[..k] + [x[k]];
    }
    assert a[..] == a[..start] + a[start..start + |x|] + a[start + |x|..];
    assert x[..|x|] == x;
  }

  /** Copy a parameter to its place in the buffer of its type. */
  method CopyParameter(metas: seq<Meta>, params: seq<seq<real>>, buffers: Buffers, i: nat)
    requires BuiltFor(metas, buffers) && i < |metas| == |params| && |params[i]| == metas[i].numel
    requires metas[i].dtype in buffers && Kept(metas, params, Snapshot(buffers), i)
    modifies buffers[metas[i].dtype].data
    ensures Kept(metas, params, Snapshot(buffers), i + 1)
  {
    hide Kept;
    ghost var before := Snapshot(buffers);
    ViewsAreApart(metas, i, i);
    WriteKeepsAll(metas, params, before, i);
    CopyInto(buffers[metas[i].dtype].data, ViewOf(metas, i).start, params[i]);
    assert Snapshot(buffers) == Written(before, ViewOf(metas, i), params[i]);
  }

  lemma NothingKept(metas: seq<Meta>, params: seq<seq<real>>, m: Memory)
    requires |metas| == |params|
    ensures Kept(metas, params, m, 0)
  {
  }

  /**
   build_memory_reference_from_module: the parameters become the same views as those of build_memory_reference,
   and if their weights are to be maintained every one reads its old contents afterwards.
   */
  method BuildMemoryReferenceFromModule(metas: seq<Meta>, params: seq<seq<real>>, buffers: Buffers, maintainWeight: bool)
    returns (views: seq<View>)
    requires BuiltFor(metas, buffers) && |params| == |metas|
    requires forall i | 0 <= i < |metas| :: |params[i]| == metas[i].numel
    modifies set d | d in buffers :: buffers[d].data
    ensures |views| == |metas| && forall i | 0 <= i < |metas| :: views[i] == ViewOf(metas, i)
    ensures maintainWeight ==> Kept(metas, params, Snapshot(buffers), |metas|)
    ensures !maintainWeight ==> Snapshot(buffers) == old(Snapshot(buffers))
  {
    hide Kept, Written, View.Overlaps;
    NothingKept(metas, params, Snapshot(buffers));
    var starts: map<Dtype, nat> := map d | d in buffers :: 0;
    views := [];
    for i := 0 to |metas|
      invariant |views| == i && forall j | 0 <= j < i :: views[j] == ViewOf(metas, j)
      invariant starts.Keys == buffers.Keys && StartsAt(metas, i, starts)
      invariant maintainWeight ==> Kept(metas, params, Snapshot(buffers), i)
      invariant !maintainWeight ==> Snapshot(buffers) == old(Snapshot(buffers))
    {
      var d := metas[i].dtype;
      assert HasType(metas, |metas|, d);
      ViewsAreApart(metas, i, i);
      var view := buffers[d].Get(d, metas[i].numel, starts[d]);
      starts := starts[d := starts[d] + PaddedNumel(metas[i])];
      if maintainWeight {
        CopyParameter(metas, params, buffers, i);
      }
      views := views + [view.value];
    }
  }
}
