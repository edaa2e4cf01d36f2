/**
 What the end of the warm-up makes of the replies of the other ranks: which of them count as
 measurements, where the thresholds of every layer lie, and exactly when there are none.
 */
module CalibrationOutcome {
  import opened Wrappers
  import opened Reals
  import opened Subspace
  import opened Quantiles
  import opened AlphaStabler
  import P = Predictor

  // ---------------------------------------------------------------- measurements

  /** A pooled energy of at least one token, with more than the least shift per token. */
  predicate Counts(c: Config, t: Tensor) {
    t.Energies? && t.e.rows > 0 && t.e.total > c.minShift * (t.e.rows as real)
  }

  lemma CountsIsPositive(c: Config, t: Tensor)
    requires c.Valid() && Counts(c, t)
    ensures t.e.total + c.epsilon > 0.0
  {
    ProductNonNegative(c.minShift, t.e.rows as real);
  }

  /** The share of the energy that lies in the principal subspace, for every reply that counts. */
  function Intrusions(c: Config, replies: seq<Tensor>): seq<real>
    requires c.Valid()
  {
    if replies == [] then []
    else if Counts(c, replies[0]) then
      CountsIsPositive(c, replies[0]);
      [replies[0].e.principal / (replies[0].e.total + c.epsilon)] + Intrusions(c, replies[1..])
    else Intrusions(c, replies[1..])
  }

  lemma MoreThanPer(total: real, rows: real, least: real)
    requires rows > 0.0
    ensures total / rows > least <==> total > least * rows
  {
    var q := total / rows;
    assert Product(q, rows) == total by { ProductOfQuotient(total, rows); }
    ProductDistributes(rows, q, least);
    if q > least {
      ProductPositive(q - least, rows);
    } else {
      ProductMonotone(rows, q, least);
    }
  }

  /** A pooled energy is measured exactly if it counts, and then as the share in the subspace. */
  lemma MeasureIs(c: Config, e: Energy)
    requires c.Valid()
    ensures Measure(c, e).Some? <==> Counts(c, Energies(e))
    ensures Measure(c, e).Some? ==>
              e.total + c.epsilon > 0.0 && Measure(c, e).value == e.principal / (e.total + c.epsilon)
  {
    if e.rows > 0 {
      MoreThanPer(e.total, e.rows as real, c.minShift);
    }
    if Counts(c, Energies(e)) {
      CountsIsPositive(c, Energies(e));
    }
  }

  ghost predicate AllEnergies(replies: seq<Tensor>) {
    forall i | 0 <= i < |replies| :: replies[i].Energies?
  }

  lemma {:induction false} PsisAre(c: Config, shifts: seq<seq<Vector>>, basis: Basis, values: seq<real>,
                                   inbox: seq<Tensor>)
    requires c.Valid()
    ensures var e, n := PsisFrom(c, shifts, basis, values, inbox), |shifts|;
            && (e.Done? <==> n <= |inbox| && AllEnergies(inbox[..n]))
            && (e.Done? ==> e.value == values + Intrusions(c, inbox[..n]) && e.inbox == inbox[n..])
  {
    hide Measure, ShiftEnergies, Counts;
    if shifts != [] && inbox != [] && inbox[0].Energies? {
      var n, m := |shifts|, Measure(c, inbox[0].e);
      MeasureIs(c, inbox[0].e);
      PsisAre(c, shifts[1..], basis, if m.Some? then values + [m.value] else values, inbox[1..]);
      if n <= |inbox| {
        assert inbox[..n][0] == inbox[0] && inbox[..n][1..] == inbox[1..][..n - 1];
        assert inbox[..n] == [inbox[0]] + inbox[1..][..n - 1];
      }
    }
  }

  // ---------------------------------------------------------------- one layer

  /** Three pooled moments, the shared basis, and one energy per recorded shift. */
  ghost predicate RepliesFor(inbox: seq<Tensor>, n: nat) {
    && |inbox| >= 4 + n
    && inbox[0].Count? && inbox[1].Sums? && inbox[2].Second? && inbox[3].Columns?
    && AllEnergies(inbox[4..4 + n])
  }

  /** Median absolute deviation, scaled to a standard deviation, and kept away from zero. */
  function Scale(c: Config, d: real): real {
    1.4826 * d + c.epsilon
  }

  predicate InOrder(c: Config, m: real, d: real) {
    0.0 < m + Product(c.releaseMad, Scale(c, d)) < m + Product(c.warningMad, Scale(c, d)) < 1.0
  }

  /** The state that calibration leaves a predictor in, given the median and the deviation of its measurements. */
  ghost predicate CalibratedTo(c: Config, p: P.State, m: real, d: real) {
    && p.ema == m && p.count == 0 && !p.active
    && p.warning - m == Product(c.warningMad, Scale(c, d)) && p.release - m == Product(c.releaseMad, Scale(c, d))
  }

  lemma StartIs(c: Config, m: real, d: real)
    ensures StartAt(c, m, d).Success? <==> InOrder(c, m, d)
    ensures StartAt(c, m, d).Failure? ==> StartAt(c, m, d).error == BadThresholds
    ensures StartAt(c, m, d).Success? ==> CalibratedTo(c, StartAt(c, m, d).value, m, d)
  {
    assert 1.4826 * d + c.epsilon == Scale(c, d);
    hide Product, Scale;
  }

  lemma ThresholdsAre(c: Config, values: seq<real>, m: real, d: real)
    requires values != [] && MedianAndDeviation(m, d, values)
    ensures Thresholds(c, values).Success? <==> InOrder(c, m, d)
    ensures Thresholds(c, values).Failure? ==> Thresholds(c, values).error == BadThresholds
    ensures Thresholds(c, values).Success? ==> CalibratedTo(c, Thresholds(c, values).value, m, d)
  {
    var median := Median(values);
    HasMedianAndDeviation(values);
    OneMedianAndDeviation(m, d, median, Median(Distances(values, median)), values);
    hide Median, Distances, StartAt, InOrder, CalibratedTo;
    StartIs(c, m, d);
  }

  lemma InOrderIsFresh(c: Config, p: P.State, m: real, d: real)
    requires InOrder(c, m, d) && CalibratedTo(c, p, m, d)
    ensures p.Fresh()
  {
  }

  /** What is to become of a layer whose replies have all come. */
  ghost predicate OutcomeFor(c: Config, e: Exec<LayerResult>, inbox: seq<Tensor>, n: nat, m: real, d: real)
    requires c.Valid() && RepliesFor(inbox, n)
  {
    var psis := Intrusions(c, inbox[4..4 + n]);
    if inbox[0].n < 2 then e.Stopped? && e.why == Raised(TooFewTokens)
    else if psis == [] then e.Stopped? && e.why == Raised(NoValidShifts)
    else if !InOrder(c, m, d) then e.Stopped? && e.why == Raised(BadThresholds)
    else e.Done? && e.inbox == inbox[4 + n..] && e.value.basis == inbox[3].b && CalibratedTo(c, e.value.predictor, m, d)
  }

  lemma BasisOutcome(c: Config, r: Rank, basis: Basis, shifts: seq<seq<Vector>>, inbox: seq<Tensor>, m: real, d: real)
    requires c.Valid()
    requires |shifts| <= |inbox| && AllEnergies(inbox[..|shifts|])
    requires var psis := Intrusions(c, inbox[..|shifts|]); psis != [] ==> MedianAndDeviation(m, d, psis)
    ensures var e, n := WithBasis(c, r, Columns(basis), shifts, inbox), |shifts|;
            var psis := Intrusions(c, inbox[..n]);
            if psis == [] then e.Stopped? && e.why == Raised(NoValidShifts)
            else if !InOrder(c, m, d) then e.Stopped? && e.why == Raised(BadThresholds)
            else e.Done? && e.inbox == inbox[n..] && e.value.basis == basis && CalibratedTo(c, e.value.predictor, m, d)
  {
    PsisAre(c, shifts, basis, [], inbox);
    var psis := Intrusions(c, inbox[..|shifts|]);
    assert [] + psis == psis;
    hide PsisFrom, Intrusions, InOrder, CalibratedTo;
    if psis != [] {
      ThresholdsAre(c, psis, m, d);
      hide Thresholds;
    }
  }

  lemma BasisNeedsReplies(c: Config, r: Rank, basis: Basis, shifts: seq<seq<Vector>>, inbox: seq<Tensor>)
    requires c.Valid() && WithBasis(c, r, Columns(basis), shifts, inbox).Done?
    ensures |shifts| <= |inbox| && AllEnergies(inbox[..|shifts|])
  {
    PsisAre(c, shifts, basis, [], inbox);
    hide PsisFrom;
  }

  lemma Tails(inbox: seq<Tensor>, n: nat)
    requires |inbox| >= 4
    ensures inbox[1..][1..][1..][1..] == inbox[4..]
    ensures |inbox| >= 4 + n ==> inbox[4..][..n] == inbox[4..4 + n] && inbox[4..][n..] == inbox[4 + n..]
  {
  }

  lemma MomentsOutcome(c: Config, r: Rank, m: Moments, shifts: seq<seq<Vector>>, inbox: seq<Tensor>)
    requires c.Valid() && |inbox| >= 4
    requires inbox[0].Count? && inbox[1].Sums? && inbox[2].Second? && inbox[3].Columns?
    ensures var e := CalibrateLayer(c, r, m, shifts, inbox);
            if inbox[0].n < 2 then e.Stopped? && e.why == Raised(TooFewTokens)
            else
              var f := WithBasis(c, r, inbox[3], shifts, inbox[4..]);
              && (e.Done? <==> f.Done?) && (e.Done? ==> e.value == f.value && e.inbox == f.inbox)
              && (e.Stopped? ==> e.why == f.why)
  {
    hide WithBasis;
    Tails(inbox, 0);
  }

  /** When all replies have come, a layer is calibrated to them, or one of three checks fails. */
  lemma LayerOutcome(c: Config, r: Rank, moments: Moments, shifts: seq<seq<Vector>>, inbox: seq<Tensor>,
                     m: real, d: real)
    requires c.Valid() && RepliesFor(inbox, |shifts|)
    requires var psis := Intrusions(c, inbox[4..4 + |shifts|]); psis != [] ==> MedianAndDeviation(m, d, psis)
    ensures OutcomeFor(c, CalibrateLayer(c, r, moments, shifts, inbox), inbox, |shifts|, m, d)
  {
    hide CalibrateLayer, WithBasis, MedianAndDeviation, Intrusions, InOrder, CalibratedTo;
    Tails(inbox, |shifts|);
    MomentsOutcome(c, r, moments, shifts, inbox);
    BasisOutcome(c, r, inbox[3].b, shifts, inbox[4..], m, d);
  }

  lemma LayerStarts(c: Config, r: Rank, m: Moments, shifts: seq<seq<Vector>>, inbox: seq<Tensor>)
    requires c.Valid() && CalibrateLayer(c, r, m, shifts, inbox).Done?
    ensures |inbox| >= 4 && inbox[0].Count? && inbox[1].Sums? && inbox[2].Second? && inbox[3].Columns?
    ensures inbox[0].n >= 2
  {
    hide WithBasis;
  }

  /** A layer is not calibrated before all replies have come. */
  lemma LayerNeedsReplies(c: Config, r: Rank, moments: Moments, shifts: seq<seq<Vector>>, inbox: seq<Tensor>)
    requires c.Valid() && CalibrateLayer(c, r, moments, shifts, inbox).Done?
    ensures RepliesFor(inbox, |shifts|) && inbox[0].n >= 2 && Intrusions(c, inbox[4..4 + |shifts|]) != []
  {
    hide CalibrateLayer, WithBasis, Intrusions, MedianAndDeviation, InOrder, CalibratedTo;
    LayerStarts(c, r, moments, shifts, inbox);
    MomentsOutcome(c, r, moments, shifts, inbox);
    BasisNeedsReplies(c, r, inbox[3].b, shifts, inbox[4..]);
    Tails(inbox, |shifts|);
    var psis := Intrusions(c, inbox[4..4 + |shifts|]);
    if psis == [] {
      LayerOutcome(c, r, moments, shifts, inbox, 0.0, 0.0);
    }
  }

  // ---------------------------------------------------------------- all layers

  /** A layer takes its replies behind those of the layers before it. */
  function RepliesBefore(layers: seq<Layer>, records: map<Layer, seq<seq<Vector>>>): nat {
    if layers == [] then 0
    else 4 + (if layers[0] in records then |records[layers[0]]| else 0) + RepliesBefore(layers[1..], records)
  }

  lemma {:induction false} OthersAreKept(c: Config, r: Rank, layers: seq<Layer>, s: State, done: Calibration,
                                         inbox: seq<Tensor>, l: Layer)
    requires c.Valid() && CalibrateFrom(c, r, layers, s, done, inbox).Done?
    requires l !in layers && l in done.bases && l in done.predictor
    ensures var e := CalibrateFrom(c, r, layers, s, done, inbox).value;
            l in e.bases && l in e.predictor && e.bases[l] == done.bases[l] && e.predictor[l] == done.predictor[l]
  {
    hide CalibrateLayer;
    if layers != [] {
      var k := layers[0];
      var first := CalibrateLayer(c, r, s.moments[k], s.records[k], inbox);
      var next := Calibration(done.bases[k := first.value.basis], done.predictor[k := first.value.predictor]);
      OthersAreKept(c, r, layers[1..], s, next, first.inbox, l);
    }
  }

  lemma LayerTakes(c: Config, r: Rank, moments: Moments, shifts: seq<seq<Vector>>, inbox: seq<Tensor>)
    requires c.Valid() && CalibrateLayer(c, r, moments, shifts, inbox).Done?
    ensures 4 + |shifts| <= |inbox| && CalibrateLayer(c, r, moments, shifts, inbox).inbox == inbox[4 + |shifts|..]
  {
    LayerNeedsReplies(c, r, moments, shifts, inbox);
    var psis := Intrusions(c, inbox[4..4 + |shifts|]);
    var m := Median(psis);
    HasMedianAndDeviation(psis);
    LayerOutcome(c, r, moments, shifts, inbox, m, Median(Distances(psis, m)));
    hide CalibrateLayer, Intrusions, Median, Distances;
  }

  /** A calibration that succeeds has calibrated every layer, each to its own replies. */
  lemma {:induction false} EveryLayerItsReplies(c: Config, r: Rank, layers: seq<Layer>, s: State, done: Calibration,
                                                inbox: seq<Tensor>, k: nat)
    requires c.Valid() && Distinct(layers) && k < |layers| && CalibrateFrom(c, r, layers, s, done, inbox).Done?
    ensures var e, l, from := CalibrateFrom(c, r, layers, s, done, inbox).value, layers[k], RepliesBefore(layers[..k], s.records);
            && from <= |inbox| && l in s.moments && l in s.records && l in e.bases && l in e.predictor
            && var one := CalibrateLayer(c, r, s.moments[l], s.records[l], inbox[from..]);
               one.Done? && one.value == LayerResult(e.bases[l], e.predictor[l])
  {
    hide CalibrateLayer;
    var f := layers[0];
    var first := CalibrateLayer(c, r, s.moments[f], s.records[f], inbox);
    var next := Calibration(done.bases[f := first.value.basis], done.predictor[f := first.value.predictor]);
    if k == 0 {
      assert inbox[0..] == inbox;
      OthersAreKept(c, r, layers[1..], s, next, first.inbox, f);
    } else {
      LayerTakes(c, r, s.moments[f], s.records[f], inbox);
      EveryLayerItsReplies(c, r, layers[1..], s, next, first.inbox, k - 1);
      assert layers[..k][1..] == layers[1..][..k - 1] && layers[..k][0] == f;
      var taken, from := 4 + |s.records[f]|, RepliesBefore(layers[1..][..k - 1], s.records);
      assert first.inbox[from..] == inbox[taken + from..];
    }
  }

  // ---------------------------------------------------------------- the end of the warm-up

  /** What one warm-up step records of a layer: the moments of its reference tokens, and at a check the shift. */
  lemma {:induction false} WarmUpOfLayer(layers: seq<Layer>, s: State, obs: Observation, check: bool, l: Layer)
    requires Distinct(layers) && WarmUp(layers, s, obs, check).Success?
    ensures var w := WarmUp(layers, s, obs, check).value;
            && w.records.Keys == s.records.Keys
            && (l in layers ==>
                  && l in obs && obs[l].Aligned() && l in w.moments && (check ==> l in s.records)
                  && var before := if l in s.moments then s.moments[l] else NoMoments(obs[l].base.width);
                     before.Shaped() && before.width == obs[l].base.width && w.moments[l] == before.Add(obs[l].base))
            && (l in s.records ==>
                  w.records[l] == if l in layers && check then s.records[l] + [obs[l].Shift()] else s.records[l])
            && (l !in layers ==> (l in w.moments <==> l in s.moments) && (l in s.moments ==> w.moments[l] == s.moments[l]))
  {
    if layers != [] {
      var k := layers[0];
      var before := if k in s.moments then s.moments[k] else NoMoments(obs[k].base.width);
      var records := if check then s.records[k := s.records[k] + [obs[k].Shift()]] else s.records;
      hide Moments.Add, Pair.Shift;
      WarmUpOfLayer(layers[1..], s.(moments := s.moments[k := before.Add(obs[k].base)], records := records), obs, check, l);
    }
  }

  /** How many replies come before those of a layer, if the last warm-up step records one more shift per layer. */
  function RepliesAhead(layers: seq<Layer>, records: map<Layer, seq<seq<Vector>>>, more: nat): nat {
    if layers == [] then 0
    else 4 + (if layers[0] in records then |records[layers[0]]| + more else 0) + RepliesAhead(layers[1..], records, more)
  }

  lemma {:induction false} OneMoreEach(layers: seq<Layer>, before: map<Layer, seq<seq<Vector>>>,
                                       after: map<Layer, seq<seq<Vector>>>, more: nat)
    requires before.Keys == after.Keys
    requires forall l | l in layers && l in before :: |after[l]| == |before[l]| + more
    ensures RepliesBefore(layers, after) == RepliesAhead(layers, before, more)
  {
    if layers != [] {
      assert layers[0] in before.Keys <==> layers[0] in after.Keys;
      OneMoreEach(layers[1..], before, after, more);
    }
  }

  /** x is above the warning threshold, or below the release threshold, by its distance from the median. */
  ghost predicate SeparatedAt(c: Config, p: P.State, m: real, d: real, x: real) {
    && (x > p.warning <==> x - m > Product(c.warningMad, 1.4826 * d + c.epsilon))
    && (x < p.release <==> x - m < Product(c.releaseMad, 1.4826 * d + c.epsilon))
  }

  lemma CalibratedSeparates(c: Config, p: P.State, m: real, d: real, x: real)
    requires CalibratedTo(c, p, m, d)
    ensures SeparatedAt(c, p, m, d, x)
  {
    assert Scale(c, d) == 1.4826 * d + c.epsilon;
    hide Product, Scale;
  }

  /** The number of shifts a layer has recorded at the end of the warm-up. */
  function Recorded(c: Config, s: State, l: Layer): nat
    requires l in s.records && c.Valid()
  {
    |s.records[l]| + if c.warmup % c.interval == 0 then 1 else 0
  }

  lemma LastWarmUpStep(c: Config, r: Rank, layers: seq<Layer>, s: State, obs: Observation, inbox: seq<Tensor>)
    returns (w: State)
    requires c.Valid() && s.step + 1 == c.warmup && ObserveUpdate(c, r, layers, s, Some(obs), inbox).Done?
    ensures var s1, check := s.(step := s.step + 1), c.warmup % c.interval == 0;
            var warm, e := WarmUp(layers, s1, obs, check), ObserveUpdate(c, r, layers, s, Some(obs), inbox);
            && warm == Success(w) && CalibrateFrom(c, r, layers, w, Calibration(map[], map[]), inbox).Done?
            && var found := CalibrateFrom(c, r, layers, w, Calibration(map[], map[]), inbox).value;
               e.value.bases == found.bases && e.value.predictor == found.predictor
  {
    hide WarmUp, CalibrateFrom;
    w := WarmUp(layers, s.(step := s.step + 1), obs, c.warmup % c.interval == 0).value;
  }

  lemma RecordsAtTheEnd(c: Config, layers: seq<Layer>, s: State, obs: Observation, w: State, k: nat)
    requires c.Valid() && Distinct(layers) && k < |layers|
    requires WarmUp(layers, s.(step := s.step + 1), obs, c.warmup % c.interval == 0) == Success(w)
    ensures var more := if c.warmup % c.interval == 0 then 1 else 0;
            RepliesBefore(layers[..k], w.records) == RepliesAhead(layers[..k], s.records, more)
    ensures layers[k] in s.records <==> layers[k] in w.records
    ensures layers[k] in s.records ==> |w.records[layers[k]]| == Recorded(c, s, layers[k])
  {
    var s1, check := s.(step := s.step + 1), c.warmup % c.interval == 0;
    var more := if check then 1 else 0;
    forall l | l in layers
      ensures w.records.Keys == s.records.Keys && (l in s.records ==> |w.records[l]| == |s.records[l]| + more)
    {
      WarmUpOfLayer(layers, s1, obs, check, l);
    }
    hide WarmUp;
    assert layers[k] in layers;
    OneMoreEach(layers[..k], s.records, w.records, more);
  }

  /** A layer whose calibration is done, in terms of its replies. */
  ghost predicate CalibratedBy(c: Config, basis: Basis, p: P.State, replies: seq<Tensor>, n: nat, m: real, d: real,
                               x: real)
    requires c.Valid()
  {
    && RepliesFor(replies, n) && basis == replies[3].b
    && var psis := Intrusions(c, replies[4..4 + n]);
       && psis != []
       && (MedianAndDeviation(m, d, psis) ==>
             InOrder(c, m, d) && p.ema == m && p.Fresh() && SeparatedAt(c, p, m, d, x))
  }

  lemma LayerIsCalibratedBy(c: Config, r: Rank, moments: Moments, shifts: seq<seq<Vector>>, replies: seq<Tensor>,
                            m: real, d: real, x: real)
    requires c.Valid() && CalibrateLayer(c, r, moments, shifts, replies).Done?
    ensures var one := CalibrateLayer(c, r, moments, shifts, replies).value;
            CalibratedBy(c, one.basis, one.predictor, replies, |shifts|, m, d, x)
  {
    LayerNeedsReplies(c, r, moments, shifts, replies);
    var psis := Intrusions(c, replies[4..4 + |shifts|]);
    var median := Median(psis);
    var deviation := Median(Distances(psis, median));
    HasMedianAndDeviation(psis);
    LayerOutcome(c, r, moments, shifts, replies, median, deviation);
    var p := CalibrateLayer(c, r, moments, shifts, replies).value.predictor;
    hide CalibrateLayer, Intrusions, Median, Distances, MedianAndDeviation, InOrder, SeparatedAt, RepliesFor;
    if MedianAndDeviation(m, d, psis) {
      OneMedianAndDeviation(m, d, median, deviation, psis);
      CalibratedSeparates(c, p, m, d, x);
      InOrderIsFresh(c, p, m, d);
    }
  }

  /**
   The step that ends the warm-up leaves every layer with the basis that was shared for it and thresholds around the
   median of its valid measurements, taken from the replies at its place in the order of collectives.
   */
  lemma EndOfWarmUp(c: Config, r: Rank, layers: seq<Layer>, s: State, obs: Observation, inbox: seq<Tensor>, k: nat,
                    m: real, d: real, x: real)
    requires c.Valid() && Distinct(layers) && k < |layers| && s.step + 1 == c.warmup
    requires ObserveUpdate(c, r, layers, s, Some(obs), inbox).Done?
    ensures var e, l := ObserveUpdate(c, r, layers, s, Some(obs), inbox).value, layers[k];
            var from := RepliesAhead(layers[..k], s.records, if c.warmup % c.interval == 0 then 1 else 0);
            && l in s.records && l in e.bases && l in e.predictor && from <= |inbox|
            && CalibratedBy(c, e.bases[l], e.predictor[l], inbox[from..], Recorded(c, s, l), m, d, x)
  {
    hide CalibratedBy, WarmUp, CalibrateFrom, ObserveUpdate, CalibrateLayer;
    var w := LastWarmUpStep(c, r, layers, s, obs, inbox);
    RecordsAtTheEnd(c, layers, s, obs, w, k);
    EveryLayerItsReplies(c, r, layers, w, Calibration(map[], map[]), inbox, k);
    var l, from := layers[k], RepliesBefore(layers[..k], w.records);
    LayerIsCalibratedBy(c, r, w.moments[l], w.records[l], inbox[from..], m, d, x);
  }
}
