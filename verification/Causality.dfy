/**
 How a rank's computations use the replies of the collectives: one reply per collective, in order, nothing is issued
 that depends on a later reply, and only so many are issued at all.
 */
module Causality {
  import opened Wrappers
  import opened Subspace
  import opened AlphaStabler
  import opened RankAgreement
  import P = Predictor

  /**
   A computation with replies inbox (e) and with further replies behind them (f).  If it is done or has failed,
   further replies change nothing; if it waits, then for the reply after the last one or because a reply is of another
   kind, and what it has issued is what it issues first with more replies.
   */
  ghost predicate Steady<A(!new)>(e: Exec<A>, f: Exec<A>, inbox: seq<Tensor>, more: seq<Tensor>, bound: nat) {
    && |e.calls| <= bound
    && (e.Done? ==>
          && |e.calls| <= |inbox| && e.inbox == inbox[|e.calls|..] && f == Done(e.value, e.calls, e.inbox + more))
    && (e.Stopped? && e.why.Raised? ==> |e.calls| <= |inbox| && f == e)
    && (e.Stopped? && e.why.Waiting? ==> e.calls != [] && StartsWith(f.calls, e.calls) && Stuck(e.calls, inbox))
  }

  ghost predicate StartsWith<T>(a: seq<T>, b: seq<T>) {
    |b| <= |a| && b == a[..|b|]
  }

  ghost predicate Stuck(calls: seq<Call>, inbox: seq<Tensor>)
    requires calls != []
  {
    var last := |calls| - 1;
    last == |inbox| || (last < |inbox| && !SameKind(calls[last].t, inbox[last]))
  }

  /** One computation after another. */
  ghost function Then<A, B>(first: Exec<A>, rest: Exec<B>): Exec<B> {
    if first.Stopped? then Stopped(first.why, first.calls) else rest.After(first.calls)
  }

  lemma SliceOfSlice<T>(s: seq<T>, a: nat, b: nat)
    requires a + b <= |s|
    ensures s[a..][b..] == s[a + b..]
  {
  }

  lemma PrefixAppend<T>(a: seq<T>, b: seq<T>, c: seq<T>)
    requires StartsWith(a, b)
    ensures StartsWith(a + c, b) && StartsWith(c + a, c + b)
  {
    assert (c + a)[..|c + b|] == c + b;
  }

  lemma StuckAfter(before: seq<Call>, calls: seq<Call>, inbox: seq<Tensor>)
    requires calls != [] && |before| <= |inbox| && Stuck(calls, inbox[|before|..])
    ensures Stuck(before + calls, inbox)
  {
  }

  lemma SteadyThen<A(!new), B(!new)>(first: Exec<A>, first': Exec<A>, rest: Exec<B>, rest': Exec<B>, inbox: seq<Tensor>,
                                     more: seq<Tensor>, b: nat, b': nat)
    requires Steady(first, first', inbox, more, b)
    requires first.Done? ==> Steady(rest, rest', first.inbox, more, b')
    ensures Steady(Then(first, rest), Then(first', rest'), inbox, more, b + b')
  {
    hide Stuck, StartsWith;
    if first.Done? {
      if rest.Done? {
        SliceOfSlice(inbox, |first.calls|, |rest.calls|);
      } else if rest.why.Waiting? {
        StuckAfter(first.calls, rest.calls, inbox);
        PrefixAppend(rest'.calls, rest.calls, first.calls);
      }
    } else if first.why.Waiting? && first'.Done? {
      PrefixAppend(first'.calls, first.calls, rest'.calls);
    }
  }

  lemma SteadyMore<A(!new)>(e: Exec<A>, f: Exec<A>, inbox: seq<Tensor>, more: seq<Tensor>, b: nat, b': nat)
    requires Steady(e, f, inbox, more, b) && b <= b'
    ensures Steady(e, f, inbox, more, b')
  {
  }

  lemma SteadyDone<A(!new)>(v: A, inbox: seq<Tensor>, more: seq<Tensor>)
    ensures Steady(Done(v, [], inbox), Done(v, [], inbox + more), inbox, more, 0)
  {
  }

  // ---------------------------------------------------------------- the computations of the controller

  lemma ExchangeSteady(call: Call, inbox: seq<Tensor>, more: seq<Tensor>)
    ensures Steady(Exchange(call, inbox), Exchange(call, inbox + more), inbox, more, 1)
  {
    if inbox != [] {
      assert (inbox + more)[0] == inbox[0] && (inbox + more)[1..] == inbox[1..] + more;
    }
  }

  lemma EnergySteady(shift: seq<Vector>, basis: Basis, inbox: seq<Tensor>, more: seq<Tensor>)
    ensures Steady(PooledEnergy(shift, basis, inbox), PooledEnergy(shift, basis, inbox + more), inbox, more, 1)
  {
    ExchangeSteady(AllReduce(Energies(ShiftEnergies(shift, basis))), inbox, more);
  }

  lemma PsisThen(c: Config, shifts: seq<seq<Vector>>, basis: Basis, values: seq<real>, inbox: seq<Tensor>)
    requires c.Valid() && shifts != []
    ensures var first := PooledEnergy(shifts[0], basis, inbox);
            PsisFrom(c, shifts, basis, values, inbox) ==
            Then(first, if first.Done? then PsisFrom(c, shifts[1..], basis, Collected(c, values, first.value), first.inbox)
                        else Done([], [], []))
  {
  }

  function Collected(c: Config, values: seq<real>, e: Energy): seq<real>
    requires c.Valid()
  {
    var m := Measure(c, e);
    if m.Some? then values + [m.value] else values
  }

  lemma {:induction false} PsisSteady(c: Config, shifts: seq<seq<Vector>>, basis: Basis, values: seq<real>,
                                      inbox: seq<Tensor>, more: seq<Tensor>)
    requires c.Valid()
    ensures Steady(PsisFrom(c, shifts, basis, values, inbox), PsisFrom(c, shifts, basis, values, inbox + more),
                   inbox, more, |shifts|)
  {
    if shifts == [] {
      SteadyDone(values, inbox, more);
    } else {
      var first := PooledEnergy(shifts[0], basis, inbox);
      var first' := PooledEnergy(shifts[0], basis, inbox + more);
      EnergySteady(shifts[0], basis, inbox, more);
      PsisThen(c, shifts, basis, values, inbox);
      PsisThen(c, shifts, basis, values, inbox + more);
      if first.Done? {
        PsisSteady(c, shifts[1..], basis, Collected(c, values, first.value), first.inbox, more);
      }
      hide PooledEnergy, PsisFrom, Steady, Collected, Then;
      SteadyThen(first, first',
                 if first.Done? then PsisFrom(c, shifts[1..], basis, Collected(c, values, first.value), first.inbox)
                 else Done([], [], []),
                 if first'.Done? then PsisFrom(c, shifts[1..], basis, Collected(c, values, first'.value), first'.inbox)
                 else Done([], [], []),
                 inbox, more, 1, |shifts| - 1);
    }
  }

  // ---------------------------------------------------------------- calibration

  /** The thresholds computed from the measurements, which need no collective. */
  function Finished(c: Config, r: Rank, basis: Basis, values: seq<real>, rest: seq<Tensor>): Exec<LayerResult> {
    var thresholds := Thresholds(c, values);
    if thresholds.Failure? then Stopped(Raised(thresholds.error), [])
    else Done(LayerResult(basis, thresholds.value), [], rest)
  }

  lemma AppendNothing<T>(a: seq<T>)
    ensures a + [] == a
  {
  }

  lemma BasisThen(c: Config, r: Rank, basis: Basis, shifts: seq<seq<Vector>>, inbox: seq<Tensor>)
    requires c.Valid()
    ensures var psis := PsisFrom(c, shifts, basis, [], inbox);
            WithBasis(c, r, Columns(basis), shifts, inbox) ==
            Then(psis, if psis.Done? then Finished(c, r, basis, psis.value, psis.inbox) else Stopped(Waiting, []))
  {
    hide PsisFrom, Thresholds;
    AppendNothing(PsisFrom(c, shifts, basis, [], inbox).calls);
  }

  lemma BasisSteady(c: Config, r: Rank, basis: Basis, shifts: seq<seq<Vector>>, inbox: seq<Tensor>, more: seq<Tensor>)
    requires c.Valid()
    ensures Steady(WithBasis(c, r, Columns(basis), shifts, inbox), WithBasis(c, r, Columns(basis), shifts, inbox + more),
                   inbox, more, |shifts|)
  {
    var psis, psis' := PsisFrom(c, shifts, basis, [], inbox), PsisFrom(c, shifts, basis, [], inbox + more);
    PsisSteady(c, shifts, basis, [], inbox, more);
    BasisThen(c, r, basis, shifts, inbox);
    BasisThen(c, r, basis, shifts, inbox + more);
    hide PsisFrom, WithBasis, Thresholds, Then;
    SteadyThen(psis, psis',
               if psis.Done? then Finished(c, r, basis, psis.value, psis.inbox) else Stopped(Waiting, []),
               if psis'.Done? then Finished(c, r, basis, psis'.value, psis'.inbox) else Stopped(Waiting, []),
               inbox, more, |shifts|, 0);
  }

  lemma SharedIsBasis(call: Call, inbox: seq<Tensor>)
    ensures var e := Exchange(call, inbox); e.Done? ==> SameKind(call.t, e.value)
  {
  }

  lemma MomentsSteady(c: Config, r: Rank, n: nat, sums: Vector, second: seq<Vector>, shifts: seq<seq<Vector>>,
                      inbox: seq<Tensor>, more: seq<Tensor>)
    requires c.Valid()
    ensures Steady(WithMoments(c, r, Count(n), Sums(sums), Second(second), shifts, inbox),
                   WithMoments(c, r, Count(n), Sums(sums), Second(second), shifts, inbox + more),
                   inbox, more, 1 + |shifts|)
  {
    if n >= 2 {
      var call := Broadcast(Columns(r.principal(n, sums, second)));
      var shared, shared' := Exchange(call, inbox), Exchange(call, inbox + more);
      ExchangeSteady(call, inbox, more);
      SharedIsBasis(call, inbox);
      if shared.Done? {
        BasisSteady(c, r, shared.value.b, shifts, shared.inbox, more);
      }
      hide Exchange, WithBasis;
      SteadyThen(shared, shared',
                 if shared.Done? then WithBasis(c, r, shared.value, shifts, shared.inbox) else Stopped(Waiting, []),
                 if shared'.Done? then WithBasis(c, r, shared'.value, shifts, shared'.inbox) else Stopped(Waiting, []),
                 inbox, more, 1, |shifts|);
    }
  }

  /** Calibrating a layer from the second and from the third pooled moment on. */
  ghost function FromSums(c: Config, r: Rank, m: Moments, shifts: seq<seq<Vector>>, n: Tensor, inbox: seq<Tensor>)
    : Exec<LayerResult>
    requires c.Valid()
  {
    var sums := Exchange(AllReduce(Sums(m.sums)), inbox);
    Then(sums, if sums.Done? then FromSecond(c, r, m, shifts, n, sums.value, sums.inbox) else Stopped(Waiting, []))
  }

  ghost function FromSecond(c: Config, r: Rank, m: Moments, shifts: seq<seq<Vector>>, n: Tensor, sums: Tensor,
                            inbox: seq<Tensor>): Exec<LayerResult>
    requires c.Valid()
  {
    var second := Exchange(AllReduce(Second(m.second)), inbox);
    Then(second, if second.Done? then WithMoments(c, r, n, sums, second.value, shifts, second.inbox)
                 else Stopped(Waiting, []))
  }

  lemma LayerThen(c: Config, r: Rank, m: Moments, shifts: seq<seq<Vector>>, inbox: seq<Tensor>)
    requires c.Valid()
    ensures var n := Exchange(AllReduce(Count(m.n)), inbox);
            CalibrateLayer(c, r, m, shifts, inbox) ==
            Then(n, if n.Done? then FromSums(c, r, m, shifts, n.value, n.inbox) else Stopped(Waiting, []))
  {
    hide WithMoments, Exchange;
    var n := Exchange(AllReduce(Count(m.n)), inbox);
    if n.Done? {
      var sums := Exchange(AllReduce(Sums(m.sums)), n.inbox);
      if sums.Done? {
        var second := Exchange(AllReduce(Second(m.second)), sums.inbox);
        Regroup(n.calls, sums.calls, second.calls);
        if second.Done? {
          var rest := WithMoments(c, r, n.value, sums.value, second.value, shifts, second.inbox);
          AfterTwice(rest, sums.calls, second.calls);
          AfterTwice(rest, n.calls, sums.calls + second.calls);
        }
      }
    }
  }

  lemma Regroup<T>(a: seq<T>, b: seq<T>, c: seq<T>)
    ensures a + b + c == a + (b + c)
  {
  }

  lemma SecondSteady(c: Config, r: Rank, m: Moments, shifts: seq<seq<Vector>>, n: nat, sums: Vector, inbox: seq<Tensor>,
                     more: seq<Tensor>)
    requires c.Valid()
    ensures Steady(FromSecond(c, r, m, shifts, Count(n), Sums(sums), inbox),
                   FromSecond(c, r, m, shifts, Count(n), Sums(sums), inbox + more), inbox, more, 2 + |shifts|)
  {
    var call := AllReduce(Second(m.second));
    var second, second' := Exchange(call, inbox), Exchange(call, inbox + more);
    ExchangeSteady(call, inbox, more);
    SharedIsBasis(call, inbox);
    if second.Done? {
      MomentsSteady(c, r, n, sums, second.value.m, shifts, second.inbox, more);
    }
    hide Exchange, WithMoments;
    SteadyThen(second, second',
               if second.Done? then WithMoments(c, r, Count(n), Sums(sums), second.value, shifts, second.inbox)
               else Stopped(Waiting, []),
               if second'.Done? then WithMoments(c, r, Count(n), Sums(sums), second'.value, shifts, second'.inbox)
               else Stopped(Waiting, []),
               inbox, more, 1, 1 + |shifts|);
  }

  lemma SumsSteady(c: Config, r: Rank, m: Moments, shifts: seq<seq<Vector>>, n: nat, inbox: seq<Tensor>, more: seq<Tensor>)
    requires c.Valid()
    ensures Steady(FromSums(c, r, m, shifts, Count(n), inbox), FromSums(c, r, m, shifts, Count(n), inbox + more),
                   inbox, more, 3 + |shifts|)
  {
    var call := AllReduce(Sums(m.sums));
    var sums, sums' := Exchange(call, inbox), Exchange(call, inbox + more);
    ExchangeSteady(call, inbox, more);
    SharedIsBasis(call, inbox);
    if sums.Done? {
      SecondSteady(c, r, m, shifts, n, sums.value.v, sums.inbox, more);
    }
    hide Exchange, FromSecond;
    SteadyThen(sums, sums',
               if sums.Done? then FromSecond(c, r, m, shifts, Count(n), sums.value, sums.inbox) else Stopped(Waiting, []),
               if sums'.Done? then FromSecond(c, r, m, shifts, Count(n), sums'.value, sums'.inbox) else Stopped(Waiting, []),
               inbox, more, 1, 2 + |shifts|);
  }

  lemma LayerSteady(c: Config, r: Rank, m: Moments, shifts: seq<seq<Vector>>, inbox: seq<Tensor>, more: seq<Tensor>)
    requires c.Valid()
    ensures Steady(CalibrateLayer(c, r, m, shifts, inbox), CalibrateLayer(c, r, m, shifts, inbox + more),
                   inbox, more, 4 + |shifts|)
  {
    var call := AllReduce(Count(m.n));
    var n, n' := Exchange(call, inbox), Exchange(call, inbox + more);
    ExchangeSteady(call, inbox, more);
    SharedIsBasis(call, inbox);
    if n.Done? {
      SumsSteady(c, r, m, shifts, n.value.n, n.inbox, more);
    }
    LayerThen(c, r, m, shifts, inbox);
    LayerThen(c, r, m, shifts, inbox + more);
    hide Exchange, FromSums, CalibrateLayer;
    SteadyThen(n, n',
               if n.Done? then FromSums(c, r, m, shifts, n.value, n.inbox) else Stopped(Waiting, []),
               if n'.Done? then FromSums(c, r, m, shifts, n'.value, n'.inbox) else Stopped(Waiting, []),
               inbox, more, 1, 3 + |shifts|);
  }

  /** No calibration of the layers issues more collectives. */
  ghost function CalibrationBound(layers: seq<Layer>, s: State): nat {
    if layers == [] then 0
    else 4 + (if layers[0] in s.records then |s.records[layers[0]]| else 0) + CalibrationBound(layers[1..], s)
  }

  function Found(done: Calibration, l: Layer, result: LayerResult): Calibration {
    Calibration(done.bases[l := result.basis], done.predictor[l := result.predictor])
  }

  lemma CalibrationThen(c: Config, r: Rank, layers: seq<Layer>, s: State, done: Calibration, inbox: seq<Tensor>)
    requires c.Valid() && layers != [] && layers[0] in s.moments && layers[0] in s.records
    ensures var first := CalibrateLayer(c, r, s.moments[layers[0]], s.records[layers[0]], inbox);
            CalibrateFrom(c, r, layers, s, done, inbox) ==
            Then(first, if first.Done?
                        then CalibrateFrom(c, r, layers[1..], s, Found(done, layers[0], first.value), first.inbox)
                        else Stopped(Waiting, []))
  {
    FirstLayer(c, r, layers, s, done, inbox);
    hide CalibrateLayer, CalibrateFrom;
  }

  lemma {:induction false} CalibrationSteady(c: Config, r: Rank, layers: seq<Layer>, s: State, done: Calibration,
                                             inbox: seq<Tensor>, more: seq<Tensor>)
    requires c.Valid()
    ensures Steady(CalibrateFrom(c, r, layers, s, done, inbox), CalibrateFrom(c, r, layers, s, done, inbox + more),
                   inbox, more, CalibrationBound(layers, s))
  {
    if layers == [] {
      SteadyDone(done, inbox, more);
    } else if layers[0] in s.moments && layers[0] in s.records {
      var l := layers[0];
      var first := CalibrateLayer(c, r, s.moments[l], s.records[l], inbox);
      var first' := CalibrateLayer(c, r, s.moments[l], s.records[l], inbox + more);
      LayerSteady(c, r, s.moments[l], s.records[l], inbox, more);
      CalibrationThen(c, r, layers, s, done, inbox);
      CalibrationThen(c, r, layers, s, done, inbox + more);
      if first.Done? {
        CalibrationSteady(c, r, layers[1..], s, Found(done, l, first.value), first.inbox, more);
      }
      hide CalibrateLayer, CalibrateFrom, Then, Found;
      SteadyThen(first, first',
                 if first.Done? then CalibrateFrom(c, r, layers[1..], s, Found(done, l, first.value), first.inbox)
                 else Stopped(Waiting, []),
                 if first'.Done? then CalibrateFrom(c, r, layers[1..], s, Found(done, l, first'.value), first'.inbox)
                 else Stopped(Waiting, []),
                 inbox, more, 4 + |s.records[l]|, CalibrationBound(layers[1..], s));
    }
  }

  lemma CalibrateSteady(c: Config, r: Rank, layers: seq<Layer>, s: State, inbox: seq<Tensor>, more: seq<Tensor>)
    requires c.Valid()
    ensures Steady(Calibrate(c, r, layers, s, inbox), Calibrate(c, r, layers, s, inbox + more), inbox, more,
                   CalibrationBound(layers, s))
  {
    CalibrationSteady(c, r, layers, s, Calibration(map[], map[]), inbox, more);
    hide CalibrateFrom;
  }

  // ---------------------------------------------------------------- monitoring, and the whole step

  lemma MonitorOneSteady(c: Config, l: Layer, s: State, obs: Observation, inbox: seq<Tensor>, more: seq<Tensor>)
    requires c.Valid()
    ensures Steady(MonitorOne(c, l, s, obs, inbox), MonitorOne(c, l, s, obs, inbox + more), inbox, more, 1)
  {
    if l in obs && l in s.bases && l in s.predictor && obs[l].Aligned() {
      EnergySteady(obs[l].Shift(), s.bases[l], inbox, more);
      hide PooledEnergy, Measure, P.Step;
    }
  }

  lemma MonitorThen(c: Config, layers: seq<Layer>, s: State, obs: Observation, inbox: seq<Tensor>)
    requires c.Valid() && layers != []
    ensures var first := MonitorOne(c, layers[0], s, obs, inbox);
            MonitorFrom(c, layers, s, obs, inbox) ==
            Then(first, if first.Done? then MonitorFrom(c, layers[1..], first.value, obs, first.inbox)
                        else Stopped(Waiting, []))
  {
    hide MonitorOne;
  }

  lemma {:induction false} MonitorSteady(c: Config, layers: seq<Layer>, s: State, obs: Observation, inbox: seq<Tensor>,
                                         more: seq<Tensor>)
    requires c.Valid()
    ensures Steady(MonitorFrom(c, layers, s, obs, inbox), MonitorFrom(c, layers, s, obs, inbox + more), inbox, more,
                   |layers|)
    decreases layers
  {
    if layers == [] {
      SteadyDone(s, inbox, more);
    } else {
      var first, first' := MonitorOne(c, layers[0], s, obs, inbox), MonitorOne(c, layers[0], s, obs, inbox + more);
      MonitorOneSteady(c, layers[0], s, obs, inbox, more);
      MonitorThen(c, layers, s, obs, inbox);
      MonitorThen(c, layers, s, obs, inbox + more);
      if first.Done? {
        MonitorSteady(c, layers[1..], first.value, obs, first.inbox, more);
      }
      hide MonitorOne, MonitorFrom, Then;
      SteadyThen(first, first',
                 if first.Done? then MonitorFrom(c, layers[1..], first.value, obs, first.inbox) else Stopped(Waiting, []),
                 if first'.Done? then MonitorFrom(c, layers[1..], first'.value, obs, first'.inbox) else Stopped(Waiting, []),
                 inbox, more, 1, |layers| - 1);
    }
  }

  /** No step issues more collectives. */
  ghost function StepBound(layers: seq<Layer>, s: State, given: Option<Observation>, check: bool): nat {
    if given.None? then 0
    else
      var warm := WarmUp(layers, s, given.value, check);
      |layers| + if warm.Success? then CalibrationBound(layers, warm.value) else 0
  }

  ghost function BoundOf(c: Config, layers: seq<Layer>, s: State, given: Option<Observation>): nat
    requires c.Valid()
  {
    StepBound(layers, s.(step := s.step + 1), given, (s.step + 1) % c.interval == 0)
  }

  lemma SteadyFailed<A(!new)>(error: Error, inbox: seq<Tensor>, more: seq<Tensor>)
    ensures Steady<A>(Stopped(Raised(error), []), Stopped(Raised(error), []), inbox, more, 0)
  {
  }

  lemma WarmUpSteady(c: Config, r: Rank, layers: seq<Layer>, s: State, obs: Observation, inbox: seq<Tensor>,
                     more: seq<Tensor>)
    requires c.Valid() && s.step + 1 <= c.warmup
    ensures Steady(ObserveUpdate(c, r, layers, s, Some(obs), inbox), ObserveUpdate(c, r, layers, s, Some(obs), inbox + more),
                   inbox, more, BoundOf(c, layers, s, Some(obs)))
  {
    hide WarmUp, Calibrate, MonitorFrom, CalibrationBound, Steady;
    var s1 := s.(step := s.step + 1);
    var warm, bound := WarmUp(layers, s1, obs, s1.step % c.interval == 0), BoundOf(c, layers, s, Some(obs));
    var e, f := ObserveUpdate(c, r, layers, s, Some(obs), inbox), ObserveUpdate(c, r, layers, s, Some(obs), inbox + more);
    if warm.Failure? {
      SteadyFailed<State>(warm.error, inbox, more);
      SteadyMore(e, f, inbox, more, 0, bound);
    } else if s1.step == c.warmup {
      CalibrateSteady(c, r, layers, warm.value, inbox, more);
      SteadyMore(e, f, inbox, more, CalibrationBound(layers, warm.value), bound);
    } else {
      SteadyDone(warm.value, inbox, more);
      SteadyMore(e, f, inbox, more, 0, bound);
    }
  }

  /** A step of observe_update takes one reply after the other, and at most so many. */
  lemma StepSteady(c: Config, r: Rank, layers: seq<Layer>, s: State, given: Option<Observation>, inbox: seq<Tensor>,
                   more: seq<Tensor>)
    requires c.Valid()
    ensures Steady(ObserveUpdate(c, r, layers, s, given, inbox), ObserveUpdate(c, r, layers, s, given, inbox + more),
                   inbox, more, BoundOf(c, layers, s, given))
  {
    hide WarmUp, Calibrate, MonitorFrom, CalibrationBound, Steady;
    var s1, bound := s.(step := s.step + 1), BoundOf(c, layers, s, given);
    var e, f := ObserveUpdate(c, r, layers, s, given, inbox), ObserveUpdate(c, r, layers, s, given, inbox + more);
    if given.None? {
      SteadyDone(s1, inbox, more);
      SteadyMore(e, f, inbox, more, 0, bound);
    } else if s1.step <= c.warmup {
      WarmUpSteady(c, r, layers, s, given.value, inbox, more);
    } else if !s1.Calibrated() {
      SteadyFailed<State>(NotCalibrated, inbox, more);
      SteadyMore(e, f, inbox, more, 0, bound);
    } else if s1.step % c.interval != 0 {
      SteadyDone(s1, inbox, more);
      SteadyMore(e, f, inbox, more, 0, bound);
    } else {
      MonitorSteady(c, layers, s1, given.value, inbox, more);
      SteadyMore(e, f, inbox, more, |layers|, bound);
    }
  }
}
