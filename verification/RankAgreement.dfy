/**
 Data-parallel ranks run the controller in lock step: whatever the collectives reply, ranks in agreeing states
 issue the same collectives and stay in agreement.
 */
module RankAgreement {
  import opened Wrappers
  import opened Subspace
  import opened AlphaStabler

  /** Same step, bases and predictors; moments and records of the same layers, with as many records each. */
  ghost predicate Agree(s: State, t: State) {
    && s.step == t.step && s.bases == t.bases && s.predictor == t.predictor
    && s.moments.Keys == t.moments.Keys && SameRecords(s.records, t.records)
  }

  ghost predicate SameRecords(a: map<Layer, seq<seq<Vector>>>, b: map<Layer, seq<seq<Vector>>>) {
    a.Keys == b.Keys && forall l | l in a :: |a[l]| == |b[l]|
  }

  /** From the same moments two ranks compute bases of the same size. */
  ghost predicate Compatible(r: Rank, r': Rank) {
    forall n, v, m :: SameSize(r.principal(n, v, m), r'.principal(n, v, m))
  }

  /** Same collectives so far, and the same value and remaining replies, or stopped for the same reason. */
  ghost predicate InStep<A(!new)>(a: Exec<A>, b: Exec<A>) {
    && SameCalls(a.calls, b.calls)
    && (a.Done? <==> b.Done?)
    && (a.Done? && b.Done? ==> a.value == b.value && a.inbox == b.inbox)
    && (a.Stopped? && b.Stopped? ==> a.why == b.why)
  }

  /** The same for computations of states, which only have to agree. */
  ghost predicate StatesInStep(a: Exec<State>, b: Exec<State>) {
    && SameCalls(a.calls, b.calls)
    && (a.Done? <==> b.Done?)
    && (a.Done? && b.Done? ==> Agree(a.value, b.value) && a.inbox == b.inbox)
    && (a.Stopped? && b.Stopped? ==> a.why == b.why)
  }

  lemma SameCallsAppend(a: seq<Call>, b: seq<Call>, x: seq<Call>, y: seq<Call>)
    requires SameCalls(a, b) && SameCalls(x, y)
    ensures SameCalls(a + x, b + y)
  {
  }

  lemma EnergiesInStep(shift: seq<Vector>, shift': seq<Vector>, basis: Basis, inbox: seq<Tensor>)
    ensures InStep(PooledEnergy(shift, basis, inbox), PooledEnergy(shift', basis, inbox))
  {
  }

  lemma {:induction false} PsisInStep(c: Config, shifts: seq<seq<Vector>>, shifts': seq<seq<Vector>>, basis: Basis,
                                      values: seq<real>, inbox: seq<Tensor>)
    requires c.Valid() && |shifts| == |shifts'|
    ensures InStep(PsisFrom(c, shifts, basis, values, inbox), PsisFrom(c, shifts', basis, values, inbox))
  {
    if shifts != [] {
      EnergiesInStep(shifts[0], shifts'[0], basis, inbox);
      var first := PooledEnergy(shifts[0], basis, inbox);
      var first' := PooledEnergy(shifts'[0], basis, inbox);
      if first.Done? {
        var m := Measure(c, first.value);
        var more := if m.Some? then values + [m.value] else values;
        PsisInStep(c, shifts[1..], shifts'[1..], basis, more, first.inbox);
        SameCallsAppend(first.calls, first'.calls,
                        PsisFrom(c, shifts[1..], basis, more, first.inbox).calls,
                        PsisFrom(c, shifts'[1..], basis, more, first.inbox).calls);
      }
    }
  }

  lemma BasesInStep(c: Config, r: Rank, r': Rank, basis: Tensor, shifts: seq<seq<Vector>>, shifts': seq<seq<Vector>>,
                    inbox: seq<Tensor>)
    requires c.Valid() && |shifts| == |shifts'| && Compatible(r, r')
    ensures InStep(WithBasis(c, r, basis, shifts, inbox), WithBasis(c, r', basis, shifts', inbox))
  {
    if basis.Columns? {
      PsisInStep(c, shifts, shifts', basis.b, [], inbox);
    }
  }

  /** Eigenvectors may differ between the ranks; the broadcast makes the basis the same. */
  lemma MomentsInStep(c: Config, r: Rank, r': Rank, n: Tensor, sums: Tensor, second: Tensor, shifts: seq<seq<Vector>>,
                      shifts': seq<seq<Vector>>, inbox: seq<Tensor>)
    requires c.Valid() && |shifts| == |shifts'| && Compatible(r, r')
    ensures InStep(WithMoments(c, r, n, sums, second, shifts, inbox),
                   WithMoments(c, r', n, sums, second, shifts', inbox))
  {
    if n.Count? && sums.Sums? && second.Second? && n.n >= 2 {
      var mine := Exchange(Broadcast(Columns(r.principal(n.n, sums.v, second.m))), inbox);
      var theirs := Exchange(Broadcast(Columns(r'.principal(n.n, sums.v, second.m))), inbox);
      if mine.Done? {
        BasesInStep(c, r, r', mine.value, shifts, shifts', mine.inbox);
      }
    }
  }

  lemma LayersInStep(c: Config, r: Rank, r': Rank, m: Moments, m': Moments, shifts: seq<seq<Vector>>,
                     shifts': seq<seq<Vector>>, inbox: seq<Tensor>)
    requires c.Valid() && |shifts| == |shifts'| && Compatible(r, r')
    requires m.Shaped() && m'.Shaped() && m.width == m'.width
    ensures InStep(CalibrateLayer(c, r, m, shifts, inbox), CalibrateLayer(c, r', m', shifts', inbox))
  {
    var n, n' := Exchange(AllReduce(Count(m.n)), inbox), Exchange(AllReduce(Count(m'.n)), inbox);
    if n.Done? {
      var sums, sums' := Exchange(AllReduce(Sums(m.sums)), n.inbox), Exchange(AllReduce(Sums(m'.sums)), n.inbox);
      SameCallsAppend(n.calls, n'.calls, sums.calls, sums'.calls);
      if sums.Done? {
        var second := Exchange(AllReduce(Second(m.second)), sums.inbox);
        var second' := Exchange(AllReduce(Second(m'.second)), sums.inbox);
        SameCallsAppend(n.calls + sums.calls, n'.calls + sums'.calls, second.calls, second'.calls);
        if second.Done? {
          MomentsInStep(c, r, r', n.value, sums.value, second.value, shifts, shifts', second.inbox);
          SameCallsAppend(n.calls + sums.calls + second.calls, n'.calls + sums'.calls + second'.calls,
                          WithMoments(c, r, n.value, sums.value, second.value, shifts, second.inbox).calls,
                          WithMoments(c, r', n.value, sums.value, second.value, shifts', second.inbox).calls);
        }
      }
    }
  }

  lemma AfterInStep<A(!new)>(a: Exec<A>, b: Exec<A>, x: seq<Call>, y: seq<Call>)
    requires InStep(a, b) && SameCalls(x, y)
    ensures InStep(a.After(x), b.After(y))
  {
    hide SameCall;
    SameCallsAppend(x, y, a.calls, b.calls);
  }

  /** Calibrating starts with the first layer. */
  lemma FirstLayer(c: Config, r: Rank, layers: seq<Layer>, s: State, done: Calibration, inbox: seq<Tensor>)
    requires c.Valid() && layers != [] && layers[0] in s.moments && layers[0] in s.records
    ensures var l, all := layers[0], CalibrateFrom(c, r, layers, s, done, inbox);
            var first := CalibrateLayer(c, r, s.moments[l], s.records[l], inbox);
            if first.Stopped? then all == Stopped(first.why, first.calls)
            else
              var next := Calibration(done.bases[l := first.value.basis], done.predictor[l := first.value.predictor]);
              all == CalibrateFrom(c, r, layers[1..], s, next, first.inbox).After(first.calls)
  {
    hide CalibrateLayer;
  }

  lemma {:induction false} CalibrationsInStep(c: Config, r: Rank, r': Rank, layers: seq<Layer>, s: State, t: State,
                                              done: Calibration, inbox: seq<Tensor>, width: nat)
    requires c.Valid() && Compatible(r, r') && MomentsHaveWidth(s.moments, width) && MomentsHaveWidth(t.moments, width)
    requires s.moments.Keys == t.moments.Keys && SameRecords(s.records, t.records)
    ensures InStep(CalibrateFrom(c, r, layers, s, done, inbox), CalibrateFrom(c, r', layers, t, done, inbox))
  {
    if layers != [] && layers[0] in s.moments.Keys && layers[0] in s.records.Keys {
      hide CalibrateFrom, CalibrateLayer, SameCalls, Exec.After, Compatible;
      var l := layers[0];
      LayersInStep(c, r, r', s.moments[l], t.moments[l], s.records[l], t.records[l], inbox);
      FirstLayer(c, r, layers, s, done, inbox);
      FirstLayer(c, r', layers, t, done, inbox);
      var mine := CalibrateLayer(c, r, s.moments[l], s.records[l], inbox);
      var theirs := CalibrateLayer(c, r', t.moments[l], t.records[l], inbox);
      if mine.Done? {
        var next := Calibration(done.bases[l := mine.value.basis], done.predictor[l := mine.value.predictor]);
        CalibrationsInStep(c, r, r', layers[1..], s, t, next, mine.inbox, width);
        AfterInStep(CalibrateFrom(c, r, layers[1..], s, next, mine.inbox),
                    CalibrateFrom(c, r', layers[1..], t, next, mine.inbox), mine.calls, theirs.calls);
      }
    }
  }

  // ---------------------------------------------------------------- one step

  /** The observation has every layer in one shape, which is that of the moments so far. */
  ghost predicate Fits(layers: seq<Layer>, moments: map<Layer, Moments>, obs: Observation) {
    forall l | l in layers :: Usable(obs, l) && FitsMoments(l, moments, obs[l].base.width)
  }

  ghost predicate FitsMoments(l: Layer, moments: map<Layer, Moments>, width: nat) {
    l in moments ==> moments[l].Shaped() && moments[l].width == width
  }

  /** The state after the warm-up work for one layer. */
  ghost function Warmed(l: Layer, s: State, obs: Observation, check: bool): State
    requires Usable(obs, l) && FitsMoments(l, s.moments, obs[l].base.width) && (check ==> l in s.records)
  {
    var before := if l in s.moments then s.moments[l] else NoMoments(obs[l].base.width);
    var records := if check then s.records[l := s.records[l] + [obs[l].Shift()]] else s.records;
    s.(moments := s.moments[l := before.Add(obs[l].base)], records := records)
  }

  lemma WarmUpStep(layers: seq<Layer>, s: State, obs: Observation, check: bool)
    requires layers != [] && Fits(layers, s.moments, obs)
    ensures Usable(obs, layers[0]) && FitsMoments(layers[0], s.moments, obs[layers[0]].base.width)
    ensures check && layers[0] !in s.records ==> WarmUp(layers, s, obs, check) == Failure(MissingLayer)
    ensures (check ==> layers[0] in s.records) ==>
              && WarmUp(layers, s, obs, check) == WarmUp(layers[1..], Warmed(layers[0], s, obs, check), obs, check)
              && Fits(layers[1..], Warmed(layers[0], s, obs, check).moments, obs)
  {
  }

  lemma {:induction false} WarmUpsAgree(layers: seq<Layer>, s: State, t: State, obs: Observation, obs': Observation,
                                        check: bool)
    requires Agree(s, t) && Fits(layers, s.moments, obs) && Fits(layers, t.moments, obs')
    ensures var a, b := WarmUp(layers, s, obs, check), WarmUp(layers, t, obs', check);
            && (a.Success? && b.Success? ==> Agree(a.value, b.value))
            && (a.Success? <==> b.Success?) && (a.Failure? && b.Failure? ==> a.error == b.error)
  {
    if layers != [] {
      WarmUpStep(layers, s, obs, check);
      WarmUpStep(layers, t, obs', check);
      assert layers[0] in s.records.Keys <==> layers[0] in t.records.Keys;
      if check ==> layers[0] in s.records {
        var s', t' := Warmed(layers[0], s, obs, check), Warmed(layers[0], t, obs', check);
        WarmedAgree(layers[0], s, t, obs, obs', check);
        WarmUpsAgree(layers[1..], s', t', obs, obs', check);
      }
    }
  }

  lemma WarmedAgree(l: Layer, s: State, t: State, obs: Observation, obs': Observation, check: bool)
    requires Agree(s, t) && Usable(obs, l) && Usable(obs', l) && (check ==> l in s.records && l in t.records)
    requires FitsMoments(l, s.moments, obs[l].base.width) && FitsMoments(l, t.moments, obs'[l].base.width)
    ensures Agree(Warmed(l, s, obs, check), Warmed(l, t, obs', check))
  {
  }

  lemma MonitorOneInStep(c: Config, l: Layer, s: State, t: State, obs: Observation, obs': Observation,
                         inbox: seq<Tensor>)
    requires c.Valid() && Agree(s, t) && Usable(obs, l) && Usable(obs', l)
    ensures StatesInStep(MonitorOne(c, l, s, obs, inbox), MonitorOne(c, l, t, obs', inbox))
  {
    if l in s.bases && l in s.predictor {
    }
  }

  lemma {:induction false} MonitorsInStep(c: Config, layers: seq<Layer>, s: State, t: State, obs: Observation,
                                          obs': Observation, inbox: seq<Tensor>)
    requires c.Valid() && Agree(s, t) && forall l | l in layers :: Usable(obs, l) && Usable(obs', l)
    ensures StatesInStep(MonitorFrom(c, layers, s, obs, inbox), MonitorFrom(c, layers, t, obs', inbox))
    decreases layers
  {
    if layers != [] {
      var l := layers[0];
      assert l in layers;
      MonitorOneInStep(c, l, s, t, obs, obs', inbox);
      var mine, theirs := MonitorOne(c, l, s, obs, inbox), MonitorOne(c, l, t, obs', inbox);
      if mine.Done? {
        MonitorsInStep(c, layers[1..], mine.value, theirs.value, obs, obs', mine.inbox);
        SameCallsAppend(mine.calls, theirs.calls, MonitorFrom(c, layers[1..], mine.value, obs, mine.inbox).calls,
                        MonitorFrom(c, layers[1..], theirs.value, obs', mine.inbox).calls);
      }
    }
  }

  /** Every observation has every layer, all in the model's width. */
  ghost predicate HasWidth(layers: seq<Layer>, width: nat, given: Option<Observation>) {
    given.Some? ==> forall l | l in layers :: Usable(given.value, l) && given.value[l].base.width == width
  }

  ghost predicate MomentsHaveWidth(moments: map<Layer, Moments>, width: nat) {
    forall l | l in moments :: moments[l].Shaped() && moments[l].width == width
  }

  lemma ObservationFits(layers: seq<Layer>, moments: map<Layer, Moments>, obs: Observation, width: nat)
    requires HasWidth(layers, width, Some(obs)) && MomentsHaveWidth(moments, width)
    ensures Fits(layers, moments, obs)
  {
  }

  lemma {:induction false} WarmUpKeepsWidth(layers: seq<Layer>, s: State, obs: Observation, check: bool, width: nat)
    requires HasWidth(layers, width, Some(obs)) && MomentsHaveWidth(s.moments, width)
    ensures var a := WarmUp(layers, s, obs, check); a.Success? ==> MomentsHaveWidth(a.value.moments, width)
  {
    if layers != [] {
      assert Fits(layers, s.moments, obs);
      if check ==> layers[0] in s.records {
        assert HasWidth(layers[1..], width, Some(obs)) by {
          assert forall l | l in layers[1..] :: l in layers;
        }
        WarmUpKeepsWidth(layers[1..], Warmed(layers[0], s, obs, check), obs, check, width);
      }
    }
  }

  lemma CalibratesInStep(c: Config, r: Rank, r': Rank, layers: seq<Layer>, s: State, t: State, inbox: seq<Tensor>,
                         width: nat)
    requires c.Valid() && Compatible(r, r') && Agree(s, t)
    requires MomentsHaveWidth(s.moments, width) && MomentsHaveWidth(t.moments, width)
    ensures StatesInStep(Calibrate(c, r, layers, s, inbox), Calibrate(c, r', layers, t, inbox))
  {
    CalibrationsInStep(c, r, r', layers, s, t, Calibration(map[], map[]), inbox, width);
    hide CalibrateFrom, SameCalls, Compatible, MomentsHaveWidth;
  }

  /** The step of the warm-up phase that observations fit. */
  lemma WarmUpsInStep(c: Config, r: Rank, r': Rank, layers: seq<Layer>, s: State, t: State, obs: Observation,
                      obs': Observation, check: bool, inbox: seq<Tensor>, width: nat)
    requires c.Valid() && Compatible(r, r') && Agree(s, t)
    requires HasWidth(layers, width, Some(obs)) && MomentsHaveWidth(s.moments, width)
    requires HasWidth(layers, width, Some(obs')) && MomentsHaveWidth(t.moments, width)
    ensures var a, b := WarmUp(layers, s, obs, check), WarmUp(layers, t, obs', check);
            && (a.Success? && b.Success? ==>
                  && Agree(a.value, b.value)
                  && StatesInStep(Calibrate(c, r, layers, a.value, inbox), Calibrate(c, r', layers, b.value, inbox)))
            && (a.Success? <==> b.Success?) && (a.Failure? && b.Failure? ==> a.error == b.error)
  {
    ObservationFits(layers, s.moments, obs, width);
    ObservationFits(layers, t.moments, obs', width);
    hide WarmUp, Calibrate, StatesInStep, MomentsHaveWidth, Fits, HasWidth, Compatible, Agree;
    WarmUpsAgree(layers, s, t, obs, obs', check);
    WarmUpKeepsWidth(layers, s, obs, check, width);
    WarmUpKeepsWidth(layers, t, obs', check, width);
    var a, b := WarmUp(layers, s, obs, check), WarmUp(layers, t, obs', check);
    if a.Success? {
      CalibratesInStep(c, r, r', layers, a.value, b.value, inbox, width);
    }
  }

  /**
   One observe_update on two ranks: for every sequence of replies they issue the same collectives, wait or fail
   at the same one, and agree again when the step is done.
   */
  lemma StepsAgree(c: Config, r: Rank, r': Rank, layers: seq<Layer>, s: State, t: State,
                   given: Option<Observation>, given': Option<Observation>, inbox: seq<Tensor>, width: nat)
    requires c.Valid() && Compatible(r, r') && Agree(s, t) && (given.Some? <==> given'.Some?)
    requires HasWidth(layers, width, given) && MomentsHaveWidth(s.moments, width)
    requires HasWidth(layers, width, given') && MomentsHaveWidth(t.moments, width)
    ensures StatesInStep(ObserveUpdate(c, r, layers, s, given, inbox), ObserveUpdate(c, r', layers, t, given', inbox))
  {
    hide WarmUp, Calibrate, MonitorFrom, SameCall, Compatible, MomentsHaveWidth, SameRecords;
    var s1, t1 := s.(step := s.step + 1), t.(step := t.step + 1);
    var check := s1.step % c.interval == 0;
    if given.Some? && s1.step <= c.warmup {
      WarmUpsInStep(c, r, r', layers, s1, t1, given.value, given'.value, check, inbox, width);
      hide HasWidth;
    } else if given.Some? && s1.Calibrated() && check {
      MonitorsInStep(c, layers, s1, t1, given.value, given'.value, inbox);
    }
  }

  // ---------------------------------------------------------------- whole runs

  /** One call of observe_update, with the replies that arrive during it. */
  datatype Turn = Turn(given: Option<Observation>, inbox: seq<Tensor>)

  function Train(c: Config, r: Rank, layers: seq<Layer>, s: State, turns: seq<Turn>): Exec<State>
    requires c.Valid()
    decreases turns
  {
    if turns == [] then Done(s, [], [])
    else
      var first := ObserveUpdate(c, r, layers, s, turns[0].given, turns[0].inbox);
      if first.Stopped? then first else Train(c, r, layers, first.value, turns[1..]).After(first.calls)
  }

  lemma {:induction false} MonitorKeepsMoments(c: Config, layers: seq<Layer>, s: State, obs: Observation,
                                               inbox: seq<Tensor>)
    requires c.Valid()
    ensures var a := MonitorFrom(c, layers, s, obs, inbox); a.Done? ==> a.value.moments == s.moments
    decreases layers
  {
    if layers != [] {
      var first := MonitorOne(c, layers[0], s, obs, inbox);
      if first.Done? {
        MonitorKeepsMoments(c, layers[1..], first.value, obs, first.inbox);
      }
    }
  }

  lemma StepKeepsWidth(c: Config, r: Rank, layers: seq<Layer>, s: State, turn: Turn, width: nat)
    requires c.Valid() && HasWidth(layers, width, turn.given) && MomentsHaveWidth(s.moments, width)
    ensures var a := ObserveUpdate(c, r, layers, s, turn.given, turn.inbox);
            a.Done? ==> MomentsHaveWidth(a.value.moments, width)
  {
    var s1 := s.(step := s.step + 1);
    if turn.given.Some? {
      if s1.step <= c.warmup {
        WarmUpKeepsWidth(layers, s1, turn.given.value, s1.step % c.interval == 0, width);
      } else {
        MonitorKeepsMoments(c, layers, s1, turn.given.value, turn.inbox);
      }
    }
  }

  ghost predicate SameTurns(turns: seq<Turn>, turns': seq<Turn>) {
    && |turns| == |turns'|
    && forall i | 0 <= i < |turns| :: turns[i].inbox == turns'[i].inbox && (turns[i].given.Some? <==> turns'[i].given.Some?)
  }

  /** The same over whole runs, for any number of ranks taken two at a time. */
  lemma {:induction false} RunsAgree(c: Config, r: Rank, r': Rank, layers: seq<Layer>, s: State, t: State,
                                     turns: seq<Turn>, turns': seq<Turn>, width: nat)
    requires c.Valid() && Compatible(r, r') && Agree(s, t) && SameTurns(turns, turns')
    requires MomentsHaveWidth(s.moments, width) && MomentsHaveWidth(t.moments, width)
    requires forall i | 0 <= i < |turns| :: HasWidth(layers, width, turns[i].given)
    requires forall i | 0 <= i < |turns'| :: HasWidth(layers, width, turns'[i].given)
    ensures StatesInStep(Train(c, r, layers, s, turns), Train(c, r', layers, t, turns'))
    decreases turns
  {
    if turns != [] {
      StepsAgree(c, r, r', layers, s, t, turns[0].given, turns'[0].given, turns[0].inbox, width);
      StepKeepsWidth(c, r, layers, s, turns[0], width);
      StepKeepsWidth(c, r', layers, t, turns'[0], width);
      var first := ObserveUpdate(c, r, layers, s, turns[0].given, turns[0].inbox);
      var first' := ObserveUpdate(c, r', layers, t, turns'[0].given, turns[0].inbox);
      if first.Done? {
        RunsAgree(c, r, r', layers, first.value, first'.value, turns[1..], turns'[1..], width);
        SameCallsAppend(first.calls, first'.calls, Train(c, r, layers, first.value, turns[1..]).calls,
                        Train(c, r', layers, first'.value, turns'[1..]).calls);
      }
    }
  }

  // ---------------------------------------------------------------- observations and checkpoints

  /** When no observation is asked for, the step does not depend on what is observed. */
  lemma UnneededObservation(c: Config, r: Rank, layers: seq<Layer>, s: State, obs: Observation, obs': Observation,
                            inbox: seq<Tensor>)
    requires c.Valid() && !NeedsObservation(c, s)
    ensures ObserveUpdate(c, r, layers, s, Some(obs), inbox) == ObserveUpdate(c, r, layers, s, Some(obs'), inbox)
    ensures s.Calibrated() ==>
              ObserveUpdate(c, r, layers, s, Some(obs), inbox) == ObserveUpdate(c, r, layers, s, None, inbox)
  {
  }

  lemma {:induction false} TokensGrow(layers: seq<Layer>, s: State, obs: Observation, check: bool, l: Layer)
    requires WarmUp(layers, s, obs, check).Success? && l in s.moments
    ensures var a := WarmUp(layers, s, obs, check).value; l in a.moments && a.moments[l].n >= s.moments[l].n
  {
    if layers != [] {
      var k, base := layers[0], obs[layers[0]].base;
      var before := if k in s.moments then s.moments[k] else NoMoments(base.width);
      var records := if check then s.records[k := s.records[k] + [obs[k].Shift()]] else s.records;
      TokensGrow(layers[1..], s.(moments := s.moments[k := before.Add(base)], records := records), obs, check, l);
    }
  }

  lemma WarmUpUsesTokens(layers: seq<Layer>, s: State, obs: Observation, check: bool)
    requires layers != [] && layers[0] in obs && obs[layers[0]].base.rows != []
    requires WarmUp(layers, s, obs, check).Success?
    ensures WarmUp(layers, s, obs, check).value != s
  {
    var k, base := layers[0], obs[layers[0]].base;
    var before := if k in s.moments then s.moments[k] else NoMoments(base.width);
    var records := if check then s.records[k := s.records[k] + [obs[k].Shift()]] else s.records;
    TokensGrow(layers[1..], s.(moments := s.moments[k := before.Add(base)], records := records), obs, check, k);
  }

  lemma MonitoringTalks(c: Config, layers: seq<Layer>, s: State, obs: Observation, inbox: seq<Tensor>)
    requires c.Valid() && layers != []
    ensures var e := MonitorFrom(c, layers, s, obs, inbox); e.Done? ==> e.calls != []
  {
  }

  lemma LayerTalks(c: Config, r: Rank, m: Moments, shifts: seq<seq<Vector>>, inbox: seq<Tensor>)
    requires c.Valid()
    ensures CalibrateLayer(c, r, m, shifts, inbox).calls != []
  {
    hide WithMoments;
  }

  lemma CalibrationTalks(c: Config, r: Rank, layers: seq<Layer>, s: State, inbox: seq<Tensor>)
    requires c.Valid() && layers != []
    ensures var e := Calibrate(c, r, layers, s, inbox); e.Done? ==> e.calls != []
  {
    hide CalibrateLayer;
    if layers[0] in s.moments && layers[0] in s.records {
      LayerTalks(c, r, s.moments[layers[0]], s.records[layers[0]], inbox);
    }
  }

  /** When one is asked for, an observation with any tokens makes a difference. */
  lemma NeededObservation(c: Config, r: Rank, layers: seq<Layer>, s: State, obs: Observation, inbox: seq<Tensor>)
    requires c.Valid() && NeedsObservation(c, s)
    requires layers != [] && layers[0] in obs && obs[layers[0]].base.rows != []
    ensures ObserveUpdate(c, r, layers, s, Some(obs), inbox) != ObserveUpdate(c, r, layers, s, None, inbox)
  {
    hide Calibrate, MonitorFrom, WarmUp;
    var s1 := s.(step := s.step + 1);
    if s1.step > c.warmup {
      MonitoringTalks(c, layers, s1, obs, inbox);
    } else {
      var check := s1.step % c.interval == 0;
      if WarmUp(layers, s1, obs, check).Success? {
        WarmUpUsesTokens(layers, s1, obs, check);
        CalibrationTalks(c, r, layers, WarmUp(layers, s1, obs, check).value, inbox);
      }
    }
  }

  /** A run is the same in one piece or interrupted anywhere and continued from the state it had. */
  lemma {:induction false} TrainSplit(c: Config, r: Rank, layers: seq<Layer>, s: State, a: seq<Turn>, b: seq<Turn>)
    requires c.Valid()
    ensures var first := Train(c, r, layers, s, a);
            Train(c, r, layers, s, a + b) ==
            if first.Stopped? then first else Train(c, r, layers, first.value, b).After(first.calls)
    decreases a
  {
    if a == [] {
      assert a + b == b;
      AfterNothing(Train(c, r, layers, s, b));
    } else {
      var first := ObserveUpdate(c, r, layers, s, a[0].given, a[0].inbox);
      assert (a + b)[1..] == a[1..] + b && (a + b)[0] == a[0];
      if first.Done? {
        TrainSplit(c, r, layers, first.value, a[1..], b);
        var rest := Train(c, r, layers, first.value, a[1..]);
        if rest.Done? {
          AfterTwice(Train(c, r, layers, rest.value, b), first.calls, rest.calls);
        }
      }
    }
  }
}
