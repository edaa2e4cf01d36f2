/** The controller object of verl/utils/alpha_stabler.py, with its fields updated in place. */
module StablerController {
  import opened Wrappers
  import opened Subspace
  import opened AlphaStabler
  import P = Predictor

  /** One rank's end of the process group: replies still to come, and the collectives issued so far. */
  class Comm {
    var inbox: seq<Tensor>
    var calls: seq<Call>

    constructor (replies: seq<Tensor>)
      ensures inbox == replies && calls == []
    {
      inbox, calls := replies, [];
    }

    /** Issue a collective; without a reply the rank waits forever. */
    method Exchange(call: Call) returns (r: Option<Tensor>)
      modifies this
      ensures calls == old(calls) + [call]
      ensures r.Some? <==> old(inbox) != [] && SameKind(call.t, old(inbox)[0])
      ensures r.Some? ==> r.value == old(inbox)[0] && inbox == old(inbox)[1..]
      ensures r.None? ==> inbox == old(inbox)
    {
      calls := calls + [call];
      if inbox == [] || !SameKind(call.t, inbox[0]) {
        return None;
      }
      r := Some(inbox[0]);
      inbox := inbox[1..];
    }

    /** distributed_sum of the energies of a shift. */
    method SumEnergies(shift: seq<Vector>, basis: Basis) returns (e: Option<Energy>)
      modifies this
      ensures Finished(e, PooledEnergy(shift, basis, old(inbox)), old(calls))
    {
      var reply := Exchange(AllReduce(Energies(ShiftEnergies(shift, basis))));
      if reply.None? {
        return None;
      }
      return Some(reply.value.e);
    }

    /** The object has done what a computation says, or waits where it does. */
    ghost predicate Finished<A(!new)>(r: Option<A>, e: Exec<A>, before: seq<Call>)
      reads this
    {
      && calls == before + e.calls
      && (r.Some? <==> e.Done?)
      && (r.Some? && e.Done? ==> r.value == e.value && inbox == e.inbox)
      && (e.Stopped? ==> e.why == Waiting)
    }

    /** The same for computations that may also fail. */
    ghost predicate Ended<A(!new)>(r: Result<A, Stop>, e: Exec<A>, before: seq<Call>)
      reads this
    {
      && calls == before + e.calls
      && (r.Success? <==> e.Done?)
      && (r.Success? && e.Done? ==> r.value == e.value && inbox == e.inbox)
      && (r.Failure? && e.Stopped? ==> r.error == e.why)
    }

    /** Measuring the remaining shifts starts with the next one. */
    static lemma NextPsi(c: Config, shifts: seq<seq<Vector>>, basis: Basis, values: seq<real>, inbox: seq<Tensor>, i: nat)
      requires c.Valid() && i < |shifts|
      ensures var first, rest := PooledEnergy(shifts[i], basis, inbox), PsisFrom(c, shifts[i..], basis, values, inbox);
              if first.Stopped? then rest == Stopped(first.why, first.calls)
              else
                var m := Measure(c, first.value);
                rest == PsisFrom(c, shifts[i + 1..], basis, if m.Some? then values + [m.value] else values, first.inbox)
                        .After(first.calls)
    {
      hide PooledEnergy, Measure, Exec.After;
      assert shifts[i..][0] == shifts[i] && shifts[i..][1..] == shifts[i + 1..];
    }

    static lemma NoMorePsis(c: Config, basis: Basis, values: seq<real>, inbox: seq<Tensor>)
      requires c.Valid()
      ensures PsisFrom(c, [], basis, values, inbox) == Done(values, [], inbox)
    {
    }

    /** The valid measurements of all recorded shifts. */
    method Psis(c: Config, shifts: seq<seq<Vector>>, basis: Basis) returns (r: Option<seq<real>>)
      requires c.Valid()
      modifies this
      ensures Finished(r, PsisFrom(c, shifts, basis, [], old(inbox)), old(calls))
    {
      hide PsisFrom, PooledEnergy, Measure;
      var values := [];
      assert shifts[0..] == shifts;
      ghost var whole, sofar: seq<Call> := PsisFrom(c, shifts, basis, [], inbox), [];
      AfterNothing(whole);
      for i := 0 to |shifts|
        invariant calls == old(calls) + sofar
        invariant whole == PsisFrom(c, shifts[i..], basis, values, inbox).After(sofar)
      {
        NextPsi(c, shifts, basis, values, inbox, i);
        ghost var first := PooledEnergy(shifts[i], basis, inbox);
        var e := SumEnergies(shifts[i], basis);
        if e.None? {
          return None;
        }
        var m := Measure(c, e.value);
        if m.Some? {
          values := values + [m.value];
        }
        AfterTwice(PsisFrom(c, shifts[i + 1..], basis, values, inbox), sofar, first.calls);
        sofar := sofar + first.calls;
      }
      NoMorePsis(c, basis, values, inbox);
      assert shifts[|shifts|..] == [] && sofar + [] == sofar;
      return Some(values);
    }
  }

  /** calibrate for one layer. */
  method CalibrateOne(c: Config, r: Rank, m: Moments, shifts: seq<seq<Vector>>, comm: Comm)
    returns (result: Result<LayerResult, Stop>)
    requires c.Valid()
    modifies comm
    ensures comm.Ended(result, CalibrateLayer(c, r, m, shifts, old(comm.inbox)), old(comm.calls))
  {
    hide WithMoments;
    var n := comm.Exchange(AllReduce(Count(m.n)));
    if n.None? {
      return Failure(Waiting);
    }
    var sums := comm.Exchange(AllReduce(Sums(m.sums)));
    if sums.None? {
      return Failure(Waiting);
    }
    var second := comm.Exchange(AllReduce(Second(m.second)));
    if second.None? {
      return Failure(Waiting);
    }
    result := CalibrateWith(c, r, n.value.n, sums.value.v, second.value.m, shifts, comm);
  }

  /** The part of calibrate after the moments have been pooled. */
  method CalibrateWith(c: Config, r: Rank, n: nat, sums: Vector, second: seq<Vector>, shifts: seq<seq<Vector>>, comm: Comm)
    returns (result: Result<LayerResult, Stop>)
    requires c.Valid()
    modifies comm
    ensures comm.Ended(result, WithMoments(c, r, Count(n), Sums(sums), Second(second), shifts, old(comm.inbox)),
                       old(comm.calls))
  {
    hide Thresholds, PsisFrom;
    if n < 2 {
      return Failure(Raised(TooFewTokens));
    }
    var shared := comm.Exchange(Broadcast(Columns(r.principal(n, sums, second))));
    if shared.None? {
      return Failure(Waiting);
    }
    var values := comm.Psis(c, shifts, shared.value.b);
    if values.None? {
      return Failure(Waiting);
    }
    var thresholds := Thresholds(c, values.value);
    if thresholds.Failure? {
      return Failure(Raised(thresholds.error));
    }
    return Success(LayerResult(shared.value.b, thresholds.value));
  }

  // ---------------------------------------------------------------- the object

  type Device = nat

  /** Nothing is calibrated before the warm-up is over, and calibration covers every layer. */
  ghost predicate Sane(c: Config, layers: seq<Layer>, s: State) {
    && (s.step < c.warmup ==> !s.Calibrated())
    && s.predictor.Keys == s.bases.Keys
    && (s.Calibrated() ==> forall l | l in layers :: l in s.bases)
  }

  /** state_dict: everything that is written to a checkpoint. */
  datatype Checkpoint = Checkpoint(version: nat, worldSize: nat, config: Config, layers: seq<Layer>, state: State)

  lemma NextCheck(c: Config, layers: seq<Layer>, i: nat, s: State, obs: Observation, inbox: seq<Tensor>,
                  sofar: seq<Call>)
    requires c.Valid() && i < |layers|
    ensures var first := MonitorOne(c, layers[i], s, obs, inbox);
            MonitorFrom(c, layers[i..], s, obs, inbox).After(sofar) ==
            if first.Stopped? then Stopped(first.why, sofar + first.calls)
            else MonitorFrom(c, layers[i + 1..], first.value, obs, first.inbox).After(sofar + first.calls)
  {
    assert layers[i..][0] == layers[i] && layers[i..][1..] == layers[i + 1..];
    var first := MonitorOne(c, layers[i], s, obs, inbox);
    if first.Done? {
      AfterTwice(MonitorFrom(c, layers[i + 1..], first.value, obs, first.inbox), sofar, first.calls);
    }
  }

  lemma NoMoreChecks(c: Config, layers: seq<Layer>, s: State, obs: Observation, inbox: seq<Tensor>, sofar: seq<Call>)
    requires c.Valid()
    ensures MonitorFrom(c, layers[|layers|..], s, obs, inbox).After(sofar) == Done(s, sofar, inbox)
  {
    assert sofar + [] == sofar;
  }

  /** The calibration of the remaining layers starts with the next one. */
  lemma NextLayer(c: Config, r: Rank, layers: seq<Layer>, i: nat, s: State, found: Calibration, inbox: seq<Tensor>)
    requires c.Valid() && i < |layers|
    ensures var l, rest := layers[i], CalibrateFrom(c, r, layers[i..], s, found, inbox);
            if l !in s.moments || l !in s.records then rest == Stopped(Raised(MissingLayer), [])
            else
              var first := CalibrateLayer(c, r, s.moments[l], s.records[l], inbox);
              if first.Stopped? then rest == Stopped(first.why, first.calls)
              else
                var next := Calibration(found.bases[l := first.value.basis], found.predictor[l := first.value.predictor]);
                rest == CalibrateFrom(c, r, layers[i + 1..], s, next, first.inbox).After(first.calls)
  {
  }

  /** The thresholds of a calibrated predictor are in order, and nothing is active or counted. */
  ghost predicate AllFresh(predictor: map<Layer, P.State>) {
    forall l | l in predictor :: predictor[l].Fresh()
  }

  lemma LayerIsFresh(c: Config, r: Rank, m: Moments, shifts: seq<seq<Vector>>, inbox: seq<Tensor>)
    requires c.Valid()
    ensures var e := CalibrateLayer(c, r, m, shifts, inbox); e.Done? ==> e.value.predictor.Fresh()
  {
    hide PsisFrom, Quantiles.Median;
  }

  /** A calibration that succeeds has a basis and a fresh predictor for exactly the layers. */
  lemma {:induction false} CalibrationCovers(c: Config, r: Rank, layers: seq<Layer>, s: State, done: Calibration,
                                             inbox: seq<Tensor>)
    requires c.Valid() && AllFresh(done.predictor)
    ensures var e := CalibrateFrom(c, r, layers, s, done, inbox);
            e.Done? ==>
              && e.value.bases.Keys == done.bases.Keys + (set l | l in layers)
              && e.value.predictor.Keys == done.predictor.Keys + (set l | l in layers)
              && AllFresh(e.value.predictor)
  {
    hide CalibrateLayer, P.State.Fresh;
    if layers != [] && layers[0] in s.moments && layers[0] in s.records {
      var l := layers[0];
      var first := CalibrateLayer(c, r, s.moments[l], s.records[l], inbox);
      LayerIsFresh(c, r, s.moments[l], s.records[l], inbox);
      if first.Done? {
        var next := Calibration(done.bases[l := first.value.basis], done.predictor[l := first.value.predictor]);
        CalibrationCovers(c, r, layers[1..], s, next, first.inbox);
        assert (set k | k in layers) == {l} + set k | k in layers[1..];
      }
    }
  }

  /** The loop of calibrate over the layers, which collects the results. */
  method CalibrateLayers(c: Config, rank: Rank, layers: seq<Layer>, s: State, comm: Comm)
    returns (r: Result<Calibration, Stop>)
    requires c.Valid()
    modifies comm
    ensures comm.Ended(r, CalibrateFrom(c, rank, layers, s, Calibration(map[], map[]), old(comm.inbox)), old(comm.calls))
  {
    hide AlphaStabler.CalibrateLayer;
    var found := Calibration(map[], map[]);
    ghost var whole, sofar: seq<Call> := CalibrateFrom(c, rank, layers, s, found, comm.inbox), [];
    AfterNothing(whole);
    for i := 0 to |layers|
      invariant comm.calls == old(comm.calls) + sofar
      invariant whole == CalibrateFrom(c, rank, layers[i..], s, found, comm.inbox).After(sofar)
    {
      var l := layers[i];
      NextLayer(c, rank, layers, i, s, found, comm.inbox);
      if l !in s.moments || l !in s.records {
        return Failure(Raised(MissingLayer));
      }
      ghost var first := CalibrateLayer(c, rank, s.moments[l], s.records[l], comm.inbox);
      var one := CalibrateOne(c, rank, s.moments[l], s.records[l], comm);
      if one.Failure? {
        return Failure(one.error);
      }
      found := Calibration(found.bases[l := one.value.basis], found.predictor[l := one.value.predictor]);
      AfterTwice(CalibrateFrom(c, rank, layers[i + 1..], s, found, comm.inbox), sofar, first.calls);
      sofar := sofar + first.calls;
    }
    assert layers[|layers|..] == [];
    return Success(found);
  }

  class Controller {
    const config: Config
    const layers: seq<Layer>
    var step: nat
    var bases: map<Layer, Basis>
    var predictor: map<Layer, P.State>
    var moments: map<Layer, Moments>
    var records: map<Layer, seq<seq<Vector>>>
    /** Copies of bases on the devices where they have been used. */
    var deviceBases: map<(Layer, Device), Basis>

    function Value(): State
      reads this
    {
      State(step, bases, predictor, moments, records)
    }

    /** A cached basis is the current one. */
    ghost predicate CacheFresh()
      reads this
    {
      forall key | key in deviceBases :: key.0 in bases && deviceBases[key] == bases[key.0]
    }

    ghost predicate Valid()
      reads this
    {
      config.Valid() && layers != [] && Distinct(layers) && Sane(config, layers, Value()) && CacheFresh()
    }

    constructor (c: Config, monitored: seq<Layer>)
      requires c.Valid() && monitored != [] && Distinct(monitored)
      ensures Valid() && config == c && layers == monitored
      ensures Value() == State(0, map[], map[], map[], map l | l in monitored :: [])
    {
      config, layers := c, monitored;
      step, bases, predictor, moments, records := 0, map[], map[], map[], map l | l in monitored :: [];
      deviceBases := map[];
    }

    /** The warm-up part of observe_update. */
    method RecordWarmUp(obs: Observation, check: bool) returns (r: Result<(), Error>)
      requires Valid()
      modifies this`moments, this`records
      ensures Valid()
      ensures var w := WarmUp(layers, old(Value()), obs, check);
              && (r.Success? <==> w.Success?) && (w.Success? ==> Value() == w.value)
              && (r.Failure? && w.Failure? ==> r.error == w.error)
    {
      for i := 0 to |layers|
        invariant WarmUp(layers, old(Value()), obs, check) == WarmUp(layers[i..], Value(), obs, check)
      {
        var l := layers[i];
        assert layers[i..][0] == l && layers[i..][1..] == layers[i + 1..];
        if l !in obs {
          return Failure(MissingLayer);
        }
        if !obs[l].Aligned() {
          return Failure(ShapeMismatch);
        }
        var before := if l in moments then moments[l] else NoMoments(obs[l].base.width);
        if !before.Shaped() || before.width != obs[l].base.width {
          return Failure(ShapeMismatch);
        }
        if check && l !in records {
          return Failure(MissingLayer);
        }
        moments := moments[l := before.Add(obs[l].base)];
        if check {
          records := records[l := records[l] + [obs[l].Shift()]];
        }
      }
      assert layers[|layers|..] == [];
      return Success(());
    }

    /** calibrate: the fields are replaced only when all layers have succeeded. */
    method Calibrate(rank: Rank, comm: Comm) returns (r: Result<(), Stop>)
      requires Valid() && step >= config.warmup && deviceBases == map[]
      modifies this`bases, this`predictor, this`moments, this`records, comm
      ensures Valid()
      ensures Follows(comm, r, AlphaStabler.Calibrate(config, rank, layers, old(Value()), old(comm.inbox)), old(comm.calls))
    {
      CalibrationCovers(config, rank, layers, Value(), Calibration(map[], map[]), comm.inbox);
      var found := CalibrateLayers(config, rank, layers, Value(), comm);
      if found.Failure? {
        return Failure(found.error);
      }
      bases, predictor := found.value.bases, found.value.predictor;
      records, moments := map[], map[];
      return Success(());
    }

    /** The monitoring part of observe_update. */
    method Monitor(obs: Observation, comm: Comm) returns (r: Result<(), Stop>)
      requires config.Valid() && predictor.Keys == bases.Keys
      modifies this`predictor, comm
      ensures predictor.Keys == bases.Keys
      ensures Follows(comm, r, MonitorFrom(config, layers, old(Value()), obs, old(comm.inbox)), old(comm.calls))
    {
      hide AlphaStabler.MonitorOne, AlphaStabler.MonitorFrom, Exec.After;
      ghost var whole, sofar: seq<Call> := MonitorFrom(config, layers, Value(), obs, comm.inbox), [];
      AfterNothing(whole);
      for i := 0 to |layers|
        invariant comm.calls == old(comm.calls) + sofar && predictor.Keys == bases.Keys
        invariant whole == MonitorFrom(config, layers[i..], Value(), obs, comm.inbox).After(sofar)
      {
        ghost var s, replies := Value(), comm.inbox;
        r := MonitorLayer(layers[i], obs, comm);
        NextCheck(config, layers, i, s, obs, replies, sofar);
        sofar := sofar + MonitorOne(config, layers[i], s, obs, replies).calls;
        if r.Failure? {
          return;
        }
      }
      NoMoreChecks(config, layers, Value(), obs, comm.inbox, sofar);
      return Success(());
    }

    method MonitorLayer(l: Layer, obs: Observation, comm: Comm) returns (r: Result<(), Stop>)
      requires config.Valid() && predictor.Keys == bases.Keys
      modifies this`predictor, comm
      ensures predictor.Keys == bases.Keys
      ensures Follows(comm, r, MonitorOne(config, l, old(Value()), obs, old(comm.inbox)), old(comm.calls))
    {
      if l !in obs || l !in bases {
        return Failure(Raised(MissingLayer));
      }
      if !obs[l].Aligned() {
        return Failure(Raised(ShapeMismatch));
      }
      var e := comm.SumEnergies(obs[l].Shift(), bases[l]);
      if e.None? {
        return Failure(Waiting);
      }
      assert l in predictor.Keys;
      CheckLayer(l, Measure(config, e.value));
      return Success(());
    }

    /** A check of one layer; one that is not valid only resets the count. */
    method CheckLayer(l: Layer, m: P.Check)
      requires l in predictor
      modifies this`predictor
      ensures predictor == old(predictor)[l := P.Step(config.predictor, old(predictor)[l], m)]
    {
      if m.Some? {
        UpdatePredictor(l, m.value);
      } else {
        predictor := predictor[l := predictor[l].(count := 0)];
      }
    }

    /** update_predictor. */
    method UpdatePredictor(l: Layer, psi: real)
      requires l in predictor
      modifies this`predictor
      ensures predictor == old(predictor)[l := P.Update(config.predictor, old(predictor)[l], psi)]
    {
      var s := predictor[l];
      s := s.(ema := P.Average(config.predictor.beta, s.ema, psi));
      s := s.(count := if s.ema > s.warning then s.count + 1 else 0);
      if s.count >= config.predictor.persistence {
        s := s.(active := true);
      }
      if s.ema < s.release {
        s := s.(active := false);
      }
      predictor := predictor[l := s];
    }

    /** observe_update, called once before each optimizer update. */
    method ObserveUpdate(rank: Rank, comm: Comm, given: Option<Observation>) returns (r: Result<(), Stop>)
      requires Valid()
      modifies this`step, this`bases, this`predictor, this`moments, this`records, comm
      ensures Valid()
      ensures Follows(comm, r, AlphaStabler.ObserveUpdate(config, rank, layers, old(Value()), given, old(comm.inbox)),
                      old(comm.calls))
    {
      step := step + 1;
      if given.None? {
        return Success(());
      }
      var check := step % config.interval == 0;
      if step <= config.warmup {
        var w := RecordWarmUp(given.value, check);
        if w.Failure? {
          return Failure(Raised(w.error));
        }
        if step == config.warmup {
          r := Calibrate(rank, comm);
          return;
        }
        return Success(());
      }
      if bases == map[] {
        return Failure(Raised(NotCalibrated));
      }
      if !check {
        return Success(());
      }
      r := Monitor(given.value, comm);
    }

    /** The basis that the backward hook of a layer projects with, if it is registered. */
    method BackwardHook(l: Layer, device: Device, gradEnabled: bool) returns (basis: Option<Basis>)
      requires Valid() && l in layers
      modifies this`deviceBases
      ensures Valid()
      ensures basis == if config.control && Value().Calibrated() && predictor[l].active && gradEnabled
                       then Some(bases[l]) else None
    {
      if !config.control || bases == map[] {
        return None;
      }
      assert l in bases.Keys;
      if !predictor[l].active || !gradEnabled {
        return None;
      }
      if (l, device) !in deviceBases {
        deviceBases := deviceBases[(l, device) := bases[l]];
      }
      return Some(deviceBases[(l, device)]);
    }

    method StateDict(worldSize: nat) returns (saved: Checkpoint)
      ensures saved == Checkpoint(1, worldSize, config, layers, Value())
    {
      return Checkpoint(1, worldSize, config, layers, State(step, bases, predictor, moments, records));
    }

    /** load_state_dict of a checkpoint that a controller has written. */
    method LoadStateDict(saved: Checkpoint, worldSize: nat) returns (ok: bool)
      requires Valid() && Sane(saved.config, saved.layers, saved.state)
      modifies this`step, this`bases, this`predictor, this`moments, this`records, this`deviceBases
      ensures Valid()
      ensures ok <==> saved.worldSize == worldSize && saved.version == 1 && saved.layers == layers && saved.config == config
      ensures Value() == if ok then saved.state else old(Value())
    {
      if saved.worldSize != worldSize {
        return false;
      }
      if saved.version != 1 || saved.layers != layers || saved.config != config {
        return false;
      }
      step, bases, predictor := saved.state.step, saved.state.bases, saved.state.predictor;
      moments, records, deviceBases := saved.state.moments, saved.state.records, map[];
      return true;
    }

    ghost predicate Follows(comm: Comm, r: Result<(), Stop>, e: Exec<State>, before: seq<Call>)
      reads this, comm
    {
      && comm.calls == before + e.calls
      && (r.Success? <==> e.Done?)
      && (r.Success? && e.Done? ==> Value() == e.value && comm.inbox == e.inbox)
      && (r.Failure? && e.Stopped? ==> r.error == e.why)
    }
  }
}
