/** What a whole monitored run does to one layer: its predictor sees that layer's pooled measurements in order. */
module MonitoredRun {
  import opened Wrappers
  import opened Subspace
  import opened AlphaStabler
  import opened RankAgreement
  import opened CalibrationOutcome
  import P = Predictor

  /** The measurement that the k-th monitored layer takes from the replies of a checking step. */
  function CheckOf(c: Config, inbox: seq<Tensor>, k: nat): P.Check
    requires c.Valid()
  {
    if k < |inbox| && inbox[k].Energies? then Measure(c, inbox[k].e) else None
  }

  /** It is the share of the pooled energy in the subspace, if there are tokens and enough shift per token. */
  lemma CheckIs(c: Config, inbox: seq<Tensor>, k: nat)
    requires c.Valid()
    ensures CheckOf(c, inbox, k).Some? <==> k < |inbox| && Counts(c, inbox[k])
    ensures CheckOf(c, inbox, k).Some? ==>
              && inbox[k].e.total + c.epsilon > 0.0
              && CheckOf(c, inbox, k).value == inbox[k].e.principal / (inbox[k].e.total + c.epsilon)
  {
    if k < |inbox| && inbox[k].Energies? {
      MeasureIs(c, inbox[k].e);
    }
  }

  /** The check of the k-th layer in a step, if there is one. */
  function CheckNow(c: Config, step: nat, turn: Turn, k: nat): seq<P.Check>
    requires c.Valid()
  {
    if turn.given.Some? && step % c.interval == 0 then [CheckOf(c, turn.inbox, k)] else []
  }

  /** The checks of the k-th layer over the turns that follow a step. */
  function ChecksOf(c: Config, step: nat, turns: seq<Turn>, k: nat): seq<P.Check>
    requires c.Valid()
    decreases turns
  {
    if turns == [] then []
    else CheckNow(c, step + 1, turns[0], k) + ChecksOf(c, step + 1, turns[1..], k)
  }

  lemma OneCheck(c: Config, l: Layer, s: State, obs: Observation, inbox: seq<Tensor>)
    requires c.Valid() && MonitorOne(c, l, s, obs, inbox).Done?
    ensures var e := MonitorOne(c, l, s, obs, inbox);
            && inbox != [] && e.inbox == inbox[1..] && l in s.predictor && e.value.step == s.step && e.value.bases == s.bases
            && e.value.predictor == s.predictor[l := P.Step(c.predictor, s.predictor[l], CheckOf(c, inbox, 0))]
  {
  }

  /** Monitoring steps the predictor of every layer once, with its own reply, and changes nothing else. */
  lemma {:induction false} MonitorStepsEachLayer(c: Config, layers: seq<Layer>, s: State, obs: Observation,
                                                 inbox: seq<Tensor>, l: Layer, k: nat)
    requires c.Valid() && Distinct(layers) && MonitorFrom(c, layers, s, obs, inbox).Done? && l in s.predictor
    requires k <= |layers| && (k < |layers| ==> layers[k] == l) && (k == |layers| ==> l !in layers)
    ensures var e := MonitorFrom(c, layers, s, obs, inbox).value;
            && e.step == s.step && e.bases == s.bases && e.predictor.Keys == s.predictor.Keys
            && e.predictor[l] == if k == |layers| then s.predictor[l]
                                 else P.Step(c.predictor, s.predictor[l], CheckOf(c, inbox, k))
    decreases layers
  {
    hide MonitorOne, P.Step, Measure;
    if layers != [] {
      var first := MonitorOne(c, layers[0], s, obs, inbox);
      OneCheck(c, layers[0], s, obs, inbox);
      assert forall i, j | 0 <= i < j < |layers[1..]| :: layers[1..][i] != layers[1..][j];
      assert layers[0] in layers;
      if k == 0 {
        MonitorStepsEachLayer(c, layers[1..], first.value, obs, first.inbox, l, |layers| - 1);
      } else {
        MonitorStepsEachLayer(c, layers[1..], first.value, obs, first.inbox, l, k - 1);
      }
    }
  }

  lemma StepRunsItsCheck(c: Config, r: Rank, layers: seq<Layer>, s: State, turn: Turn, k: nat)
    requires c.Valid() && Distinct(layers) && k < |layers| && layers[k] in s.predictor
    requires s.step >= c.warmup && s.Calibrated() && ObserveUpdate(c, r, layers, s, turn.given, turn.inbox).Done?
    ensures var e, l := ObserveUpdate(c, r, layers, s, turn.given, turn.inbox).value, layers[k];
            && e.step == s.step + 1 && e.bases == s.bases && l in e.predictor
            && e.predictor[l] == P.Run(c.predictor, s.predictor[l], CheckNow(c, s.step + 1, turn, k))
  {
    hide MonitorFrom, CheckOf, P.Step;
    var s1 := s.(step := s.step + 1);
    if turn.given.Some? && s1.step % c.interval == 0 {
      MonitorStepsEachLayer(c, layers, s1, turn.given.value, turn.inbox, layers[k], k);
    }
  }

  /** Over a run from a calibrated state, a layer's predictor runs through exactly its own checks. */
  lemma {:induction false} LayerRunsItsChecks(c: Config, r: Rank, layers: seq<Layer>, s: State, turns: seq<Turn>, k: nat)
    requires c.Valid() && Distinct(layers) && k < |layers| && layers[k] in s.predictor
    requires s.step >= c.warmup && s.Calibrated() && Train(c, r, layers, s, turns).Done?
    ensures var e := Train(c, r, layers, s, turns).value;
            layers[k] in e.predictor &&
            e.predictor[layers[k]] == P.Run(c.predictor, s.predictor[layers[k]], ChecksOf(c, s.step, turns, k))
    decreases turns
  {
    hide ObserveUpdate, CheckNow;
    if turns != [] {
      var l, first := layers[k], ObserveUpdate(c, r, layers, s, turns[0].given, turns[0].inbox);
      StepRunsItsCheck(c, r, layers, s, turns[0], k);
      LayerRunsItsChecks(c, r, layers, first.value, turns[1..], k);
      P.RunConcat(c.predictor, s.predictor[l], CheckNow(c, s.step + 1, turns[0], k), ChecksOf(c, s.step + 1, turns[1..], k));
    }
  }

  /**
   So after any run a layer is under control exactly if some check of that layer ended a streak of persistence
   warnings and none since has released it.
   */
  lemma ActiveInTraining(c: Config, r: Rank, layers: seq<Layer>, s: State, turns: seq<Turn>, k: nat)
    requires c.Valid() && Distinct(layers) && k < |layers| && layers[k] in s.predictor
    requires s.step >= c.warmup && s.Calibrated() && s.predictor[layers[k]].Fresh()
    requires Train(c, r, layers, s, turns).Done?
    ensures var e, checks := Train(c, r, layers, s, turns).value, ChecksOf(c, s.step, turns, k);
            layers[k] in e.predictor &&
            (e.predictor[layers[k]].active <==> P.Raised(c.predictor, s.predictor[layers[k]], checks, |checks|))
  {
    var checks := ChecksOf(c, s.step, turns, k);
    LayerRunsItsChecks(c, r, layers, s, turns, k);
    P.ActiveExactlyWhenRaised(c.predictor, s.predictor[layers[k]], checks, |checks|);
    assert checks[..|checks|] == checks;
  }

  // ---------------------------------------------------------------- pooled energies

  function Pooled(shifts: seq<seq<Vector>>, b: Basis): Energy {
    if shifts == [] then NO_ENERGY else ShiftEnergies(shifts[0], b).Add(Pooled(shifts[1..], b))
  }

  function AllRows(shifts: seq<seq<Vector>>): seq<Vector> {
    if shifts == [] then [] else shifts[0] + AllRows(shifts[1..])
  }

  /** Summing the energies of the ranks is the energy of all their rows. */
  lemma {:induction false} PooledIsEnergyOfAll(shifts: seq<seq<Vector>>, b: Basis)
    ensures Pooled(shifts, b) == ShiftEnergies(AllRows(shifts), b)
  {
    if shifts != [] {
      PooledIsEnergyOfAll(shifts[1..], b);
      EnergiesOfConcat(shifts[0], AllRows(shifts[1..]), b);
    }
  }

  lemma {:induction false} AllRowsWidth(shifts: seq<seq<Vector>>, n: nat)
    requires forall i | 0 <= i < |shifts| :: OfWidth(shifts[i], n)
    ensures OfWidth(AllRows(shifts), n)
  {
    if shifts != [] {
      AllRowsWidth(shifts[1..], n);
    }
  }

  /** With an orthonormal basis a measurement pooled over the ranks lies in [0, 1). */
  lemma PooledMeasureInRange(c: Config, shifts: seq<seq<Vector>>, b: Basis, n: nat)
    requires c.Valid() && Orthonormal(b, n) && forall i | 0 <= i < |shifts| :: OfWidth(shifts[i], n)
    ensures var m := Measure(c, Pooled(shifts, b)); m.Some? ==> 0.0 <= m.value < 1.0
  {
    PooledIsEnergyOfAll(shifts, b);
    AllRowsWidth(shifts, n);
    EnergiesAreProper(AllRows(shifts), b, n);
    PsiInRange(Pooled(shifts, b), c.epsilon);
  }

  ghost predicate InUnit(check: P.Check) {
    check.Some? ==> 0.0 <= check.value < 1.0
  }

  /** Then the average of the layer stays in [0, 1] for the whole run. */
  lemma AverageStaysInRange(c: Config, s: P.State, checks: seq<P.Check>)
    requires c.Valid() && 0.0 <= s.ema <= 1.0
    requires forall check | check in checks :: InUnit(check)
    ensures 0.0 <= P.Run(c.predictor, s, checks).ema <= 1.0
  {
    MeasuredInRange(checks);
    P.EmaInRange(c.predictor, s, checks, 0.0, 1.0);
  }

  lemma {:induction false} MeasuredInRange(checks: seq<P.Check>)
    requires forall check | check in checks :: InUnit(check)
    ensures P.AllIn(P.Measured(checks), 0.0, 1.0)
  {
    if checks != [] {
      MeasuredInRange(checks[..|checks| - 1]);
      assert checks[|checks| - 1] in checks;
    }
  }

  /** The reply that the ranks' shifts add up to. */
  ghost predicate IsPooled(t: Tensor, b: Basis, n: nat) {
    t.Energies? && exists shifts :: AllOfWidth(shifts, n) && t.e == Pooled(shifts, b)
  }

  ghost predicate AllOfWidth(shifts: seq<seq<Vector>>, n: nat) {
    forall i | 0 <= i < |shifts| :: OfWidth(shifts[i], n)
  }

  /** The k-th reply of every checking step is the pooled energy of some shifts of the k-th layer. */
  ghost predicate PooledReplies(turns: seq<Turn>, k: nat, b: Basis, n: nat) {
    forall i | 0 <= i < |turns| && k < |turns[i].inbox| :: IsPooled(turns[i].inbox[k], b, n)
  }

  lemma CheckInRange(c: Config, inbox: seq<Tensor>, k: nat, b: Basis, n: nat)
    requires c.Valid() && Orthonormal(b, n) && (k < |inbox| ==> IsPooled(inbox[k], b, n))
    ensures InUnit(CheckOf(c, inbox, k))
  {
    hide Measure, Orthonormal, Pooled;
    if k < |inbox| {
      var shifts :| AllOfWidth(shifts, n) && inbox[k].e == Pooled(shifts, b);
      PooledMeasureInRange(c, shifts, b, n);
    }
  }

  lemma {:induction false} ChecksInRange(c: Config, step: nat, turns: seq<Turn>, k: nat, b: Basis, n: nat)
    requires c.Valid() && Orthonormal(b, n) && PooledReplies(turns, k, b, n)
    ensures forall check | check in ChecksOf(c, step, turns, k) :: InUnit(check)
    decreases turns
  {
    if turns != [] {
      hide Orthonormal, CheckOf;
      CheckInRange(c, turns[0].inbox, k, b, n);
      ChecksInRange(c, step + 1, turns[1..], k, b, n);
    }
  }

  /** In training with orthonormal bases and replies that pool the ranks' energies, every average stays in [0, 1]. */
  lemma AveragesInTraining(c: Config, r: Rank, layers: seq<Layer>, s: State, turns: seq<Turn>, n: nat)
    requires c.Valid() && Distinct(layers) && s.step >= c.warmup && s.Calibrated()
    requires forall k | 0 <= k < |layers| ::
               && layers[k] in s.predictor && 0.0 <= s.predictor[layers[k]].ema <= 1.0 && layers[k] in s.bases
               && Orthonormal(s.bases[layers[k]], n) && PooledReplies(turns, k, s.bases[layers[k]], n)
    requires Train(c, r, layers, s, turns).Done?
    ensures var e := Train(c, r, layers, s, turns).value;
            forall k | 0 <= k < |layers| :: layers[k] in e.predictor && 0.0 <= e.predictor[layers[k]].ema <= 1.0
  {
    forall k | 0 <= k < |layers|
      ensures var e := Train(c, r, layers, s, turns).value;
              layers[k] in e.predictor && 0.0 <= e.predictor[layers[k]].ema <= 1.0
    {
      LayerRunsItsChecks(c, r, layers, s, turns, k);
      ChecksInRange(c, s.step, turns, k, s.bases[layers[k]], n);
      AverageStaysInRange(c, s.predictor[layers[k]], ChecksOf(c, s.step, turns, k));
    }
  }
}
