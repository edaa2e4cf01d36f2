/**
 The step of the controller of verl/utils/alpha_stabler.py on one rank, as a function of its state, its
 observations and the replies of the collectives it issues.
 */
module AlphaStabler {
  import opened Wrappers
  import opened Subspace
  import opened Quantiles
  import opened Reals
  import P = Predictor

  type Layer = nat

  predicate Distinct(layers: seq<Layer>) {
    forall i, j | 0 <= i < j < |layers| :: layers[i] != layers[j]
  }

  datatype Config = Config(warmup: nat, interval: nat, predictor: P.Config, warningMad: real, releaseMad: real,
                           epsilon: real, minShift: real, control: bool) {
    ghost predicate Valid() {
      && 1 <= interval <= warmup && predictor.Valid() && 0.0 <= releaseMad < warningMad
      && epsilon > 0.0 && minShift >= 0.0
    }
  }

  /** A two-dimensional tensor of activations. */
  datatype Activations = Activations(width: nat, rows: seq<Vector>) {
    predicate Shaped() {
      OfWidth(rows, width)
    }
  }

  /** The activations of the reference and of the current policy on the same tokens. */
  datatype Pair = Pair(base: Activations, actor: Activations) {
    predicate Aligned() {
      base.Shaped() && actor.Shaped() && base.width == actor.width && |base.rows| == |actor.rows|
    }

    /** What leads from the reference to the current policy. */
    function Shift(): (r: seq<Vector>)
      requires Aligned()
      ensures |r| == |base.rows| && OfWidth(r, base.width)
      ensures forall i | 0 <= i < |r| :: Plus(base.rows[i], r[i]) == actor.rows[i]
    {
      seq(|base.rows|, i requires 0 <= i < |base.rows| => Minus(actor.rows[i], base.rows[i]))
    }
  }

  type Observation = map<Layer, Pair>

  // ---------------------------------------------------------------- moments

  function PlusRows(a: seq<Vector>, b: seq<Vector>, w: nat): (r: seq<Vector>)
    requires |a| == |b| && OfWidth(a, w) && OfWidth(b, w)
    ensures |r| == |a| && OfWidth(r, w)
  {
    seq(|a|, i requires 0 <= i < |a| => Plus(a[i], b[i]))
  }

  function RowSum(rows: seq<Vector>, w: nat): (r: Vector)
    requires OfWidth(rows, w)
    ensures |r| == w
  {
    if rows == [] then Zero(w) else Plus(rows[0], RowSum(rows[1..], w))
  }

  /** base.T @ base. */
  function Gram(rows: seq<Vector>, w: nat): (r: seq<Vector>)
    requires OfWidth(rows, w)
    ensures |r| == w && OfWidth(r, w)
  {
    if rows == [] then seq(w, _ => Zero(w))
    else PlusRows(seq(w, i requires 0 <= i < w => Times(rows[0][i], rows[0])), Gram(rows[1..], w), w)
  }

  datatype Moments = Moments(width: nat, n: nat, sums: Vector, second: seq<Vector>) {
    predicate Shaped() {
      |sums| == width && |second| == width && OfWidth(second, width)
    }

    function Add(base: Activations): (r: Moments)
      requires Shaped() && base.Shaped() && base.width == width
      ensures r.Shaped() && r.width == width
    {
      Moments(width, n + |base.rows|, Plus(sums, RowSum(base.rows, width)),
              PlusRows(second, Gram(base.rows, width), width))
    }
  }

  function NoMoments(w: nat): (r: Moments)
    ensures r.Shaped() && r.width == w
  {
    Moments(w, 0, Zero(w), seq(w, _ => Zero(w)))
  }

  // ---------------------------------------------------------------- state

  datatype State = State(step: nat, bases: map<Layer, Basis>, predictor: map<Layer, P.State>,
                         moments: map<Layer, Moments>, records: map<Layer, seq<seq<Vector>>>) {
    predicate Calibrated() {
      bases != map[]
    }
  }

  datatype Error =
    MissingLayer | ShapeMismatch | TooFewTokens | NoValidShifts | BadThresholds | NotCalibrated | NoLayers | Mismatch

  /** What a collective transports. */
  datatype Tensor =
    Count(n: nat) | Sums(v: Vector) | Second(m: seq<Vector>) | Energies(e: Energy) | Columns(b: Basis)

  datatype Call = AllReduce(t: Tensor) | Broadcast(t: Tensor)

  predicate SameKind(t: Tensor, u: Tensor) {
    && (t.Count? <==> u.Count?) && (t.Sums? <==> u.Sums?) && (t.Second? <==> u.Second?)
    && (t.Energies? <==> u.Energies?) && (t.Columns? <==> u.Columns?)
  }

  /** Matrices of one shape. */
  ghost predicate SameSize(a: seq<Vector>, b: seq<Vector>) {
    |a| == |b| && forall i | 0 <= i < |a| :: |a[i]| == |b[i]|
  }

  /** Tensors of one kind and shape, as the ranks have to pass to a collective. */
  ghost predicate SameShape(t: Tensor, u: Tensor) {
    && SameKind(t, u)
    && (t.Sums? && u.Sums? ==> |t.v| == |u.v|)
    && (t.Second? && u.Second? ==> SameSize(t.m, u.m))
    && (t.Columns? && u.Columns? ==> SameSize(t.b, u.b))
  }

  ghost predicate SameCall(c: Call, d: Call) {
    (c.AllReduce? <==> d.AllReduce?) && SameShape(c.t, d.t)
  }

  ghost predicate SameCalls(a: seq<Call>, b: seq<Call>) {
    |a| == |b| && forall i | 0 <= i < |a| :: SameCall(a[i], b[i])
  }

  /** Waiting: the last collective issued has not completed. */
  datatype Stop = Waiting | Raised(error: Error)

  /** The rest of a computation: its value, the collectives issued and the replies left over. */
  datatype Exec<A> = Done(value: A, calls: seq<Call>, inbox: seq<Tensor>) | Stopped(why: Stop, calls: seq<Call>) {
    function After(before: seq<Call>): Exec<A> {
      match this
      case Done(v, c, i) => Done(v, before + c, i)
      case Stopped(w, c) => Stopped(w, before + c)
    }
  }

  lemma AfterNothing<A>(e: Exec<A>)
    ensures e.After([]) == e
  {
  }

  lemma AfterTwice<A>(e: Exec<A>, x: seq<Call>, y: seq<Call>)
    ensures e.After(y).After(x) == e.After(x + y)
  {
  }

  /** A collective completes with a reply of its own kind. */
  function Exchange(call: Call, inbox: seq<Tensor>): Exec<Tensor> {
    if inbox == [] || !SameKind(call.t, inbox[0]) then Stopped(Waiting, [call])
    else Done(inbox[0], [call], inbox[1..])
  }

  /** What a rank does in its own way: eigenvectors, which may differ between ranks. */
  datatype Rank = Rank(principal: (nat, Vector, seq<Vector>) -> Basis)

  // ---------------------------------------------------------------- calibration

  predicate ValidEnergy(c: Config, e: Energy) {
    e.rows > 0 && e.total / e.rows as real > c.minShift
  }

  /** The measurement of a pooled energy, if it is valid. */
  function Measure(c: Config, e: Energy): P.Check
    requires c.Valid()
  {
    if ValidEnergy(c, e) then
      Some(Psi(e, c.epsilon))
    else None
  }

  function PooledEnergy(shift: seq<Vector>, basis: Basis, inbox: seq<Tensor>): Exec<Energy> {
    match Exchange(AllReduce(Energies(ShiftEnergies(shift, basis))), inbox)
    case Done(t, calls, rest) => if t.Energies? then Done(t.e, calls, rest) else Stopped(Waiting, calls)
    case Stopped(why, calls) => Stopped(why, calls)
  }

  /** The valid measurements of the recorded shifts, after those already collected. */
  function PsisFrom(c: Config, shifts: seq<seq<Vector>>, basis: Basis, values: seq<real>, inbox: seq<Tensor>)
    : Exec<seq<real>>
    requires c.Valid()
  {
    if shifts == [] then Done(values, [], inbox)
    else
      match PooledEnergy(shifts[0], basis, inbox)
      case Stopped(why, calls) => Stopped(why, calls)
      case Done(e, calls, rest) =>
        var m := Measure(c, e);
        PsisFrom(c, shifts[1..], basis, if m.Some? then values + [m.value] else values, rest).After(calls)
  }

  /** Thresholds above a median, by multiples of the scaled deviation. */
  function StartAt(c: Config, median: real, deviation: real): Result<P.State, Error> {
    var scale := 1.4826 * deviation + c.epsilon;
    var warning, release := median + Product(c.warningMad, scale), median + Product(c.releaseMad, scale);
    if 0.0 < release < warning < 1.0 then Success(P.State(median, warning, release, 0, false))
    else Failure(BadThresholds)
  }

  function Thresholds(c: Config, values: seq<real>): Result<P.State, Error> {
    if values == [] then Failure(NoValidShifts)
    else
      var median := Median(values);
      StartAt(c, median, Median(Distances(values, median)))
  }

  datatype LayerResult = LayerResult(basis: Basis, predictor: P.State)

  /** Pool the three moments, agree on a basis, and pool the energies of all recorded shifts. */
  function CalibrateLayer(c: Config, r: Rank, m: Moments, shifts: seq<seq<Vector>>, inbox: seq<Tensor>)
    : Exec<LayerResult>
    requires c.Valid()
  {
    var n := Exchange(AllReduce(Count(m.n)), inbox);
    if n.Stopped? then Stopped(n.why, n.calls) else
      var sums := Exchange(AllReduce(Sums(m.sums)), n.inbox);
      if sums.Stopped? then Stopped(sums.why, n.calls + sums.calls) else
        var second := Exchange(AllReduce(Second(m.second)), sums.inbox);
        if second.Stopped? then Stopped(second.why, n.calls + sums.calls + second.calls)
        else WithMoments(c, r, n.value, sums.value, second.value, shifts, second.inbox)
             .After(n.calls + sums.calls + second.calls)
  }

  function WithMoments(c: Config, r: Rank, n: Tensor, sums: Tensor, second: Tensor, shifts: seq<seq<Vector>>,
                       inbox: seq<Tensor>): Exec<LayerResult>
    requires c.Valid()
  {
    if !(n.Count? && sums.Sums? && second.Second?) then Stopped(Waiting, [])
    else if n.n < 2 then Stopped(Raised(TooFewTokens), [])
    else
      var shared := Exchange(Broadcast(Columns(r.principal(n.n, sums.v, second.m))), inbox);
      if shared.Stopped? then Stopped(shared.why, shared.calls)
      else WithBasis(c, r, shared.value, shifts, shared.inbox).After(shared.calls)
  }

  function WithBasis(c: Config, r: Rank, basis: Tensor, shifts: seq<seq<Vector>>, inbox: seq<Tensor>)
    : Exec<LayerResult>
    requires c.Valid()
  {
    if !basis.Columns? then Stopped(Waiting, [])
    else
      match PsisFrom(c, shifts, basis.b, [], inbox)
      case Stopped(why, calls) => Stopped(why, calls)
      case Done(values, calls, rest) =>
        var thresholds := Thresholds(c, values);
        if thresholds.Failure? then Stopped(Raised(thresholds.error), calls)
        else Done(LayerResult(basis.b, thresholds.value), calls, rest)
  }

  datatype Calibration = Calibration(bases: map<Layer, Basis>, predictor: map<Layer, P.State>)

  function CalibrateFrom(c: Config, r: Rank, layers: seq<Layer>, s: State, done: Calibration, inbox: seq<Tensor>)
    : Exec<Calibration>
    requires c.Valid()
  {
    if layers == [] then Done(done, [], inbox)
    else if layers[0] !in s.moments || layers[0] !in s.records then Stopped(Raised(MissingLayer), [])
    else
      match CalibrateLayer(c, r, s.moments[layers[0]], s.records[layers[0]], inbox)
      case Stopped(why, calls) => Stopped(why, calls)
      case Done(l, calls, rest) =>
        var next := Calibration(done.bases[layers[0] := l.basis], done.predictor[layers[0] := l.predictor]);
        CalibrateFrom(c, r, layers[1..], s, next, rest).After(calls)
  }

  function Calibrate(c: Config, r: Rank, layers: seq<Layer>, s: State, inbox: seq<Tensor>): Exec<State>
    requires c.Valid()
  {
    match CalibrateFrom(c, r, layers, s, Calibration(map[], map[]), inbox)
    case Stopped(why, calls) => Stopped(why, calls)
    case Done(found, calls, rest) => Done(State(s.step, found.bases, found.predictor, map[], map[]), calls, rest)
  }

  // ---------------------------------------------------------------- one step

  predicate Usable(obs: Observation, l: Layer) {
    l in obs && obs[l].Aligned()
  }

  /** Warm-up: add the reference tokens of every layer, and at a check also record the shift. */
  function WarmUp(layers: seq<Layer>, s: State, obs: Observation, check: bool): Result<State, Error> {
    if layers == [] then Success(s)
    else
      var l := layers[0];
      if l !in obs then Failure(MissingLayer)
      else if !obs[l].Aligned() then Failure(ShapeMismatch)
      else
        var base := obs[l].base;
        var before := if l in s.moments then s.moments[l] else NoMoments(base.width);
        if !before.Shaped() || before.width != base.width then Failure(ShapeMismatch)
        else if check && l !in s.records then Failure(MissingLayer)
        else
          var records := if check then s.records[l := s.records[l] + [obs[l].Shift()]] else s.records;
          WarmUp(layers[1..], s.(moments := s.moments[l := before.Add(base)], records := records), obs, check)
  }

  /** Monitoring of one layer: one pooled energy and one predictor check. */
  function MonitorOne(c: Config, l: Layer, s: State, obs: Observation, inbox: seq<Tensor>): Exec<State>
    requires c.Valid()
  {
    if l !in obs || l !in s.bases || l !in s.predictor then Stopped(Raised(MissingLayer), [])
    else if !obs[l].Aligned() then Stopped(Raised(ShapeMismatch), [])
    else
      match PooledEnergy(obs[l].Shift(), s.bases[l], inbox)
      case Stopped(why, calls) => Stopped(why, calls)
      case Done(e, calls, rest) =>
        Done(s.(predictor := s.predictor[l := P.Step(c.predictor, s.predictor[l], Measure(c, e))]), calls, rest)
  }

  function MonitorFrom(c: Config, layers: seq<Layer>, s: State, obs: Observation, inbox: seq<Tensor>): Exec<State>
    requires c.Valid()
  {
    if layers == [] then Done(s, [], inbox)
    else
      match MonitorOne(c, layers[0], s, obs, inbox)
      case Stopped(why, calls) => Stopped(why, calls)
      case Done(next, calls, rest) => MonitorFrom(c, layers[1..], next, obs, rest).After(calls)
  }

  predicate NeedsObservation(c: Config, s: State)
    requires c.Valid()
  {
    s.step + 1 <= c.warmup || (s.step + 1) % c.interval == 0
  }

  /** observe_update. */
  function ObserveUpdate(c: Config, r: Rank, layers: seq<Layer>, s: State, given: Option<Observation>,
                         inbox: seq<Tensor>): Exec<State>
    requires c.Valid()
  {
    var s := s.(step := s.step + 1);
    var check := s.step % c.interval == 0;
    if given.None? then Done(s, [], inbox)
    else if s.step <= c.warmup then
      var warm := WarmUp(layers, s, given.value, check);
      if warm.Failure? then Stopped(Raised(warm.error), [])
      else if s.step == c.warmup then Calibrate(c, r, layers, warm.value, inbox)
      else Done(warm.value, [], inbox)
    else if !s.Calibrated() then Stopped(Raised(NotCalibrated), [])
    else if !check then Done(s, [], inbox)
    else MonitorFrom(c, layers, s, given.value, inbox)
  }
}
