/**
 What the replies of the collectives are statistics of: moments and energies that are summed over steps and over
 ranks are those of all tokens together.
 */
module PooledStatistics {
  import opened Wrappers
  import opened Reals
  import opened Subspace
  import opened AlphaStabler
  import opened CalibrationOutcome
  import opened Causality
  import opened RankAgreement
  import opened CollectiveRun
  import opened MonitoredRun
  import P = Predictor

  // ---------------------------------------------------------------- sums and products of columns

  function Column(rows: seq<Vector>, w: nat, j: nat): Vector
    requires OfWidth(rows, w) && j < w
  {
    seq(|rows|, i requires 0 <= i < |rows| => rows[i][j])
  }

  function SumUp(v: Vector): real {
    if v == [] then 0.0 else v[0] + SumUp(v[1..])
  }

  /** Entry j of the sum over the tokens is the sum of column j. */
  lemma {:induction false} RowSumAt(rows: seq<Vector>, w: nat, j: nat)
    requires OfWidth(rows, w) && j < w
    ensures RowSum(rows, w)[j] == SumUp(Column(rows, w, j))
  {
    if rows != [] {
      RowSumAt(rows[1..], w, j);
      assert Column(rows, w, j)[1..] == Column(rows[1..], w, j);
    }
  }

  /** Entry i, j of the second moments is the product of columns i and j. */
  lemma {:induction false} GramAt(rows: seq<Vector>, w: nat, i: nat, j: nat)
    requires OfWidth(rows, w) && i < w && j < w
    ensures Gram(rows, w)[i][j] == Dot(Column(rows, w, i), Column(rows, w, j))
  {
    hide Product;
    if rows != [] {
      GramAt(rows[1..], w, i, j);
      assert Column(rows, w, i)[1..] == Column(rows[1..], w, i);
      assert Column(rows, w, j)[1..] == Column(rows[1..], w, j);
    }
  }

  lemma {:induction false} SumUpConcat(a: Vector, b: Vector)
    ensures SumUp(a + b) == SumUp(a) + SumUp(b)
  {
    if a == [] {
      assert a + b == b;
    } else {
      SumUpConcat(a[1..], b);
      assert (a + b)[1..] == a[1..] + b;
    }
  }

  lemma {:induction false} DotConcat(x: Vector, y: Vector, u: Vector, v: Vector)
    requires |x| == |y|
    ensures Dot(x + u, y + v) == Dot(x, y) + Dot(u, v)
  {
    hide Product;
    if x == [] {
      assert x + u == u && y + v == v;
    } else {
      DotConcat(x[1..], y[1..], u, v);
      assert (x + u)[1..] == x[1..] + u && (y + v)[1..] == y[1..] + v;
    }
  }

  lemma ColumnConcat(a: seq<Vector>, b: seq<Vector>, w: nat, j: nat)
    requires OfWidth(a, w) && OfWidth(b, w) && j < w
    ensures OfWidth(a + b, w) && Column(a + b, w, j) == Column(a, w, j) + Column(b, w, j)
  {
  }

  lemma RowSumConcat(a: seq<Vector>, b: seq<Vector>, w: nat)
    requires OfWidth(a, w) && OfWidth(b, w)
    ensures OfWidth(a + b, w) && RowSum(a + b, w) == Plus(RowSum(a, w), RowSum(b, w))
  {
    forall j | 0 <= j < w
      ensures RowSum(a + b, w)[j] == RowSum(a, w)[j] + RowSum(b, w)[j]
    {
      RowSumAt(a, w, j);
      RowSumAt(b, w, j);
      RowSumAt(a + b, w, j);
      ColumnConcat(a, b, w, j);
      SumUpConcat(Column(a, w, j), Column(b, w, j));
    }
  }

  lemma GramConcatAt(a: seq<Vector>, b: seq<Vector>, w: nat, i: nat, j: nat)
    requires OfWidth(a, w) && OfWidth(b, w) && i < w && j < w
    ensures OfWidth(a + b, w) && Gram(a + b, w)[i][j] == Gram(a, w)[i][j] + Gram(b, w)[i][j]
  {
    ColumnConcat(a, b, w, i);
    ColumnConcat(a, b, w, j);
    assert |Column(a, w, i)| == |Column(a, w, j)|;
    hide Gram, Column, Dot;
    GramAt(a, w, i, j);
    GramAt(b, w, i, j);
    GramAt(a + b, w, i, j);
    DotConcat(Column(a, w, i), Column(a, w, j), Column(b, w, i), Column(b, w, j));
  }

  lemma SameRow(x: Vector, y: Vector)
    requires |x| == |y| && forall j | 0 <= j < |x| :: x[j] == y[j]
    ensures x == y
  {
  }

  lemma GramConcat(a: seq<Vector>, b: seq<Vector>, w: nat)
    requires OfWidth(a, w) && OfWidth(b, w)
    ensures OfWidth(a + b, w) && Gram(a + b, w) == PlusRows(Gram(a, w), Gram(b, w), w)
  {
    var sum := PlusRows(Gram(a, w), Gram(b, w), w);
    forall i | 0 <= i < w
      ensures Gram(a + b, w)[i] == sum[i]
    {
      forall j | 0 <= j < w
        ensures Gram(a + b, w)[i][j] == sum[i][j]
      {
        GramConcatAt(a, b, w, i, j);
      }
      SameRow(Gram(a + b, w)[i], sum[i]);
    }
  }

  // ---------------------------------------------------------------- energies

  /** All entries of a matrix, row after row. */
  function Flat(rows: seq<Vector>): Vector {
    if rows == [] then [] else rows[0] + Flat(rows[1..])
  }

  /** shift @ basis. */
  function InBasis(shift: seq<Vector>, b: Basis): seq<Vector> {
    seq(|shift|, i requires 0 <= i < |shift| => Coefficients(shift[i], b))
  }

  lemma FirstInBasis(shift: seq<Vector>, b: Basis)
    requires shift != []
    ensures InBasis(shift, b) != [] && InBasis(shift, b)[0] == Coefficients(shift[0], b)
    ensures InBasis(shift, b)[1..] == InBasis(shift[1..], b)
  {
    hide Coefficients;
  }

  /** The energies are the sums of the squares of all entries of shift @ basis and of the shift, and the number of rows. */
  lemma {:induction false} EnergiesAre(shift: seq<Vector>, b: Basis)
    ensures ShiftEnergies(shift, b) ==
            Energy(Dot(Flat(InBasis(shift, b)), Flat(InBasis(shift, b))), Dot(Flat(shift), Flat(shift)), |shift|)
  {
    if shift == [] {
      assert InBasis(shift, b) == [];
    } else {
      EnergiesAre(shift[1..], b);
      FirstInBasis(shift, b);
      hide Dot, Coefficients, InBasis;
      DotConcat(shift[0], shift[0], Flat(shift[1..]), Flat(shift[1..]));
      var rest := Flat(InBasis(shift[1..], b));
      DotConcat(Coefficients(shift[0], b), Coefficients(shift[0], b), rest, rest);
    }
  }

  // ---------------------------------------------------------------- moments of many steps

  /** The number, the sum and the second moments of some tokens. */
  ghost predicate MomentsOfRows(m: Moments, rows: seq<Vector>, w: nat) {
    && OfWidth(rows, w)
    && m == Moments(w, |rows|, RowSum(rows, w), Gram(rows, w))
  }

  lemma NoRows(w: nat)
    ensures MomentsOfRows(NoMoments(w), [], w)
  {
  }

  /** Adding one step after the other gives the moments of the tokens of all steps. */
  lemma AddedRows(m: Moments, rows: seq<Vector>, base: Activations)
    requires MomentsOfRows(m, rows, base.width) && base.Shaped()
    ensures m.Shaped() && MomentsOfRows(m.Add(base), rows + base.rows, base.width)
  {
    RowSumConcat(rows, base.rows, base.width);
    GramConcat(rows, base.rows, base.width);
  }

  /** So a warm-up step leaves a layer with the moments of all reference tokens it has seen, from the first step on. */
  lemma WarmUpSees(layers: seq<Layer>, s: State, obs: Observation, check: bool, l: Layer, rows: seq<Vector>)
    requires Distinct(layers) && l in layers && WarmUp(layers, s, obs, check).Success?
    requires l in obs && if l in s.moments then MomentsOfRows(s.moments[l], rows, s.moments[l].width) else rows == []
    ensures var w := WarmUp(layers, s, obs, check).value;
            l in w.moments && MomentsOfRows(w.moments[l], rows + obs[l].base.rows, obs[l].base.width)
  {
    WarmUpOfLayer(layers, s, obs, check, l);
    hide WarmUp, Moments.Add;
    NoRows(obs[l].base.width);
    AddedRows(if l in s.moments then s.moments[l] else NoMoments(obs[l].base.width), rows, obs[l].base);
  }

  // ---------------------------------------------------------------- replies

  /** The energies that the ranks send add up to the energies of all their rows. */
  lemma {:induction false} EnergyReply(sent: seq<Call>, shifts: seq<seq<Vector>>, b: Basis)
    requires sent != [] && |sent| == |shifts|
    requires forall i | 0 <= i < |sent| :: sent[i] == AllReduce(Energies(ShiftEnergies(shifts[i], b)))
    ensures Reply(sent) == Energies(ShiftEnergies(AllRows(shifts), b))
  {
    if |sent| == 1 {
      assert AllRows(shifts[1..]) == [];
      assert AllRows(shifts) == shifts[0] + [] == shifts[0];
    } else {
      EnergyReply(sent[1..], shifts[1..], b);
      EnergiesOfConcat(shifts[0], AllRows(shifts[1..]), b);
      hide ShiftEnergies;
    }
  }

  ghost predicate AllWidth(parts: seq<seq<Vector>>, w: nat) {
    forall i | 0 <= i < |parts| :: OfWidth(parts[i], w)
  }

  lemma {:induction false} AllRowsOfWidth(parts: seq<seq<Vector>>, w: nat)
    requires AllWidth(parts, w)
    ensures OfWidth(AllRows(parts), w)
  {
    if parts != [] {
      AllRowsOfWidth(parts[1..], w);
    }
  }

  lemma {:induction false} CountReply(sent: seq<Call>, parts: seq<seq<Vector>>)
    requires sent != [] && |sent| == |parts|
    requires forall i | 0 <= i < |sent| :: sent[i] == AllReduce(Count(|parts[i]|))
    ensures Reply(sent) == Count(|AllRows(parts)|)
  {
    if |sent| == 1 {
      assert AllRows(parts[1..]) == [];
    } else {
      CountReply(sent[1..], parts[1..]);
    }
  }

  lemma {:induction false} SumsReply(sent: seq<Call>, parts: seq<seq<Vector>>, w: nat)
    requires sent != [] && |sent| == |parts| && AllWidth(parts, w)
    requires forall i | 0 <= i < |sent| :: sent[i] == AllReduce(Sums(RowSum(parts[i], w)))
    ensures OfWidth(AllRows(parts), w) && Reply(sent) == Sums(RowSum(AllRows(parts), w))
  {
    AllRowsOfWidth(parts, w);
    if |sent| == 1 {
      assert AllRows(parts[1..]) == [];
      assert AllRows(parts) == parts[0] + [] == parts[0];
    } else {
      SumsReply(sent[1..], parts[1..], w);
      RowSumConcat(parts[0], AllRows(parts[1..]), w);
      hide RowSum;
    }
  }

  lemma PlusMatrixIsPlusRows(a: seq<Vector>, b: seq<Vector>, w: nat)
    requires |a| == |b| && OfWidth(a, w) && OfWidth(b, w)
    ensures SameSize(a, b) && PlusMatrix(a, b) == PlusRows(a, b, w)
  {
  }

  lemma {:induction false} SecondReply(sent: seq<Call>, parts: seq<seq<Vector>>, w: nat)
    requires sent != [] && |sent| == |parts| && AllWidth(parts, w)
    requires forall i | 0 <= i < |sent| :: sent[i] == AllReduce(Second(Gram(parts[i], w)))
    ensures OfWidth(AllRows(parts), w) && Reply(sent) == Second(Gram(AllRows(parts), w))
  {
    AllRowsOfWidth(parts, w);
    if |sent| == 1 {
      assert AllRows(parts[1..]) == [];
      assert AllRows(parts) == parts[0] + [] == parts[0];
    } else {
      SecondReply(sent[1..], parts[1..], w);
      GramConcat(parts[0], AllRows(parts[1..]), w);
      PlusMatrixIsPlusRows(Gram(parts[0], w), Gram(AllRows(parts[1..]), w), w);
      hide Gram;
    }
  }

  // ---------------------------------------------------------------- monitoring

  /** The k-th collective of a monitoring step adds up the energies of the k-th layer. */
  lemma {:induction false} MonitorCall(c: Config, layers: seq<Layer>, s: State, obs: Observation, inbox: seq<Tensor>, k: nat)
    requires c.Valid() && k < |MonitorFrom(c, layers, s, obs, inbox).calls|
    ensures k < |layers| && layers[k] in obs && obs[layers[k]].Aligned() && layers[k] in s.bases
    ensures MonitorFrom(c, layers, s, obs, inbox).calls[k] ==
            AllReduce(Energies(ShiftEnergies(obs[layers[k]].Shift(), s.bases[layers[k]])))
  {
    hide ShiftEnergies, Measure, P.Step;
    if k > 0 {
      var first := MonitorOne(c, layers[0], s, obs, inbox);
      MonitorCall(c, layers[1..], first.value, obs, first.inbox, k - 1);
    }
  }

  /** A step in which a rank monitors. */
  ghost predicate Monitors(c: Config, m: Member)
    requires c.Valid()
  {
    && m.given.Some? && m.state.step >= c.warmup && m.state.Calibrated()
    && (m.state.step + 1) % c.interval == 0
  }

  lemma MonitorCallOf(c: Config, layers: seq<Layer>, m: Member, inbox: seq<Tensor>, k: nat)
    requires c.Valid() && Monitors(c, m) && k < |StepOf(c, layers, m, inbox).calls|
    ensures k < |layers| && layers[k] in m.given.value && m.given.value[layers[k]].Aligned() && layers[k] in m.state.bases
    ensures StepOf(c, layers, m, inbox).calls[k] ==
            AllReduce(Energies(ShiftEnergies(m.given.value[layers[k]].Shift(), m.state.bases[layers[k]])))
  {
    hide MonitorFrom;
    MonitorCall(c, layers, m.state.(step := m.state.step + 1), m.given.value, inbox, k);
  }

  /** The shifts that the ranks observe at a layer. */
  function ShiftsAt(world: seq<Member>, l: Layer): seq<seq<Vector>>
    requires forall i | 0 <= i < |world| :: world[i].given.Some? && l in world[i].given.value && world[i].given.value[l].Aligned()
  {
    seq(|world|, i requires 0 <= i < |world| => world[i].given.value[l].Shift())
  }

  /**
   In a monitoring step of ranks with the same bases, the reply for a layer is the energy of the shifts of all
   tokens of all ranks at that layer: every rank checks the same measurement, of all tokens together.
   */
  lemma MonitoringSeesAllTokens(c: Config, layers: seq<Layer>, world: seq<Member>, inbox: seq<Tensor>, k: nat)
    requires c.Valid() && world != [] && Delivered(c, layers, world, inbox) && k < |inbox|
    requires forall i | 0 <= i < |world| :: Monitors(c, world[i]) && world[i].state.bases == world[0].state.bases
    ensures k < |layers| && layers[k] in world[0].state.bases
    ensures forall i | 0 <= i < |world| ::
              world[i].given.Some? && layers[k] in world[i].given.value && world[i].given.value[layers[k]].Aligned()
    ensures inbox[k] == Energies(ShiftEnergies(AllRows(ShiftsAt(world, layers[k])), world[0].state.bases[layers[k]]))
  {
    assert ReplyAt(c, layers, world, inbox, k);
    var sent := SentTo(c, layers, world, inbox, k);
    hide StepOf, Delivered, ReplyAt, ShiftEnergies, Reply;
    forall i | 0 <= i < |world|
      ensures k < |layers| && layers[k] in world[i].given.value && world[i].given.value[layers[k]].Aligned()
      ensures layers[k] in world[i].state.bases
      ensures sent[i] == AllReduce(Energies(ShiftEnergies(world[i].given.value[layers[k]].Shift(), world[i].state.bases[layers[k]])))
    {
      assert Monitors(c, world[i]);
      MonitorCallOf(c, layers, world[i], inbox, k);
    }
    assert Monitors(c, world[0]);
    EnergyReply(sent, ShiftsAt(world, layers[k]), world[0].state.bases[layers[k]]);
  }

  // ---------------------------------------------------------------- calibration

  lemma {:induction false} PsisCall(c: Config, shifts: seq<seq<Vector>>, basis: Basis, values: seq<real>,
                                    inbox: seq<Tensor>, k: nat)
    requires c.Valid() && k < |PsisFrom(c, shifts, basis, values, inbox).calls|
    ensures k < |shifts|
    ensures PsisFrom(c, shifts, basis, values, inbox).calls[k] == AllReduce(Energies(ShiftEnergies(shifts[k], basis)))
  {
    hide ShiftEnergies, Measure;
    if k > 0 {
      var first := PooledEnergy(shifts[0], basis, inbox);
      var m := Measure(c, first.value);
      PsisCall(c, shifts[1..], basis, if m.Some? then values + [m.value] else values, first.inbox, k - 1);
    }
  }

  /** What a rank sends to the i-th collective of the calibration of a layer. */
  function LayerSends(r: Rank, m: Moments, shifts: seq<seq<Vector>>, replies: seq<Tensor>, i: nat): Call
    requires i < 4 + |shifts| && RepliesFor(replies, |shifts|)
  {
    if i == 0 then AllReduce(Count(m.n))
    else if i == 1 then AllReduce(Sums(m.sums))
    else if i == 2 then AllReduce(Second(m.second))
    else if i == 3 then Broadcast(Columns(r.principal(replies[0].n, replies[1].v, replies[2].m)))
    else AllReduce(Energies(ShiftEnergies(shifts[i - 4], replies[3].b)))
  }

  lemma BasisCalls(c: Config, r: Rank, basis: Basis, shifts: seq<seq<Vector>>, inbox: seq<Tensor>, i: nat)
    requires c.Valid() && i < |WithBasis(c, r, Columns(basis), shifts, inbox).calls|
    ensures i < |shifts|
    ensures WithBasis(c, r, Columns(basis), shifts, inbox).calls[i] == AllReduce(Energies(ShiftEnergies(shifts[i], basis)))
  {
    hide PsisFrom, ShiftEnergies, Thresholds;
    PsisCall(c, shifts, basis, [], inbox, i);
  }

  lemma LayerCallsAre(c: Config, r: Rank, m: Moments, shifts: seq<seq<Vector>>, inbox: seq<Tensor>)
    requires c.Valid() && CalibrateLayer(c, r, m, shifts, inbox).Done? && RepliesFor(inbox, |shifts|)
    ensures CalibrateLayer(c, r, m, shifts, inbox).calls ==
            [AllReduce(Count(m.n)), AllReduce(Sums(m.sums)), AllReduce(Second(m.second)),
             Broadcast(Columns(r.principal(inbox[0].n, inbox[1].v, inbox[2].m)))]
            + WithBasis(c, r, Columns(inbox[3].b), shifts, inbox[4..]).calls
  {
    hide WithBasis, AllEnergies;
    assert inbox[1..][1..][1..][1..] == inbox[4..];
  }

  lemma LayerCalls(c: Config, r: Rank, m: Moments, shifts: seq<seq<Vector>>, inbox: seq<Tensor>, i: nat)
    requires c.Valid() && CalibrateLayer(c, r, m, shifts, inbox).Done? && i < 4 + |shifts|
    ensures RepliesFor(inbox, |shifts|) && |CalibrateLayer(c, r, m, shifts, inbox).calls| == 4 + |shifts|
    ensures CalibrateLayer(c, r, m, shifts, inbox).calls[i] == LayerSends(r, m, shifts, inbox, i)
  {
    LayerNeedsReplies(c, r, m, shifts, inbox);
    LayerTakes(c, r, m, shifts, inbox);
    LayerSteady(c, r, m, shifts, inbox, []);
    LayerCallsAre(c, r, m, shifts, inbox);
    hide CalibrateLayer, WithBasis, ShiftEnergies, Intrusions, AllEnergies;
    if i >= 4 {
      BasisCalls(c, r, inbox[3].b, shifts, inbox[4..], i - 4);
    }
  }

  /** The collectives of a layer are at its place among those of all layers. */
  lemma {:induction false} CalibrationCall(c: Config, r: Rank, layers: seq<Layer>, s: State, done: Calibration,
                                           inbox: seq<Tensor>, k: nat, i: nat)
    requires c.Valid() && Distinct(layers) && k < |layers| && CalibrateFrom(c, r, layers, s, done, inbox).Done?
    requires layers[k] in s.moments && layers[k] in s.records && i < 4 + |s.records[layers[k]]|
    ensures var l, from := layers[k], RepliesBefore(layers[..k], s.records);
            && from <= |inbox| && RepliesFor(inbox[from..], |s.records[l]|)
            && from + i < |CalibrateFrom(c, r, layers, s, done, inbox).calls|
            && CalibrateFrom(c, r, layers, s, done, inbox).calls[from + i] ==
               LayerSends(r, s.moments[l], s.records[l], inbox[from..], i)
  {
    hide CalibrateLayer, LayerSends, RepliesFor;
    var f := layers[0];
    var first := CalibrateLayer(c, r, s.moments[f], s.records[f], inbox);
    var next := Calibration(done.bases[f := first.value.basis], done.predictor[f := first.value.predictor]);
    LayerCalls(c, r, s.moments[f], s.records[f], inbox, if k == 0 then i else 0);
    if k == 0 {
      assert inbox[0..] == inbox;
    } else {
      LayerTakes(c, r, s.moments[f], s.records[f], inbox);
      CalibrationCall(c, r, layers[1..], s, next, first.inbox, k - 1, i);
      assert layers[..k][1..] == layers[1..][..k - 1] && layers[..k][0] == f;
      var taken, from := 4 + |s.records[f]|, RepliesBefore(layers[1..][..k - 1], s.records);
      assert first.inbox[from..] == inbox[taken + from..];
    }
  }

  /** The step of a rank that ends the warm-up; after is its state when the observation has been recorded. */
  ghost predicate Calibrates(c: Config, layers: seq<Layer>, m: Member, after: State, inbox: seq<Tensor>)
    requires c.Valid()
  {
    && m.given.Some? && m.state.step + 1 == c.warmup
    && WarmUp(layers, m.state.(step := m.state.step + 1), m.given.value, c.warmup % c.interval == 0) == Success(after)
    && StepOf(c, layers, m, inbox).Done?
  }

  lemma CalibratingStep(c: Config, layers: seq<Layer>, m: Member, after: State, inbox: seq<Tensor>)
    requires c.Valid() && Calibrates(c, layers, m, after, inbox)
    ensures var e := CalibrateFrom(c, m.rank, layers, after, Calibration(map[], map[]), inbox);
            e.Done? && StepOf(c, layers, m, inbox).calls == e.calls
  {
    hide WarmUp, CalibrateFrom;
  }

  /** A rank's i-th collective for layer l is what the layer sends, when its replies start at the given place. */
  ghost predicate SendsAt(c: Config, layers: seq<Layer>, m: Member, after: State, inbox: seq<Tensor>, l: Layer, from: nat,
                          i: nat)
    requires c.Valid()
  {
    && l in after.moments && l in after.records
    && from <= |inbox| && RepliesFor(inbox[from..], |after.records[l]|)
    && (i < 4 + |after.records[l]| ==>
          && from + i < |StepOf(c, layers, m, inbox).calls|
          && StepOf(c, layers, m, inbox).calls[from + i] ==
             LayerSends(m.rank, after.moments[l], after.records[l], inbox[from..], i))
  }

  lemma MemberSends(c: Config, layers: seq<Layer>, m: Member, after: State, inbox: seq<Tensor>, k: nat, i: nat)
    requires c.Valid() && Distinct(layers) && k < |layers| && Calibrates(c, layers, m, after, inbox)
    ensures SendsAt(c, layers, m, after, inbox, layers[k], RepliesBefore(layers[..k], after.records), i)
  {
    hide StepOf, CalibrateFrom, LayerSends, CalibrateLayer, RepliesFor, Calibrates, Intrusions, RepliesBefore, Distinct;
    CalibratingStep(c, layers, m, after, inbox);
    EveryLayerItsReplies(c, m.rank, layers, after, Calibration(map[], map[]), inbox, k);
    var l, from := layers[k], RepliesBefore(layers[..k], after.records);
    LayerNeedsReplies(c, m.rank, after.moments[l], after.records[l], inbox[from..]);
    if i < 4 + |after.records[l]| {
      CalibrationCall(c, m.rank, layers, after, Calibration(map[], map[]), inbox, k, i);
    }
  }

  lemma {:induction false} SameRepliesBefore(layers: seq<Layer>, a: map<Layer, seq<seq<Vector>>>,
                                             b: map<Layer, seq<seq<Vector>>>)
    requires SameRecords(a, b)
    ensures RepliesBefore(layers, a) == RepliesBefore(layers, b)
  {
    if layers != [] {
      SameRepliesBefore(layers[1..], a, b);
      assert layers[0] in a.Keys <==> layers[0] in b.Keys;
    }
  }

  /** All ranks end the warm-up in the same step, with as many records. */
  ghost predicate AllCalibrate(c: Config, layers: seq<Layer>, world: seq<Member>, after: seq<State>, inbox: seq<Tensor>)
    requires c.Valid()
  {
    && world != [] && |after| == |world| && Delivered(c, layers, world, inbox)
    && forall i | 0 <= i < |world| ::
         Calibrates(c, layers, world[i], after[i], inbox) && SameRecords(after[i].records, after[0].records)
  }

  /** The number of records of a layer on all ranks. */
  ghost predicate SameNumber(after: seq<State>, l: Layer, n: nat) {
    forall i | 0 <= i < |after| :: l in after[i].records && |after[i].records[l]| == n
  }

  lemma OneSends(c: Config, layers: seq<Layer>, world: seq<Member>, after: seq<State>, inbox: seq<Tensor>, k: nat, i: nat,
                 x: nat)
    requires c.Valid() && Distinct(layers) && k < |layers| && AllCalibrate(c, layers, world, after, inbox) && x < |world|
    ensures SendsAt(c, layers, world[x], after[x], inbox, layers[k], RepliesBefore(layers[..k], after[0].records), i)
    ensures SameRecords(after[x].records, after[0].records)
  {
    assert Calibrates(c, layers, world[x], after[x], inbox) && SameRecords(after[x].records, after[0].records);
    hide StepOf, AllCalibrate, Calibrates, SendsAt, SameRecords;
    SameRepliesBefore(layers[..k], after[x].records, after[0].records);
    MemberSends(c, layers, world[x], after[x], inbox, k, i);
  }

  /** A reply is made of what the ranks have sent. */
  ghost predicate MadeOf(c: Config, layers: seq<Layer>, world: seq<Member>, inbox: seq<Tensor>, at: nat, sent: seq<Call>)
    requires c.Valid()
  {
    && sent != [] && |sent| == |world| && at < |inbox| && inbox[at] == Reply(sent)
    && forall x | 0 <= x < |world| ::
         at < |StepOf(c, layers, world[x], inbox).calls| && sent[x] == StepOf(c, layers, world[x], inbox).calls[at]
  }

  lemma ReplyOfSent(c: Config, layers: seq<Layer>, world: seq<Member>, inbox: seq<Tensor>, at: nat)
    returns (sent: seq<Call>)
    requires c.Valid() && world != [] && Delivered(c, layers, world, inbox) && at < |inbox|
    ensures MadeOf(c, layers, world, inbox, at, sent)
  {
    hide StepOf, Reply;
    assert ReplyAt(c, layers, world, inbox, at);
    sent := SentTo(c, layers, world, inbox, at);
  }

  lemma TheyDeliver(c: Config, layers: seq<Layer>, world: seq<Member>, after: seq<State>, inbox: seq<Tensor>)
    requires c.Valid() && AllCalibrate(c, layers, world, after, inbox)
    ensures world != [] && |after| == |world| && Delivered(c, layers, world, inbox)
  {
    hide Calibrates, Delivered, SameRecords;
  }

  /** What the ranks send to one collective of a layer, and that the layer's reply is made of it. */
  lemma LayerReply(c: Config, layers: seq<Layer>, world: seq<Member>, after: seq<State>, inbox: seq<Tensor>, k: nat, i: nat)
    returns (sent: seq<Call>)
    requires c.Valid() && Distinct(layers) && k < |layers| && AllCalibrate(c, layers, world, after, inbox)
    ensures layers[k] in after[0].records && SameNumber(after, layers[k], |after[0].records[layers[k]]|)
    ensures forall x | 0 <= x < |world| ::
              SendsAt(c, layers, world[x], after[x], inbox, layers[k], RepliesBefore(layers[..k], after[0].records), i)
    ensures i < 4 + |after[0].records[layers[k]]| ==>
              MadeOf(c, layers, world, inbox, RepliesBefore(layers[..k], after[0].records) + i, sent)
  {
    hide StepOf, SendsAt, Calibrates, Delivered, MadeOf, RepliesBefore, SameRecords, AllCalibrate, Distinct;
    sent := [];
    TheyDeliver(c, layers, world, after, inbox);
    var l, from := layers[k], RepliesBefore(layers[..k], after[0].records);
    forall x | 0 <= x < |world|
      ensures SendsAt(c, layers, world[x], after[x], inbox, l, from, i)
      ensures l in after[x].records && l in after[0].records && |after[x].records[l]| == |after[0].records[l]|
    {
      OneSends(c, layers, world, after, inbox, k, i, x);
      InSameRecords(c, layers, world[x], after[x], inbox, l, from, i, after[0]);
    }
    assert SendsAt(c, layers, world[0], after[0], inbox, l, from, i) && l in after[0].records;
    if i < 4 + |after[0].records[l]| {
      HasReply(c, layers, world[0], after[0], inbox, l, from, i);
      sent := ReplyOfSent(c, layers, world, inbox, from + i);
    }
  }

  lemma InSameRecords(c: Config, layers: seq<Layer>, m: Member, after: State, inbox: seq<Tensor>, l: Layer, from: nat,
                      i: nat, other: State)
    requires c.Valid() && SendsAt(c, layers, m, after, inbox, l, from, i) && SameRecords(after.records, other.records)
    ensures l in after.records && l in other.records && |after.records[l]| == |other.records[l]|
  {
    hide StepOf, LayerSends, RepliesFor;
    assert l in after.records.Keys && l in other.records.Keys;
  }

  lemma HasReply(c: Config, layers: seq<Layer>, m: Member, after: State, inbox: seq<Tensor>, l: Layer, from: nat, i: nat)
    requires c.Valid() && SendsAt(c, layers, m, after, inbox, l, from, i) && i < 4 + |after.records[l]|
    ensures from + i < |inbox|
  {
    hide StepOf, LayerSends, AllEnergies;
  }

  /** Each rank's collectives for a layer, one by one. */
  lemma SentIs(c: Config, layers: seq<Layer>, m: Member, after: State, inbox: seq<Tensor>, l: Layer, from: nat, i: nat,
               call: Call)
    requires c.Valid() && SendsAt(c, layers, m, after, inbox, l, from, i)
    requires i < 4 + |after.records[l]| && call == StepOf(c, layers, m, inbox).calls[from + i]
    ensures from <= |inbox| && RepliesFor(inbox[from..], |after.records[l]|) && l in after.moments
    ensures call == LayerSends(m.rank, after.moments[l], after.records[l], inbox[from..], i)
  {
    hide StepOf, LayerSends, RepliesFor;
  }

  /** The calls that the ranks make for a layer's i-th collective. */
  ghost predicate AllSend(world: seq<Member>, after: seq<State>, replies: seq<Tensor>, l: Layer, n: nat, i: nat,
                          sent: seq<Call>) {
    && |after| == |world| == |sent| && sent != [] && SameNumber(after, l, n) && RepliesFor(replies, n) && i < 4 + n
    && forall x | 0 <= x < |world| ::
         l in after[x].moments
         && sent[x] == LayerSends(world[x].rank, after[x].moments[l], after[x].records[l], replies, i)
  }

  lemma AllSentTo(c: Config, layers: seq<Layer>, world: seq<Member>, after: seq<State>, inbox: seq<Tensor>, l: Layer,
                  from: nat, n: nat, i: nat, sent: seq<Call>)
    requires c.Valid() && |after| == |world| && SameNumber(after, l, n) && i < 4 + n
    requires forall x | 0 <= x < |world| :: SendsAt(c, layers, world[x], after[x], inbox, l, from, i)
    requires MadeOf(c, layers, world, inbox, from + i, sent)
    ensures from <= |inbox| && AllSend(world, after, inbox[from..], l, n, i, sent)
  {
    hide StepOf, LayerSends, RepliesFor, SendsAt;
    forall x | 0 <= x < |world|
      ensures from <= |inbox| && RepliesFor(inbox[from..], n) && l in after[x].moments
      ensures sent[x] == LayerSends(world[x].rank, after[x].moments[l], after[x].records[l], inbox[from..], i)
    {
      SentIs(c, layers, world[x], after[x], inbox, l, from, i, sent[x]);
    }
    assert SameNumber(after, l, n) && |world| > 0;
    assert RepliesFor(inbox[from..], n);
  }

  function RecordsOf(after: seq<State>, l: Layer, n: nat, j: nat): seq<seq<Vector>>
    requires SameNumber(after, l, n) && j < n
  {
    seq(|after|, i requires 0 <= i < |after| => after[i].records[l][j])
  }

  /** Each rank's moments of the layer are those of the reference tokens it has seen. */
  ghost predicate Seen(after: seq<State>, l: Layer, tokens: seq<seq<Vector>>, w: nat) {
    |tokens| == |after| && forall i | 0 <= i < |after| && l in after[i].moments ::
      MomentsOfRows(after[i].moments[l], tokens[i], w)
  }

  lemma SeenWidth(world: seq<Member>, after: seq<State>, replies: seq<Tensor>, l: Layer, n: nat, i: nat,
                  sent: seq<Call>, tokens: seq<seq<Vector>>, w: nat)
    requires AllSend(world, after, replies, l, n, i, sent) && Seen(after, l, tokens, w)
    ensures AllWidth(tokens, w)
  {
    hide RowSum, Gram, LayerSends;
  }

  /** The reply to each of a layer's collectives, when all ranks have sent what the layer sends. */
  lemma RepliesAre(world: seq<Member>, after: seq<State>, replies: seq<Tensor>, l: Layer, n: nat, i: nat,
                   sent: seq<Call>, tokens: seq<seq<Vector>>, w: nat)
    requires AllSend(world, after, replies, l, n, i, sent) && Seen(after, l, tokens, w)
    ensures OfWidth(AllRows(tokens), w)
    ensures i == 0 ==> Reply(sent) == Count(|AllRows(tokens)|)
    ensures i == 1 ==> Reply(sent) == Sums(RowSum(AllRows(tokens), w))
    ensures i == 2 ==> Reply(sent) == Second(Gram(AllRows(tokens), w))
    ensures i == 3 ==> Reply(sent) == Columns(world[0].rank.principal(replies[0].n, replies[1].v, replies[2].m))
    ensures i >= 4 ==> Reply(sent) == Energies(ShiftEnergies(AllRows(RecordsOf(after, l, n, i - 4)), replies[3].b))
  {
    SeenWidth(world, after, replies, l, n, i, sent, tokens, w);
    AllRowsOfWidth(tokens, w);
    hide RowSum, Gram, ShiftEnergies, AllEnergies, AllRows, OfWidth, AllWidth;
    if i == 0 {
      CountReply(sent, tokens);
    } else if i == 1 {
      SumsReply(sent, tokens, w);
    } else if i == 2 {
      SecondReply(sent, tokens, w);
    } else if i >= 4 {
      EnergyReply(sent, RecordsOf(after, l, n, i - 4), replies[3].b);
    }
  }

  /** What a layer's replies have to be. */
  ghost predicate StatisticsOfAll(world: seq<Member>, after: seq<State>, replies: seq<Tensor>, l: Layer, n: nat,
                                  all: seq<Vector>, w: nat) {
    && SameNumber(after, l, n) && RepliesFor(replies, n) && OfWidth(all, w) && world != []
    && replies[0] == Count(|all|) && replies[1] == Sums(RowSum(all, w)) && replies[2] == Second(Gram(all, w))
    && replies[3] == Columns(world[0].rank.principal(|all|, RowSum(all, w), Gram(all, w)))
    && forall j | 0 <= j < n :: replies[4 + j] == Energies(ShiftEnergies(AllRows(RecordsOf(after, l, n, j)), replies[3].b))
  }

  lemma ReplyOfLayer(c: Config, layers: seq<Layer>, world: seq<Member>, after: seq<State>, inbox: seq<Tensor>, k: nat,
                     tokens: seq<seq<Vector>>, w: nat, i: nat)
    returns (n: nat, from: nat, sent: seq<Call>)
    requires c.Valid() && Distinct(layers) && k < |layers| && AllCalibrate(c, layers, world, after, inbox)
    requires Seen(after, layers[k], tokens, w)
    ensures layers[k] in after[0].records && n == |after[0].records[layers[k]]|
    ensures from == RepliesBefore(layers[..k], after[0].records) && SameNumber(after, layers[k], n)
    ensures i < 4 + n ==>
              && from <= |inbox| && AllSend(world, after, inbox[from..], layers[k], n, i, sent)
              && inbox[from..][i] == Reply(sent)
  {
    hide StepOf, SendsAt, RepliesBefore, AllCalibrate, Seen, Distinct, AllSend;
    sent := LayerReply(c, layers, world, after, inbox, k, i);
    TheyDeliver(c, layers, world, after, inbox);
    n, from := |after[0].records[layers[k]]|, RepliesBefore(layers[..k], after[0].records);
    if i < 4 + n {
      AllSentTo(c, layers, world, after, inbox, layers[k], from, n, i, sent);
      assert from + i < |inbox|;
    }
  }

  /**
   At the end of the warm-up the replies for a layer are the number, the sum and the second moments of the tokens
   of all ranks, the basis that the first rank computes from them, and for every recorded step the energy of the
   shifts of all ranks against that basis.
   */
  lemma CalibrationSeesAllTokens(c: Config, layers: seq<Layer>, world: seq<Member>, after: seq<State>,
                                 inbox: seq<Tensor>, k: nat, tokens: seq<seq<Vector>>, w: nat)
    requires c.Valid() && Distinct(layers) && k < |layers| && AllCalibrate(c, layers, world, after, inbox)
    requires Seen(after, layers[k], tokens, w)
    ensures after != [] && layers[k] in after[0].records
    ensures var l, from := layers[k], RepliesBefore(layers[..k], after[0].records);
            from <= |inbox|
            && StatisticsOfAll(world, after, inbox[from..], l, |after[0].records[l]|, AllRows(tokens), w)
  {
    hide AllCalibrate, RepliesBefore, Seen, Distinct, AllSend, SameNumber, RowSum, Gram, ShiftEnergies;
    TheyDeliver(c, layers, world, after, inbox);
    var l, from := layers[k], RepliesBefore(layers[..k], after[0].records);
    var n, at, counts := ReplyOfLayer(c, layers, world, after, inbox, k, tokens, w, 0);
    var replies := inbox[from..];
    SentToLayer(world, after, replies, l, n, 0, counts);
    RepliesAre(world, after, replies, l, n, 0, counts, tokens, w);
    forall i | 0 < i < 4 + n
      ensures i == 1 ==> replies[i] == Sums(RowSum(AllRows(tokens), w))
      ensures i == 2 ==> replies[i] == Second(Gram(AllRows(tokens), w))
      ensures i == 3 ==> replies[i] == Columns(world[0].rank.principal(replies[0].n, replies[1].v, replies[2].m))
      ensures i >= 4 ==> replies[i] == Energies(ShiftEnergies(AllRows(RecordsOf(after, l, n, i - 4)), replies[3].b))
    {
      var n', at', sent := ReplyOfLayer(c, layers, world, after, inbox, k, tokens, w, i);
      RepliesAre(world, after, replies, l, n, i, sent, tokens, w);
    }
  }

  lemma SentToLayer(world: seq<Member>, after: seq<State>, replies: seq<Tensor>, l: Layer, n: nat, i: nat,
                    sent: seq<Call>)
    requires AllSend(world, after, replies, l, n, i, sent)
    ensures RepliesFor(replies, n) && SameNumber(after, l, n)
  {
    hide LayerSends, RepliesFor;
  }
}
