/**
 Saving and resuming: a controller object run over any number of steps, and what a second object does that
 continues from its checkpoint.
 */
module StablerResume {
  import opened Wrappers
  import opened Subspace
  import opened AlphaStabler
  import opened RankAgreement
  import opened StablerController

  /** A forward pass through a layer on a device. */
  datatype Hook = Hook(layer: Layer, device: Device, gradEnabled: bool)

  /** What is seen of one step: state, collectives, and the bases that the hooks project with; or why it stopped. */
  datatype Report = Stepped(state: State, calls: seq<Call>, bases: seq<Option<Basis>>) | Ended(why: Stop, calls: seq<Call>)

  /** A layer's gradient is projected exactly when control is on, and the layer calibrated and active. */
  function HookBasis(c: Config, s: State, h: Hook): Option<Basis> {
    if c.control && h.gradEnabled && h.layer in s.bases && h.layer in s.predictor && s.predictor[h.layer].active
    then Some(s.bases[h.layer]) else None
  }

  function HookBases(c: Config, s: State, hooks: seq<Hook>): seq<Option<Basis>> {
    seq(|hooks|, i requires 0 <= i < |hooks| => HookBasis(c, s, hooks[i]))
  }

  function ReportOf(c: Config, hooks: seq<Hook>, e: Exec<State>): Report {
    match e
    case Stopped(why, calls) => Ended(why, calls)
    case Done(next, calls, _) => Stepped(next, calls, HookBases(c, next, hooks))
  }

  /** The reports of a run, up to the step that does not finish. */
  function Reports(c: Config, r: Rank, layers: seq<Layer>, s: State, hooks: seq<Hook>, turns: seq<Turn>): seq<Report>
    requires c.Valid()
    decreases turns
  {
    if turns == [] then []
    else
      var e := ObserveUpdate(c, r, layers, s, turns[0].given, turns[0].inbox);
      [ReportOf(c, hooks, e)] + if e.Stopped? then [] else Reports(c, r, layers, e.value, hooks, turns[1..])
  }

  /** A run in two parts is reported in two parts. */
  lemma {:induction false} ReportsSplit(c: Config, r: Rank, layers: seq<Layer>, s: State, hooks: seq<Hook>, a: seq<Turn>,
                                        b: seq<Turn>)
    requires c.Valid() && Train(c, r, layers, s, a).Done?
    ensures Reports(c, r, layers, s, hooks, a + b) ==
            Reports(c, r, layers, s, hooks, a) + Reports(c, r, layers, Train(c, r, layers, s, a).value, hooks, b)
    decreases a
  {
    hide AlphaStabler.ObserveUpdate;
    if a == [] {
      assert a + b == b;
    } else {
      var first := ObserveUpdate(c, r, layers, s, a[0].given, a[0].inbox);
      assert (a + b)[1..] == a[1..] + b && (a + b)[0] == a[0];
      ReportsSplit(c, r, layers, first.value, hooks, a[1..], b);
    }
  }

  ghost predicate OfLayers(hooks: seq<Hook>, layers: seq<Layer>) {
    forall i | 0 <= i < |hooks| :: hooks[i].layer in layers
  }

  /** One forward pass per hook. */
  method RunHooks(controller: Controller, hooks: seq<Hook>) returns (bases: seq<Option<Basis>>)
    requires controller.Valid() && OfLayers(hooks, controller.layers)
    modifies controller`deviceBases
    ensures controller.Valid() && bases == HookBases(controller.config, controller.Value(), hooks)
  {
    bases := [];
    for i := 0 to |hooks|
      invariant controller.Valid() && |bases| == i
      invariant forall j | 0 <= j < i :: bases[j] == HookBasis(controller.config, controller.Value(), hooks[j])
    {
      assert hooks[i].layer in controller.layers;
      var basis := controller.BackwardHook(hooks[i].layer, hooks[i].device, hooks[i].gradEnabled);
      bases := bases + [basis];
    }
  }

  ghost predicate SameEnd(a: Exec<State>, b: Exec<State>) {
    (a.Done? <==> b.Done?) && (a.Done? && b.Done? ==> a.value == b.value)
  }

  /** The reports of the remaining turns start with the next one. */
  lemma NextReport(c: Config, r: Rank, layers: seq<Layer>, s: State, hooks: seq<Hook>, turns: seq<Turn>, i: nat)
    requires c.Valid() && i < |turns|
    ensures var e := ObserveUpdate(c, r, layers, s, turns[i].given, turns[i].inbox);
            && Reports(c, r, layers, s, hooks, turns[i..]) == [ReportOf(c, hooks, e)] +
               (if e.Stopped? then [] else Reports(c, r, layers, e.value, hooks, turns[i + 1..]))
            && (if e.Stopped? then Train(c, r, layers, s, turns[i..]).Stopped?
                else SameEnd(Train(c, r, layers, s, turns[i..]), Train(c, r, layers, e.value, turns[i + 1..])))
  {
    hide AlphaStabler.ObserveUpdate;
    assert turns[i..][0] == turns[i] && turns[i..][1..] == turns[i + 1..];
  }

  lemma Shift<T>(a: seq<T>, x: T, b: seq<T>)
    ensures a + ([x] + b) == (a + [x]) + b
  {
  }

  lemma EmptyInFront<T>(a: seq<T>)
    ensures [] + a == a && a + [] == a
  {
  }

  /** One observe_update, followed by the forward passes. */
  method RunTurn(controller: Controller, rank: Rank, hooks: seq<Hook>, turn: Turn) returns (report: Report, ok: bool)
    requires controller.Valid() && OfLayers(hooks, controller.layers)
    modifies controller
    ensures controller.Valid()
    ensures var c := controller.config;
            var e := ObserveUpdate(c, rank, controller.layers, old(controller.Value()), turn.given, turn.inbox);
            report == ReportOf(c, hooks, e) && (ok <==> e.Done?) && (ok ==> controller.Value() == e.value)
  {
    hide AlphaStabler.ObserveUpdate;
    var comm := new Comm(turn.inbox);
    var r := controller.ObserveUpdate(rank, comm, turn.given);
    EmptyInFront(ObserveUpdate(controller.config, rank, controller.layers, old(controller.Value()), turn.given, turn.inbox).calls);
    if r.Failure? {
      return Ended(r.error, comm.calls), false;
    }
    var bases := RunHooks(controller, hooks);
    return Stepped(controller.Value(), comm.calls, bases), true;
  }

  /** Train the object for some turns. */
  method RunTurns(controller: Controller, rank: Rank, hooks: seq<Hook>, turns: seq<Turn>)
    returns (reports: seq<Report>, ok: bool)
    requires controller.Valid() && OfLayers(hooks, controller.layers)
    modifies controller
    ensures controller.Valid()
    ensures var c, layers, s := controller.config, controller.layers, old(controller.Value());
            && reports == Reports(c, rank, layers, s, hooks, turns)
            && (ok <==> Train(c, rank, layers, s, turns).Done?)
            && (ok ==> controller.Value() == Train(c, rank, layers, s, turns).value)
  {
    hide AlphaStabler.ObserveUpdate, Train, Reports, ReportOf;
    var c, layers := controller.config, controller.layers;
    ghost var s := controller.Value();
    reports := [];
    assert turns[0..] == turns;
    EmptyInFront(Reports(c, rank, layers, s, hooks, turns));
    for i := 0 to |turns|
      invariant controller.Valid()
      invariant Reports(c, rank, layers, s, hooks, turns) ==
                reports + Reports(c, rank, layers, controller.Value(), hooks, turns[i..])
      invariant SameEnd(Train(c, rank, layers, s, turns), Train(c, rank, layers, controller.Value(), turns[i..]))
    {
      NextReport(c, rank, layers, controller.Value(), hooks, turns, i);
      var report;
      report, ok := RunTurn(controller, rank, hooks, turns[i]);
      Shift(reports, report, Reports(c, rank, layers, controller.Value(), hooks, turns[i + 1..]));
      reports := reports + [report];
      if !ok {
        EmptyInFront([report]);
        return;
      }
    }
    NoMoreTurns(c, rank, layers, controller.Value(), hooks, turns);
    EmptyInFront(reports);
    return reports, true;
  }

  lemma NoMoreTurns(c: Config, r: Rank, layers: seq<Layer>, s: State, hooks: seq<Hook>, turns: seq<Turn>)
    requires c.Valid()
    ensures Reports(c, r, layers, s, hooks, turns[|turns|..]) == []
    ensures Train(c, r, layers, s, turns[|turns|..]) == Done(s, [], [])
  {
  }

  /**
   A run interrupted after any number of steps: its checkpoint is loaded into another object for the same
   layers and configuration, whatever that object has done before, and both go on with the same turns.  All that is
   seen of the two is the same, and together with the first part it is the run that was not interrupted.
   */
  method SaveAndResume(original: Controller, resumed: Controller, rank: Rank, worldSize: nat, hooks: seq<Hook>,
                       before: seq<Turn>, after: seq<Turn>)
    returns (first: seq<Report>, loaded: bool, rest: seq<Report>, again: seq<Report>)
    requires original.Valid() && resumed.Valid() && original != resumed
    requires original.config == resumed.config && original.layers == resumed.layers && OfLayers(hooks, original.layers)
    modifies original, resumed
    ensures var c, layers, s := original.config, original.layers, old(original.Value());
            && first == Reports(c, rank, layers, s, hooks, before)
            && (loaded <==> Train(c, rank, layers, s, before).Done?)
            && (loaded ==> rest == again && first + again == Reports(c, rank, layers, s, hooks, before + after))
            && (loaded && Train(c, rank, layers, s, before + after).Done? ==>
                  original.Value() == resumed.Value() == Train(c, rank, layers, s, before + after).value)
  {
    var c, layers := original.config, original.layers;
    ghost var s := original.Value();
    rest, again := [], [];
    first, loaded := RunTurns(original, rank, hooks, before);
    if !loaded {
      return;
    }
    ReportsSplit(c, rank, layers, s, hooks, before, after);
    TrainSplit(c, rank, layers, s, before, after);
    var saved := original.StateDict(worldSize);
    loaded := resumed.LoadStateDict(saved, worldSize);
    var ok;
    rest, ok := RunTurns(original, rank, hooks, after);
    again, ok := RunTurns(resumed, rank, hooks, after);
  }
}
