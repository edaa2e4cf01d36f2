/**
 The activation predictor of verl/utils/alpha_stabler.py: an exponential moving average, two thresholds and a
 persistence counter, fed by one check after the other.
 */
module Predictor {
  import opened Wrappers
  import opened Reals

  datatype Config = Config(beta: real, persistence: nat) {
    ghost predicate Valid() {
      0.0 <= beta < 1.0 && persistence >= 1
    }
  }

  datatype State = State(ema: real, warning: real, release: real, count: nat, active: bool) {
    /** What calibration guarantees: thresholds in order, and nothing counted yet. */
    ghost predicate Fresh() {
      0.0 < release < warning < 1.0 && count == 0 && !active
    }
  }

  /** A check: the measured intrusion, or nothing when the pooled energy is not valid. */
  type Check = Option<real>

  function Average(beta: real, ema: real, psi: real): real {
    Product(beta, ema) + Product(1.0 - beta, psi)
  }

  /** update_predictor, statement by statement. */
  function Update(c: Config, s: State, psi: real): State {
    var ema := Average(c.beta, s.ema, psi);
    var count := if ema > s.warning then s.count + 1 else 0;
    var raised := s.active || count >= c.persistence;
    State(ema, s.warning, s.release, count, raised && !(ema < s.release))
  }

  function Step(c: Config, s: State, check: Check): State {
    if check.Some? then Update(c, s, check.value) else s.(count := 0)
  }

  function Run(c: Config, s: State, checks: seq<Check>): State {
    if checks == [] then s else Step(c, Run(c, s, checks[..|checks| - 1]), checks[|checks| - 1])
  }

  /** The average after the first t checks. */
  function EmaAfter(c: Config, s: State, checks: seq<Check>, t: nat): real
    requires t <= |checks|
  {
    Run(c, s, checks[..t]).ema
  }

  lemma RunStep(c: Config, s: State, checks: seq<Check>, t: nat)
    requires t < |checks|
    ensures Run(c, s, checks[..t + 1]) == Step(c, Run(c, s, checks[..t]), checks[t])
  {
    assert checks[..t + 1][..t] == checks[..t];
  }

  lemma {:induction false} ThresholdsStay(c: Config, s: State, checks: seq<Check>)
    ensures Run(c, s, checks).warning == s.warning && Run(c, s, checks).release == s.release
  {
    if checks != [] {
      ThresholdsStay(c, s, checks[..|checks| - 1]);
    }
  }

  // ---------------------------------------------------------------- hysteresis

  /** Check t is valid and leaves the average above the warning threshold. */
  predicate Warns(c: Config, s: State, checks: seq<Check>, t: nat)
    requires t < |checks|
  {
    checks[t].Some? && EmaAfter(c, s, checks, t + 1) > s.warning
  }

  predicate Releases(c: Config, s: State, checks: seq<Check>, t: nat)
    requires t < |checks|
  {
    checks[t].Some? && EmaAfter(c, s, checks, t + 1) < s.release
  }

  /** The last n of the first t checks all warn. */
  ghost predicate Streak(c: Config, s: State, checks: seq<Check>, t: nat, n: nat)
    requires t <= |checks|
  {
    n <= t && forall i | t - n <= i < t :: Warns(c, s, checks, i)
  }

  /** The counter is the length of the current streak of warnings. */
  lemma {:induction false} CountIsStreak(c: Config, s: State, checks: seq<Check>, t: nat, n: nat)
    requires s.Fresh() && t <= |checks|
    ensures Run(c, s, checks[..t]).count >= n <==> Streak(c, s, checks, t, n)
  {
    if n > 0 && t > 0 {
      RunStep(c, s, checks, t - 1);
      ThresholdsStay(c, s, checks[..t - 1]);
      CountIsStreak(c, s, checks, t - 1, n - 1);
      if Streak(c, s, checks, t, n) {
        assert Warns(c, s, checks, t - 1);
      }
    }
  }

  /** Some check ended a streak of persistence warnings, and no check since has released. */
  ghost predicate Raised(c: Config, s: State, checks: seq<Check>, t: nat)
    requires t <= |checks|
  {
    exists i | 0 < i <= t :: Streak(c, s, checks, i, c.persistence) && NoReleaseSince(c, s, checks, i, t)
  }

  ghost predicate NoReleaseSince(c: Config, s: State, checks: seq<Check>, from: nat, t: nat)
    requires t <= |checks|
  {
    forall i | from <= i < t :: !Releases(c, s, checks, i)
  }

  lemma RaisedStep(c: Config, s: State, checks: seq<Check>, t: nat)
    requires t < |checks|
    ensures Raised(c, s, checks, t + 1) <==>
            (Raised(c, s, checks, t) && !Releases(c, s, checks, t)) || Streak(c, s, checks, t + 1, c.persistence)
  {
  }

  /**
   After any checks a layer is active exactly if an earlier check ended persistence consecutive valid checks
   with the average above warning, and no valid check since had it below release.
   */
  lemma {:induction false} ActiveExactlyWhenRaised(c: Config, s: State, checks: seq<Check>, t: nat)
    requires c.Valid() && s.Fresh() && t <= |checks|
    ensures Run(c, s, checks[..t]).active <==> Raised(c, s, checks, t)
  {
    if t > 0 {
      ActiveExactlyWhenRaised(c, s, checks, t - 1);
      RunStep(c, s, checks, t - 1);
      ThresholdsStay(c, s, checks[..t - 1]);
      CountIsStreak(c, s, checks, t, c.persistence);
      RaisedStep(c, s, checks, t - 1);
      if Streak(c, s, checks, t, c.persistence) {
        assert Warns(c, s, checks, t - 1);
      }
    }
  }

  /** An invalid check resets the streak and changes nothing else. */
  lemma InvalidCheck(c: Config, s: State, checks: seq<Check>, t: nat)
    requires t < |checks| && checks[t].None?
    ensures var before, after := Run(c, s, checks[..t]), Run(c, s, checks[..t + 1]);
            after.count == 0 && after.ema == before.ema && after.active == before.active
  {
    RunStep(c, s, checks, t);
  }

  // ---------------------------------------------------------------- the average

  function Measured(checks: seq<Check>): seq<real> {
    if checks == [] then []
    else
      var rest, last := Measured(checks[..|checks| - 1]), checks[|checks| - 1];
      if last.Some? then rest + [last.value] else rest
  }

  function Pow(b: real, n: nat): real {
    if n == 0 then 1.0 else Product(b, Pow(b, n - 1))
  }

  function Weight(beta: real, age: nat): real {
    Product(1.0 - beta, Pow(beta, age))
  }

  /** The measurements, each weighted by its age. */
  function History(beta: real, xs: seq<real>, age: nat): real {
    if xs == [] then 0.0
    else History(beta, xs[..|xs| - 1], age + 1) + Product(Weight(beta, age), xs[|xs| - 1])
  }

  lemma {:induction false} OlderHistory(beta: real, xs: seq<real>, age: nat)
    ensures History(beta, xs, age + 1) == Product(beta, History(beta, xs, age))
  {
    if xs == [] {
      ProductOfOne(beta);
    } else {
      var x, h := xs[|xs| - 1], History(beta, xs[..|xs| - 1], age + 1);
      OlderHistory(beta, xs[..|xs| - 1], age + 1);
      ProductAssociates(beta, Weight(beta, age), x);
      ProductDistributes(beta, h, Product(Weight(beta, age), x));
    }
  }

  /** Closed form: the initial average and every measurement decay by beta per valid check. */
  lemma {:induction false} EmaClosedForm(c: Config, s: State, checks: seq<Check>)
    ensures Run(c, s, checks).ema ==
            Product(Pow(c.beta, |Measured(checks)|), s.ema) + History(c.beta, Measured(checks), 0)
  {
    if checks == [] {
      ProductOfOne(s.ema);
    } else {
      var before, last := checks[..|checks| - 1], checks[|checks| - 1];
      EmaClosedForm(c, s, before);
      if last.Some? {
        ClosedFormStep(c.beta, s.ema, Measured(before), last.value);
      }
    }
  }

  lemma HistoryAppend(beta: real, xs: seq<real>, x: real)
    ensures History(beta, xs + [x], 0) == History(beta, xs, 1) + Product(1.0 - beta, x)
  {
  }

  lemma ClosedFormStep(beta: real, e: real, xs: seq<real>, x: real)
    ensures Average(beta, Product(Pow(beta, |xs|), e) + History(beta, xs, 0), x) ==
            Product(Pow(beta, |xs| + 1), e) + History(beta, xs + [x], 0)
  {
    hide Product, History;
    var p, h := Pow(beta, |xs|), History(beta, xs, 0);
    HistoryAppend(beta, xs, x);
    OlderHistory(beta, xs, 0);
    ProductDistributes(beta, Product(p, e), h);
    ProductAssociates(beta, p, e);
  }

  predicate AllIn(xs: seq<real>, lo: real, hi: real) {
    forall x | x in xs :: lo <= x <= hi
  }

  lemma AverageInRange(beta: real, a: real, b: real, lo: real, hi: real)
    requires 0.0 <= beta <= 1.0 && lo <= a <= hi && lo <= b <= hi
    ensures lo <= Average(beta, a, b) <= hi
  {
    ProductMonotone(beta, lo, a);
    ProductMonotone(beta, a, hi);
    ProductMonotone(1.0 - beta, lo, b);
    ProductMonotone(1.0 - beta, b, hi);
  }

  /** The average never leaves a range that contains its start and all measurements. */
  lemma {:induction false} EmaInRange(c: Config, s: State, checks: seq<Check>, lo: real, hi: real)
    requires c.Valid() && lo <= s.ema <= hi && AllIn(Measured(checks), lo, hi)
    ensures lo <= Run(c, s, checks).ema <= hi
  {
    if checks != [] {
      var before, last := checks[..|checks| - 1], checks[|checks| - 1];
      assert forall x | x in Measured(before) :: x in Measured(checks);
      EmaInRange(c, s, before, lo, hi);
      if last.Some? {
        assert last.value in Measured(checks);
        AverageInRange(c.beta, Run(c, s, before).ema, last.value, lo, hi);
      }
    }
  }

  // ---------------------------------------------------------------- decay

  /** beta^n is at most 1 / (1 + n (1 - beta)). */
  lemma {:induction false} PowDecays(beta: real, n: nat)
    requires 0.0 <= beta < 1.0
    ensures 0.0 <= Pow(beta, n) <= 1.0
    ensures Product(Pow(beta, n), 1.0 + Product(n as real, 1.0 - beta)) <= 1.0
  {
    if n == 0 {
      ProductOfOne(1.0 - beta);
      ProductOfOne(1.0);
    } else {
      PowDecays(beta, n - 1);
      ProductDistributes(1.0 - beta, n as real - 1.0, 1.0);
      ProductOfOne(1.0 - beta);
      DecayStep(beta, Pow(beta, n - 1), 1.0 + Product(n as real - 1.0, 1.0 - beta));
    }
  }

  lemma DecayStep(beta: real, p: real, k: real)
    requires 0.0 <= beta < 1.0 && 0.0 <= p <= 1.0 && Product(p, k) <= 1.0
    ensures 0.0 <= Product(beta, p) <= 1.0
    ensures Product(Product(beta, p), k + (1.0 - beta)) <= 1.0
  {
    var q, h := Product(beta, p), 1.0 - beta;
    ProductNonNegative(beta, p);
    ProductMonotone(beta, p, 1.0);
    ProductOfOne(beta);
    // q (k + h) == beta (p k) + q h <= beta + h
    ProductDistributes(q, k, h);
    ProductAssociates(beta, p, k);
    ProductMonotone(beta, Product(p, k), 1.0);
    ProductMonotone(h, q, 1.0);
    ProductOfOne(h);
  }

  /** Valid checks after which a gap of at most 1 has decayed below delta. */
  function ChecksNeeded(beta: real, delta: real): nat
    requires 0.0 <= beta < 1.0 && delta > 0.0
  {
    ProductPositive(1.0 - beta, delta);
    var q := 1.0 / Product(1.0 - beta, delta);
    if q >= 0.0 then q.Floor + 1 else 0
  }

  lemma EnoughTimesGap(k: real, gap: real)
    requires gap > 0.0 && k > 1.0 / gap
    ensures Product(k, gap) > 1.0
  {
  }

  lemma QuotientPositive(gap: real)
    requires gap > 0.0
    ensures 1.0 / gap > 0.0
  {
  }

  lemma EnoughChecks(beta: real, delta: real, n: nat)
    requires 0.0 <= beta < 1.0 && delta > 0.0 && n >= ChecksNeeded(beta, delta)
    ensures Pow(beta, n) < delta
  {
    var h, p, k := 1.0 - beta, Pow(beta, n), n as real;
    ProductPositive(h, delta);
    QuotientPositive(Product(h, delta));
    EnoughTimesGap(k, Product(h, delta));
    PowDecays(beta, n);
    if p >= delta {
      // 1 >= p (1 + k h) >= delta (1 + k h) == delta + k (h delta) > 1
      ProductNonNegative(k, h);
      ProductMonotone(1.0 + Product(k, h), delta, p);
      ProductDistributes(delta, 1.0, Product(k, h));
      ProductOfOne(delta);
      ProductAssociates(k, h, delta);
      assert false;
    }
  }

  // ---------------------------------------------------------------- forced changes

  lemma {:induction false} RunConcat(c: Config, s: State, a: seq<Check>, b: seq<Check>)
    ensures Run(c, s, a + b) == Run(c, Run(c, s, a), b)
  {
    if b == [] {
      assert a + b == a;
    } else {
      assert (a + b)[..|a + b| - 1] == a + b[..|b| - 1];
      RunConcat(c, s, a, b[..|b| - 1]);
    }
  }

  /** The distance of the average above (sign 1) or below (sign -1) a level m. */
  function Gap(sign: real, ema: real, m: real): real {
    sign * (ema - m)
  }

  lemma AverageShrinksGap(sign: real, beta: real, ema: real, psi: real, m: real)
    requires (sign == 1.0 || sign == -1.0) && 0.0 <= beta < 1.0 && Gap(sign, psi, m) <= 0.0
    ensures Gap(sign, Average(beta, ema, psi), m) <= Product(beta, Gap(sign, ema, m))
  {
    ProductDistributes(beta, ema, m);
    ProductDistributes(beta, m, ema);
    if sign == 1.0 {
      ProductMonotone(1.0 - beta, psi, m);
    } else {
      ProductMonotone(1.0 - beta, m, psi);
    }
  }

  /** All measurements are at m or beyond it on the far side. */
  ghost predicate Bounded(sign: real, checks: seq<Check>, m: real) {
    forall x | x in Measured(checks) :: Gap(sign, x, m) <= 0.0
  }

  lemma BoundedPrefix(sign: real, checks: seq<Check>, m: real)
    requires checks != [] && Bounded(sign, checks, m)
    ensures Bounded(sign, checks[..|checks| - 1], m)
    ensures checks[|checks| - 1].Some? ==> Gap(sign, checks[|checks| - 1].value, m) <= 0.0
  {
  }

  lemma {:induction false} GapDecays(sign: real, c: Config, s: State, checks: seq<Check>, m: real)
    requires (sign == 1.0 || sign == -1.0) && c.Valid() && Bounded(sign, checks, m)
    ensures Gap(sign, Run(c, s, checks).ema, m) <= Product(Pow(c.beta, |Measured(checks)|), Gap(sign, s.ema, m))
  {
    if checks == [] {
      ProductOfOne(Gap(sign, s.ema, m));
    } else {
      var before, last := checks[..|checks| - 1], checks[|checks| - 1];
      GapDecays(sign, c, s, before, m);
      if last.Some? {
        var e, p := Run(c, s, before).ema, Pow(c.beta, |Measured(before)|);
        AverageShrinksGap(sign, c.beta, e, last.value, m);
        ProductMonotone(c.beta, Gap(sign, e, m), Product(p, Gap(sign, s.ema, m)));
        ProductAssociates(c.beta, p, Gap(sign, s.ema, m));
      }
    }
  }

  lemma GapCloses(sign: real, c: Config, s: State, checks: seq<Check>, m: real, delta: real)
    requires (sign == 1.0 || sign == -1.0) && c.Valid() && Bounded(sign, checks, m)
    requires Gap(sign, s.ema, m) <= 1.0 && delta > 0.0
    requires |Measured(checks)| >= ChecksNeeded(c.beta, delta)
    ensures Gap(sign, Run(c, s, checks).ema, m) < delta
  {
    var p := Pow(c.beta, |Measured(checks)|);
    GapDecays(sign, c, s, checks, m);
    EnoughChecks(c.beta, delta, |Measured(checks)|);
    PowDecays(c.beta, |Measured(checks)|);
    ProductMonotone(p, Gap(sign, s.ema, m), 1.0);
    ProductOfOne(p);
  }

  lemma NeedsOne(beta: real, delta: real)
    requires 0.0 <= beta < 1.0 && delta > 0.0
    ensures ChecksNeeded(beta, delta) >= 1
  {
  }

  /**
   Measurements that stay delta below release turn the control off after ChecksNeeded valid checks, from any
   state and however many invalid checks lie between, and keep it off.
   */
  lemma {:induction false} ForcedRelease(c: Config, s: State, checks: seq<Check>, delta: real)
    requires c.Valid() && 0.0 < delta <= s.release && s.ema <= 1.0
    requires Bounded(1.0, checks, s.release - delta)
    requires |Measured(checks)| >= ChecksNeeded(c.beta, delta)
    ensures !Run(c, s, checks).active && Run(c, s, checks).ema < s.release
  {
    NeedsOne(c.beta, delta);
    GapCloses(1.0, c, s, checks, s.release - delta, delta);
    ThresholdsStay(c, s, checks);
    if checks[|checks| - 1].None? {
      BoundedPrefix(1.0, checks, s.release - delta);
      ForcedRelease(c, s, checks[..|checks| - 1], delta);
    }
  }

  /** Measurements that stay delta above warning leave the average above warning after ChecksNeeded of them. */
  lemma AboveWarning(c: Config, s: State, checks: seq<Check>, delta: real)
    requires c.Valid() && 0.0 < delta && s.warning + delta <= 1.0 && s.ema >= 0.0
    requires Bounded(-1.0, checks, s.warning + delta)
    requires |Measured(checks)| >= ChecksNeeded(c.beta, delta)
    ensures Run(c, s, checks).ema > s.warning
  {
    GapCloses(-1.0, c, s, checks, s.warning + delta, delta);
  }

  /** A further streak of valid checks is counted, and switches the control on when it is long enough. */
  lemma {:induction false} StreakActivates(c: Config, s: State, checks: seq<Check>, streak: seq<Check>, delta: real)
    requires c.Valid() && 0.0 < delta && s.release < s.warning && s.warning + delta <= 1.0 && s.ema >= 0.0
    requires Bounded(-1.0, checks + streak, s.warning + delta)
    requires |Measured(checks)| >= ChecksNeeded(c.beta, delta)
    requires forall check | check in streak :: check.Some?
    ensures |Measured(checks + streak)| >= |Measured(checks)|
    ensures Run(c, s, checks + streak).count >= |streak|
    ensures |streak| >= c.persistence ==> Run(c, s, checks + streak).active
  {
    if streak == [] {
      assert checks + streak == checks;
    } else {
      var before, last := streak[..|streak| - 1], streak[|streak| - 1];
      assert (checks + streak)[..|checks + streak| - 1] == checks + before;
      StreakActivates(c, s, checks, before, delta);
      AboveWarning(c, s, checks + streak, delta);
      ThresholdsStay(c, s, checks + before);
      assert last.Some?;
    }
  }

  /** Once on, the control stays on while the measurements stay delta above warning. */
  lemma {:induction false} StaysActive(c: Config, s: State, checks: seq<Check>, more: seq<Check>, delta: real)
    requires c.Valid() && 0.0 < delta && s.release < s.warning && s.warning + delta <= 1.0 && s.ema >= 0.0
    requires Bounded(-1.0, checks + more, s.warning + delta)
    requires |Measured(checks)| >= ChecksNeeded(c.beta, delta) && Run(c, s, checks).active
    ensures |Measured(checks + more)| >= |Measured(checks)|
    ensures Run(c, s, checks + more).active
  {
    if more == [] {
      assert checks + more == checks;
    } else {
      var before, last := more[..|more| - 1], more[|more| - 1];
      assert (checks + more)[..|checks + more| - 1] == checks + before;
      StaysActive(c, s, checks, before, delta);
      AboveWarning(c, s, checks + more, delta);
      ThresholdsStay(c, s, checks + before);
    }
  }

  /**
   Measurements that stay delta above warning turn the control on: after ChecksNeeded valid checks and then
   persistence valid ones in a row, and it stays on from there.
   */
  lemma ForcedActivation(c: Config, s: State, checks: seq<Check>, streak: seq<Check>, more: seq<Check>, delta: real)
    requires c.Valid() && 0.0 < delta && s.release < s.warning && s.warning + delta <= 1.0 && s.ema >= 0.0
    requires Bounded(-1.0, checks + streak + more, s.warning + delta)
    requires |Measured(checks)| >= ChecksNeeded(c.beta, delta)
    requires |streak| >= c.persistence && forall check | check in streak :: check.Some?
    ensures Run(c, s, checks + streak + more).active
  {
    BoundedLonger(-1.0, checks + streak, more, s.warning + delta);
    StreakActivates(c, s, checks, streak, delta);
    StaysActive(c, s, checks + streak, more, delta);
  }

  lemma {:induction false} BoundedLonger(sign: real, checks: seq<Check>, more: seq<Check>, m: real)
    requires Bounded(sign, checks + more, m)
    ensures Bounded(sign, checks, m)
  {
    if more == [] {
      assert checks + more == checks;
    } else {
      assert (checks + more)[..|checks + more| - 1] == checks + more[..|more| - 1];
      BoundedLonger(sign, checks, more[..|more| - 1], m);
    }
  }
}
