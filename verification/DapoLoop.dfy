/** The generation loop of recipe/dapo/dapo_ray_trainer.py: batches are accumulated until there are enough prompts. */
module DapoLoop {
  import opened Wrappers
  import opened Arithmetic
  import opened GroupFilter

  /** maxGenBatches <= 0 means no limit. */
  datatype Config = Config(filterEnabled: bool, trainBatchSize: nat, n: nat, maxGenBatches: int, totalSteps: int)

  /** One optimizer update: its rows, and the generated batches from..to that they come from. */
  datatype Update = Update(rows: seq<Response>, from: nat, to: nat, globalStep: int)

  /** Every prompt of a generated batch has n responses. */
  ghost predicate Generated(c: Config, batch: seq<Group>) {
    IsBatch(batch) && c.n > 0 && EachOfSize(batch, c.n)
  }

  ghost predicate EachOfSize(groups: seq<Group>, n: nat) {
    forall i | 0 <= i < |groups| :: |groups[i].metrics| == n
  }

  /** The prompts kept of the batches from..to. */
  ghost function KeptBetween(batches: seq<seq<Group>>, from: nat, to: nat): seq<Group>
    requires from <= to <= |batches|
  {
    if from == to then [] else KeptBetween(batches, from, to - 1) + KeptGroups(batches[to - 1])
  }

  /** The prompts of a batch whose responses do not all score the same, or that have just one. */
  ghost function Interesting(batch: seq<Group>): set<Group> {
    set g | g in batch && (ScoresDiffer(g.metrics) || |g.metrics| == 1)
  }

  /** How many such prompts the batches from..to have. */
  ghost function InterestingBetween(batches: seq<seq<Group>>, from: nat, to: nat): nat
    requires from <= to <= |batches|
  {
    if from == to then 0 else InterestingBetween(batches, from, to - 1) + |Interesting(batches[to - 1])|
  }

  lemma {:induction false} KeptAreInteresting(c: Config, batches: seq<seq<Group>>, from: nat, to: nat)
    requires from <= to <= |batches| && forall b | b in batches :: Generated(c, b)
    ensures |KeptBetween(batches, from, to)| == InterestingBetween(batches, from, to)
  {
    if from < to {
      KeptAreInteresting(c, batches, from, to - 1);
      assert Generated(c, batches[to - 1]);
      KeptCount(batches[to - 1]);
    }
  }

  /**
   An update of the filtered loop: the first trainBatchSize kept prompts of its batches, all of them needed, and
   no more batches than the limit.
   */
  ghost predicate IsFilteredUpdate(c: Config, batches: seq<seq<Group>>, u: Update) {
    && u.from < u.to <= |batches|
    && |KeptBetween(batches, u.from, u.to)| >= c.trainBatchSize
    && (u.to - u.from > 1 ==> |KeptBetween(batches, u.from, u.to - 1)| < c.trainBatchSize)
    && u.rows == AllResponses(KeptBetween(batches, u.from, u.to)[..c.trainBatchSize])
    && (c.maxGenBatches > 0 ==> u.to - u.from <= c.maxGenBatches)
  }

  ghost predicate IsUpdate(c: Config, batches: seq<seq<Group>>, u: Update) {
    if c.filterEnabled then IsFilteredUpdate(c, batches, u)
    else u.from + 1 == u.to <= |batches| && u.rows == AllResponses(batches[u.from])
  }

  /** The updates use the batches without gaps, one step after the other. */
  ghost predicate IsSchedule(c: Config, batches: seq<seq<Group>>, first: int, us: seq<Update>) {
    && (forall k | 0 <= k < |us| :: IsUpdate(c, batches, us[k]) && us[k].globalStep == first + k)
    && (us != [] ==> us[0].from == 0)
    && Gapless(us)
  }

  ghost predicate Gapless(us: seq<Update>) {
    forall k | 0 < k < |us| :: us[k].from == us[k - 1].to
  }

  function NextFrom(us: seq<Update>): nat {
    if us == [] then 0 else us[|us| - 1].to
  }

  // ---------------------------------------------------------------- rows of whole prompts

  lemma {:induction false} RowsAppend(a: seq<Group>, b: seq<Group>)
    ensures AllResponses(a + b) == AllResponses(a) + AllResponses(b)
  {
    if b == [] {
      assert a + b == a;
    } else {
      var before, last := b[..|b| - 1], b[|b| - 1];
      WithoutLast(a, b);
      RowsAppend(a, before);
      Associates(AllResponses(a), AllResponses(before), last.Responses());
    }
  }

  lemma WithoutLast<T>(a: seq<T>, b: seq<T>)
    requires b != []
    ensures (a + b)[..|a + b| - 1] == a + b[..|b| - 1] && (a + b)[|a + b| - 1] == b[|b| - 1]
  {
  }

  lemma Associates<T>(a: seq<T>, b: seq<T>, c: seq<T>)
    ensures (a + b) + c == a + (b + c)
  {
  }

  lemma {:induction false} RowsCount(groups: seq<Group>, n: nat)
    requires EachOfSize(groups, n)
    ensures |AllResponses(groups)| == |groups| * n
  {
    if groups != [] {
      RowsCount(groups[..|groups| - 1], n);
      Distributes(n, |groups| - 1, 1);
    }
  }

  /** The first k * n rows are the first k whole prompts. */
  lemma FirstPrompts(groups: seq<Group>, n: nat, k: nat)
    requires EachOfSize(groups, n) && k <= |groups|
    ensures 0 <= k * n <= |AllResponses(groups)| && AllResponses(groups)[..k * n] == AllResponses(groups[..k])
  {
    assert groups == groups[..k] + groups[k..];
    RowsAppend(groups[..k], groups[k..]);
    RowsCount(groups[..k], n);
  }

  lemma {:induction false} KeptOfSize(groups: seq<Group>, n: nat)
    requires EachOfSize(groups, n)
    ensures EachOfSize(KeptGroups(groups), n)
    ensures forall i | 0 <= i < |KeptGroups(groups)| :: IsKept(KeptGroups(groups)[i].metrics)
  {
    if groups != [] {
      KeptOfSize(groups[..|groups| - 1], n);
    }
  }

  lemma {:induction false} KeptBetweenOfSize(c: Config, batches: seq<seq<Group>>, from: nat, to: nat)
    requires from <= to <= |batches| && forall b | b in batches :: Generated(c, b)
    ensures EachOfSize(KeptBetween(batches, from, to), c.n)
    ensures forall i | 0 <= i < |KeptBetween(batches, from, to)| :: IsKept(KeptBetween(batches, from, to)[i].metrics)
  {
    if from < to {
      KeptBetweenOfSize(c, batches, from, to - 1);
      assert Generated(c, batches[to - 1]);
      KeptOfSize(batches[to - 1], c.n);
    }
  }

  /** What an update trains on: trainBatchSize whole prompts of n responses, each with a spread or alone. */
  lemma UpdateIsWholePrompts(c: Config, batches: seq<seq<Group>>, u: Update) returns (prompts: seq<Group>)
    requires c.filterEnabled && IsUpdate(c, batches, u) && forall b | b in batches :: Generated(c, b)
    ensures |prompts| == c.trainBatchSize && EachOfSize(prompts, c.n) && u.rows == AllResponses(prompts)
    ensures |u.rows| == c.trainBatchSize * c.n
    ensures forall i | 0 <= i < |prompts| :: ScoresDiffer(prompts[i].metrics) || c.n == 1
  {
    KeptBetweenOfSize(c, batches, u.from, u.to);
    prompts := KeptBetween(batches, u.from, u.to)[..c.trainBatchSize];
    RowsCount(prompts, c.n);
    forall i | 0 <= i < |prompts|
      ensures ScoresDiffer(prompts[i].metrics) || c.n == 1
    {
      SpreadMeansDifferent(prompts[i].metrics);
      assert IsKept(KeptBetween(batches, u.from, u.to)[i].metrics);
    }
  }

  // ---------------------------------------------------------------- the loop

  /** The accumulated rows are the prompts kept since the last update, which are not enough yet. */
  ghost predicate Accumulated(c: Config, batches: seq<seq<Group>>, from: nat, at: nat, batch: Option<seq<Response>>,
                              prompts: nat)
  {
    && from <= at <= |batches| && prompts == |KeptBetween(batches, from, at)|
    && (batch.None? <==> from == at)
    && (batch.Some? ==>
          && c.filterEnabled && batch.value == AllResponses(KeptBetween(batches, from, at))
          && prompts < c.trainBatchSize && (c.maxGenBatches > 0 ==> at - from < c.maxGenBatches))
  }

  datatype Outcome = Exhausted | LastStep | GeneratedTooMany

  /** Enough batches in a row have been generated, and still there are too few prompts. */
  ghost predicate TooMany(c: Config, batches: seq<seq<Group>>, from: nat) {
    && c.filterEnabled && c.maxGenBatches > 0 && from + c.maxGenBatches <= |batches|
    && InterestingBetween(batches, from, from + c.maxGenBatches) < c.trainBatchSize
  }

  predicate ReachedLastStep(c: Config, us: seq<Update>) {
    us != [] && us[|us| - 1].globalStep >= c.totalSteps
  }

  /** Filter one generated batch and append it to the accumulated ones. */
  method Accumulate(c: Config, batches: seq<seq<Group>>, from: nat, at: nat, batch: Option<seq<Response>>, prompts: nat)
    returns (more: seq<Response>, count: nat)
    requires from <= at < |batches| && Generated(c, batches[at])
    requires prompts == |KeptBetween(batches, from, at)| && (batch.None? ==> from == at)
    requires batch.Some? ==> batch.value == AllResponses(KeptBetween(batches, from, at))
    ensures more == AllResponses(KeptBetween(batches, from, at + 1))
    ensures count == |KeptBetween(batches, from, at + 1)|
  {
    var kept, found := FilterGroups(AllResponses(batches[at]));
    FilteringKeepsGroups(batches[at]);
    RowsAppend(KeptBetween(batches, from, at), KeptGroups(batches[at]));
    more := if batch.None? then kept else batch.value + kept;
    count := prompts + found;
  }

  /**
   fit, from a given global step: the updates it makes, and how it ends.
   */
  method Fit(c: Config, batches: seq<seq<Group>>, start: int) returns (updates: seq<Update>, outcome: Outcome)
    requires forall b | b in batches :: Generated(c, b)
    ensures IsSchedule(c, batches, start, updates)
    ensures forall k | 0 <= k < |updates| - 1 :: updates[k].globalStep < c.totalSteps
    ensures outcome == LastStep <==> ReachedLastStep(c, updates)
    ensures outcome == GeneratedTooMany <==> !ReachedLastStep(c, updates) && TooMany(c, batches, NextFrom(updates))
    ensures outcome == Exhausted && !c.filterEnabled ==> NextFrom(updates) == |batches|
    ensures outcome == Exhausted && c.filterEnabled ==>
              NextFrom(updates) <= |batches| &&
              (NextFrom(updates) < |batches| ==> InterestingBetween(batches, NextFrom(updates), |batches|) < c.trainBatchSize)
  {
    hide AllResponses, KeptBetween;
    NoneBetween(batches, 0);
    updates := [];
    var globalSteps, batch := start, None;
    var numPromptInBatch: nat, numGenBatches: nat := 0, 0;
    for at := 0 to |batches|
      invariant IsSchedule(c, batches, start, updates) && globalSteps == start + |updates|
      invariant forall k | 0 <= k < |updates| :: updates[k].globalStep < c.totalSteps
      invariant NextFrom(updates) <= at && numGenBatches == at - NextFrom(updates)
      invariant Accumulated(c, batches, NextFrom(updates), at, batch, numPromptInBatch)
    {
      numGenBatches := numGenBatches + 1;
      var isLastStep := globalSteps >= c.totalSteps;
      assert Generated(c, batches[at]);
      var from, rows := at + 1 - numGenBatches, AllResponses(batches[at]);
      if c.filterEnabled {
        rows, numPromptInBatch := Accumulate(c, batches, from, at, batch, numPromptInBatch);
        if numPromptInBatch < c.trainBatchSize {
          if c.maxGenBatches <= 0 || numGenBatches < c.maxGenBatches {
            batch := Some(rows);
            continue;
          }
          KeptAreInteresting(c, batches, from, at + 1);
          return updates, GeneratedTooMany;
        }
        KeptBetweenOfSize(c, batches, from, at + 1);
        FirstPrompts(KeptBetween(batches, from, at + 1), c.n, c.trainBatchSize);
        rows := rows[..c.trainBatchSize * c.n];
      }
      var u := Update(rows, from, at + 1, globalSteps);
      NextUpdate(c, batches, start, updates, u);
      updates := updates + [u];
      batch, numPromptInBatch, numGenBatches := None, 0, 0;
      NoneBetween(batches, at + 1);
      if isLastStep {
        return updates, LastStep;
      }
      globalSteps := globalSteps + 1;
    }
    KeptAreInteresting(c, batches, NextFrom(updates), |batches|);
    return updates, Exhausted;
  }

  lemma NoneBetween(batches: seq<seq<Group>>, i: nat)
    requires i <= |batches|
    ensures KeptBetween(batches, i, i) == []
  {
  }

  lemma NextUpdate(c: Config, batches: seq<seq<Group>>, first: int, us: seq<Update>, u: Update)
    requires IsSchedule(c, batches, first, us) && IsUpdate(c, batches, u)
    requires u.from == NextFrom(us) && u.globalStep == first + |us|
    ensures IsSchedule(c, batches, first, us + [u])
  {
  }
}
