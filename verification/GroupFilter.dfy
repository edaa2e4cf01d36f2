/** Dynamic sampling of recipe/dapo/dapo_ray_trainer.py: prompts whose responses all score the same are dropped. */
module GroupFilter {
  import opened Reals

  type Uid = nat

  /** One response: the uid of its prompt and the metric it is judged by. */
  datatype Response = Response(uid: Uid, metric: real)

  /** A prompt with the metrics of its responses. */
  datatype Group = Group(uid: Uid, metrics: seq<real>) {
    function Responses(): seq<Response> {
      seq(|metrics|, i requires 0 <= i < |metrics| => Response(uid, metrics[i]))
    }
  }

  // ---------------------------------------------------------------- spread of a group

  function SumReal(xs: seq<real>): real {
    if xs == [] then 0.0 else xs[0] + SumReal(xs[1..])
  }

  function Mean(xs: seq<real>): real
    requires xs != []
  {
    SumReal(xs) / |xs| as real
  }

  /** Sum of the squared distances from m; the standard deviation is positive exactly if this is, at the mean. */
  function SquaredDeviations(xs: seq<real>, m: real): real {
    if xs == [] then 0.0 else Product(xs[0] - m, xs[0] - m) + SquaredDeviations(xs[1..], m)
  }

  predicate HasSpread(xs: seq<real>) {
    xs != [] && SquaredDeviations(xs, Mean(xs)) > 0.0
  }

  /** Two responses score differently. */
  ghost predicate ScoresDiffer(xs: seq<real>) {
    exists x, y | x in xs && y in xs :: x != y
  }

  lemma {:induction false} NoDeviation(xs: seq<real>, m: real)
    ensures SquaredDeviations(xs, m) >= 0.0
    ensures SquaredDeviations(xs, m) == 0.0 <==> forall x | x in xs :: x == m
  {
    if xs != [] {
      SquareNonNegative(xs[0] - m);
      NoDeviation(xs[1..], m);
      assert forall x | x in xs :: x == xs[0] || x in xs[1..];
      assert xs[0] in xs;
      assert forall x | x in xs[1..] :: x in xs;
    }
  }

  lemma {:induction false} SumOfSame(xs: seq<real>, c: real)
    requires forall x | x in xs :: x == c
    ensures SumReal(xs) == Product(|xs| as real, c)
  {
    if xs == [] {
      ProductOfOne(c);
    } else {
      assert forall x | x in xs[1..] :: x in xs;
      SumOfSame(xs[1..], c);
      assert xs[0] in xs;
      ProductDistributes(c, |xs| as real - 1.0, 1.0);
      ProductOfOne(c);
      assert |xs[1..]| as real == |xs| as real - 1.0;
    }
  }

  lemma MeanOfSame(xs: seq<real>, c: real)
    requires xs != [] && forall x | x in xs :: x == c
    ensures Mean(xs) == c
  {
    SumOfSame(xs, c);
    var n := |xs| as real;
    ProductOfQuotient(SumReal(xs), n);
    ProductCommutes(n, c);
    ProductDistributes(n, Mean(xs), c);
    if Mean(xs) > c {
      ProductPositive(Mean(xs) - c, n);
      assert false;
    } else if Mean(xs) < c {
      ProductPositive(c - Mean(xs), n);
      ProductDistributes(n, c, Mean(xs));
      assert false;
    }
  }

  /** The standard deviation is positive exactly when two responses score differently. */
  lemma SpreadMeansDifferent(xs: seq<real>)
    ensures HasSpread(xs) <==> ScoresDiffer(xs)
  {
    if xs != [] {
      NoDeviation(xs, Mean(xs));
      if forall x | x in xs :: x == xs[0] {
        MeanOfSame(xs, xs[0]);
        assert forall x, y | x in xs && y in xs :: x == y;
      } else {
        var x :| x in xs && x != xs[0];
        assert xs[0] in xs;
      }
    }
  }

  // ---------------------------------------------------------------- filtering

  /** Prompts are kept for their spread, or because there is just one response. */
  predicate IsKept(metrics: seq<real>) {
    HasSpread(metrics) || |metrics| == 1
  }

  lemma KeptMeansDifferent(metrics: seq<real>)
    ensures IsKept(metrics) <==> ScoresDiffer(metrics) || |metrics| == 1
  {
    SpreadMeansDifferent(metrics);
  }

  function KeptGroups(groups: seq<Group>): seq<Group> {
    if groups == [] then []
    else
      var rest := KeptGroups(groups[..|groups| - 1]);
      if IsKept(groups[|groups| - 1].metrics) then rest + [groups[|groups| - 1]] else rest
  }

  /** A prompt stays exactly if two of its responses score differently, or it has just one. */
  lemma {:induction false} KeptExactlyWhen(groups: seq<Group>, g: Group)
    ensures g in KeptGroups(groups) <==>
            g in groups && (ScoresDiffer(g.metrics) || |g.metrics| == 1)
  {
    if groups != [] {
      var before, last := groups[..|groups| - 1], groups[|groups| - 1];
      KeptExactlyWhen(before, g);
      KeptMeansDifferent(last.metrics);
      hide IsKept;
      assert groups == before + [last];
    }
  }

  /** How many prompts of a batch that is. */
  lemma KeptCount(groups: seq<Group>)
    requires IsBatch(groups)
    ensures |KeptGroups(groups)| ==
            |set g | g in groups && (ScoresDiffer(g.metrics) || |g.metrics| == 1)|
  {
    var kept := set g | g in groups && (ScoresDiffer(g.metrics) || |g.metrics| == 1);
    forall g
      ensures g in kept <==> g in KeptGroups(groups)
    {
      KeptExactlyWhen(groups, g);
    }
    KeptIsBatch(groups);
    DistinctCount(KeptGroups(groups));
    assert kept == set g | g in KeptGroups(groups);
  }

  lemma {:induction false} DistinctCount(groups: seq<Group>)
    requires IsBatch(groups)
    ensures |set g | g in groups| == |groups|
  {
    if groups != [] {
      var before, last := groups[..|groups| - 1], groups[|groups| - 1];
      DistinctCount(before);
      assert last !in before;
      assert groups == before + [last];
      assert (set g | g in groups) == (set g | g in before) + {last};
    }
  }

  /** The rows of a batch: the responses of every prompt, prompt after prompt. */
  function AllResponses(groups: seq<Group>): seq<Response> {
    if groups == [] then []
    else AllResponses(groups[..|groups| - 1]) + groups[|groups| - 1].Responses()
  }

  /** Every prompt has its own uid and at least one response. */
  ghost predicate IsBatch(groups: seq<Group>) {
    && (forall i, j | 0 <= i < j < |groups| :: groups[i].uid != groups[j].uid)
    && forall i | 0 <= i < |groups| :: groups[i].metrics != []
  }

  /** The metrics of the rows with a uid, in order. */
  function MetricsOf(rows: seq<Response>, uid: Uid): seq<real> {
    if rows == [] then []
    else
      var rest, last := MetricsOf(rows[..|rows| - 1], uid), rows[|rows| - 1];
      if last.uid == uid then rest + [last.metric] else rest
  }

  function RowsWith(rows: seq<Response>, uids: set<Uid>): seq<Response> {
    if rows == [] then []
    else
      var rest, last := RowsWith(rows[..|rows| - 1], uids), rows[|rows| - 1];
      if last.uid in uids then rest + [last] else rest
  }

  /** Collect the metrics by uid. */
  method CollectMetrics(rows: seq<Response>) returns (values: map<Uid, seq<real>>)
    ensures forall uid :: MetricsOf(rows, uid) == if uid in values then values[uid] else []
    ensures forall uid | uid in values :: values[uid] != []
  {
    values := map[];
    for i := 0 to |rows|
      invariant forall uid :: MetricsOf(rows[..i], uid) == if uid in values then values[uid] else []
      invariant forall uid | uid in values :: values[uid] != []
    {
      var row := rows[i];
      assert rows[..i + 1][..i] == rows[..i];
      values := values[row.uid := (if row.uid in values then values[row.uid] else []) + [row.metric]];
    }
    assert rows[..|rows|] == rows;
  }

  /** The uids that are kept, judged by all rows of the batch. */
  ghost function KeptUidsOf(rows: seq<Response>): set<Uid> {
    set row | row in rows && IsKept(MetricsOf(rows, row.uid)) :: row.uid
  }

  lemma {:induction false} MetricsAre(rows: seq<Response>, uid: Uid, x: real)
    ensures x in MetricsOf(rows, uid) <==> exists row | row in rows && row.uid == uid :: row.metric == x
  {
    if rows != [] {
      MetricsAre(rows[..|rows| - 1], uid, x);
      assert rows == rows[..|rows| - 1] + [rows[|rows| - 1]];
    }
  }

  /** No two of the rows have the uid. */
  ghost predicate AtMostOne(rows: seq<Response>, uid: Uid) {
    forall i, j | 0 <= i < j < |rows| :: !(rows[i].uid == uid && rows[j].uid == uid)
  }

  lemma {:induction false} NoMetrics(rows: seq<Response>, uid: Uid)
    ensures MetricsOf(rows, uid) == [] <==> forall row | row in rows :: row.uid != uid
  {
    if rows != [] {
      NoMetrics(rows[..|rows| - 1], uid);
      assert rows == rows[..|rows| - 1] + [rows[|rows| - 1]];
    }
  }

  lemma AtMostOneStep(before: seq<Response>, last: Response, uid: Uid)
    ensures AtMostOne(before + [last], uid) <==>
            AtMostOne(before, uid) && (last.uid == uid ==> forall i | 0 <= i < |before| :: before[i].uid != uid)
  {
    var rows := before + [last];
    assert forall i | 0 <= i < |before| :: rows[i] == before[i];
    if AtMostOne(rows, uid) {
      forall i | 0 <= i < |before| && last.uid == uid
        ensures before[i].uid != uid
      {
        assert rows[|before|] == last;
      }
    }
  }

  lemma {:induction false} FewMetrics(rows: seq<Response>, uid: Uid)
    ensures |MetricsOf(rows, uid)| <= 1 <==> AtMostOne(rows, uid)
  {
    if rows != [] {
      hide AtMostOne;
      var before, last := rows[..|rows| - 1], rows[|rows| - 1];
      FewMetrics(before, uid);
      NoMetrics(before, uid);
      AtMostOneStep(before, last, uid);
      assert rows == before + [last];
      assert (forall row | row in before :: row.uid != uid) <==> forall i | 0 <= i < |before| :: before[i].uid != uid;
    }
  }

  /** Two rows with the uid score differently, or there is just one. */
  ghost predicate IsInteresting(rows: seq<Response>, uid: Uid) {
    || (exists a, b | a in rows && b in rows && a.uid == uid && b.uid == uid :: a.metric != b.metric)
    || AtMostOne(rows, uid)
  }

  lemma InterestingIsKept(rows: seq<Response>, row: Response)
    requires row in rows
    ensures IsKept(MetricsOf(rows, row.uid)) <==> IsInteresting(rows, row.uid)
  {
    var metrics := MetricsOf(rows, row.uid);
    KeptMeansDifferent(metrics);
    FewMetrics(rows, row.uid);
    NoMetrics(rows, row.uid);
    forall x
      ensures x in metrics <==> exists a | a in rows && a.uid == row.uid :: a.metric == x
    {
      MetricsAre(rows, row.uid, x);
    }
    hide IsKept, MetricsOf, AtMostOne;
    if x, y :| x in metrics && y in metrics && x != y {
      var a :| a in rows && a.uid == row.uid && a.metric == x;
      var b :| b in rows && b.uid == row.uid && b.metric == y;
    }
    if a, b :| a in rows && b in rows && a.uid == row.uid && b.uid == row.uid && a.metric != b.metric {
      assert a.metric in metrics && b.metric in metrics;
    }
  }

  lemma {:induction false} RowsWithCount(rows: seq<Response>, uids: set<Uid>, row: Response)
    ensures multiset(RowsWith(rows, uids))[row] == if row.uid in uids then multiset(rows)[row] else 0
  {
    if rows != [] {
      RowsWithCount(rows[..|rows| - 1], uids, row);
      assert rows == rows[..|rows| - 1] + [rows[|rows| - 1]];
    }
  }

  lemma {:induction false} MetricsBelong(rows: seq<Response>, uid: Uid)
    ensures MetricsOf(rows, uid) != [] <==> exists row | row in rows :: row.uid == uid
  {
    if rows != [] {
      MetricsBelong(rows[..|rows| - 1], uid);
    }
  }

  /** What filtering rows means: which rows stay, each as often as before, and how many uids they have. */
  lemma FilteredRows(rows: seq<Response>)
    ensures forall row :: multiset(RowsWith(rows, KeptUidsOf(rows)))[row] ==
                          if row in rows && IsInteresting(rows, row.uid) then multiset(rows)[row] else 0
    ensures KeptUidsOf(rows) == set row | row in rows && IsInteresting(rows, row.uid) :: row.uid
  {
    forall row | row in rows
      ensures IsKept(MetricsOf(rows, row.uid)) <==> IsInteresting(rows, row.uid)
    {
      InterestingIsKept(rows, row);
    }
    hide IsKept, MetricsOf, IsInteresting;
    forall row
      ensures multiset(RowsWith(rows, KeptUidsOf(rows)))[row] ==
              if row in rows && IsInteresting(rows, row.uid) then multiset(rows)[row] else 0
    {
      RowsWithCount(rows, KeptUidsOf(rows), row);
    }
  }

  /** The rows of the kept prompts in order, and how many prompts that is. */
  method FilterGroups(rows: seq<Response>) returns (kept: seq<Response>, prompts: nat)
    ensures forall row :: multiset(kept)[row] ==
                          if row in rows && IsInteresting(rows, row.uid) then multiset(rows)[row] else 0
    ensures prompts == |set row | row in rows && IsInteresting(rows, row.uid) :: row.uid|
    ensures prompts == |KeptUidsOf(rows)| && kept == RowsWith(rows, KeptUidsOf(rows))
  {
    var values := CollectMetrics(rows);
    var keptUids := set uid | uid in values && IsKept(values[uid]);
    prompts := |keptUids|;
    kept := [];
    for i := 0 to |rows|
      invariant kept == RowsWith(rows[..i], keptUids)
    {
      assert rows[..i + 1][..i] == rows[..i];
      if rows[i].uid in keptUids {
        kept := kept + [rows[i]];
      }
    }
    assert rows[..|rows|] == rows;
    forall uid
      ensures uid in keptUids <==> uid in KeptUidsOf(rows)
    {
      MetricsBelong(rows, uid);
    }
    assert keptUids == KeptUidsOf(rows);
    FilteredRows(rows);
  }

  // ---------------------------------------------------------------- rows and groups

  lemma {:induction false} MetricsAppend(a: seq<Response>, b: seq<Response>, uid: Uid)
    ensures MetricsOf(a + b, uid) == MetricsOf(a, uid) + MetricsOf(b, uid)
  {
    if b == [] {
      assert a + b == a;
    } else {
      assert (a + b)[..|a + b| - 1] == a + b[..|b| - 1];
      MetricsAppend(a, b[..|b| - 1], uid);
    }
  }

  lemma {:induction false} RowsWithAppend(a: seq<Response>, b: seq<Response>, uids: set<Uid>)
    ensures RowsWith(a + b, uids) == RowsWith(a, uids) + RowsWith(b, uids)
  {
    if b == [] {
      assert a + b == a;
    } else {
      assert (a + b)[..|a + b| - 1] == a + b[..|b| - 1];
      RowsWithAppend(a, b[..|b| - 1], uids);
    }
  }

  lemma {:induction false} OneGroup(uid: Uid, metrics: seq<real>, other: Uid, uids: set<Uid>)
    ensures var rows := Group(uid, metrics).Responses();
            && MetricsOf(rows, other) == (if other == uid then metrics else [])
            && RowsWith(rows, uids) == (if uid in uids then rows else [])
  {
    if metrics != [] {
      var n := |metrics| - 1;
      assert Group(uid, metrics).Responses()[..n] == Group(uid, metrics[..n]).Responses();
      OneGroup(uid, metrics[..n], other, uids);
    }
  }

  lemma MetricsOfMore(before: seq<Group>, last: Group, uid: Uid)
    ensures MetricsOf(AllResponses(before + [last]), uid) ==
            MetricsOf(AllResponses(before), uid) + (if last.uid == uid then last.metrics else [])
  {
    assert (before + [last])[..|before|] == before;
    MetricsAppend(AllResponses(before), last.Responses(), uid);
    OneGroup(last.uid, last.metrics, uid, {});
  }

  /** The metrics of a uid are those of its prompt. */
  lemma {:induction false} MetricsOfGroups(groups: seq<Group>, uid: Uid)
    requires IsBatch(groups)
    ensures forall i | 0 <= i < |groups| && groups[i].uid == uid :: MetricsOf(AllResponses(groups), uid) == groups[i].metrics
    ensures (forall i | 0 <= i < |groups| :: groups[i].uid != uid) ==> MetricsOf(AllResponses(groups), uid) == []
  {
    if groups != [] {
      hide MetricsOf, AllResponses;
      var before, last := groups[..|groups| - 1], groups[|groups| - 1];
      MetricsOfGroups(before, uid);
      MetricsOfMore(before, last, uid);
      assert groups == before + [last];
      if last.uid == uid {
        assert forall i | 0 <= i < |before| :: before[i].uid != uid;
      }
    }
  }

  function Uids(groups: seq<Group>): set<Uid> {
    if groups == [] then {} else Uids(groups[..|groups| - 1]) + {groups[|groups| - 1].uid}
  }

  lemma {:induction false} UidsAre(groups: seq<Group>, uid: Uid)
    ensures uid in Uids(groups) <==> exists i :: 0 <= i < |groups| && groups[i].uid == uid
  {
    if groups != [] {
      UidsAre(groups[..|groups| - 1], uid);
    }
  }

  lemma {:induction false} UidsCount(groups: seq<Group>)
    requires IsBatch(groups)
    ensures |Uids(groups)| == |groups|
  {
    if groups != [] {
      UidsCount(groups[..|groups| - 1]);
      UidsAre(groups[..|groups| - 1], groups[|groups| - 1].uid);
    }
  }

  lemma {:induction false} KeptUids(groups: seq<Group>, uid: Uid)
    ensures uid in Uids(KeptGroups(groups)) <==> exists i :: 0 <= i < |groups| && groups[i].uid == uid && IsKept(groups[i].metrics)
  {
    if groups != [] {
      KeptUids(groups[..|groups| - 1], uid);
    }
  }

  lemma {:induction false} KeptIsBatch(groups: seq<Group>)
    requires IsBatch(groups)
    ensures IsBatch(KeptGroups(groups))
  {
    if groups != [] {
      var before, last := groups[..|groups| - 1], groups[|groups| - 1];
      KeptIsBatch(before);
      KeptUids(before, last.uid);
      assert forall i | 0 <= i < |before| :: before[i].uid != last.uid;
      if IsKept(last.metrics) {
        forall i | 0 <= i < |KeptGroups(before)|
          ensures KeptGroups(before)[i].uid != last.uid
        {
          UidsAre(KeptGroups(before), last.uid);
        }
      }
    }
  }

  lemma {:induction false} RowsOfKept(groups: seq<Group>, uids: set<Uid>)
    requires forall i | 0 <= i < |groups| :: groups[i].uid in uids <==> IsKept(groups[i].metrics)
    ensures RowsWith(AllResponses(groups), uids) == AllResponses(KeptGroups(groups))
  {
    if groups != [] {
      var before, last := groups[..|groups| - 1], groups[|groups| - 1];
      RowsOfKept(before, uids);
      RowsWithAppend(AllResponses(before), last.Responses(), uids);
      OneGroup(last.uid, last.metrics, last.uid, uids);
      if IsKept(last.metrics) {
        assert (KeptGroups(before) + [last])[..|KeptGroups(before)|] == KeptGroups(before);
      }
    }
  }

  /** Filtering the rows of a batch keeps exactly the whole prompts that IsKept, in order, and counts them. */
  lemma FilteringKeepsGroups(groups: seq<Group>)
    requires IsBatch(groups)
    ensures var rows := AllResponses(groups);
            && RowsWith(rows, KeptUidsOf(rows)) == AllResponses(KeptGroups(groups))
            && |KeptUidsOf(rows)| == |KeptGroups(groups)|
  {
    var rows := AllResponses(groups);
    var uids := KeptUidsOf(rows);
    forall uid
      ensures uid in uids <==> uid in Uids(KeptGroups(groups))
      ensures forall i | 0 <= i < |groups| && groups[i].uid == uid :: uid in uids <==> IsKept(groups[i].metrics)
    {
      MetricsBelong(rows, uid);
      MetricsOfGroups(groups, uid);
      KeptUids(groups, uid);
    }
    RowsOfKept(groups, uids);
    assert uids == Uids(KeptGroups(groups));
    KeptIsBatch(groups);
    UidsCount(KeptGroups(groups));
  }
}
