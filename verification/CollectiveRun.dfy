/**
 Any number of ranks running the controller together: every all-reduce replies with the sum of what the ranks send,
 every broadcast with what the first rank sends, and no rank ever waits for good.
 */
module CollectiveRun {
  import opened Wrappers
  import opened Subspace
  import opened AlphaStabler
  import opened RankAgreement
  import opened Causality

  /** One rank in one step. */
  datatype Member = Member(rank: Rank, state: State, given: Option<Observation>)

  // ---------------------------------------------------------------- what a collective replies

  ghost function PlusMatrix(a: seq<Vector>, b: seq<Vector>): seq<Vector>
    requires SameSize(a, b)
  {
    seq(|a|, i requires 0 <= i < |a| => Plus(a[i], b[i]))
  }

  /** The sum of two tensors of one shape. */
  ghost function AddTensors(t: Tensor, u: Tensor): (r: Tensor)
    ensures SameKind(t, r)
  {
    if !SameShape(t, u) then t
    else
      match t
      case Count(n) => Count(n + u.n)
      case Sums(v) => Sums(Plus(v, u.v))
      case Second(m) => Second(PlusMatrix(m, u.m))
      case Energies(e) => Energies(e.Add(u.e))
      case Columns(_) => t
  }

  ghost function Total(sent: seq<Call>): (r: Tensor)
    requires sent != []
    ensures SameKind(sent[0].t, r)
  {
    if |sent| == 1 then sent[0].t else AddTensors(sent[0].t, Total(sent[1..]))
  }

  /** What all ranks receive when each has sent its tensor. */
  ghost function Reply(sent: seq<Call>): (r: Tensor)
    requires sent != []
    ensures SameKind(sent[0].t, r)
  {
    if sent[0].AllReduce? then Total(sent) else sent[0].t
  }

  // ---------------------------------------------------------------- one step of all ranks

  function StepOf(c: Config, layers: seq<Layer>, m: Member, inbox: seq<Tensor>): Exec<State>
    requires c.Valid()
  {
    ObserveUpdate(c, m.rank, layers, m.state, m.given, inbox)
  }

  /** The ranks agree, and all have observations of one width, or none has. */
  ghost predicate Ready(layers: seq<Layer>, world: seq<Member>, width: nat) {
    && (forall i | 0 <= i < |world| ::
          HasWidth(layers, width, world[i].given) && MomentsHaveWidth(world[i].state.moments, width))
    && (forall i, j | 0 <= i < |world| && 0 <= j < |world| :: InAgreement(world[i], world[j]))
  }

  ghost predicate InAgreement(a: Member, b: Member) {
    Compatible(a.rank, b.rank) && Agree(a.state, b.state) && (a.given.Some? <==> b.given.Some?)
  }

  /** What the ranks send to the k-th collective. */
  ghost function SentTo(c: Config, layers: seq<Layer>, world: seq<Member>, inbox: seq<Tensor>, k: nat): (r: seq<Call>)
    requires c.Valid() && forall i | 0 <= i < |world| :: k < |StepOf(c, layers, world[i], inbox).calls|
    ensures |r| == |world|
  {
    seq(|world|, i requires 0 <= i < |world| => StepOf(c, layers, world[i], inbox).calls[k])
  }

  /** All ranks have called the k-th collective, and its reply is what they sent makes it. */
  ghost predicate ReplyAt(c: Config, layers: seq<Layer>, world: seq<Member>, inbox: seq<Tensor>, k: nat)
    requires c.Valid() && world != [] && k < |inbox|
  {
    && (forall i | 0 <= i < |world| :: k < |StepOf(c, layers, world[i], inbox).calls|)
    && inbox[k] == Reply(SentTo(c, layers, world, inbox, k))
  }

  /** The replies are those of the collectives that the ranks call. */
  ghost predicate Delivered(c: Config, layers: seq<Layer>, world: seq<Member>, inbox: seq<Tensor>)
    requires c.Valid() && world != []
  {
    forall k | 0 <= k < |inbox| :: ReplyAt(c, layers, world, inbox, k)
  }

  predicate Waits<A>(e: Exec<A>) {
    e.Stopped? && e.why.Waiting?
  }

  lemma MembersInStep(c: Config, layers: seq<Layer>, world: seq<Member>, inbox: seq<Tensor>, width: nat, i: nat, j: nat)
    requires c.Valid() && world != [] && Ready(layers, world, width) && i < |world| && j < |world|
    ensures StatesInStep(StepOf(c, layers, world[i], inbox), StepOf(c, layers, world[j], inbox))
  {
    assert InAgreement(world[i], world[j]);
    hide ObserveUpdate, StatesInStep, Agree, Compatible, HasWidth, MomentsHaveWidth;
    StepsAgree(c, world[i].rank, world[j].rank, layers, world[i].state, world[j].state, world[i].given, world[j].given,
               inbox, width);
  }

  lemma MemberSteady(c: Config, layers: seq<Layer>, m: Member, inbox: seq<Tensor>, more: seq<Tensor>)
    requires c.Valid()
    ensures Steady(StepOf(c, layers, m, inbox), StepOf(c, layers, m, inbox + more), inbox, more,
                   BoundOf(c, layers, m.state, m.given))
  {
    StepSteady(c, m.rank, layers, m.state, m.given, inbox, more);
  }

  lemma SameKindTwice(t: Tensor, u: Tensor, v: Tensor)
    requires SameKind(t, u) && SameKind(t, v)
    ensures SameKind(u, v)
  {
  }

  /** A rank that waits has sent to the collective after the last reply. */
  lemma WaitsForNext(c: Config, layers: seq<Layer>, world: seq<Member>, inbox: seq<Tensor>, width: nat, i: nat)
    requires c.Valid() && world != [] && Ready(layers, world, width) && Delivered(c, layers, world, inbox) && i < |world|
    requires Waits(StepOf(c, layers, world[i], inbox))
    ensures |StepOf(c, layers, world[i], inbox).calls| == |inbox| + 1
  {
    hide StepOf, Ready, BoundOf;
    MemberSteady(c, layers, world[i], inbox, []);
    MembersInStep(c, layers, world, inbox, width, 0, i);
    var mine, first := StepOf(c, layers, world[i], inbox).calls, StepOf(c, layers, world[0], inbox).calls;
    var last := |mine| - 1;
    if last < |inbox| {
      assert ReplyAt(c, layers, world, inbox, last);
      assert SameCall(first[last], mine[last]);
      SameKindTwice(first[last].t, mine[last].t, inbox[last]);
    }
  }

  lemma OthersWait(c: Config, layers: seq<Layer>, world: seq<Member>, inbox: seq<Tensor>, width: nat, i: nat, j: nat)
    requires c.Valid() && world != [] && Ready(layers, world, width) && i < |world| && j < |world|
    ensures Waits(StepOf(c, layers, world[i], inbox)) <==> Waits(StepOf(c, layers, world[j], inbox))
    ensures StepOf(c, layers, world[i], inbox).Done? <==> StepOf(c, layers, world[j], inbox).Done?
  {
    hide StepOf, Ready;
    MembersInStep(c, layers, world, inbox, width, i, j);
  }

  lemma CallsStay(c: Config, layers: seq<Layer>, world: seq<Member>, inbox: seq<Tensor>, more: seq<Tensor>, i: nat, k: nat)
    requires c.Valid() && i < |world| && k < |StepOf(c, layers, world[i], inbox).calls|
    ensures k < |StepOf(c, layers, world[i], inbox + more).calls|
    ensures StepOf(c, layers, world[i], inbox + more).calls[k] == StepOf(c, layers, world[i], inbox).calls[k]
  {
    hide StepOf, BoundOf;
    MemberSteady(c, layers, world[i], inbox, more);
  }

  lemma SentStays(c: Config, layers: seq<Layer>, world: seq<Member>, inbox: seq<Tensor>, more: seq<Tensor>, k: nat)
    requires c.Valid() && forall i | 0 <= i < |world| :: k < |StepOf(c, layers, world[i], inbox).calls|
    ensures forall i | 0 <= i < |world| :: k < |StepOf(c, layers, world[i], inbox + more).calls|
    ensures SentTo(c, layers, world, inbox + more, k) == SentTo(c, layers, world, inbox, k)
  {
    hide StepOf;
    forall i | 0 <= i < |world|
      ensures k < |StepOf(c, layers, world[i], inbox + more).calls|
      ensures StepOf(c, layers, world[i], inbox + more).calls[k] == StepOf(c, layers, world[i], inbox).calls[k]
    {
      CallsStay(c, layers, world, inbox, more, i, k);
    }
  }

  /** The next reply, once all ranks wait for it. */
  lemma NextDelivered(c: Config, layers: seq<Layer>, world: seq<Member>, inbox: seq<Tensor>, width: nat) returns (next: Tensor)
    requires c.Valid() && world != [] && Ready(layers, world, width) && Delivered(c, layers, world, inbox)
    requires Waits(StepOf(c, layers, world[0], inbox))
    ensures Delivered(c, layers, world, inbox + [next])
    ensures |inbox| < BoundOf(c, layers, world[0].state, world[0].given)
  {
    hide StepOf, Ready, BoundOf, SentTo, Reply;
    MemberSteady(c, layers, world[0], inbox, []);
    forall i | 0 <= i < |world|
      ensures |StepOf(c, layers, world[i], inbox).calls| == |inbox| + 1
    {
      OthersWait(c, layers, world, inbox, width, 0, i);
      WaitsForNext(c, layers, world, inbox, width, i);
    }
    next := Reply(SentTo(c, layers, world, inbox, |inbox|));
    forall k | 0 <= k < |inbox| + 1
      ensures ReplyAt(c, layers, world, inbox + [next], k)
    {
      SentStays(c, layers, world, inbox, [next], k);
      if k < |inbox| {
        assert ReplyAt(c, layers, world, inbox, k);
      }
    }
  }

  /** Nobody waits, and everything that was delivered has been received. */
  ghost predicate Completed(c: Config, layers: seq<Layer>, world: seq<Member>, inbox: seq<Tensor>)
    requires c.Valid()
  {
    forall i | 0 <= i < |world| ::
      var e := StepOf(c, layers, world[i], inbox);
      !Waits(e) && |e.calls| == |inbox| && (e.Done? ==> e.inbox == [])
  }

  lemma AllReceived(c: Config, layers: seq<Layer>, world: seq<Member>, inbox: seq<Tensor>, i: nat)
    requires c.Valid() && world != [] && Delivered(c, layers, world, inbox) && i < |world|
    requires !Waits(StepOf(c, layers, world[i], inbox))
    ensures var e := StepOf(c, layers, world[i], inbox); |e.calls| == |inbox| && (e.Done? ==> e.inbox == [])
  {
    hide StepOf, BoundOf;
    MemberSteady(c, layers, world[i], inbox, []);
    if |inbox| > 0 {
      assert ReplyAt(c, layers, world, inbox, |inbox| - 1);
    }
  }

  /** However many ranks: reply by reply, every step comes to its end on all of them. */
  lemma {:induction false} StepCompletes(c: Config, layers: seq<Layer>, world: seq<Member>, sofar: seq<Tensor>, width: nat)
    returns (inbox: seq<Tensor>)
    requires c.Valid() && world != [] && Ready(layers, world, width) && Delivered(c, layers, world, sofar)
    requires |sofar| <= BoundOf(c, layers, world[0].state, world[0].given)
    ensures Delivered(c, layers, world, inbox) && Completed(c, layers, world, inbox)
    decreases BoundOf(c, layers, world[0].state, world[0].given) - |sofar|
  {
    hide StepOf, Ready, BoundOf, Delivered;
    if Waits(StepOf(c, layers, world[0], sofar)) {
      var next := NextDelivered(c, layers, world, sofar, width);
      inbox := StepCompletes(c, layers, world, sofar + [next], width);
    } else {
      inbox := sofar;
      forall i | 0 <= i < |world|
        ensures var e := StepOf(c, layers, world[i], inbox);
                !Waits(e) && |e.calls| == |inbox| && (e.Done? ==> e.inbox == [])
      {
        OthersWait(c, layers, world, inbox, width, 0, i);
        AllReceived(c, layers, world, inbox, i);
      }
    }
  }

  // ---------------------------------------------------------------- the replies are determined

  /** What a rank has sent before some reply does not depend on it or on later ones. */
  lemma CallsBefore(c: Config, layers: seq<Layer>, world: seq<Member>, inbox: seq<Tensor>, k: nat, width: nat, i: nat)
    requires c.Valid() && world != [] && Ready(layers, world, width) && Delivered(c, layers, world, inbox)
    requires k <= |inbox| && i < |world|
    ensures var p, all := StepOf(c, layers, world[i], inbox[..k]).calls, StepOf(c, layers, world[i], inbox).calls;
            |p| >= k && |all| >= k && p[..k] == all[..k]
  {
    hide StepOf, Ready, BoundOf;
    assert inbox == inbox[..k] + inbox[k..];
    MemberSteady(c, layers, world[i], inbox[..k], inbox[k..]);
    var p, all := StepOf(c, layers, world[i], inbox[..k]).calls, StepOf(c, layers, world[i], inbox).calls;
    if k > 0 {
      assert ReplyAt(c, layers, world, inbox, k - 1);
    }
    if Waits(StepOf(c, layers, world[i], inbox[..k])) {
      MembersInStep(c, layers, world, inbox, width, 0, i);
      var last, first := |p| - 1, StepOf(c, layers, world[0], inbox).calls;
      if last < k {
        assert ReplyAt(c, layers, world, inbox, last);
        assert SameCall(first[last], all[last]);
        SameKindTwice(first[last].t, all[last].t, inbox[last]);
      }
    }
  }

  lemma SentBefore(c: Config, layers: seq<Layer>, world: seq<Member>, inbox: seq<Tensor>, k: nat, j: nat, width: nat)
    requires c.Valid() && world != [] && Ready(layers, world, width) && Delivered(c, layers, world, inbox)
    requires j < k <= |inbox|
    ensures ReplyAt(c, layers, world, inbox[..k], j)
  {
    hide StepOf, Ready, Reply;
    assert ReplyAt(c, layers, world, inbox, j);
    forall i | 0 <= i < |world|
      ensures j < |StepOf(c, layers, world[i], inbox[..k]).calls|
      ensures StepOf(c, layers, world[i], inbox[..k]).calls[j] == StepOf(c, layers, world[i], inbox).calls[j]
    {
      CallsBefore(c, layers, world, inbox, k, width, i);
      var p, all := StepOf(c, layers, world[i], inbox[..k]).calls, StepOf(c, layers, world[i], inbox).calls;
      assert p[..k][j] == all[..k][j];
    }
    assert SentTo(c, layers, world, inbox[..k], j) == SentTo(c, layers, world, inbox, j);
  }

  lemma PrefixDelivered(c: Config, layers: seq<Layer>, world: seq<Member>, inbox: seq<Tensor>, k: nat, width: nat)
    requires c.Valid() && world != [] && Ready(layers, world, width) && Delivered(c, layers, world, inbox)
    requires k <= |inbox|
    ensures Delivered(c, layers, world, inbox[..k])
  {
    hide StepOf, Ready, ReplyAt;
    forall j | 0 <= j < k
      ensures ReplyAt(c, layers, world, inbox[..k], j)
    {
      SentBefore(c, layers, world, inbox, k, j, width);
    }
  }

  /** While there are more replies to come, every rank waits for the next one. */
  lemma NextReplyIs(c: Config, layers: seq<Layer>, world: seq<Member>, inbox: seq<Tensor>, k: nat, width: nat)
    requires c.Valid() && world != [] && Ready(layers, world, width) && Delivered(c, layers, world, inbox)
    requires k < |inbox|
    ensures Waits(StepOf(c, layers, world[0], inbox[..k]))
    ensures forall i | 0 <= i < |world| :: k < |StepOf(c, layers, world[i], inbox[..k]).calls|
    ensures inbox[k] == Reply(SentTo(c, layers, world, inbox[..k], k))
  {
    hide StepOf, Ready, BoundOf, SentTo, Reply;
    var p, more := inbox[..k], inbox[k..];
    assert inbox == p + more;
    assert ReplyAt(c, layers, world, inbox, k);
    PrefixDelivered(c, layers, world, inbox, k, width);
    MemberSteady(c, layers, world[0], p, more);
    forall i | 0 <= i < |world|
      ensures |StepOf(c, layers, world[i], p).calls| == k + 1
    {
      OthersWait(c, layers, world, p, width, 0, i);
      WaitsForNext(c, layers, world, p, width, i);
    }
    SentStays(c, layers, world, p, more, k);
  }

  lemma {:induction false} SamePrefix(c: Config, layers: seq<Layer>, world: seq<Member>, a: seq<Tensor>, b: seq<Tensor>,
                                      k: nat, width: nat)
    requires c.Valid() && world != [] && Ready(layers, world, width)
    requires Delivered(c, layers, world, a) && Delivered(c, layers, world, b) && k <= |a| && k <= |b|
    ensures a[..k] == b[..k]
  {
    hide StepOf, Ready, Delivered, SentTo, Reply;
    if k > 0 {
      SamePrefix(c, layers, world, a, b, k - 1, width);
      NextReplyIs(c, layers, world, a, k - 1, width);
      NextReplyIs(c, layers, world, b, k - 1, width);
      assert a[..k] == a[..k - 1] + [a[k - 1]] && b[..k] == b[..k - 1] + [b[k - 1]];
    }
  }

  lemma NoLonger(c: Config, layers: seq<Layer>, world: seq<Member>, a: seq<Tensor>, b: seq<Tensor>, width: nat)
    requires c.Valid() && world != [] && Ready(layers, world, width)
    requires Delivered(c, layers, world, a) && Completed(c, layers, world, a) && Delivered(c, layers, world, b)
    ensures |b| <= |a|
  {
    hide StepOf, Ready, Delivered, SentTo, Reply;
    if |a| < |b| {
      SamePrefix(c, layers, world, a, b, |a|, width);
      assert a[..|a|] == a;
      NextReplyIs(c, layers, world, b, |a|, width);
    }
  }

  /** A step of all ranks has only one course: two sequences of replies that complete it are the same. */
  lemma CourseIsUnique(c: Config, layers: seq<Layer>, world: seq<Member>, a: seq<Tensor>, b: seq<Tensor>, width: nat)
    requires c.Valid() && world != [] && Ready(layers, world, width)
    requires Delivered(c, layers, world, a) && Completed(c, layers, world, a)
    requires Delivered(c, layers, world, b) && Completed(c, layers, world, b)
    ensures a == b
  {
    hide StepOf, Ready, Delivered, Completed;
    NoLonger(c, layers, world, a, b, width);
    NoLonger(c, layers, world, b, a, width);
    SamePrefix(c, layers, world, a, b, |a|, width);
    assert a[..|a|] == a && b[..|b|] == b;
  }

  // ---------------------------------------------------------------- whole runs of all ranks

  /** Ranks in agreeing states whose moments have the model's width. */
  ghost predicate Fleet(ranks: seq<Rank>, states: seq<State>, width: nat) {
    && |ranks| == |states| > 0
    && (forall i | 0 <= i < |states| :: MomentsHaveWidth(states[i].moments, width))
    && (forall i, j | 0 <= i < |ranks| && 0 <= j < |ranks| :: Compatible(ranks[i], ranks[j]) && Agree(states[i], states[j]))
  }

  type Round = seq<Option<Observation>>

  /** An observation for every rank, or for none. */
  ghost predicate FitsFleet(layers: seq<Layer>, round: Round, n: nat, width: nat) {
    && |round| == n
    && (forall i | 0 <= i < n :: HasWidth(layers, width, round[i]))
    && (forall i, j | 0 <= i < n && 0 <= j < n :: round[i].Some? <==> round[j].Some?)
  }

  ghost predicate RoundsFit(layers: seq<Layer>, rounds: seq<Round>, n: nat, width: nat) {
    forall t | 0 <= t < |rounds| :: |rounds[t]| == n && FitsFleet(layers, rounds[t], n, width)
  }

  function World(ranks: seq<Rank>, states: seq<State>, round: Round): seq<Member>
    requires |ranks| == |states| == |round|
  {
    seq(|ranks|, i requires 0 <= i < |ranks| => Member(ranks[i], states[i], round[i]))
  }

  lemma WorldIsReady(layers: seq<Layer>, ranks: seq<Rank>, states: seq<State>, round: Round, width: nat)
    requires Fleet(ranks, states, width) && FitsFleet(layers, round, |ranks|, width)
    ensures World(ranks, states, round) != [] && Ready(layers, World(ranks, states, round), width)
  {
    var world := World(ranks, states, round);
    hide Compatible, Agree, HasWidth, MomentsHaveWidth;
    forall i, j | 0 <= i < |world| && 0 <= j < |world|
      ensures InAgreement(world[i], world[j])
    {
      assert Compatible(ranks[i], ranks[j]) && Agree(states[i], states[j]);
      assert round[i].Some? <==> round[j].Some?;
    }
  }

  /** The states after a step that all ranks have done. */
  ghost function Advanced(c: Config, layers: seq<Layer>, world: seq<Member>, inbox: seq<Tensor>): (r: seq<State>)
    requires c.Valid()
    ensures |r| == |world|
  {
    seq(|world|, i requires 0 <= i < |world| =>
      var e := StepOf(c, layers, world[i], inbox);
      if e.Done? then e.value else world[i].state)
  }

  lemma AdvancedIsFleet(c: Config, layers: seq<Layer>, ranks: seq<Rank>, states: seq<State>, round: Round,
                        inbox: seq<Tensor>, width: nat)
    requires c.Valid() && Fleet(ranks, states, width) && FitsFleet(layers, round, |ranks|, width)
    requires StepOf(c, layers, World(ranks, states, round)[0], inbox).Done?
    ensures Fleet(ranks, Advanced(c, layers, World(ranks, states, round), inbox), width)
  {
    var world := World(ranks, states, round);
    WorldIsReady(layers, ranks, states, round, width);
    forall i | 0 <= i < |ranks|
      ensures StepOf(c, layers, world[i], inbox).Done?
      ensures MomentsHaveWidth(StepOf(c, layers, world[i], inbox).value.moments, width)
    {
      hide Ready, MomentsHaveWidth, HasWidth, ObserveUpdate;
      OthersWait(c, layers, world, inbox, width, 0, i);
      StepKeepsWidth(c, ranks[i], layers, states[i], Turn(round[i], inbox), width);
    }
    forall i, j | 0 <= i < |ranks| && 0 <= j < |ranks|
      ensures Agree(StepOf(c, layers, world[i], inbox).value, StepOf(c, layers, world[j], inbox).value)
    {
      hide Ready, StepOf, Agree;
      MembersInStep(c, layers, world, inbox, width, i, j);
    }
    hide StepOf, Ready, Agree, Compatible, MomentsHaveWidth, FitsFleet, World;
  }

  /** Every round's replies are those of its collectives, until a round that fails. */
  ghost predicate DeliveredRun(c: Config, layers: seq<Layer>, ranks: seq<Rank>, states: seq<State>, rounds: seq<Round>,
                               inboxes: seq<seq<Tensor>>)
    requires c.Valid() && |ranks| == |states| > 0 && forall t | 0 <= t < |rounds| :: |rounds[t]| == |ranks|
    decreases |rounds|
  {
    && |inboxes| == |rounds|
    && (rounds != [] ==>
          var world := World(ranks, states, rounds[0]);
          && Delivered(c, layers, world, inboxes[0]) && Completed(c, layers, world, inboxes[0])
          && (StepOf(c, layers, world[0], inboxes[0]).Done? ==>
                DeliveredRun(c, layers, ranks, Advanced(c, layers, world, inboxes[0]), rounds[1..], inboxes[1..])))
  }

  /** The turns of one rank. */
  function TurnsOf(rounds: seq<Round>, inboxes: seq<seq<Tensor>>, i: nat): seq<Turn>
    requires |inboxes| == |rounds| && forall t | 0 <= t < |rounds| :: i < |rounds[t]|
  {
    seq(|rounds|, t requires 0 <= t < |rounds| => Turn(rounds[t][i], inboxes[t]))
  }

  /**
   For every number of ranks and every number of steps there are replies, each what its collective makes of what the
   ranks send.
   */
  lemma {:induction false} RunCompletes(c: Config, layers: seq<Layer>, ranks: seq<Rank>, states: seq<State>,
                                        rounds: seq<Round>, width: nat) returns (inboxes: seq<seq<Tensor>>)
    requires c.Valid() && Fleet(ranks, states, width)
    requires RoundsFit(layers, rounds, |ranks|, width)
    ensures DeliveredRun(c, layers, ranks, states, rounds, inboxes)
    decreases |rounds|
  {
    if rounds == [] {
      inboxes := [];
    } else {
      var world := World(ranks, states, rounds[0]);
      WorldIsReady(layers, ranks, states, rounds[0], width);
      var inbox := StepCompletes(c, layers, world, [], width);
      if StepOf(c, layers, world[0], inbox).Done? {
        AdvancedIsFleet(c, layers, ranks, states, rounds[0], inbox, width);
        hide StepOf, Ready, Delivered, Completed, Fleet, FitsFleet, World, Advanced;
        var rest := RunCompletes(c, layers, ranks, Advanced(c, layers, world, inbox), rounds[1..], width);
        inboxes := [inbox] + rest;
        assert inboxes[1..] == rest;
      } else {
        inboxes := [inbox] + seq(|rounds| - 1, _ => []);
      }
    }
  }

  lemma FirstTurn(c: Config, r: Rank, layers: seq<Layer>, s: State, turns: seq<Turn>)
    requires c.Valid() && turns != []
    ensures var first := ObserveUpdate(c, r, layers, s, turns[0].given, turns[0].inbox);
            Waits(Train(c, r, layers, s, turns)) <==>
            Waits(first) || (first.Done? && Waits(Train(c, r, layers, first.value, turns[1..])))
  {
    hide ObserveUpdate;
  }

  lemma FleetSize(ranks: seq<Rank>, states: seq<State>, width: nat)
    requires Fleet(ranks, states, width)
    ensures |ranks| == |states|
  {
    hide Compatible, Agree, MomentsHaveWidth;
  }

  lemma FirstRoundSize(layers: seq<Layer>, rounds: seq<Round>, n: nat, width: nat)
    requires RoundsFit(layers, rounds, n, width) && rounds != []
    ensures |rounds[0]| == n
  {
    hide HasWidth;
  }

  lemma AfterFirstRound(c: Config, layers: seq<Layer>, ranks: seq<Rank>, states: seq<State>, rounds: seq<Round>,
                        inboxes: seq<seq<Tensor>>, width: nat, i: nat) returns (next: seq<State>)
    requires c.Valid() && Fleet(ranks, states, width) && i < |ranks| && rounds != []
    requires RoundsFit(layers, rounds, |ranks|, width) && DeliveredRun(c, layers, ranks, states, rounds, inboxes)
    ensures |inboxes| == |rounds|
    ensures var first := ObserveUpdate(c, ranks[i], layers, states[i], rounds[0][i], inboxes[0]);
            && !Waits(first)
            && (first.Done? ==>
                  && Fleet(ranks, next, width) && RoundsFit(layers, rounds[1..], |ranks|, width)
                  && DeliveredRun(c, layers, ranks, next, rounds[1..], inboxes[1..]) && next[i] == first.value)
  {
    hide ObserveUpdate, Fleet, FitsFleet, Delivered, Ready, HasWidth;
    FleetSize(ranks, states, width);
    FirstRoundSize(layers, rounds, |ranks|, width);
    var world := World(ranks, states, rounds[0]);
    WorldIsReady(layers, ranks, states, rounds[0], width);
    OthersWait(c, layers, world, inboxes[0], width, 0, i);
    next := Advanced(c, layers, world, inboxes[0]);
    assert !Waits(StepOf(c, layers, world[i], inboxes[0]));
    if StepOf(c, layers, world[i], inboxes[0]).Done? {
      AdvancedIsFleet(c, layers, ranks, states, rounds[0], inboxes[0], width);
    }
  }

  /** With these replies no rank ever waits for good: all train to the end, or fail in the same step. */
  lemma {:induction false} NobodyWaits(c: Config, layers: seq<Layer>, ranks: seq<Rank>, states: seq<State>,
                                       rounds: seq<Round>, inboxes: seq<seq<Tensor>>, width: nat, i: nat)
    requires c.Valid() && Fleet(ranks, states, width) && i < |ranks| && RoundsFit(layers, rounds, |ranks|, width)
    requires DeliveredRun(c, layers, ranks, states, rounds, inboxes)
    ensures !Waits(Train(c, ranks[i], layers, states[i], TurnsOf(rounds, inboxes, i)))
    decreases |rounds|
  {
    if rounds != [] {
      var turns := TurnsOf(rounds, inboxes, i);
      var next := AfterFirstRound(c, layers, ranks, states, rounds, inboxes, width, i);
      FirstTurn(c, ranks[i], layers, states[i], turns);
      if ObserveUpdate(c, ranks[i], layers, states[i], rounds[0][i], inboxes[0]).Done? {
        assert turns[1..] == TurnsOf(rounds[1..], inboxes[1..], i);
        hide DeliveredRun, ObserveUpdate, Train, RoundsFit;
        NobodyWaits(c, layers, ranks, next, rounds[1..], inboxes[1..], width, i);
      }
    }
  }

  /** And they agree: same collectives, same outcome, same bases, thresholds, averages, counts and flags. */
  lemma FleetAgrees(c: Config, layers: seq<Layer>, ranks: seq<Rank>, states: seq<State>, rounds: seq<Round>,
                    inboxes: seq<seq<Tensor>>, width: nat, i: nat, j: nat)
    requires c.Valid() && Fleet(ranks, states, width) && i < |ranks| && j < |ranks|
    requires RoundsFit(layers, rounds, |ranks|, width)
    requires |inboxes| == |rounds|
    ensures StatesInStep(Train(c, ranks[i], layers, states[i], TurnsOf(rounds, inboxes, i)),
                         Train(c, ranks[j], layers, states[j], TurnsOf(rounds, inboxes, j)))
  {
    hide HasWidth, StatesInStep, Train, Agree, Compatible, MomentsHaveWidth;
    RunsAgree(c, ranks[i], ranks[j], layers, states[i], states[j], TurnsOf(rounds, inboxes, i), TurnsOf(rounds, inboxes, j),
              width);
  }
}
