/**
 Whole runs of the offload handler: any number of training steps, each a forward pass that pushes
 tensors layer by layer and a backward pass that pops them layer by layer.
 */
module OffloadRun {
  import opened Wrappers
  import opened ActivationOffload

  datatype Event =
    | Push(tensor: Tensor)
    | CommitFwd
    | CommitBwd
    | Pop(tag: Tag, result: Tensor)
    | NextStep

  /**
   What autograd knows: where it is, which tensors it still holds tags for, the numbers in each storage
   that a group's tensors are views of, and (for the record) which groups were moved.
   */
  datatype Ledger = Ledger(
    backward: bool,
    layer: nat,
    held: map<Tag, Tensor>,
    storage: map<(nat, Key), seq<real>>,
    offloads: seq<nat>,
    reloads: seq<nat>)

  const FRESH := Ledger(false, 0, map[], map[], [], [])

  /** Every held tensor shows the numbers of its storage, so tensors that share one agree. */
  ghost predicate ViewsOf(held: map<Tag, Tensor>, storage: map<(nat, Key), seq<real>>) {
    forall tag | tag in held ::
      (tag.group, held[tag].key) in storage && storage[(tag.group, held[tag].key)] == held[tag].flat
  }

  /** The discipline of the autograd engine; nothing here looks at the handler's bookkeeping. */
  ghost predicate Legal(c: Config, s: State, led: Ledger, e: Event) {
    match e
    case Push(t) =>
      && !led.backward && led.layer < c.layers && t.WellFormed()
      && ((led.layer, t.key) in led.storage ==> led.storage[(led.layer, t.key)] == t.flat)
    case CommitFwd => !led.backward && led.layer < c.layers
    case CommitBwd =>
      && (led.backward || led.layer == c.layers) && 1 <= led.layer
      && forall tag | tag in led.held :: tag.group < led.layer
    case Pop(tag, _) => led.backward && tag in led.held && tag.group == led.layer
    case NextStep => led.backward && led.layer == 0 && led.held == map[]
  }

  /** Every index, key and assertion the handler's code relies on for the event. */
  predicate Enabled(c: Config, s: State, e: Event) {
    match e
    case Push(_) => Tag(s.currentGroup, s.tensorCount) !in s.tags
    case CommitFwd => CanCommitForward(c, s)
    case CommitBwd => CanCommitBackward(c, s)
    case Pop(tag, _) => tag in s.tags && s.tags[tag].OnDevice?
    case NextStep => true
  }

  ghost predicate HandlerStep(c: Config, s: State, e: Event, s': State)
    requires Enabled(c, s, e)
  {
    match e
    case Push(t) => s' == Pushed(c, s, t)
    case CommitFwd => CommitForward(c, s, s')
    case CommitBwd => CommitBackward(c, s, s')
    case Pop(tag, r) => s.tags[tag].tensor == r && s' == Popped(s, tag)
    case NextStep => s' == s
  }

  /** The groups bulk_offload_group is called for in this commit, in order. */
  function OffloadsNow(c: Config, s: State): seq<nat>
    requires s.offloadedCount < |c.window|
  {
    (if s.currentGroup == 0 then [0] else [])
    + (if WindowHit(c, s) && s.offloadedCount < c.groups - 1 then [s.offloadedCount + 1] else [])
  }

  /** The group bulk_reload_group is called for in this commit, if any. */
  function ReloadsNow(c: Config, s: State): seq<nat>
    requires CanCommitBackward(c, s)
  {
    if ReloadDue(c, Stepped(s)) then [s.offloadedCount - 1] else []
  }

  function Recorded(c: Config, s: State, led: Ledger, e: Event): Ledger
    requires Enabled(c, s, e)
    requires e.CommitBwd? ==> 1 <= led.layer
  {
    match e
    case Push(t) => led.(held := led.held[Tag(s.currentGroup, s.tensorCount) := t],
                         storage := led.storage[(led.layer, t.key) := t.flat])
    case CommitFwd => led.(layer := led.layer + 1, offloads := led.offloads + OffloadsNow(c, s))
    case CommitBwd => led.(backward := true, layer := led.layer - 1, reloads := led.reloads + ReloadsNow(c, s))
    case Pop(tag, _) => led.(held := led.held - {tag})
    case NextStep => FRESH
  }

  // ---------------------------------------------------------------- the invariant

  /** A tag keeps the pushed tensor, or the way back to it. */
  predicate Kept(s: State, tag: Tag, t: Tensor)
    requires tag in s.tags
  {
    match s.tags[tag]
    case OnDevice(u) => u.SameValue(t)
    case OffDevice(key, shape) =>
      && key == t.key && shape == t.shape
      && tag.group in s.backups && key in s.backups[tag.group]
      && s.backups[tag.group][key] == HostCopy(t.key.dtype, t.flat)
  }

  /** The handler's own tags and the engine's agree, on names and on values. */
  ghost predicate Faithful(s: State, led: Ledger) {
    && s.currentGroup == led.layer
    && s.tags.Keys == led.held.Keys
    && ViewsOf(led.held, led.storage)
    && (forall tag | tag in led.held :: led.held[tag].WellFormed() && Kept(s, tag, led.held[tag]))
    && s.bufs.Keys <= s.tags.Keys
  }

  /** count windows closed before the layer. */
  predicate CounterFits(c: Config, layer: nat, count: nat)
    requires |c.window| == c.groups
  {
    && count <= c.groups
    && (count > 0 ==> c.window[count - 1] < layer)
    && (count < c.groups ==> layer <= c.window[count])
  }

  /** A tensor still on the device is the pushed one, and its buffer reference goes with its window. */
  predicate ForwardTag(c: Config, s: State, led: Ledger, tag: Tag)
    requires tag in led.held
  {
    && tag in s.tags && tag.group < c.layers && tag.group <= led.layer
    && (tag.group == led.layer ==> tag.index < s.tensorCount)
    && (s.tags[tag].OnDevice? ==> s.tags[tag].tensor == led.held[tag])
    && (tag in s.bufs <==> tag.group < c.groups)
    && (tag in s.bufs ==> (s.bufs[tag].None? <==> tag.group < s.offloadedCount))
  }

  /** Groups 0 to count have left after the first commit, the last one excepted. */
  ghost predicate ForwardProgress(
    c: Config, layer: nat, count: nat, gone: set<nat>, offloads: seq<nat>, reloads: seq<nat>)
    requires |c.window| == c.groups
  {
    && layer <= c.layers
    && CounterFits(c, layer, count)
    && (forall g :: g in gone <==> layer > 0 && 0 <= g <= count && g < c.groups)
    && offloads == Ascending(if layer == 0 then 0 else Min(count + 1, c.groups))
    && reloads == []
  }

  /** The groups still to come back are the first ones: those whose window closed before the layer. */
  ghost predicate BackwardProgress(
    c: Config, layer: nat, count: nat, gone: set<nat>, offloads: seq<nat>, reloads: seq<nat>)
    requires |c.window| == c.groups
  {
    var pending := c.groups - |reloads|;
    && layer < c.layers
    && 0 <= pending
    && CounterFits(c, layer, pending)
    && count == (if layer == 0 then 0 else if pending == 0 then 1 else pending)
    && (forall g :: g in gone <==> 0 <= g < pending)
    && offloads == Ascending(c.groups)
    && (forall j | 0 <= j < |reloads| :: reloads[j] == c.groups - 1 - j)
  }

  ghost predicate ForwardShape(c: Config, s: State, led: Ledger)
    requires c.Valid()
  {
    && ForwardProgress(c, led.layer, s.offloadedCount, s.backups.Keys, led.offloads, led.reloads)
    && (forall tag | tag in led.held :: ForwardTag(c, s, led, tag))
    && (led.layer == c.layers ==> s.tensorCount == 0)
  }

  ghost predicate BackwardShape(c: Config, s: State, led: Ledger)
    requires c.Valid()
  {
    && BackwardProgress(c, led.layer, s.offloadedCount, s.backups.Keys, led.offloads, led.reloads)
    && (forall tag | tag in led.held :: tag.group <= led.layer && (tag in s.bufs ==> s.bufs[tag].None?))
    && s.tensorCount == 0
  }

  ghost predicate Inv(c: Config, s: State, led: Ledger)
    requires c.Valid()
  {
    && Faithful(s, led)
    && (if led.backward then BackwardShape(c, s, led) else ForwardShape(c, s, led))
  }

  function Ascending(n: nat): seq<nat> {
    seq(n, i requires 0 <= i => i)
  }

  // ---------------------------------------------------------------- enabledness

  lemma InitiallyInv(c: Config)
    requires c.Valid()
    ensures Inv(c, INITIAL, FRESH)
  {
  }

  lemma LegalIsEnabled(c: Config, s: State, led: Ledger, e: Event)
    requires c.Valid() && Inv(c, s, led) && Legal(c, s, led, e)
    ensures Enabled(c, s, e)
  {
  }

  // ---------------------------------------------------------------- preservation

  lemma PushKeepsFaithful(c: Config, s: State, led: Ledger, t: Tensor)
    requires c.Valid() && Inv(c, s, led) && Legal(c, s, led, Push(t)) && Enabled(c, s, Push(t))
    ensures Faithful(Pushed(c, s, t), Recorded(c, s, led, Push(t)))
  {
    var s', led' := Pushed(c, s, t), Recorded(c, s, led, Push(t));
    forall tag | tag in led'.held
      ensures led'.held[tag].WellFormed() && Kept(s', tag, led'.held[tag])
    {
      if tag in led.held {
        assert Kept(s, tag, led.held[tag]);
      }
    }
  }

  lemma PushKeepsShape(c: Config, s: State, led: Ledger, t: Tensor)
    requires c.Valid() && Inv(c, s, led) && Legal(c, s, led, Push(t)) && Enabled(c, s, Push(t))
    ensures ForwardShape(c, Pushed(c, s, t), Recorded(c, s, led, Push(t)))
  {
  }

  /** Dropping a group's tensors loses nothing: every tag still leads to its own numbers. */
  lemma OffloadKeepsValues(
    s: State, group: nat, s': State, held: map<Tag, Tensor>, storage: map<(nat, Key), seq<real>>)
    requires AllOnDevice(s, group) && BulkOffload(s, group, s')
    requires s.tags.Keys == held.Keys && ViewsOf(held, storage)
    requires forall tag | tag in held :: Kept(s, tag, held[tag])
    requires forall tag | tag in held && tag.group == group :: s.tags[tag].tensor == held[tag]
    ensures s'.tags.Keys == held.Keys
    ensures forall tag | tag in held :: Kept(s', tag, held[tag])
  {
  }

  /** Values do not depend on counters or buffer references. */
  lemma KeptElsewhere(s: State, s': State, held: map<Tag, Tensor>)
    requires s.tags == s'.tags && s.backups == s'.backups && s.tags.Keys == held.Keys
    requires forall tag | tag in held :: Kept(s, tag, held[tag])
    ensures forall tag | tag in held :: Kept(s', tag, held[tag])
  {
  }

  /** What the two offloads of a forward commit leave alone, and what they leave behind. */
  ghost predicate Moved(s: State, s': State, held: map<Tag, Tensor>, c: Config) {
    && s'.currentGroup == s.currentGroup && s'.tensorCount == s.tensorCount
    && s'.tags.Keys == held.Keys
    && (forall tag | tag in held :: Kept(s', tag, held[tag]))
    && (forall tag | tag in held && s'.tags[tag].OnDevice? :: s'.tags[tag].tensor == held[tag])
    && (forall g :: g in s'.backups <==> 0 <= g <= s'.offloadedCount && g < c.groups)
  }

  lemma FirstOffloadKeeps(c: Config, s: State, a: State, led: Ledger)
    requires c.Valid() && Faithful(s, led) && ForwardShape(c, s, led)
    requires s.currentGroup == 0 ==> AllOnDevice(s, 0)
    requires FirstOffload(s, a)
    ensures Moved(s, a, led.held, c)
    ensures a.offloadedCount == s.offloadedCount && a.bufs == s.bufs
  {
    forall tag | tag in led.held && s.tags[tag].OnDevice?
      ensures s.tags[tag].tensor == led.held[tag]
    {
      assert ForwardTag(c, s, led, tag);
    }
    if s.currentGroup == 0 {
      OffloadKeepsValues(s, 0, a, led.held, led.storage);
    }
  }

  lemma NextOffloadKeeps(
    c: Config, s: State, a: State, b: State, held: map<Tag, Tensor>, storage: map<(nat, Key), seq<real>>)
    requires c.Valid() && Moved(s, a, held, c) && ViewsOf(held, storage)
    requires a.offloadedCount < c.groups
    requires WindowHit(c, a) && a.offloadedCount < c.groups - 1 ==> AllOnDevice(a, a.offloadedCount + 1)
    requires NextOffload(c, a, b)
    ensures Moved(s, b, held, c)
    ensures b.offloadedCount == a.offloadedCount + (if WindowHit(c, a) then 1 else 0)
    ensures b.bufs == if WindowHit(c, a) then Freed(a).bufs else a.bufs
  {
    if WindowHit(c, a) {
      var f := Freed(a);
      KeptElsewhere(a, f, held);
      if a.offloadedCount < c.groups - 1 {
        var b' := b.(offloadedCount := a.offloadedCount);
        OffloadKeepsValues(f, a.offloadedCount + 1, b', held, storage);
        KeptElsewhere(b', b, held);
      } else {
        KeptElsewhere(f, b, held);
      }
    }
  }

  lemma ProgressForward(
    c: Config, layer: nat, count: nat, gone: set<nat>, offloads: seq<nat>, reloads: seq<nat>,
    count': nat, gone': set<nat>, offloads': seq<nat>)
    requires c.Valid() && c.Increasing() && count < c.groups && layer < c.layers
    requires ForwardProgress(c, layer, count, gone, offloads, reloads)
    requires count' == if c.window[count] == layer then count + 1 else count
    requires forall g :: g in gone' <==> 0 <= g <= count' && g < c.groups
    requires offloads' == Ascending(Min(count' + 1, c.groups))
    ensures ForwardProgress(c, layer + 1, count', gone', offloads', reloads)
  {
  }

  /** The effect of a whole forward commit on what the invariant looks at. */
  ghost predicate Committed(c: Config, s: State, s': State, held: map<Tag, Tensor>)
    requires s.offloadedCount < |c.window|
  {
    && s'.currentGroup == s.currentGroup + 1 && s'.tensorCount == 0
    && s'.offloadedCount == (if WindowHit(c, s) then s.offloadedCount + 1 else s.offloadedCount)
    && s'.bufs == (if WindowHit(c, s) then Freed(s).bufs else s.bufs)
    && s'.tags.Keys == held.Keys
    && (forall tag | tag in held :: Kept(s', tag, held[tag]))
    && (forall tag | tag in held && s'.tags[tag].OnDevice? :: s'.tags[tag].tensor == held[tag])
    && (forall g :: g in s'.backups <==> 0 <= g <= s'.offloadedCount && g < c.groups)
  }

  lemma CommitFwdMoves(c: Config, s: State, led: Ledger, s': State)
    requires c.Valid() && Faithful(s, led) && ForwardShape(c, s, led)
    requires CanCommitForward(c, s) && CommitForward(c, s, s')
    ensures Committed(c, s, s', led.held)
  {
    var a := AfterFirst(s, s'.backups);
    var b := s'.(currentGroup := s.currentGroup, tensorCount := s.tensorCount);
    FirstOffloadKeeps(c, s, a, led);
    NextOffloadKeeps(c, s, a, b, led.held, led.storage);
    KeptElsewhere(b, s', led.held);
  }

  lemma CommittedIsFaithful(c: Config, s: State, s': State, led: Ledger, led': Ledger)
    requires s.offloadedCount < |c.window| && Faithful(s, led) && Committed(c, s, s', led.held)
    requires led'.held == led.held && led'.storage == led.storage && led'.layer == led.layer + 1
    ensures Faithful(s', led')
  {
  }

  lemma CommittedKeepsTags(c: Config, s: State, s': State, led: Ledger, led': Ledger)
    requires s.offloadedCount < |c.window| && s.currentGroup == led.layer && Committed(c, s, s', led.held)
    requires forall tag | tag in led.held :: ForwardTag(c, s, led, tag)
    requires led'.held == led.held && led'.layer == led.layer + 1
    ensures forall tag | tag in led'.held :: ForwardTag(c, s', led', tag)
  {
  }

  lemma OffloadsInOrder(c: Config, s: State, layer: nat)
    requires c.Valid() && s.offloadedCount < c.groups && s.currentGroup == layer
    requires layer == 0 ==> s.offloadedCount == 0
    ensures Ascending(if layer == 0 then 0 else Min(s.offloadedCount + 1, c.groups)) + OffloadsNow(c, s)
            == Ascending(Min((if WindowHit(c, s) then s.offloadedCount + 1 else s.offloadedCount) + 1, c.groups))
  {
  }

  lemma OffloadsAre(c: Config, layer: nat, count: nat, gone: set<nat>, offloads: seq<nat>, reloads: seq<nat>)
    requires |c.window| == c.groups && ForwardProgress(c, layer, count, gone, offloads, reloads)
    ensures offloads == Ascending(if layer == 0 then 0 else Min(count + 1, c.groups))
  {
  }

  lemma CommittedProgress(c: Config, s: State, s': State, led: Ledger)
    requires c.Valid() && c.Increasing() && s.currentGroup == led.layer
    requires led.layer < c.layers && CanCommitForward(c, s)
    requires s'.offloadedCount == if WindowHit(c, s) then s.offloadedCount + 1 else s.offloadedCount
    requires forall g :: g in s'.backups <==> 0 <= g <= s'.offloadedCount && g < c.groups
    requires ForwardProgress(c, led.layer, s.offloadedCount, s.backups.Keys, led.offloads, led.reloads)
    ensures var led' := Recorded(c, s, led, CommitFwd);
            ForwardProgress(c, led'.layer, s'.offloadedCount, s'.backups.Keys, led'.offloads, led'.reloads)
  {
    OffloadsInOrder(c, s, led.layer);
    OffloadsAre(c, led.layer, s.offloadedCount, s.backups.Keys, led.offloads, led.reloads);
    hide ForwardProgress, Ascending;
    ProgressForward(c, led.layer, s.offloadedCount, s.backups.Keys, led.offloads, led.reloads,
                    s'.offloadedCount, s'.backups.Keys, Recorded(c, s, led, CommitFwd).offloads);
  }

  lemma CommittedKeepsShape(c: Config, s: State, s': State, led: Ledger)
    requires c.Valid() && c.Increasing() && ForwardShape(c, s, led) && s.currentGroup == led.layer
    requires led.layer < c.layers && CanCommitForward(c, s) && Committed(c, s, s', led.held)
    ensures ForwardShape(c, s', Recorded(c, s, led, CommitFwd))
  {
    CommittedKeepsTags(c, s, s', led, Recorded(c, s, led, CommitFwd));
    CommittedProgress(c, s, s', led);
  }

  // ---------------------------------------------------------------- the backward pass

  /** Bringing a group back restores the pushed numbers in every tag. */
  lemma ReloadKeepsValues(s: State, group: nat, s': State, held: map<Tag, Tensor>)
    requires group in s.backups && CanRestore(s, group, s.backups[group]) && BulkReload(s, group, s')
    requires s.tags.Keys == held.Keys
    requires forall tag | tag in held :: Kept(s, tag, held[tag])
    ensures forall tag | tag in held :: Kept(s', tag, held[tag])
  {
  }

  /** The effect of a backward commit on the counters. */
  ghost predicate SteppedBack(c: Config, s: State, s': State)
    requires CanCommitBackward(c, s)
  {
    var due := c.window[s.offloadedCount - 1] == s.currentGroup - 1;
    && s'.bufs == s.bufs && s'.tensorCount == s.tensorCount && s'.currentGroup == s.currentGroup - 1
    && s'.backups.Keys == (if due then s.backups.Keys - {s.offloadedCount - 1} else s.backups.Keys)
    && s'.offloadedCount == (if s.currentGroup == 1 then 0
                             else if due && s.offloadedCount > 1 then s.offloadedCount - 1 else s.offloadedCount)
  }

  lemma CommitBwdSteps(c: Config, s: State, s': State)
    requires CanCommitBackward(c, s) && CommitBackward(c, s, s')
    ensures SteppedBack(c, s, s')
  {
  }

  lemma CommitBwdKeepsValues(c: Config, s: State, s': State, held: map<Tag, Tensor>)
    requires s.tags.Keys == held.Keys && forall tag | tag in held :: Kept(s, tag, held[tag])
    requires CanCommitBackward(c, s) && CommitBackward(c, s, s')
    ensures s'.tags.Keys == held.Keys && forall tag | tag in held :: Kept(s', tag, held[tag])
  {
    var before := Stepped(s);
    KeptElsewhere(s, before, held);
    var a :| Reloaded(c, before, a) && s' == Settled(a, ReloadDue(c, before));
    hide Kept, Recovered;
    if ReloadDue(c, before) {
      ReloadKeepsValues(before, s.offloadedCount - 1, a, held);
    }
    KeptElsewhere(a, s', held);
  }

  lemma CommitBwdKeepsFaithful(c: Config, s: State, led: Ledger, s': State)
    requires Faithful(s, led) && 1 <= led.layer
    requires CanCommitBackward(c, s) && CommitBackward(c, s, s')
    ensures Faithful(s', Recorded(c, s, led, CommitBwd))
  {
    CommitBwdSteps(c, s, s');
    CommitBwdKeepsValues(c, s, s', led.held);
  }

  /** At the end of the forward pass every buffer reference is given up. */
  lemma Turn(c: Config, s: State, led: Ledger)
    requires c.Valid() && ForwardShape(c, s, led) && led.layer == c.layers
    ensures forall tag | tag in led.held && tag in s.bufs :: s.bufs[tag].None?
  {
  }

  lemma ProgressBackward(
    c: Config, layer: nat, count: nat, gone: set<nat>, offloads: seq<nat>, reloads: seq<nat>,
    count': nat, gone': set<nat>, reloads': seq<nat>)
    requires c.Valid() && c.Increasing() && 1 <= layer <= c.layers
    requires if layer == c.layers
             then ForwardProgress(c, layer, count, gone, offloads, reloads)
             else BackwardProgress(c, layer, count, gone, offloads, reloads)
    requires 1 <= count <= c.groups
    requires var due := c.window[count - 1] == layer - 1;
             && count' == (if layer == 1 then 0 else if due && count > 1 then count - 1 else count)
             && gone' == (if due then gone - {count - 1} else gone)
             && reloads' == reloads + (if due then [count - 1] else [])
    ensures BackwardProgress(c, layer - 1, count', gone', offloads, reloads')
  {
    var pending := c.groups - |reloads|;
    assert CounterFits(c, layer, pending);
    assert forall g :: g in gone <==> 0 <= g < pending;
    if c.window[count - 1] == layer - 1 {
      assert count == pending;
      assert CounterFits(c, layer - 1, pending - 1);
    } else {
      assert CounterFits(c, layer - 1, pending);
    }
  }

  lemma SteppedBackProgress(c: Config, s: State, led: Ledger, s': State)
    requires c.Valid() && c.Increasing() && CanCommitBackward(c, s) && SteppedBack(c, s, s')
    requires s.currentGroup == led.layer && 1 <= led.layer <= c.layers
    requires if led.layer == c.layers
             then ForwardProgress(c, led.layer, s.offloadedCount, s.backups.Keys, led.offloads, led.reloads)
             else BackwardProgress(c, led.layer, s.offloadedCount, s.backups.Keys, led.offloads, led.reloads)
    ensures var led' := Recorded(c, s, led, CommitBwd);
            BackwardProgress(c, led'.layer, s'.offloadedCount, s'.backups.Keys, led'.offloads, led'.reloads)
  {
    hide ForwardProgress, BackwardProgress;
    ProgressBackward(c, led.layer, s.offloadedCount, s.backups.Keys, led.offloads, led.reloads,
                     s'.offloadedCount, s'.backups.Keys, Recorded(c, s, led, CommitBwd).reloads);
  }

  lemma CommitBwdKeepsShape(c: Config, s: State, led: Ledger, s': State)
    requires c.Valid() && c.Increasing() && Inv(c, s, led) && Legal(c, s, led, CommitBwd)
    requires CanCommitBackward(c, s) && SteppedBack(c, s, s')
    ensures BackwardShape(c, s', Recorded(c, s, led, CommitBwd))
  {
    if !led.backward {
    }
    SteppedBackProgress(c, s, led, s');
  }

  lemma PopKeeps(c: Config, s: State, led: Ledger, tag: Tag, r: Tensor)
    requires c.Valid() && Inv(c, s, led) && Legal(c, s, led, Pop(tag, r)) && Enabled(c, s, Pop(tag, r))
    ensures Inv(c, Popped(s, tag), Recorded(c, s, led, Pop(tag, r)))
  {
  }

  /** Once everything is popped at layer 0, nothing is left over from the step. */
  lemma IdleIsInitial(c: Config, s: State, led: Ledger)
    requires c.Valid() && Inv(c, s, led) && Legal(c, s, led, NextStep)
    ensures s == INITIAL
  {
  }

  lemma StepKeeps(c: Config, s: State, led: Ledger, e: Event, s': State)
    requires c.Valid() && c.Increasing() && Inv(c, s, led) && Legal(c, s, led, e)
    requires Enabled(c, s, e) && HandlerStep(c, s, e, s')
    ensures Inv(c, s', Recorded(c, s, led, e))
  {
    match e
    case Push(t) =>
      PushKeepsFaithful(c, s, led, t);
      PushKeepsShape(c, s, led, t);
    case CommitFwd =>
      CommitFwdMoves(c, s, led, s');
      CommittedIsFaithful(c, s, s', led, Recorded(c, s, led, e));
      CommittedKeepsShape(c, s, s', led);
    case CommitBwd =>
      CommitBwdSteps(c, s, s');
      CommitBwdKeepsFaithful(c, s, led, s');
      CommitBwdKeepsShape(c, s, led, s');
    case Pop(tag, r) =>
      PopKeeps(c, s, led, tag, r);
    case NextStep =>
      IdleIsInitial(c, s, led);
      InitiallyInv(c);
  }

  // ---------------------------------------------------------------- device residency

  /** With a layer to spare, a group that has host copies has left the device completely. */
  ghost predicate GoneForGood(s: State) {
    forall tag | tag in s.tags && tag.group in s.backups :: s.tags[tag].OffDevice?
  }

  lemma CommitFwdLeavesNothing(c: Config, s: State, s': State)
    requires CanCommitForward(c, s) && CommitForward(c, s, s') && GoneForGood(s)
    ensures GoneForGood(s')
  {
    var a := AfterFirst(s, s'.backups);
    var b := s'.(currentGroup := s.currentGroup, tensorCount := s.tensorCount);
    if s.currentGroup == 0 {
    }
    if WindowHit(c, a) && a.offloadedCount < c.groups - 1 {
    }
  }

  lemma CommitBwdLeavesNothing(c: Config, s: State, s': State)
    requires CanCommitBackward(c, s) && CommitBackward(c, s, s') && GoneForGood(s)
    ensures GoneForGood(s')
  {
  }

  /** A layer that is still pushing has no host copies yet. */
  lemma PushingGroupIsHere(c: Config, s: State, led: Ledger)
    requires c.Valid() && c.groups < c.layers && ForwardShape(c, s, led)
    ensures led.layer !in s.backups
  {
  }

  lemma StepLeavesNothing(c: Config, s: State, led: Ledger, e: Event, s': State)
    requires c.Valid() && c.groups < c.layers && Inv(c, s, led) && Legal(c, s, led, e)
    requires Enabled(c, s, e) && HandlerStep(c, s, e, s')
    requires GoneForGood(s)
    ensures GoneForGood(s')
  {
    match e
    case Push(t) => PushingGroupIsHere(c, s, led);
    case CommitFwd => CommitFwdLeavesNothing(c, s, s');
    case CommitBwd => CommitBwdLeavesNothing(c, s, s');
    case Pop(tag, r) =>
    case NextStep =>
  }

  /** Some tensor of the group is still reachable on the device through the handler. */
  ghost predicate Resident(s: State, group: nat) {
    exists tag | tag in s.tags && tag.group == group ::
      s.tags[tag].OnDevice? || (tag in s.bufs && s.bufs[tag].Some?)
  }

  lemma AllButOneWindow(layers: nat, i: nat)
    requires 2 <= layers && i < layers - 1
    ensures ConfigFor(layers, layers - 1).window[i] == i + 1
  {
  }

  /** As set up by enable_activation_offloading: only the current layer's group and the one before. */
  lemma ResidentNearLayer(c: Config, s: State, led: Ledger, group: nat)
    requires c.Valid() && c.groups + 1 == c.layers && Inv(c, s, led) && GoneForGood(s)
    requires forall i | 0 <= i < c.groups :: c.window[i] == i + 1
    requires Resident(s, group)
    ensures led.layer - 1 <= group <= led.layer
  {
  }

  // ---------------------------------------------------------------- runs

  ghost predicate IsRun(c: Config, ss: seq<State>, ls: seq<Ledger>, es: seq<Event>) {
    && |ss| == |ls| == |es| + 1
    && ss[0] == INITIAL && ls[0] == FRESH
    && forall i | 0 <= i < |es| ::
         && Legal(c, ss[i], ls[i], es[i])
         && Enabled(c, ss[i], es[i])
         && HandlerStep(c, ss[i], es[i], ss[i + 1])
         && ls[i + 1] == Recorded(c, ss[i], ls[i], es[i])
  }

  lemma {:induction false} RunKeeps(c: Config, ss: seq<State>, ls: seq<Ledger>, es: seq<Event>, n: nat)
    requires c.Valid() && c.Increasing() && IsRun(c, ss, ls, es) && n <= |es|
    ensures Inv(c, ss[n], ls[n])
    ensures c.groups < c.layers ==> GoneForGood(ss[n])
  {
    if n == 0 {
    } else {
      RunKeeps(c, ss, ls, es, n - 1);
      StepKeeps(c, ss[n - 1], ls[n - 1], es[n - 1], ss[n]);
      if c.groups < c.layers {
        StepLeavesNothing(c, ss[n - 1], ls[n - 1], es[n - 1], ss[n]);
      }
    }
  }

  /**
   In no run, however many steps long, does a legal call meet a missing window or backup, pop an
   offloaded pair, or trip an assertion.
   */
  lemma NothingFails(layers: nat, groups: nat, ss: seq<State>, ls: seq<Ledger>, es: seq<Event>, e: Event)
    requires 1 <= groups <= layers && IsRun(ConfigFor(layers, groups), ss, ls, es)
    requires Legal(ConfigFor(layers, groups), ss[|es|], ls[|es|], e)
    ensures Enabled(ConfigFor(layers, groups), ss[|es|], e)
  {
    var c := ConfigFor(layers, groups);
    WindowMapIsValid(layers, groups);
    RunKeeps(c, ss, ls, es, |es|);
    LegalIsEnabled(c, ss[|es|], ls[|es|], e);
  }

  lemma PopsTheValue(c: Config, s: State, led: Ledger, tag: Tag, r: Tensor, s': State)
    requires c.Valid() && Inv(c, s, led) && Legal(c, s, led, Pop(tag, r))
    requires Enabled(c, s, Pop(tag, r)) && HandlerStep(c, s, Pop(tag, r), s')
    ensures tag in led.held && r.SameValue(led.held[tag])
  {
  }

  /** Every pop of every run returns the type, shape and contents that were pushed for the tag. */
  lemma PopReturnsWhatWasPushed(
    layers: nat, groups: nat, ss: seq<State>, ls: seq<Ledger>, es: seq<Event>, i: nat, tag: Tag, r: Tensor)
    requires 1 <= groups <= layers && IsRun(ConfigFor(layers, groups), ss, ls, es)
    requires i < |es| && es[i] == Pop(tag, r)
    ensures tag in ls[i].held
    ensures var t := ls[i].held[tag]; r.key.dtype == t.key.dtype && r.shape == t.shape && r.flat == t.flat
  {
    var c := ConfigFor(layers, groups);
    WindowMapIsValid(layers, groups);
    RunKeeps(c, ss, ls, es, i);
    assert Legal(c, ss[i], ls[i], Pop(tag, r)) && Enabled(c, ss[i], Pop(tag, r));
    PopsTheValue(c, ss[i], ls[i], tag, r, ss[i + 1]);
  }

  /**
   Each step offloads groups 0 to G-1 in this order in its forward pass, reloads them in the opposite
   order in its backward pass, and leaves the handler as it was constructed.
   */
  lemma StepsCompose(layers: nat, groups: nat, ss: seq<State>, ls: seq<Ledger>, es: seq<Event>, i: nat)
    requires 1 <= groups <= layers && IsRun(ConfigFor(layers, groups), ss, ls, es)
    requires i < |es| && es[i] == NextStep
    ensures ss[i] == INITIAL && ss[i + 1] == INITIAL
    ensures ls[i].offloads == Ascending(groups)
    ensures |ls[i].reloads| == groups && forall j | 0 <= j < groups :: ls[i].reloads[j] == groups - 1 - j
  {
    var c := ConfigFor(layers, groups);
    WindowMapIsValid(layers, groups);
    RunKeeps(c, ss, ls, es, i);
    assert Legal(c, ss[i], ls[i], es[i]);
  }

  /** With all layers but the last offloaded, at most two neighbouring groups are on the device at any time. */
  lemma AtMostTwoGroupsResident(
    layers: nat, ss: seq<State>, ls: seq<Ledger>, es: seq<Event>, i: nat, g: nat, h: nat)
    requires 2 <= layers && IsRun(ConfigFor(layers, layers - 1), ss, ls, es) && i <= |es|
    requires Resident(ss[i], g) && Resident(ss[i], h)
    ensures -1 <= g - h <= 1
    ensures ls[i].layer - 1 <= g <= ls[i].layer
  {
    var c := ConfigFor(layers, layers - 1);
    WindowMapIsValid(layers, layers - 1);
    RunKeeps(c, ss, ls, es, i);
    forall w | 0 <= w < c.groups
      ensures c.window[w] == w + 1
    {
      AllButOneWindow(layers, w);
    }
    ResidentNearLayer(c, ss[i], ls[i], g);
    ResidentNearLayer(c, ss[i], ls[i], h);
  }
}
