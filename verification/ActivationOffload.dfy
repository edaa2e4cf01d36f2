/**
 The asynchronous, double-buffered activation offload handler of verl/utils/activation_offload.py.

 The class at the end has the handler's fields and methods.  Each method is specified by a relation on
 the handler's abstract state, so that the order in which a Python dictionary is traversed and the
 addresses the device allocator hands out stay open.
 */
module ActivationOffload {
  import opened Arithmetic
  import opened Wrappers

  // ---------------------------------------------------------------- values

  /** The identity of a storage: address plus offset, and element type. */
  datatype Key = Key(address: int, dtype: int)

  datatype Tensor = Tensor(key: Key, shape: seq<nat>, flat: seq<real>) {
    /** Equal as values; the storage may be another one. */
    predicate SameValue(other: Tensor) {
      key.dtype == other.key.dtype && shape == other.shape && flat == other.flat
    }

    predicate WellFormed() {
      Numel(shape) == |flat|
    }
  }

  function Numel(shape: seq<nat>): nat {
    if shape == [] then 1 else shape[0] * Numel(shape[1..])
  }

  /** One dimension has as many elements as it says, and dimensions multiply. */
  lemma {:induction false} NumelMultiplies(a: seq<nat>, b: seq<nat>)
    ensures Numel(a + b) == Numel(a) * Numel(b)
    ensures |a| == 1 ==> Numel(a) == a[0]
  {
    if a == [] {
      assert a + b == b;
    } else {
      NumelMultiplies(a[1..], b);
      assert (a + b)[1..] == a[1..] + b;
      Associates(a[0], Numel(a[1..]), Numel(b));
    }
  }

  lemma Associates(a: int, b: int, c: int)
    ensures a * (b * c) == (a * b) * c
  {
  }

  /** The copy of a storage in host memory. */
  datatype HostCopy = HostCopy(dtype: int, flat: seq<real>)

  datatype Tag = Tag(group: nat, index: nat)

  /** What the handler keeps for a tag: the tensor, or the pair that finds its host copy. */
  datatype Saved = OnDevice(tensor: Tensor) | OffDevice(key: Key, shape: seq<nat>)

  /** Number of layers, number of groups to offload, and layer_window_map. */
  datatype Config = Config(layers: nat, groups: nat, window: seq<int>) {
    /** All that a run needs to know of the window map; WindowMapIsValid shows the computed map has it. */
    ghost predicate Valid() {
      && 1 <= groups <= layers
      && |window| == groups
      && (forall i | 0 <= i < groups :: i <= window[i] < layers)
      && window[groups - 1] == layers - 1
      && (groups < layers ==> forall i | 0 <= i < groups :: i + 1 <= window[i])
    }

    ghost predicate Increasing() {
      forall i, j | 0 <= i < j < |window| :: window[i] < window[j]
    }
  }

  datatype State = State(
    currentGroup: nat,
    tensorCount: nat,
    offloadedCount: nat,
    tags: map<Tag, Saved>,
    bufs: map<Tag, Option<Tensor>>,
    backups: map<nat, map<Key, HostCopy>>)

  const INITIAL := State(0, 0, 0, map[], map[], map[])

  // ---------------------------------------------------------------- the window map

  function Min(a: int, b: int): int {
    if a <= b then a else b
  }

  /** The forward commit at which offload group i has to be gone. */
  function WindowEnd(layers: nat, groups: nat, i: nat): int
    requires 1 <= groups
  {
    (layers / groups) * (i + 1) - 1 + Min(i + 1, layers % groups)
  }

  function ConfigFor(layers: nat, groups: nat): Config
    requires 1 <= groups
  {
    Config(layers, groups, seq(groups, i requires 0 <= i => WindowEnd(layers, groups, i)))
  }

  lemma WindowStrictlyIncreasing(layers: nat, groups: nat, i: nat, j: nat)
    requires 1 <= groups <= layers && i < j
    ensures WindowEnd(layers, groups, i) + (j - i) <= WindowEnd(layers, groups, j)
  {
    var q := layers / groups;
    Distributes(q, i + 1, j - i);
    ProductMonotone(1, q, j - i);
  }

  lemma WindowBounds(layers: nat, groups: nat, i: nat)
    requires 1 <= groups <= layers && i < groups
    ensures i <= WindowEnd(layers, groups, i) < layers
    ensures WindowEnd(layers, groups, groups - 1) == layers - 1
    ensures groups < layers ==> i + 1 <= WindowEnd(layers, groups, i)
  {
    var q, r := layers / groups, layers % groups;
    assert layers == q * groups + r;
    if i < groups - 1 {
      WindowStrictlyIncreasing(layers, groups, i, groups - 1);
    }
    ProductMonotone(1, q, i + 1);
    if groups < layers {
      if q == 1 {
        assert r >= 1;
      } else {
        ProductMonotone(1, q - 1, i + 1);
      }
    }
  }

  /** The last window closes with the last layer, and (with a layer to spare) no group is due before it exists. */
  lemma WindowMapIsValid(layers: nat, groups: nat)
    requires 1 <= groups <= layers
    ensures ConfigFor(layers, groups).Valid() && ConfigFor(layers, groups).Increasing()
  {
    forall i | 0 <= i < groups
      ensures i <= WindowEnd(layers, groups, i) < layers
      ensures groups < layers ==> i + 1 <= WindowEnd(layers, groups, i)
    {
      WindowBounds(layers, groups, i);
    }
    WindowBounds(layers, groups, groups - 1);
    forall i, j | 0 <= i < j < groups
      ensures WindowEnd(layers, groups, i) < WindowEnd(layers, groups, j)
    {
      WindowStrictlyIncreasing(layers, groups, i, j);
    }
  }

  // ---------------------------------------------------------------- relations on states

  function Pushed(c: Config, s: State, t: Tensor): State {
    var tag := Tag(s.currentGroup, s.tensorCount);
    s.(tensorCount := s.tensorCount + 1,
       tags := s.tags[tag := OnDevice(t)],
       bufs := if s.currentGroup < c.groups then s.bufs[tag := Some(t)] else s.bufs)
  }

  function Popped(s: State, tag: Tag): State {
    s.(tags := s.tags - {tag}, bufs := s.bufs - {tag})
  }

  /** No tag of the group is already off the device. */
  predicate AllOnDevice(s: State, group: nat) {
    forall tag | tag in s.tags && tag.group == group :: s.tags[tag].OnDevice?
  }

  /** m holds one host copy per storage of the group, taken from some tensor in that storage. */
  ghost predicate IsBackup(s: State, group: nat, m: map<Key, HostCopy>)
    requires AllOnDevice(s, group)
  {
    && (forall tag | tag in s.tags && tag.group == group :: s.tags[tag].tensor.key in m)
    && (forall key | key in m ::
          exists tag | tag in s.tags && tag.group == group ::
            s.tags[tag].tensor.key == key && m[key] == HostCopy(key.dtype, s.tags[tag].tensor.flat))
  }

  function Dropped(saved: Saved): Saved {
    match saved
    case OnDevice(t) => OffDevice(t.key, t.shape)
    case OffDevice(_, _) => saved
  }

  function Offloaded(s: State, group: nat, m: map<Key, HostCopy>): State {
    s.(tags := map tag | tag in s.tags :: if tag.group == group then Dropped(s.tags[tag]) else s.tags[tag],
       backups := s.backups[group := m])
  }

  ghost predicate BulkOffload(s: State, group: nat, s': State)
    requires AllOnDevice(s, group)
  {
    && group in s'.backups
    && IsBackup(s, group, s'.backups[group])
    && s' == Offloaded(s, group, s'.backups[group])
  }

  /** Every tag of the group that is off the device can be restored from m. */
  predicate CanRestore(s: State, group: nat, m: map<Key, HostCopy>) {
    forall tag | tag in s.tags && tag.group == group && s.tags[tag].OffDevice? ::
      s.tags[tag].key in m && Numel(s.tags[tag].shape) == |m[s.tags[tag].key].flat|
  }

  predicate Recovered(saved: Saved, m: map<Key, HostCopy>, saved': Saved)
    requires saved.OffDevice? && saved.key in m
  {
    && saved'.OnDevice?
    && saved'.tensor.key.dtype == m[saved.key].dtype
    && saved'.tensor.shape == saved.shape
    && saved'.tensor.flat == m[saved.key].flat
  }

  ghost predicate BulkReload(s: State, group: nat, s': State)
    requires group in s.backups && CanRestore(s, group, s.backups[group])
  {
    && s' == s.(tags := s'.tags, backups := s.backups - {group})
    && s'.tags.Keys == s.tags.Keys
    && (forall tag | tag in s.tags ::
          if tag.group == group && s.tags[tag].OffDevice?
          then Recovered(s.tags[tag], s.backups[group], s'.tags[tag])
          else s'.tags[tag] == s.tags[tag])
    // tensors that shared a storage share one again
    && (forall tag, tag' |
          && tag in s.tags && tag.group == group && s.tags[tag].OffDevice?
          && tag' in s.tags && tag'.group == group && s.tags[tag'].OffDevice?
          && s.tags[tag].key == s.tags[tag'].key ::
          s'.tags[tag].tensor.key == s'.tags[tag'].tensor.key)
  }

  /** The current commit is the one that closes the window of the group being offloaded. */
  predicate WindowHit(c: Config, s: State)
    requires s.offloadedCount < |c.window|
  {
    c.window[s.offloadedCount] == s.currentGroup
  }

  /** What the forward commit takes for granted: no missing window, no assertion that fires. */
  predicate CanCommitForward(c: Config, s: State) {
    && s.offloadedCount < |c.window|
    && (s.currentGroup == 0 ==> AllOnDevice(s, 0))
    && (WindowHit(c, s) && s.offloadedCount < c.groups - 1 ==> AllOnDevice(s, s.offloadedCount + 1))
  }

  ghost predicate FirstOffload(s: State, s': State)
    requires s.currentGroup == 0 ==> AllOnDevice(s, 0)
  {
    if s.currentGroup == 0 then BulkOffload(s, 0, s') else s' == s
  }

  /** The references that kept the current offload group on the device are given up. */
  function Freed(s: State): State {
    s.(bufs := map tag | tag in s.bufs :: if tag.group == s.offloadedCount then None else s.bufs[tag])
  }

  ghost predicate NextOffload(c: Config, s: State, s': State)
    requires s.offloadedCount < |c.window|
    requires WindowHit(c, s) && s.offloadedCount < c.groups - 1 ==> AllOnDevice(s, s.offloadedCount + 1)
  {
    if !WindowHit(c, s) then s' == s
    else
      && s'.offloadedCount == s.offloadedCount + 1
      && var b := s'.(offloadedCount := s.offloadedCount);
         if s.offloadedCount < c.groups - 1 then BulkOffload(Freed(s), s.offloadedCount + 1, b) else b == Freed(s)
  }

  /** After the first commit's extra offload; backups holds the copies that it makes. */
  function AfterFirst(s: State, backups: map<nat, map<Key, HostCopy>>): State {
    if s.currentGroup == 0 && 0 in backups then Offloaded(s, 0, backups[0]) else s
  }

  ghost predicate CommitForward(c: Config, s: State, s': State)
    requires CanCommitForward(c, s)
  {
    var a, b := AfterFirst(s, s'.backups), s'.(currentGroup := s.currentGroup, tensorCount := s.tensorCount);
    && FirstOffload(s, a)
    && (WindowHit(c, a) && a.offloadedCount < c.groups - 1 ==> AllOnDevice(a, a.offloadedCount + 1))
    && NextOffload(c, a, b)
    && s'.currentGroup == s.currentGroup + 1
    && s'.tensorCount == 0
  }

  /** The group that the counter points at has to be back on the device. */
  predicate ReloadDue(c: Config, s: State)
    requires 1 <= s.offloadedCount <= |c.window|
  {
    c.window[s.offloadedCount - 1] == s.currentGroup
  }

  function Stepped(s: State): State
    requires 1 <= s.currentGroup
  {
    s.(currentGroup := s.currentGroup - 1)
  }

  predicate CanCommitBackward(c: Config, s: State) {
    && 1 <= s.currentGroup
    && 1 <= s.offloadedCount <= |c.window|
    && (ReloadDue(c, Stepped(s)) ==>
          && s.offloadedCount - 1 in s.backups
          && CanRestore(s, s.offloadedCount - 1, s.backups[s.offloadedCount - 1]))
  }

  ghost predicate Reloaded(c: Config, s: State, s': State)
    requires 1 <= s.offloadedCount <= |c.window|
    requires ReloadDue(c, s) ==>
               && s.offloadedCount - 1 in s.backups
               && CanRestore(s, s.offloadedCount - 1, s.backups[s.offloadedCount - 1])
  {
    if ReloadDue(c, s) then BulkReload(s, s.offloadedCount - 1, s') else s' == s
  }

  /** The counter moves down after a reload but stays at one until the first layer is reached. */
  function Settled(s: State, reloaded: bool): State {
    s.(offloadedCount := if s.currentGroup == 0 then 0
                         else if reloaded && s.offloadedCount > 1 then s.offloadedCount - 1
                         else s.offloadedCount)
  }

  ghost predicate CommitBackward(c: Config, s: State, s': State)
    requires CanCommitBackward(c, s)
  {
    exists a :: Reloaded(c, Stepped(s), a) && s' == Settled(a, ReloadDue(c, Stepped(s)))
  }

  // ---------------------------------------------------------------- the handler

  /** What a push hands back: the tensor itself when it is not tracked, or the tag to pop it by. */
  datatype Handle = Direct(tensor: Tensor) | Tracked(tag: Tag)

  class OffloadHandler {
    const config: Config
    /** tensor_need_offloading_checker */
    const checker: Tensor -> bool
    const layerWindowMap: map<int, int>

    var currentGroup: nat
    var tensorCountCurrentGroup: nat
    var offloadedGroupCount: nat
    var tensorTagToState: map<Tag, Saved>
    var tensorTagToBuf: map<Tag, Option<Tensor>>
    var groupOffloadMapping: map<nat, map<Key, HostCopy>>

    ghost predicate Valid() {
      && config.Valid()
      && (forall i :: i in layerWindowMap <==> 0 <= i < config.groups)
      && (forall i | 0 <= i < config.groups :: layerWindowMap[i] == config.window[i])
    }

    ghost function Abs(): State
      reads this
    {
      State(currentGroup, tensorCountCurrentGroup, offloadedGroupCount,
            tensorTagToState, tensorTagToBuf, groupOffloadMapping)
    }

    constructor (layers: nat, groups: nat, checker: Tensor -> bool)
      requires 1 <= groups <= layers
      ensures Valid() && config == ConfigFor(layers, groups) && this.checker == checker
      ensures Abs() == INITIAL
    {
      var windows: map<int, int> := map[];
      var extra := 0;
      for i := 0 to groups
        invariant extra == Min(i, layers % groups)
        invariant forall j :: j in windows <==> 0 <= j < i
        invariant forall j | 0 <= j < i :: windows[j] == WindowEnd(layers, groups, j)
      {
        var end := (layers / groups) * (i + 1) - 1;
        if i < layers % groups {
          end := end + i + 1;
          extra := i + 1;
        } else {
          end := end + extra;
        }
        windows := windows[i := end];
      }
      WindowMapIsValid(layers, groups);
      config := ConfigFor(layers, groups);
      this.checker := checker;
      layerWindowMap := windows;
      currentGroup, tensorCountCurrentGroup, offloadedGroupCount := 0, 0, 0;
      tensorTagToState, tensorTagToBuf, groupOffloadMapping := map[], map[], map[];
    }

    /** stray marks the fake and functional tensors that only exist while tracing. */
    method TensorPush(tensor: Tensor, stray: bool) returns (handle: Handle)
      requires Valid()
      requires Tag(currentGroup, tensorCountCurrentGroup) !in tensorTagToState
      modifies this
      ensures if !stray && checker(tensor)
              then handle == Tracked(old(Tag(currentGroup, tensorCountCurrentGroup)))
                   && Abs() == Pushed(config, old(Abs()), tensor)
              else handle == Direct(tensor) && Abs() == old(Abs())
    {
      if !stray && checker(tensor) {
        var tag := Tag(currentGroup, tensorCountCurrentGroup);
        tensorCountCurrentGroup := tensorCountCurrentGroup + 1;
        tensorTagToState := tensorTagToState[tag := OnDevice(tensor)];
        if currentGroup < config.groups {
          tensorTagToBuf := tensorTagToBuf[tag := Some(tensor)];
        }
        handle := Tracked(tag);
      } else {
        handle := Direct(tensor);
      }
    }

    method TensorPop(handle: Handle) returns (tensor: Tensor)
      requires Valid()
      requires handle.Tracked? ==> handle.tag in tensorTagToState && tensorTagToState[handle.tag].OnDevice?
      modifies this
      ensures match handle
              case Direct(t) => tensor == t && Abs() == old(Abs())
              case Tracked(tag) => old(tensorTagToState)[tag] == OnDevice(tensor) && Abs() == Popped(old(Abs()), tag)
    {
      match handle
      case Direct(t) =>
        tensor := t;
      case Tracked(tag) =>
        tensor := tensorTagToState[tag].tensor;
        tensorTagToState := tensorTagToState - {tag};
        tensorTagToBuf := tensorTagToBuf - {tag};
    }

    /** The host copies of a group, one per storage. */
    static method Offload(mapping: map<Key, Tensor>) returns (copies: map<Key, HostCopy>)
      ensures copies == map key | key in mapping :: HostCopy(mapping[key].key.dtype, mapping[key].flat)
    {
      copies := map[];
      var keys := mapping.Keys;
      while keys != {}
        invariant keys <= mapping.Keys
        invariant copies.Keys == mapping.Keys - keys
        invariant forall key | key in copies :: copies[key] == HostCopy(mapping[key].key.dtype, mapping[key].flat)
      {
        var key :| key in keys;
        keys := keys - {key};
        copies := copies[key := HostCopy(mapping[key].key.dtype, mapping[key].flat)];
      }
    }

    /** The first loop of bulk_offload_group: leave a (key, shape) pair in every tag of the group. */
    method DropGroup(group: nat) returns (mapping: map<Key, Tensor>, ghost owner: map<Key, Tag>)
      requires AllOnDevice(Abs(), group)
      modifies `tensorTagToState
      ensures tensorTagToState ==
              map tag | tag in old(tensorTagToState) ::
                if tag.group == group then Dropped(old(tensorTagToState)[tag]) else old(tensorTagToState)[tag]
      ensures forall tag | tag in old(tensorTagToState) && tag.group == group ::
                old(tensorTagToState)[tag].tensor.key in mapping
      ensures owner.Keys == mapping.Keys
      ensures forall key | key in owner ::
                && owner[key] in old(tensorTagToState) && owner[key].group == group
                && old(tensorTagToState)[owner[key]] == OnDevice(mapping[key]) && mapping[key].key == key
    {
      ghost var tags := tensorTagToState;
      mapping, owner := map[], map[];
      var rest := tensorTagToState.Keys;
      while rest != {}
        invariant rest <= tags.Keys
        invariant tensorTagToState.Keys == tags.Keys
        invariant forall tag | tag in tags :: tensorTagToState[tag] ==
                    if tag.group == group && tag !in rest then Dropped(tags[tag]) else tags[tag]
        invariant forall tag | tag in tags && tag.group == group && tag !in rest :: tags[tag].tensor.key in mapping
        invariant owner.Keys == mapping.Keys
        invariant forall key | key in owner ::
                    && owner[key] in tags && owner[key].group == group
                    && tags[owner[key]] == OnDevice(mapping[key]) && mapping[key].key == key
      {
        var tag :| tag in rest;
        rest := rest - {tag};
        if tag.group == group {
          var tensor := tensorTagToState[tag].tensor;
          if tensor.key !in mapping {
            mapping := mapping[tensor.key := tensor];
            owner := owner[tensor.key := tag];
          }
          tensorTagToState := tensorTagToState[tag := OffDevice(tensor.key, tensor.shape)];
        }
      }
    }

    method BulkOffloadGroup(group: nat)
      requires Valid() && AllOnDevice(Abs(), group)
      modifies this
      ensures BulkOffload(old(Abs()), group, Abs())
    {
      ghost var s := Abs();
      var mapping, owner := DropGroup(group);
      var copies := Offload(mapping);
      groupOffloadMapping := groupOffloadMapping[group := copies];
      assert IsBackup(s, group, copies) by {
        forall key | key in copies
          ensures exists tag | tag in s.tags && tag.group == group ::
                    s.tags[tag].tensor.key == key && copies[key] == HostCopy(key.dtype, s.tags[tag].tensor.flat)
        {
          assert s.tags[owner[key]].tensor.key == key;
        }
      }
    }

    method BulkReloadGroup(group: nat)
      requires Valid() && group < config.groups
      requires group in groupOffloadMapping && CanRestore(Abs(), group, groupOffloadMapping[group])
      modifies this
      ensures BulkReload(old(Abs()), group, Abs())
    {
      ghost var s := Abs();
      var copies := groupOffloadMapping[group];
      groupOffloadMapping := groupOffloadMapping - {group};
      var recovered: map<Key, Tensor> := map[];
      var keys := copies.Keys;
      while keys != {}
        invariant keys <= copies.Keys
        invariant recovered.Keys == copies.Keys - keys
        invariant forall key | key in recovered ::
                    recovered[key].key.dtype == copies[key].dtype && recovered[key].flat == copies[key].flat
      {
        var key :| key in keys;
        keys := keys - {key};
        var address: int := *;  // wherever the device allocator puts it
        recovered := recovered[key := Tensor(Key(address, copies[key].dtype), [], copies[key].flat)];
      }
      var rest := tensorTagToState.Keys;
      while rest != {}
        invariant rest <= s.tags.Keys
        invariant Abs() == s.(tags := tensorTagToState, backups := s.backups - {group})
        invariant tensorTagToState.Keys == s.tags.Keys
        invariant forall tag | tag in s.tags :: tensorTagToState[tag] ==
                    if tag.group == group && s.tags[tag].OffDevice? && tag !in rest
                    then OnDevice(recovered[s.tags[tag].key].(shape := s.tags[tag].shape))
                    else s.tags[tag]
      {
        var tag :| tag in rest;
        rest := rest - {tag};
        if tag.group == group && tensorTagToState[tag].OffDevice? {
          var OffDevice(key, shape) := tensorTagToState[tag];
          tensorTagToState := tensorTagToState[tag := OnDevice(recovered[key].(shape := shape))];
        }
      }
    }

    /** Give up the references to the tensors of the group that has been copied. */
    method FreeBufs()
      modifies `tensorTagToBuf
      ensures Abs() == Freed(old(Abs()))
    {
      var bufs := tensorTagToBuf;
      var rest := bufs.Keys;
      while rest != {}
        invariant rest <= bufs.Keys == tensorTagToBuf.Keys
        invariant forall tag | tag in bufs :: tensorTagToBuf[tag] ==
                    if tag.group == offloadedGroupCount && tag !in rest then None else bufs[tag]
      {
        var tag :| tag in rest;
        rest := rest - {tag};
        if tag.group == offloadedGroupCount {
          tensorTagToBuf := tensorTagToBuf[tag := None];
        }
      }
    }

    /** synchronize_on_group_commit_forward for the current group, from the test of the window on. */
    method PassWindow()
      requires Valid() && offloadedGroupCount < config.groups
      requires WindowHit(config, Abs()) && offloadedGroupCount < config.groups - 1 ==>
                 AllOnDevice(Abs(), offloadedGroupCount + 1)
      modifies this
      ensures NextOffload(config, old(Abs()), Abs())
      ensures currentGroup == old(currentGroup) && tensorCountCurrentGroup == old(tensorCountCurrentGroup)
      ensures forall g | g in groupOffloadMapping && g != old(offloadedGroupCount) + 1 ::
                g in old(groupOffloadMapping) && groupOffloadMapping[g] == old(groupOffloadMapping)[g]
      ensures forall g | g in old(groupOffloadMapping) :: g in groupOffloadMapping
    {
      if layerWindowMap[offloadedGroupCount] == currentGroup {
        FreeBufs();
        if offloadedGroupCount < config.groups - 1 {
          BulkOffloadGroup(offloadedGroupCount + 1);
        }
        offloadedGroupCount := offloadedGroupCount + 1;
      }
    }

    method OnGroupCommitForward()
      requires Valid() && CanCommitForward(config, Abs())
      modifies this
      ensures CommitForward(config, old(Abs()), Abs())
    {
      if currentGroup == 0 {
        BulkOffloadGroup(currentGroup);
      }
      ghost var a := Abs();
      PassWindow();
      ghost var b := Abs();
      assert a == AfterFirst(old(Abs()), b.backups);
      currentGroup := currentGroup + 1;
      tensorCountCurrentGroup := 0;
      assert b == Abs().(currentGroup := b.currentGroup, tensorCount := b.tensorCount);
    }

    method OnGroupCommitBackward()
      requires Valid() && CanCommitBackward(config, Abs())
      modifies this
      ensures CommitBackward(config, old(Abs()), Abs())
    {
      currentGroup := currentGroup - 1;
      ghost var s := Abs();
      assert s == Stepped(old(Abs()));
      var due := layerWindowMap[offloadedGroupCount - 1] == currentGroup;
      if due {
        BulkReloadGroup(offloadedGroupCount - 1);
      }
      ghost var a := Abs();
      assert Reloaded(config, s, a);
      if due {
        offloadedGroupCount := offloadedGroupCount - (if offloadedGroupCount > 1 then 1 else 0);
      }
      if currentGroup == 0 {
        offloadedGroupCount := 0;
      }
      assert Abs() == Settled(a, due);
    }
  }
}
