/** For which numbers of offload groups at most two groups are on the device at any time. */
module OffloadBound {
  import opened Options
  import opened Shapes
  import opened OffloadWindow
  import opened OffloadModel
  import opened OffloadProofs
  import opened OffloadRuns

  ghost predicate AtMostTwo(h: Handler) {
    forall a: nat, b: nat, c: nat :: OnDeviceGroup(h, a) && OnDeviceGroup(h, b) && OnDeviceGroup(h, c)
      ==> a == b || b == c || a == c
  }

  ghost predicate TwoInEveryRun(layers: nat, groups: nat) {
    forall actions :: LegalRun(layers, groups, START, actions) ==>
      Run(layers, groups, START, actions).Some? && AtMostTwo(Run(layers, groups, START, actions).value.h)
  }

  // ---------------------------------------------------------------- a run that fills the device

  /** A tensor of one element under a key of its own. */
  function Own(g: nat): (t: Tensor)
    ensures t.Valid()
  {
    assert Numel([]) == 1;
    Tensor(g, [], [0])
  }

  function PushOwn(g: nat): Action {
    PushTensor(Own(g), true)
  }

  /** One tensor in each of the first k layers. */
  function Rounds(k: nat): seq<Action> {
    if k == 0 then [] else Rounds(k - 1) + [PushOwn(k - 1)] + [ForwardCommit]
  }

  lemma {:induction false} RunAppend(layers: nat, groups: nat, s: System, actions: seq<Action>, a: Action)
    requires LegalRun(layers, groups, s, actions) && Run(layers, groups, s, actions).Some?
    requires var m := Run(layers, groups, s, actions).value; Legal(layers, m, a) && Next(layers, groups, m, a).Some?
    ensures LegalRun(layers, groups, s, actions + [a])
    ensures var m := Run(layers, groups, s, actions).value;
            Run(layers, groups, s, actions + [a]) == Some(Next(layers, groups, m, a).value.0)
    decreases |actions|
  {
    var all := actions + [a];
    if actions == [] {
      assert all == [a] && all[1..] == [];
    } else {
      assert all[0] == actions[0] && all[1..] == actions[1..] + [a];
      RunAppend(layers, groups, Next(layers, groups, s, actions[0]).value.0, actions[1..], a);
    }
  }

  ghost predicate HasGroup(saved: map<Tag, Tensor>, g: nat) {
    exists tag :: tag in saved && tag.group == g
  }

  /** Buffered tensors are let go group by group. */
  ghost predicate BufKept(h: Handler) {
    forall tag :: tag in h.buf && tag.group >= h.offloaded ==> h.buf[tag].Some?
  }

  /** In the forward pass: layer k is the current one, and the layers below n have saved something. */
  ghost predicate Filled(layers: nat, groups: nat, s: System, k: nat, n: nat) {
    && Inv(layers, groups, s) && s.pass.forward && s.pass.group == k && BufKept(s.h)
    && (forall tag :: tag in s.pass.saved ==> tag.group < n)
    && (forall g: nat :: g < n ==> HasGroup(s.pass.saved, g))
  }

  lemma SavesOneMore(saved: map<Tag, Tensor>, more: map<Tag, Tensor>, tag: Tag, t: Tensor, k: nat)
    requires forall x :: x in saved ==> x.group < k
    requires forall g: nat :: g < k ==> HasGroup(saved, g)
    requires tag.group == k && more == saved[tag := t]
    ensures forall x :: x in more ==> x.group < k + 1
    ensures forall g: nat :: g < k + 1 ==> HasGroup(more, g)
  {
    forall g: nat | g < k + 1
      ensures HasGroup(more, g)
    {
      if g < k {
        assert HasGroup(saved, g);
        var was :| was in saved && was.group == g;
        assert was in more;
      } else {
        assert tag in more;
      }
    }
  }

  lemma PushKeepsBuf(groups: nat, h: Handler, t: Tensor)
    requires BufKept(h) && Push(groups, h, t, true).Some?
    ensures Push(groups, h, t, true).value.1 == Tagged(Tag(h.current, h.count))
    ensures BufKept(Push(groups, h, t, true).value.0)
  {
  }

  lemma PushFills(layers: nat, groups: nat, s: System, k: nat)
    requires 1 <= groups <= layers && k < layers && Filled(layers, groups, s, k, k)
    ensures Legal(layers, s, PushOwn(k)) && Next(layers, groups, s, PushOwn(k)).Some?
    ensures Filled(layers, groups, Next(layers, groups, s, PushOwn(k)).value.0, k, k + 1)
  {
    assert Legal(layers, s, PushOwn(k));
    StepKeeps(layers, groups, s, PushOwn(k));
    PushKeepsBuf(groups, s.h, Own(k));
    var saved := Next(layers, groups, s, PushOwn(k)).value.0.pass.saved;
    SavesOneMore(s.pass.saved, saved, Tag(s.h.current, s.h.count), Own(k), k);
  }

  lemma CommitFills(layers: nat, groups: nat, s: System, k: nat)
    requires 1 <= groups <= layers && k < layers && Filled(layers, groups, s, k, k + 1)
    ensures Legal(layers, s, ForwardCommit) && Next(layers, groups, s, ForwardCommit).Some?
    ensures Filled(layers, groups, Next(layers, groups, s, ForwardCommit).value.0, k + 1, k + 1)
  {
    StepKeeps(layers, groups, s, ForwardCommit);
    CommitKeepsBuf(layers, groups, s.h);
  }

  lemma CommitKeepsBuf(layers: nat, groups: nat, h: Handler)
    requires BufKept(h) && CommitForward(layers, groups, h).Some?
    ensures BufKept(CommitForward(layers, groups, h).value)
  {
  }

  lemma {:induction false} RoundsFill(layers: nat, groups: nat, k: nat)
    requires 1 <= groups <= layers && k < layers
    ensures LegalRun(layers, groups, START, Rounds(k)) && Run(layers, groups, START, Rounds(k)).Some?
    ensures Filled(layers, groups, Run(layers, groups, START, Rounds(k)).value, k, k)
  {
    StartOk(layers, groups);
    if k > 0 {
      RoundsFill(layers, groups, k - 1);
      var s := Run(layers, groups, START, Rounds(k - 1)).value;
      PushFills(layers, groups, s, k - 1);
      RunAppend(layers, groups, START, Rounds(k - 1), PushOwn(k - 1));
      CommitFills(layers, groups, Next(layers, groups, s, PushOwn(k - 1)).value.0, k - 1);
      RunAppend(layers, groups, START, Rounds(k - 1) + [PushOwn(k - 1)], ForwardCommit);
    }
  }

  /** The run up to the last forward commit. */
  function FullRun(layers: nat): seq<Action>
    requires layers > 0
  {
    Rounds(layers - 1) + [PushOwn(layers - 1)]
  }

  lemma FullRunFills(layers: nat, groups: nat)
    requires 1 <= groups <= layers
    ensures LegalRun(layers, groups, START, FullRun(layers)) && Run(layers, groups, START, FullRun(layers)).Some?
    ensures Filled(layers, groups, Run(layers, groups, START, FullRun(layers)).value, layers - 1, layers)
  {
    RoundsFill(layers, groups, layers - 1);
    PushFills(layers, groups, Run(layers, groups, START, Rounds(layers - 1)).value, layers - 1);
    RunAppend(layers, groups, START, Rounds(layers - 1), PushOwn(layers - 1));
  }

  /** Only the last window is still ahead. */
  lemma PassedBeforeLast(layers: nat, groups: nat)
    requires 1 <= groups <= layers
    ensures Passed(layers, groups, layers - 1) == groups - 1
  {
    WindowEndsAtLastLayer(layers, groups);
    var m := Passed(layers, groups, layers - 1);
    if m < groups - 1 { WindowIncreasing(layers, groups, m, groups - 1); }
  }

  lemma SavedStaysOnDevice(layers: nat, groups: nat, s: System, g: nat)
    requires 1 <= groups <= layers && Inv(layers, groups, s) && HasGroup(s.pass.saved, g)
    requires g >= groups || (groups == layers && g > 0 && OnlyGroupZeroLeaves(s.h))
    ensures OnDeviceGroup(s.h, g)
  {
    var tag :| tag in s.pass.saved && tag.group == g;
    assert HasTag(s.h.entries, tag);
    var i := Position(s.h.entries, tag);
    assert s.h.entries[i].tag == tag;
    assert StandsFor(s.h.mapping, s.pass.forward, s.h.entries[i], s.pass.saved[tag]);
  }

  lemma LastGroupIsBuffered(layers: nat, groups: nat, s: System)
    requires 1 <= groups <= layers && Filled(layers, groups, s, layers - 1, layers)
    ensures OnDeviceGroup(s.h, groups - 1)
  {
    PassedBeforeLast(layers, groups);
    assert HasGroup(s.pass.saved, groups - 1);
    var tag :| tag in s.pass.saved && tag.group == groups - 1;
    assert tag in s.h.buf;
  }

  lemma MoreThanTwo(layers: nat, groups: nat)
    requires 1 <= groups <= layers && (groups + 2 <= layers || (groups == layers && layers >= 4))
    ensures !TwoInEveryRun(layers, groups)
  {
    FullRunFills(layers, groups);
    var s := Run(layers, groups, START, FullRun(layers)).value;
    assert HasGroup(s.pass.saved, layers - 1) && HasGroup(s.pass.saved, layers - 2);
    if groups == layers {
      StartOk(layers, groups);
      OnlyGroupZeroIsOffloaded(layers, START, FullRun(layers));
      assert HasGroup(s.pass.saved, layers - 3);
      SavedStaysOnDevice(layers, groups, s, layers - 3);
    } else {
      LastGroupIsBuffered(layers, groups, s);
    }
    SavedStaysOnDevice(layers, groups, s, layers - 1);
    SavedStaysOnDevice(layers, groups, s, layers - 2);
  }

  // ---------------------------------------------------------------- as many groups as layers

  /** After layer 0 its group is on the host until the run is back at it. */
  ghost predicate FirstIsAway(layers: nat, s: System) {
    && (forall tag :: tag in s.pass.saved ==> tag.group < layers)
    && (s.pass.group > 0 ==> FirstOnHost(s.h.entries))
  }

  lemma ForwardSendsFirst(layers: nat, s: System)
    requires 1 <= layers && Inv(layers, layers, s) && FirstIsAway(layers, s) && Legal(layers, s, ForwardCommit)
    requires Next(layers, layers, s, ForwardCommit).Some?
    ensures FirstIsAway(layers, Next(layers, layers, s, ForwardCommit).value.0)
  {
    SynchronizeSendsFirst(layers, s.h);
  }

  ghost predicate FirstOnHost(entries: seq<Entry>) {
    forall i :: 0 <= i < |entries| && entries[i].tag.group == 0 ==> entries[i].saved.OnHost?
  }

  lemma SynchronizeSendsFirst(layers: nat, h: Handler)
    requires (h.current > 0 ==> FirstOnHost(h.entries)) && Synchronize(layers, layers, h).Some?
    ensures FirstOnHost(Synchronize(layers, layers, h).value.entries)
  {
    var first := if h.current == 0 then BulkOffload(h, 0).value else h;
    assert FirstOnHost(first.entries);
  }

  lemma BackwardFetchesFirst(layers: nat, s: System)
    requires 1 <= layers && Inv(layers, layers, s) && FirstIsAway(layers, s) && Legal(layers, s, BackwardCommit)
    requires Next(layers, layers, s, BackwardCommit).Some?
    ensures FirstIsAway(layers, Next(layers, layers, s, BackwardCommit).value.0)
  {
    WindowIdentity(layers, s.h.offloaded - 1);
  }

  lemma StepKeepsFirstAway(layers: nat, s: System, a: Action)
    requires 1 <= layers && Inv(layers, layers, s) && FirstIsAway(layers, s) && Legal(layers, s, a)
    requires Next(layers, layers, s, a).Some?
    ensures FirstIsAway(layers, Next(layers, layers, s, a).value.0)
  {
    match a
    case PushTensor(t, need) =>
    case PopTensor(handle) =>
    case ForwardCommit => ForwardSendsFirst(layers, s);
    case BackwardCommit => BackwardFetchesFirst(layers, s);
    case NewPass =>
  }

  lemma {:induction false} RunsKeepFirstAway(layers: nat, s: System, actions: seq<Action>)
    requires 1 <= layers && Inv(layers, layers, s) && FirstIsAway(layers, s) && LegalRun(layers, layers, s, actions)
    ensures Run(layers, layers, s, actions).Some?
    ensures Inv(layers, layers, Run(layers, layers, s, actions).value)
    ensures FirstIsAway(layers, Run(layers, layers, s, actions).value)
    decreases |actions|
  {
    if actions != [] {
      StepKeeps(layers, layers, s, actions[0]);
      StepKeepsFirstAway(layers, s, actions[0]);
      RunsKeepFirstAway(layers, Next(layers, layers, s, actions[0]).value.0, actions[1..]);
    }
  }

  /** The groups on the device are group 0 alone, or some of the groups 1 to L - 1. */
  lemma OnDeviceWithAllGroups(layers: nat, s: System, g: nat)
    requires 1 <= layers && Inv(layers, layers, s) && FirstIsAway(layers, s) && OnDeviceGroup(s.h, g)
    ensures if s.pass.group == 0 then g == 0 else 0 < g < layers
  {
    PassedIdentity(layers, s.pass.group);
    var h, p := s.h, s.pass;
    if i :| 0 <= i < |h.entries| && h.entries[i].tag.group == g && h.entries[i].saved.OnDevice? {
      assert h.entries[i].tag in p.saved;
    } else {
      var tag :| tag in h.buf && tag.group == g && h.buf[tag].Some?;
      assert tag in p.saved;
    }
  }

  // ---------------------------------------------------------------- exactly when

  lemma TwoAsUsed(layers: nat, groups: nat)
    requires layers >= 2 && groups == layers - 1
    ensures TwoInEveryRun(layers, groups)
  {
    forall actions | LegalRun(layers, groups, START, actions)
      ensures Run(layers, groups, START, actions).Some?
      ensures AtMostTwo(Run(layers, groups, START, actions).value.h)
    {
      RunsNeverFail(layers, groups, actions);
      var s := Run(layers, groups, START, actions).value;
      forall g: nat | OnDeviceGroup(s.h, g)
        ensures g == s.pass.group || g + 1 == s.pass.group
      {
        AtMostTwoGroupsInAnyRun(layers, actions, g);
      }
    }
  }

  lemma TwoWithFewLayers(layers: nat)
    requires 1 <= layers <= 3
    ensures TwoInEveryRun(layers, layers)
  {
    forall actions: seq<Action> | LegalRun(layers, layers, START, actions)
      ensures Run(layers, layers, START, actions).Some?
      ensures AtMostTwo(Run(layers, layers, START, actions).value.h)
    {
      StartOk(layers, layers);
      RunsKeepFirstAway(layers, START, actions);
      var s := Run(layers, layers, START, actions).value;
      forall g: nat | OnDeviceGroup(s.h, g)
        ensures if s.pass.group == 0 then g == 0 else 0 < g < layers
      {
        OnDeviceWithAllGroups(layers, s, g);
      }
    }
  }

  /** At most two groups are on the device in every legal run if and only if there is one group fewer than
      layers, as the code sets it up, or there are as many and at most three. */
  lemma TwoGroupsExactly(layers: nat, groups: nat)
    requires 1 <= groups <= layers
    ensures TwoInEveryRun(layers, groups) <==> groups == layers - 1 || (groups == layers && layers <= 3)
  {
    if groups == layers - 1 {
      TwoAsUsed(layers, groups);
    } else if groups == layers && layers <= 3 {
      TwoWithFewLayers(layers);
    } else {
      MoreThanTwo(layers, groups);
    }
  }
}
