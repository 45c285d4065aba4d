/** The results about whole runs of the offload handler. */
module OffloadRuns {
  import opened Options
  import opened OffloadWindow
  import opened OffloadModel
  import opened OffloadProofs

  /** Every action is legal in the state the handler has got to. */
  ghost predicate LegalRun(layers: nat, groups: nat, s: System, actions: seq<Action>)
    decreases |actions|
  {
    actions != [] ==>
      && Legal(layers, s, actions[0])
      && (Next(layers, groups, s, actions[0]).Some? ==>
            LegalRun(layers, groups, Next(layers, groups, s, actions[0]).value.0, actions[1..]))
  }

  function Run(layers: nat, groups: nat, s: System, actions: seq<Action>): Option<System>
    decreases |actions|
  {
    if actions == [] then Some(s)
    else
      var r := Next(layers, groups, s, actions[0]);
      if r.None? then None else Run(layers, groups, r.value.0, actions[1..])
  }

  lemma {:induction false} RunsFrom(layers: nat, groups: nat, s: System, actions: seq<Action>)
    requires 1 <= groups <= layers && Inv(layers, groups, s) && LegalRun(layers, groups, s, actions)
    ensures Run(layers, groups, s, actions).Some? && Inv(layers, groups, Run(layers, groups, s, actions).value)
    decreases |actions|
  {
    if actions != [] {
      StepKeeps(layers, groups, s, actions[0]);
      RunsFrom(layers, groups, Next(layers, groups, s, actions[0]).value.0, actions[1..]);
    }
  }

  /** No assertion fails and no lookup misses in any sequence of passes, for any number of groups up to the
      number of layers; and between two passes the handler is as it was at the start. */
  lemma RunsNeverFail(layers: nat, groups: nat, actions: seq<Action>)
    requires 1 <= groups <= layers && LegalRun(layers, groups, START, actions)
    ensures Run(layers, groups, START, actions).Some?
    ensures var s := Run(layers, groups, START, actions).value;
            !s.pass.forward && s.pass.group == 0 && s.pass.saved == map[] ==> s.h == INITIAL
  {
    StartOk(layers, groups);
    RunsFrom(layers, groups, START, actions);
    var s := Run(layers, groups, START, actions).value;
    if !s.pass.forward && s.pass.group == 0 && s.pass.saved == map[] {
      PassEndsInitially(layers, groups, s);
    }
  }

  /** After any run, popping a saved tensor of the current group gives back its shape and elements. */
  lemma PopsReturnWhatWasPushed(layers: nat, groups: nat, actions: seq<Action>, tag: Tag)
    requires 1 <= groups <= layers && LegalRun(layers, groups, START, actions)
    requires Run(layers, groups, START, actions).Some?
    requires Legal(layers, Run(layers, groups, START, actions).value, PopTensor(Tagged(tag)))
    ensures var s := Run(layers, groups, START, actions).value;
            var r := Next(layers, groups, s, PopTensor(Tagged(tag)));
            && r.Some? && r.value.1.Some?
            && r.value.1.value.shape == s.pass.saved[tag].shape && r.value.1.value.flat == s.pass.saved[tag].flat
  {
    StartOk(layers, groups);
    RunsFrom(layers, groups, START, actions);
    PopKeeps(layers, groups, Run(layers, groups, START, actions).value, tag);
  }

  /** A tensor that is not offloaded comes back from any later state of the run as it was pushed, and neither
      its push nor its pop changes anything. */
  lemma DirectTensorsComeBack(layers: nat, groups: nat, actions: seq<Action>, t: Tensor, more: seq<Action>)
    requires 1 <= groups <= layers && LegalRun(layers, groups, START, actions)
    requires Run(layers, groups, START, actions).Some?
    requires LegalRun(layers, groups, Run(layers, groups, START, actions).value, more)
    ensures var s := Run(layers, groups, START, actions).value;
            Next(layers, groups, s, PushTensor(t, false)) == Some((s, None)) && Run(layers, groups, s, more).Some?
    ensures var s := Run(layers, groups, START, actions).value;
            var handle, later := Push(groups, s.h, t, false).value.1, Run(layers, groups, s, more).value;
            && Legal(layers, later, PopTensor(handle))
            && Next(layers, groups, later, PopTensor(handle)) == Some((later, Some(t)))
  {
    StartOk(layers, groups);
    RunsFrom(layers, groups, START, actions);
    var s := Run(layers, groups, START, actions).value;
    DirectPassesThrough(groups, s.h, t, s.h);
    RunsFrom(layers, groups, s, more);
    DirectPassesThrough(groups, s.h, t, Run(layers, groups, s, more).value.h);
  }

  // ---------------------------------------------------------------- what is on the host, and when

  /** A backward commit reloads exactly the group whose window is the layer it returns to. */
  lemma ReloadedAtItsWindow(layers: nat, groups: nat, s: System, g: nat)
    requires 1 <= groups <= layers && Inv(layers, groups, s) && Legal(layers, s, BackwardCommit) && g < groups
    ensures Next(layers, groups, s, BackwardCommit).Some?
    ensures var s' := Next(layers, groups, s, BackwardCommit).value.0;
            g in s.h.mapping && g !in s'.h.mapping <==> Window(layers, groups, g) == s'.pass.group
    ensures g in Next(layers, groups, s, BackwardCommit).value.0.h.mapping ==> g in s.h.mapping
  {
    BackwardKeeps(layers, groups, s);
    BackwardCounts(layers, groups, s.pass);
    var m := Passed(layers, groups, s.pass.group);
    if g < m - 1 { WindowIncreasing(layers, groups, g, m - 1); }
    if m <= g { assert Window(layers, groups, g) >= s.pass.group; }
  }

  /** The handler keeps tensors of the group on the device. */
  ghost predicate OnDeviceGroup(h: Handler, g: nat) {
    || (exists i :: 0 <= i < |h.entries| && h.entries[i].tag.group == g && h.entries[i].saved.OnDevice?)
    || (exists tag :: tag in h.buf && tag.group == g && h.buf[tag].Some?)
  }

  lemma PassedAsUsed(layers: nat, g: nat)
    requires layers >= 2 && g <= layers
    ensures Passed(layers, layers - 1, g) == if g <= 1 then 0 else g - 1
  {
    var m := Passed(layers, layers - 1, g);
    if m > 0 { WindowAsUsed(layers, m - 1); }
    if m < layers - 1 { WindowAsUsed(layers, m); }
  }

  /** With one group fewer than layers, as the code sets it up, the handler holds at most two groups on the
      device at any time: the current one and the one before. */
  lemma AtMostTwoGroupsOnDevice(layers: nat, s: System, g: nat)
    requires layers >= 2 && Inv(layers, layers - 1, s) && OnDeviceGroup(s.h, g)
    ensures g == s.pass.group || g + 1 == s.pass.group
  {
    PassedAsUsed(layers, s.pass.group);
    var h, p := s.h, s.pass;
    if i :| 0 <= i < |h.entries| && h.entries[i].tag.group == g && h.entries[i].saved.OnDevice? {
      assert h.entries[i].tag in p.saved;
    } else {
      var tag :| tag in h.buf && tag.group == g && h.buf[tag].Some?;
      assert tag in p.saved;
    }
  }

  lemma AtMostTwoGroupsInAnyRun(layers: nat, actions: seq<Action>, g: nat)
    requires layers >= 2 && LegalRun(layers, layers - 1, START, actions)
    ensures Run(layers, layers - 1, START, actions).Some?
    ensures var s := Run(layers, layers - 1, START, actions).value;
            OnDeviceGroup(s.h, g) ==> g == s.pass.group || g + 1 == s.pass.group
  {
    StartOk(layers, layers - 1);
    RunsFrom(layers, layers - 1, START, actions);
    var s := Run(layers, layers - 1, START, actions).value;
    if OnDeviceGroup(s.h, g) { AtMostTwoGroupsOnDevice(layers, s, g); }
  }

  // ---------------------------------------------------------------- as many groups as layers

  ghost predicate OnlyGroupZeroLeaves(h: Handler) {
    forall i :: 0 <= i < |h.entries| && h.entries[i].tag.group > 0 ==> h.entries[i].saved.OnDevice?
  }

  lemma PassedIdentity(layers: nat, g: nat)
    requires 0 < layers && g <= layers
    ensures Passed(layers, layers, g) == g
  {
    var m := Passed(layers, layers, g);
    if m > 0 { WindowIdentity(layers, m - 1); }
    WindowIdentity(layers, m);
  }

  lemma WindowIdentity(layers: nat, i: nat)
    requires 0 < layers
    ensures Window(layers, layers, i) == i
  {
    assert layers / layers == 1 && layers % layers == 0;
  }

  lemma NothingYetToOffload(h: Handler, p: Pass, group: nat)
    requires EntriesOk(h.entries, h.mapping, p) && SavedOk(h, p) && p.group < group
    ensures AllToHost(h.entries, group) == h.entries
  {
    forall i | 0 <= i < |h.entries|
      ensures h.entries[i].tag.group <= p.group
    {
      assert h.entries[i].tag in p.saved;
    }
  }

  lemma ForwardLeavesOnlyGroupZero(layers: nat, h: Handler, p: Pass)
    requires 1 <= layers && p.forward && p.group < layers && CountersOk(layers, layers, h, p)
    requires Moved(layers, layers, h, p, HostCount(layers, layers, p)) && OnlyGroupZeroLeaves(h)
    requires Synchronize(layers, layers, h).Some?
    ensures OnlyGroupZeroLeaves(Synchronize(layers, layers, h).value)
  {
    PassedIdentity(layers, p.group);
    FirstOffload(layers, layers, h, p);
    var first := if h.current == 0 then BulkOffload(h, 0).value else h;
    assert OnlyGroupZeroLeaves(first);
    NothingYetToOffload(first, p, h.offloaded + 1);
  }

  lemma PopLeavesOnlyGroupZero(h: Handler, tag: Tag)
    requires OnlyGroupZeroLeaves(h) && Pop(h, Tagged(tag)).Some?
    ensures OnlyGroupZeroLeaves(Pop(h, Tagged(tag)).value.0)
  {
  }

  lemma PushLeavesOnlyGroupZero(groups: nat, h: Handler, t: Tensor)
    requires OnlyGroupZeroLeaves(h) && Push(groups, h, t, true).Some?
    ensures OnlyGroupZeroLeaves(Push(groups, h, t, true).value.0)
  {
  }

  lemma BackwardLeavesOnlyGroupZero(layers: nat, h: Handler)
    requires OnlyGroupZeroLeaves(h) && CommitBackward(layers, layers, h).Some?
    ensures OnlyGroupZeroLeaves(CommitBackward(layers, layers, h).value)
  {
  }

  lemma StepLeavesOnlyGroupZero(layers: nat, s: System, a: Action)
    requires 1 <= layers && Inv(layers, layers, s) && Legal(layers, s, a) && OnlyGroupZeroLeaves(s.h)
    requires Next(layers, layers, s, a).Some?
    ensures OnlyGroupZeroLeaves(Next(layers, layers, s, a).value.0.h)
  {
    match a
    case PushTensor(t, need) => if need { PushLeavesOnlyGroupZero(layers, s.h, t); }
    case PopTensor(handle) => if handle.Tagged? { PopLeavesOnlyGroupZero(s.h, handle.tag); }
    case ForwardCommit => ForwardLeavesOnlyGroupZero(layers, s.h, s.pass);
    case BackwardCommit => BackwardLeavesOnlyGroupZero(layers, s.h);
    case NewPass =>
  }

  /** With as many groups as layers a group is offloaded before its layer has run: every group but the first
      stays on the device throughout. */
  lemma {:induction false} OnlyGroupZeroIsOffloaded(layers: nat, s: System, actions: seq<Action>)
    requires 1 <= layers && Inv(layers, layers, s) && LegalRun(layers, layers, s, actions) && OnlyGroupZeroLeaves(s.h)
    ensures Run(layers, layers, s, actions).Some? && OnlyGroupZeroLeaves(Run(layers, layers, s, actions).value.h)
    decreases |actions|
  {
    if actions != [] {
      StepKeeps(layers, layers, s, actions[0]);
      StepLeavesOnlyGroupZero(layers, s, actions[0]);
      OnlyGroupZeroIsOffloaded(layers, Next(layers, layers, s, actions[0]).value.0, actions[1..]);
    }
  }

  /** With fewer groups than layers, at any time in any run, every group is on the host from the moment its copy
      exists until it is reloaded. */
  lemma HostGroupsLeave(layers: nat, groups: nat, actions: seq<Action>, i: nat)
    requires 1 <= groups < layers && LegalRun(layers, groups, START, actions)
    ensures Run(layers, groups, START, actions).Some?
    ensures var h := Run(layers, groups, START, actions).value.h;
            i < |h.entries| ==> (h.entries[i].saved.OnHost? <==> h.entries[i].tag.group in h.mapping)
  {
    StartOk(layers, groups);
    RunsFrom(layers, groups, START, actions);
    var s := Run(layers, groups, START, actions).value;
    if i < |s.h.entries| { HostEntry(layers, groups, s, i); }
  }

  lemma HostEntry(layers: nat, groups: nat, s: System, i: nat)
    requires 1 <= groups < layers && Inv(layers, groups, s) && i < |s.h.entries|
    ensures s.h.entries[i].saved.OnHost? <==> s.h.entries[i].tag.group in s.h.mapping
  {
    var e := s.h.entries[i];
    assert e.tag in s.pass.saved && StandsFor(s.h.mapping, s.pass.forward, e, s.pass.saved[e.tag]);
  }
}
