/** What a training step's sample is worth, over every interleaving of workers, poller and trainer. */
module ReplayTheorems {
  import opened Options
  import opened ReplayBuffer
  import opened ReplaySystem

  // ---------------------------------------------------------------- the model and the buffer class

  /** Adding a dictionary key by key is the one merge of the model. */
  lemma AddIsMerge(p: Partition, items: Partition)
    requires p.Valid() && items.Valid()
    ensures AddItems(p, items.order, items.tags).tags == Merge(p.tags, items.tags)
  {
    AddExactly(p, items);
  }

  /** Removing the keys of the batch, in whatever list, is the removal of the model. */
  lemma RemoveIsSubtraction(s: System, keys: seq<Key>, was: Partition, left: Partition)
    requires Enabled(s, Remove) && was.tags == s.buffer && Left(was, keys, left)
    requires forall k :: k in keys <==> k in s.batch
    ensures left.tags == Apply(s, Remove).buffer
  {
    assert left.tags.Keys == (s.buffer - s.batch).Keys;
  }

  lemma {:induction false} ScanMissesNoTag(order: seq<Key>, tags: map<Key, Tags>, g: nat)
    requires forall k :: k in order ==> k in tags && tags[k].steps.Some? && tags[k].status.Some?
    ensures ScanFor(order, tags, g) != MissingTag
  {
    if order != [] {
      assert order[0] in order;
      ScanMissesNoTag(order[1..], tags, g);
    }
  }

  /** In every run a turn of the polling loop finds all the tags it looks up, waits exactly while the step has
      a running prompt, and otherwise returns the keys of the model's batch, each once. */
  lemma PollingIsExact(actions: seq<Action>, s: System, p: Partition)
    requires IsRun(START, actions, s) && p.Valid() && p.tags == s.buffer
    ensures ScanFor(p.order, p.tags, s.step) != MissingTag
    ensures ScanFor(p.order, p.tags, s.step).Batch? <==> NoneRunning(s.buffer, s.step)
    ensures ScanFor(p.order, p.tags, s.step).Batch? ==>
      var keys := ScanFor(p.order, p.tags, s.step).keys;
      && (forall k :: k in keys <==> k in ReplaySystem.Batch(s.buffer, s.step))
      && (forall i, j :: 0 <= i < j < |keys| ==> keys[i] != keys[j])
  {
    InvariantOf(actions, s);
    forall k | k in p.order
      ensures k in p.tags && p.tags[k].steps.Some? && p.tags[k].status.Some?
    {
      assert BufferEntryOk(s.prompts, k, s.buffer[k]);
    }
    ScanMissesNoTag(p.order, p.tags, s.step);
    ScanIsExact(p.order, p.tags, s.step);
  }

  // ---------------------------------------------------------------- what is sampled

  lemma InvariantOf(actions: seq<Action>, s: System)
    requires IsRun(START, actions, s)
    ensures Inv(s)
  {
    StartsOk();
    RunKeeps(START, actions, s);
  }

  /** When a step is sampled, however late or stale the snapshots were, every prompt of the step has finished or
      failed, the batch holds every output of every session of a finished one, and it holds nothing but
      successful trajectories of prompts of that step. */
  lemma SampleIsComplete(actions: seq<Action>, s: System)
    requires IsRun(START, actions, s) && Enabled(s, SampleStep)
    ensures forall uid :: uid in s.prompts && s.prompts[uid].step == s.step ==>
      var p := s.prompts[uid];
      && (p.outcome == Some(Finished) || p.outcome == Some(Failure))
      && (p.outcome == Some(Finished) ==>
           forall session, index {:trigger TrajectoryKey(uid, session, index)} :: 0 <= session < p.sessions ==>
             session in p.returned
             && (0 <= index < p.returned[session] ==>
                   TrajectoryKey(uid, session, index) in ReplaySystem.Batch(s.buffer, s.step)))
    ensures forall k :: k in ReplaySystem.Batch(s.buffer, s.step) ==>
      && k.TrajectoryKey? && Known(s.prompts, k) && s.prompts[k.uid].step == s.step
      && s.buffer[k] == Tags(Some(s.step), Some(Success))
  {
    InvariantOf(actions, s);
    forall uid | uid in s.prompts && s.prompts[uid].step == s.step
      ensures s.prompts[uid].outcome == Some(Finished) || s.prompts[uid].outcome == Some(Failure)
      ensures s.prompts[uid].outcome == Some(Finished) ==> s.buffer[PromptKey(uid)].status == Some(Finished)
    {
      assert BufferEntryOk(s.prompts, PromptKey(uid), s.buffer[PromptKey(uid)]);
    }
  }

  /** No trajectory is trained on twice: two samples of one run share no key, and their steps increase, even
      when a snapshot taken before the cleanup is merged after it. */
  lemma NoTrajectoryTwice(actions: seq<Action>, s: System, i: nat, j: nat)
    requires IsRun(START, actions, s) && i < j < |s.history|
    ensures s.history[i].step < s.history[j].step
    ensures s.history[i].keys !! s.history[j].keys
  {
    InvariantOf(actions, s);
    assert SampleOk(s.prompts, s.history[i]) && SampleOk(s.prompts, s.history[j]);
    forall k | k in s.history[i].keys
      ensures k !in s.history[j].keys
    {
      assert s.prompts[k.uid].step == s.history[i].step;
    }
  }

  /** A sample stays complete for the rest of the run: what was put for its finished prompts is in it. */
  lemma SamplesStayComplete(actions: seq<Action>, s: System, i: nat, k: Key)
    requires IsRun(START, actions, s) && i < |s.history|
    requires k.TrajectoryKey? && Known(s.prompts, k) && s.prompts[k.uid].step == s.history[i].step
    requires s.prompts[k.uid].outcome == Some(Finished)
    ensures k in s.history[i].keys
  {
    InvariantOf(actions, s);
    assert SampleOk(s.prompts, s.history[i]);
    assert k == TrajectoryKey(k.uid, k.session, k.index);
  }

  // ---------------------------------------------------------------- status

  lemma StatusStepsForward(s: System, a: Action, uid: string)
    requires Inv(s) && Enabled(s, a) && PromptKey(uid) in s.buffer && s.buffer[PromptKey(uid)].status != Some(Running)
    ensures PromptKey(uid) in Apply(s, a).buffer && Apply(s, a).buffer[PromptKey(uid)] == s.buffer[PromptKey(uid)]
  {
    assert BufferEntryOk(s.prompts, PromptKey(uid), s.buffer[PromptKey(uid)]);
    StepKeeps(s, a);
    assert BufferEntryOk(Apply(s, a).prompts, PromptKey(uid), Apply(s, a).buffer[PromptKey(uid)]);
  }

  /** Once the buffer has a prompt's outcome it keeps exactly that outcome for the rest of the run: no stale
      snapshot sets it back to running or replaces it. */
  lemma {:induction false} OutcomeIsFinal(from: System, actions: seq<Action>, to: System, uid: string)
    requires Inv(from) && IsRun(from, actions, to)
    requires PromptKey(uid) in from.buffer && from.buffer[PromptKey(uid)].status != Some(Running)
    ensures PromptKey(uid) in to.buffer && to.buffer[PromptKey(uid)] == from.buffer[PromptKey(uid)]
    decreases |actions|
  {
    if actions != [] {
      StatusStepsForward(from, actions[0], uid);
      StepKeeps(from, actions[0]);
      OutcomeIsFinal(Apply(from, actions[0]), actions[1..], to, uid);
    }
  }

  // ---------------------------------------------------------------- progress

  /** The poller finishes the snapshot it holds, if any, then takes and merges a fresh one. */
  function PollerTurn(s: System): seq<Action> {
    (if s.snapshot.Some? then [ApplySnapshot] else []) + [TakeSnapshot, ApplySnapshot]
  }

  ghost predicate AllDecided(s: System) {
    forall uid :: uid in s.prompts && s.prompts[uid].step == s.step ==> s.prompts[uid].outcome.Some?
  }

  ghost function AfterTurn(s: System): System {
    var t := if s.snapshot.Some? then s.(buffer := Merge(s.buffer, s.snapshot.value)) else s;
    t.(buffer := Merge(t.buffer, t.store), snapshot := None)
  }

  lemma TurnRuns(s: System)
    ensures IsRun(s, PollerTurn(s), AfterTurn(s))
  {
    var t := if s.snapshot.Some? then Apply(s, ApplySnapshot) else s;
    assert IsRun(Apply(Apply(t, TakeSnapshot), ApplySnapshot), [], AfterTurn(s));
    assert [TakeSnapshot, ApplySnapshot][1..] == [ApplySnapshot] && [ApplySnapshot][1..] == [];
    assert IsRun(Apply(t, TakeSnapshot), [ApplySnapshot], AfterTurn(s));
    assert IsRun(t, [TakeSnapshot, ApplySnapshot], AfterTurn(s));
    if s.snapshot.Some? {
      assert PollerTurn(s)[1..] == [TakeSnapshot, ApplySnapshot];
    }
  }

  lemma DecidedIsSampled(s: System, t: System)
    requires Inv(s) && Inv(t) && t == AfterTurn(s) && s.phase == Dispatched && AllDecided(s)
    ensures Enabled(t, SampleStep)
  {
    forall k | k in t.buffer && t.buffer[k].steps == Some(s.step)
      ensures t.buffer[k].status != Some(Running)
    {
      assert BufferEntryOk(t.prompts, k, t.buffer[k]);
      if k.PromptKey? {
        assert s.prompts[k.uid].outcome.Some?;
        assert k == PromptKey(k.uid) && k in s.store;
        assert s.store[k] == Tags(None, s.prompts[k.uid].outcome);
      }
    }
  }

  lemma SampledIsDecided(s: System, t: System)
    requires Inv(t) && t == AfterTurn(s) && Enabled(t, SampleStep)
    ensures AllDecided(s)
  {
    forall uid | uid in s.prompts && s.prompts[uid].step == s.step
      ensures s.prompts[uid].outcome.Some?
    {
      assert BufferEntryOk(t.prompts, PromptKey(uid), t.buffer[PromptKey(uid)]);
    }
  }

  /** The trainer never waits for good: a turn of the poller lets the dispatched step be sampled exactly if
      every prompt of the step has an outcome when the turn begins. */
  lemma SampledExactlyWhenDecided(actions: seq<Action>, s: System)
    requires IsRun(START, actions, s) && s.phase == Dispatched
    ensures IsRun(s, PollerTurn(s), AfterTurn(s))
    ensures Enabled(AfterTurn(s), SampleStep) <==> AllDecided(s)
  {
    InvariantOf(actions, s);
    TurnRuns(s);
    RunKeeps(s, PollerTurn(s), AfterTurn(s));
    if AllDecided(s) { DecidedIsSampled(s, AfterTurn(s)); }
    if Enabled(AfterTurn(s), SampleStep) { SampledIsDecided(s, AfterTurn(s)); }
  }

  // ---------------------------------------------------------------- one sample a step

  /** The samples taken by the trainer's phase, one a step from step 1 on. */
  ghost predicate OneSampleAStep(s: System) {
    && s.step >= 1 && |s.history| == (if s.phase == Sampled || s.phase == Cleared then s.step else s.step - 1)
    && (forall i :: 0 <= i < |s.history| ==> s.history[i].step == i + 1)
    && s.batch == if s.phase == Sampled || s.phase == Cleared then s.history[s.step - 1].keys else {}
  }

  lemma {:induction false} RunKeepsCount(from: System, actions: seq<Action>, to: System)
    requires OneSampleAStep(from) && IsRun(from, actions, to)
    ensures OneSampleAStep(to)
    decreases |actions|
  {
    if actions != [] {
      RunKeepsCount(Apply(from, actions[0]), actions[1..], to);
    }
  }

  /** In every run the steps are numbered from 1 on, each is sampled once before the next is dispatched, and
      the batch held for the cleanup is the sample of the step. */
  lemma EveryStepIsSampled(actions: seq<Action>, s: System)
    requires IsRun(START, actions, s)
    ensures |s.history| == if s.phase == Sampled || s.phase == Cleared then s.step else s.step - 1
    ensures forall i :: 0 <= i < |s.history| ==> s.history[i].step == i + 1
    ensures s.phase == Sampled || s.phase == Cleared ==> |s.history| > 0 && s.batch == s.history[|s.history| - 1].keys
    ensures s.phase == Idle || s.phase == Dispatched ==> s.batch == {}
  {
    RunKeepsCount(START, actions, s);
  }

  // ---------------------------------------------------------------- what the cleanup leaves behind

  /** The samples that have been cleared from the store. */
  function ClearedSamples(s: System): nat {
    if s.phase == Sampled && s.history != [] then |s.history| - 1 else |s.history|
  }

  ghost predicate StoreIsCleared(s: System) {
    forall i, k :: 0 <= i < ClearedSamples(s) && k in s.history[i].keys ==> k !in s.store
  }

  lemma PutLeavesCleared(s: System, a: Action, k: Key)
    requires Enabled(s, a) && (a.PutSession? || a.PutFinished? || a.PutFailure?)
    requires k.TrajectoryKey? && Known(s.prompts, k)
    ensures k in Apply(s, a).store <==> k in s.store
  {
  }

  lemma StepLeavesOne(s: System, a: Action, i: nat, k: Key)
    requires Inv(s) && OneSampleAStep(s) && StoreIsCleared(s) && Enabled(s, a)
    requires i < ClearedSamples(Apply(s, a)) && k in Apply(s, a).history[i].keys
    ensures k !in Apply(s, a).store
  {
    if a.PutSession? || a.PutFinished? || a.PutFailure? {
      assert SampleOk(s.prompts, s.history[i]);
      PutLeavesCleared(s, a, k);
    }
  }

  lemma StepLeavesCleared(s: System, a: Action)
    requires Inv(s) && OneSampleAStep(s) && StoreIsCleared(s) && Enabled(s, a)
    ensures StoreIsCleared(Apply(s, a))
  {
    var next := Apply(s, a);
    forall i, k | 0 <= i < ClearedSamples(next) && k in next.history[i].keys
      ensures k !in next.store
    {
      StepLeavesOne(s, a, i, k);
    }
  }

  lemma {:induction false} RunLeavesCleared(from: System, actions: seq<Action>, to: System)
    requires Inv(from) && OneSampleAStep(from) && StoreIsCleared(from) && IsRun(from, actions, to)
    ensures StoreIsCleared(to)
    decreases |actions|
  {
    if actions != [] {
      var next := Apply(from, actions[0]);
      StepLeavesCleared(from, actions[0]);
      StepKeeps(from, actions[0]);
      RunKeepsCount(from, [actions[0]], next);
      RunLeavesCleared(next, actions[1..], to);
    }
  }

  /** What a step sampled has left the store when the step is over, and it never comes back there. */
  lemma SampledKeysLeaveTheStore(actions: seq<Action>, s: System, i: nat, k: Key)
    requires IsRun(START, actions, s) && i < |s.history| && k in s.history[i].keys
    requires s.history[i].step < s.step || s.phase == Cleared
    ensures k !in s.store
  {
    StartsOk();
    RunLeavesCleared(START, actions, s);
    EveryStepIsSampled(actions, s);
  }

  /** A key of an earlier step's sample. */
  ghost predicate Over(s: System, k: Key) {
    exists i :: 0 <= i < |s.history| && s.history[i].step < s.step && k in s.history[i].keys
  }

  lemma OverStep(s: System, a: Action, k: Key)
    requires Inv(s) && OneSampleAStep(s) && StoreIsCleared(s) && Enabled(s, a) && Over(s, k)
    ensures Over(Apply(s, a), k) && k !in s.store && k !in s.batch
    ensures k.TrajectoryKey? && Known(s.prompts, k)
  {
    var i :| 0 <= i < |s.history| && s.history[i].step < s.step && k in s.history[i].keys;
    assert SampleOk(s.prompts, s.history[i]) && i < ClearedSamples(s);
    assert Apply(s, a).history[i] == s.history[i];
    if s.batch != {} {
      assert SampleOk(s.prompts, s.history[s.step - 1]);
    }
  }

  /** One action: such a key comes into the buffer only by a listing that has it, and never leaves it. */
  lemma OverInBuffer(s: System, a: Action, k: Key)
    requires Inv(s) && OneSampleAStep(s) && StoreIsCleared(s) && Enabled(s, a) && Over(s, k)
    ensures k in Apply(s, a).buffer <==> k in s.buffer || (a == ApplySnapshot && k in s.snapshot.value)
    ensures (Apply(s, a).snapshot.Some? && k in Apply(s, a).snapshot.value)
       <==> s.snapshot.Some? && k in s.snapshot.value && a != ApplySnapshot
  {
    OverStep(s, a, k);
  }

  lemma {:induction false} OverInRun(from: System, actions: seq<Action>, to: System, k: Key)
    requires Inv(from) && OneSampleAStep(from) && StoreIsCleared(from) && IsRun(from, actions, to) && Over(from, k)
    ensures k in to.buffer
       <==> k in from.buffer || (from.snapshot.Some? && k in from.snapshot.value && ApplySnapshot in actions)
    decreases |actions|
  {
    if actions != [] {
      var next := Apply(from, actions[0]);
      OverStep(from, actions[0], k);
      OverInBuffer(from, actions[0], k);
      StepLeavesCleared(from, actions[0]);
      StepKeeps(from, actions[0]);
      RunKeepsCount(from, [actions[0]], next);
      OverInRun(next, actions[1..], to, k);
      assert ApplySnapshot in actions <==> actions[0] == ApplySnapshot || ApplySnapshot in actions[1..];
    }
  }

  /** The invariants of a run's state. */
  lemma RunsKeepAll(actions: seq<Action>, s: System)
    requires IsRun(START, actions, s)
    ensures Inv(s) && OneSampleAStep(s) && StoreIsCleared(s)
  {
    StartsOk();
    InvariantOf(actions, s);
    RunKeepsCount(START, actions, s);
    RunLeavesCleared(START, actions, s);
  }

  lemma RemovedIsOver(before: seq<Action>, s: System, k: Key)
    requires IsRun(START, before, s) && Enabled(s, Remove) && k in s.batch
    ensures var next := Apply(s, Remove);
      Inv(next) && OneSampleAStep(next) && StoreIsCleared(next) && Over(next, k)
  {
    RunsKeepAll(before, s);
    StepKeeps(s, Remove);
    StepLeavesCleared(s, Remove);
    assert IsRun(s, [Remove], Apply(s, Remove));
    RunKeepsCount(s, [Remove], Apply(s, Remove));
    assert k in Apply(s, Remove).history[s.step - 1].keys;
  }

  /** The cleanup removes a trajectory from the buffer for good, unless the poller holds a listing made before
      the store was cleared: then the trajectory is back as soon as that listing is merged, and stays. */
  lemma RemovedComesBackExactly(before: seq<Action>, s: System, after: seq<Action>, to: System, k: Key)
    requires IsRun(START, before, s) && Enabled(s, Remove) && k in s.batch
    requires IsRun(Apply(s, Remove), after, to)
    ensures k !in Apply(s, Remove).buffer
    ensures k in to.buffer <==> s.snapshot.Some? && k in s.snapshot.value && ApplySnapshot in after
  {
    RemovedIsOver(before, s, k);
    OverInRun(Apply(s, Remove), after, to, k);
  }

  /** The entry of a prompt is never removed from the buffer: only trajectories are cleaned up. */
  lemma PromptEntriesAccumulate(actions: seq<Action>, s: System)
    requires IsRun(START, actions, s)
    ensures forall uid :: uid in s.prompts ==>
        PromptKey(uid) in s.buffer && s.buffer[PromptKey(uid)].steps == Some(s.prompts[uid].step)
  {
    InvariantOf(actions, s);
    forall uid | uid in s.prompts
      ensures PromptKey(uid) in s.buffer && s.buffer[PromptKey(uid)].steps == Some(s.prompts[uid].step)
    {
      assert BufferEntryOk(s.prompts, PromptKey(uid), s.buffer[PromptKey(uid)]);
    }
  }
}
