/** Workers, the store, the poller and the trainer, for the training partition.

    Workers put trajectories and then an outcome into the store; the poller copies the store into the replay
    buffer, possibly long after it was read; the trainer dispatches a step, waits for its sample, clears it
    from the store, removes it from the buffer and goes on to the next step.  A run is any interleaving. */
module ReplaySystem {
  import opened Options
  import opened ReplayBuffer

  /** A dispatched prompt: its step, its number of sessions, the sessions that have returned with their
      number of outputs, and the outcome once it has been put. */
  datatype Prompt = Prompt(step: nat, sessions: nat, returned: map<nat, nat>, outcome: Option<Status>)

  datatype Phase = Idle | Dispatched | Sampled | Cleared

  /** What a training step sampled. */
  datatype Sample = Sample(step: nat, keys: set<Key>)

  datatype System = System(store: map<Key, Tags>, buffer: map<Key, Tags>, snapshot: Option<map<Key, Tags>>,
                           prompts: map<string, Prompt>, step: nat, phase: Phase, batch: set<Key>, history: seq<Sample>)

  const START := System(map[], map[], None, map[], 1, Idle, {}, [])

  datatype Action =
    | Dispatch(sessions: map<string, nat>)
    | PutSession(uid: string, session: nat, outputs: nat)
    | PutFinished(uid: string)
    | PutFailure(uid: string)
    | TakeSnapshot
    | ApplySnapshot
    | SampleStep
    | Clear
    | Remove

  // ---------------------------------------------------------------- puts and merges

  /** Merge a snapshot: what Buffer.Add does, key by key. */
  function Merge(buffer: map<Key, Tags>, items: map<Key, Tags>): map<Key, Tags> {
    map k | k in buffer.Keys + items.Keys ::
      if k in items then Update(Lookup(buffer, k), items[k]) else buffer[k]
  }

  function RunningItems(sessions: map<string, nat>, step: nat): map<Key, Tags> {
    map uid | uid in sessions :: PromptKey(uid) := Tags(Some(step), Some(Running))
  }

  function SessionItems(uid: string, session: nat, outputs: nat, step: nat): map<Key, Tags> {
    map i: nat | i < outputs :: TrajectoryKey(uid, session, i) := Tags(Some(step), Some(Success))
  }

  function OutcomeItem(uid: string, status: Status): map<Key, Tags> {
    map[PromptKey(uid) := Tags(None, Some(status))]
  }

  function Batch(buffer: map<Key, Tags>, g: nat): set<Key> {
    set k | k in buffer && Selected(buffer, g, k)
  }

  // ---------------------------------------------------------------- steps

  ghost predicate Enabled(s: System, a: Action) {
    match a
    case Dispatch(sessions) => s.phase == Idle && forall uid :: uid in sessions ==> uid !in s.prompts
    case PutSession(uid, session, _) =>
      // A failed prompt's other sessions go on; a finished prompt has none left.
      uid in s.prompts && session < s.prompts[uid].sessions && session !in s.prompts[uid].returned
      && s.prompts[uid].outcome != Some(Finished)
    case PutFinished(uid) =>
      uid in s.prompts && s.prompts[uid].outcome == None
      && forall i :: 0 <= i < s.prompts[uid].sessions ==> i in s.prompts[uid].returned
    case PutFailure(uid) => uid in s.prompts && s.prompts[uid].outcome == None
    case TakeSnapshot => s.snapshot == None
    case ApplySnapshot => s.snapshot.Some?
    case SampleStep => s.phase == Dispatched && NoneRunning(s.buffer, s.step)
    case Clear => s.phase == Sampled
    case Remove => s.phase == Cleared
  }

  ghost function Apply(s: System, a: Action): System
    requires Enabled(s, a)
  {
    match a
    case Dispatch(sessions) =>
      s.(buffer := Merge(s.buffer, RunningItems(sessions, s.step)), phase := Dispatched,
         prompts := s.prompts + map uid | uid in sessions :: Prompt(s.step, sessions[uid], map[], None))
    case PutSession(uid, session, outputs) =>
      var p := s.prompts[uid];
      s.(store := Merge(s.store, SessionItems(uid, session, outputs, p.step)),
         prompts := s.prompts[uid := p.(returned := p.returned[session := outputs])])
    case PutFinished(uid) =>
      s.(store := Merge(s.store, OutcomeItem(uid, Finished)),
         prompts := s.prompts[uid := s.prompts[uid].(outcome := Some(Finished))])
    case PutFailure(uid) =>
      s.(store := Merge(s.store, OutcomeItem(uid, Failure)),
         prompts := s.prompts[uid := s.prompts[uid].(outcome := Some(Failure))])
    case TakeSnapshot => s.(snapshot := Some(s.store))
    case ApplySnapshot => s.(buffer := Merge(s.buffer, s.snapshot.value), snapshot := None)
    case SampleStep =>
      var keys := Batch(s.buffer, s.step);
      s.(phase := Sampled, batch := keys, history := s.history + [Sample(s.step, keys)])
    case Clear => s.(store := s.store - s.batch, phase := Cleared)
    case Remove => s.(buffer := s.buffer - s.batch, phase := Idle, batch := {}, step := s.step + 1)
  }

  ghost predicate IsRun(from: System, actions: seq<Action>, to: System)
    decreases |actions|
  {
    if actions == [] then from == to
    else Enabled(from, actions[0]) && IsRun(Apply(from, actions[0]), actions[1..], to)
  }

  // ---------------------------------------------------------------- invariant

  /** The key names an output that has been put. */
  ghost predicate Known(prompts: map<string, Prompt>, k: Key) {
    && k.uid in prompts
    && (k.TrajectoryKey? ==> k.session in prompts[k.uid].returned && k.index < prompts[k.uid].returned[k.session])
  }

  /** The store, now or at some earlier time: outcomes without a step, trajectories with step and success. */
  ghost predicate StoreOk(prompts: map<string, Prompt>, store: map<Key, Tags>) {
    forall k :: k in store ==>
      && Known(prompts, k)
      && (k.PromptKey? ==> prompts[k.uid].outcome.Some? && store[k] == Tags(None, prompts[k.uid].outcome))
      && (k.TrajectoryKey? ==> store[k] == Tags(Some(prompts[k.uid].step), Some(Success)))
  }

  ghost predicate BufferEntryOk(prompts: map<string, Prompt>, k: Key, t: Tags) {
    && Known(prompts, k) && t.steps == Some(prompts[k.uid].step)
    && (k.PromptKey? ==>
          t.status == Some(Running) || (prompts[k.uid].outcome.Some? && t.status == prompts[k.uid].outcome))
    && (k.TrajectoryKey? ==> t.status == Some(Success))
  }

  /** Every prompt keeps its entry; no entry lacks a tag. */
  ghost predicate BufferOk(prompts: map<string, Prompt>, buffer: map<Key, Tags>) {
    && (forall k :: k in buffer ==> BufferEntryOk(prompts, k, buffer[k]))
    && (forall uid :: uid in prompts ==> PromptKey(uid) in buffer)
  }

  ghost predicate PromptsOk(s: System) {
    forall uid :: uid in s.prompts ==>
      var p := s.prompts[uid];
      && p.step <= s.step && (p.step == s.step ==> s.phase != Idle)
      && (p.outcome.Some? ==> p.outcome.value == Finished || p.outcome.value == Failure)
      && (p.outcome == Some(Finished) ==> forall i :: 0 <= i < p.sessions ==> i in p.returned)
  }

  /** An outcome once put stays in the store. */
  ghost predicate OutcomesStored(s: System) {
    forall uid :: uid in s.prompts && s.prompts[uid].outcome.Some? ==> PromptKey(uid) in s.store
  }

  /** All outputs the prompt's sessions have put are in m. */
  ghost predicate HoldsOutputs(p: Prompt, uid: string, m: set<Key>) {
    forall session, index {:trigger TrajectoryKey(uid, session, index)} ::
      session in p.returned && 0 <= index < p.returned[session] ==> TrajectoryKey(uid, session, index) in m
  }

  /** Until the step is cleared the store has all its trajectories, and whoever knows that a prompt of the
      step is finished has all of that prompt's. */
  ghost predicate CompleteOk(s: System) {
    forall uid :: uid in s.prompts && s.prompts[uid].step == s.step ==>
      var p := s.prompts[uid];
      && (s.phase == Dispatched || s.phase == Sampled ==> HoldsOutputs(p, uid, s.store.Keys))
      && (s.phase == Dispatched || s.phase == Sampled ==>
            (s.snapshot.Some? && PromptKey(uid) in s.snapshot.value && p.outcome == Some(Finished) ==>
               HoldsOutputs(p, uid, s.snapshot.value.Keys)))
      && (PromptKey(uid) in s.buffer && s.buffer[PromptKey(uid)].status == Some(Finished) ==>
            HoldsOutputs(p, uid, s.buffer.Keys))
      && (s.phase == Sampled || s.phase == Cleared ==>
            PromptKey(uid) in s.buffer && s.buffer[PromptKey(uid)].status != Some(Running))
  }

  /** A sample holds only successful keys of its step, and every prompt of the step is done with all its
      outputs in it. */
  ghost predicate SampleOk(prompts: map<string, Prompt>, r: Sample) {
    && (forall k :: k in r.keys ==> k.TrajectoryKey? && Known(prompts, k) && prompts[k.uid].step == r.step)
    && (forall uid :: uid in prompts && prompts[uid].step == r.step ==>
          && prompts[uid].outcome.Some?
          && (prompts[uid].outcome.value == Finished ==> HoldsOutputs(prompts[uid], uid, r.keys)))
  }

  ghost predicate HistoryOk(s: System) {
    && (forall i :: 0 <= i < |s.history| ==> SampleOk(s.prompts, s.history[i]) && s.history[i].step <= s.step)
    && (forall i :: 0 <= i < |s.history| && s.history[i].step == s.step ==> s.phase == Sampled || s.phase == Cleared)
    && (forall i, j :: 0 <= i < j < |s.history| ==> s.history[i].step < s.history[j].step)
    && (forall k :: k in s.batch ==> k.TrajectoryKey?)
  }

  ghost predicate Inv(s: System) {
    && StoreOk(s.prompts, s.store) && (s.snapshot.Some? ==> StoreOk(s.prompts, s.snapshot.value))
    && BufferOk(s.prompts, s.buffer) && PromptsOk(s) && OutcomesStored(s) && CompleteOk(s) && HistoryOk(s)
  }

  /** Prompts only gain sessions and outcomes; a finished one no longer changes; new ones are of `step`. */
  ghost predicate Grows(prompts: map<string, Prompt>, later: map<string, Prompt>, step: nat) {
    && (forall uid :: uid in prompts ==>
          uid in later && var p, q := prompts[uid], later[uid];
          && q.step == p.step && q.sessions == p.sessions
          && (forall i :: i in p.returned ==> i in q.returned && q.returned[i] == p.returned[i])
          && (p.outcome.Some? ==> q.outcome == p.outcome)
          && (p.outcome == Some(Finished) ==> q == p))
    && (forall uid :: uid in later && uid !in prompts ==> later[uid].step == step)
  }

  lemma StoreGrows(prompts: map<string, Prompt>, later: map<string, Prompt>, step: nat, store: map<Key, Tags>)
    requires StoreOk(prompts, store) && Grows(prompts, later, step)
    ensures StoreOk(later, store)
  {
  }

  lemma EntriesGrow(prompts: map<string, Prompt>, later: map<string, Prompt>, step: nat, buffer: map<Key, Tags>)
    requires BufferOk(prompts, buffer) && Grows(prompts, later, step)
    ensures forall k :: k in buffer ==> BufferEntryOk(later, k, buffer[k])
  {
  }

  lemma SampleGrows(prompts: map<string, Prompt>, later: map<string, Prompt>, step: nat, r: Sample)
    requires SampleOk(prompts, r) && Grows(prompts, later, step)
    requires r.step < step || forall uid :: uid in later ==> uid in prompts
    ensures SampleOk(later, r)
  {
  }

  lemma HistoryGrows(s: System, later: map<string, Prompt>, phase: Phase)
    requires HistoryOk(s) && Grows(s.prompts, later, s.step)
    requires || (s.phase == Idle && phase == Dispatched)
             || (phase == s.phase && forall uid :: uid in later ==> uid in s.prompts)
    ensures HistoryOk(s.(prompts := later, phase := phase))
  {
    forall i | 0 <= i < |s.history|
      ensures SampleOk(later, s.history[i])
    {
      SampleGrows(s.prompts, later, s.step, s.history[i]);
    }
  }

  lemma DispatchGrows(s: System, sessions: map<string, nat>)
    requires Inv(s) && Enabled(s, Dispatch(sessions))
    ensures Grows(s.prompts, Apply(s, Dispatch(sessions)).prompts, s.step)
  {
  }

  lemma DispatchBuffer(s: System, sessions: map<string, nat>)
    requires BufferOk(s.prompts, s.buffer) && Enabled(s, Dispatch(sessions))
    ensures BufferOk(Apply(s, Dispatch(sessions)).prompts, Apply(s, Dispatch(sessions)).buffer)
  {
  }

  lemma DispatchComplete(s: System, sessions: map<string, nat>)
    requires StoreOk(s.prompts, s.store) && BufferOk(s.prompts, s.buffer) && PromptsOk(s)
    requires Enabled(s, Dispatch(sessions))
    ensures PromptsOk(Apply(s, Dispatch(sessions))) && CompleteOk(Apply(s, Dispatch(sessions)))
  {
  }

  lemma DispatchKeeps(s: System, sessions: map<string, nat>)
    requires Inv(s) && Enabled(s, Dispatch(sessions))
    ensures Inv(Apply(s, Dispatch(sessions)))
  {
    var s' := Apply(s, Dispatch(sessions));
    DispatchGrows(s, sessions);
    StoreGrows(s.prompts, s'.prompts, s.step, s.store);
    if s.snapshot.Some? { StoreGrows(s.prompts, s'.prompts, s.step, s.snapshot.value); }
    DispatchBuffer(s, sessions);
    DispatchComplete(s, sessions);
    HistoryGrows(s, s'.prompts, Dispatched);
  }

  lemma PutGrows(s: System, a: Action)
    requires PromptsOk(s) && Enabled(s, a) && (a.PutSession? || a.PutFinished? || a.PutFailure?)
    ensures Grows(s.prompts, Apply(s, a).prompts, s.step)
    ensures Apply(s, a).prompts.Keys == s.prompts.Keys
  {
  }

  lemma PutStore(s: System, a: Action)
    requires StoreOk(s.prompts, s.store) && Enabled(s, a) && (a.PutSession? || a.PutFinished? || a.PutFailure?)
    requires StoreOk(Apply(s, a).prompts, s.store)
    ensures StoreOk(Apply(s, a).prompts, Apply(s, a).store)
  {
  }

  lemma PutStored(s: System, a: Action)
    requires OutcomesStored(s) && Enabled(s, a) && (a.PutSession? || a.PutFinished? || a.PutFailure?)
    ensures OutcomesStored(Apply(s, a))
  {
  }

  lemma PutSnapshotAndBuffer(s: System, a: Action)
    requires Inv(s) && Enabled(s, a) && (a.PutSession? || a.PutFinished? || a.PutFailure?)
    ensures var s' := Apply(s, a);
      (s'.snapshot.Some? ==> StoreOk(s'.prompts, s'.snapshot.value)) && BufferOk(s'.prompts, s'.buffer) && HistoryOk(s')
  {
    var s' := Apply(s, a);
    PutGrows(s, a);
    if s.snapshot.Some? { StoreGrows(s.prompts, s'.prompts, s.step, s.snapshot.value); }
    EntriesGrow(s.prompts, s'.prompts, s.step, s.buffer);
    HistoryGrows(s, s'.prompts, s.phase);
    assert HistoryOk(s.(prompts := s'.prompts, phase := s.phase));
  }

  lemma PutSessionComplete(s: System, uid: string, session: nat, outputs: nat)
    requires CompleteOk(s) && BufferOk(s.prompts, s.buffer) && PromptsOk(s)
    requires Enabled(s, PutSession(uid, session, outputs))
    requires s.snapshot.Some? ==> StoreOk(s.prompts, s.snapshot.value)
    ensures PromptsOk(Apply(s, PutSession(uid, session, outputs)))
    ensures CompleteOk(Apply(s, PutSession(uid, session, outputs)))
  {
  }

  lemma OutcomeComplete(s: System, a: Action)
    requires CompleteOk(s) && BufferOk(s.prompts, s.buffer) && PromptsOk(s) && Enabled(s, a)
    requires s.snapshot.Some? ==> StoreOk(s.prompts, s.snapshot.value)
    requires a.PutFinished? || a.PutFailure?
    ensures PromptsOk(Apply(s, a)) && CompleteOk(Apply(s, a))
  {
  }

  /** A worker's put: a session's outputs, or an outcome. */
  lemma PutKeeps(s: System, a: Action)
    requires Inv(s) && Enabled(s, a) && (a.PutSession? || a.PutFinished? || a.PutFailure?)
    ensures Inv(Apply(s, a))
  {
    PutGrows(s, a);
    StoreGrows(s.prompts, Apply(s, a).prompts, s.step, s.store);
    PutStore(s, a);
    PutStored(s, a);
    PutSnapshotAndBuffer(s, a);
    if a.PutSession? { PutSessionComplete(s, a.uid, a.session, a.outputs); } else { OutcomeComplete(s, a); }
  }

  lemma TakeKeeps(s: System)
    requires Inv(s) && Enabled(s, TakeSnapshot)
    ensures Inv(Apply(s, TakeSnapshot))
  {
  }

  lemma ApplyKeeps(s: System)
    requires Inv(s) && Enabled(s, ApplySnapshot)
    ensures Inv(Apply(s, ApplySnapshot))
  {
  }

  lemma SampleIsOk(s: System)
    requires Inv(s) && Enabled(s, SampleStep)
    ensures SampleOk(s.prompts, Sample(s.step, Batch(s.buffer, s.step)))
  {
  }

  lemma SampleComplete(s: System)
    requires Inv(s) && Enabled(s, SampleStep)
    ensures CompleteOk(Apply(s, SampleStep))
  {
  }

  lemma SampleKeeps(s: System)
    requires Inv(s) && Enabled(s, SampleStep)
    ensures Inv(Apply(s, SampleStep))
  {
    SampleIsOk(s);
    SampleComplete(s);
  }

  lemma ClearKeeps(s: System)
    requires Inv(s) && Enabled(s, Clear)
    ensures Inv(Apply(s, Clear))
  {
  }

  lemma RemoveKeeps(s: System)
    requires Inv(s) && Enabled(s, Remove)
    ensures Inv(Apply(s, Remove))
  {
  }

  lemma StepKeeps(s: System, a: Action)
    requires Inv(s) && Enabled(s, a)
    ensures Inv(Apply(s, a))
  {
    match a
    case Dispatch(sessions) => DispatchKeeps(s, sessions);
    case PutSession(_, _, _) => PutKeeps(s, a);
    case PutFinished(_) => PutKeeps(s, a);
    case PutFailure(_) => PutKeeps(s, a);
    case TakeSnapshot => TakeKeeps(s);
    case ApplySnapshot => ApplyKeeps(s);
    case SampleStep => SampleKeeps(s);
    case Clear => ClearKeeps(s);
    case Remove => RemoveKeeps(s);
  }

  lemma {:induction false} RunKeeps(from: System, actions: seq<Action>, to: System)
    requires Inv(from) && IsRun(from, actions, to)
    ensures Inv(to)
    decreases |actions|
  {
    if actions != [] {
      StepKeeps(from, actions[0]);
      RunKeeps(Apply(from, actions[0]), actions[1..], to);
    }
  }

  lemma StartsOk()
    ensures Inv(START)
  {
  }
}
