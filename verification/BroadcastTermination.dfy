/** Every run of the broadcast is finite, and can be carried on to the end. */
module BroadcastTermination {
  import opened WeightChunks
  import opened Buckets
  import opened Delivery
  import opened BroadcastChannel
  import opened BroadcastProofs
  import opened BroadcastTheorems

  // ---------------------------------------------------------------- the steps left

  /** An upper bound on the steps one coroutine still spends on the buckets from j on. */
  function LaterWork(c: Config, j: nat): nat
    decreases |c.buckets| - j
  {
    if j >= |c.buckets| then 0 else |c.buckets[j].metas| + 8 + LaterWork(c, j + 1)
  }

  function SenderWork(c: Config, s: Sender): int
    requires s.k < |c.buckets|
  {
    var later := LaterWork(c, s.k + 1);
    var coroutine := match s.phase
      case Filling => later + (|c.buckets[s.k].metas| - s.y) + 6
      case AwaitPrevious => later + 5
      case Posting => later + 4
      case AwaitLast => 1
      case Sent => 0;
    (if s.crashed then 0 else 1) + coroutine + if s.stage.Publishing? then 2 else if s.stage.Pushing? then 1 else 0
  }

  function ReceiverWork(c: Config, r: Receiver): int
    requires r.k < |c.buckets|
  {
    var later, n := LaterWork(c, r.k + 1), |c.buckets[r.k].metas|;
    var coroutine := match r.phase
      case Start => LaterWork(c, 0) + 4
      case AwaitFirst => LaterWork(c, 0) + 1
      case Launching => later + n + 7
      case Yielding => later + (n - r.y) + 4
      case AwaitNext => later + 3
      case YieldLast => n - r.y + 1
      case Received => 0;
    (if r.crashed then 0 else 1) + coroutine + if r.stage.AwaitMeta? then 2 else if r.stage.Pulling? then 1 else 0
  }

  /** Bytes yet to be pushed or pulled. */
  function BytesLeft(c: Config, launched: nat, pos: nat): int {
    Buffers(c, |c.buckets|) - Position(c, launched, pos)
  }

  /** What is left to do for one receiver, on both sides. */
  function LinkWork(c: Config, o: Sender, pushed: nat, r: Receiver): int
    requires r.k < |c.buckets|
  {
    BytesLeft(c, Launched(o), pushed) + BytesLeft(c, Begun(r), r.pos) + ReceiverWork(c, r)
  }

  // ---------------------------------------------------------------- the work is never negative

  lemma SenderWorkIsNat(c: Config, s: Sender)
    requires SenderOk(c, s)
    ensures SenderWork(c, s) >= 0
  {
  }

  lemma LinkWorkIsNat(c: Config, o: Sender, i: nat, r: Receiver)
    requires AllFit(c.buckets) && SenderOk(c, o) && i < c.receivers && ReceiverOk(c, r)
    ensures LinkWork(c, o, o.pushed[i], r) >= 0
  {
    PushedAtMost(c, o, i, |c.buckets|);
    if Begun(r) > 0 { BuffersGrow(c, Begun(r), |c.buckets|); }
  }

  // ---------------------------------------------------------------- every step leaves less

  lemma FillWorkDrops(c: Config, s: Sender)
    requires SenderOk(c, s) && s.phase.Filling? && s.y < |c.buckets[s.k].metas| && !s.crashed
    requires SenderOk(c, FillChunk(c, s))
    ensures SenderWork(c, FillChunk(c, s)) < SenderWork(c, s)
  {
  }

  lemma LaunchWorkDrops(c: Config, s: Sender)
    requires SenderOk(c, s) && s.phase.Posting?
    ensures Launch(c, s).k < |c.buckets| && SenderWork(c, Launch(c, s)) < SenderWork(c, s)
  {
  }

  lemma WaitWorkDrops(c: Config, s: Sender)
    requires SenderOk(c, s) && SenderCanStep(s) && !s.phase.Posting?
    requires s.phase.Filling? ==> s.y == |c.buckets[s.k].metas|
    ensures SenderStep(c, s).k < |c.buckets| && SenderWork(c, SenderStep(c, s)) < SenderWork(c, s)
  {
  }

  lemma SenderStepWorkDrops(c: Config, s: Sender)
    requires SenderOk(c, s) && SenderCanStep(s) && SenderOk(c, SenderStep(c, s))
    ensures SenderWork(c, SenderStep(c, s)) < SenderWork(c, s)
  {
    if s.phase.Posting? {
      LaunchWorkDrops(c, s);
    } else if s.phase.Filling? && s.y < |c.buckets[s.k].metas| {
      FillWorkDrops(c, s);
    } else {
      WaitWorkDrops(c, s);
    }
  }

  lemma TakeWorkDrops(c: Config, r: Receiver, k: nat)
    requires AllFit(c.buckets) && ReceiverOk(c, r) && r.stage.Pulled? && k < |c.buckets|
    requires (r.phase.AwaitFirst? && k == 0) || (r.phase.AwaitNext? && k == r.k + 1)
    ensures ReceiverWork(c, TakeBucket(r, k)) < ReceiverWork(c, r)
  {
  }

  lemma ReceiverStepWorkDrops(c: Config, r: Receiver)
    requires AllFit(c.buckets) && ReceiverOk(c, r) && ReceiverCanStep(r) && ReceiverOk(c, ReceiverStep(c, r))
    ensures ReceiverWork(c, ReceiverStep(c, r)) < ReceiverWork(c, r)
  {
    if r.phase.AwaitFirst? {
      TakeWorkDrops(c, r, 0);
    } else if r.phase.AwaitNext? {
      TakeWorkDrops(c, r, r.k + 1);
    } else if r.phase.Yielding? || r.phase.YieldLast? {
      YieldWorkDrops(c, r);
    }
  }

  lemma YieldWorkDrops(c: Config, r: Receiver)
    requires r.k < |c.buckets| && (r.phase.Yielding? || r.phase.YieldLast?) && !r.crashed
    requires r.meta.metas == c.buckets[r.k].metas && r.y <= |r.meta.metas|
    ensures ReceiverStep(c, r).k < |c.buckets| && ReceiverWork(c, ReceiverStep(c, r)) < ReceiverWork(c, r)
  {
  }

  // ---------------------------------------------------------------- the whole system

  /** The work on the links to the first n receivers. */
  ghost function LinksWork(c: Config, s: State, n: nat): int
    requires Shaped(c, s) && n <= c.receivers && forall i :: 0 <= i < n ==> s.receivers[i].k < |c.buckets|
  {
    if n == 0 then 0 else LinksWork(c, s, n - 1) + LinkWork(c, s.sender, s.sender.pushed[n - 1], s.receivers[n - 1])
  }

  ghost predicate KsOk(c: Config, s: State)
    requires Shaped(c, s)
  {
    forall i :: 0 <= i < c.receivers ==> s.receivers[i].k < |c.buckets|
  }

  ghost predicate LinkLess(c: Config, s: State, t: State, i: nat)
    requires Shaped(c, s) && Shaped(c, t) && KsOk(c, s) && KsOk(c, t) && i < c.receivers
  {
    LinkWork(c, t.sender, t.sender.pushed[i], t.receivers[i])
      < LinkWork(c, s.sender, s.sender.pushed[i], s.receivers[i])
  }

  ghost predicate LinkSame(c: Config, s: State, t: State, i: nat)
    requires Shaped(c, s) && Shaped(c, t) && KsOk(c, s) && KsOk(c, t) && i < c.receivers
  {
    LinkWork(c, t.sender, t.sender.pushed[i], t.receivers[i])
      == LinkWork(c, s.sender, s.sender.pushed[i], s.receivers[i])
  }

  lemma {:induction false} LinksSame(c: Config, s: State, t: State, n: nat)
    requires Shaped(c, s) && Shaped(c, t) && KsOk(c, s) && KsOk(c, t) && n <= c.receivers
    requires forall i :: 0 <= i < n ==> LinkSame(c, s, t, i)
    ensures LinksWork(c, t, n) == LinksWork(c, s, n)
  {
    if n > 0 {
      LinksSame(c, s, t, n - 1);
      assert LinkSame(c, s, t, n - 1);
    }
  }

  lemma {:induction false} OneLinkLess(c: Config, s: State, t: State, j: nat, n: nat)
    requires Shaped(c, s) && Shaped(c, t) && KsOk(c, s) && KsOk(c, t) && j < n <= c.receivers
    requires LinkLess(c, s, t, j) && forall i :: 0 <= i < n && i != j ==> LinkSame(c, s, t, i)
    ensures LinksWork(c, t, n) < LinksWork(c, s, n)
  {
    if j < n - 1 {
      OneLinkLess(c, s, t, j, n - 1);
      assert LinkSame(c, s, t, n - 1);
    } else {
      LinksSame(c, s, t, n - 1);
    }
  }

  lemma {:induction false} LinksWorkIsNat(c: Config, s: State, n: nat)
    requires AllFit(c.buckets) && Inv(c, s) && KsOk(c, s) && n <= c.receivers
    ensures LinksWork(c, s, n) >= 0
  {
    if n > 0 {
      LinksWorkIsNat(c, s, n - 1);
      assert ReceiverOk(c, s.receivers[n - 1]);
      LinkWorkIsNat(c, s.sender, n - 1, s.receivers[n - 1]);
    }
  }

  ghost function TotalWork(c: Config, s: State): int
    requires Shaped(c, s) && KsOk(c, s)
  {
    SenderWork(c, s.sender) + LinksWork(c, s, c.receivers)
  }

  lemma InvKs(c: Config, s: State)
    requires AllFit(c.buckets) && Inv(c, s)
    ensures KsOk(c, s)
  {
    forall i | 0 <= i < c.receivers
      ensures s.receivers[i].k < |c.buckets|
    {
      assert ReceiverOk(c, s.receivers[i]);
    }
  }

  /** A step of rank 0 or its operation that moves no byte. */
  lemma SenderActionDrops(c: Config, s: State, t: State)
    requires Shaped(c, s) && Shaped(c, t) && KsOk(c, s) && KsOk(c, t) && t.receivers == s.receivers
    requires SenderWork(c, t.sender) < SenderWork(c, s.sender)
    requires forall i :: 0 <= i < c.receivers ==>
      Position(c, Launched(t.sender), t.sender.pushed[i]) == Position(c, Launched(s.sender), s.sender.pushed[i])
    ensures TotalWork(c, t) < TotalWork(c, s)
  {
    forall i | 0 <= i < c.receivers
      ensures LinkSame(c, s, t, i)
    {
    }
    LinksSame(c, s, t, c.receivers);
  }

  /** A step that concerns one receiver. */
  lemma LinkActionDrops(c: Config, s: State, t: State, j: nat)
    requires Shaped(c, s) && Shaped(c, t) && KsOk(c, s) && KsOk(c, t) && j < c.receivers
    requires SenderWork(c, t.sender) == SenderWork(c, s.sender) && Launched(t.sender) == Launched(s.sender)
    requires LinkLess(c, s, t, j)
    requires forall i :: 0 <= i < c.receivers && i != j ==>
        t.sender.pushed[i] == s.sender.pushed[i] && t.receivers[i] == s.receivers[i]
    ensures TotalWork(c, t) < TotalWork(c, s)
  {
    forall i | 0 <= i < c.receivers && i != j
      ensures LinkSame(c, s, t, i)
    {
    }
    OneLinkLess(c, s, t, j, c.receivers);
  }

  lemma StepSenderDrops(c: Config, capacity: nat, s: State)
    requires c.Valid() && AllFit(c.buckets) && Inv(c, s) && KsOk(c, s) && Enabled(c, capacity, s, StepSender)
    requires Shaped(c, Apply(c, capacity, s, StepSender)) && KsOk(c, Apply(c, capacity, s, StepSender))
    ensures TotalWork(c, Apply(c, capacity, s, StepSender)) < TotalWork(c, s)
  {
    SenderStepKeeps(c, s.sender);
    SenderStepWorkDrops(c, s.sender);
    forall i | 0 <= i < c.receivers
      ensures Position(c, Launched(SenderStep(c, s.sender)), SenderStep(c, s.sender).pushed[i])
            == Position(c, Launched(s.sender), s.sender.pushed[i])
    {
      SenderStepKeepsCounters(c, s.sender, i);
    }
    SenderActionDrops(c, s, Apply(c, capacity, s, StepSender));
  }

  lemma PushDrops(c: Config, capacity: nat, s: State, i: nat)
    requires AllFit(c.buckets) && Inv(c, s) && KsOk(c, s) && Enabled(c, capacity, s, Push(i))
    requires Shaped(c, Apply(c, capacity, s, Push(i))) && KsOk(c, Apply(c, capacity, s, Push(i)))
    ensures TotalWork(c, Apply(c, capacity, s, Push(i))) < TotalWork(c, s)
  {
    assert Launched(s.sender) > 0;
    LinkActionDrops(c, s, Apply(c, capacity, s, Push(i)), i);
  }

  lemma StepReceiverDrops(c: Config, capacity: nat, s: State, i: nat)
    requires SizesOk(c) && AllFit(c.buckets) && Inv(c, s) && KsOk(c, s) && Enabled(c, capacity, s, StepReceiver(i))
    requires Shaped(c, Apply(c, capacity, s, StepReceiver(i))) && KsOk(c, Apply(c, capacity, s, StepReceiver(i)))
    ensures TotalWork(c, Apply(c, capacity, s, StepReceiver(i))) < TotalWork(c, s)
  {
    var r := s.receivers[i];
    assert ReceiverOk(c, r);
    ReceiverStepKeeps(c, r);
    ReceiverStepKeepsCounters(c, r);
    ReceiverStepWorkDrops(c, r);
    LinkActionDrops(c, s, Apply(c, capacity, s, StepReceiver(i)), i);
  }

  lemma TakeMetaDrops(c: Config, capacity: nat, s: State, i: nat)
    requires AllFit(c.buckets) && Inv(c, s) && KsOk(c, s) && Enabled(c, capacity, s, TakeMeta(i))
    requires Shaped(c, Apply(c, capacity, s, TakeMeta(i))) && KsOk(c, Apply(c, capacity, s, TakeMeta(i)))
    ensures TotalWork(c, Apply(c, capacity, s, TakeMeta(i))) < TotalWork(c, s)
  {
    LinkActionDrops(c, s, Apply(c, capacity, s, TakeMeta(i)), i);
  }

  lemma PullDrops(c: Config, capacity: nat, s: State, i: nat)
    requires AllFit(c.buckets) && Inv(c, s) && KsOk(c, s) && Enabled(c, capacity, s, Pull(i))
    requires Shaped(c, Apply(c, capacity, s, Pull(i))) && KsOk(c, Apply(c, capacity, s, Pull(i)))
    ensures TotalWork(c, Apply(c, capacity, s, Pull(i))) < TotalWork(c, s)
  {
    assert ReceiverOk(c, s.receivers[i]);
    PullWorkDrops(c, s.sender, s.sender.pushed[i], s.receivers[i], s.wires[i][0]);
    LinkActionDrops(c, s, Apply(c, capacity, s, Pull(i)), i);
  }

  lemma PullWorkDrops(c: Config, o: Sender, pushed: nat, r: Receiver, b: byte)
    requires AllFit(c.buckets) && ReceiverOk(c, r) && r.stage.Pulling? && r.pos < c.bucketSize
    ensures LinkWork(c, o, pushed, PullByte(r, b)) < LinkWork(c, o, pushed, r)
  {
    assert Begun(r) > 0;
  }

  lemma FinishReceiveDrops(c: Config, capacity: nat, s: State, i: nat)
    requires AllFit(c.buckets) && Inv(c, s) && KsOk(c, s) && Enabled(c, capacity, s, FinishReceive(i))
    requires Shaped(c, Apply(c, capacity, s, FinishReceive(i))) && KsOk(c, Apply(c, capacity, s, FinishReceive(i)))
    ensures TotalWork(c, Apply(c, capacity, s, FinishReceive(i))) < TotalWork(c, s)
  {
    LinkActionDrops(c, s, Apply(c, capacity, s, FinishReceive(i)), i);
  }

  /** Every step leaves less work. */
  lemma StepWorkDrops(c: Config, capacity: nat, s: State, a: Action)
    requires c.Valid() && AllFit(c.buckets) && Inv(c, s) && Enabled(c, capacity, s, a)
    requires Inv(c, Apply(c, capacity, s, a))
    ensures KsOk(c, s) && KsOk(c, Apply(c, capacity, s, a))
    ensures TotalWork(c, Apply(c, capacity, s, a)) < TotalWork(c, s)
  {
    InvKs(c, s);
    InvKs(c, Apply(c, capacity, s, a));
    SizesFit(c);
    match a
    case StepSender => StepSenderDrops(c, capacity, s);
    case Publish => SenderActionDrops(c, s, Apply(c, capacity, s, a));
    case Push(i) => PushDrops(c, capacity, s, i);
    case FinishSend => SenderActionDrops(c, s, Apply(c, capacity, s, a));
    case StepReceiver(i) => StepReceiverDrops(c, capacity, s, i);
    case TakeMeta(i) => TakeMetaDrops(c, capacity, s, i);
    case Pull(i) => PullDrops(c, capacity, s, i);
    case FinishReceive(i) => FinishReceiveDrops(c, capacity, s, i);
  }

  lemma WorkIsNat(c: Config, s: State)
    requires AllFit(c.buckets) && Inv(c, s)
    ensures KsOk(c, s) && TotalWork(c, s) >= 0
  {
    InvKs(c, s);
    SenderWorkIsNat(c, s.sender);
    LinksWorkIsNat(c, s, c.receivers);
  }

  lemma {:induction false} RunsAreBounded(c: Config, capacity: nat, from: State, actions: seq<Action>, to: State)
    requires c.Valid() && AllFit(c.buckets) && Inv(c, from) && IsRun(c, capacity, from, actions, to)
    ensures KsOk(c, from) && |actions| <= TotalWork(c, from)
    decreases |actions|
  {
    WorkIsNat(c, from);
    if actions != [] {
      StepKeepsInv(c, capacity, from, actions[0]);
      StepWorkDrops(c, capacity, from, actions[0]);
      RunsAreBounded(c, capacity, Apply(c, capacity, from, actions[0]), actions[1..], to);
    }
  }

  /** Every run is finite: the work at the start bounds the number of its steps. */
  lemma BroadcastTerminates(c: Config, capacity: nat, actions: seq<Action>, to: State)
    requires c.Valid() && IsRun(c, capacity, Initial(c), actions, to)
    ensures Shaped(c, Initial(c)) && KsOk(c, Initial(c)) && |actions| <= TotalWork(c, Initial(c))
  {
    ConfigFits(c);
    InitialOk(c);
    RunsAreBounded(c, capacity, Initial(c), actions, to);
  }

  /** From any state of a run, the run can be carried on until nothing is enabled. */
  lemma {:induction false} RunCanBeCompleted(c: Config, capacity: nat, s: State)
    returns (actions: seq<Action>, to: State)
    requires c.Valid() && AllFit(c.buckets) && Inv(c, s)
    ensures IsRun(c, capacity, s, actions, to) && Shaped(c, to) && Stuck(c, capacity, to)
    decreases (WorkIsNat(c, s); TotalWork(c, s))
  {
    WorkIsNat(c, s);
    if Stuck(c, capacity, s) {
      actions, to := [], s;
    } else {
      var a :| Enabled(c, capacity, s, a);
      StepKeepsInv(c, capacity, s, a);
      StepWorkDrops(c, capacity, s, a);
      WorkIsNat(c, Apply(c, capacity, s, a));
      var rest, end := RunCanBeCompleted(c, capacity, Apply(c, capacity, s, a));
      actions, to := [a] + rest, end;
      assert actions[1..] == rest;
    }
  }
}
