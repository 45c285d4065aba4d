/** Safety, absence of deadlock and delivery of the broadcast, over every interleaving. */
module BroadcastTheorems {
  import opened Options
  import opened WeightChunks
  import opened Buckets
  import opened Alignment
  import opened Delivery
  import opened BroadcastChannel
  import opened BroadcastProofs

  ghost predicate Reachable(c: Config, capacity: nat, s: State) {
    exists actions :: IsRun(c, capacity, Initial(c), actions, s)
  }

  lemma ReachableOk(c: Config, capacity: nat, s: State)
    requires c.Valid() && Reachable(c, capacity, s)
    ensures AllFit(c.buckets) && Inv(c, s)
  {
    ConfigFits(c);
    InitialOk(c);
    var actions :| IsRun(c, capacity, Initial(c), actions, s);
    RunKeepsInv(c, capacity, Initial(c), actions, s);
  }

  // ---------------------------------------------------------------- safety

  /** Rank 0 never writes the buffer of the broadcast it launched last, finished or not, whatever names and
      places the buckets hold. */
  lemma SenderNeverWritesOpenBuffer(c: Config, capacity: nat, s: State)
    requires c.Valid() && Reachable(c, capacity, s)
    ensures s.sender.phase.Filling? && !s.sender.stage.NoSend? ==> s.sender.front != s.sender.slot
  {
    ReachableOk(c, capacity, s);
    if s.sender.phase.Filling? && !s.sender.stage.NoSend? { OperationReadsBack(c, s.sender); }
  }

  /** Rank 0 crashes only where a bucket repeats a name, a receiver only where a view is not aligned. */
  lemma CrashReason(c: Config, capacity: nat, s: State, i: nat)
    requires c.Valid() && Reachable(c, capacity, s) && i < c.receivers
    ensures |s.receivers| == c.receivers && s.sender.k < |c.buckets|
    ensures s.sender.crashed ==> RepeatsName(c, s.sender) && !AllDistinct(c.buckets)
    ensures s.receivers[i].crashed ==> Misplaced(c, s.receivers[i]) && !PlacesAligned(c.buckets, c.bucketSize)
  {
    ReachableOk(c, capacity, s);
    assert ReceiverOk(c, s.receivers[i]);
    if s.sender.crashed { SenderFails(c, s.sender); }
    if s.receivers[i].crashed { ReceiverFails(c, s.receivers[i]); }
  }

  lemma SenderFails(c: Config, o: Sender)
    requires SenderOk(c, o) && o.crashed
    ensures RepeatsName(c, o) && !c.buckets[o.k].DistinctNames()
  {
  }

  lemma ReceiverFails(c: Config, r: Receiver)
    requires AllFit(c.buckets) && ReceiverOk(c, r) && r.crashed
    ensures Misplaced(c, r) && !MetasAligned(c.buckets[r.k].metas, c.bucketSize)
  {
    assert r.meta.metas == c.buckets[r.k].metas;
  }

  /** Rank 0 launches a broadcast only when the one before is over. */
  lemma OneBroadcastAtATime(c: Config, capacity: nat, s: State)
    requires c.Valid() && Reachable(c, capacity, s) && s.sender.phase.Posting?
    ensures s.sender.stage.NoSend? || s.sender.stage.Pushed?
  {
    ReachableOk(c, capacity, s);
  }

  /** A receiver never receives into the buffer it yields from, nor launches one receive before the last is over. */
  lemma ReceiverNeverYieldsFromOpenBuffer(c: Config, capacity: nat, s: State, i: nat)
    requires c.Valid() && Reachable(c, capacity, s) && i < c.receivers
    ensures |s.receivers| == c.receivers
    ensures var r := s.receivers[i];
            && ((r.phase.Yielding? || r.phase.YieldLast?) && (r.stage.AwaitMeta? || r.stage.Pulling?) ==>
                  r.slot != r.front)
            && (r.phase.Launching? ==> r.stage.Pulled?)
  {
    ReachableOk(c, capacity, s);
    assert ReceiverOk(c, s.receivers[i]);
  }

  /** At any time a receiver yields from bucket k exactly as it was packed, and all it has yielded is a prefix of
      the packed chunks, with every view aligned; once it is done it has yielded all of them. */
  lemma EveryReceiverYieldsThePackedChunks(c: Config, capacity: nat, s: State, i: nat)
    requires c.Valid() && Reachable(c, capacity, s) && i < c.receivers
    ensures |s.receivers| == c.receivers && AllFit(c.buckets)
    ensures IsPrefix(s.receivers[i].out, AllChunks(c.buckets)) && AllAligned(s.receivers[i].out, c.bucketSize)
    ensures s.receivers[i].phase.Yielding? || s.receivers[i].phase.YieldLast? ==>
      var r := s.receivers[i];
      && r.k < |c.buckets| && r.meta == MessageFor(c, r.k) && Holds(c, r.Buf(r.front), r.k)
      && r.y <= |c.buckets[r.k].metas| && r.out == Delivered(c, r.k, r.y)
    ensures s.receivers[i].phase.Received? ==> s.receivers[i].out == AllChunks(c.buckets)
  {
    ReachableOk(c, capacity, s);
    var r := s.receivers[i];
    assert ReceiverOk(c, r);
    if Holding(r) { DeliveredIsPrefix(c, r.k, r.y); }
  }

  // ---------------------------------------------------------------- no deadlock

  ghost predicate Stuck(c: Config, capacity: nat, s: State)
    requires Shaped(c, s)
  {
    forall a :: !Enabled(c, capacity, s, a)
  }

  /** Where a receiver stands when nothing can happen: it is done or has crashed, or it waits for metadata or
      for bytes; and if there is anything on its wire, its operation is over. */
  lemma StuckReceiver(c: Config, capacity: nat, s: State, i: nat)
    requires AllFit(c.buckets) && Inv(c, s) && Stuck(c, capacity, s) && i < c.receivers
    ensures var r := s.receivers[i];
            || r.phase.Received?
            || r.crashed
            || (Overlapping(r) && r.stage.AwaitMeta? && s.mail[i] == [])
            || (Overlapping(r) && r.stage.Pulling? && r.pos < c.bucketSize && s.wires[i] == [])
    ensures var r := s.receivers[i];
            && (r.stage.AwaitMeta? ==> s.mail[i] == [])
            && (r.stage.Pulling? ==> r.pos < c.bucketSize && s.wires[i] == [])
  {
    assert ReceiverOk(c, s.receivers[i]);
    assert !Enabled(c, capacity, s, StepReceiver(i));
    assert !Enabled(c, capacity, s, TakeMeta(i));
    assert !Enabled(c, capacity, s, Pull(i));
    assert !Enabled(c, capacity, s, FinishReceive(i));
  }

  lemma {:induction false} BuffersGrow(c: Config, n: nat, m: nat)
    requires n <= m
    ensures Buffers(c, n) <= Buffers(c, m)
  {
    if n < m { EarlierPlace(c, n, m); }
  }

  /** n launched buckets are at most n buffers of bytes. */
  lemma PushedAtMost(c: Config, o: Sender, i: nat, n: nat)
    requires SenderOk(c, o) && i < c.receivers && Launched(o) <= n
    ensures Position(c, Launched(o), o.pushed[i]) <= Buffers(c, n)
  {
    if Launched(o) > 0 { BuffersGrow(c, Launched(o), n); }
  }

  lemma ReceivedEverything(c: Config, r: Receiver)
    requires AllFit(c.buckets) && ReceiverOk(c, r) && r.phase.Received?
    ensures Begun(r) == |c.buckets| && r.stage.Pulled?
  {
  }

  /** The bytes a receiver has pulled. */
  function PulledBytes(c: Config, r: Receiver): nat {
    Position(c, Begun(r), r.pos)
  }

  /** What a wire holds is what has been pushed and not pulled. */
  lemma OnTheWire(c: Config, s: State, i: nat)
    requires AllFit(c.buckets) && Inv(c, s) && i < c.receivers
    ensures |s.wires[i]| == Position(c, Launched(s.sender), s.sender.pushed[i]) - PulledBytes(c, s.receivers[i])
    ensures Published(s.sender) <= |c.buckets| && |s.mail[i]| == Published(s.sender) - Taken(s.receivers[i])
  {
    assert LinkOk(c, s.sender, s.sender.pushed[i], s.receivers[i], s.mail[i], s.wires[i]);
  }

  /** A receiver that has not crashed and cannot go on has nothing on its wire. */
  lemma StuckWireIsEmpty(c: Config, capacity: nat, s: State, i: nat)
    requires AllFit(c.buckets) && Inv(c, s) && Stuck(c, capacity, s) && i < c.receivers && !s.receivers[i].crashed
    ensures s.wires[i] == []
  {
    var o, r := s.sender, s.receivers[i];
    StuckReceiver(c, capacity, s, i);
    if r.phase.Received? {
      assert ReceiverOk(c, r);
      OnTheWire(c, s, i);
      ReceivedEverything(c, r);
      PushedAtMost(c, o, i, Begun(r));
    } else if r.stage.AwaitMeta? {
      UnannouncedWireIsEmpty(c, capacity, s, i);
    }
  }

  /** A receiver that waits for metadata waits for a broadcast that has not been launched. */
  lemma UnannouncedWireIsEmpty(c: Config, capacity: nat, s: State, i: nat)
    requires AllFit(c.buckets) && Inv(c, s) && Stuck(c, capacity, s) && i < c.receivers
    requires s.receivers[i].stage.AwaitMeta?
    ensures s.wires[i] == []
  {
    var o, r := s.sender, s.receivers[i];
    StuckReceiver(c, capacity, s, i);
    assert ReceiverOk(c, r);
    OnTheWire(c, s, i);
    assert !Enabled(c, capacity, s, Publish);
    PushedAtMost(c, o, i, Begun(r) - 1);
  }

  /** Of a receiver that has crashed in bucket k, the operation for bucket k + 1 is under way or over. */
  lemma CrashedHasPulled(c: Config, capacity: nat, s: State, i: nat)
    requires AllFit(c.buckets) && Inv(c, s) && Stuck(c, capacity, s) && i < c.receivers && s.receivers[i].crashed
    requires s.wires[i] != []
    ensures var r := s.receivers[i];
            && r.k < |c.buckets| && !MetasAligned(c.buckets[r.k].metas, c.bucketSize)
            && PulledBytes(c, r) == Buffers(c, if r.k == c.Last() then |c.buckets| else r.k + 2)
  {
    var r := s.receivers[i];
    assert ReceiverOk(c, r);
    StuckReceiver(c, capacity, s, i);
    ReceiverFails(c, r);
    if r.stage.AwaitMeta? { UnannouncedWireIsEmpty(c, capacity, s, i); }
    CrashedPosition(c, r);
  }

  lemma CrashedPosition(c: Config, r: Receiver)
    requires AllFit(c.buckets) && ReceiverOk(c, r) && r.crashed && r.stage.Pulled?
    ensures PulledBytes(c, r) == Buffers(c, if r.k == c.Last() then |c.buckets| else r.k + 2)
  {
    assert Misplaced(c, r);
    if r.phase.YieldLast? {
      assert r.k == c.Last() && Begun(r) == |c.buckets| && r.pos == c.bucketSize;
    } else {
      assert r.k < c.Last() && Begun(r) == r.k + 2 && r.pos == c.bucketSize;
    }
  }

  /** The wires can take the rest of the stream, for a receiver that crashes in bucket j: it has pulled the
      buckets up to j + 1. */
  ghost predicate RestFits(c: Config, capacity: nat, j: nat) {
    j + 2 < |c.buckets| ==> Buffers(c, |c.buckets|) <= Buffers(c, j + 2) + capacity
  }

  ghost predicate RestFitsOfMisaligned(c: Config, capacity: nat) {
    forall j {:trigger RestFits(c, capacity, j)} ::
      0 <= j < |c.buckets| && !MetasAligned(c.buckets[j].metas, c.bucketSize) ==> RestFits(c, capacity, j)
  }

  /** No wire is full while bytes are to be pushed. */
  lemma RoomOnTheWire(c: Config, capacity: nat, s: State, i: nat)
    requires AllFit(c.buckets) && capacity > 0 && Inv(c, s) && Stuck(c, capacity, s) && i < c.receivers
    requires s.sender.stage.Pushing? && s.sender.pushed[i] < c.bucketSize && RestFitsOfMisaligned(c, capacity)
    ensures |s.wires[i]| < capacity
  {
    var o, r := s.sender, s.receivers[i];
    if !r.crashed {
      StuckWireIsEmpty(c, capacity, s, i);
    } else if s.wires[i] != [] {
      CrashedHasPulled(c, capacity, s, i);
      OnTheWire(c, s, i);
      NotAllPushed(c, o, i);
      assert RestFits(c, capacity, r.k);
    }
  }

  lemma NotAllPushed(c: Config, o: Sender, i: nat)
    requires SenderOk(c, o) && i < c.receivers && o.stage.Pushing? && o.pushed[i] < c.bucketSize
    ensures Position(c, Launched(o), o.pushed[i]) < Buffers(c, |c.buckets|)
  {
    BuffersGrow(c, Launched(o), |c.buckets|);
  }

  lemma StuckSender(c: Config, capacity: nat, s: State)
    requires AllFit(c.buckets) && capacity > 0 && Inv(c, s) && Stuck(c, capacity, s)
    requires !s.sender.crashed && RestFitsOfMisaligned(c, capacity)
    ensures s.sender.phase.Sent?
  {
    var o := s.sender;
    assert !Enabled(c, capacity, s, StepSender);
    assert !Enabled(c, capacity, s, Publish);
    if !o.phase.Sent? {
      assert o.stage.Pushing?;
      assert !Enabled(c, capacity, s, FinishSend);
      var i :| 0 <= i < c.receivers && o.pushed[i] != c.bucketSize;
      RoomOnTheWire(c, capacity, s, i);
      assert Enabled(c, capacity, s, Push(i));
    }
  }

  lemma SentEverything(c: Config, o: Sender, i: nat)
    requires SenderOk(c, o) && o.phase.Sent? && i < c.receivers
    ensures Published(o) == |c.buckets| && Position(c, Launched(o), o.pushed[i]) == Buffers(c, |c.buckets|)
  {
  }

  lemma PulledLess(c: Config, r: Receiver)
    requires AllFit(c.buckets) && ReceiverOk(c, r) && Overlapping(r)
    ensures Taken(r) < |c.buckets| || r.stage.Pulling? || r.stage.Pulled?
    ensures r.stage.Pulling? && r.pos < c.bucketSize ==> Position(c, Begun(r), r.pos) < Buffers(c, |c.buckets|)
  {
    BuffersGrow(c, Begun(r), |c.buckets|);
  }

  lemma StuckReceiverIsDone(c: Config, capacity: nat, s: State, i: nat)
    requires AllFit(c.buckets) && capacity > 0 && Inv(c, s) && Stuck(c, capacity, s) && i < c.receivers
    requires s.sender.phase.Sent? && !s.receivers[i].crashed
    ensures s.receivers[i].phase.Received?
  {
    var r := s.receivers[i];
    StuckReceiver(c, capacity, s, i);
    SentEverything(c, s.sender, i);
    OnTheWire(c, s, i);
    if !r.phase.Received? {
      assert ReceiverOk(c, r);
      PulledLess(c, r);
    }
  }

  ghost predicate AllThrough(c: Config, s: State) {
    s.sender.phase.Sent? && forall i :: 0 <= i < |s.receivers| ==> s.receivers[i].phase.Received?
  }

  /** No deadlock, whatever the capacity of the wires: if no bucket holds a name twice and all views are aligned,
      then when nothing can happen any more rank 0 has sent and every receiver has received everything. */
  lemma NoDeadlock(c: Config, capacity: nat, s: State)
    requires c.Valid() && capacity > 0 && Reachable(c, capacity, s) && Shaped(c, s) && Stuck(c, capacity, s)
    requires AllDistinct(c.buckets) && PlacesAligned(c.buckets, c.bucketSize)
    ensures AllThrough(c, s)
  {
    ReachableOk(c, capacity, s);
    forall i | 0 <= i < c.receivers
      ensures !s.sender.crashed && !s.receivers[i].crashed
    {
      CrashReason(c, capacity, s, i);
    }
    assert !s.receivers[0].crashed;
    StuckSender(c, capacity, s);
    forall i | 0 <= i < c.receivers
      ensures s.receivers[i].phase.Received?
    {
      StuckReceiverIsDone(c, capacity, s, i);
    }
  }

  // ---------------------------------------------------------------- what keeps rank 0 from sending everything

  /** Rank 0 has not got past bucket j, whose chunk y repeats a name. */
  ghost predicate Held(o: Sender, j: nat, y: nat) {
    || (o.phase.Filling? && o.k <= j && (o.k == j ==> o.y <= y))
    || ((o.phase.Posting? || o.phase.AwaitPrevious?) && o.k < j)
  }

  lemma HeldStays(c: Config, capacity: nat, s: State, a: Action, j: nat, y: nat)
    requires j < |c.buckets| && y < |c.buckets[j].metas| && c.buckets[j].Repeats(y)
    requires Shaped(c, s) && Enabled(c, capacity, s, a) && Held(s.sender, j, y)
    ensures Held(Apply(c, capacity, s, a).sender, j, y)
  {
  }

  lemma {:induction false} RunsHold(c: Config, capacity: nat, from: State, actions: seq<Action>, to: State, j: nat,
                                    y: nat)
    requires j < |c.buckets| && y < |c.buckets[j].metas| && c.buckets[j].Repeats(y)
    requires IsRun(c, capacity, from, actions, to) && Held(from.sender, j, y)
    ensures Held(to.sender, j, y)
    decreases |actions|
  {
    if actions != [] {
      HeldStays(c, capacity, from, actions[0], j, y);
      RunsHold(c, capacity, Apply(c, capacity, from, actions[0]), actions[1..], to, j, y);
    }
  }

  /** A name that occurs twice in one bucket stops rank 0: it never has sent everything. */
  lemma DuplicateStopsSender(c: Config, capacity: nat, s: State)
    requires !AllDistinct(c.buckets) && Reachable(c, capacity, s)
    ensures !s.sender.phase.Sent?
  {
    var j :| 0 <= j < |c.buckets| && !c.buckets[j].DistinctNames();
    var y := FindRepeat(c.buckets[j]);
    var actions :| IsRun(c, capacity, Initial(c), actions, s);
    RunsHold(c, capacity, Initial(c), actions, s, j, y);
  }

  ghost predicate WiresHold(s: State, capacity: nat) {
    forall i :: 0 <= i < |s.wires| ==> |s.wires[i]| <= capacity
  }

  lemma {:induction false} RunsKeepCapacity(c: Config, capacity: nat, from: State, actions: seq<Action>, to: State)
    requires IsRun(c, capacity, from, actions, to) && WiresHold(from, capacity)
    ensures WiresHold(to, capacity)
    decreases |actions|
  {
    if actions != [] {
      RunsKeepCapacity(c, capacity, Apply(c, capacity, from, actions[0]), actions[1..], to);
    }
  }

  /** A receiver does not get past a bucket with a view that is not aligned, so it pulls one bucket more at most. */
  lemma PulledUpToNext(c: Config, r: Receiver, j: nat)
    requires AllFit(c.buckets) && ReceiverOk(c, r) && j < |c.buckets| && !MetasAligned(c.buckets[j].metas, c.bucketSize)
    ensures PulledBytes(c, r) <= Buffers(c, j + 2)
  {
    if Begun(r) > j + 2 { YieldedIsAligned(c, r, j); }
    if Begun(r) > 0 {
      PulledAtMost(c, r);
      BuffersGrow(c, Begun(r), j + 2);
    }
  }

  lemma YieldedIsAligned(c: Config, r: Receiver, j: nat)
    requires AllFit(c.buckets) && ReceiverOk(c, r) && j < |c.buckets| && Begun(r) > j + 2
    ensures MetasAligned(c.buckets[j].metas, c.bucketSize)
  {
    DeliveredIs(c, r.k, r.y);
    assert c.buckets[..j + 1] == c.buckets[..r.k][..j + 1];
    AllChunksSplit(c.buckets[..r.k], j + 1);
    AlignedChunks(c.buckets[..j + 1], c.bucketSize);
    assert c.buckets[..j + 1][j] == c.buckets[j];
  }

  lemma PulledAtMost(c: Config, r: Receiver)
    requires AllFit(c.buckets) && ReceiverOk(c, r) && Begun(r) > 0
    ensures r.pos <= c.bucketSize && PulledBytes(c, r) <= Buffers(c, Begun(r))
  {
  }

  /** A view that is not aligned stops rank 0 as well, unless the wires take the rest of the stream. */
  lemma MisalignedViewStopsSender(c: Config, capacity: nat, s: State)
    requires c.Valid() && Reachable(c, capacity, s) && !RestFitsOfMisaligned(c, capacity)
    ensures !s.sender.phase.Sent?
  {
    ReachableOk(c, capacity, s);
    if s.sender.phase.Sent? {
      var j :| 0 <= j < |c.buckets| && !MetasAligned(c.buckets[j].metas, c.bucketSize) && !RestFits(c, capacity, j);
      var actions :| IsRun(c, capacity, Initial(c), actions, s);
      RunsKeepCapacity(c, capacity, Initial(c), actions, s);
      assert ReceiverOk(c, s.receivers[0]) && |s.wires[0]| <= capacity;
      SentEverything(c, s.sender, 0);
      OnTheWire(c, s, 0);
      PulledUpToNext(c, s.receivers[0], j);
    }
  }

  /** When nothing can happen any more, rank 0 has sent everything if and only if no bucket holds a name twice and
      the wires can take what a receiver leaves that crashes at a misaligned view. */
  lemma SenderDoneExactly(c: Config, capacity: nat, s: State)
    requires c.Valid() && capacity > 0 && Reachable(c, capacity, s) && Shaped(c, s) && Stuck(c, capacity, s)
    ensures s.sender.phase.Sent? <==> AllDistinct(c.buckets) && RestFitsOfMisaligned(c, capacity)
  {
    ReachableOk(c, capacity, s);
    if !AllDistinct(c.buckets) {
      DuplicateStopsSender(c, capacity, s);
    } else if !RestFitsOfMisaligned(c, capacity) {
      MisalignedViewStopsSender(c, capacity, s);
    } else {
      CrashReason(c, capacity, s, 0);
      StuckSender(c, capacity, s);
    }
  }

  /** When nothing can happen any more, rank 0 has sent and every receiver has received everything if and only if
      no bucket holds a name twice and all views are aligned. */
  lemma AllThroughExactly(c: Config, capacity: nat, s: State)
    requires c.Valid() && capacity > 0 && Reachable(c, capacity, s) && Shaped(c, s) && Stuck(c, capacity, s)
    ensures AllThrough(c, s) <==> AllDistinct(c.buckets) && PlacesAligned(c.buckets, c.bucketSize)
  {
    if AllDistinct(c.buckets) && PlacesAligned(c.buckets, c.bucketSize) {
      NoDeadlock(c, capacity, s);
    } else if AllDistinct(c.buckets) {
      EveryReceiverYieldsThePackedChunks(c, capacity, s, 0);
      AlignedChunks(c.buckets, c.bucketSize);
      assert !s.receivers[0].phase.Received?;
    } else {
      DuplicateStopsSender(c, capacity, s);
    }
  }

  // ---------------------------------------------------------------- end to end

  /** Rank 0 packs any weights.  In every interleaving, at any time, a receiver has merged without error a part
      of the non-empty weights; and when it is done, all of them. */
  lemma MergedAtAnyTime(ws: seq<Weight>, bucketSize: nat, receivers: nat, capacity: nat, s: State, i: nat,
                        junk: nat -> byte)
    requires bucketSize > 0 && i < receivers && forall w :: w in ws ==> w.Valid()
    requires Reachable(Config(receivers, bucketSize, PackWeights(ws, bucketSize)), capacity, s)
    ensures |s.receivers| == receivers && AllSized(s.receivers[i].out)
    ensures var merged := MergeRun(Idle, s.receivers[i].out, bucketSize, junk);
            && merged.error == None && merged.weights <= NonEmpty(ws)
            && (s.receivers[i].phase.Received? ==> merged.weights == NonEmpty(ws))
  {
    var c := Config(receivers, bucketSize, PackWeights(ws, bucketSize));
    PackingIsSound(ws, bucketSize);
    EveryReceiverYieldsThePackedChunks(c, capacity, s, i);
    PartComesBack(ws, bucketSize, s.receivers[i].out, junk);
    AlignedChunks(c.buckets, bucketSize);
    PackedWeightsComeBack(ws, bucketSize, junk);
  }

  /** Whatever the interleaving, when nothing can happen any more: if no bucket holds a name twice and all views
      are aligned, every receiver has received everything and has merged exactly the non-empty weights; otherwise
      not every receiver is through, or rank 0 is not. */
  lemma BroadcastDeliversWeights(ws: seq<Weight>, bucketSize: nat, receivers: nat, capacity: nat, s: State, i: nat,
                                 junk: nat -> byte)
    requires bucketSize > 0 && capacity > 0 && i < receivers && forall w :: w in ws ==> w.Valid()
    requires var c := Config(receivers, bucketSize, PackWeights(ws, bucketSize));
             Reachable(c, capacity, s) && Shaped(c, s) && Stuck(c, capacity, s)
    ensures AllThrough(Config(receivers, bucketSize, PackWeights(ws, bucketSize)), s)
       <==> AllDistinct(PackWeights(ws, bucketSize)) && PlacesAligned(PackWeights(ws, bucketSize), bucketSize)
    ensures AllSized(s.receivers[i].out)
    ensures AllThrough(Config(receivers, bucketSize, PackWeights(ws, bucketSize)), s) ==>
              MergeRun(Idle, s.receivers[i].out, bucketSize, junk) == MergeOutcome(NonEmpty(ws), None)
  {
    PackingIsSound(ws, bucketSize);
    AllThroughExactly(Config(receivers, bucketSize, PackWeights(ws, bucketSize)), capacity, s);
    MergedAtAnyTime(ws, bucketSize, receivers, capacity, s, i, junk);
  }

  /** In particular the weights arrive if their names are distinct and a unit keeps their views aligned. */
  lemma BroadcastDeliversUnitWeights(ws: seq<Weight>, bucketSize: nat, unit: pos, receivers: nat, capacity: nat,
                                     s: State, i: nat, junk: nat -> byte)
    requires bucketSize > 0 && DistinctWeightNames(ws) && HasUnit(ws, bucketSize, unit)
    requires forall w :: w in ws ==> w.Valid()
    requires capacity > 0 && i < receivers
    requires var c := Config(receivers, bucketSize, PackWeights(ws, bucketSize));
             Reachable(c, capacity, s) && Shaped(c, s) && Stuck(c, capacity, s)
    ensures AllSized(s.receivers[i].out)
    ensures MergeRun(Idle, s.receivers[i].out, bucketSize, junk) == MergeOutcome(NonEmpty(ws), None)
  {
    NoNameTwiceInABucket(ws, bucketSize);
    UnitKeepsAlignment(ws, bucketSize, unit);
    BroadcastDeliversWeights(ws, bucketSize, receivers, capacity, s, i, junk);
  }
}
