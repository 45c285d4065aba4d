/** Progress, termination and end-to-end delivery of the relay chain. */
module RelayChainTheorems {
  import opened Options
  import opened WeightChunks
  import opened Buckets
  import opened Alignment
  import opened Delivery
  import opened RelayChain
  import opened RelayChainProofs

  // ---------------------------------------------------------------- some step is always enabled

  ghost predicate Stuck(c: Config, s: State)
    requires Shaped(c, s)
  {
    forall a :: !Enabled(c, s, a)
  }

  /** In a stuck state no transfer is under way, and a rank is done, has crashed or waits for an empty queue. */
  lemma StuckRank(c: Config, s: State, r: nat)
    requires AllFit(c.buckets) && Inv(c, s) && Stuck(c, s) && r <= c.receivers
    ensures var rk := s.ranks[r];
            && (r > 0 ==> ReadCount(rk) == BegunCount(rk))
            && (rk.phase.Done? || rk.crashed || (r > 0 && rk.NeedsMail() && s.mail[r - 1] == [])
                || (r < c.receivers && rk.NeedsNotification() && s.notes[r] == []))
  {
    var rk := s.ranks[r];
    assert RankOk(c, r, rk);
    assert !Enabled(c, s, Local(r));
    assert !Enabled(c, s, MoveByte(r));
    assert !Enabled(c, s, Complete(r));
  }

  /** How a rank's counters stand while it waits. */
  lemma WaitingCounters(c: Config, r: nat, rk: Rank)
    requires AllFit(c.buckets) && r <= c.receivers && RankOk(c, r, rk)
    ensures rk.NeedsNotification() ==> r < c.receivers && !rk.crashed && PostedCount(rk) == AckedCount(rk) + 1
    ensures rk.NeedsMail() ==> r > 0 && !rk.crashed && BegunCount(rk) < |c.buckets|
    ensures rk.phase.Done? ==>
              !rk.crashed && PostedCount(rk) == |c.buckets| && (r > 0 ==> BegunCount(rk) == |c.buckets|)
    ensures r < c.receivers ==> PostedCount(rk) <= |c.buckets|
  {
  }

  /** The buckets whose views decide whether every read is begun: all but the last two. */
  function AllButTwo(bs: seq<Bucket>): seq<Bucket> {
    bs[..if |bs| >= 2 then |bs| - 2 else 0]
  }

  /** A receiver that crashes in one of the last two buckets has begun every read before. */
  lemma LateCrash(c: Config, r: nat, rk: Rank)
    requires AllFit(c.buckets) && 0 < r <= c.receivers && RankOk(c, r, rk) && rk.crashed
    requires PlacesAligned(AllButTwo(c.buckets), c.bucketSize)
    ensures BegunCount(rk) == |c.buckets|
  {
    var early := AllButTwo(c.buckets);
    assert forall j :: 0 <= j < |early| ==> early[j] == c.buckets[j] && MetasAligned(early[j].metas, c.bucketSize);
    RankFails(c, r, rk);
  }

  /** While rank r waits for a notification that has not come, the bucket is in rank r + 1's mail. */
  lemma MissingNotificationIsUnread(c: Config, s: State, r: nat)
    requires AllFit(c.buckets) && Inv(c, s) && Stuck(c, s) && r < c.receivers && s.ranks[r].NeedsNotification()
    requires PlacesAligned(AllButTwo(c.buckets), c.bucketSize)
    ensures s.mail[r] != [] && !s.ranks[r + 1].phase.Done? && !s.ranks[r + 1].crashed
  {
    var up, down := s.ranks[r], s.ranks[r + 1];
    WaitingCounters(c, r, up);
    StuckRank(c, s, r);
    StuckRank(c, s, r + 1);
    assert LinkOk(c, r, PostedCount(up), AckedCount(up), BegunCount(down), ReadCount(down), s.mail[r], s.notes[r]) by {
      assert Link(c, s, r);
    }
    UnreadPost(c, r, PostedCount(up), BegunCount(down), s.mail[r]);
    BegunNotAll(c, r + 1, down);
  }

  /** A receiver that has not begun every read is not done, nor has it crashed in one of the last two buckets. */
  lemma BegunNotAll(c: Config, r: nat, rk: Rank)
    requires AllFit(c.buckets) && 0 < r <= c.receivers && RankOk(c, r, rk) && BegunCount(rk) < |c.buckets|
    requires PlacesAligned(AllButTwo(c.buckets), c.bucketSize)
    ensures !rk.phase.Done? && !rk.crashed
  {
    WaitingCounters(c, r, rk);
    if rk.crashed { LateCrash(c, r, rk); }
  }

  lemma UnreadPost(c: Config, r: nat, posted: int, begun: int, mail: seq<Message>)
    requires LinkOk(c, r, posted, posted - 1, begun, begun, mail, [])
    ensures begun == posted - 1 && mail != []
  {
  }

  /** Waiting for a notification: the successor would have to wait for one as well, up to the last rank. */
  lemma {:induction false} NoneWaitsForNotification(c: Config, s: State, r: nat)
    requires AllFit(c.buckets) && Inv(c, s) && Stuck(c, s) && r <= c.receivers
    requires PlacesAligned(AllButTwo(c.buckets), c.bucketSize)
    ensures !s.ranks[r].NeedsNotification()
    decreases c.receivers - r
  {
    assert RankOk(c, r, s.ranks[r]);
    WaitingCounters(c, r, s.ranks[r]);
    if s.ranks[r].NeedsNotification() {
      MissingNotificationIsUnread(c, s, r);
      StuckRank(c, s, r + 1);
      NoneWaitsForNotification(c, s, r + 1);
    }
  }

  /** While rank r waits for a message that has not come, rank r - 1 has not posted everything. */
  lemma MissingMailIsUnposted(c: Config, s: State, r: nat)
    requires AllFit(c.buckets) && Inv(c, s) && Stuck(c, s) && 0 < r <= c.receivers && s.ranks[r].NeedsMail()
    ensures !s.ranks[r - 1].phase.Done?
  {
    assert RankOk(c, r, s.ranks[r]) && RankOk(c, r - 1, s.ranks[r - 1]) && Link(c, s, r - 1);
    StuckRank(c, s, r);
    WaitingCounters(c, r, s.ranks[r]);
    WaitingCounters(c, r - 1, s.ranks[r - 1]);
  }

  ghost predicate NoCrash(c: Config, s: State)
    requires Shaped(c, s)
  {
    forall r :: 0 <= r <= c.receivers ==> !s.ranks[r].crashed
  }

  /** Waiting for a message: the predecessor would have to wait for one as well, down to rank 0. */
  lemma {:induction false} NoneWaitsForMail(c: Config, s: State, r: nat)
    requires AllFit(c.buckets) && Inv(c, s) && Stuck(c, s) && r <= c.receivers && NoCrash(c, s)
    requires PlacesAligned(AllButTwo(c.buckets), c.bucketSize)
    ensures !s.ranks[r].NeedsMail()
    decreases r
  {
    assert RankOk(c, r, s.ranks[r]);
    WaitingCounters(c, r, s.ranks[r]);
    if s.ranks[r].NeedsMail() {
      MissingMailIsUnposted(c, s, r);
      StuckRank(c, s, r - 1);
      NoneWaitsForNotification(c, s, r - 1);
      NoneWaitsForMail(c, s, r - 1);
    }
  }

  ghost predicate AllDone(c: Config, s: State)
    requires Shaped(c, s)
  {
    forall r :: 0 <= r <= c.receivers ==> s.ranks[r].phase.Done?
  }

  /** No deadlock: if no bucket holds a name twice and all views are aligned, a reachable state in which nothing
      can happen is one in which every rank is done. */
  lemma NoDeadlock(c: Config, s: State)
    requires c.Valid() && Reachable(c, s) && Shaped(c, s) && Stuck(c, s)
    requires AllDistinct(c.buckets) && PlacesAligned(c.buckets, c.bucketSize)
    ensures AllDone(c, s)
  {
    ReachableOk(c, s);
    forall r | 0 <= r <= c.receivers
      ensures !s.ranks[r].crashed
    {
      NoRankCrashes(c, s, r);
    }
    forall r | 0 <= r <= c.receivers
      ensures s.ranks[r].phase.Done?
    {
      StuckRank(c, s, r);
      NoneWaitsForNotification(c, s, r);
      NoneWaitsForMail(c, s, r);
    }
  }

  // ---------------------------------------------------------------- every run is finite

  /** An upper bound on the steps one rank still spends on the buckets from j on. */
  function BucketWork(c: Config, j: nat): nat
    decreases |c.buckets| - j
  {
    if j >= |c.buckets| then 0 else |c.buckets[j].metas| + c.bucketSize + 10 + BucketWork(c, j + 1)
  }

  function TransferWork(c: Config, t: Transfer): int {
    if t.NoTransfer? then 0 else c.bucketSize - t.pos + if t.done then 0 else 1
  }

  /** The steps rank r has left, for the states of the invariant; one of them is to crash. */
  function RankWork(c: Config, r: nat, rk: Rank): int
    requires Ready(c, rk)
  {
    PhaseWork(c, r, rk) + if rk.crashed then 0 else 1
  }

  function PhaseWork(c: Config, r: nat, rk: Rank): int
    requires Ready(c, rk)
  {
    var n := |c.buckets[rk.k].metas|;
    var reading := if rk.k + 1 < |c.buckets|
                   then BucketWork(c, rk.k + 2) + |c.buckets[rk.k + 1].metas| + 8 + TransferWork(c, rk.transfer) else 0;
    match rk.phase
    case Filling => BucketWork(c, rk.k + 1) + (n - rk.y) + 5
    case AwaitPrevious => BucketWork(c, rk.k + 1) + 4
    case Posting => BucketWork(c, rk.k + 1) + (if r == 0 then 3 else n + 7)
    case AwaitLast => 2
    case AwaitFirst => BucketWork(c, 0)
    case ReadFirst => BucketWork(c, 1) + |c.buckets[0].metas| + 8 + TransferWork(c, rk.transfer)
    case AwaitNext => BucketWork(c, rk.k + 1) + n + 6
    case Yielding => reading + (n - rk.y) + 5
    case AwaitRelayed => reading + 4
    case AwaitRead => reading + 3
    case YieldLast => n - rk.y + 5
    case Done => 0
  }

  lemma WorkIsNat(c: Config, r: nat, rk: Rank)
    requires AllFit(c.buckets) && RankOk(c, r, rk)
    ensures RankWork(c, r, rk) >= 0
  {
  }

  lemma PostWorkDrops(c: Config, rk: Rank)
    requires Ready(c, rk) && rk.phase.Posting?
    ensures Ready(c, Posted(c, 0, rk)) && RankWork(c, 0, Posted(c, 0, rk)) < RankWork(c, 0, rk)
  {
  }

  lemma FillWorkDrops(c: Config, rk: Rank)
    requires Ready(c, rk) && rk.phase.Filling? && rk.y <= |c.buckets[rk.k].metas|
    requires !rk.crashed && Ready(c, LocalStep(c, 0, rk, NO_MESSAGE, 0))
    ensures RankWork(c, 0, LocalStep(c, 0, rk, NO_MESSAGE, 0)) < RankWork(c, 0, rk)
  {
  }

  lemma SenderWorkDrops(c: Config, rk: Rank)
    requires Ready(c, rk) && (rk.phase.Posting? || (rk.phase.Filling? && rk.y <= |c.buckets[rk.k].metas|))
    requires !rk.crashed && Ready(c, LocalStep(c, 0, rk, NO_MESSAGE, 0))
    ensures RankWork(c, 0, LocalStep(c, 0, rk, NO_MESSAGE, 0)) < RankWork(c, 0, rk)
  {
    if rk.phase.Posting? {
      PostWorkDrops(c, rk);
    } else {
      FillWorkDrops(c, rk);
    }
  }

  lemma RelayPostWorkDrops(c: Config, r: nat, rk: Rank)
    requires AllFit(c.buckets) && 0 < r <= c.receivers && RankOk(c, r, rk) && rk.phase.Posting?
    ensures Ready(c, Posted(c, r, rk)) && RankWork(c, r, Posted(c, r, rk)) < RankWork(c, r, rk)
  {
  }

  lemma YieldWorkDrops(c: Config, r: nat, rk: Rank)
    requires AllFit(c.buckets) && 0 < r <= c.receivers && RankOk(c, r, rk)
    requires (rk.phase.Yielding? || rk.phase.YieldLast?) && !rk.crashed
    ensures Ready(c, LocalStep(c, r, rk, NO_MESSAGE, 0))
    ensures RankWork(c, r, LocalStep(c, r, rk, NO_MESSAGE, 0)) < RankWork(c, r, rk)
  {
    if rk.y < |rk.meta.metas| { ChunkWorkDrops(c, r, rk); } else { YieldedWorkDrops(c, r, rk); }
  }

  lemma ChunkWorkDrops(c: Config, r: nat, rk: Rank)
    requires Ready(c, rk) && (rk.phase.Yielding? || rk.phase.YieldLast?) && !rk.crashed && rk.y < |rk.meta.metas|
    ensures Ready(c, YieldChunk(c, rk)) && RankWork(c, r, YieldChunk(c, rk)) < RankWork(c, r, rk)
  {
  }

  lemma YieldedWorkDrops(c: Config, r: nat, rk: Rank)
    requires AllFit(c.buckets) && 0 < r <= c.receivers && RankOk(c, r, rk)
    requires (rk.phase.Yielding? || rk.phase.YieldLast?) && !rk.crashed && rk.y >= |rk.meta.metas|
    ensures Ready(c, LocalStep(c, r, rk, NO_MESSAGE, 0))
    ensures RankWork(c, r, LocalStep(c, r, rk, NO_MESSAGE, 0)) < RankWork(c, r, rk)
  {
  }

  lemma ReceiverWorkDrops(c: Config, r: nat, rk: Rank)
    requires AllFit(c.buckets) && 0 < r <= c.receivers && RankOk(c, r, rk)
    requires (rk.phase.Posting? || rk.phase.Yielding? || rk.phase.YieldLast?) && !rk.crashed
    ensures Ready(c, LocalStep(c, r, rk, NO_MESSAGE, 0))
    ensures RankWork(c, r, LocalStep(c, r, rk, NO_MESSAGE, 0)) < RankWork(c, r, rk)
  {
    if rk.phase.Posting? { RelayPostWorkDrops(c, r, rk); } else { YieldWorkDrops(c, r, rk); }
  }

  lemma ReadWorkDrops(c: Config, r: nat, rk: Rank, m: Message)
    requires AllFit(c.buckets) && 0 < r <= c.receivers && RankOk(c, r, rk)
    requires rk.NeedsMail() || rk.NeedsTransfer()
    requires InputsOk(c, r, rk, m, 0) && Ready(c, LocalStep(c, r, rk, m, 0))
    ensures RankWork(c, r, LocalStep(c, r, rk, m, 0)) < RankWork(c, r, rk)
  {
    if rk.NeedsMail() { BeginWorkDrops(c, r, rk, m); } else { SwapWorkDrops(c, r, rk); }
  }

  lemma BeginWorkDrops(c: Config, r: nat, rk: Rank, m: Message)
    requires AllFit(c.buckets) && 0 < r && RankOk(c, r, rk) && rk.NeedsMail()
    ensures var rk' := BeginRead(rk, m, if rk.phase.AwaitFirst? then ReadFirst else Yielding);
            Ready(c, rk') && RankWork(c, r, rk') < RankWork(c, r, rk)
  {
  }

  lemma SwapWorkDrops(c: Config, r: nat, rk: Rank)
    requires AllFit(c.buckets) && 0 < r && RankOk(c, r, rk) && rk.NeedsTransfer()
    requires rk.transfer.Transfer? && rk.transfer.done
    ensures var rk' := SwapIn(rk, if rk.phase.ReadFirst? then 0 else rk.k + 1);
            Ready(c, rk') && RankWork(c, r, rk') < RankWork(c, r, rk)
  {
  }

  lemma NoteWorkDrops(c: Config, r: nat, rk: Rank, note: nat)
    requires Ready(c, rk) && rk.NeedsNotification() && !rk.crashed && (rk.phase.AwaitPrevious? ==> r == 0)
    requires Ready(c, LocalStep(c, r, rk, NO_MESSAGE, note))
    ensures RankWork(c, r, LocalStep(c, r, rk, NO_MESSAGE, note)) < RankWork(c, r, rk)
  {
  }

  lemma LocalWorkDrops(c: Config, r: nat, rk: Rank, m: Message, note: nat)
    requires c.Valid() && AllFit(c.buckets) && r <= c.receivers && RankOk(c, r, rk)
    requires !rk.phase.Done? && !rk.crashed && InputsOk(c, r, rk, m, note)
    requires RankOk(c, r, LocalStep(c, r, rk, m, note))
    ensures RankWork(c, r, LocalStep(c, r, rk, m, note)) < RankWork(c, r, rk)
  {
    if rk.NeedsNotification() {
      NoteWorkDrops(c, r, rk, note);
    } else if rk.NeedsMail() || rk.NeedsTransfer() {
      ReadWorkDrops(c, r, rk, m);
    } else if r == 0 {
      SenderWorkDrops(c, rk);
    } else {
      ReceiverWorkDrops(c, r, rk);
    }
  }

  /** The work of the first n ranks. */
  function ChainWork(c: Config, ranks: seq<Rank>, n: nat): int
    requires n <= |ranks| && forall r :: 0 <= r < |ranks| ==> Ready(c, ranks[r])
  {
    if n == 0 then 0 else ChainWork(c, ranks, n - 1) + RankWork(c, n - 1, ranks[n - 1])
  }

  lemma {:induction false} ChainWorkUpdate(c: Config, ranks: seq<Rank>, n: nat, r: nat, rk: Rank)
    requires n <= |ranks| && r < |ranks| && Ready(c, rk) && forall i :: 0 <= i < |ranks| ==> Ready(c, ranks[i])
    ensures ChainWork(c, ranks[r := rk], n)
         == ChainWork(c, ranks, n) + (if r < n then RankWork(c, r, rk) - RankWork(c, r, ranks[r]) else 0)
  {
    if n > 0 {
      ChainWorkUpdate(c, ranks, n - 1, r, rk);
    }
  }

  lemma {:induction false} ChainWorkIsNat(c: Config, ranks: seq<Rank>, n: nat)
    requires AllFit(c.buckets) && RanksOk(c, ranks) && n <= |ranks|
    requires forall r :: 0 <= r < |ranks| ==> Ready(c, ranks[r])
    ensures ChainWork(c, ranks, n) >= 0
  {
    if n > 0 {
      assert RankOk(c, n - 1, ranks[n - 1]);
      WorkIsNat(c, n - 1, ranks[n - 1]);
      ChainWorkIsNat(c, ranks, n - 1);
    }
  }

  function TotalWork(c: Config, s: State): int
    requires Shaped(c, s)
  {
    ChainWork(c, s.ranks, |s.ranks|)
  }

  lemma LocalStepWorkDrops(c: Config, s: State, r: nat)
    requires c.Valid() && AllFit(c.buckets) && Inv(c, s) && Enabled(c, s, Local(r)) && Inv(c, Apply(c, s, Local(r)))
    ensures TotalWork(c, Apply(c, s, Local(r))) < TotalWork(c, s)
  {
    var rk, rk' := s.ranks[r], Apply(c, s, Local(r)).ranks[r];
    assert RankOk(c, r, rk) && RankOk(c, r, rk');
    ChainWorkUpdate(c, s.ranks, |s.ranks|, r, rk');
    InputsAreExpected(c, s, r);
    LocalWorkDrops(c, r, rk, MailHead(s, r), NoteHead(s, r));
  }

  lemma TransferStepWorkDrops(c: Config, s: State, a: Action)
    requires AllFit(c.buckets) && Inv(c, s) && Enabled(c, s, a) && Inv(c, Apply(c, s, a)) && !a.Local?
    ensures TotalWork(c, Apply(c, s, a)) < TotalWork(c, s)
  {
    var rk, rk' := s.ranks[a.r], Apply(c, s, a).ranks[a.r];
    assert RankOk(c, a.r, rk) && RankOk(c, a.r, rk');
    ChainWorkUpdate(c, s.ranks, |s.ranks|, a.r, rk');
    TransferWorkDrops(c, a.r, rk, rk');
  }

  /** Every step leaves less work. */
  lemma StepWorkDrops(c: Config, s: State, a: Action)
    requires c.Valid() && AllFit(c.buckets) && Inv(c, s) && Enabled(c, s, a) && Inv(c, Apply(c, s, a))
    ensures TotalWork(c, Apply(c, s, a)) < TotalWork(c, s)
  {
    if a.Local? {
      LocalStepWorkDrops(c, s, a.r);
    } else {
      TransferStepWorkDrops(c, s, a);
    }
  }

  lemma TransferWorkDrops(c: Config, r: nat, rk: Rank, rk': Rank)
    requires AllFit(c.buckets) && 0 < r && RankOk(c, r, rk) && RankOk(c, r, rk') && rk.Reading()
    requires rk'.phase == rk.phase && rk'.crashed == rk.crashed && rk'.k == rk.k && rk'.y == rk.y
    requires TransferWork(c, rk'.transfer) < TransferWork(c, rk.transfer)
    ensures RankWork(c, r, rk') < RankWork(c, r, rk)
  {
  }

  /** Every run is finite: the work left at the start bounds the number of steps. */
  lemma {:induction false} RunsAreBounded(c: Config, from: State, actions: seq<Action>, to: State)
    requires c.Valid() && AllFit(c.buckets) && Inv(c, from) && IsRun(c, from, actions, to)
    ensures Shaped(c, to) && |actions| + TotalWork(c, to) <= TotalWork(c, from) && TotalWork(c, to) >= 0
    decreases |actions|
  {
    if actions == [] {
      ChainWorkIsNat(c, to.ranks, |to.ranks|);
    } else {
      StepKeepsInv(c, from, actions[0]);
      StepWorkDrops(c, from, actions[0]);
      RunsAreBounded(c, Apply(c, from, actions[0]), actions[1..], to);
    }
  }

  lemma ChainTerminates(c: Config, actions: seq<Action>, to: State)
    requires c.Valid() && IsRun(c, Initial(c), actions, to)
    ensures Shaped(c, Initial(c)) && |actions| <= TotalWork(c, Initial(c))
  {
    ConfigFits(c);
    InitialOk(c);
    RunsAreBounded(c, Initial(c), actions, to);
  }

  /** From any state of a run, the run can be carried on until nothing is enabled. */
  lemma {:induction false} RunCanBeCompleted(c: Config, s: State) returns (actions: seq<Action>, to: State)
    requires c.Valid() && AllFit(c.buckets) && Inv(c, s)
    ensures IsRun(c, s, actions, to) && Shaped(c, to) && Stuck(c, to)
    decreases TotalWork(c, s)
  {
    ChainWorkIsNat(c, s.ranks, |s.ranks|);
    if Stuck(c, s) {
      actions, to := [], s;
    } else {
      var a :| Enabled(c, s, a);
      StepKeepsInv(c, s, a);
      StepWorkDrops(c, s, a);
      ChainWorkIsNat(c, Apply(c, s, a).ranks, |s.ranks|);
      var rest, end := RunCanBeCompleted(c, Apply(c, s, a));
      actions, to := [a] + rest, end;
      assert actions[1..] == rest;
    }
  }

  // ---------------------------------------------------------------- delivery

  /** In every interleaving, at any time, what a receiver has yielded is a prefix of the chunks rank 0 packed,
      metadata and bytes, with every view aligned; and when the receiver is done it is all of them. */
  lemma EveryReceiverYieldsThePackedChunks(c: Config, s: State, r: nat)
    requires c.Valid() && Reachable(c, s) && 0 < r <= c.receivers
    ensures |s.ranks| == c.receivers + 1 && AllFit(c.buckets)
    ensures IsPrefix(s.ranks[r].out, AllChunks(c.buckets)) && AllAligned(s.ranks[r].out, c.bucketSize)
    ensures s.ranks[r].phase.Done? ==> s.ranks[r].out == AllChunks(c.buckets)
  {
    ReachableOk(c, s);
    var rk := s.ranks[r];
    assert RankOk(c, r, rk);
    if Holding(rk) {
      DeliveredIsPrefix(c, rk.k, rk.y);
    }
  }

  // ---------------------------------------------------------------- what keeps rank 0 from getting done

  /** Rank 0 has not got past bucket j, whose chunk y repeats a name. */
  ghost predicate Held(rk: Rank, j: nat, y: nat) {
    || (rk.phase.Filling? && rk.k <= j && (rk.k == j ==> rk.y <= y))
    || ((rk.phase.Posting? || rk.phase.AwaitPrevious?) && rk.k < j)
  }

  lemma HeldStays(c: Config, s: State, a: Action, j: nat, y: nat)
    requires j < |c.buckets| && y < |c.buckets[j].metas| && c.buckets[j].Repeats(y)
    requires Shaped(c, s) && Enabled(c, s, a) && Held(s.ranks[0], j, y)
    ensures |Apply(c, s, a).ranks| == c.receivers + 1 && Held(Apply(c, s, a).ranks[0], j, y)
  {
  }

  lemma {:induction false} RunsHold(c: Config, from: State, actions: seq<Action>, to: State, j: nat, y: nat)
    requires j < |c.buckets| && y < |c.buckets[j].metas| && c.buckets[j].Repeats(y)
    requires IsRun(c, from, actions, to) && |from.ranks| == c.receivers + 1 && Held(from.ranks[0], j, y)
    ensures |to.ranks| == c.receivers + 1 && Held(to.ranks[0], j, y)
    decreases |actions|
  {
    if actions != [] {
      HeldStays(c, from, actions[0], j, y);
      RunsHold(c, Apply(c, from, actions[0]), actions[1..], to, j, y);
    }
  }

  /** A name that occurs twice in one bucket stops rank 0: it never gets done. */
  lemma DuplicateStopsSender(c: Config, s: State)
    requires !AllDistinct(c.buckets) && Reachable(c, s)
    ensures |s.ranks| == c.receivers + 1 && !s.ranks[0].phase.Done?
  {
    var j :| 0 <= j < |c.buckets| && !c.buckets[j].DistinctNames();
    var y := FindRepeat(c.buckets[j]);
    var actions :| IsRun(c, Initial(c), actions, s);
    RunsHold(c, Initial(c), actions, s, j, y);
  }

  /** A receiver that has begun every read has yielded all but the last two buckets. */
  lemma BegunIsYielded(c: Config, r: nat, rk: Rank)
    requires AllFit(c.buckets) && 0 < r && RankOk(c, r, rk) && BegunCount(rk) >= |c.buckets| >= 2
    ensures PlacesAligned(AllButTwo(c.buckets), c.bucketSize)
  {
    if rk.phase.ReadFirst? {
      assert false;
    }
    var early := AllButTwo(c.buckets);
    assert |early| <= rk.k;
    DeliveredIs(c, rk.k, rk.y);
    assert early == c.buckets[..rk.k][..|early|];
    AllChunksSplit(c.buckets[..rk.k], |early|);
    AlignedChunks(early, c.bucketSize);
  }

  /** A view that is not aligned stops rank 0 as well, unless it lies in one of the last two buckets. */
  lemma MisalignedViewStopsSender(c: Config, s: State)
    requires c.Valid() && Reachable(c, s) && |s.ranks| == c.receivers + 1
    requires !PlacesAligned(AllButTwo(c.buckets), c.bucketSize)
    ensures !s.ranks[0].phase.Done?
  {
    ReachableOk(c, s);
    if s.ranks[0].phase.Done? {
      assert RankOk(c, 0, s.ranks[0]) && RankOk(c, 1, s.ranks[1]);
      WaitingCounters(c, 0, s.ranks[0]);
      assert BegunCount(s.ranks[1]) >= |c.buckets| by {
        assert Link(c, s, 0);
      }
      BegunIsYielded(c, 1, s.ranks[1]);
    }
  }

  /** When nothing can happen any more, rank 0 is done if and only if no bucket holds a name twice and no view
      before the last two buckets is misaligned. */
  lemma SenderDoneExactly(c: Config, s: State)
    requires c.Valid() && Reachable(c, s) && Shaped(c, s) && Stuck(c, s)
    ensures s.ranks[0].phase.Done? <==>
              AllDistinct(c.buckets) && PlacesAligned(AllButTwo(c.buckets), c.bucketSize)
  {
    ReachableOk(c, s);
    if !AllDistinct(c.buckets) {
      DuplicateStopsSender(c, s);
    } else if !PlacesAligned(AllButTwo(c.buckets), c.bucketSize) {
      MisalignedViewStopsSender(c, s);
    } else {
      NoRankCrashes(c, s, 0);
      StuckRank(c, s, 0);
      NoneWaitsForNotification(c, s, 0);
    }
  }

  /** When nothing can happen any more, every rank is done if and only if no bucket holds a name twice and all
      views are aligned. */
  lemma AllDoneExactly(c: Config, s: State)
    requires c.Valid() && Reachable(c, s) && Shaped(c, s) && Stuck(c, s)
    ensures AllDone(c, s) <==> AllDistinct(c.buckets) && PlacesAligned(c.buckets, c.bucketSize)
  {
    if AllDistinct(c.buckets) && PlacesAligned(c.buckets, c.bucketSize) {
      NoDeadlock(c, s);
    } else if AllDistinct(c.buckets) {
      EveryReceiverYieldsThePackedChunks(c, s, 1);
      AlignedChunks(c.buckets, c.bucketSize);
    } else {
      DuplicateStopsSender(c, s);
    }
  }

  // ---------------------------------------------------------------- end to end

  /** Rank 0 packs any weights.  In every interleaving, at any time, a receiver has merged without error a part
      of the non-empty weights; and when it is done, all of them. */
  lemma MergedAtAnyTime(ws: seq<Weight>, bucketSize: nat, receivers: nat, s: State, r: nat, junk: nat -> byte)
    requires bucketSize > 0 && forall w :: w in ws ==> w.Valid()
    requires 0 < r <= receivers && Reachable(Config(receivers, bucketSize, PackWeights(ws, bucketSize)), s)
    ensures |s.ranks| == receivers + 1 && AllSized(s.ranks[r].out)
    ensures var merged := MergeRun(Idle, s.ranks[r].out, bucketSize, junk);
            && merged.error == None && merged.weights <= NonEmpty(ws)
            && (s.ranks[r].phase.Done? ==> merged.weights == NonEmpty(ws))
  {
    var c := Config(receivers, bucketSize, PackWeights(ws, bucketSize));
    PackingIsSound(ws, bucketSize);
    EveryReceiverYieldsThePackedChunks(c, s, r);
    PartComesBack(ws, bucketSize, s.ranks[r].out, junk);
    AlignedChunks(c.buckets, bucketSize);
    PackedWeightsComeBack(ws, bucketSize, junk);
  }

  /** Whatever the interleaving, when nothing can happen any more: if no bucket holds a name twice and all views
      are aligned, every rank is done and every receiver has merged exactly the non-empty weights; otherwise not
      every rank is done. */
  lemma ChainDeliversWeights(ws: seq<Weight>, bucketSize: nat, receivers: nat, s: State, r: nat, junk: nat -> byte)
    requires bucketSize > 0 && forall w :: w in ws ==> w.Valid()
    requires 0 < r <= receivers
    requires var c := Config(receivers, bucketSize, PackWeights(ws, bucketSize));
             Reachable(c, s) && Shaped(c, s) && Stuck(c, s)
    ensures AllDone(Config(receivers, bucketSize, PackWeights(ws, bucketSize)), s)
       <==> AllDistinct(PackWeights(ws, bucketSize)) && PlacesAligned(PackWeights(ws, bucketSize), bucketSize)
    ensures AllSized(s.ranks[r].out)
    ensures AllDone(Config(receivers, bucketSize, PackWeights(ws, bucketSize)), s) ==>
              MergeRun(Idle, s.ranks[r].out, bucketSize, junk) == MergeOutcome(NonEmpty(ws), None)
  {
    PackingIsSound(ws, bucketSize);
    AllDoneExactly(Config(receivers, bucketSize, PackWeights(ws, bucketSize)), s);
    MergedAtAnyTime(ws, bucketSize, receivers, s, r, junk);
  }

  /** In particular the weights arrive if their names are distinct and a unit keeps their views aligned. */
  lemma ChainDeliversUnitWeights(ws: seq<Weight>, bucketSize: nat, unit: pos, receivers: nat, s: State, r: nat,
                                 junk: nat -> byte)
    requires bucketSize > 0 && DistinctWeightNames(ws) && HasUnit(ws, bucketSize, unit)
    requires forall w :: w in ws ==> w.Valid()
    requires 0 < r <= receivers
    requires var c := Config(receivers, bucketSize, PackWeights(ws, bucketSize));
             Reachable(c, s) && Shaped(c, s) && Stuck(c, s)
    ensures AllSized(s.ranks[r].out)
    ensures MergeRun(Idle, s.ranks[r].out, bucketSize, junk) == MergeOutcome(NonEmpty(ws), None)
  {
    NoNameTwiceInABucket(ws, bucketSize);
    UnitKeepsAlignment(ws, bucketSize, unit);
    ChainDeliversWeights(ws, bucketSize, receivers, s, r, junk);
  }
}
