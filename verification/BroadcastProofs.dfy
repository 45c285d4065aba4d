/** What every run of the broadcast keeps. */
module BroadcastProofs {
  import opened WeightChunks
  import opened Buckets
  import opened Delivery
  import opened BroadcastChannel

  // ---------------------------------------------------------------- counters

  /** Operations rank 0 has launched. */
  function Launched(s: Sender): nat {
    if s.phase.AwaitLast? || s.phase.Sent? then s.k + 1 else s.k
  }

  function Published(s: Sender): int {
    Launched(s) - if s.stage.Publishing? then 1 else 0
  }

  /** Operations a receiver has launched. */
  function Begun(r: Receiver): nat {
    match r.phase
    case Start => 0
    case AwaitFirst => 1
    case Yielding | AwaitNext => r.k + 2
    case _ => r.k + 1
  }

  function Taken(r: Receiver): int {
    Begun(r) - if r.stage.AwaitMeta? then 1 else 0
  }

  /** The bytes of n buffers. */
  function Buffers(c: Config, n: nat): nat {
    if n == 0 then 0 else Buffers(c, n - 1) + c.bucketSize
  }

  /** Bytes of the whole stream after `launched` operations of which the last has handled `pos` bytes. */
  function Position(c: Config, launched: nat, pos: nat): nat {
    if launched == 0 then 0 else Buffers(c, launched - 1) + pos
  }

  // ---------------------------------------------------------------- invariant

  /** Rank 0 is about to place a chunk whose name is taken. */
  predicate RepeatsName(c: Config, s: Sender)
    requires s.k < |c.buckets|
  {
    s.phase.Filling? && s.y < |c.buckets[s.k].metas| && c.buckets[s.k].Repeats(s.y)
  }

  /** A receiver is about to hand out a view that is not aligned. */
  predicate Misplaced(c: Config, r: Receiver) {
    && (r.phase.Yielding? || r.phase.YieldLast?) && r.y < |r.meta.metas|
    && !Aligned(r.meta.metas[r.y], c.bucketSize)
  }

  ghost predicate SendPhaseOk(c: Config, s: Sender) {
    && s.k < |c.buckets| && |s.even| == |s.odd| == c.bucketSize && |s.pushed| == c.receivers
    && (s.crashed ==> RepeatsName(c, s)) && s.front == (s.k % 2 == 1)
    && (s.phase.AwaitLast? || s.phase.Sent? ==> s.k == c.Last())
    && (s.stage.NoSend? <==> Launched(s) == 0)
    && (s.phase.AwaitPrevious? ==> s.k > 0)
    && ((s.phase.Posting? && s.k > 0) || s.phase.Sent? ==> s.stage.Pushed?)
  }

  ghost predicate FillOk(c: Config, s: Sender)
    requires s.k < |c.buckets|
  {
    var b := c.buckets[s.k];
    if s.phase.Filling? then s.y <= |b.metas| && HoldsUpTo(c, s.Buf(s.front), s.k, b.Start(s.y))
    else Holds(c, s.Buf(s.front), s.k)
  }

  /** The operation's buffer holds its bucket from launch to launch. */
  ghost predicate SendOk(c: Config, s: Sender)
    requires s.k < |c.buckets|
  {
    && (s.stage.NoSend? || s.stage.Publishing? ==> forall i :: 0 <= i < |s.pushed| ==> s.pushed[i] == 0)
    && (s.stage.Pushed? ==> forall i :: 0 <= i < |s.pushed| ==> s.pushed[i] == c.bucketSize)
    && (forall i :: 0 <= i < |s.pushed| ==> s.pushed[i] <= c.bucketSize)
    && (!s.stage.NoSend? && Launched(s) > 0 ==>
          var j := Launched(s) - 1;
          && s.slot == (j % 2 == 1) && s.outgoing == MessageFor(c, j) && Holds(c, s.Buf(s.slot), j))
  }

  ghost predicate SenderOk(c: Config, s: Sender) {
    SendPhaseOk(c, s) && FillOk(c, s) && SendOk(c, s)
  }

  predicate Overlapping(r: Receiver) {
    r.phase.AwaitFirst? || r.phase.Yielding? || r.phase.AwaitNext?
  }

  predicate Holding(r: Receiver) {
    !r.phase.Start? && !r.phase.AwaitFirst?
  }

  ghost predicate RecvPhaseOk(c: Config, r: Receiver) {
    && r.k < |c.buckets| && |r.even| == |r.odd| == c.bucketSize
    && (r.crashed ==> Misplaced(c, r))
    && (r.stage.NoReceive? <==> r.phase.Start?)
    && (if Overlapping(r) then r.slot == !r.front else r.phase.Start? || r.stage.Pulled?)
    && (r.phase.Launching? || r.phase.Yielding? || r.phase.AwaitNext? ==> r.k < c.Last())
    && (r.phase.YieldLast? || r.phase.Received? ==> r.k == c.Last())
  }

  /** The operation's buffer holds the bytes pulled so far of its bucket. */
  ghost predicate PullOk(c: Config, r: Receiver)
    requires r.k < |c.buckets|
  {
    Overlapping(r) && Begun(r) <= |c.buckets| ==>
      var j := Begun(r) - 1;
      && r.pos <= c.bucketSize && (r.stage.AwaitMeta? ==> r.pos == 0) && (r.stage.Pulled? ==> r.pos == c.bucketSize)
      && (r.stage.Pulling? || r.stage.Pulled? ==> r.incoming == MessageFor(c, j))
      && HoldsUpTo(c, r.Buf(r.slot), j, r.pos)
  }

  ghost predicate HeldOk(c: Config, r: Receiver)
    requires AllFit(c.buckets) && r.k < |c.buckets|
  {
    if Holding(r) then
      && r.meta == MessageFor(c, r.k) && Holds(c, r.Buf(r.front), r.k)
      && r.y <= |c.buckets[r.k].metas| && r.out == Delivered(c, r.k, r.y) && AllAligned(r.out, c.bucketSize)
      && (r.phase.Launching? ==> r.y == 0)
      && (r.phase.AwaitNext? || r.phase.Received? ==> r.y == |c.buckets[r.k].metas|)
      && (!Overlapping(r) ==> r.pos == c.bucketSize)
    else r.out == [] && r.k == 0 && (r.phase.Start? ==> r.pos == 0)
  }

  ghost predicate ReceiverOk(c: Config, r: Receiver)
    requires AllFit(c.buckets)
  {
    RecvPhaseOk(c, r) && PullOk(c, r) && HeldOk(c, r)
  }

  /** Exactly the messages that are published and not yet taken. */
  ghost predicate MailOk(c: Config, published: int, taken: int, mail: seq<Message>) {
    && 0 <= taken && published <= |c.buckets| && |mail| == published - taken
    && forall d :: 0 <= d < |mail| ==> mail[d] == MessageFor(c, taken + d)
  }

  /** The byte at position n of the stream of buffers, where it belongs to a bucket. */
  ghost predicate IsByteAt(c: Config, n: int, b: byte) {
    forall j, p {:trigger c.buckets[j].data[p]} ::
      0 <= j < |c.buckets| && 0 <= p < |c.buckets[j].data| && n == Buffers(c, j) + p ==> b == c.buckets[j].data[p]
  }

  /** Exactly the bytes that are pushed and not yet pulled. */
  ghost predicate WireOk(c: Config, pushed: int, pulled: int, wire: seq<byte>) {
    && |wire| == pushed - pulled
    && forall d :: 0 <= d < |wire| ==> IsByteAt(c, pulled + d, wire[d])
  }

  ghost predicate LinkOk(c: Config, s: Sender, pushed: nat, r: Receiver, mail: seq<Message>, wire: seq<byte>) {
    && MailOk(c, Published(s), Taken(r), mail)
    && WireOk(c, Position(c, Launched(s), pushed), Position(c, Begun(r), r.pos), wire)
  }

  ghost predicate LinksOk(c: Config, s: State)
    requires Shaped(c, s)
  {
    forall i :: 0 <= i < c.receivers ==> LinkOk(c, s.sender, s.sender.pushed[i], s.receivers[i], s.mail[i], s.wires[i])
  }

  ghost predicate ReceiversOk(c: Config, rs: seq<Receiver>)
    requires AllFit(c.buckets)
  {
    forall i {:trigger ReceiverOk(c, rs[i])} :: 0 <= i < |rs| ==> ReceiverOk(c, rs[i])
  }

  ghost predicate Inv(c: Config, s: State)
    requires AllFit(c.buckets)
  {
    Shaped(c, s) && SenderOk(c, s.sender) && ReceiversOk(c, s.receivers) && LinksOk(c, s)
  }

  lemma InitialOk(c: Config)
    requires c.Valid() && AllFit(c.buckets)
    ensures Inv(c, Initial(c))
  {
    var s := Initial(c);
    BucketFits(c, 0);
    forall i | 0 <= i < c.receivers
      ensures ReceiverOk(c, s.receivers[i])
      ensures LinkOk(c, s.sender, s.sender.pushed[i], s.receivers[i], s.mail[i], s.wires[i])
    {
    }
  }

  // ---------------------------------------------------------------- rank 0's coroutine

  /** While bucket k is being filled the operation reads the other buffer. */
  lemma OperationReadsBack(c: Config, s: Sender)
    requires SenderOk(c, s) && (s.phase.Filling? || s.phase.AwaitPrevious? || s.phase.Posting?) && !s.stage.NoSend?
    ensures s.slot == !s.front
  {
  }

  /** Changing the buffer being filled leaves the operation alone. */
  lemma FillKeepsSend(c: Config, s: Sender, s': Sender)
    requires SenderOk(c, s) && s.phase.Filling? && s'.phase.Filling? && s'.k == s.k
    requires s'.stage == s.stage && s'.slot == s.slot && s'.outgoing == s.outgoing && s'.pushed == s.pushed
    requires s'.Buf(!s.front) == s.Buf(!s.front)
    ensures SendOk(c, s')
  {
    if !s.stage.NoSend? { OperationReadsBack(c, s); }
  }

  lemma FillChunkIs(c: Config, s: Sender)
    requires s.k < |c.buckets| && s.y < |c.buckets[s.k].metas| && !c.buckets[s.k].Repeats(s.y)
    requires var m := c.buckets[s.k].metas[s.y]; m.offset + |Slice(m, c.buckets[s.k].data).bytes| <= |s.Buf(s.front)|
    ensures var m, s' := c.buckets[s.k].metas[s.y], FillChunk(c, s);
            && s'.Buf(s.front) == Overwrite(s.Buf(s.front), m.offset, Slice(m, c.buckets[s.k].data).bytes)
            && s'.Buf(!s.front) == s.Buf(!s.front)
            && s'.(even := s.even, odd := s.odd, y := s.y) == s && s'.y == s.y + 1
            && |s'.even| == |s.even| && |s'.odd| == |s.odd|
  {
  }

  lemma FillKeeps(c: Config, s: Sender)
    requires SenderOk(c, s) && s.phase.Filling? && s.y < |c.buckets[s.k].metas|
    requires WellPacked(c.buckets[s.k], c.bucketSize) && !s.crashed
    ensures SenderOk(c, FillChunk(c, s)) && Launched(FillChunk(c, s)) == Launched(s)
    ensures FillChunk(c, s).stage == s.stage && FillChunk(c, s).pushed == s.pushed
  {
    FillExtends(c, s.Buf(s.front), s.k, s.y);
    if !c.buckets[s.k].Repeats(s.y) {
      FillChunkIs(c, s);
      FillKeepsSend(c, s, FillChunk(c, s));
    } else {
      SenderCrashKeeps(c, s);
    }
  }

  lemma SenderCrashKeeps(c: Config, s: Sender)
    requires SenderOk(c, s) && RepeatsName(c, s)
    ensures SenderOk(c, s.(crashed := true))
  {
  }

  lemma FilledKeeps(c: Config, s: Sender)
    requires SenderOk(c, s) && s.phase.Filling? && s.y == |c.buckets[s.k].metas|
    requires |c.buckets[s.k].data| <= c.bucketSize
    ensures SenderOk(c, SenderStep(c, s))
  {
  }

  lemma LaunchSend(c: Config, s: Sender)
    requires SenderOk(c, s) && s.phase.Posting?
    ensures SendOk(c, Launch(c, s))
  {
  }

  lemma LaunchFill(c: Config, s: Sender)
    requires c.Valid() && SenderOk(c, s) && s.phase.Posting?
    ensures FillOk(c, Launch(c, s))
  {
    if s.k < c.Last() {
      BucketFits(c, s.k + 1);
      HoldsNothingYet(c, s.Buf(!s.front), s.k + 1);
    }
  }

  lemma LaunchPhase(c: Config, s: Sender)
    requires SendPhaseOk(c, s) && s.phase.Posting?
    ensures SendPhaseOk(c, Launch(c, s)) && Launched(Launch(c, s)) == Launched(s) + 1
  {
  }

  lemma LaunchKeeps(c: Config, s: Sender)
    requires c.Valid() && SenderOk(c, s) && s.phase.Posting?
    ensures SenderOk(c, Launch(c, s)) && Launched(Launch(c, s)) == Launched(s) + 1
  {
    LaunchSend(c, s);
    LaunchFill(c, s);
    LaunchPhase(c, s);
  }

  lemma AwaitedKeeps(c: Config, s: Sender)
    requires SenderOk(c, s) && (s.phase.AwaitPrevious? || s.phase.AwaitLast?) && s.stage.Pushed?
    ensures SenderOk(c, SenderStep(c, s))
  {
  }

  predicate SenderCanStep(s: Sender) {
    && !s.crashed
    && (s.phase.Filling? || s.phase.Posting? || ((s.phase.AwaitPrevious? || s.phase.AwaitLast?) && s.stage.Pushed?))
  }

  lemma SenderStepKeeps(c: Config, s: Sender)
    requires c.Valid() && SenderOk(c, s) && SenderCanStep(s)
    ensures SenderOk(c, SenderStep(c, s))
  {
    BucketFits(c, s.k);
    if s.phase.Posting? {
      LaunchKeeps(c, s);
    } else if !s.phase.Filling? {
      AwaitedKeeps(c, s);
    } else if s.y < |c.buckets[s.k].metas| {
      FillKeeps(c, s);
    } else {
      FilledKeeps(c, s);
    }
  }

  /** The end of one buffer is the start of the next. */
  lemma NextBuffer(c: Config, n: nat)
    ensures Position(c, n + 1, 0) == if n == 0 then 0 else Position(c, n, c.bucketSize)
  {
  }

  lemma LaunchKeepsCounters(c: Config, s: Sender, i: nat)
    requires SenderOk(c, s) && s.phase.Posting? && i < c.receivers
    ensures var s' := Launch(c, s);
            && |s'.pushed| == c.receivers && Published(s') == Published(s)
            && Position(c, Launched(s'), s'.pushed[i]) == Position(c, Launched(s), s.pushed[i])
  {
    LaunchPhase(c, s);
    NextBuffer(c, s.k);
  }

  lemma WaitKeepsCounters(c: Config, s: Sender)
    requires SendPhaseOk(c, s) && SenderCanStep(s) && !s.phase.Posting?
    requires s.phase.Filling? ==> s.y >= |c.buckets[s.k].metas|
    ensures var s' := SenderStep(c, s); s'.pushed == s.pushed && s'.stage == s.stage && Launched(s') == Launched(s)
  {
  }

  /** A step of the coroutine publishes and pushes nothing: launching moves from the end of one buffer to the
      start of the next. */
  lemma SenderStepKeepsCounters(c: Config, s: Sender, i: nat)
    requires c.Valid() && SenderOk(c, s) && SenderCanStep(s) && i < c.receivers
    ensures var s' := SenderStep(c, s);
            && |s'.pushed| == c.receivers && Published(s') == Published(s)
            && Position(c, Launched(s'), s'.pushed[i]) == Position(c, Launched(s), s.pushed[i])
  {
    BucketFits(c, s.k);
    if s.phase.Posting? {
      LaunchKeepsCounters(c, s, i);
    } else if s.phase.Filling? && s.y < |c.buckets[s.k].metas| {
      FillKeeps(c, s);
    } else {
      WaitKeepsCounters(c, s);
    }
  }

  // ---------------------------------------------------------------- a receiver's coroutine

  predicate ReceiverCanStep(r: Receiver) {
    !r.phase.Received? && !r.crashed && (r.phase.AwaitFirst? || r.phase.AwaitNext? ==> r.stage.Pulled?)
  }

  lemma BeginKeeps(c: Config, r: Receiver)
    requires SizesOk(c) && AllFit(c.buckets) && ReceiverOk(c, r) && (r.phase.Start? || r.phase.Launching?)
    ensures ReceiverOk(c, ReceiverStep(c, r))
  {
    assert |c.buckets[Begun(ReceiverStep(c, r)) - 1].data| <= c.bucketSize;
  }

  lemma HoldsAll(c: Config, buffer: seq<byte>, j: nat)
    requires j < |c.buckets| && HoldsUpTo(c, buffer, j, c.bucketSize) && |c.buckets[j].data| <= c.bucketSize
    ensures Holds(c, buffer, j)
  {
  }

  lemma PulledFacts(c: Config, r: Receiver)
    requires AllFit(c.buckets) && ReceiverOk(c, r) && Overlapping(r) && r.stage.Pulled?
    ensures var j := Begun(r) - 1;
            0 <= j < |c.buckets| && r.incoming == MessageFor(c, j) && r.slot == !r.front && r.pos == c.bucketSize
            && HoldsUpTo(c, r.Buf(r.slot), j, c.bucketSize)
  {
  }

  /** A finished operation has received its bucket. */
  lemma PulledBucket(c: Config, r: Receiver)
    requires SizesOk(c) && AllFit(c.buckets) && ReceiverOk(c, r) && Overlapping(r) && r.stage.Pulled?
    ensures var j := Begun(r) - 1;
            0 <= j < |c.buckets| && r.incoming == MessageFor(c, j) && r.slot == !r.front && r.pos == c.bucketSize
            && Holds(c, r.Buf(r.slot), j)
  {
    PulledFacts(c, r);
    HoldsAll(c, r.Buf(r.slot), Begun(r) - 1);
  }

  /** The receiver's operation has received bucket k, and everything before bucket k has been yielded. */
  ghost predicate Arrived(c: Config, r: Receiver, k: nat)
    requires AllFit(c.buckets)
  {
    && k < |c.buckets| && |r.even| == |r.odd| == c.bucketSize
    && r.stage.Pulled? && r.pos == c.bucketSize && r.incoming == MessageFor(c, k)
    && r.slot == !r.front && Holds(c, r.Buf(r.slot), k) && r.out == Delivered(c, k, 0)
    && AllAligned(r.out, c.bucketSize) && !r.crashed
  }

  /** Swapping in a bucket that has arrived. */
  lemma NewBucketOk(c: Config, r: Receiver, k: nat)
    requires AllFit(c.buckets) && Arrived(c, r, k)
    ensures ReceiverOk(c, TakeBucket(r, k))
  {
  }

  lemma FirstArrived(c: Config, r: Receiver)
    requires SizesOk(c) && AllFit(c.buckets) && ReceiverOk(c, r) && r.phase.AwaitFirst? && r.stage.Pulled?
    ensures Arrived(c, r, 0)
  {
    PulledBucket(c, r);
  }

  lemma YieldedAll(c: Config, r: Receiver)
    requires AllFit(c.buckets) && ReceiverOk(c, r) && r.phase.AwaitNext?
    ensures r.k + 1 < |c.buckets| && r.out == Delivered(c, r.k + 1, 0) && AllAligned(r.out, c.bucketSize) && !r.crashed
  {
  }

  lemma NextArrived(c: Config, r: Receiver)
    requires SizesOk(c) && AllFit(c.buckets) && ReceiverOk(c, r) && r.phase.AwaitNext? && r.stage.Pulled?
    ensures Arrived(c, r, r.k + 1)
  {
    PulledBucket(c, r);
    YieldedAll(c, r);
  }

  lemma YieldKeeps(c: Config, r: Receiver)
    requires AllFit(c.buckets) && ReceiverOk(c, r) && (r.phase.Yielding? || r.phase.YieldLast?) && !r.crashed
    ensures ReceiverOk(c, ReceiverStep(c, r))
  {
    if r.y >= |r.meta.metas| {
      YieldedKeeps(c, r);
    } else if !Aligned(r.meta.metas[r.y], c.bucketSize) {
      ReceiverCrashKeeps(c, r);
    } else {
      SliceOfHeld(c, r.Buf(r.front), r.k, r.y);
      HandOutKeeps(c, r, Slice(r.meta.metas[r.y], r.Buf(r.front)));
    }
  }

  lemma ReceiverCrashKeeps(c: Config, r: Receiver)
    requires AllFit(c.buckets) && ReceiverOk(c, r) && Misplaced(c, r)
    ensures ReceiverOk(c, r.(crashed := true))
  {
  }

  lemma HandOutKeeps(c: Config, r: Receiver, chunk: Chunk)
    requires AllFit(c.buckets) && ReceiverOk(c, r) && (r.phase.Yielding? || r.phase.YieldLast?) && !r.crashed
    requires r.y < |c.buckets[r.k].metas| && chunk == ChunksOf(c.buckets[r.k])[r.y] && Aligned(chunk.meta, c.bucketSize)
    ensures ReceiverOk(c, r.(out := r.out + [chunk], y := r.y + 1))
  {
  }

  lemma YieldedKeeps(c: Config, r: Receiver)
    requires AllFit(c.buckets) && ReceiverOk(c, r) && (r.phase.Yielding? || r.phase.YieldLast?) && !r.crashed
    requires r.y >= |r.meta.metas|
    ensures ReceiverOk(c, ReceiverStep(c, r))
  {
  }

  lemma TakeKeeps(c: Config, r: Receiver)
    requires SizesOk(c) && AllFit(c.buckets) && ReceiverOk(c, r) && (r.phase.AwaitFirst? || r.phase.AwaitNext?)
    requires r.stage.Pulled?
    ensures ReceiverOk(c, ReceiverStep(c, r))
  {
    var k := if r.phase.AwaitFirst? then 0 else r.k + 1;
    if r.phase.AwaitFirst? { FirstArrived(c, r); } else { NextArrived(c, r); }
    NewBucketOk(c, r, k);
  }

  lemma ReceiverStepKeeps(c: Config, r: Receiver)
    requires SizesOk(c) && AllFit(c.buckets) && ReceiverOk(c, r) && ReceiverCanStep(r)
    ensures ReceiverOk(c, ReceiverStep(c, r))
  {
    if r.phase.Start? || r.phase.Launching? {
      BeginKeeps(c, r);
    } else if r.phase.AwaitFirst? || r.phase.AwaitNext? {
      TakeKeeps(c, r);
    } else {
      YieldKeeps(c, r);
    }
  }

  lemma ReceiverStepKeepsCounters(c: Config, r: Receiver)
    requires AllFit(c.buckets) && ReceiverOk(c, r) && ReceiverCanStep(r)
    ensures var r' := ReceiverStep(c, r);
            Taken(r') == Taken(r) && Position(c, Begun(r'), r'.pos) == Position(c, Begun(r), r.pos)
  {
    if r.phase.Start? || r.phase.Launching? {
      BeginKeepsCounters(c, r);
    }
  }

  /** A receive that begins goes on where the one before ended. */
  lemma BeginKeepsCounters(c: Config, r: Receiver)
    requires AllFit(c.buckets) && ReceiverOk(c, r) && (r.phase.Start? || r.phase.Launching?)
    ensures var r' := ReceiverStep(c, r);
            Taken(r') == Taken(r) && Position(c, Begun(r'), r'.pos) == Position(c, Begun(r), r.pos)
  {
    NextBuffer(c, Begun(r));
  }

  // ---------------------------------------------------------------- the operations

  lemma PublishMail(c: Config, s: Sender, taken: int, mail: seq<Message>)
    requires SenderOk(c, s) && s.stage.Publishing? && MailOk(c, Published(s), taken, mail)
    ensures MailOk(c, Launched(s), taken, mail + [s.outgoing])
  {
  }

  lemma {:induction false} EarlierPlace(c: Config, j: nat, j': nat)
    requires j < j'
    ensures Buffers(c, j) + c.bucketSize <= Buffers(c, j')
  {
    if j + 1 < j' {
      EarlierPlace(c, j, j' - 1);
    }
  }

  lemma SamePlace(c: Config, j: nat, p: nat, j': nat, p': nat)
    requires Buffers(c, j) + p == Buffers(c, j') + p' && p < c.bucketSize && p' < c.bucketSize
    ensures j == j' && p == p'
  {
    if j < j' {
      EarlierPlace(c, j, j');
    } else if j' < j {
      EarlierPlace(c, j', j);
    }
  }

  /** The byte rank 0 pushes is the one at its place in the stream. */
  lemma StreamByte(c: Config, k: nat, n: nat, buffer: seq<byte>)
    requires SizesOk(c) && k < |c.buckets| && n < c.bucketSize && |buffer| == c.bucketSize && Holds(c, buffer, k)
    ensures IsByteAt(c, Buffers(c, k) + n, buffer[n])
  {
    forall j, p | 0 <= j < |c.buckets| && 0 <= p < |c.buckets[j].data| && Buffers(c, k) + n == Buffers(c, j) + p
      ensures buffer[n] == c.buckets[j].data[p]
    {
      SamePlace(c, k, n, j, p);
    }
  }

  lemma PushedByteIsRight(c: Config, s: Sender, n: nat)
    requires SizesOk(c) && SenderOk(c, s) && s.stage.Pushing? && n < c.bucketSize
    ensures IsByteAt(c, Position(c, Launched(s), n), s.Buf(s.slot)[n])
    ensures Position(c, Launched(s), n + 1) == Position(c, Launched(s), n) + 1
  {
    StreamByte(c, Launched(s) - 1, n, s.Buf(s.slot));
  }

  lemma PushWire(c: Config, pushed: int, pulled: int, wire: seq<byte>, b: byte)
    requires WireOk(c, pushed, pulled, wire) && IsByteAt(c, pushed, b)
    ensures WireOk(c, pushed + 1, pulled, wire + [b])
  {
  }

  lemma PullWire(c: Config, pushed: int, pulled: int, wire: seq<byte>)
    requires WireOk(c, pushed, pulled, wire) && wire != []
    ensures WireOk(c, pushed, pulled + 1, wire[1..]) && IsByteAt(c, pulled, wire[0])
  {
    assert IsByteAt(c, pulled + 0, wire[0]);
    forall d | 0 <= d < |wire| - 1
      ensures IsByteAt(c, pulled + 1 + d, wire[1..][d])
    {
      assert IsByteAt(c, pulled + (d + 1), wire[d + 1]);
    }
  }

  lemma PullKeeps(c: Config, r: Receiver, b: byte)
    requires AllFit(c.buckets) && ReceiverOk(c, r) && r.stage.Pulling? && r.pos < c.bucketSize
    requires IsByteAt(c, Position(c, Begun(r), r.pos), b)
    ensures ReceiverOk(c, PullByte(r, b))
    ensures Position(c, Begun(r), r.pos + 1) == Position(c, Begun(r), r.pos) + 1
  {
    assert Begun(r) > 0;
    PulledByteFits(c, r, b);
    PullKeepsRest(c, r, b);
  }

  lemma PulledByteFits(c: Config, r: Receiver, b: byte)
    requires RecvPhaseOk(c, r) && PullOk(c, r) && r.stage.Pulling? && r.pos < c.bucketSize
    requires IsByteAt(c, Position(c, Begun(r), r.pos), b)
    ensures PullOk(c, PullByte(r, b))
  {
    var j := Begun(r) - 1;
    if j < |c.buckets| && r.pos < |c.buckets[j].data| {
      assert b == c.buckets[j].data[r.pos];
    }
  }

  lemma PullKeepsRest(c: Config, r: Receiver, b: byte)
    requires AllFit(c.buckets) && RecvPhaseOk(c, r) && HeldOk(c, r) && r.stage.Pulling? && r.pos < c.bucketSize
    ensures RecvPhaseOk(c, PullByte(r, b)) && HeldOk(c, PullByte(r, b))
  {
  }

  lemma TakeMetaKeeps(c: Config, r: Receiver, m: Message)
    requires AllFit(c.buckets) && ReceiverOk(c, r) && r.stage.AwaitMeta? && m == MessageFor(c, Begun(r) - 1)
    ensures ReceiverOk(c, r.(stage := Pulling, incoming := m))
  {
  }

  lemma FinishReceiveKeeps(c: Config, r: Receiver)
    requires AllFit(c.buckets) && ReceiverOk(c, r) && r.stage.Pulling? && r.pos == c.bucketSize
    ensures ReceiverOk(c, r.(stage := Pulled))
  {
  }

  lemma ReceiversUpdate(c: Config, rs: seq<Receiver>, i: nat, r: Receiver)
    requires AllFit(c.buckets) && i < |rs| && ReceiverOk(c, r) && ReceiversOk(c, rs)
    ensures ReceiversOk(c, rs[i := r])
  {
  }

  // ---------------------------------------------------------------- one step of the system

  lemma StepSenderKeepsInv(c: Config, capacity: nat, s: State)
    requires c.Valid() && AllFit(c.buckets) && Inv(c, s) && Enabled(c, capacity, s, StepSender)
    ensures Inv(c, Apply(c, capacity, s, StepSender))
  {
    SenderStepKeeps(c, s.sender);
    forall i | 0 <= i < c.receivers
      ensures LinkOk(c, SenderStep(c, s.sender), SenderStep(c, s.sender).pushed[i],
                     s.receivers[i], s.mail[i], s.wires[i])
    {
      assert LinkOk(c, s.sender, s.sender.pushed[i], s.receivers[i], s.mail[i], s.wires[i]);
      SenderStepKeepsCounters(c, s.sender, i);
    }
  }

  lemma PublishKeepsInv(c: Config, capacity: nat, s: State)
    requires AllFit(c.buckets) && Inv(c, s) && Enabled(c, capacity, s, Publish)
    ensures Inv(c, Apply(c, capacity, s, Publish))
  {
    forall i | 0 <= i < c.receivers
      ensures LinkOk(c, s.sender.(stage := Pushing), s.sender.pushed[i],
                     s.receivers[i], s.mail[i] + [s.sender.outgoing], s.wires[i])
    {
      assert LinkOk(c, s.sender, s.sender.pushed[i], s.receivers[i], s.mail[i], s.wires[i]);
      PublishMail(c, s.sender, Taken(s.receivers[i]), s.mail[i]);
    }
  }

  lemma PushKeepsSender(c: Config, s: Sender, i: nat)
    requires SenderOk(c, s) && s.stage.Pushing? && i < c.receivers && s.pushed[i] < c.bucketSize
    ensures SenderOk(c, s.(pushed := s.pushed[i := s.pushed[i] + 1]))
  {
  }

  lemma PushKeepsLink(c: Config, s: Sender, i: nat, r: Receiver, mail: seq<Message>, wire: seq<byte>)
    requires SizesOk(c) && SenderOk(c, s) && s.stage.Pushing? && i < c.receivers && s.pushed[i] < c.bucketSize
    requires LinkOk(c, s, s.pushed[i], r, mail, wire)
    ensures LinkOk(c, s.(pushed := s.pushed[i := s.pushed[i] + 1]), s.pushed[i] + 1,
                   r, mail, wire + [s.Buf(s.slot)[s.pushed[i]]])
  {
    var n := s.pushed[i];
    PushedByteIsRight(c, s, n);
    PushWire(c, Position(c, Launched(s), n), Position(c, Begun(r), r.pos), wire, s.Buf(s.slot)[n]);
  }

  lemma PushKeepsLinks(c: Config, s: Sender, s': Sender, i: nat, rs: seq<Receiver>, mail: seq<seq<Message>>,
                       wires: seq<seq<byte>>)
    requires c.Valid() && SenderOk(c, s) && s.stage.Pushing? && i < c.receivers && s.pushed[i] < c.bucketSize
    requires |rs| == |mail| == |wires| == c.receivers
    requires forall j :: 0 <= j < c.receivers ==> LinkOk(c, s, s.pushed[j], rs[j], mail[j], wires[j])
    requires s' == s.(pushed := s.pushed[i := s.pushed[i] + 1])
    ensures forall j :: 0 <= j < c.receivers ==>
      LinkOk(c, s', s'.pushed[j], rs[j], mail[j], if j == i then wires[i] + [s.Buf(s.slot)[s.pushed[i]]] else wires[j])
  {
    SizesFit(c);
    PushKeepsLink(c, s, i, rs[i], mail[i], wires[i]);
    forall j | 0 <= j < c.receivers && j != i
      ensures LinkOk(c, s', s'.pushed[j], rs[j], mail[j], wires[j])
    {
      OtherLinkKept(c, s, s', s.pushed[j], rs[j], mail[j], wires[j]);
    }
  }

  lemma PushKeepsInv(c: Config, capacity: nat, s: State, i: nat)
    requires c.Valid() && AllFit(c.buckets) && Inv(c, s) && Enabled(c, capacity, s, Push(i))
    ensures Inv(c, Apply(c, capacity, s, Push(i)))
  {
    PushKeepsSender(c, s.sender, i);
    PushKeepsLinks(c, s.sender, Apply(c, capacity, s, Push(i)).sender, i, s.receivers, s.mail, s.wires);
  }

  lemma OtherLinkKept(c: Config, o: Sender, o': Sender, pushed: nat, r: Receiver, mail: seq<Message>, wire: seq<byte>)
    requires LinkOk(c, o, pushed, r, mail, wire) && Launched(o') == Launched(o) && Published(o') == Published(o)
    ensures LinkOk(c, o', pushed, r, mail, wire)
  {
  }

  lemma FinishSendKeepsInv(c: Config, capacity: nat, s: State)
    requires AllFit(c.buckets) && Inv(c, s) && Enabled(c, capacity, s, FinishSend)
    ensures Inv(c, Apply(c, capacity, s, FinishSend))
  {
    forall i | 0 <= i < c.receivers
      ensures LinkOk(c, s.sender.(stage := Pushed), s.sender.pushed[i], s.receivers[i], s.mail[i], s.wires[i])
    {
      assert LinkOk(c, s.sender, s.sender.pushed[i], s.receivers[i], s.mail[i], s.wires[i]);
    }
  }

  /** An action of receiver i changes receiver i, its mail and its wire. */
  lemma ReceiverActionKeepsInv(c: Config, s: State, s': State, i: nat)
    requires AllFit(c.buckets) && Inv(c, s) && Shaped(c, s') && i < c.receivers && s'.sender == s.sender
    requires s'.receivers == s.receivers[i := s'.receivers[i]]
    requires s'.mail == s.mail[i := s'.mail[i]] && s'.wires == s.wires[i := s'.wires[i]]
    requires ReceiverOk(c, s'.receivers[i])
    requires LinkOk(c, s.sender, s.sender.pushed[i], s'.receivers[i], s'.mail[i], s'.wires[i])
    ensures Inv(c, s')
  {
    ReceiversUpdate(c, s.receivers, i, s'.receivers[i]);
    forall j | 0 <= j < c.receivers
      ensures LinkOk(c, s'.sender, s'.sender.pushed[j], s'.receivers[j], s'.mail[j], s'.wires[j])
    {
      assert LinkOk(c, s.sender, s.sender.pushed[j], s.receivers[j], s.mail[j], s.wires[j]);
    }
  }

  lemma ReceiverLinkKept(c: Config, o: Sender, pushed: nat, r: Receiver, r': Receiver, mail: seq<Message>,
                         wire: seq<byte>)
    requires LinkOk(c, o, pushed, r, mail, wire)
    requires Taken(r') == Taken(r) && Position(c, Begun(r'), r'.pos) == Position(c, Begun(r), r.pos)
    ensures LinkOk(c, o, pushed, r', mail, wire)
  {
  }

  lemma StepKeepsReceiverAndLink(c: Config, o: Sender, pushed: nat, r: Receiver, mail: seq<Message>, wire: seq<byte>)
    requires SizesOk(c) && AllFit(c.buckets) && ReceiverOk(c, r) && ReceiverCanStep(r)
    requires LinkOk(c, o, pushed, r, mail, wire)
    ensures ReceiverOk(c, ReceiverStep(c, r)) && LinkOk(c, o, pushed, ReceiverStep(c, r), mail, wire)
  {
    ReceiverStepKeeps(c, r);
    ReceiverStepKeepsCounters(c, r);
    ReceiverLinkKept(c, o, pushed, r, ReceiverStep(c, r), mail, wire);
  }

  lemma StepReceiverKeepsInv(c: Config, capacity: nat, s: State, i: nat)
    requires SizesOk(c) && AllFit(c.buckets) && Inv(c, s) && Enabled(c, capacity, s, StepReceiver(i))
    ensures Inv(c, Apply(c, capacity, s, StepReceiver(i)))
  {
    assert LinkOk(c, s.sender, s.sender.pushed[i], s.receivers[i], s.mail[i], s.wires[i]);
    assert ReceiverOk(c, s.receivers[i]);
    StepKeepsReceiverAndLink(c, s.sender, s.sender.pushed[i], s.receivers[i], s.mail[i], s.wires[i]);
    ReplacedKeepsInv(c, s, i, ReceiverStep(c, s.receivers[i]));
  }

  lemma ReplacedKeepsInv(c: Config, s: State, i: nat, r: Receiver)
    requires AllFit(c.buckets) && Inv(c, s) && i < c.receivers && ReceiverOk(c, r)
    requires LinkOk(c, s.sender, s.sender.pushed[i], r, s.mail[i], s.wires[i])
    ensures Inv(c, s.(receivers := s.receivers[i := r]))
  {
    ReceiverActionKeepsInv(c, s, s.(receivers := s.receivers[i := r]), i);
  }

  lemma TakeMetaKeepsLink(c: Config, o: Sender, pushed: nat, r: Receiver, mail: seq<Message>, wire: seq<byte>)
    requires AllFit(c.buckets) && ReceiverOk(c, r) && r.stage.AwaitMeta? && mail != []
    requires LinkOk(c, o, pushed, r, mail, wire)
    ensures var r' := r.(stage := Pulling, incoming := mail[0]);
            ReceiverOk(c, r') && LinkOk(c, o, pushed, r', mail[1..], wire)
  {
    assert mail[0] == MessageFor(c, Taken(r) + 0);
    TakeMetaKeeps(c, r, mail[0]);
    MailTaken(c, Published(o), Taken(r), mail);
  }

  lemma MailTaken(c: Config, published: int, taken: int, mail: seq<Message>)
    requires MailOk(c, published, taken, mail) && mail != []
    ensures MailOk(c, published, taken + 1, mail[1..])
  {
    forall d | 0 <= d < |mail| - 1
      ensures mail[1..][d] == MessageFor(c, taken + 1 + d)
    {
      assert mail[d + 1] == MessageFor(c, taken + (d + 1));
    }
  }

  lemma TakeMetaKeepsInv(c: Config, capacity: nat, s: State, i: nat)
    requires AllFit(c.buckets) && Inv(c, s) && Enabled(c, capacity, s, TakeMeta(i))
    ensures Inv(c, Apply(c, capacity, s, TakeMeta(i)))
  {
    assert LinkOk(c, s.sender, s.sender.pushed[i], s.receivers[i], s.mail[i], s.wires[i]);
    assert ReceiverOk(c, s.receivers[i]);
    TakeMetaKeepsLink(c, s.sender, s.sender.pushed[i], s.receivers[i], s.mail[i], s.wires[i]);
    ReceiverActionKeepsInv(c, s, Apply(c, capacity, s, TakeMeta(i)), i);
  }

  lemma PullKeepsLink(c: Config, o: Sender, pushed: nat, r: Receiver, mail: seq<Message>, wire: seq<byte>)
    requires AllFit(c.buckets) && ReceiverOk(c, r) && r.stage.Pulling? && r.pos < c.bucketSize && wire != []
    requires LinkOk(c, o, pushed, r, mail, wire)
    ensures ReceiverOk(c, PullByte(r, wire[0])) && LinkOk(c, o, pushed, PullByte(r, wire[0]), mail, wire[1..])
  {
    PullWire(c, Position(c, Launched(o), pushed), Position(c, Begun(r), r.pos), wire);
    PullKeeps(c, r, wire[0]);
  }

  lemma PullKeepsInv(c: Config, capacity: nat, s: State, i: nat)
    requires AllFit(c.buckets) && Inv(c, s) && Enabled(c, capacity, s, Pull(i))
    ensures Inv(c, Apply(c, capacity, s, Pull(i)))
  {
    assert LinkOk(c, s.sender, s.sender.pushed[i], s.receivers[i], s.mail[i], s.wires[i]);
    assert ReceiverOk(c, s.receivers[i]);
    PullKeepsLink(c, s.sender, s.sender.pushed[i], s.receivers[i], s.mail[i], s.wires[i]);
    ReceiverActionKeepsInv(c, s, Apply(c, capacity, s, Pull(i)), i);
  }

  lemma FinishReceiveKeepsInv(c: Config, capacity: nat, s: State, i: nat)
    requires AllFit(c.buckets) && Inv(c, s) && Enabled(c, capacity, s, FinishReceive(i))
    ensures Inv(c, Apply(c, capacity, s, FinishReceive(i)))
  {
    assert LinkOk(c, s.sender, s.sender.pushed[i], s.receivers[i], s.mail[i], s.wires[i]);
    var r, r' := s.receivers[i], s.receivers[i].(stage := Pulled);
    assert ReceiverOk(c, r);
    FinishReceiveKeeps(c, r);
    ReceiverLinkKept(c, s.sender, s.sender.pushed[i], r, r', s.mail[i], s.wires[i]);
    ReplacedKeepsInv(c, s, i, r');
  }

  lemma StepKeepsInv(c: Config, capacity: nat, s: State, a: Action)
    requires c.Valid() && AllFit(c.buckets) && Inv(c, s) && Enabled(c, capacity, s, a)
    ensures Inv(c, Apply(c, capacity, s, a))
  {
    SizesFit(c);
    match a
    case StepSender => StepSenderKeepsInv(c, capacity, s);
    case Publish => PublishKeepsInv(c, capacity, s);
    case Push(i) => PushKeepsInv(c, capacity, s, i);
    case FinishSend => FinishSendKeepsInv(c, capacity, s);
    case StepReceiver(i) => StepReceiverKeepsInv(c, capacity, s, i);
    case TakeMeta(i) => TakeMetaKeepsInv(c, capacity, s, i);
    case Pull(i) => PullKeepsInv(c, capacity, s, i);
    case FinishReceive(i) => FinishReceiveKeepsInv(c, capacity, s, i);
  }

  lemma {:induction false} RunKeepsInv(c: Config, capacity: nat, from: State, actions: seq<Action>, to: State)
    requires c.Valid() && AllFit(c.buckets) && Inv(c, from) && IsRun(c, capacity, from, actions, to)
    ensures Inv(c, to)
    decreases |actions|
  {
    if actions != [] {
      StepKeepsInv(c, capacity, from, actions[0]);
      RunKeepsInv(c, capacity, Apply(c, capacity, from, actions[0]), actions[1..], to);
    }
  }
}
