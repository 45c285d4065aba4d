/** What every run of the relay chain keeps, that it cannot get stuck or go on forever, and what it delivers. */
module RelayChainProofs {
  import opened Options
  import opened WeightChunks
  import opened Buckets
  import opened Delivery
  import opened RelayChain

  // ---------------------------------------------------------------- how far a rank has come

  /** The buffer of rank r that holds bucket j: a receiver starts by reading into recv_buf. */
  function Slot(r: nat, j: nat): bool {
    if r == 0 then j % 2 == 1 else j % 2 == 0
  }

  /** Buckets posted to the successor. */
  function PostedCount(rk: Rank): nat {
    match rk.phase
    case Filling | AwaitPrevious | Posting => rk.k
    case AwaitFirst | ReadFirst => 0
    case _ => rk.k + 1
  }

  /** Posts known to be read by the successor. */
  function AckedCount(rk: Rank): nat {
    match rk.phase
    case Filling | AwaitPrevious => if rk.k == 0 then 0 else rk.k - 1
    case AwaitFirst | ReadFirst => 0
    case AwaitRead | Done => rk.k + 1
    case _ => rk.k
  }

  /** Reads begun from the predecessor. */
  function BegunCount(rk: Rank): nat {
    match rk.phase
    case AwaitFirst => 0
    case ReadFirst => 1
    case Yielding | AwaitRelayed | AwaitRead => rk.k + 2
    case _ => rk.k + 1
  }

  /** Reads completed. */
  function ReadCount(rk: Rank): int {
    if rk.Reading() then BegunCount(rk) - 1 else BegunCount(rk)
  }

  predicate Holding(rk: Rank) {
    (!rk.phase.Filling? && !rk.phase.AwaitPrevious? && !rk.phase.AwaitFirst? && !rk.phase.ReadFirst?)
  }

  predicate Overlapping(rk: Rank) {
    (rk.phase.Yielding? || rk.phase.AwaitRelayed? || rk.phase.AwaitRead?)
  }

  // ---------------------------------------------------------------- invariant

  /** The message for bucket j on its way from rank r. */
  ghost predicate Describes(c: Config, r: nat, m: Message, j: nat) {
    j < |c.buckets| && m == Message(j, Slot(r, j), c.buckets[j].metas, j == c.Last())
  }

  ghost predicate SameBucket(c: Config, m: Message, j: nat) {
    j < |c.buckets| && m.metas == c.buckets[j].metas && m.isLast == (j == c.Last())
  }

  ghost predicate PhaseOk(c: Config, r: nat, rk: Rank) {
    && (r == 0 ==>
          rk.phase.Filling? || rk.phase.AwaitPrevious? || rk.phase.Posting? || rk.phase.AwaitLast? || rk.phase.Done?)
    && (r > 0 ==> (!rk.phase.Filling? && !rk.phase.AwaitPrevious?))
    && (r == c.receivers ==> !rk.NeedsNotification())
    && (rk.phase.AwaitPrevious? ==> rk.k > 0)
    && ((rk.phase.AwaitLast? || rk.phase.Done? || rk.phase.YieldLast?) ==> rk.k == c.Last())
    && (rk.phase.AwaitNext? || Overlapping(rk) ==> rk.k < c.Last())
    && ((rk.phase.AwaitFirst? || rk.phase.ReadFirst?) ==> rk.k == 0)
    && (if (rk.phase.AwaitFirst? || rk.phase.ReadFirst?) then rk.front != Slot(r, 0) else rk.front == Slot(r, rk.k))
  }

  /** The two ways to crash: rank 0 is about to place a chunk whose name is taken, or a receiver is about to
      hand out a view that is not aligned. */
  predicate Failing(c: Config, r: nat, rk: Rank)
    requires Ready(c, rk)
  {
    if r == 0 then
      rk.phase.Filling? && rk.y < |c.buckets[rk.k].metas| && c.buckets[rk.k].Repeats(rk.y)
    else
      && (rk.phase.Yielding? || rk.phase.YieldLast?) && rk.y < |rk.meta.metas|
      && !Aligned(rk.meta.metas[rk.y], c.bucketSize)
  }

  /** What rank 0 has put into its buffers. */
  ghost predicate FilledOk(c: Config, rk: Rank)
    requires Ready(c, rk)
  {
    var b := c.buckets[rk.k];
    && (rk.phase.Filling? ==> rk.y <= |b.metas| && HoldsUpTo(c, rk.Buf(rk.front), rk.k, b.Start(rk.y)))
    && ((rk.phase.AwaitPrevious? || rk.phase.Posting? || rk.phase.AwaitLast?) ==> Holds(c, rk.Buf(rk.front), rk.k))
    && ((rk.phase.Filling? || rk.phase.AwaitPrevious?) && rk.k > 0 ==>
          rk.opKey == rk.k - 1 && Holds(c, rk.Buf(!rk.front), rk.k - 1))
    && (rk.phase.AwaitLast? ==> rk.opKey == rk.k)
  }

  /** The bucket a receiver holds, and its open post. */
  ghost predicate HeldOk(c: Config, r: nat, rk: Rank)
    requires Ready(c, rk)
  {
    Holding(rk) ==>
      && SameBucket(c, rk.meta, rk.k) && Holds(c, rk.Buf(rk.front), rk.k)
      && (r < c.receivers && (|| rk.phase.AwaitNext? || rk.phase.Yielding? || rk.phase.AwaitRelayed?
                              || rk.phase.YieldLast? || rk.phase.AwaitLast?) ==>
            rk.opKey == rk.k)
  }

  /** The read in progress: what it reads, and the bytes it has copied so far. */
  ghost predicate ReadOk(c: Config, r: nat, rk: Rank)
    requires Ready(c, rk)
  {
    && (rk.transfer.Transfer? <==> rk.phase.ReadFirst? || Overlapping(rk))
    && (rk.transfer.Transfer? && r > 0 ==>
          var j := BegunCount(rk) - 1;
          && SameBucket(c, rk.next, j)
          && rk.transfer.src == Slot(r - 1, j) && rk.transfer.key == j
          && rk.transfer.pos <= c.bucketSize && (rk.transfer.done ==> rk.transfer.pos == c.bucketSize)
          && HoldsUpTo(c, rk.Buf(!rk.front), j, rk.transfer.pos))
  }

  ghost predicate OutOk(c: Config, rk: Rank)
    requires Ready(c, rk) && AllFit(c.buckets)
  {
    var n := |c.buckets[rk.k].metas|;
    if Holding(rk) then
      && rk.y <= n && rk.out == Delivered(c, rk.k, rk.y) && AllAligned(rk.out, c.bucketSize)
      && ((rk.phase.Posting? || rk.phase.AwaitNext?) ==> rk.y == 0)
      && ((rk.phase.AwaitRelayed? || rk.phase.AwaitRead? || rk.phase.AwaitLast? || rk.phase.Done?) ==> rk.y == n)
    else rk.out == []
  }

  ghost predicate RankOk(c: Config, r: nat, rk: Rank)
    requires AllFit(c.buckets)
  {
    && Ready(c, rk) && PhaseOk(c, r, rk) && ReadOk(c, r, rk) && (rk.crashed ==> Failing(c, r, rk))
    && (if r == 0 then FilledOk(c, rk) else HeldOk(c, r, rk) && OutOk(c, rk))
  }

  /** A link's queues hold exactly what is posted and not yet begun, and read and not yet acknowledged. */
  ghost predicate LinkOk(c: Config, r: nat, posted: int, acked: int, begun: int, read: int,
                         mail: seq<Message>, notes: seq<nat>)
  {
    && 0 <= begun && |mail| == posted - begun
    && (forall i :: 0 <= i < |mail| ==> Describes(c, r, mail[i], begun + i))
    && 0 <= acked && |notes| == read - acked
    && (forall i :: 0 <= i < |notes| ==> notes[i] == acked + i)
  }

  ghost predicate Link(c: Config, s: State, r: nat)
    requires Shaped(c, s) && r < c.receivers
  {
    LinkOk(c, r, PostedCount(s.ranks[r]), AckedCount(s.ranks[r]),
           BegunCount(s.ranks[r + 1]), ReadCount(s.ranks[r + 1]), s.mail[r], s.notes[r])
  }

  ghost predicate RanksOk(c: Config, ranks: seq<Rank>)
    requires AllFit(c.buckets)
  {
    && |ranks| == c.receivers + 1
    && forall r {:trigger RankOk(c, r, ranks[r])} :: 0 <= r < |ranks| ==> RankOk(c, r, ranks[r])
  }

  ghost predicate LinksOk(c: Config, s: State)
    requires Shaped(c, s)
  {
    forall r :: 0 <= r < c.receivers ==> Link(c, s, r)
  }

  ghost predicate Inv(c: Config, s: State)
    requires AllFit(c.buckets)
  {
    Shaped(c, s) && RanksOk(c, s.ranks) && LinksOk(c, s)
  }

  lemma UpdateRank(c: Config, ranks: seq<Rank>, r: nat, rk: Rank)
    requires AllFit(c.buckets) && RanksOk(c, ranks) && r < |ranks| && RankOk(c, r, rk)
    ensures RanksOk(c, ranks[r := rk])
  {
  }

  /** A link whose counters and queues stay as they are stays intact. */
  lemma LinkUntouched(c: Config, s: State, s': State, i: nat)
    requires Shaped(c, s) && Shaped(c, s') && i < c.receivers && Link(c, s, i)
    requires s'.mail[i] == s.mail[i] && s'.notes[i] == s.notes[i]
    requires PostedCount(s'.ranks[i]) == PostedCount(s.ranks[i]) && AckedCount(s'.ranks[i]) == AckedCount(s.ranks[i])
    requires BegunCount(s'.ranks[i + 1]) == BegunCount(s.ranks[i + 1])
    requires ReadCount(s'.ranks[i + 1]) == ReadCount(s.ranks[i + 1])
    ensures Link(c, s', i)
  {
  }

  lemma InitialOk(c: Config)
    requires c.Valid() && AllFit(c.buckets)
    ensures Inv(c, Initial(c))
  {
    var s := Initial(c);
    assert WellPacked(c.buckets[0], c.bucketSize);
    assert RankOk(c, 0, s.ranks[0]);
    forall r | 0 <= r < c.receivers
      ensures Link(c, s, r)
    {
      assert s.mail[r] == [] && s.notes[r] == [];
    }
  }

  // ---------------------------------------------------------------- one step of a coroutine

  /** The heads of the queues a rank waits on are the expected ones. */
  ghost predicate InputsOk(c: Config, r: nat, rk: Rank, m: Message, note: nat) {
    && (rk.NeedsMail() ==> r > 0 && Describes(c, r - 1, m, BegunCount(rk)))
    && (rk.NeedsNotification() ==> note == AckedCount(rk))
    && (rk.NeedsTransfer() ==> rk.transfer.Transfer? && rk.transfer.done)
  }

  lemma FillKeeps(c: Config, rk: Rank)
    requires AllFit(c.buckets) && RankOk(c, 0, rk) && rk.phase.Filling? && WellPacked(c.buckets[rk.k], c.bucketSize)
    requires rk.y < |c.buckets[rk.k].metas| && !rk.crashed
    ensures RankOk(c, 0, FillChunk(c, rk))
  {
    FilledSoFar(c, rk);
    var buffer := FillChunkIs(c, rk);
    if c.buckets[rk.k].Repeats(rk.y) {
      CrashKeeps(c, 0, rk);
    } else {
      PlaceKeeps(c, rk, buffer);
    }
  }

  /** A chunk that is placed extends the filled part of the front buffer. */
  lemma FillChunkIs(c: Config, rk: Rank) returns (buffer: seq<byte>)
    requires Ready(c, rk) && WellPacked(c.buckets[rk.k], c.bucketSize) && rk.y < |c.buckets[rk.k].metas|
    requires HoldsUpTo(c, rk.Buf(rk.front), rk.k, c.buckets[rk.k].Start(rk.y))
    ensures |buffer| == c.bucketSize && HoldsUpTo(c, buffer, rk.k, c.buckets[rk.k].Start(rk.y + 1))
    ensures FillChunk(c, rk) == if c.buckets[rk.k].Repeats(rk.y) then rk.(crashed := true)
                                else rk.WithBuf(rk.front, buffer).(y := rk.y + 1)
  {
    var b := c.buckets[rk.k];
    FillExtends(c, rk.Buf(rk.front), rk.k, rk.y);
    buffer := Overwrite(rk.Buf(rk.front), b.metas[rk.y].offset, Slice(b.metas[rk.y], b.data).bytes);
  }

  lemma FilledSoFar(c: Config, rk: Rank)
    requires AllFit(c.buckets) && RankOk(c, 0, rk) && rk.phase.Filling?
    ensures |rk.Buf(rk.front)| == c.bucketSize && rk.y <= |c.buckets[rk.k].metas|
    ensures HoldsUpTo(c, rk.Buf(rk.front), rk.k, c.buckets[rk.k].Start(rk.y))
  {
  }

  lemma CrashKeeps(c: Config, r: nat, rk: Rank)
    requires AllFit(c.buckets) && RankOk(c, r, rk) && Failing(c, r, rk)
    ensures RankOk(c, r, rk.(crashed := true))
  {
  }

  lemma PlaceKeeps(c: Config, rk: Rank, buffer: seq<byte>)
    requires AllFit(c.buckets) && RankOk(c, 0, rk) && rk.phase.Filling? && !rk.crashed
    requires rk.y < |c.buckets[rk.k].metas| && |buffer| == c.bucketSize
    requires HoldsUpTo(c, buffer, rk.k, c.buckets[rk.k].Start(rk.y + 1))
    ensures RankOk(c, 0, rk.WithBuf(rk.front, buffer).(y := rk.y + 1))
  {
  }

  lemma YieldKeeps(c: Config, r: nat, rk: Rank)
    requires AllFit(c.buckets) && r > 0 && RankOk(c, r, rk)
    requires (rk.phase.Yielding? || rk.phase.YieldLast?) && rk.y < |rk.meta.metas| && !rk.crashed
    ensures RankOk(c, r, YieldChunk(c, rk))
  {
    if !Aligned(rk.meta.metas[rk.y], c.bucketSize) {
      CrashKeeps(c, r, rk);
    } else {
      SliceOfHeld(c, rk.Buf(rk.front), rk.k, rk.y);
      HandOutKeeps(c, r, rk, Slice(rk.meta.metas[rk.y], rk.Buf(rk.front)));
    }
  }

  lemma HandOutKeeps(c: Config, r: nat, rk: Rank, chunk: Chunk)
    requires AllFit(c.buckets) && r > 0 && RankOk(c, r, rk) && !rk.crashed
    requires (rk.phase.Yielding? || rk.phase.YieldLast?) && rk.y < |c.buckets[rk.k].metas|
    requires chunk == ChunksOf(c.buckets[rk.k])[rk.y] && Aligned(chunk.meta, c.bucketSize)
    ensures RankOk(c, r, rk.(out := rk.out + [chunk], y := rk.y + 1))
  {
  }

  lemma SwapKeeps(c: Config, r: nat, rk: Rank)
    requires AllFit(c.buckets) && r > 0 && RankOk(c, r, rk)
    requires rk.NeedsTransfer() && rk.transfer.Transfer? && rk.transfer.done
    requires |c.buckets[BegunCount(rk) - 1].data| <= c.bucketSize
    ensures RankOk(c, r, SwapIn(rk, if rk.phase.ReadFirst? then 0 else rk.k + 1))
  {
    if rk.phase.AwaitRead? { SwapNextKeeps(c, r, rk); } else { SwapFirstKeeps(c, r, rk); }
  }

  lemma SwapFirstKeeps(c: Config, r: nat, rk: Rank)
    requires AllFit(c.buckets) && r > 0 && RankOk(c, r, rk)
    requires rk.phase.ReadFirst? && rk.transfer.Transfer? && rk.transfer.done && |c.buckets[0].data| <= c.bucketSize
    ensures RankOk(c, r, SwapIn(rk, 0))
  {
  }

  lemma SwapNextKeeps(c: Config, r: nat, rk: Rank)
    requires AllFit(c.buckets) && r > 0 && RankOk(c, r, rk)
    requires rk.phase.AwaitRead? && rk.transfer.Transfer? && rk.transfer.done
    requires rk.k + 1 < |c.buckets| && |c.buckets[rk.k + 1].data| <= c.bucketSize
    ensures RankOk(c, r, SwapIn(rk, rk.k + 1))
  {
  }

  lemma SenderPostsLast(c: Config, rk: Rank)
    requires AllFit(c.buckets) && c.receivers > 0 && RankOk(c, 0, rk) && rk.phase.Posting? && rk.k == c.Last()
    ensures RankOk(c, 0, rk.(opKey := rk.k, phase := AwaitLast))
  {
  }

  lemma SenderPostsNext(c: Config, rk: Rank)
    requires AllFit(c.buckets) && c.receivers > 0 && RankOk(c, 0, rk) && rk.phase.Posting? && rk.k + 1 < |c.buckets|
    requires HoldsUpTo(c, rk.Buf(!rk.front), rk.k + 1, c.buckets[rk.k + 1].Start(0))
    ensures RankOk(c, 0, rk.(opKey := rk.k, phase := Filling, k := rk.k + 1, y := 0, front := !rk.front))
  {
  }

  lemma SenderPostKeeps(c: Config, rk: Rank)
    requires AllFit(c.buckets) && c.receivers > 0 && RankOk(c, 0, rk) && rk.phase.Posting?
    requires rk.k + 1 < |c.buckets| ==> WellPacked(c.buckets[rk.k + 1], c.bucketSize)
    ensures RankOk(c, 0, Posted(c, 0, rk))
  {
    if rk.k + 1 < |c.buckets| {
      HoldsNothingYet(c, rk.Buf(!rk.front), rk.k + 1);
      SenderPostsNext(c, rk);
    } else {
      SenderPostsLast(c, rk);
    }
  }

  lemma RelayPostKeeps(c: Config, r: nat, rk: Rank)
    requires AllFit(c.buckets) && 0 < r <= c.receivers && RankOk(c, r, rk) && rk.phase.Posting?
    ensures RankOk(c, r, Posted(c, r, rk))
  {
  }

  lemma PostSends(c: Config, r: nat, rk: Rank)
    requires AllFit(c.buckets) && r < c.receivers && RankOk(c, r, rk) && rk.phase.Posting?
    ensures Outgoing(c, r, rk).Some? && Describes(c, r, Outgoing(c, r, rk).value, rk.k)
  {
  }

  lemma BeginKeeps(c: Config, r: nat, rk: Rank, m: Message, phase: Phase)
    requires AllFit(c.buckets) && r > 0 && RankOk(c, r, rk) && rk.NeedsMail()
    requires Describes(c, r - 1, m, BegunCount(rk)) && |c.buckets[BegunCount(rk)].data| <= c.bucketSize
    requires phase == if rk.phase.AwaitFirst? then ReadFirst else Yielding
    ensures RankOk(c, r, BeginRead(rk, m, phase))
  {
  }

  lemma NoteKeeps(c: Config, r: nat, rk: Rank, note: nat)
    requires AllFit(c.buckets) && r < c.receivers && RankOk(c, r, rk) && rk.NeedsNotification()
    requires note == AckedCount(rk)
    ensures note == rk.opKey && !rk.crashed
    ensures RankOk(c, r, LocalStep(c, r, rk, NO_MESSAGE, note))
  {
  }

  lemma SenderStepKeeps(c: Config, rk: Rank)
    requires c.Valid() && AllFit(c.buckets) && RankOk(c, 0, rk) && (rk.phase.Filling? || rk.phase.Posting?)
    requires !rk.crashed
    ensures RankOk(c, 0, LocalStep(c, 0, rk, NO_MESSAGE, 0))
  {
    BucketFits(c, rk.k);
    if rk.phase.Posting? {
      if rk.k + 1 < |c.buckets| { BucketFits(c, rk.k + 1); }
      SenderPostKeeps(c, rk);
    } else if rk.y < |c.buckets[rk.k].metas| {
      FillKeeps(c, rk);
    } else {
      FilledKeeps(c, rk);
    }
  }

  lemma ReceiverStepKeeps(c: Config, r: nat, rk: Rank)
    requires AllFit(c.buckets) && 0 < r <= c.receivers && RankOk(c, r, rk)
    requires (rk.phase.Posting? || rk.phase.Yielding? || rk.phase.YieldLast?) && !rk.crashed
    ensures RankOk(c, r, LocalStep(c, r, rk, NO_MESSAGE, 0))
  {
    if rk.phase.Posting? {
      RelayPostKeeps(c, r, rk);
    } else if rk.y < |rk.meta.metas| {
      YieldKeeps(c, r, rk);
    } else {
      YieldedKeeps(c, r, rk);
    }
  }

  lemma ReadStepKeeps(c: Config, r: nat, rk: Rank, m: Message)
    requires c.Valid() && AllFit(c.buckets) && 0 < r <= c.receivers && RankOk(c, r, rk)
    requires rk.NeedsMail() || rk.NeedsTransfer()
    requires InputsOk(c, r, rk, m, 0)
    ensures RankOk(c, r, LocalStep(c, r, rk, m, 0))
  {
    if rk.NeedsTransfer() {
      BucketFits(c, BegunCount(rk) - 1);
      SwapKeeps(c, r, rk);
    } else {
      BucketFits(c, BegunCount(rk));
      BeginKeeps(c, r, rk, m, if rk.phase.AwaitFirst? then ReadFirst else Yielding);
    }
  }

  /** Every step of a coroutine keeps the rank's invariant, and no notification ever fails to match. */
  lemma LocalKeepsRank(c: Config, r: nat, rk: Rank, m: Message, note: nat)
    requires c.Valid() && AllFit(c.buckets) && r <= c.receivers && RankOk(c, r, rk)
    requires !rk.phase.Done? && !rk.crashed && InputsOk(c, r, rk, m, note)
    ensures RankOk(c, r, LocalStep(c, r, rk, m, note))
  {
    if rk.NeedsNotification() {
      NoteKeeps(c, r, rk, note);
    } else if rk.NeedsMail() || rk.NeedsTransfer() {
      ReadStepKeeps(c, r, rk, m);
    } else if r == 0 {
      SenderStepKeeps(c, rk);
    } else {
      ReceiverStepKeeps(c, r, rk);
    }
  }

  lemma FilledKeeps(c: Config, rk: Rank)
    requires AllFit(c.buckets) && c.receivers > 0 && RankOk(c, 0, rk) && rk.phase.Filling?
    requires rk.y == |c.buckets[rk.k].metas| && |c.buckets[rk.k].data| <= c.bucketSize
    ensures RankOk(c, 0, rk.(phase := if rk.k == 0 then Posting else AwaitPrevious))
  {
  }

  lemma YieldedKeeps(c: Config, r: nat, rk: Rank)
    requires AllFit(c.buckets) && r > 0 && r <= c.receivers && RankOk(c, r, rk)
    requires (rk.phase.Yielding? || rk.phase.YieldLast?) && rk.y == |rk.meta.metas|
    ensures RankOk(c, r, LocalStep(c, r, rk, NO_MESSAGE, 0))
  {
  }

  /** A step moves each counter exactly by the messages it takes and sends. */
  lemma LocalMovesReads(c: Config, r: nat, rk: Rank, m: Message, note: nat)
    requires AllFit(c.buckets) && 0 < r <= c.receivers && RankOk(c, r, rk)
    requires !rk.phase.Done? && InputsOk(c, r, rk, m, note)
    ensures var rk' := LocalStep(c, r, rk, m, note);
            && BegunCount(rk') == BegunCount(rk) + (if rk.NeedsMail() then 1 else 0)
            && ReadCount(rk') == ReadCount(rk)
  {
    if !rk.NeedsMail() && !rk.NeedsTransfer() { OtherStepsReadNothing(c, r, rk, m, note); }
  }

  lemma OtherStepsReadNothing(c: Config, r: nat, rk: Rank, m: Message, note: nat)
    requires AllFit(c.buckets) && 0 < r <= c.receivers && RankOk(c, r, rk)
    requires !rk.phase.Done? && !rk.NeedsMail() && !rk.NeedsTransfer()
    ensures var rk' := LocalStep(c, r, rk, m, note);
            BegunCount(rk') == BegunCount(rk) && ReadCount(rk') == ReadCount(rk)
  {
  }

  lemma LocalMovesPosts(c: Config, r: nat, rk: Rank, m: Message, note: nat)
    requires Ready(c, rk) && r < c.receivers && PhaseOk(c, r, rk) && !rk.phase.Done?
    requires rk.NeedsNotification() ==> note == rk.opKey
    ensures var rk' := LocalStep(c, r, rk, m, note);
            && AckedCount(rk') == AckedCount(rk) + (if rk.NeedsNotification() then 1 else 0)
            && PostedCount(rk') == PostedCount(rk) + (if rk.phase.Posting? then 1 else 0)
  {
  }

  // ---------------------------------------------------------------- one step of the chain

  lemma InputsAreExpected(c: Config, s: State, r: nat)
    requires AllFit(c.buckets) && Inv(c, s) && r <= c.receivers && Enabled(c, s, Local(r))
    ensures InputsOk(c, r, s.ranks[r], MailHead(s, r), NoteHead(s, r))
  {
    var rk := s.ranks[r];
    assert RankOk(c, r, rk);
    if rk.NeedsMail() {
      assert Link(c, s, r - 1);
    }
    if rk.NeedsNotification() {
      assert Link(c, s, r);
    }
  }

  /** The upstream end takes a notification or sends a post: the queues follow its counters. */
  lemma LinkFollowsPoster(c: Config, r: nat, posted: int, acked: int, begun: int, read: int,
                          mail: seq<Message>, notes: seq<nat>, sent: Option<Message>, noted: bool)
    requires LinkOk(c, r, posted, acked, begun, read, mail, notes) && (noted ==> notes != [])
    requires sent.Some? ==> posted >= 0 && Describes(c, r, sent.value, posted)
    ensures LinkOk(c, r, posted + (if sent.Some? then 1 else 0), acked + (if noted then 1 else 0), begun, read,
                   if sent.Some? then mail + [sent.value] else mail, if noted then notes[1..] else notes)
  {
  }

  /** What a step of rank r leaves on its link to rank r + 1. */
  lemma LocalDownstream(c: Config, s: State, r: nat)
    requires Shaped(c, s) && r < c.receivers && Enabled(c, s, Local(r)) && Shaped(c, Apply(c, s, Local(r)))
    ensures var rk, s' := s.ranks[r], Apply(c, s, Local(r));
            && s'.ranks[r] == LocalStep(c, r, rk, MailHead(s, r), NoteHead(s, r)) && s'.ranks[r + 1] == s.ranks[r + 1]
            && s'.mail[r] == (if Outgoing(c, r, rk).Some? then s.mail[r] + [Outgoing(c, r, rk).value] else s.mail[r])
            && s'.notes[r] == (if rk.NeedsNotification() then s.notes[r][1..] else s.notes[r])
  {
  }

  /** A step moves the counters of rank r by the notification it takes and the post it makes. */
  ghost predicate PosterMoves(c: Config, s: State, r: nat)
    requires Shaped(c, s) && r < c.receivers
  {
    var rk := s.ranks[r];
    var rk', sent := LocalStep(c, r, rk, MailHead(s, r), NoteHead(s, r)), Outgoing(c, r, rk);
    && AckedCount(rk') == AckedCount(rk) + (if rk.NeedsNotification() then 1 else 0)
    && PostedCount(rk') == PostedCount(rk) + (if sent.Some? then 1 else 0)
    && (sent.Some? ==> Describes(c, r, sent.value, PostedCount(rk)))
  }

  lemma LocalPosterMoves(c: Config, s: State, r: nat)
    requires c.Valid() && AllFit(c.buckets) && Inv(c, s) && r < c.receivers && Enabled(c, s, Local(r))
    ensures PosterMoves(c, s, r)
  {
    var rk := s.ranks[r];
    InputsAreExpected(c, s, r);
    assert RankOk(c, r, rk);
    if rk.NeedsNotification() { NoteKeeps(c, r, rk, NoteHead(s, r)); }
    LocalMovesPosts(c, r, rk, MailHead(s, r), NoteHead(s, r));
    if rk.phase.Posting? { PostSends(c, r, rk); }
  }

  lemma PosterKeepsLink(c: Config, s: State, r: nat)
    requires Shaped(c, s) && r < c.receivers && Link(c, s, r) && Enabled(c, s, Local(r)) && PosterMoves(c, s, r)
    requires Shaped(c, Apply(c, s, Local(r)))
    ensures Link(c, Apply(c, s, Local(r)), r)
  {
    var rk, down := s.ranks[r], s.ranks[r + 1];
    LocalDownstream(c, s, r);
    LinkFollowsPoster(c, r, PostedCount(rk), AckedCount(rk), BegunCount(down), ReadCount(down), s.mail[r], s.notes[r],
                      Outgoing(c, r, rk), rk.NeedsNotification());
  }

  lemma LocalKeepsLinkDown(c: Config, s: State, r: nat)
    requires c.Valid() && AllFit(c.buckets) && Inv(c, s) && r < c.receivers && Enabled(c, s, Local(r))
    requires Shaped(c, Apply(c, s, Local(r)))
    ensures Link(c, Apply(c, s, Local(r)), r)
  {
    LocalPosterMoves(c, s, r);
    assert Link(c, s, r);
    PosterKeepsLink(c, s, r);
  }

  /** A step of rank r begins a read for each message it takes, and completes none. */
  ghost predicate ReaderMoves(c: Config, s: State, r: nat)
    requires Shaped(c, s) && r <= c.receivers
  {
    var rk := s.ranks[r];
    var rk' := LocalStep(c, r, rk, MailHead(s, r), NoteHead(s, r));
    BegunCount(rk') == BegunCount(rk) + (if rk.NeedsMail() then 1 else 0) && ReadCount(rk') == ReadCount(rk)
  }

  lemma ReaderKeepsLink(c: Config, s: State, r: nat)
    requires Shaped(c, s) && 0 < r <= c.receivers && Link(c, s, r - 1) && Enabled(c, s, Local(r))
    requires ReaderMoves(c, s, r)
    requires Shaped(c, Apply(c, s, Local(r)))
    ensures Link(c, Apply(c, s, Local(r)), r - 1)
  {
  }

  lemma LocalKeepsLinkUp(c: Config, s: State, r: nat)
    requires c.Valid() && AllFit(c.buckets) && Inv(c, s) && 0 < r <= c.receivers && Enabled(c, s, Local(r))
    requires Shaped(c, Apply(c, s, Local(r)))
    ensures Link(c, Apply(c, s, Local(r)), r - 1)
  {
    InputsAreExpected(c, s, r);
    assert RankOk(c, r, s.ranks[r]) && Link(c, s, r - 1);
    LocalMovesReads(c, r, s.ranks[r], MailHead(s, r), NoteHead(s, r));
    ReaderKeepsLink(c, s, r);
  }

  lemma LocalKeepsOthers(c: Config, s: State, r: nat, i: nat)
    requires Shaped(c, s) && r <= c.receivers && Enabled(c, s, Local(r)) && i < c.receivers
    requires Shaped(c, Apply(c, s, Local(r))) && Link(c, s, i)
    ensures i != r && i + 1 != r ==> Link(c, Apply(c, s, Local(r)), i)
  {
    if i != r && i + 1 != r {
      LinkUntouched(c, s, Apply(c, s, Local(r)), i);
    }
  }

  lemma LocalKeepsRanks(c: Config, s: State, r: nat)
    requires c.Valid() && AllFit(c.buckets) && Inv(c, s) && r <= c.receivers && Enabled(c, s, Local(r))
    ensures Shaped(c, Apply(c, s, Local(r))) && RanksOk(c, Apply(c, s, Local(r)).ranks)
  {
    InputsAreExpected(c, s, r);
    LocalKeepsRank(c, r, s.ranks[r], MailHead(s, r), NoteHead(s, r));
    UpdateRank(c, s.ranks, r, LocalStep(c, r, s.ranks[r], MailHead(s, r), NoteHead(s, r)));
  }

  ghost predicate LinksOkExcept(c: Config, s: State, r: nat)
    requires Shaped(c, s)
  {
    forall i :: 0 <= i < c.receivers && i != r && i + 1 != r ==> Link(c, s, i)
  }

  lemma LocalKeepsOtherLinks(c: Config, s: State, r: nat)
    requires Shaped(c, s) && LinksOk(c, s) && r <= c.receivers && Enabled(c, s, Local(r))
    requires Shaped(c, Apply(c, s, Local(r)))
    ensures LinksOkExcept(c, Apply(c, s, Local(r)), r)
  {
    forall i | 0 <= i < c.receivers && i != r && i + 1 != r
      ensures Link(c, Apply(c, s, Local(r)), i)
    {
      LocalKeepsOthers(c, s, r, i);
    }
  }

  lemma AllLinks(c: Config, s: State, r: nat)
    requires Shaped(c, s) && LinksOkExcept(c, s, r) && (r < c.receivers ==> Link(c, s, r))
    requires 0 < r <= c.receivers ==> Link(c, s, r - 1)
    ensures LinksOk(c, s)
  {
  }

  lemma LocalKeepsLinks(c: Config, s: State, r: nat)
    requires c.Valid() && AllFit(c.buckets) && Inv(c, s) && r <= c.receivers && Enabled(c, s, Local(r))
    requires Shaped(c, Apply(c, s, Local(r)))
    ensures LinksOk(c, Apply(c, s, Local(r)))
  {
    LocalKeepsOtherLinks(c, s, r);
    if r < c.receivers { LocalKeepsLinkDown(c, s, r); }
    if r > 0 { LocalKeepsLinkUp(c, s, r); }
    AllLinks(c, Apply(c, s, Local(r)), r);
  }

  lemma LocalKeepsInv(c: Config, s: State, r: nat)
    requires c.Valid() && AllFit(c.buckets) && Inv(c, s) && r <= c.receivers && Enabled(c, s, Local(r))
    ensures Inv(c, Apply(c, s, Local(r)))
  {
    LocalKeepsRanks(c, s, r);
    LocalKeepsLinks(c, s, r);
  }

  /** While rank r reads, its predecessor's post is open, so the source buffer holds the bucket being read. */
  lemma SourceIsIntact(c: Config, s: State, r: nat)
    requires AllFit(c.buckets) && Inv(c, s) && 0 < r <= c.receivers && s.ranks[r].Reading()
    ensures var up, j := s.ranks[r - 1], BegunCount(s.ranks[r]) - 1;
            && 0 <= j < |c.buckets| && s.ranks[r].transfer.src == Slot(r - 1, j)
            && PostedCount(up) == j + 1 && AckedCount(up) == j
            && Holds(c, up.Buf(Slot(r - 1, j)), j)
  {
    var up, rk, mail, notes := s.ranks[r - 1], s.ranks[r], s.mail[r - 1], s.notes[r - 1];
    assert LinkOk(c, r - 1, PostedCount(up), AckedCount(up), BegunCount(rk), ReadCount(rk), mail, notes) by {
      assert Link(c, s, r - 1);
    }
    SourceHolds(c, r, up, rk, mail, notes);
  }

  lemma SourceHolds(c: Config, r: nat, up: Rank, rk: Rank, mail: seq<Message>, notes: seq<nat>)
    requires AllFit(c.buckets) && 0 < r <= c.receivers && RankOk(c, r - 1, up) && RankOk(c, r, rk) && rk.Reading()
    requires LinkOk(c, r - 1, PostedCount(up), AckedCount(up), BegunCount(rk), ReadCount(rk), mail, notes)
    ensures var j := BegunCount(rk) - 1;
            && 0 <= j < |c.buckets| && rk.transfer.src == Slot(r - 1, j)
            && PostedCount(up) == j + 1 && AckedCount(up) == j
            && Holds(c, up.Buf(Slot(r - 1, j)), j)
  {
    OpenPostIsHeld(c, r - 1, up);
    ReadIsOfOpenPost(c, r - 1, PostedCount(up), AckedCount(up), BegunCount(rk), mail, notes);
    ReadSource(c, r, rk);
  }

  /** A bucket being read is the one whose post is open. */
  lemma ReadIsOfOpenPost(c: Config, r: nat, posted: int, acked: int, begun: int, mail: seq<Message>, notes: seq<nat>)
    requires LinkOk(c, r, posted, acked, begun, begun - 1, mail, notes) && posted <= acked + 1
    ensures posted == begun && acked == begun - 1
  {
  }

  lemma ReadSource(c: Config, r: nat, rk: Rank)
    requires AllFit(c.buckets) && 0 < r && RankOk(c, r, rk) && rk.Reading()
    ensures BegunCount(rk) >= 1 && rk.transfer.src == Slot(r - 1, BegunCount(rk) - 1)
  {
  }

  /** At most one post is open, and the buffer it names holds its bucket. */
  lemma OpenPostIsHeld(c: Config, r: nat, rk: Rank)
    requires AllFit(c.buckets) && r < c.receivers && RankOk(c, r, rk)
    ensures PostedCount(rk) <= AckedCount(rk) + 1 && PostedCount(rk) <= |c.buckets|
    ensures PostedCount(rk) > AckedCount(rk) ==> Holds(c, rk.Buf(Slot(r, PostedCount(rk) - 1)), PostedCount(rk) - 1)
  {
  }

  lemma CopyKeepsRank(c: Config, r: nat, rk: Rank, up: Rank)
    requires AllFit(c.buckets) && 0 < r && RankOk(c, r, rk) && Ready(c, up)
    requires rk.Reading() && rk.transfer.pos < c.bucketSize
    requires Holds(c, up.Buf(rk.transfer.src), BegunCount(rk) - 1)
    ensures RankOk(c, r, CopyByte(c, rk, up))
  {
  }

  /** A rank with the same counters leaves every link as it is. */
  lemma LinkWithRank(c: Config, s: State, r: nat, rk: Rank, i: nat)
    requires Shaped(c, s) && r <= c.receivers && Ready(c, rk) && i < c.receivers && Link(c, s, i)
    requires PostedCount(rk) == PostedCount(s.ranks[r]) && AckedCount(rk) == AckedCount(s.ranks[r])
    requires BegunCount(rk) == BegunCount(s.ranks[r]) && ReadCount(rk) == ReadCount(s.ranks[r])
    ensures Shaped(c, s.(ranks := s.ranks[r := rk])) && Link(c, s.(ranks := s.ranks[r := rk]), i)
  {
    LinkUntouched(c, s, s.(ranks := s.ranks[r := rk]), i);
  }

  lemma MoveByteKeepsLink(c: Config, s: State, r: nat, i: nat)
    requires Shaped(c, s) && r <= c.receivers && Enabled(c, s, MoveByte(r)) && i < c.receivers && Link(c, s, i)
    ensures Shaped(c, Apply(c, s, MoveByte(r))) && Link(c, Apply(c, s, MoveByte(r)), i)
  {
    var rk' := CopyByte(c, s.ranks[r], s.ranks[r - 1]);
    CountersAfterTransferStep(s.ranks[r], rk');
    LinkWithRank(c, s, r, rk', i);
  }

  lemma CopyIsAllowed(c: Config, s: State, r: nat)
    requires AllFit(c.buckets) && Inv(c, s) && r <= c.receivers && Enabled(c, s, MoveByte(r))
    ensures RankOk(c, r, CopyByte(c, s.ranks[r], s.ranks[r - 1]))
  {
    SourceIsIntact(c, s, r);
    CopyKeepsRank(c, r, s.ranks[r], s.ranks[r - 1]);
  }

  lemma MoveByteKeepsRanks(c: Config, s: State, r: nat)
    requires AllFit(c.buckets) && Inv(c, s) && r <= c.receivers && Enabled(c, s, MoveByte(r))
    ensures Shaped(c, Apply(c, s, MoveByte(r))) && RanksOk(c, Apply(c, s, MoveByte(r)).ranks)
  {
    CopyIsAllowed(c, s, r);
    UpdateRank(c, s.ranks, r, CopyByte(c, s.ranks[r], s.ranks[r - 1]));
  }

  lemma MoveByteKeepsInv(c: Config, s: State, r: nat)
    requires AllFit(c.buckets) && Inv(c, s) && r <= c.receivers && Enabled(c, s, MoveByte(r))
    ensures Inv(c, Apply(c, s, MoveByte(r)))
  {
    MoveByteKeepsRanks(c, s, r);
    forall i | 0 <= i < c.receivers
      ensures Link(c, Apply(c, s, MoveByte(r)), i)
    {
      assert Link(c, s, i);
      MoveByteKeepsLink(c, s, r, i);
    }
  }

  lemma CountersAfterTransferStep(rk: Rank, rk': Rank)
    requires rk'.phase == rk.phase && rk'.k == rk.k && rk.transfer.Transfer? && rk'.transfer.Transfer?
    ensures PostedCount(rk') == PostedCount(rk) && AckedCount(rk') == AckedCount(rk)
    ensures BegunCount(rk') == BegunCount(rk)
    ensures rk'.transfer.done == rk.transfer.done ==> ReadCount(rk') == ReadCount(rk)
    ensures rk'.transfer.done && !rk.transfer.done ==> ReadCount(rk') == ReadCount(rk) + 1
  {
  }

  lemma CompleteKeepsLink(c: Config, s: State, r: nat, i: nat)
    requires AllFit(c.buckets) && Inv(c, s) && r <= c.receivers && Enabled(c, s, Complete(r)) && i < c.receivers
    requires Shaped(c, Apply(c, s, Complete(r)))
    ensures Link(c, Apply(c, s, Complete(r)), i)
  {
    var rk := s.ranks[r];
    assert Link(c, s, i);
    CountersAfterTransferStep(rk, rk.(transfer := rk.transfer.(done := true)));
    if i + 1 == r {
      TransferKey(c, r, rk);
    } else {
      LinkUntouched(c, s, Apply(c, s, Complete(r)), i);
    }
  }

  lemma CompleteKeepsInv(c: Config, s: State, r: nat)
    requires AllFit(c.buckets) && Inv(c, s) && r <= c.receivers && Enabled(c, s, Complete(r))
    ensures Inv(c, Apply(c, s, Complete(r)))
  {
    DoneKeepsRank(c, r, s.ranks[r]);
    UpdateRank(c, s.ranks, r, s.ranks[r].(transfer := s.ranks[r].transfer.(done := true)));
    forall i | 0 <= i < c.receivers
      ensures Link(c, Apply(c, s, Complete(r)), i)
    {
      CompleteKeepsLink(c, s, r, i);
    }
  }

  lemma DoneKeepsRank(c: Config, r: nat, rk: Rank)
    requires AllFit(c.buckets) && 0 < r && RankOk(c, r, rk) && rk.Reading() && rk.transfer.pos == c.bucketSize
    ensures RankOk(c, r, rk.(transfer := rk.transfer.(done := true)))
  {
  }

  lemma TransferKey(c: Config, r: nat, rk: Rank)
    requires AllFit(c.buckets) && 0 < r && RankOk(c, r, rk) && rk.Reading()
    ensures rk.transfer.key == ReadCount(rk)
  {
  }

  lemma StepKeepsInv(c: Config, s: State, a: Action)
    requires c.Valid() && AllFit(c.buckets) && Inv(c, s) && Enabled(c, s, a)
    ensures Inv(c, Apply(c, s, a))
  {
    match a
    case Local(r) => LocalKeepsInv(c, s, r);
    case MoveByte(r) => MoveByteKeepsInv(c, s, r);
    case Complete(r) => CompleteKeepsInv(c, s, r);
  }

  /** Every state of every interleaving satisfies the invariant. */
  lemma {:induction false} RunKeepsInv(c: Config, from: State, actions: seq<Action>, to: State)
    requires c.Valid() && AllFit(c.buckets) && Inv(c, from) && IsRun(c, from, actions, to)
    ensures Inv(c, to)
    decreases |actions|
  {
    if actions != [] {
      StepKeepsInv(c, from, actions[0]);
      RunKeepsInv(c, Apply(c, from, actions[0]), actions[1..], to);
    }
  }

  /** The states of runs from the start. */
  ghost predicate Reachable(c: Config, s: State) {
    exists actions :: IsRun(c, Initial(c), actions, s)
  }

  lemma ReachableOk(c: Config, s: State)
    requires c.Valid() && Reachable(c, s)
    ensures AllFit(c.buckets) && Inv(c, s)
  {
    ConfigFits(c);
    InitialOk(c);
    var actions :| IsRun(c, Initial(c), actions, s);
    RunKeepsInv(c, Initial(c), actions, s);
  }

  // ---------------------------------------------------------------- safety

  /** The action writes a byte of that buffer of rank r. */
  predicate Writes(c: Config, s: State, a: Action, r: nat, slot: bool)
    requires Shaped(c, s)
  {
    && a.r == r && r <= c.receivers
    && match a
       case Local(_) =>
         s.ranks[r].phase.Filling? && s.ranks[r].y < |c.buckets[s.ranks[r].k].metas| && slot == s.ranks[r].front
       case MoveByte(_) => slot != s.ranks[r].front
       case Complete(_) => false
  }

  /** The successor is reading, or has yet to read, that buffer: a post naming it is not done. */
  predicate OpenForSuccessor(c: Config, s: State, r: nat, slot: bool)
    requires Shaped(c, s) && r <= c.receivers
  {
    && r < c.receivers
    && (|| (exists m :: m in s.mail[r] && m.slot == slot)
        || (s.ranks[r + 1].Reading() && s.ranks[r + 1].transfer.src == slot))
  }

  /** Rank r has handed out, or is about to hand out, views of that buffer. */
  predicate YieldingFrom(rk: Rank, slot: bool) {
    (rk.phase.Yielding? || rk.phase.YieldLast?) && slot == rk.front
  }

  lemma QueuedPostSlot(c: Config, r: nat, posted: int, acked: int, begun: int, read: int,
                       mail: seq<Message>, notes: seq<nat>, m: Message)
    requires LinkOk(c, r, posted, acked, begun, read, mail, notes)
    requires read <= begun && posted <= acked + 1 && m in mail
    ensures posted > acked && m.slot == Slot(r, posted - 1)
  {
    var i :| 0 <= i < |mail| && mail[i] == m;
    assert Describes(c, r, m, begun + i);
  }

  lemma QueuedPostsShareSlot(c: Config, s: State, r: nat, m: Message)
    requires AllFit(c.buckets) && Inv(c, s) && r < c.receivers && m in s.mail[r]
    ensures var up := s.ranks[r]; PostedCount(up) > AckedCount(up) && m.slot == Slot(r, PostedCount(up) - 1)
  {
    var up, down := s.ranks[r], s.ranks[r + 1];
    assert RankOk(c, r, up);
    OpenPostIsHeld(c, r, up);
    assert LinkOk(c, r, PostedCount(up), AckedCount(up), BegunCount(down), ReadCount(down), s.mail[r], s.notes[r]) by {
      assert Link(c, s, r);
    }
    QueuedPostSlot(c, r, PostedCount(up), AckedCount(up), BegunCount(down), ReadCount(down), s.mail[r], s.notes[r], m);
  }

  /** The posts of rank r that are not read to the end all name one buffer. */
  lemma OpenPostsShareSlot(c: Config, s: State, r: nat, slot: bool)
    requires AllFit(c.buckets) && Inv(c, s) && r < c.receivers && OpenForSuccessor(c, s, r, slot)
    ensures var up := s.ranks[r]; PostedCount(up) > AckedCount(up) && slot == Slot(r, PostedCount(up) - 1)
  {
    var down := s.ranks[r + 1];
    if down.Reading() && down.transfer.src == slot {
      SourceIsIntact(c, s, r + 1);
    } else {
      var m :| m in s.mail[r] && m.slot == slot;
      QueuedPostsShareSlot(c, s, r, m);
    }
  }

  lemma WritesMissOpenPost(c: Config, r: nat, rk: Rank, slot: bool)
    requires AllFit(c.buckets) && r < c.receivers && RankOk(c, r, rk) && PostedCount(rk) > AckedCount(rk)
    requires if rk.phase.Filling? then slot == rk.front else r > 0 && slot != rk.front
    ensures slot != Slot(r, PostedCount(rk) - 1)
  {
  }

  lemma NoWriteWhileOpen(c: Config, s: State, a: Action, r: nat, slot: bool)
    requires AllFit(c.buckets) && Inv(c, s) && Enabled(c, s, a) && Writes(c, s, a, r, slot)
    ensures !OpenForSuccessor(c, s, r, slot)
  {
    if OpenForSuccessor(c, s, r, slot) {
      OpenPostsShareSlot(c, s, r, slot);
      WriterPhase(c, s, a, r, slot);
      WritesMissOpenPost(c, r, s.ranks[r], slot);
    }
  }

  lemma NoWriteWhileYielding(c: Config, s: State, a: Action, r: nat, slot: bool)
    requires AllFit(c.buckets) && Inv(c, s) && Enabled(c, s, a) && Writes(c, s, a, r, slot)
    ensures !YieldingFrom(s.ranks[r], slot)
  {
  }

  /** No step of any interleaving writes a buffer the successor still reads or the rank still yields from. */
  lemma NoWriteIntoBusyBuffer(c: Config, s: State, a: Action, r: nat, slot: bool)
    requires c.Valid() && Reachable(c, s) && Shaped(c, s) && Enabled(c, s, a) && Writes(c, s, a, r, slot)
    ensures !OpenForSuccessor(c, s, r, slot) && !YieldingFrom(s.ranks[r], slot)
  {
    ReachableOk(c, s);
    NoWriteWhileOpen(c, s, a, r, slot);
    NoWriteWhileYielding(c, s, a, r, slot);
  }

  lemma WriterPhase(c: Config, s: State, a: Action, r: nat, slot: bool)
    requires AllFit(c.buckets) && Inv(c, s) && Enabled(c, s, a) && Writes(c, s, a, r, slot)
    ensures RankOk(c, r, s.ranks[r])
    ensures if s.ranks[r].phase.Filling? then slot == s.ranks[r].front else r > 0 && slot != s.ranks[r].front
  {
  }

  /** Whenever a rank is about to take a notification, it is the one of its open post. */
  lemma NotificationsMatch(c: Config, s: State, r: nat)
    requires c.Valid() && Reachable(c, s) && Shaped(c, s) && r <= c.receivers && !s.ranks[r].phase.Done?
    requires Enabled(c, s, Local(r)) && s.ranks[r].NeedsNotification()
    ensures s.notes[r][0] == s.ranks[r].opKey
    ensures !Apply(c, s, Local(r)).ranks[r].crashed
  {
    ReachableOk(c, s);
    assert RankOk(c, r, s.ranks[r]);
    InputsAreExpected(c, s, r);
    NoteKeeps(c, r, s.ranks[r], NoteHead(s, r));
  }

  /** Nothing else fails at any rank, in any interleaving, whatever names and places the buckets hold. */
  lemma CrashReason(c: Config, s: State, r: nat)
    requires c.Valid() && Reachable(c, s) && r <= c.receivers && |s.ranks| == c.receivers + 1 && s.ranks[r].crashed
    ensures Ready(c, s.ranks[r]) && Failing(c, r, s.ranks[r])
  {
    ReachableOk(c, s);
    assert RankOk(c, r, s.ranks[r]);
  }

  /** Rank 0 cannot crash if no bucket holds a name twice, nor a receiver if all views are aligned. */
  lemma RankFails(c: Config, r: nat, rk: Rank)
    requires AllFit(c.buckets) && RankOk(c, r, rk) && rk.crashed
    ensures r == 0 ==> !AllDistinct(c.buckets)
    ensures r > 0 ==> !MetasAligned(c.buckets[rk.k].metas, c.bucketSize)
  {
  }

  lemma NoRankCrashes(c: Config, s: State, r: nat)
    requires c.Valid() && Reachable(c, s) && r <= c.receivers && |s.ranks| == c.receivers + 1
    requires if r == 0 then AllDistinct(c.buckets) else PlacesAligned(c.buckets, c.bucketSize)
    ensures !s.ranks[r].crashed
  {
    ReachableOk(c, s);
    assert RankOk(c, r, s.ranks[r]);
    if s.ranks[r].crashed { RankFails(c, r, s.ranks[r]); }
  }
}
