/** The relay of buckets along a chain of ranks.

    Rank 0 fills and posts buckets; rank r > 0 reads each bucket from rank r - 1, posts it to rank r + 1 and
    yields its chunks while the next bucket is being read.  A post is a metadata message that names the
    buffer; the successor reads that buffer byte by byte, at its own pace, and a notification comes back
    when it is done.  A rank's step depends on its own variables, the head of its mail and the head of its
    notifications; a run is any interleaving of such steps and of the progress of the transfers. */
module RelayChain {
  import opened Options
  import opened WeightChunks
  import opened Delivery

  /** The metadata message of a readable operation: its notify key, its buffer, the bucket's metadata. */
  datatype Message = Message(key: nat, slot: bool, metas: seq<TensorMeta>, isLast: bool)

  /** A read in progress: from the predecessor's buffer `src` into the own back buffer. */
  datatype Transfer = NoTransfer | Transfer(src: bool, key: nat, pos: nat, done: bool)

  /** Where a rank's coroutine stands. Filling, AwaitPrevious: rank 0 only. */
  datatype Phase =
    | Filling | AwaitPrevious
    | AwaitFirst | ReadFirst | AwaitNext | Yielding | AwaitRelayed | AwaitRead | YieldLast
    | Posting | AwaitLast | Done

  /** `k` counts the buckets before the current one and `y` the chunks of it that are filled or yielded;
      `front` is the buffer called send_buf, the other one is recv_buf.  A coroutine that has crashed stays
      where it is; a transfer it has begun goes on. */
  datatype Rank = Rank(phase: Phase, crashed: bool, k: nat, y: nat, even: seq<byte>, odd: seq<byte>, front: bool,
                       meta: Message, next: Message, transfer: Transfer, opKey: nat, out: seq<Chunk>)
  {
    function Buf(slot: bool): seq<byte> {
      if slot then odd else even
    }

    function WithBuf(slot: bool, bytes: seq<byte>): Rank {
      if slot then this.(odd := bytes) else this.(even := bytes)
    }

    predicate NeedsMail() {
      phase.AwaitFirst? || phase.AwaitNext?
    }

    predicate NeedsNotification() {
      phase.AwaitPrevious? || phase.AwaitRelayed? || phase.AwaitLast?
    }

    predicate NeedsTransfer() {
      phase.ReadFirst? || phase.AwaitRead?
    }

    predicate Reading() {
      transfer.Transfer? && !transfer.done
    }
  }

  /** mail[r] goes from rank r to rank r + 1, notes[r] from rank r + 1 to rank r. */
  datatype State = State(ranks: seq<Rank>, mail: seq<seq<Message>>, notes: seq<seq<nat>>)

  const NO_MESSAGE := Message(0, false, [], false)

  function InitialRank(c: Config, r: nat): Rank {
    Rank(if r == 0 then Filling else AwaitFirst, false, 0, 0, Zeros(c.bucketSize), Zeros(c.bucketSize), false,
         NO_MESSAGE, NO_MESSAGE, NoTransfer, 0, [])
  }

  function Initial(c: Config): State {
    State(seq(c.receivers + 1, r requires 0 <= r => InitialRank(c, r)),
          seq(c.receivers, _ => []), seq(c.receivers, _ => []))
  }

  // ---------------------------------------------------------------- one rank's step

  /** Copy chunk y of the bucket into the front buffer, which has to have room for it, and whose metadata must
      not name it already. */
  function FillChunk(c: Config, rk: Rank): Rank
    requires rk.k < |c.buckets| && rk.y < |c.buckets[rk.k].metas|
  {
    var meta := c.buckets[rk.k].metas[rk.y];
    var bytes := Slice(meta, c.buckets[rk.k].data).bytes;
    var buffer := rk.Buf(rk.front);
    if meta.offset + |bytes| > |buffer| || c.buckets[rk.k].Repeats(rk.y) then rk.(crashed := true)
    else rk.WithBuf(rk.front, Overwrite(buffer, meta.offset, bytes)).(y := rk.y + 1)
  }

  /** Hand out the view of chunk y, which the merge takes at once: a view that is not aligned ends it. */
  function YieldChunk(c: Config, rk: Rank): Rank
    requires rk.y < |rk.meta.metas|
  {
    if !Aligned(rk.meta.metas[rk.y], c.bucketSize) then rk.(crashed := true)
    else rk.(out := rk.out + [Slice(rk.meta.metas[rk.y], rk.Buf(rk.front))], y := rk.y + 1)
  }

  /** Pop the next metadata message and start reading into the back buffer. */
  function BeginRead(rk: Rank, m: Message, phase: Phase): Rank {
    rk.(phase := phase, next := m, transfer := Transfer(m.slot, m.key, 0, false))
  }

  function SwapIn(rk: Rank, k: nat): Rank {
    rk.(phase := Posting, k := k, y := 0, front := !rk.front, meta := rk.next, transfer := NoTransfer)
  }

  function Notified(rk: Rank, note: nat, phase: Phase): Rank {
    if note == rk.opKey then rk.(phase := phase) else rk.(crashed := true)
  }

  /** The message rank r posts, if it has a successor. */
  function Outgoing(c: Config, r: nat, rk: Rank): Option<Message>
    requires rk.k < |c.buckets|
  {
    if !rk.phase.Posting? || r >= c.receivers then None
    else if r == 0 then Some(Message(rk.k, rk.front, c.buckets[rk.k].metas, rk.k == c.Last()))
    else Some(Message(rk.k, rk.front, rk.meta.metas, rk.meta.isLast))
  }

  function Posted(c: Config, r: nat, rk: Rank): Rank {
    var p := if r < c.receivers then rk.(opKey := rk.k) else rk;
    if r == 0 then
      if rk.k == c.Last() then p.(phase := AwaitLast)
      else p.(phase := Filling, k := rk.k + 1, y := 0, front := !rk.front)
    else p.(phase := if rk.meta.isLast then YieldLast else AwaitNext, y := 0)
  }

  predicate Ready(c: Config, rk: Rank) {
    rk.k < |c.buckets| && |rk.even| == |rk.odd| == c.bucketSize
  }

  /** One step of rank r's coroutine; `m` and `note` are the heads of the queues it waits on. */
  function LocalStep(c: Config, r: nat, rk: Rank, m: Message, note: nat): Rank
    requires Ready(c, rk)
  {
    match rk.phase
    case Filling =>
      if rk.y < |c.buckets[rk.k].metas| then FillChunk(c, rk)
      else rk.(phase := if rk.k == 0 then Posting else AwaitPrevious)
    case AwaitPrevious => Notified(rk, note, Posting)
    case Posting => Posted(c, r, rk)
    case AwaitLast => Notified(rk, note, Done)
    case AwaitFirst => BeginRead(rk, m, ReadFirst)
    case ReadFirst => SwapIn(rk, 0)
    case AwaitNext => BeginRead(rk, m, Yielding)
    case Yielding =>
      if rk.y < |rk.meta.metas| then YieldChunk(c, rk)
      else rk.(phase := if r < c.receivers then AwaitRelayed else AwaitRead)
    case AwaitRelayed => Notified(rk, note, AwaitRead)
    case AwaitRead => SwapIn(rk, rk.k + 1)
    case YieldLast =>
      if rk.y < |rk.meta.metas| then YieldChunk(c, rk)
      else rk.(phase := if r < c.receivers then AwaitLast else Done)
    case Done => rk
  }

  // ---------------------------------------------------------------- the whole chain

  datatype Action =
    | Local(r: nat)          // rank r's coroutine runs to its next suspension point
    | MoveByte(r: nat)       // the transfer into rank r copies one more byte
    | Complete(r: nat)       // that transfer is done: rank r sees it, rank r - 1 is notified

  predicate Shaped(c: Config, s: State) {
    && |s.ranks| == c.receivers + 1 && |s.mail| == c.receivers && |s.notes| == c.receivers
    && forall r :: 0 <= r < |s.ranks| ==> Ready(c, s.ranks[r])
  }

  predicate Enabled(c: Config, s: State, a: Action)
    requires Shaped(c, s)
  {
    a.r <= c.receivers &&
    var rk := s.ranks[a.r];
    match a
    case Local(r) =>
      && !rk.phase.Done? && !rk.crashed
      && (rk.NeedsMail() ==> r > 0 && s.mail[r - 1] != [])
      && (rk.NeedsNotification() ==> r < c.receivers && s.notes[r] != [])
      && (rk.NeedsTransfer() ==> rk.transfer.Transfer? && rk.transfer.done)
    case MoveByte(r) => r > 0 && rk.Reading() && rk.transfer.pos < c.bucketSize
    case Complete(r) => r > 0 && rk.Reading() && rk.transfer.pos == c.bucketSize
  }

  function MailHead(s: State, r: nat): Message
    requires r < |s.ranks| && |s.ranks| == |s.mail| + 1
  {
    if s.ranks[r].NeedsMail() && r > 0 && s.mail[r - 1] != [] then s.mail[r - 1][0] else NO_MESSAGE
  }

  function NoteHead(s: State, r: nat): nat
    requires r < |s.ranks| && |s.ranks| == |s.notes| + 1
  {
    if s.ranks[r].NeedsNotification() && r < |s.notes| && s.notes[r] != [] then s.notes[r][0] else 0
  }

  function ApplyLocal(c: Config, s: State, r: nat): State
    requires Shaped(c, s) && Enabled(c, s, Local(r))
  {
    var rk := s.ranks[r];
    var sent := Outgoing(c, r, rk);
    var mail := if rk.NeedsMail() then s.mail[r - 1 := s.mail[r - 1][1..]] else s.mail;
    State(s.ranks[r := LocalStep(c, r, rk, MailHead(s, r), NoteHead(s, r))],
          if sent.Some? then mail[r := mail[r] + [sent.value]] else mail,
          if rk.NeedsNotification() then s.notes[r := s.notes[r][1..]] else s.notes)
  }

  /** The byte at the transfer's position, as the source buffer holds it now. */
  function CopyByte(c: Config, rk: Rank, up: Rank): Rank
    requires Ready(c, rk) && Ready(c, up) && rk.Reading() && rk.transfer.pos < c.bucketSize
  {
    var i := rk.transfer.pos;
    var back := !rk.front;
    rk.WithBuf(back, rk.Buf(back)[i := up.Buf(rk.transfer.src)[i]]).(transfer := rk.transfer.(pos := i + 1))
  }

  function Apply(c: Config, s: State, a: Action): State
    requires Shaped(c, s) && Enabled(c, s, a)
  {
    match a
    case Local(r) => ApplyLocal(c, s, r)
    case MoveByte(r) => s.(ranks := s.ranks[r := CopyByte(c, s.ranks[r], s.ranks[r - 1])])
    case Complete(r) =>
      s.(ranks := s.ranks[r := s.ranks[r].(transfer := s.ranks[r].transfer.(done := true))],
         notes := s.notes[r - 1 := s.notes[r - 1] + [s.ranks[r].transfer.key]])
  }

  /** A run: every action is enabled when it is taken. */
  ghost predicate IsRun(c: Config, from: State, actions: seq<Action>, to: State)
    decreases |actions|
  {
    if actions == [] then from == to
    else
      && Shaped(c, from) && Enabled(c, from, actions[0])
      && IsRun(c, Apply(c, from, actions[0]), actions[1..], to)
  }
}
