/** The broadcast of buckets from rank 0 to every other rank.

    An operation runs beside the coroutine that launched it.  At rank 0 it publishes the bucket's metadata and
    then pushes the buffer, byte by byte, towards every receiver; at a receiver it takes the next metadata
    message and pulls exactly one buffer of bytes.  Between them lies a FIFO of metadata and a FIFO of at most
    `capacity` bytes per receiver, so rank 0's operation may be over while the bytes are still under way, and
    receivers may be at different buckets.  A run is any interleaving of the coroutines and the operations. */
module BroadcastChannel {
  import opened WeightChunks
  import opened Buckets
  import opened Delivery

  datatype Message = Message(metas: seq<TensorMeta>, isLast: bool)

  const NO_MESSAGE := Message([], false)

  datatype SendPhase = Filling | AwaitPrevious | Posting | AwaitLast | Sent

  datatype SendStage = NoSend | Publishing | Pushing | Pushed

  /** Rank 0: bucket k, of which y chunks are filled; send_buf is `front`.  The operation reads the buffer
      `slot` and has pushed so many bytes towards each receiver.  A coroutine that has crashed stays where it
      is; its operation goes on. */
  datatype Sender = Sender(phase: SendPhase, crashed: bool, k: nat, y: nat, even: seq<byte>, odd: seq<byte>,
                           front: bool, stage: SendStage, slot: bool, outgoing: Message, pushed: seq<nat>)
  {
    function Buf(b: bool): seq<byte> {
      if b then odd else even
    }
  }

  datatype RecvPhase = Start | AwaitFirst | Launching | Yielding | AwaitNext | YieldLast | Received

  datatype RecvStage = NoReceive | AwaitMeta | Pulling | Pulled

  /** A receiver: bucket k, of which y chunks are yielded; its send_buf, from which it yields, is `front`.
      The operation writes the buffer `slot` and has pulled `pos` bytes. */
  datatype Receiver = Receiver(phase: RecvPhase, crashed: bool, k: nat, y: nat, even: seq<byte>, odd: seq<byte>,
                               front: bool, meta: Message, stage: RecvStage, slot: bool, incoming: Message, pos: nat,
                               out: seq<Chunk>)
  {
    function Buf(b: bool): seq<byte> {
      if b then odd else even
    }
  }

  datatype State = State(sender: Sender, receivers: seq<Receiver>, mail: seq<seq<Message>>, wires: seq<seq<byte>>)

  function Initial(c: Config): State {
    State(Sender(Filling, false, 0, 0, Zeros(c.bucketSize), Zeros(c.bucketSize), false,
                 NoSend, false, NO_MESSAGE, seq(c.receivers, _ => 0)),
          seq(c.receivers, _ => Receiver(Start, false, 0, 0, Zeros(c.bucketSize), Zeros(c.bucketSize), false,
                                         NO_MESSAGE, NoReceive, false, NO_MESSAGE, 0, [])),
          seq(c.receivers, _ => []), seq(c.receivers, _ => []))
  }

  function MessageFor(c: Config, j: nat): Message
    requires j < |c.buckets|
  {
    Message(c.buckets[j].metas, j == c.Last())
  }

  // ---------------------------------------------------------------- the coroutines

  /** Copy chunk y into the front buffer, which has to have room for it, and whose metadata must not name it
      already. */
  function FillChunk(c: Config, s: Sender): Sender
    requires s.k < |c.buckets| && s.y < |c.buckets[s.k].metas|
  {
    var meta := c.buckets[s.k].metas[s.y];
    var bytes := Slice(meta, c.buckets[s.k].data).bytes;
    var buffer := s.Buf(s.front);
    if meta.offset + |bytes| > |buffer| || c.buckets[s.k].Repeats(s.y) then s.(crashed := true)
    else if s.front then s.(odd := Overwrite(buffer, meta.offset, bytes), y := s.y + 1)
    else s.(even := Overwrite(buffer, meta.offset, bytes), y := s.y + 1)
  }

  /** Start an operation on the front buffer and go on with the other one. */
  function Launch(c: Config, s: Sender): Sender
    requires s.k < |c.buckets|
  {
    var op := s.(stage := Publishing, slot := s.front, outgoing := MessageFor(c, s.k),
                 pushed := seq(c.receivers, _ => 0));
    if s.k == c.Last() then op.(phase := AwaitLast)
    else op.(phase := Filling, k := s.k + 1, y := 0, front := !s.front)
  }

  function SenderStep(c: Config, s: Sender): Sender
    requires s.k < |c.buckets|
  {
    match s.phase
    case Filling =>
      if s.y < |c.buckets[s.k].metas| then FillChunk(c, s)
      else s.(phase := if s.stage.NoSend? then Posting else AwaitPrevious)
    case AwaitPrevious => s.(phase := Posting)
    case Posting => Launch(c, s)
    case AwaitLast => s.(phase := Sent)
    case Sent => s
  }

  /** Start an operation on the back buffer. */
  function BeginReceive(r: Receiver, phase: RecvPhase): Receiver {
    r.(phase := phase, stage := AwaitMeta, slot := !r.front, pos := 0)
  }

  /** The awaited operation is over: its bucket becomes the current one, and the buffers are swapped. */
  function TakeBucket(r: Receiver, k: nat): Receiver {
    r.(phase := if r.incoming.isLast then YieldLast else Launching,
       k := k, y := 0, meta := r.incoming, front := !r.front)
  }

  /** Hand out the view of chunk y, which the merge takes at once: a view that is not aligned ends it. */
  function YieldChunk(c: Config, r: Receiver): Receiver
    requires r.y < |r.meta.metas|
  {
    if !Aligned(r.meta.metas[r.y], c.bucketSize) then r.(crashed := true)
    else r.(out := r.out + [Slice(r.meta.metas[r.y], r.Buf(r.front))], y := r.y + 1)
  }

  function ReceiverStep(c: Config, r: Receiver): Receiver {
    match r.phase
    case Start => BeginReceive(r, AwaitFirst)
    case AwaitFirst => TakeBucket(r, 0)
    case Launching => BeginReceive(r, Yielding)
    case Yielding => if r.y < |r.meta.metas| then YieldChunk(c, r) else r.(phase := AwaitNext)
    case AwaitNext => TakeBucket(r, r.k + 1)
    case YieldLast => if r.y < |r.meta.metas| then YieldChunk(c, r) else r.(phase := Received)
    case Received => r
  }

  // ---------------------------------------------------------------- the whole system

  datatype Action =
    | StepSender             // rank 0's coroutine runs to its next suspension point
    | Publish                // rank 0's operation sends the metadata to every subscriber
    | Push(i: nat)           // it pushes one byte towards receiver i
    | FinishSend             // it is over: every byte is pushed
    | StepReceiver(i: nat)   // receiver i's coroutine runs to its next suspension point
    | TakeMeta(i: nat)       // receiver i's operation takes the metadata
    | Pull(i: nat)           // it pulls one byte
    | FinishReceive(i: nat)  // it is over: the buffer is full

  ghost predicate Shaped(c: Config, s: State) {
    && |s.receivers| == |s.mail| == |s.wires| == |s.sender.pushed| == c.receivers
    && s.sender.k < |c.buckets| && |s.sender.even| == |s.sender.odd| == c.bucketSize
    && forall i :: 0 <= i < c.receivers ==> |s.receivers[i].even| == |s.receivers[i].odd| == c.bucketSize
  }

  ghost predicate Enabled(c: Config, capacity: nat, s: State, a: Action)
    requires Shaped(c, s)
  {
    var o := s.sender;
    match a
    case StepSender =>
      && !o.crashed
      && (o.phase.Filling? || o.phase.Posting? || ((o.phase.AwaitPrevious? || o.phase.AwaitLast?) && o.stage.Pushed?))
    case Publish => o.stage.Publishing?
    case Push(i) => i < c.receivers && o.stage.Pushing? && o.pushed[i] < c.bucketSize && |s.wires[i]| < capacity
    case FinishSend => o.stage.Pushing? && forall i :: 0 <= i < c.receivers ==> o.pushed[i] == c.bucketSize
    case StepReceiver(i) =>
      i < c.receivers && var r := s.receivers[i];
      !r.phase.Received? && !r.crashed && (r.phase.AwaitFirst? || r.phase.AwaitNext? ==> r.stage.Pulled?)
    case TakeMeta(i) => i < c.receivers && s.receivers[i].stage.AwaitMeta? && s.mail[i] != []
    case Pull(i) =>
      i < c.receivers && s.receivers[i].stage.Pulling? && s.receivers[i].pos < c.bucketSize && s.wires[i] != []
    case FinishReceive(i) => i < c.receivers && s.receivers[i].stage.Pulling? && s.receivers[i].pos == c.bucketSize
  }

  function PullByte(r: Receiver, b: byte): Receiver
    requires r.pos < |r.even| == |r.odd|
  {
    if r.slot then r.(odd := r.odd[r.pos := b], pos := r.pos + 1) else r.(even := r.even[r.pos := b], pos := r.pos + 1)
  }

  ghost function Apply(c: Config, capacity: nat, s: State, a: Action): State
    requires Shaped(c, s) && Enabled(c, capacity, s, a)
  {
    match a
    case StepSender => s.(sender := SenderStep(c, s.sender))
    case Publish =>
      s.(sender := s.sender.(stage := Pushing),
         mail := seq(c.receivers, i requires 0 <= i < c.receivers && Shaped(c, s) => s.mail[i] + [s.sender.outgoing]))
    case Push(i) =>
      var n := s.sender.pushed[i];
      s.(sender := s.sender.(pushed := s.sender.pushed[i := n + 1]),
         wires := s.wires[i := s.wires[i] + [s.sender.Buf(s.sender.slot)[n]]])
    case FinishSend => s.(sender := s.sender.(stage := Pushed))
    case StepReceiver(i) => s.(receivers := s.receivers[i := ReceiverStep(c, s.receivers[i])])
    case TakeMeta(i) =>
      s.(receivers := s.receivers[i := s.receivers[i].(stage := Pulling, incoming := s.mail[i][0])],
         mail := s.mail[i := s.mail[i][1..]])
    case Pull(i) =>
      s.(receivers := s.receivers[i := PullByte(s.receivers[i], s.wires[i][0])], wires := s.wires[i := s.wires[i][1..]])
    case FinishReceive(i) => s.(receivers := s.receivers[i := s.receivers[i].(stage := Pulled)])
  }

  ghost predicate IsRun(c: Config, capacity: nat, from: State, actions: seq<Action>, to: State)
    decreases |actions|
  {
    if actions == [] then from == to
    else
      && Shaped(c, from) && Enabled(c, capacity, from, actions[0])
      && IsRun(c, capacity, Apply(c, capacity, from, actions[0]), actions[1..], to)
  }
}
