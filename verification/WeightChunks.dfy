/** Cutting named weights into chunks no larger than a bucket, and putting them together again.

    A weight is its name, shape, dtype and bytes.  `Split` and `MergeRun` say what the two generators
    yield; the methods below them run the generators' loops and are proved against them. */
module WeightChunks {
  import opened Options
  import opened Shapes
  import opened Division

  newtype byte = x: int | 0 <= x < 256

  type pos = n: nat | n > 0 witness 1

  datatype Dtype = Dtype(name: string, itemsize: pos)

  datatype Weight = Weight(name: string, shape: seq<nat>, dtype: Dtype, data: seq<byte>) {
    ghost predicate Valid() {
      |data| == ByteSize(shape, dtype)
    }
  }

  /** `offset` is the place in the bucket, and 0 until a bucket has been packed. */
  datatype TensorMeta = TensorMeta(name: string, shape: seq<nat>, dtype: Dtype,
                                   chunkOffset: nat, chunkSize: nat, offset: nat)

  datatype Chunk = Chunk(meta: TensorMeta, bytes: seq<byte>) {
    /** A chunk is a view of exactly chunkSize bytes. */
    predicate Sized() {
      |bytes| == meta.chunkSize
    }
  }

  function ByteSize(shape: seq<nat>, dtype: Dtype): nat {
    Numel(shape) * dtype.itemsize
  }

  // ---------------------------------------------------------------- splitting

  function Min(a: nat, b: nat): nat {
    if a <= b then a else b
  }

  function ChunkAt(w: Weight, from: nat, bucketSize: nat): Chunk
    requires from <= |w.data|
  {
    var size := Min(bucketSize, |w.data| - from);
    Chunk(TensorMeta(w.name, w.shape, w.dtype, from, size, 0), w.data[from..from + size])
  }

  /** The chunks of one weight, from byte `from` on. */
  function SplitWeight(w: Weight, from: nat, bucketSize: nat): seq<Chunk>
    requires bucketSize > 0
    decreases |w.data| - from
  {
    if from >= |w.data| then []
    else
      var c := ChunkAt(w, from, bucketSize);
      [c] + SplitWeight(w, from + c.meta.chunkSize, bucketSize)
  }

  function Split(ws: seq<Weight>, bucketSize: nat): seq<Chunk>
    requires bucketSize > 0
  {
    if ws == [] then [] else SplitWeight(ws[0], 0, bucketSize) + Split(ws[1..], bucketSize)
  }

  lemma SplitOneMore(ws: seq<Weight>, i: nat, bucketSize: nat, before: seq<Chunk>, chunks: seq<Chunk>)
    requires bucketSize > 0 && i < |ws| && chunks == before + SplitWeight(ws[i], 0, bucketSize)
    ensures before + Split(ws[i..], bucketSize) == chunks + Split(ws[i + 1..], bucketSize)
  {
    assert ws[i..][1..] == ws[i + 1..];
  }

  method SplitWeightChunks(weights: seq<Weight>, bucketSize: nat) returns (chunks: seq<Chunk>)
    requires bucketSize > 0
    ensures chunks == Split(weights, bucketSize)
  {
    chunks := [];
    var i := 0;
    while i < |weights|
      invariant i <= |weights|
      invariant Split(weights, bucketSize) == chunks + Split(weights[i..], bucketSize)
    {
      var w := weights[i];
      var chunkOffset := 0;
      ghost var before := chunks;
      while chunkOffset < |w.data|
        invariant chunkOffset <= |w.data|
        invariant before + SplitWeight(w, 0, bucketSize) == chunks + SplitWeight(w, chunkOffset, bucketSize)
      {
        var chunkSize := Min(bucketSize, |w.data| - chunkOffset);
        var meta := TensorMeta(w.name, w.shape, w.dtype, chunkOffset, chunkSize, 0);
        chunks := chunks + [Chunk(meta, w.data[chunkOffset..chunkOffset + chunkSize])];
        chunkOffset := chunkOffset + chunkSize;
      }
      SplitOneMore(weights, i, bucketSize, before, chunks);
      i := i + 1;
    }
    assert weights[i..] == [];
  }

  // ---------------------------------------------------------------- merging

  predicate Divides(d: pos, n: nat) {
    n % d == 0
  }

  lemma WholeItems(shape: seq<nat>, dtype: Dtype)
    ensures Divides(dtype.itemsize, ByteSize(shape, dtype)) && Divides(dtype.itemsize, 0)
  {
    QuotientIs(ByteSize(shape, dtype), dtype.itemsize, Numel(shape), 0);
  }

  /** The assertions of the merge loop, and what its tensor operations fail on: a view as the weight's dtype
      and shape on a size that does not match or on a place that is not a multiple of the item size, and a
      slice assignment on a size that does not match. */
  datatype MergeError =
    | WeightPending | FirstOffsetNonZero | NameMismatch | OffsetMismatch | CopyMismatch
    | ViewMismatch | Misaligned

  datatype MergeState =
    | Idle
    | Merging(name: string, shape: seq<nat>, dtype: Dtype, buffer: seq<byte>, offset: nat)

  /** What one chunk does: the next state, and the weight it completes. */
  datatype Merged = Failed(error: MergeError) | Stepped(state: MergeState, weight: Option<Weight>)

  /** What a run yields: the weights, and the error that stopped it. */
  datatype MergeOutcome = MergeOutcome(weights: seq<Weight>, error: Option<MergeError>)

  /** `junk` is what freshly allocated memory happens to hold. */
  function Uninitialised(n: nat, junk: nat -> byte): seq<byte> {
    seq(n, i requires 0 <= i => junk(i))
  }

  function Overwrite(buffer: seq<byte>, at: nat, bytes: seq<byte>): (r: seq<byte>)
    requires at + |bytes| <= |buffer|
    ensures |r| == |buffer|
  {
    buffer[..at] + bytes + buffer[at + |bytes|..]
  }

  lemma OverwriteExtends(buffer: seq<byte>, at: nat, bytes: seq<byte>, done: seq<byte>)
    requires at + |bytes| <= |buffer|
    requires buffer[..at] == done
    ensures Overwrite(buffer, at, bytes)[..at + |bytes|] == done + bytes
  {
  }

  function MergeStep(st: MergeState, c: Chunk, bucketSize: nat, junk: nat -> byte): Merged
    requires c.Sized()
  {
    var meta := c.meta;
    var nbytes := ByteSize(meta.shape, meta.dtype);
    if nbytes <= bucketSize then
      if st.Merging? then Failed(WeightPending)
      else if !Divides(meta.dtype.itemsize, |c.bytes|) then Failed(ViewMismatch)
      else if !Divides(meta.dtype.itemsize, meta.offset) then Failed(Misaligned)
      else if |c.bytes| != nbytes then Failed(ViewMismatch)
      else Stepped(Idle, Some(Weight(meta.name, meta.shape, meta.dtype, c.bytes)))
    else if st.Idle? && meta.chunkOffset != 0 then Failed(FirstOffsetNonZero)
    else
      var m := if st.Merging? then st
               else Merging(meta.name, meta.shape, meta.dtype, Uninitialised(nbytes, junk), 0);
      if meta.name != m.name then Failed(NameMismatch)
      else if m.offset != meta.chunkOffset then Failed(OffsetMismatch)
      else if meta.chunkOffset + meta.chunkSize > |m.buffer| && meta.chunkSize != 1 then Failed(CopyMismatch)
      else
        // One byte behind the end is broadcast to the empty slice there: nothing is written.
        var buffer := if meta.chunkOffset + meta.chunkSize > |m.buffer| then m.buffer
                      else Overwrite(m.buffer, meta.chunkOffset, c.bytes);
        if meta.chunkOffset + meta.chunkSize == nbytes
        then Stepped(Idle, Some(Weight(m.name, m.shape, m.dtype, buffer)))
        else Stepped(m.(buffer := buffer, offset := m.offset + meta.chunkSize), None)
  }

  /** A turn goes through exactly if: no weight is pending, the chunk has all bytes of its weight and its view
      is aligned, for a weight that fits one bucket; or else the chunk is the first one, or the next one of the
      pending weight, and there is room for it. */
  lemma TurnSucceedsExactly(st: MergeState, c: Chunk, bucketSize: nat, junk: nat -> byte)
    requires c.Sized()
    ensures var nbytes := Numel(c.meta.shape) * c.meta.dtype.itemsize;
      MergeStep(st, c, bucketSize, junk).Stepped? <==>
        if nbytes <= bucketSize then
          st == Idle && |c.bytes| == nbytes && c.meta.offset % c.meta.dtype.itemsize == 0
        else if st == Idle then c.meta.chunkOffset == 0 && c.meta.chunkSize <= nbytes
        else
          && c.meta.name == st.name && c.meta.chunkOffset == st.offset
          && (st.offset + c.meta.chunkSize <= |st.buffer| || c.meta.chunkSize == 1)
  {
    WholeItems(c.meta.shape, c.meta.dtype);
  }

  ghost predicate AllSized(chunks: seq<Chunk>) {
    forall c :: c in chunks ==> c.Sized()
  }

  function Prepend(w: Option<Weight>, r: MergeOutcome): MergeOutcome {
    if w.Some? then r.(weights := [w.value] + r.weights) else r
  }

  function MergeRun(st: MergeState, chunks: seq<Chunk>, bucketSize: nat, junk: nat -> byte): MergeOutcome
    requires AllSized(chunks)
    decreases |chunks|
  {
    if chunks == [] then MergeOutcome([], None)
    else
      match MergeStep(st, chunks[0], bucketSize, junk)
      case Failed(e) => MergeOutcome([], Some(e))
      case Stepped(next, w) => Prepend(w, MergeRun(next, chunks[1..], bucketSize, junk))
  }

  lemma MergeRunUnfolds(st: MergeState, chunks: seq<Chunk>, i: nat, bucketSize: nat, junk: nat -> byte)
    requires AllSized(chunks) && i < |chunks|
    ensures MergeRun(st, chunks[i..], bucketSize, junk)
         == match MergeStep(st, chunks[i], bucketSize, junk)
            case Failed(e) => MergeOutcome([], Some(e))
            case Stepped(next, w) => Prepend(w, MergeRun(next, chunks[i + 1..], bucketSize, junk))
  {
    assert chunks[i..][0] == chunks[i] && chunks[i..][1..] == chunks[i + 1..];
  }

  /** The generator's own loop: mergeBuffer is written in place. */
  method MergeWeightChunks(chunks: seq<Chunk>, bucketSize: nat, junk: nat -> byte)
    returns (weights: seq<Weight>, error: Option<MergeError>)
    requires AllSized(chunks)
    ensures MergeOutcome(weights, error) == MergeRun(Idle, chunks, bucketSize, junk)
  {
    weights, error := [], None;
    var m := new Merger();
    var i := 0;
    ghost var st := Idle;
    ghost var rest := MergeRun(Idle, chunks, bucketSize, junk);
    assert chunks[0..] == chunks;
    while i < |chunks|
      invariant i <= |chunks| && error == None
      invariant fresh(m) && (m.buffer != null ==> fresh(m.buffer))
      invariant st == m.State() && rest == MergeRun(st, chunks[i..], bucketSize, junk)
      invariant MergeRun(Idle, chunks, bucketSize, junk) == MergeOutcome(weights + rest.weights, rest.error)
    {
      MergeRunUnfolds(st, chunks, i, bucketSize, junk);
      var weight;
      error, weight := m.Feed(chunks[i], bucketSize, junk);
      if error.Some? {
        assert weights + [] == weights;
        return;
      }
      st := m.State();
      rest := MergeRun(st, chunks[i + 1..], bucketSize, junk);
      if weight.Some? {
        weights := weights + [weight.value];
      }
      i := i + 1;
    }
    assert weights + [] == weights;
  }

  /** The variables merge_name, merge_weight, merge_buffer and merge_offset of the merge loop. */
  class Merger {
    var name: string
    var shape: seq<nat>
    var dtype: Dtype
    var buffer: array?<byte>
    var offset: nat

    ghost function State(): MergeState
      reads this, buffer
    {
      if buffer == null then Idle else Merging(name, shape, dtype, buffer[..], offset)
    }

    constructor ()
      ensures State() == Idle && buffer == null
    {
      buffer := null;
      name, shape, dtype, offset := "", [], Dtype("", 1), 0;
    }

    /** One turn of the loop. */
    method Feed(c: Chunk, bucketSize: nat, junk: nat -> byte)
      returns (error: Option<MergeError>, weight: Option<Weight>)
      requires c.Sized()
      modifies this, buffer
      ensures buffer == null || buffer == old(buffer) || fresh(buffer)
      ensures match MergeStep(old(State()), c, bucketSize, junk)
              case Failed(e) => error == Some(e)
              case Stepped(next, w) => error == None && State() == next && weight == w
    {
      error, weight := None, None;
      var meta := c.meta;
      var nbytes := ByteSize(meta.shape, meta.dtype);
      if nbytes <= bucketSize {
        if buffer != null { return Some(WeightPending), None; }
        if |c.bytes| % meta.dtype.itemsize != 0 { return Some(ViewMismatch), None; }
        if meta.offset % meta.dtype.itemsize != 0 { return Some(Misaligned), None; }
        if |c.bytes| != nbytes { return Some(ViewMismatch), None; }
        return None, Some(Weight(meta.name, meta.shape, meta.dtype, c.bytes));
      }
      if buffer == null {
        if meta.chunkOffset != 0 { return Some(FirstOffsetNonZero), None; }
        Begin(meta, nbytes, junk);
      }
      if meta.name != name { return Some(NameMismatch), None; }
      if offset != meta.chunkOffset { return Some(OffsetMismatch), None; }
      if meta.chunkOffset + meta.chunkSize <= buffer.Length {
        CopyInto(buffer, meta.chunkOffset, c.bytes);
      } else if meta.chunkSize != 1 {
        return Some(CopyMismatch), None;
      }
      offset := offset + meta.chunkSize;
      if meta.chunkOffset + meta.chunkSize == nbytes {
        weight := Some(Weight(name, shape, dtype, buffer[..]));
        buffer, offset := null, 0;
      }
    }

    method Begin(meta: TensorMeta, nbytes: nat, junk: nat -> byte)
      requires buffer == null
      modifies this
      ensures fresh(buffer)
      ensures State() == Merging(meta.name, meta.shape, meta.dtype, Uninitialised(nbytes, junk), 0)
    {
      name, shape, dtype, offset := meta.name, meta.shape, meta.dtype, 0;
      buffer := new byte[nbytes](k requires 0 <= k => junk(k));
      assert buffer[..] == Uninitialised(nbytes, junk);
    }
  }

  /** Slice assignment `buffer[at : at + len] = bytes`. */
  method CopyInto(buffer: array<byte>, at: nat, bytes: seq<byte>)
    requires at + |bytes| <= buffer.Length
    modifies buffer
    ensures buffer[..] == Overwrite(old(buffer[..]), at, bytes)
  {
    ghost var was := buffer[..];
    var i := 0;
    while i < |bytes|
      invariant i <= |bytes|
      invariant forall k :: at <= k < at + i ==> buffer[k] == bytes[k - at]
      invariant forall k :: 0 <= k < buffer.Length && !(at <= k < at + i) ==> buffer[k] == was[k]
    {
      buffer[at + i] := bytes[i];
      i := i + 1;
    }
  }

  // ---------------------------------------------------------------- round trip

  function NonEmpty(ws: seq<Weight>): seq<Weight> {
    if ws == [] then [] else (if ws[0].data != [] then [ws[0]] else []) + NonEmpty(ws[1..])
  }

  lemma {:induction false} SplitWeightSized(w: Weight, from: nat, bucketSize: nat)
    requires bucketSize > 0
    ensures AllSized(SplitWeight(w, from, bucketSize))
    ensures forall c :: c in SplitWeight(w, from, bucketSize) ==>
        0 < c.meta.chunkSize <= bucketSize && c.meta.name == w.name
    decreases |w.data| - from
  {
    if from < |w.data| {
      SplitWeightSized(w, from + ChunkAt(w, from, bucketSize).meta.chunkSize, bucketSize);
    }
  }

  lemma {:induction false} SplitSized(ws: seq<Weight>, bucketSize: nat)
    requires bucketSize > 0
    ensures AllSized(Split(ws, bucketSize))
    ensures forall c :: c in Split(ws, bucketSize) ==> 0 < c.meta.chunkSize <= bucketSize
    ensures forall c :: c in Split(ws, bucketSize) ==> exists w :: w in ws && w.name == c.meta.name
  {
    if ws != [] {
      SplitWeightSized(ws[0], 0, bucketSize);
      SplitSized(ws[1..], bucketSize);
    }
  }

  lemma MergeBigChunk(w: Weight, c: Chunk, buffer: seq<byte>, bucketSize: nat, junk: nat -> byte)
    requires w.Valid() && 0 < bucketSize < |w.data| == |buffer|
    requires c.meta.chunkOffset < |w.data| && c == ChunkAt(w, c.meta.chunkOffset, bucketSize)
    ensures MergeStep(Merging(w.name, w.shape, w.dtype, buffer, c.meta.chunkOffset), c, bucketSize, junk)
         == (var to := c.meta.chunkOffset + c.meta.chunkSize;
             var next := Overwrite(buffer, c.meta.chunkOffset, c.bytes);
             if to == |w.data| then Stepped(Idle, Some(Weight(w.name, w.shape, w.dtype, next)))
             else Stepped(Merging(w.name, w.shape, w.dtype, next, to), None))
  {
  }

  /** Merging the remaining chunks of a weight too big for one bucket, from any state that already
      holds its first `from` bytes, yields the weight and goes on with an empty state. */
  lemma {:induction false} MergeBigWeight(w: Weight, from: nat, buffer: seq<byte>, rest: seq<Chunk>,
                                          bucketSize: nat, junk: nat -> byte)
    requires w.Valid() && 0 < bucketSize < |w.data| && from < |w.data| == |buffer|
    requires buffer[..from] == w.data[..from]
    requires AllSized(SplitWeight(w, from, bucketSize) + rest) && AllSized(rest)
    ensures MergeRun(Merging(w.name, w.shape, w.dtype, buffer, from),
                     SplitWeight(w, from, bucketSize) + rest, bucketSize, junk)
         == Prepend(Some(w), MergeRun(Idle, rest, bucketSize, junk))
    decreases |w.data| - from
  {
    var c := ChunkAt(w, from, bucketSize);
    var to := from + c.meta.chunkSize;
    var tail := SplitWeight(w, to, bucketSize) + rest;
    assert SplitWeight(w, from, bucketSize) + rest == [c] + tail;
    assert c.Sized();
    var next := Overwrite(buffer, from, c.bytes);
    assert next[..to] == w.data[..to] by {
      OverwriteExtends(buffer, from, c.bytes, w.data[..from]);
      assert w.data[..to] == w.data[..from] + w.data[from..to];
    }
    SplitWeightSized(w, to, bucketSize);
    MergeBigChunk(w, c, buffer, bucketSize, junk);
    if to == |w.data| {
      assert next == next[..to] && w.data == w.data[..to];
      assert tail == rest;
    } else {
      MergeBigWeight(w, to, next, rest, bucketSize, junk);
    }
  }

  lemma {:induction false} MergeOneWeight(w: Weight, rest: seq<Chunk>, bucketSize: nat, junk: nat -> byte)
    requires bucketSize > 0 && w.Valid() && AllSized(rest)
    requires AllSized(SplitWeight(w, 0, bucketSize) + rest)
    ensures MergeRun(Idle, SplitWeight(w, 0, bucketSize) + rest, bucketSize, junk)
         == Prepend(if w.data != [] then Some(w) else None, MergeRun(Idle, rest, bucketSize, junk))
  {
    if w.data == [] {
      assert SplitWeight(w, 0, bucketSize) + rest == rest;
    } else if |w.data| <= bucketSize {
      var c := ChunkAt(w, 0, bucketSize);
      assert SplitWeight(w, 0, bucketSize) == [c];
      assert c.bytes == w.data;
      WholeItems(w.shape, w.dtype);
      assert ([c] + rest)[0] == c && ([c] + rest)[1..] == rest;
    } else {
      var chunks := SplitWeight(w, 0, bucketSize) + rest;
      var empty := Uninitialised(|w.data|, junk);
      var c := ChunkAt(w, 0, bucketSize);
      assert chunks == [c] + (SplitWeight(w, c.meta.chunkSize, bucketSize) + rest);
      assert chunks[0] == c;
      MergeBigWeight(w, 0, empty, rest, bucketSize, junk);
      assert MergeStep(Idle, c, bucketSize, junk)
          == MergeStep(Merging(w.name, w.shape, w.dtype, empty, 0), c, bucketSize, junk);
    }
  }

  /** Splitting and merging gives back the non-empty weights, byte for byte and in order, and no
      assertion of the merge loop fires, whatever uninitialised memory held. */
  lemma {:induction false} MergeUndoesSplit(ws: seq<Weight>, bucketSize: nat, junk: nat -> byte)
    requires bucketSize > 0
    requires forall w :: w in ws ==> w.Valid()
    ensures AllSized(Split(ws, bucketSize))
    ensures MergeRun(Idle, Split(ws, bucketSize), bucketSize, junk) == MergeOutcome(NonEmpty(ws), None)
  {
    SplitSized(ws, bucketSize);
    if ws != [] {
      SplitSized(ws[1..], bucketSize);
      MergeUndoesSplit(ws[1..], bucketSize, junk);
      MergeOneWeight(ws[0], Split(ws[1..], bucketSize), bucketSize, junk);
    }
  }

  lemma {:induction false} NonEmptyLength(ws: seq<Weight>)
    ensures |NonEmpty(ws)| <= |ws|
    ensures NonEmpty(ws) == ws <==> forall w :: w in ws ==> w.data != []
  {
    if ws != [] {
      NonEmptyLength(ws[1..]);
      assert forall w :: w in ws <==> w == ws[0] || w in ws[1..];
      if ws[0].data == [] {
        assert |NonEmpty(ws)| < |ws|;
      } else {
        assert NonEmpty(ws) == ws ==> NonEmpty(ws[1..]) == ws[1..] by {
          assert NonEmpty(ws)[1..] == NonEmpty(ws[1..]);
        }
      }
    }
  }

  /** The weights come back exactly when none of them is empty: an empty weight has no chunk. */
  lemma RoundTripExactlyWithoutEmptyWeights(ws: seq<Weight>, bucketSize: nat, junk: nat -> byte)
    requires bucketSize > 0
    requires forall w :: w in ws ==> w.Valid()
    requires AllSized(Split(ws, bucketSize))
    ensures MergeRun(Idle, Split(ws, bucketSize), bucketSize, junk) == MergeOutcome(ws, None)
       <==> forall w :: w in ws ==> w.data != []
  {
    MergeUndoesSplit(ws, bucketSize, junk);
    NonEmptyLength(ws);
  }

  // ---------------------------------------------------------------- what the place in a bucket does to merging

  function Unplaced(c: Chunk): Chunk {
    c.(meta := c.meta.(offset := 0))
  }

  function AllUnplaced(chunks: seq<Chunk>): (r: seq<Chunk>)
    ensures |r| == |chunks|
    ensures forall i :: 0 <= i < |chunks| ==> r[i] == Unplaced(chunks[i])
  {
    seq(|chunks|, i requires 0 <= i < |chunks| => Unplaced(chunks[i]))
  }

  /** A chunk of a weight that fits one bucket is viewed in place, so it has to start on a whole item. */
  predicate Aligned(meta: TensorMeta, bucketSize: nat) {
    ByteSize(meta.shape, meta.dtype) <= bucketSize ==> Divides(meta.dtype.itemsize, meta.offset)
  }

  ghost predicate AllAligned(chunks: seq<Chunk>, bucketSize: nat) {
    forall c :: c in chunks ==> Aligned(c.meta, bucketSize)
  }

  /** A chunk straight from the splitter has its place still to come. */
  lemma {:induction false} SplitAligned(ws: seq<Weight>, bucketSize: nat)
    requires bucketSize > 0
    ensures AllAligned(Split(ws, bucketSize), bucketSize)
  {
    if ws != [] {
      SplitWeightAligned(ws[0], 0, bucketSize);
      SplitAligned(ws[1..], bucketSize);
    }
  }

  lemma {:induction false} SplitWeightAligned(w: Weight, from: nat, bucketSize: nat)
    requires bucketSize > 0
    ensures AllAligned(SplitWeight(w, from, bucketSize), bucketSize)
    decreases |w.data| - from
  {
    if from < |w.data| {
      WholeItems(w.shape, w.dtype);
      SplitWeightAligned(w, from + ChunkAt(w, from, bucketSize).meta.chunkSize, bucketSize);
    }
  }

  lemma StepIgnoresAlignedPlace(st: MergeState, c: Chunk, bucketSize: nat, junk: nat -> byte)
    requires c.Sized()
    ensures var free := MergeStep(st, Unplaced(c), bucketSize, junk);
            var step := MergeStep(st, c, bucketSize, junk);
            && (Aligned(c.meta, bucketSize) ==> step == free)
            && (!Aligned(c.meta, bucketSize) && free.Stepped? ==> step == Failed(Misaligned))
  {
    WholeItems(c.meta.shape, c.meta.dtype);
  }

  /** The offsets a bucket gave to its chunks do not influence merging, as long as every view is aligned. */
  lemma {:induction false} MergeIgnoresAlignedPlaces(st: MergeState, chunks: seq<Chunk>, bucketSize: nat,
                                                     junk: nat -> byte)
    requires AllSized(chunks) && AllAligned(chunks, bucketSize)
    ensures AllSized(AllUnplaced(chunks))
    ensures MergeRun(st, chunks, bucketSize, junk) == MergeRun(st, AllUnplaced(chunks), bucketSize, junk)
    decreases |chunks|
  {
    if chunks != [] {
      assert AllUnplaced(chunks)[1..] == AllUnplaced(chunks[1..]);
      StepIgnoresAlignedPlace(st, chunks[0], bucketSize, junk);
      var next := MergeStep(st, chunks[0], bucketSize, junk);
      MergeIgnoresAlignedPlaces(if next.Stepped? then next.state else st, chunks[1..], bucketSize, junk);
    }
  }

  /** What has been merged after a part of the chunks is a part of what the merge yields in the end. */
  lemma {:induction false} MergePart(st: MergeState, part: seq<Chunk>, rest: seq<Chunk>, bucketSize: nat,
                                     junk: nat -> byte)
    requires AllSized(part + rest) && AllSized(part) && MergeRun(st, part + rest, bucketSize, junk).error == None
    ensures MergeRun(st, part, bucketSize, junk).error == None
    ensures MergeRun(st, part, bucketSize, junk).weights <= MergeRun(st, part + rest, bucketSize, junk).weights
    decreases |part|
  {
    if part != [] {
      assert (part + rest)[0] == part[0] && (part + rest)[1..] == part[1..] + rest;
      var step := MergeStep(st, part[0], bucketSize, junk);
      MergePart(step.state, part[1..], rest, bucketSize, junk);
      PrependKeepsPart(step.weight, MergeRun(step.state, part[1..], bucketSize, junk),
                       MergeRun(step.state, part[1..] + rest, bucketSize, junk));
    }
  }

  /** The first view that is not aligned ends a merge that would have succeeded without it: only a part of
      the weights is yielded. */
  lemma {:induction false} MisalignedViewEndsMerge(st: MergeState, chunks: seq<Chunk>, bucketSize: nat,
                                                   junk: nat -> byte)
    requires AllSized(chunks) && AllSized(AllUnplaced(chunks)) && !AllAligned(chunks, bucketSize)
    requires MergeRun(st, AllUnplaced(chunks), bucketSize, junk).error == None
    ensures MergeRun(st, chunks, bucketSize, junk).error == Some(Misaligned)
    ensures MergeRun(st, chunks, bucketSize, junk).weights
         <= MergeRun(st, AllUnplaced(chunks), bucketSize, junk).weights
    decreases |chunks|
  {
    assert AllUnplaced(chunks)[1..] == AllUnplaced(chunks[1..]);
    StepIgnoresAlignedPlace(st, chunks[0], bucketSize, junk);
    if Aligned(chunks[0].meta, bucketSize) {
      assert chunks == [chunks[0]] + chunks[1..];
      var step := MergeStep(st, chunks[0], bucketSize, junk);
      MisalignedViewEndsMerge(step.state, chunks[1..], bucketSize, junk);
      PrependKeepsPart(step.weight, MergeRun(step.state, chunks[1..], bucketSize, junk),
                       MergeRun(step.state, AllUnplaced(chunks[1..]), bucketSize, junk));
    }
  }

  lemma PrependKeepsPart(w: Option<Weight>, part: MergeOutcome, all: MergeOutcome)
    requires part.weights <= all.weights
    ensures Prepend(w, part).weights <= Prepend(w, all).weights
  {
  }

  // ---------------------------------------------------------------- small examples

  function Filled(n: nat): seq<byte> {
    seq(n, _ => 0)
  }

  /** A vector of zeros. */
  function Blank(name: string, length: nat, dtype: Dtype): (w: Weight)
    ensures w.Valid() && |w.data| == length * dtype.itemsize
  {
    assert Numel([length]) == length * Numel([]);
    Weight(name, [length], dtype, Filled(length * dtype.itemsize))
  }

  /** Two weights, the second one in a single piece. */
  lemma TwoWeights(w: Weight, last: Weight, bucketSize: nat)
    requires 0 < |last.data| <= bucketSize
    ensures Split([w, last], bucketSize) == SplitWeight(w, 0, bucketSize) + [ChunkAt(last, 0, bucketSize)]
  {
    var one := ChunkAt(last, 0, bucketSize);
    assert SplitWeight(last, |last.data|, bucketSize) == [];
    assert SplitWeight(last, 0, bucketSize) == [one];
    assert [w, last][1..] == [last] && [last][1..] == [];
    assert Split([], bucketSize) == [];
    assert Split([last], bucketSize) == [one];
  }

  /** A weight without elements does not come back. */
  lemma EmptyWeightIsLost(junk: nat -> byte)
    ensures var ws := [Blank("empty", 0, Dtype("bfloat16", 2))];
            && AllSized(Split(ws, 8)) && MergeRun(Idle, Split(ws, 8), 8, junk) == MergeOutcome([], None)
  {
    var w := Blank("empty", 0, Dtype("bfloat16", 2));
    MergeUndoesSplit([w], 8, junk);
    assert [w][1..] == [] && NonEmpty([w]) == NonEmpty([]);
  }
}
