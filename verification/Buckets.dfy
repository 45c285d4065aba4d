/** Packing chunks into fixed-size buckets, and reading them back by offset.

    `Pack` is the next-fit packing both senders perform; `BucketSender` is their loop, which fills one
    of two buffers while the other one may still be on its way. */
module Buckets {
  import opened Options
  import opened WeightChunks
  import RowOps

  /** One bucket: its metadata in insertion order, and the bytes that are in use. */
  datatype Bucket = Bucket(metas: seq<TensorMeta>, data: seq<byte>) {
    /** The byte where chunk y starts, or where the bucket ends. */
    function Start(y: nat): nat
      requires y <= |metas|
    {
      if y < |metas| then metas[y].offset else |data|
    }

    /** The chunks lie side by side from byte 0 to the end, without gap or overlap. */
    ghost predicate Tiled() {
      && Start(0) == 0
      && Fit(metas, |data|)
      && forall y :: 0 <= y < |metas| ==> metas[y].offset + metas[y].chunkSize == Start(y + 1)
    }

    ghost predicate DistinctNames() {
      forall i, j :: 0 <= i < j < |metas| ==> metas[i].name != metas[j].name
    }

    /** The name of chunk y is in the bucket already. */
    predicate Repeats(y: nat)
      requires y < |metas|
    {
      exists i :: 0 <= i < y && metas[i].name == metas[y].name
    }

    function Place(c: Chunk): Bucket {
      Bucket(metas + [c.meta.(offset := |data|)], data + c.bytes)
    }
  }

  const EMPTY_BUCKET := Bucket([], [])

  lemma FindRepeat(b: Bucket) returns (y: nat)
    requires !b.DistinctNames()
    ensures y < |b.metas| && b.Repeats(y)
  {
    var i, j :| 0 <= i < j < |b.metas| && b.metas[i].name == b.metas[j].name;
    y := j;
  }

  predicate Fit(metas: seq<TensorMeta>, size: nat) {
    forall y :: 0 <= y < |metas| ==> metas[y].offset + metas[y].chunkSize <= size
  }

  /** The view of one tensor in a buffer. */
  function View(meta: TensorMeta, buffer: seq<byte>): Chunk
    requires meta.offset + meta.chunkSize <= |buffer|
  {
    Chunk(meta, buffer[meta.offset..meta.offset + meta.chunkSize])
  }

  function Views(metas: seq<TensorMeta>, buffer: seq<byte>): (r: seq<Chunk>)
    requires Fit(metas, |buffer|)
    ensures |r| == |metas|
    ensures forall y :: 0 <= y < |metas| ==> r[y] == View(metas[y], buffer)
  {
    seq(|metas|, y requires 0 <= y < |metas| && Fit(metas, |buffer|) => View(metas[y], buffer))
  }

  function ChunksOf(b: Bucket): seq<Chunk>
    requires Fit(b.metas, |b.data|)
  {
    Views(b.metas, b.data)
  }

  ghost predicate AllFit(bs: seq<Bucket>) {
    forall j :: 0 <= j < |bs| ==> Fit(bs[j].metas, |bs[j].data|)
  }

  function AllChunks(bs: seq<Bucket>): seq<Chunk>
    requires AllFit(bs)
  {
    if bs == [] then [] else ChunksOf(bs[0]) + AllChunks(bs[1..])
  }

  // ---------------------------------------------------------------- packing

  function Pack(chunks: seq<Chunk>, current: Bucket, bucketSize: nat): (r: seq<Bucket>)
    ensures |r| > 0
  {
    if chunks == [] then [current]
    else if |current.data| + chunks[0].meta.chunkSize > bucketSize
    then [current] + Pack(chunks[1..], EMPTY_BUCKET.Place(chunks[0]), bucketSize)
    else Pack(chunks[1..], current.Place(chunks[0]), bucketSize)
  }

  ghost predicate FitOneBucket(chunks: seq<Chunk>, bucketSize: nat) {
    forall c :: c in chunks ==> c.Sized() && 0 < c.meta.chunkSize <= bucketSize
  }

  lemma PlaceKeepsTiling(b: Bucket, c: Chunk)
    requires b.Tiled() && c.Sized()
    ensures b.Place(c).Tiled()
  {
    var p := b.Place(c);
    forall y | 0 <= y < |p.metas|
      ensures p.metas[y].offset + p.metas[y].chunkSize == p.Start(y + 1)
    {
      if y < |b.metas| {
        assert p.metas[y] == b.metas[y];
        assert b.metas[y].offset + b.metas[y].chunkSize == b.Start(y + 1);
      }
    }
  }

  lemma PlaceAppendsChunk(b: Bucket, c: Chunk)
    requires Fit(b.metas, |b.data|) && c.Sized()
    ensures Fit(b.Place(c).metas, |b.Place(c).data|)
    ensures AllUnplaced(ChunksOf(b.Place(c))) == AllUnplaced(ChunksOf(b)) + [Unplaced(c)]
  {
    var placed := Chunk(c.meta.(offset := |b.data|), c.bytes);
    assert ChunksOf(b.Place(c)) == ChunksOf(b) + [placed] by {
      var p := b.Place(c);
      assert View(placed.meta, p.data) == placed;
      forall y | 0 <= y < |b.metas|
        ensures ChunksOf(p)[y] == ChunksOf(b)[y]
      {
        assert p.metas[y] == b.metas[y];
      }
    }
    UnplacedConcat(ChunksOf(b), [placed]);
    assert AllUnplaced([placed]) == [Unplaced(c)];
  }

  ghost predicate WellPacked(b: Bucket, bucketSize: nat) {
    b.Tiled() && |b.data| <= bucketSize
  }

  ghost predicate AllWellPacked(bs: seq<Bucket>, bucketSize: nat) {
    forall j :: 0 <= j < |bs| ==> WellPacked(bs[j], bucketSize)
  }

  /** Every bucket is tiled and within the bucket size. */
  lemma {:induction false} PackTiles(chunks: seq<Chunk>, current: Bucket, bucketSize: nat)
    requires FitOneBucket(chunks, bucketSize) && WellPacked(current, bucketSize)
    ensures AllWellPacked(Pack(chunks, current, bucketSize), bucketSize)
    decreases |chunks|
  {
    if chunks != [] {
      var next := if |current.data| + chunks[0].meta.chunkSize > bucketSize then EMPTY_BUCKET else current;
      PlaceKeepsTiling(next, chunks[0]);
      PackTiles(chunks[1..], next.Place(chunks[0]), bucketSize);
    }
  }

  lemma ConsConserves(b: Bucket, bs: seq<Bucket>)
    requires Fit(b.metas, |b.data|) && AllFit(bs)
    ensures AllFit([b] + bs)
    ensures AllUnplaced(AllChunks([b] + bs)) == AllUnplaced(ChunksOf(b)) + AllUnplaced(AllChunks(bs))
  {
    assert ([b] + bs)[1..] == bs;
    UnplacedConcat(ChunksOf(b), AllChunks(bs));
  }

  /** The packed chunks are the given ones, in order. */
  lemma {:induction false} PackConserves(chunks: seq<Chunk>, current: Bucket, bucketSize: nat)
    requires FitOneBucket(chunks, bucketSize) && Fit(current.metas, |current.data|)
    ensures AllFit(Pack(chunks, current, bucketSize))
    ensures AllUnplaced(AllChunks(Pack(chunks, current, bucketSize)))
         == AllUnplaced(ChunksOf(current)) + AllUnplaced(chunks)
    decreases |chunks|
  {
    if chunks == [] {
      OneBucketConserves(current);
    } else {
      var c := chunks[0];
      var overflow := |current.data| + c.meta.chunkSize > bucketSize;
      var next := if overflow then EMPTY_BUCKET else current;
      PackStepConserves(chunks, next, bucketSize);
      PackConserves(chunks[1..], next.Place(c), bucketSize);
      var rest := Pack(chunks[1..], next.Place(c), bucketSize);
      if overflow { ConsConserves(current, rest); }
      assert Pack(chunks, current, bucketSize) == if overflow then [current] + rest else rest;
    }
  }

  lemma OneBucketConserves(b: Bucket)
    requires Fit(b.metas, |b.data|)
    ensures AllFit([b]) && AllUnplaced(AllChunks([b])) == AllUnplaced(ChunksOf(b)) + AllUnplaced([])
  {
    assert AllChunks([b]) == ChunksOf(b);
  }

  lemma PackStepConserves(chunks: seq<Chunk>, next: Bucket, bucketSize: nat)
    requires chunks != [] && FitOneBucket(chunks, bucketSize) && Fit(next.metas, |next.data|)
    ensures Fit(next.Place(chunks[0]).metas, |next.Place(chunks[0]).data|)
    ensures FitOneBucket(chunks[1..], bucketSize)
    ensures AllUnplaced(ChunksOf(next.Place(chunks[0]))) + AllUnplaced(chunks[1..])
         == AllUnplaced(ChunksOf(next)) + AllUnplaced(chunks)
    ensures next == EMPTY_BUCKET ==> AllUnplaced(ChunksOf(next)) + AllUnplaced(chunks) == AllUnplaced(chunks)
  {
    var c, rest := chunks[0], chunks[1..];
    PlaceAppendsChunk(next, c);
    assert AllUnplaced(chunks) == [Unplaced(c)] + AllUnplaced(rest);
    RowOps.Regroup(AllUnplaced(ChunksOf(next)), [Unplaced(c)], AllUnplaced(rest));
    assert AllUnplaced(ChunksOf(EMPTY_BUCKET)) + AllUnplaced(chunks) == AllUnplaced(chunks);
  }

  /** The bucket being filled only grows. */
  lemma {:induction false} PackExtendsCurrent(chunks: seq<Chunk>, current: Bucket, bucketSize: nat)
    ensures var b := Pack(chunks, current, bucketSize)[0];
            |current.metas| <= |b.metas| && b.metas[..|current.metas|] == current.metas
    decreases |chunks|
  {
    if chunks != [] && |current.data| + chunks[0].meta.chunkSize <= bucketSize {
      var next := current.Place(chunks[0]);
      PackExtendsCurrent(chunks[1..], next, bucketSize);
      var b := Pack(chunks[1..], next, bucketSize)[0];
      assert b.metas[..|current.metas|] == b.metas[..|next.metas|][..|current.metas|];
    }
  }

  /** A bucket together with the first chunk of the next one would not fit. */
  ghost predicate Crowded(b: Bucket, next: Bucket, bucketSize: nat) {
    next.metas != [] && |b.data| + next.metas[0].chunkSize > bucketSize
  }

  ghost predicate NextFit(bs: seq<Bucket>, bucketSize: nat) {
    forall j, k :: 0 <= j && k == j + 1 && k < |bs| ==> Crowded(bs[j], bs[k], bucketSize)
  }

  lemma {:induction false} PackIsNextFit(chunks: seq<Chunk>, current: Bucket, bucketSize: nat)
    ensures NextFit(Pack(chunks, current, bucketSize), bucketSize)
    decreases |chunks|
  {
    if chunks != [] {
      var c := chunks[0];
      if |current.data| + c.meta.chunkSize > bucketSize {
        PackIsNextFit(chunks[1..], EMPTY_BUCKET.Place(c), bucketSize);
        PackExtendsCurrent(chunks[1..], EMPTY_BUCKET.Place(c), bucketSize);
        var next := Pack(chunks[1..], EMPTY_BUCKET.Place(c), bucketSize)[0];
        assert next.metas[0] == next.metas[..1][0];
      } else {
        PackIsNextFit(chunks[1..], current.Place(c), bucketSize);
      }
    }
  }

  lemma UnplacedConcat(a: seq<Chunk>, b: seq<Chunk>)
    ensures AllUnplaced(a + b) == AllUnplaced(a) + AllUnplaced(b)
  {
    assert |AllUnplaced(a + b)| == |AllUnplaced(a) + AllUnplaced(b)|;
  }

  function TotalBytes(bs: seq<Bucket>): nat {
    if bs == [] then 0 else |bs[0].data| + TotalBytes(bs[1..])
  }

  /** Two neighbouring buckets hold more than one bucket size, so the total bounds their number. */
  lemma {:induction false} NextFitBoundsBuckets(bs: seq<Bucket>, bucketSize: nat)
    requires NextFit(bs, bucketSize) && AllFit(bs)
    ensures |bs| / 2 * (bucketSize + 1) <= TotalBytes(bs)
    decreases |bs|
  {
    if |bs| >= 2 {
      var rest := bs[2..];
      assert Crowded(bs[0], bs[1], bucketSize);
      assert TotalBytes(bs) == |bs[0].data| + |bs[1].data| + TotalBytes(rest) by {
        assert bs[1..][0] == bs[1] && bs[1..][1..] == rest;
      }
      assert forall j :: 0 <= j < |rest| ==> rest[j] == bs[j + 2];
      NextFitBoundsBuckets(rest, bucketSize);
      assert |bs| / 2 == |rest| / 2 + 1;
      assert |bs| / 2 * (bucketSize + 1) == |rest| / 2 * (bucketSize + 1) + (bucketSize + 1);
    }
  }

  // ---------------------------------------------------------------- no name twice in one bucket

  ghost predicate AllDistinct(bs: seq<Bucket>) {
    forall j :: 0 <= j < |bs| ==> bs[j].DistinctNames()
  }

  ghost predicate DistinctWeightNames(ws: seq<Weight>) {
    forall i, j :: 0 <= i < j < |ws| ==> ws[i].name != ws[j].name
  }

  /** A chunk that is followed by another one of the same weight takes up a whole bucket. */
  ghost predicate FullUnlessLast(chunks: seq<Chunk>, bucketSize: nat) {
    forall i, j :: 0 <= i < j < |chunks| && chunks[i].meta.name == chunks[j].meta.name
      ==> chunks[i].meta.chunkSize == bucketSize
  }

  lemma {:induction false} SplitWeightFull(w: Weight, from: nat, bucketSize: nat)
    requires bucketSize > 0
    ensures FullUnlessLast(SplitWeight(w, from, bucketSize), bucketSize)
    decreases |w.data| - from
  {
    if from < |w.data| {
      var c := ChunkAt(w, from, bucketSize);
      SplitWeightFull(w, from + c.meta.chunkSize, bucketSize);
    }
  }

  lemma {:induction false} SplitFull(ws: seq<Weight>, bucketSize: nat)
    requires bucketSize > 0 && DistinctWeightNames(ws)
    ensures FullUnlessLast(Split(ws, bucketSize), bucketSize)
  {
    if ws != [] {
      SplitWeightFull(ws[0], 0, bucketSize);
      SplitWeightSized(ws[0], 0, bucketSize);
      SplitFull(ws[1..], bucketSize);
      SplitSized(ws[1..], bucketSize);
      var a, b := SplitWeight(ws[0], 0, bucketSize), Split(ws[1..], bucketSize);
      var all: seq<Chunk> := a + b;
      forall i, j | 0 <= i < |a| && 0 <= j < |b|
        ensures a[i].meta.name != b[j].meta.name
      {
        assert a[i] in a && b[j] in b;
      }
      forall i, j | 0 <= i < j < |all| && all[i].meta.name == all[j].meta.name
        ensures all[i].meta.chunkSize == bucketSize
      {
        if i >= |a| {
          assert b[i - |a|].meta.name == b[j - |a|].meta.name;
        }
      }
    }
  }

  lemma {:induction false} PackKeepsNamesApart(chunks: seq<Chunk>, current: Bucket, bucketSize: nat)
    requires FitOneBucket(chunks, bucketSize) && FullUnlessLast(chunks, bucketSize)
    requires Fit(current.metas, |current.data|) && current.DistinctNames()
    requires forall m, c :: m in current.metas && c in chunks && m.name == c.meta.name ==> m.chunkSize == bucketSize
    ensures forall j :: 0 <= j < |Pack(chunks, current, bucketSize)|
              ==> Pack(chunks, current, bucketSize)[j].DistinctNames()
    decreases |chunks|
  {
    if chunks != [] {
      var c := chunks[0];
      var overflow := |current.data| + c.meta.chunkSize > bucketSize;
      var next := if overflow then EMPTY_BUCKET else current;
      assert forall x :: x in chunks[1..] ==> x in chunks;
      forall m, x | m in next.Place(c).metas && x in chunks[1..] && m.name == x.meta.name
        ensures m.chunkSize == bucketSize
      {
        if m !in next.metas {
          var j :| 0 <= j < |chunks[1..]| && chunks[1..][j] == x;
          assert chunks[0].meta.name == chunks[j + 1].meta.name;
        }
      }
      if !overflow {
        forall i | 0 <= i < |current.metas|
          ensures current.metas[i].name != c.meta.name
        {
          assert current.metas[i] in current.metas && c in chunks;
        }
      }
      PackKeepsNamesApart(chunks[1..], next.Place(c), bucketSize);
    }
  }

  // ---------------------------------------------------------------- the packing of a stream of weights

  function PackWeights(ws: seq<Weight>, bucketSize: nat): seq<Bucket>
    requires bucketSize > 0
  {
    Pack(Split(ws, bucketSize), EMPTY_BUCKET, bucketSize)
  }

  /** What packing promises of the buckets of any weights: tiling, size, conservation, next fit. */
  lemma PackingIsSound(ws: seq<Weight>, bucketSize: nat)
    requires bucketSize > 0
    ensures |PackWeights(ws, bucketSize)| > 0 && AllWellPacked(PackWeights(ws, bucketSize), bucketSize)
    ensures AllFit(PackWeights(ws, bucketSize))
    ensures AllUnplaced(AllChunks(PackWeights(ws, bucketSize))) == AllUnplaced(Split(ws, bucketSize))
    ensures NextFit(PackWeights(ws, bucketSize), bucketSize)
    ensures |PackWeights(ws, bucketSize)| / 2 * (bucketSize + 1) <= TotalBytes(PackWeights(ws, bucketSize))
  {
    SplitSized(ws, bucketSize);
    PackTiles(Split(ws, bucketSize), EMPTY_BUCKET, bucketSize);
    PackConserves(Split(ws, bucketSize), EMPTY_BUCKET, bucketSize);
    PackIsNextFit(Split(ws, bucketSize), EMPTY_BUCKET, bucketSize);
    NextFitBoundsBuckets(PackWeights(ws, bucketSize), bucketSize);
  }

  /** With distinct weight names no bucket holds the same name twice. */
  lemma NoNameTwiceInABucket(ws: seq<Weight>, bucketSize: nat)
    requires bucketSize > 0 && DistinctWeightNames(ws)
    ensures forall j :: 0 <= j < |PackWeights(ws, bucketSize)| ==> PackWeights(ws, bucketSize)[j].DistinctNames()
  {
    SplitSized(ws, bucketSize);
    SplitFull(ws, bucketSize);
    PackKeepsNamesApart(Split(ws, bucketSize), EMPTY_BUCKET, bucketSize);
  }

  /** Two weights of one name that fit one bucket. */
  lemma SameNameTwice()
    ensures var w := Blank("w", 1, Dtype("uint8", 1)); !AllDistinct(PackWeights([w, w], 8))
  {
    var w := Blank("w", 1, Dtype("uint8", 1));
    var c := ChunkAt(w, 0, 8);
    TwoWeights(w, w, 8);
    assert SplitWeight(w, 0, 8) == [c] + SplitWeight(w, 1, 8);
    var bucket := EMPTY_BUCKET.Place(c).Place(c);
    assert [c, c][1..] == [c] && Pack([c], EMPTY_BUCKET.Place(c), 8) == [bucket];
    assert PackWeights([w, w], 8) == [bucket];
    assert bucket.metas[0].name == bucket.metas[1].name && ![bucket][0].DistinctNames();
  }

  /** Every chunk of a weight that fits one bucket starts at a multiple of the weight's item size. */
  ghost predicate PlacesAligned(bs: seq<Bucket>, bucketSize: nat) {
    forall j :: 0 <= j < |bs| ==> MetasAligned(bs[j].metas, bucketSize)
  }

  ghost predicate MetasAligned(metas: seq<TensorMeta>, bucketSize: nat) {
    forall y :: 0 <= y < |metas| ==> Aligned(metas[y], bucketSize)
  }

  lemma {:induction false} AlignedChunks(bs: seq<Bucket>, bucketSize: nat)
    requires AllFit(bs)
    ensures AllSized(AllChunks(bs))
    ensures AllAligned(AllChunks(bs), bucketSize) <==> PlacesAligned(bs, bucketSize)
  {
    if bs != [] {
      AlignedChunks(bs[1..], bucketSize);
      var first, rest := ChunksOf(bs[0]), AllChunks(bs[1..]);
      assert forall y :: 0 <= y < |bs[0].metas| ==> first[y] in AllChunks(bs) && first[y].meta == bs[0].metas[y];
      assert forall c :: c in rest ==> c in AllChunks(bs);
      assert PlacesAligned(bs, bucketSize)
        <==> MetasAligned(bs[0].metas, bucketSize) && PlacesAligned(bs[1..], bucketSize) by {
        assert forall j :: 1 <= j < |bs| ==> bs[j] == bs[1..][j - 1];
      }
    }
  }

  /** Merging gives the non-empty weights again if every view is aligned; otherwise it ends at the first view
      that is not. */
  ghost predicate ComeBack(ws: seq<Weight>, bucketSize: nat, chunks: seq<Chunk>, junk: nat -> byte)
    requires bucketSize > 0
  {
    && AllSized(chunks)
    && var merged := MergeRun(Idle, chunks, bucketSize, junk);
       if PlacesAligned(PackWeights(ws, bucketSize), bucketSize)
       then merged == MergeOutcome(NonEmpty(ws), None)
       else merged.error == Some(Misaligned) && merged.weights <= NonEmpty(ws)
  }

  /** Without their places the packed chunks merge to the non-empty weights. */
  lemma PackedWithoutPlaces(ws: seq<Weight>, bucketSize: nat, junk: nat -> byte)
    requires bucketSize > 0 && forall w :: w in ws ==> w.Valid()
    ensures AllFit(PackWeights(ws, bucketSize)) && AllSized(AllChunks(PackWeights(ws, bucketSize)))
    ensures var chunks := AllUnplaced(AllChunks(PackWeights(ws, bucketSize)));
            AllSized(chunks) && MergeRun(Idle, chunks, bucketSize, junk) == MergeOutcome(NonEmpty(ws), None)
  {
    PackingIsSound(ws, bucketSize);
    AlignedChunks(PackWeights(ws, bucketSize), bucketSize);
    MergeUndoesSplit(ws, bucketSize, junk);
    SplitAligned(ws, bucketSize);
    MergeIgnoresAlignedPlaces(Idle, Split(ws, bucketSize), bucketSize, junk);
  }

  /** Reading every bucket back by offset and merging the chunks succeeds if and only if every view is aligned. */
  lemma PackedWeightsComeBack(ws: seq<Weight>, bucketSize: nat, junk: nat -> byte)
    requires bucketSize > 0 && forall w :: w in ws ==> w.Valid()
    ensures AllFit(PackWeights(ws, bucketSize))
    ensures ComeBack(ws, bucketSize, AllChunks(PackWeights(ws, bucketSize)), junk)
  {
    var bs := PackWeights(ws, bucketSize);
    PackedWithoutPlaces(ws, bucketSize, junk);
    AlignedChunks(bs, bucketSize);
    if PlacesAligned(bs, bucketSize) {
      MergeIgnoresAlignedPlaces(Idle, AllChunks(bs), bucketSize, junk);
    } else {
      MisalignedViewEndsMerge(Idle, AllChunks(bs), bucketSize, junk);
    }
  }

  /** What is merged from a part of the packed chunks, handed out while the views are aligned: no error, and a
      part of the non-empty weights. */
  lemma PartComesBack(ws: seq<Weight>, bucketSize: nat, part: seq<Chunk>, junk: nat -> byte)
    requires bucketSize > 0 && forall w :: w in ws ==> w.Valid()
    requires AllFit(PackWeights(ws, bucketSize)) && part <= AllChunks(PackWeights(ws, bucketSize))
    requires AllAligned(part, bucketSize)
    ensures AllSized(part) && MergeRun(Idle, part, bucketSize, junk).error == None
    ensures MergeRun(Idle, part, bucketSize, junk).weights <= NonEmpty(ws)
  {
    var all := AllChunks(PackWeights(ws, bucketSize));
    var rest := all[|part|..];
    PackedWithoutPlaces(ws, bucketSize, junk);
    assert all == part + rest;
    UnplacedConcat(part, rest);
    MergeIgnoresAlignedPlaces(Idle, part, bucketSize, junk);
    MergePart(Idle, AllUnplaced(part), AllUnplaced(rest), bucketSize, junk);
  }
}
