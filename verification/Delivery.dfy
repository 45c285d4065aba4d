/** What a transfer of buckets has to deliver, whatever carries them: the buckets rank 0 packs, the views of
    a buffer that holds one, and the chunks a receiver has yielded after so many buckets and chunks. */
module Delivery {
  import opened WeightChunks
  import opened Buckets

  /** `receivers` ranks after rank 0, and the buckets rank 0 packs. */
  datatype Config = Config(receivers: nat, bucketSize: nat, buckets: seq<Bucket>) {
    ghost predicate Valid() {
      receivers >= 1 && |buckets| >= 1 && AllWellPacked(buckets, bucketSize)
    }

    function Last(): int {
      |buckets| - 1
    }
  }

  function Zeros(n: nat): seq<byte> {
    seq(n, _ => 0)
  }

  /** The view a slice of the buffer gives, cut off at the end of the buffer. */
  function Slice(meta: TensorMeta, buffer: seq<byte>): Chunk {
    Chunk(meta, buffer[Min(meta.offset, |buffer|)..Min(meta.offset + meta.chunkSize, |buffer|)])
  }

  /** The buffer starts with the bytes of bucket j. */
  ghost predicate Holds(c: Config, buffer: seq<byte>, j: nat)
    requires j < |c.buckets|
  {
    var d := c.buckets[j].data;
    |d| <= |buffer| && forall i :: 0 <= i < |d| ==> buffer[i] == d[i]
  }

  ghost predicate HoldsUpTo(c: Config, buffer: seq<byte>, j: nat, pos: nat)
    requires j < |c.buckets|
  {
    var d := c.buckets[j].data;
    |d| <= |buffer| && forall i :: 0 <= i < |d| && i < pos ==> buffer[i] == d[i]
  }

  lemma ConfigFits(c: Config)
    requires c.Valid()
    ensures AllFit(c.buckets)
  {
    forall j | 0 <= j < |c.buckets|
      ensures Fit(c.buckets[j].metas, |c.buckets[j].data|)
    {
      assert WellPacked(c.buckets[j], c.bucketSize);
    }
  }

  lemma BucketFits(c: Config, j: nat)
    requires c.Valid() && j < |c.buckets|
    ensures WellPacked(c.buckets[j], c.bucketSize) && |c.buckets[j].data| <= c.bucketSize
  {
  }

  /** Every bucket fits the buffers. */
  ghost predicate SizesOk(c: Config) {
    forall j :: 0 <= j < |c.buckets| ==> |c.buckets[j].data| <= c.bucketSize
  }

  lemma SizesFit(c: Config)
    requires c.Valid()
    ensures SizesOk(c)
  {
    forall j | 0 <= j < |c.buckets|
      ensures |c.buckets[j].data| <= c.bucketSize
    {
      BucketFits(c, j);
    }
  }

  /** An empty prefix is held by any buffer of the right size. */
  lemma HoldsNothingYet(c: Config, buffer: seq<byte>, k: nat)
    requires k < |c.buckets| && WellPacked(c.buckets[k], c.bucketSize) && |buffer| == c.bucketSize
    ensures HoldsUpTo(c, buffer, k, c.buckets[k].Start(0))
  {
  }

  /** Copying chunk y extends the correct prefix of the buffer by exactly that chunk. */
  lemma FillExtends(c: Config, buffer: seq<byte>, k: nat, y: nat)
    requires k < |c.buckets| && WellPacked(c.buckets[k], c.bucketSize) && |buffer| == c.bucketSize
    requires y < |c.buckets[k].metas| && HoldsUpTo(c, buffer, k, c.buckets[k].Start(y))
    ensures var b := c.buckets[k];
            && b.metas[y].offset + |Slice(b.metas[y], b.data).bytes| <= |buffer|
            && HoldsUpTo(c, Overwrite(buffer, b.metas[y].offset, Slice(b.metas[y], b.data).bytes), k, b.Start(y + 1))
  {
    var b := c.buckets[k];
    var m := b.metas[y];
    assert m.offset + m.chunkSize == b.Start(y + 1);
    assert m.offset + m.chunkSize <= |b.data|;
    OverwriteWithSlice(buffer, b.data, m.offset, m.offset + m.chunkSize);
  }

  /** Copying a piece to its own place leaves what is before it and makes the piece agree. */
  lemma OverwriteWithSlice(buffer: seq<byte>, data: seq<byte>, lo: nat, hi: nat)
    requires lo <= hi <= |data| <= |buffer| && forall i :: 0 <= i < lo ==> buffer[i] == data[i]
    ensures forall i :: 0 <= i < hi ==> Overwrite(buffer, lo, data[lo..hi])[i] == data[i]
  {
  }

  /** The first k buckets and y chunks of the next one, chunk by chunk. */
  ghost function Delivered(c: Config, k: nat, y: nat): seq<Chunk>
    requires AllFit(c.buckets) && k < |c.buckets| && y <= |c.buckets[k].metas|
    decreases k, y
  {
    if y > 0 then Delivered(c, k, y - 1) + [ChunksOf(c.buckets[k])[y - 1]]
    else if k > 0 then Delivered(c, k - 1, |c.buckets[k - 1].metas|)
    else []
  }

  /** That is, the chunks of the buckets one after the other. */
  lemma {:induction false} DeliveredIs(c: Config, k: nat, y: nat)
    requires AllFit(c.buckets) && k < |c.buckets| && y <= |c.buckets[k].metas|
    ensures Delivered(c, k, y) == AllChunks(c.buckets[..k]) + ChunksOf(c.buckets[k])[..y]
    decreases k, y
  {
    if y > 0 {
      DeliveredIs(c, k, y - 1);
      assert ChunksOf(c.buckets[k])[..y] == ChunksOf(c.buckets[k])[..y - 1] + [ChunksOf(c.buckets[k])[y - 1]];
    } else if k > 0 {
      DeliveredIs(c, k - 1, |c.buckets[k - 1].metas|);
      DeliveredBucket(c, k - 1);
    }
  }

  lemma DeliveredBucket(c: Config, k: nat)
    requires AllFit(c.buckets) && k < |c.buckets|
    ensures AllChunks(c.buckets[..k]) + ChunksOf(c.buckets[k])[..|c.buckets[k].metas|] == AllChunks(c.buckets[..k + 1])
  {
    AllChunksAppend(c.buckets[..k], c.buckets[k]);
    assert c.buckets[..k + 1] == c.buckets[..k] + [c.buckets[k]];
    assert ChunksOf(c.buckets[k])[..|c.buckets[k].metas|] == ChunksOf(c.buckets[k]);
  }

  lemma {:induction false} AllChunksAppend(bs: seq<Bucket>, b: Bucket)
    requires AllFit(bs) && Fit(b.metas, |b.data|)
    ensures AllFit(bs + [b]) && AllChunks(bs + [b]) == AllChunks(bs) + ChunksOf(b)
  {
    if bs == [] {
      assert [] + [b] == [b] && AllChunks([b]) == ChunksOf(b) + [];
    } else {
      AllChunksAppend(bs[1..], b);
      assert (bs + [b])[1..] == bs[1..] + [b];
    }
  }

  /** The view a receiver yields is the chunk that was packed. */
  lemma SliceOfHeld(c: Config, buffer: seq<byte>, k: nat, y: nat)
    requires AllFit(c.buckets) && k < |c.buckets| && y < |c.buckets[k].metas|
    requires Holds(c, buffer, k)
    ensures Slice(c.buckets[k].metas[y], buffer) == ChunksOf(c.buckets[k])[y]
  {
    var b := c.buckets[k];
    var m := b.metas[y];
    assert Fit(b.metas, |b.data|);
    assert ChunksOf(b)[y] == View(m, b.data);
    assert Slice(m, buffer).bytes == b.data[m.offset..m.offset + m.chunkSize];
  }

  ghost predicate IsPrefix(a: seq<Chunk>, b: seq<Chunk>) {
    |a| <= |b| && a == b[..|a|]
  }

  lemma {:induction false} AllChunksSplit(bs: seq<Bucket>, k: nat)
    requires AllFit(bs) && k <= |bs|
    ensures AllChunks(bs) == AllChunks(bs[..k]) + AllChunks(bs[k..])
    decreases k
  {
    if k == 0 {
      assert bs[..0] == [] && bs[0..] == bs;
    } else {
      assert bs[1..][..k - 1] == bs[..k][1..] && bs[1..][k - 1..] == bs[k..];
      AllChunksSplit(bs[1..], k - 1);
    }
  }

  lemma DeliveredIsPrefix(c: Config, k: nat, y: nat)
    requires AllFit(c.buckets) && k < |c.buckets| && y <= |c.buckets[k].metas|
    ensures IsPrefix(Delivered(c, k, y), AllChunks(c.buckets))
    ensures k == c.Last() && y == |c.buckets[k].metas| ==> Delivered(c, k, y) == AllChunks(c.buckets)
  {
    DeliveredIs(c, k, y);
    AllChunksSplit(c.buckets, k);
    assert c.buckets[k..][0] == c.buckets[k];
    if k == c.Last() && y == |c.buckets[k].metas| {
      DeliveredBucket(c, k);
      assert c.buckets[..k + 1] == c.buckets;
    }
  }
}
