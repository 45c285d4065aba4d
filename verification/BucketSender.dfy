/** The sender's loop over two byte buffers: fill one bucket while the previous one is still being read.
    Waiting and the transport are the subject of RelayChain and BroadcastChannel; here every bucket handed to
    the transport is recorded, with the buffer it lies in and that buffer's bytes at that moment. */
module BucketSender {
  import opened Options
  import opened WeightChunks
  import opened Buckets

  datatype Post = Post(buffer: array<byte>, image: seq<byte>, metas: seq<TensorMeta>, isLast: bool)

  /** The post holds the bucket at the start of the given buffer. */
  ghost predicate Carries(p: Post, buffer: array<byte>, b: Bucket, isLast: bool) {
    && p.buffer == buffer && p.isLast == isLast && p.metas == b.metas
    && |p.image| == buffer.Length && |b.data| <= |p.image| && p.image[..|b.data|] == b.data
  }

  ghost predicate AllCarried(posts: seq<Post>, even: array<byte>, odd: array<byte>, bs: seq<Bucket>) {
    && |posts| == |bs|
    && forall j :: 0 <= j < |bs| ==> Carries(posts[j], if j % 2 == 0 then even else odd, bs[j], false)
  }

  /** The two assertions of the sender's loop. */
  datatype SendError = BucketOverflow | DuplicateName

  predicate NameTaken(metas: seq<TensorMeta>, name: string) {
    exists m :: m in metas && m.name == name
  }

  /** Once a bucket holds a name twice it keeps holding it twice. */
  lemma ClashStays(done: seq<Bucket>, chunks: seq<Chunk>, current: Bucket, c: Chunk, bucketSize: nat)
    requires NameTaken(current.metas, c.meta.name)
    ensures !AllDistinct(done + Pack(chunks, current.Place(c), bucketSize))
  {
    var placed := current.Place(c);
    var bs := Pack(chunks, placed, bucketSize);
    PackExtendsCurrent(chunks, placed, bucketSize);
    var m :| m in current.metas && m.name == c.meta.name;
    var i :| 0 <= i < |current.metas| && current.metas[i] == m;
    assert bs[0].metas[i] == bs[0].metas[..|placed.metas|][i] == m;
    assert bs[0].metas[|current.metas|] == bs[0].metas[..|placed.metas|][|current.metas|];
    assert (done + bs)[|done|] == bs[0];
  }

  lemma PackAdvances(done: seq<Bucket>, chunks: seq<Chunk>, i: nat, current: Bucket, bucketSize: nat)
    requires i < |chunks|
    ensures done + Pack(chunks[i..], current, bucketSize)
         == if |current.data| + chunks[i].meta.chunkSize > bucketSize
            then (done + [current]) + Pack(chunks[i + 1..], EMPTY_BUCKET.Place(chunks[i]), bucketSize)
            else done + Pack(chunks[i + 1..], current.Place(chunks[i]), bucketSize)
  {
    assert chunks[i..][0] == chunks[i] && chunks[i..][1..] == chunks[i + 1..];
  }

  lemma AppendCarried(before: seq<Post>, posts: seq<Post>, even: array<byte>, odd: array<byte>,
                      done: seq<Bucket>, b: Bucket)
    requires AllCarried(before, even, odd, done)
    requires |posts| == |before| + 1 && posts[..|before|] == before
    requires Carries(posts[|before|], if |before| % 2 == 0 then even else odd, b, false)
    ensures AllCarried(posts, even, odd, done + [b])
  {
    assert forall j :: 0 <= j < |before| ==> posts[j] == posts[..|before|][j];
  }

  ghost predicate AllSent(posts: seq<Post>, even: array<byte>, odd: array<byte>, bs: seq<Bucket>) {
    && |posts| == |bs|
    && forall j :: 0 <= j < |bs| ==> Carries(posts[j], if j % 2 == 0 then even else odd, bs[j], j == |bs| - 1)
  }

  lemma AppendLast(posts: seq<Post>, last: Post, even: array<byte>, odd: array<byte>, done: seq<Bucket>, b: Bucket)
    requires AllCarried(posts, even, odd, done)
    requires Carries(last, if |posts| % 2 == 0 then even else odd, b, true)
    ensures AllSent(posts + [last], even, odd, done + [b])
  {
  }

  lemma SentExactly(posts: seq<Post>, even: array<byte>, odd: array<byte>, bs: seq<Bucket>)
    requires AllSent(posts, even, odd, bs)
    ensures forall j :: 0 <= j < |bs| ==>
        && posts[j].buffer == (if j % 2 == 0 then even else odd) && posts[j].metas == bs[j].metas
        && bs[j].data <= posts[j].image && (posts[j].isLast <==> j == |bs| - 1)
  {
    forall j | 0 <= j < |bs|
      ensures bs[j].data <= posts[j].image && posts[j].buffer == (if j % 2 == 0 then even else odd)
      ensures posts[j].metas == bs[j].metas && (posts[j].isLast <==> j == |bs| - 1)
    {
      assert Carries(posts[j], if j % 2 == 0 then even else odd, bs[j], j == |bs| - 1);
    }
  }

  /** The two buffers and the loop's variables: send_buf is `front`, recv_buf is `back`. */
  class Sender {
    const even: array<byte>
    const odd: array<byte>
    const bucketSize: nat
    var front: array<byte>
    var back: array<byte>
    var bucketMeta: seq<TensorMeta>
    var offset: nat
    var posts: seq<Post>

    ghost predicate Valid()
      reads this
    {
      && bucketSize > 0 && even.Length == bucketSize && odd.Length == bucketSize && even != odd
      && offset <= bucketSize
      && front == (if |posts| % 2 == 0 then even else odd)
      && back == (if |posts| % 2 == 0 then odd else even)
    }

    /** The bucket being filled. */
    ghost function Current(): Bucket
      requires Valid()
      reads this, front
    {
      Bucket(bucketMeta, front[..offset])
    }

    constructor (bucketSize: nat)
      requires bucketSize > 0
      ensures Valid() && this.bucketSize == bucketSize && fresh(even) && fresh(odd)
      ensures posts == [] && Current() == EMPTY_BUCKET
    {
      this.bucketSize := bucketSize;
      var a := new byte[bucketSize](_ => 0);
      var b := new byte[bucketSize](_ => 0);
      even, odd, front, back := a, b, a, b;
      bucketMeta, offset, posts := [], 0, [];
      new;
      assert front[..offset] == [];
    }

    /** Hand the front buffer to the transport. */
    method PostBucket(isLast: bool)
      requires Valid()
      modifies this`posts
      ensures posts == old(posts) + [Post(front, front[..], bucketMeta, isLast)]
    {
      posts := posts + [Post(front, front[..], bucketMeta, isLast)];
    }

    /** Post the full bucket and go on with an empty one in the other buffer. */
    method Flush()
      requires Valid()
      modifies this
      ensures Valid() && Current() == EMPTY_BUCKET
      ensures posts == old(posts) + [Post(old(front), old(front[..]), old(bucketMeta), false)]
    {
      PostBucket(false);
      front, back := back, front;
      bucketMeta, offset := [], 0;
      assert front[..offset] == [];
    }

    /** Copy one chunk behind the others. */
    method Fill(c: Chunk)
      requires Valid() && c.Sized() && offset + c.meta.chunkSize <= bucketSize
      modifies this`bucketMeta, this`offset, front
      ensures Valid() && Current() == old(Current()).Place(c)
    {
      bucketMeta := bucketMeta + [c.meta.(offset := offset)];
      CopyInto(front, offset, c.bytes);
      OverwriteExtends(old(front[..]), offset, c.bytes, old(front[..offset]));
      offset := offset + c.meta.chunkSize;
    }

    method SendWeights(weights: seq<Weight>) returns (error: Option<SendError>)
      requires Valid() && posts == [] && Current() == EMPTY_BUCKET
      modifies this, even, odd
      ensures error == None || error == Some(DuplicateName)
      ensures error == None <==> AllDistinct(PackWeights(weights, bucketSize))
      ensures error == None ==>
        var bs := PackWeights(weights, bucketSize);
        && |posts| == |bs|
        && forall j :: 0 <= j < |bs| ==>
             && posts[j].buffer == (if j % 2 == 0 then even else odd) && posts[j].metas == bs[j].metas
             && bs[j].data <= posts[j].image && (posts[j].isLast <==> j == |bs| - 1)
    {
      var chunks := SplitWeightChunks(weights, bucketSize);
      SplitSized(weights, bucketSize);
      error := SendChunks(chunks);
      if error == None {
        SentExactly(posts, even, odd, PackWeights(weights, bucketSize));
      }
    }

    method SendChunks(chunks: seq<Chunk>) returns (error: Option<SendError>)
      requires Valid() && posts == [] && Current() == EMPTY_BUCKET && FitOneBucket(chunks, bucketSize)
      modifies this, even, odd
      ensures error == None || error == Some(DuplicateName)
      ensures error == None <==> AllDistinct(Pack(chunks, EMPTY_BUCKET, bucketSize))
      ensures error == None ==> AllSent(posts, even, odd, Pack(chunks, EMPTY_BUCKET, bucketSize))
    {
      error := None;
      var i := 0;
      ghost var done: seq<Bucket> := [];
      ghost var bs := Pack(chunks, EMPTY_BUCKET, bucketSize);
      assert chunks[0..] == chunks;
      while i < |chunks|
        invariant i <= |chunks| && error == None && Valid()
        invariant Reached(chunks[i..], done, bs)
      {
        assert chunks[i] in chunks;
        PackAdvances(done, chunks, i, Current(), bucketSize);
        error, done := AcceptNext(chunks[i], chunks[i + 1..], done, bs);
        if error != None { return; }
        i := i + 1;
      }
      AppendLast(posts, Post(front, front[..], bucketMeta, true), even, odd, done, Current());
      PostBucket(true);
    }

    /** The buckets `done` are posted; with the remaining chunks they and the current one become `bs`. */
    ghost predicate Reached(rest: seq<Chunk>, done: seq<Bucket>, bs: seq<Bucket>)
      requires Valid()
      reads this, front
    {
      && bs == done + Pack(rest, Current(), bucketSize)
      && AllCarried(posts, even, odd, done) && AllDistinct(done) && Current().DistinctNames()
    }

    method AcceptNext(c: Chunk, rest: seq<Chunk>, ghost done: seq<Bucket>, ghost bs: seq<Bucket>)
      returns (error: Option<SendError>, ghost done': seq<Bucket>)
      requires Valid() && c.Sized() && c.meta.chunkSize <= bucketSize
      requires AllCarried(posts, even, odd, done) && AllDistinct(done) && Current().DistinctNames()
      requires bs == if |Current().data| + c.meta.chunkSize > bucketSize
                     then (done + [Current()]) + Pack(rest, EMPTY_BUCKET.Place(c), bucketSize)
                     else done + Pack(rest, Current().Place(c), bucketSize)
      modifies this, even, odd
      ensures Valid()
      ensures error == None ==> Reached(rest, done', bs)
      ensures error != None ==> error == Some(DuplicateName) && !AllDistinct(bs)
    {
      ghost var current, before := Current(), posts;
      done' := done;
      error := Accept(c);
      if error != None {
        ClashStays(done, rest, current, c, bucketSize);
      } else if |current.data| + c.meta.chunkSize > bucketSize {
        AppendCarried(before, posts, even, odd, done, current);
        done' := done + [current];
      }
    }

    /** One turn of the loop: flush if the chunk does not fit, then place it. */
    method Accept(c: Chunk) returns (error: Option<SendError>)
      requires Valid() && c.Sized() && c.meta.chunkSize <= bucketSize && Current().DistinctNames()
      modifies this, even, odd
      ensures Valid()
      ensures if |old(Current()).data| + c.meta.chunkSize > bucketSize then
                && error == None && |posts| == |old(posts)| + 1 && posts[..|old(posts)|] == old(posts)
                && Carries(posts[|old(posts)|], if |old(posts)| % 2 == 0 then even else odd, old(Current()), false)
                && Current() == EMPTY_BUCKET.Place(c)
              else
                && posts == old(posts)
                && if NameTaken(old(Current()).metas, c.meta.name) then error == Some(DuplicateName)
                   else error == None && Current() == old(Current()).Place(c)
      ensures error == None ==> Current().DistinctNames()
    {
      if offset + c.meta.chunkSize > bucketSize {
        Flush();
      }
      if offset + c.meta.chunkSize > bucketSize { return Some(BucketOverflow); }
      if NameTaken(bucketMeta, c.meta.name) { return Some(DuplicateName); }
      assert forall i :: 0 <= i < |bucketMeta| ==> bucketMeta[i] in bucketMeta;
      Fill(c);
      error := None;
    }
  }

  /** The receiver's loop over one bucket: the views it yields. */
  method YieldBucket(metas: seq<TensorMeta>, buffer: array<byte>) returns (chunks: seq<Chunk>)
    requires Fit(metas, buffer.Length)
    ensures chunks == Views(metas, buffer[..])
  {
    chunks := [];
    var y := 0;
    while y < |metas|
      invariant y <= |metas| && |chunks| == y
      invariant forall k :: 0 <= k < y ==> chunks[k] == View(metas[k], buffer[..])
    {
      chunks := chunks + [Chunk(metas[y], buffer[metas[y].offset..metas[y].offset + metas[y].chunkSize])];
      y := y + 1;
    }
  }

  lemma SliceOfPrefix(buffer: seq<byte>, n: nat, lo: nat, hi: nat)
    requires lo <= hi <= n <= |buffer|
    ensures buffer[lo..hi] == buffer[..n][lo..hi]
  {
  }

  /** A receiver whose buffer starts with the bucket's bytes yields the bucket's chunks. */
  lemma ViewsOfPrefix(b: Bucket, buffer: seq<byte>)
    requires Fit(b.metas, |b.data|) && |b.data| <= |buffer| && buffer[..|b.data|] == b.data
    ensures Fit(b.metas, |buffer|) && Views(b.metas, buffer) == ChunksOf(b)
  {
    forall y | 0 <= y < |b.metas|
      ensures View(b.metas[y], buffer) == View(b.metas[y], b.data)
    {
      var m := b.metas[y];
      var end := m.offset + m.chunkSize;
      assert end <= |b.data|;
      SliceOfPrefix(buffer, |b.data|, m.offset, end);
    }
  }
}
