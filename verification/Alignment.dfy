/** For which weights and bucket sizes the receiver's views are aligned.

    Chunks are placed side by side, so a chunk that is no multiple of the next weight's item size shifts it.
    Such a chunk is a weight of odd length, or the last piece of a weight that was cut at a bucket size that
    is no multiple of its item size. */
module Alignment {
  import opened Options
  import opened Shapes
  import opened Division
  import opened WeightChunks
  import opened Buckets

  // ---------------------------------------------------------------- a common unit

  /** `unit` bytes at a time: whole items of every weight, and every weight and the bucket size are whole units. */
  ghost predicate HasUnit(ws: seq<Weight>, bucketSize: nat, unit: pos) {
    && Divides(unit, bucketSize)
    && forall w :: w in ws ==> Divides(w.dtype.itemsize, unit) && Divides(unit, |w.data|)
  }

  lemma DividesSum(d: pos, a: nat, b: nat)
    requires Divides(d, a)
    ensures Divides(d, a + b) <==> Divides(d, b)
  {
    QuotientIs(a + b, d, a / d + b / d, b % d);
  }

  lemma DividesDifference(d: pos, a: nat, b: nat)
    requires Divides(d, a) && Divides(d, b) && b <= a
    ensures Divides(d, a - b)
  {
    DividesSum(d, b, a - b);
  }

  lemma DividesTrans(d: pos, e: pos, n: nat)
    requires Divides(d, e) && Divides(e, n)
    ensures Divides(d, n)
  {
    QuotientIs(n, d, n / e * (e / d), 0);
  }

  ghost predicate WholeUnits(chunks: seq<Chunk>, unit: pos) {
    forall c :: c in chunks ==> Divides(unit, c.meta.chunkSize) && Divides(c.meta.dtype.itemsize, unit)
  }

  lemma {:induction false} SplitWeightWhole(w: Weight, from: nat, bucketSize: nat, unit: pos)
    requires bucketSize > 0 && HasUnit([w], bucketSize, unit) && Divides(unit, from)
    ensures WholeUnits(SplitWeight(w, from, bucketSize), unit)
    decreases |w.data| - from
  {
    if from < |w.data| {
      assert w in [w];
      DividesDifference(unit, |w.data|, from);
      var size := ChunkAt(w, from, bucketSize).meta.chunkSize;
      DividesSum(unit, from, size);
      SplitWeightWhole(w, from + size, bucketSize, unit);
    }
  }

  lemma {:induction false} SplitWhole(ws: seq<Weight>, bucketSize: nat, unit: pos)
    requires bucketSize > 0 && HasUnit(ws, bucketSize, unit)
    ensures WholeUnits(Split(ws, bucketSize), unit)
  {
    if ws != [] {
      assert ws[0] in ws;
      SplitWeightWhole(ws[0], 0, bucketSize, unit);
      SplitWhole(ws[1..], bucketSize, unit);
    }
  }

  lemma {:induction false} PackAligned(chunks: seq<Chunk>, current: Bucket, bucketSize: nat, unit: pos)
    requires FitOneBucket(chunks, bucketSize) && WholeUnits(chunks, unit)
    requires Divides(unit, |current.data|) && MetasAligned(current.metas, bucketSize)
    ensures PlacesAligned(Pack(chunks, current, bucketSize), bucketSize)
    decreases |chunks|
  {
    if chunks != [] {
      var c := chunks[0];
      assert c in chunks;
      var next := if |current.data| + c.meta.chunkSize > bucketSize then EMPTY_BUCKET else current;
      PlaceAligned(c, next, bucketSize, unit);
      PackAligned(chunks[1..], next.Place(c), bucketSize, unit);
    }
  }

  lemma PlaceAligned(c: Chunk, next: Bucket, bucketSize: nat, unit: pos)
    requires c.Sized() && Divides(unit, c.meta.chunkSize) && Divides(c.meta.dtype.itemsize, unit)
    requires Divides(unit, |next.data|) && MetasAligned(next.metas, bucketSize)
    ensures Divides(unit, |next.Place(c).data|) && MetasAligned(next.Place(c).metas, bucketSize)
  {
    DividesSum(unit, |next.data|, c.meta.chunkSize);
    DividesTrans(c.meta.dtype.itemsize, unit, |next.data|);
  }

  /** A unit that the bucket size, every weight and every item agree on keeps all views aligned. */
  lemma UnitKeepsAlignment(ws: seq<Weight>, bucketSize: nat, unit: pos)
    requires bucketSize > 0 && HasUnit(ws, bucketSize, unit)
    ensures PlacesAligned(PackWeights(ws, bucketSize), bucketSize)
  {
    SplitSized(ws, bucketSize);
    SplitWhole(ws, bucketSize, unit);
    PackAligned(Split(ws, bucketSize), EMPTY_BUCKET, bucketSize, unit);
  }

  // ---------------------------------------------------------------- weights of one item size

  ghost predicate OfItemSize(ws: seq<Weight>, d: pos) {
    && DistinctWeightNames(ws)
    && forall w :: w in ws ==> w.Valid() && w.dtype.itemsize == d
  }

  /** A bucket that is smaller than an item holds pieces of bigger weights only, and those are copied. */
  lemma {:induction false} TinyBucketsAlign(ws: seq<Weight>, bucketSize: nat, d: pos)
    requires 0 < bucketSize < d && forall w :: w in ws ==> w.Valid() && w.dtype.itemsize == d
    ensures forall c :: c in Split(ws, bucketSize) ==> ByteSize(c.meta.shape, c.meta.dtype) > bucketSize
  {
    if ws != [] {
      var w := ws[0];
      assert w in ws;
      if w.data != [] {
        AtLeastOnce(Numel(w.shape), d);
      }
      SplitWeightMetas(w, 0, bucketSize);
      TinyBucketsAlign(ws[1..], bucketSize, d);
    }
  }

  lemma {:induction false} SplitWeightMetas(w: Weight, from: nat, bucketSize: nat)
    requires bucketSize > 0
    ensures forall c :: c in SplitWeight(w, from, bucketSize)
              ==> c.meta.shape == w.shape && c.meta.dtype == w.dtype && w.data != []
    decreases |w.data| - from
  {
    if from < |w.data| {
      SplitWeightMetas(w, from + ChunkAt(w, from, bucketSize).meta.chunkSize, bucketSize);
    }
  }

  lemma {:induction false} CopiedOnly(chunks: seq<Chunk>, current: Bucket, bucketSize: nat)
    requires forall c :: c in chunks ==> ByteSize(c.meta.shape, c.meta.dtype) > bucketSize
    requires MetasAligned(current.metas, bucketSize)
    ensures PlacesAligned(Pack(chunks, current, bucketSize), bucketSize)
    decreases |chunks|
  {
    if chunks != [] {
      var c := chunks[0];
      assert c in chunks;
      var next := if |current.data| + c.meta.chunkSize > bucketSize then EMPTY_BUCKET else current;
      CopiedOnly(chunks[1..], next.Place(c), bucketSize);
    }
  }

  /** The subtractive algorithm of Euclid: a multiple of `a` exceeds a multiple of `b` by their divisor. */
  lemma {:induction false} Euclid(a: pos, b: pos) returns (x: nat, y: nat, g: pos, p: pos, q: pos)
    ensures x * a == y * b + g && a == p * g && b == q * g
    decreases a + b
  {
    if a == b {
      x, y, g, p, q := 1, 0, a, 1, 1;
    } else if a > b {
      x, y, g, p, q := Euclid(a - b, b);
      y, p := y + x, p + q;
    } else {
      x, y, g, p, q := Euclid(a, b - a);
      x, q := x + y, q + p;
    }
  }

  /** Full pieces of a weight, then its last one of `rest` bytes, then one item: it starts at byte `rest`. */
  lemma {:induction false} LastPieceShifts(w: Weight, from: nat, pieces: nat, rest: nat, item: Chunk, current: Bucket,
                                           bucketSize: nat)
    requires 0 < rest < bucketSize && from + rest <= |w.data| && |w.data| - from == pieces * bucketSize + rest
    requires (current == EMPTY_BUCKET && pieces > 0) || |current.data| == bucketSize
    requires rest + item.meta.chunkSize <= bucketSize && ByteSize(item.meta.shape, item.meta.dtype) <= bucketSize
    requires !Divides(item.meta.dtype.itemsize, rest)
    ensures !PlacesAligned(Pack(SplitWeight(w, from, bucketSize) + [item], current, bucketSize), bucketSize)
    decreases pieces
  {
    var c := ChunkAt(w, from, bucketSize);
    var to := from + c.meta.chunkSize;
    var chunks := SplitWeight(w, from, bucketSize) + [item];
    var tail := SplitWeight(w, to, bucketSize) + [item];
    if pieces == 0 {
      assert c.meta.chunkSize == rest;
      assert tail == [item] && chunks == [c, item];
      var next := EMPTY_BUCKET.Place(c);
      assert chunks[1..] == [item];
      var last := next.Place(item);
      assert Pack([item], next, bucketSize) == [last];
      assert Pack(chunks, current, bucketSize) == [current, last];
      assert last.metas[1] == item.meta.(offset := rest) && !Aligned(last.metas[1], bucketSize);
      assert [current, last][1] == last;
    } else {
      AtLeastOnce(pieces, bucketSize);
      assert c.meta.chunkSize == bucketSize;
      assert chunks == [c] + tail && chunks[1..] == tail;
      var next := EMPTY_BUCKET.Place(c);
      Distributes(pieces, 1, bucketSize);
      LastPieceShifts(w, to, pieces - 1, rest, item, next, bucketSize);
      var bs := Pack(tail, next, bucketSize);
      if current != EMPTY_BUCKET {
        assert Pack(chunks, current, bucketSize) == [current] + bs;
        var j :| 0 <= j < |bs| && !MetasAligned(bs[j].metas, bucketSize);
        assert ([current] + bs)[j + 1] == bs[j];
      }
    }
  }

  /** If items of d bytes fit the bucket and do not divide it, two weights suffice: one that is cut with a
      last piece of less than an item, and one of a single item. */
  lemma UnevenBucketsMisalign(bucketSize: nat, d: pos) returns (ws: seq<Weight>)
    requires d <= bucketSize && !Divides(d, bucketSize)
    ensures OfItemSize(ws, d) && !PlacesAligned(PackWeights(ws, bucketSize), bucketSize)
  {
    var x, y, g, p, q := Euclid(d, bucketSize);
    CommonDivisor(d, bucketSize, g, p, q);
    if y == 0 {
      SmallerProduct(d, x, g);
      assert false;
    }
    var dtype := Dtype("", d);
    var cut, item := Blank("cut", x, dtype), Blank("item", 1, dtype);
    ws := [cut, item];
    TwoWeights(cut, item, bucketSize);
    BothOfItemSize(cut, item, d);
    LastPieceShifts(cut, 0, y, g, ChunkAt(item, 0, bucketSize), EMPTY_BUCKET, bucketSize);
  }

  lemma BothOfItemSize(a: Weight, b: Weight, d: pos)
    requires a.Valid() && b.Valid() && a.name != b.name && a.dtype.itemsize == d == b.dtype.itemsize
    ensures OfItemSize([a, b], d)
  {
  }

  lemma SmallerProduct(d: pos, x: nat, g: pos)
    requires x * d == g
    ensures d <= g
  {
    AtLeastOnce(x, d);
  }

  lemma CommonDivisor(d: pos, n: pos, g: pos, p: pos, q: pos)
    requires d == p * g && n == q * g && d <= n && !Divides(d, n)
    ensures g < d && g + d <= n && !Divides(d, g)
  {
    if p == 1 {
      QuotientIs(n, d, q, 0);
      assert false;
    }
    TimesGrows(2, p, g);
    if q <= p {
      TimesGrows(q, p, g);
      QuotientIs(n, d, 1, 0);
      assert false;
    }
    TimesGrows(p + 1, q, g);
    QuotientIs(g, d, 0, g);
  }

  /** Weights of one item size always come back aligned exactly if the bucket size is a multiple of the item
      size, or no item fits a bucket. */
  lemma OneItemSizeExactly(bucketSize: nat, d: pos)
    requires bucketSize > 0
    ensures (forall ws: seq<Weight> :: OfItemSize(ws, d) ==> PlacesAligned(PackWeights(ws, bucketSize), bucketSize))
       <==> Divides(d, bucketSize) || bucketSize < d
  {
    if Divides(d, bucketSize) {
      forall ws: seq<Weight> | OfItemSize(ws, d)
        ensures PlacesAligned(PackWeights(ws, bucketSize), bucketSize)
      {
        forall w | w in ws
          ensures Divides(w.dtype.itemsize, d) && Divides(d, |w.data|)
        {
          WholeItems(w.shape, w.dtype);
          QuotientIs(d, d, 1, 0);
        }
        UnitKeepsAlignment(ws, bucketSize, d);
      }
    } else if bucketSize < d {
      forall ws: seq<Weight> | OfItemSize(ws, d)
        ensures PlacesAligned(PackWeights(ws, bucketSize), bucketSize)
      {
        TinyBucketsAlign(ws, bucketSize, d);
        CopiedOnly(Split(ws, bucketSize), EMPTY_BUCKET, bucketSize);
      }
    } else {
      var ws := UnevenBucketsMisalign(bucketSize, d);
    }
  }

  // ---------------------------------------------------------------- weights of several item sizes

  /** A weight of three one-byte items followed by one of a two-byte item: the view of the second fails. */
  lemma OddWeightMisaligns(junk: nat -> byte)
    ensures var ws := [Blank("odd", 3, Dtype("uint8", 1)), Blank("half", 1, Dtype("bfloat16", 2))];
            && DistinctWeightNames(ws) && (forall w :: w in ws ==> w.Valid())
            && AllFit(PackWeights(ws, 8)) && AllSized(AllChunks(PackWeights(ws, 8)))
            && MergeRun(Idle, AllChunks(PackWeights(ws, 8)), 8, junk).error == Some(Misaligned)
  {
    var odd, half := Blank("odd", 3, Dtype("uint8", 1)), Blank("half", 1, Dtype("bfloat16", 2));
    var ws := [odd, half];
    TwoWeights(odd, half, 8);
    var a, b := ChunkAt(odd, 0, 8), ChunkAt(half, 0, 8);
    assert SplitWeight(odd, 0, 8) == [a] + SplitWeight(odd, 3, 8);
    var bucket := EMPTY_BUCKET.Place(a).Place(b);
    assert [a, b][1..] == [b] && Pack([b], EMPTY_BUCKET.Place(a), 8) == [bucket];
    assert PackWeights(ws, 8) == [bucket];
    assert !Aligned(bucket.metas[1], 8);
    PackedWeightsComeBack(ws, 8, junk);
  }
}
