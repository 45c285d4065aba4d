/** Padding a batch to a multiple of the number of workers, handing out equal parts, and taking the padding off
    again; and the two operations that change a batch in place. */
module Padding {
  import opened Options
  import opened Division
  import opened RowOps
  import opened DataProtos

  function PadSize(n: nat, divisor: nat): (r: nat)
    requires divisor > 0
    ensures r < divisor && (n + r) % divisor == 0
  {
    if n % divisor == 0 then 0
    else
      PadSizeDivides(n, divisor);
      divisor - n % divisor
  }

  lemma PadSizeDivides(n: nat, divisor: nat)
    requires divisor > 0
    ensures (n + (divisor - n % divisor)) % divisor == 0
  {
    Distributes(n / divisor, -1, divisor);
    QuotientIs(n + (divisor - n % divisor), divisor, n / divisor + 1, 0);
  }

  /** The sequence over and over again, up to length m. */
  function Cyclic<T>(s: seq<T>, m: nat): (r: seq<T>)
    requires s == [] ==> m == 0
    ensures |r| == m
  {
    if m <= |s| then s[..m] else s + Cyclic(s, m - |s|)
  }

  /** Row j of the cyclic repetition is row j mod n. */
  lemma {:induction false} CyclicAt<T>(s: seq<T>, m: nat, j: nat)
    requires j < m && s != []
    ensures Cyclic(s, m)[j] == s[j % |s|]
  {
    if j < |s| {
      QuotientIs(j, |s|, 0, j);
    } else {
      CyclicAt(s, m - |s|, j - |s|);
      ModStep(j, |s|);
    }
  }

  predicate Whole(m: nat, n: nat) {
    m == 0 || (0 < n <= m && Whole(m - n, n))
  }

  lemma {:induction false} CyclicExtends<T>(s: seq<T>, m: nat, take: nat)
    requires s != [] && Whole(m, |s|) && take <= |s|
    ensures Cyclic(s, m) + s[..take] == Cyclic(s, m + take)
  {
    if m > 0 {
      CyclicExtends(s, m - |s|, take);
      assert Cyclic(s, m) == s + Cyclic(s, m - |s|);
    }
  }

  lemma JoinSlice<V>(d: DataProto<V>, parts: seq<DataProto<V>>, m: nat, take: nat)
    requires d.Valid() && Alike(parts) && parts != [] && parts[0] == d && take <= d.size && d.size > 0
    requires AllRows(parts) == Cyclic(Rows(d), m) && Whole(m, d.size)
    ensures Alike(parts + [SliceRows(d, 0, take)])
    ensures AllRows(parts + [SliceRows(d, 0, take)]) == Cyclic(Rows(d), m + take)
  {
    SliceIsSlice(d, 0, take);
    AllRowsAppend(parts, SliceRows(d, 0, take));
    CyclicExtends(Rows(d), m, take);
  }

  lemma JustOne<V>(d: DataProto<V>)
    requires d.Valid()
    ensures Alike([d]) && AllRows([d]) == Rows(d)
  {
    ConcatOne(d);
  }

  /** Appends slices of the batch until padSize rows are added. */
  method AppendSlices<V>(d: DataProto<V>, padSize: nat) returns (padded: DataProto<V>)
    requires d.Valid() && d.size > 0
    ensures padded.Valid() && SameColumns(d, padded) && Rows(padded) == Cyclic(Rows(d), d.size + padSize)
  {
    var parts := [d];
    var remaining := padSize;
    JustOne(d);
    while remaining > 0
      invariant 0 <= remaining <= padSize && Alike(parts) && parts != [] && parts[0] == d
      invariant AllRows(parts) == Cyclic(Rows(d), d.size + padSize - remaining)
      invariant remaining > 0 ==> Whole(d.size + padSize - remaining, d.size)
    {
      var takeSize := if remaining < d.size then remaining else d.size;
      JoinSlice(d, parts, d.size + padSize - remaining, takeSize);
      parts := parts + [SliceRows(d, 0, takeSize)];
      remaining := remaining - takeSize;
    }
    ConcatIsConcat(parts);
    padded := Concat(parts).value;
  }

  /** Pads to the next multiple of the divisor, by going over the rows again and again; there is no multiple
      of zero. */
  method PadToDivisor<V>(d: DataProto<V>, divisor: nat) returns (r: Option<(DataProto<V>, nat)>)
    requires d.Valid()
    ensures r == None <==> divisor == 0
    ensures r.Some? ==> var (padded, padSize) := r.value;
      && padSize == PadSize(d.size, divisor) && padded.Valid() && SameColumns(d, padded)
      && padded.size == d.size + padSize && Rows(padded) == Cyclic(Rows(d), d.size + padSize)
  {
    if divisor == 0 { return None; }
    if d.size % divisor == 0 { return Some((d, 0)); }
    var padSize := divisor - d.size % divisor;
    var padded := AppendSlices(d, padSize);
    assert |Rows(padded)| == padded.size;
    return Some((padded, padSize));
  }

  function Unpad<V>(d: DataProto<V>, padSize: nat): DataProto<V> {
    if padSize != 0 then SliceRows(d, 0, 0 - padSize) else d
  }

  lemma UnpadRows<V>(d: DataProto<V>, padSize: nat)
    requires d.Valid() && padSize <= d.size
    ensures Unpad(d, padSize).Valid() && Rows(Unpad(d, padSize)) == Rows(d)[..d.size - padSize]
  {
    if padSize != 0 { SliceIsSlice(d, 0, 0 - padSize); }
  }

  // ---------------------------------------------------------------- workers on padded parts

  function MapRows<V, W>(f: Row<V> -> Row<W>, rows: seq<Row<V>>): (r: seq<Row<W>>)
    ensures |r| == |rows| && forall i :: 0 <= i < |r| ==> r[i] == f(rows[i])
  {
    seq(|rows|, i requires 0 <= i < |rows| => f(rows[i]))
  }

  /** Every worker's result is the row map of its part. */
  ghost predicate WorkedOn<V, W>(f: Row<V> -> Row<W>, parts: seq<DataProto<V>>, results: seq<DataProto<W>>)
    requires forall p :: p in parts ==> p.Valid()
    requires forall r :: r in results ==> r.Valid()
  {
    |results| == |parts| && forall i :: 0 <= i < |parts| ==> Rows(results[i]) == MapRows(f, Rows(parts[i]))
  }

  lemma {:induction false} WorkedRows<V, W>(f: Row<V> -> Row<W>, parts: seq<DataProto<V>>, results: seq<DataProto<W>>)
    requires (forall p :: p in parts ==> p.Valid()) && (forall r :: r in results ==> r.Valid())
    requires WorkedOn(f, parts, results)
    ensures AllRows(results) == MapRows(f, AllRows(parts))
  {
    if parts != [] {
      WorkedRows(f, parts[1..], results[1..]);
      MapJoin(f, Rows(parts[0]), AllRows(parts[1..]));
    }
  }

  lemma MapJoin<V, W>(f: Row<V> -> Row<W>, a: seq<Row<V>>, b: seq<Row<V>>)
    ensures MapRows(f, a + b) == MapRows(f, a) + MapRows(f, b)
  {
  }

  lemma MapPrefix<V, W>(f: Row<V> -> Row<W>, rows: seq<Row<V>>, m: nat)
    requires m <= |rows|
    ensures MapRows(f, rows[..m]) == MapRows(f, rows)[..m]
  {
  }

  lemma CyclicPrefix<T>(s: seq<T>, m: nat)
    requires |s| <= m && (s == [] ==> m == 0)
    ensures Cyclic(s, m)[..|s|] == s
  {
  }

  /** Pad, hand out equal parts, let every worker map its rows, join, unpad: the rows of the batch are mapped,
      each once and in order, for any batch and any number of workers. */
  lemma PaddedWorkIsTheRowMap<V, W>(d: DataProto<V>, padded: DataProto<V>, workers: nat, f: Row<V> -> Row<W>,
                                    results: seq<DataProto<W>>)
    requires d.Valid() && padded.Valid() && workers > 0 && (d.size == 0 ==> padded.size == 0)
    requires padded.size == d.size + PadSize(d.size, workers) && Rows(padded) == Cyclic(Rows(d), padded.size)
    requires Alike(results)
    requires Chunk(padded, workers).Some? && Alike(Chunk(padded, workers).value) ==>
        WorkedOn(f, Chunk(padded, workers).value, results)
    ensures Chunk(padded, workers).Some? && Concat(results).Some? && Concat(results).value.Valid()
    ensures var joined := Unpad(Concat(results).value, PadSize(d.size, workers));
      joined.Valid() && Rows(joined) == MapRows(f, Rows(d))
  {
    ChunksJoin(padded, workers);
    var parts := Chunk(padded, workers).value;
    WorkedRows(f, parts, results);
    ConcatIsConcat(results);
    var all := Concat(results).value;
    assert |Rows(all)| == |Rows(padded)|;
    UnpadRows(all, PadSize(d.size, workers));
    MapPrefix(f, Rows(padded), d.size);
    CyclicPrefix(Rows(d), padded.size);
  }

  // ---------------------------------------------------------------- in place

  /** A batch that is reordered and padded in place. */
  class Batch<V> {
    var data: DataProto<V>

    ghost predicate Valid()
      reads this
    {
      data.Valid()
    }

    constructor (data: DataProto<V>)
      requires data.Valid()
      ensures Valid() && this.data == data
    {
      this.data := data;
    }

    /** Fails, and changes nothing, without a tensor part or for an index out of range. */
    method Reorder(indices: seq<int>) returns (ok: bool)
      requires Valid()
      modifies this
      ensures Valid()
      ensures ok <==> old(data).tensors.Some? && IndicesOk(indices, old(data).size)
      ensures if ok then Rows(data) == Gather(Rows(old(data)), indices) && SameColumns(old(data), data)
              else data == old(data)
    {
      SelectIsGather(data, indices);
      ok := data.tensors.Some? && SelectIdxs(data, indices).Some?;
      if ok { data := SelectIdxs(data, indices).value; }
    }

    /** Appends copies of the first or the last row; fails, and changes nothing, if there is no row. */
    method Pad(paddingSize: nat, first: bool) returns (ok: bool)
      requires Valid()
      modifies this
      ensures Valid() && SameColumns(old(data), data)
      ensures ok <==> paddingSize == 0 || old(data).size > 0
      ensures if ok && paddingSize > 0 then
                var at := if first then 0 else old(data).size - 1;
                Rows(data) == Rows(old(data)) + Copies(Rows(old(data))[at], paddingSize)
              else data == old(data)
    {
      if paddingSize == 0 { return true; }
      var at := if first then 0 else data.size - 1;
      SelectIsGather(data, [at]);
      var candidate := SelectIdxs(data, [at]);
      if candidate == None { return false; }
      var part := Repeat(candidate.value, paddingSize, true);
      RepeatIsRepeat(candidate.value, paddingSize, true);
      RepeatOne(Rows(data)[at], paddingSize);
      assert Gather(Rows(data), [at]) == [Rows(data)[at]];
      JoinTwo(data, part);
      data := Concat([data, part]).value;
      return true;
    }
  }

  lemma RepeatOne<T>(x: T, times: nat)
    ensures RepeatEach([x], times) == Copies(x, times)
  {
    assert RepeatBy([x], Copies(times, 1)) == Copies(x, times) + RepeatBy([x][1..], Copies(times, 1)[1..]);
  }

  lemma JoinTwo<V>(a: DataProto<V>, b: DataProto<V>)
    requires a.Valid() && b.Valid() && SameColumns(a, b)
    ensures Alike([a, b]) && Concat([a, b]).Some? && Concat([a, b]).value.Valid()
    ensures Rows(Concat([a, b]).value) == Rows(a) + Rows(b) && SameColumns(a, Concat([a, b]).value)
  {
    ConcatIsConcat([a, b]);
    assert [a, b][1..] == [b];
    JustOne(b);
  }

  /** Reordering by a permutation and then by its inverse gives back the batch. */
  lemma ReorderUndone<T>(s: seq<T>, p: seq<int>, q: seq<int>)
    requires |p| == |q| == |s| && (forall j :: 0 <= j < |s| ==> 0 <= p[j] < |s| && 0 <= q[j] < |s|)
    requires forall j :: 0 <= j < |s| ==> p[q[j]] == j
    ensures Gather(Gather(s, p), q) == s
  {
  }
}
