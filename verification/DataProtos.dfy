/** A batch: tensor columns and non-tensor columns over the same rows.

    Every operation works column by column, on tensors and on arrays; it is proved to be the same operation
    on the sequence of rows. */
module DataProtos {
  import opened Options
  import opened RowOps
  import opened Division

  /** `size` is the number of rows; a batch may have no tensor part. */
  datatype DataProto<V> = DataProto(size: nat, tensors: Option<map<string, seq<V>>>, nonTensors: map<string, seq<V>>) {
    ghost predicate Valid() {
      && (tensors.Some? ==> forall k :: k in tensors.value ==> |tensors.value[k]| == size)
      && (forall k :: k in nonTensors ==> |nonTensors[k]| == size)
      && (tensors == None && nonTensors == map[] ==> size == 0)
    }
  }

  datatype Row<V> = Row(tensors: Option<map<string, V>>, nonTensors: map<string, V>)

  ghost function RowAt<V>(d: DataProto<V>, i: nat): Row<V>
    requires d.Valid() && i < d.size
  {
    Row(if d.tensors.Some? then Some(map k | k in d.tensors.value :: d.tensors.value[k][i]) else None,
        map k | k in d.nonTensors :: d.nonTensors[k][i])
  }

  ghost function Rows<V>(d: DataProto<V>): (r: seq<Row<V>>)
    requires d.Valid()
    ensures |r| == d.size && forall i :: 0 <= i < |r| ==> r[i] == RowAt(d, i)
  {
    seq(d.size, i requires 0 <= i < d.size && d.Valid() => RowAt(d, i))
  }

  /** The same columns, in the same parts. */
  ghost predicate SameColumns<V>(a: DataProto<V>, b: DataProto<V>) {
    && a.tensors.Some? == b.tensors.Some? && (a.tensors.Some? ==> a.tensors.value.Keys == b.tensors.value.Keys)
    && a.nonTensors.Keys == b.nonTensors.Keys
  }

  /** Every column of r holds the rows `idx` of d. */
  ghost predicate Gathers<V>(d: DataProto<V>, idx: seq<nat>, r: DataProto<V>)
    requires d.Valid()
  {
    && InRange(idx, d.size) && r.size == |idx| && SameColumns(d, r)
    && (d.tensors.Some? ==> forall k :: k in d.tensors.value ==> r.tensors.value[k] == Take(d.tensors.value[k], idx))
    && (forall k :: k in d.nonTensors ==> r.nonTensors[k] == Take(d.nonTensors[k], idx))
  }

  /** One row map on every column is that row map on the rows. */
  lemma GatheredRows<V>(d: DataProto<V>, idx: seq<nat>, r: DataProto<V>)
    requires d.Valid() && Gathers(d, idx, r)
    ensures r.Valid() && Rows(r) == Take(Rows(d), idx)
  {
    if idx != [] { assert idx[0] < d.size; }
    assert r.Valid();
    forall j | 0 <= j < |idx|
      ensures RowAt(r, j) == RowAt(d, idx[j])
    {
      if d.tensors.Some? {
        assert RowAt(r, j).tensors.value == RowAt(d, idx[j]).tensors.value;
      }
      assert RowAt(r, j).nonTensors == RowAt(d, idx[j]).nonTensors;
    }
  }

  // ---------------------------------------------------------------- slice, select, repeat

  function SliceRows<V>(d: DataProto<V>, start: int, stop: int): DataProto<V> {
    DataProto(|Slice(Iota(d.size), start, stop)|,
              if d.tensors.Some?
              then Some(map k | k in d.tensors.value :: Slice(d.tensors.value[k], start, stop)) else None,
              map k | k in d.nonTensors :: Slice(d.nonTensors[k], start, stop))
  }

  lemma SliceIsSlice<V>(d: DataProto<V>, start: int, stop: int)
    requires d.Valid()
    ensures SliceRows(d, start, stop).Valid() && SameColumns(d, SliceRows(d, start, stop))
    ensures Rows(SliceRows(d, start, stop)) == Slice(Rows(d), start, stop)
    ensures TakesRange(Rows(d), FromStart(start, d.size), FromStart(stop, d.size), Rows(SliceRows(d, start, stop)))
  {
    SliceExactly(Rows(d), start, stop);
    var idx := Slice(Iota(d.size), start, stop);
    if d.tensors.Some? {
      forall k | k in d.tensors.value { SliceMoves(d.tensors.value[k], start, stop); }
    }
    forall k | k in d.nonTensors { SliceMoves(d.nonTensors[k], start, stop); }
    SliceMoves(Rows(d), start, stop);
    GatheredRows(d, idx, SliceRows(d, start, stop));
  }

  /** A slice with a step, which must not be 0; tensors do not take a negative one. */
  function StridedRows<V>(d: DataProto<V>, start: Option<int>, stop: Option<int>, step: int): Option<DataProto<V>> {
    if step == 0 || (step < 0 && d.tensors.Some?) then None
    else Some(DataProto(|Strided(Iota(d.size), start, stop, step)|,
      if d.tensors.Some?
      then Some(map k | k in d.tensors.value :: Strided(d.tensors.value[k], start, stop, step)) else None,
      map k | k in d.nonTensors :: Strided(d.nonTensors[k], start, stop, step)))
  }

  lemma StridedIsStrided<V>(d: DataProto<V>, start: Option<int>, stop: Option<int>, step: int)
    requires d.Valid()
    ensures StridedRows(d, start, stop, step).Some? <==> step > 0 || (step < 0 && d.tensors == None)
    ensures StridedRows(d, start, stop, step).Some? ==>
              var r := StridedRows(d, start, stop, step).value;
              r.Valid() && SameColumns(d, r) && Rows(r) == Strided(Rows(d), start, stop, step)
  {
    if StridedRows(d, start, stop, step).Some? {
      if d.tensors.Some? {
        forall k | k in d.tensors.value { StridedMoves(d.tensors.value[k], start, stop, step); }
      }
      forall k | k in d.nonTensors { StridedMoves(d.nonTensors[k], start, stop, step); }
      StridedMoves(Rows(d), start, stop, step);
      GatheredRows(d, Strided(Iota(d.size), start, stop, step), StridedRows(d, start, stop, step).value);
    }
  }

  /** A mask has to be as long as the columns. */
  function SelectMask<V>(d: DataProto<V>, mask: seq<bool>): Option<DataProto<V>>
    requires d.Valid()
  {
    if |mask| != d.size then None
    else Some(DataProto(|Masked(Iota(d.size), mask)|,
      if d.tensors.Some? then Some(map k | k in d.tensors.value :: Masked(d.tensors.value[k], mask)) else None,
      map k | k in d.nonTensors :: Masked(d.nonTensors[k], mask)))
  }

  lemma SelectMaskIsMasked<V>(d: DataProto<V>, mask: seq<bool>)
    requires d.Valid()
    ensures SelectMask(d, mask).Some? <==> |mask| == |Rows(d)|
    ensures |mask| == |Rows(d)| ==> var r := SelectMask(d, mask).value;
      r.Valid() && SameColumns(d, r) && Rows(r) == Masked(Rows(d), mask)
    ensures |mask| == |Rows(d)| ==> var r := SelectMask(d, mask).value;
      && |Rows(r)| == Trues(mask, |mask|)
      && forall i :: 0 <= i < |mask| && mask[i] ==> Trues(mask, i) < |Rows(r)| && Rows(r)[Trues(mask, i)] == Rows(d)[i]
  {
    if |mask| == d.size {
      if d.tensors.Some? {
        forall k | k in d.tensors.value { MaskedMoves(d.tensors.value[k], mask); }
      }
      forall k | k in d.nonTensors { MaskedMoves(d.nonTensors[k], mask); }
      MaskedMoves(Rows(d), mask);
      MaskedExactly(Rows(d), mask);
      GatheredRows(d, Masked(Iota(d.size), mask), SelectMask(d, mask).value);
    }
  }

  /** An index may count from the end; out of range is an error. */
  predicate IndexOk(i: int, n: nat) {
    0 <= i + n && i < n
  }

  predicate IndicesOk(indices: seq<int>, n: nat) {
    forall j :: 0 <= j < |indices| ==> IndexOk(indices[j], n)
  }

  function Resolved(indices: seq<int>, n: nat): (r: seq<nat>)
    requires IndicesOk(indices, n)
    ensures InRange(r, n) && |r| == |indices|
  {
    seq(|indices|, j requires 0 <= j < |indices| && IndicesOk(indices, n) =>
      if indices[j] < 0 then indices[j] + n else indices[j])
  }

  function Gather<T>(s: seq<T>, indices: seq<int>): seq<T>
    requires IndicesOk(indices, |s|)
  {
    Take(s, Resolved(indices, |s|))
  }

  function SelectIdxs<V>(d: DataProto<V>, indices: seq<int>): Option<DataProto<V>>
    requires d.Valid()
  {
    if IndicesOk(indices, d.size) then
      Some(DataProto(|indices|,
        if d.tensors.Some? then Some(map k | k in d.tensors.value :: Gather(d.tensors.value[k], indices)) else None,
        map k | k in d.nonTensors :: Gather(d.nonTensors[k], indices)))
    else None
  }

  lemma SelectIsGather<V>(d: DataProto<V>, indices: seq<int>)
    requires d.Valid()
    ensures SelectIdxs(d, indices).Some? <==> IndicesOk(indices, |Rows(d)|)
    ensures SelectIdxs(d, indices).Some? <==> forall j :: 0 <= j < |indices| ==> -|Rows(d)| <= indices[j] < |Rows(d)|
    ensures SelectIdxs(d, indices).Some? ==> var r := SelectIdxs(d, indices).value;
      r.Valid() && SameColumns(d, r) && Rows(r) == Gather(Rows(d), indices)
    ensures SelectIdxs(d, indices).Some? ==> var rows, r := Rows(d), Rows(SelectIdxs(d, indices).value);
      && |r| == |indices|
      && forall j :: 0 <= j < |indices| ==> r[j] == rows[if indices[j] < 0 then indices[j] + |rows| else indices[j]]
  {
    if IndicesOk(indices, d.size) {
      GatheredRows(d, Resolved(indices, d.size), SelectIdxs(d, indices).value);
    }
  }

  function RepeatColumn<T>(s: seq<T>, times: nat, interleave: bool): seq<T> {
    if interleave then RepeatEach(s, times) else Tile(s, times)
  }

  function Repeat<V>(d: DataProto<V>, times: nat, interleave: bool): DataProto<V> {
    DataProto(d.size * times,
              if d.tensors.Some?
              then Some(map k | k in d.tensors.value :: RepeatColumn(d.tensors.value[k], times, interleave)) else None,
              map k | k in d.nonTensors :: RepeatColumn(d.nonTensors[k], times, interleave))
  }

  lemma RepeatEachLength<T>(s: seq<T>, times: nat)
    ensures |RepeatEach(s, times)| == |s| * times
  {
    RepeatByLength(s, Copies(times, |s|));
    BeforeCopies(times, |s|, |s|);
  }

  /** Repeating the columns, each in its own library's way, repeats the rows: in place, or as a whole. */
  lemma RepeatIsRepeat<V>(d: DataProto<V>, times: nat, interleave: bool)
    requires d.Valid()
    ensures Repeat(d, times, interleave).Valid() && SameColumns(d, Repeat(d, times, interleave))
    ensures Rows(Repeat(d, times, interleave)) == RepeatColumn(Rows(d), times, interleave)
  {
    if interleave { InterleaveIsRepeatEach(d, times); } else { StackIsTile(d, times); }
  }

  lemma InterleaveIsRepeatEach<V>(d: DataProto<V>, times: nat)
    requires d.Valid()
    ensures Repeat(d, times, true).Valid() && SameColumns(d, Repeat(d, times, true))
    ensures Rows(Repeat(d, times, true)) == RepeatEach(Rows(d), times)
  {
    if d.tensors.Some? {
      forall k | k in d.tensors.value { RepeatEachMoves(d.tensors.value[k], times); }
    }
    forall k | k in d.nonTensors { RepeatEachMoves(d.nonTensors[k], times); }
    RepeatEachMoves(Rows(d), times);
    RepeatEachLength(Iota(d.size), times);
    GatheredRows(d, RepeatEach(Iota(d.size), times), Repeat(d, times, true));
  }

  lemma StackIsTile<V>(d: DataProto<V>, times: nat)
    requires d.Valid()
    ensures Repeat(d, times, false).Valid() && SameColumns(d, Repeat(d, times, false))
    ensures Rows(Repeat(d, times, false)) == Tile(Rows(d), times)
  {
    if d.tensors.Some? {
      forall k | k in d.tensors.value { TileMoves(d.tensors.value[k], times); }
    }
    forall k | k in d.nonTensors { TileMoves(d.nonTensors[k], times); }
    TileMoves(Rows(d), times);
    TileLength(Iota(d.size), times);
    GatheredRows(d, Tile(Iota(d.size), times), Repeat(d, times, false));
  }

  /** A single number of copies is taken for all of n rows. */
  function ForEach(times: seq<nat>, n: nat): seq<nat> {
    if |times| == 1 then Copies(times[0], n) else times
  }

  predicate HasColumn<V>(d: DataProto<V>) {
    d.nonTensors != map[] || (d.tensors.Some? && d.tensors.value != map[])
  }

  /** Every column needs a number of copies for each row, and the tensor part is declared to have as many rows
      as the numbers given add up to; a list of no numbers is not one of whole numbers. */
  function SampleLevelRepeat<V>(d: DataProto<V>, times: seq<nat>): Option<DataProto<V>>
    requires d.Valid()
  {
    var each := ForEach(times, d.size);
    if times == [] && (d.tensors.Some? || HasColumn(d)) then None
    else if !HasColumn(d) then
      Some(DataProto(if d.tensors.Some? then Before(times, |times|) else 0, d.tensors, d.nonTensors))
    else if |each| != d.size || (d.tensors.Some? && Before(each, d.size) != Before(times, |times|)) then None
    else Some(Repeated(d, each))
  }

  function Repeated<V>(d: DataProto<V>, each: seq<nat>): DataProto<V>
    requires d.Valid() && |each| == d.size
  {
    DataProto(Before(each, d.size),
              if d.tensors.Some?
              then Some(map k | k in d.tensors.value :: RepeatBy(d.tensors.value[k], each)) else None,
              map k | k in d.nonTensors :: RepeatBy(d.nonTensors[k], each))
  }

  /** When the declared number of rows is right. */
  lemma DeclaredRows(times: seq<nat>, n: nat)
    ensures |ForEach(times, n)| == n <==> |times| == n || |times| == 1
    ensures |times| == n ==> ForEach(times, n) == times
    ensures |times| == 1 && n != 1 ==> (Before(ForEach(times, n), n) == Before(times, |times|) <==> times[0] == 0)
  {
    if |times| == 1 {
      var t := times[0];
      BeforeCopies(t, n, n);
      assert Before(times, 1) == Before(times, 0) + t;
      if n > 1 && t > 0 {
        TimesGrows(2, n, t);
      }
    }
  }

  /** Accepted are a number for every row, of which there must be one, or a single number: without tensors for
      any number of rows, with tensors only if it is 0.  Then every row is repeated, in place. */
  lemma SampleLevelRepeatIsRepeatBy<V>(d: DataProto<V>, times: seq<nat>)
    requires d.Valid()
    ensures HasColumn(d) ==> (SampleLevelRepeat(d, times).Some? <==>
              times != [] && (|times| == |Rows(d)| || (|times| == 1 && (d.tensors == None || times[0] == 0))))
    ensures d.nonTensors == map[] && d.tensors == None ==>
              SampleLevelRepeat(d, times) == Some(DataProto(0, None, map[]))
    ensures d.nonTensors == map[] && d.tensors == Some(map[]) ==>
              SampleLevelRepeat(d, times)
              == if times == [] then None else Some(DataProto(Before(times, |times|), Some(map[]), map[]))
    ensures SampleLevelRepeat(d, times).Some? && (HasColumn(d) || |times| == |Rows(d)|) ==>
              var r := SampleLevelRepeat(d, times).value;
              && r.Valid() && SameColumns(d, r) && |ForEach(times, d.size)| == |Rows(d)|
              && Rows(r) == RepeatBy(Rows(d), ForEach(times, d.size))
    ensures SampleLevelRepeat(d, times).Some? && HasColumn(d) && |times| == 1 ==>
              var r := SampleLevelRepeat(d, times).value; r.Valid() && Rows(r) == RepeatEach(Rows(d), times[0])
  {
    DeclaredRows(times, d.size);
    var each := ForEach(times, d.size);
    if SampleLevelRepeat(d, times).Some? && (HasColumn(d) || |times| == d.size) {
      RepeatedRows(d, each);
      if !HasColumn(d) { assert SampleLevelRepeat(d, times).value == Repeated(d, each); }
    }
  }

  lemma RepeatedRows<V>(d: DataProto<V>, each: seq<nat>)
    requires d.Valid() && |each| == d.size
    ensures Repeated(d, each).Valid() && SameColumns(d, Repeated(d, each))
    ensures Rows(Repeated(d, each)) == RepeatBy(Rows(d), each)
  {
    if d.tensors.Some? {
      forall k | k in d.tensors.value { RepeatByMoves(d.tensors.value[k], each); }
    }
    forall k | k in d.nonTensors { RepeatByMoves(d.nonTensors[k], each); }
    RepeatByMoves(Rows(d), each);
    RepeatByLength(Iota(d.size), each);
    GatheredRows(d, RepeatBy(Iota(d.size), each), Repeated(d, each));
  }

  /** Row i is repeated times[i] times, in place. */
  lemma SampleLevelRepeatRow<V>(d: DataProto<V>, times: seq<nat>, i: nat, c: nat)
    requires d.Valid() && |times| == d.size && i < d.size && c < times[i]
    ensures SampleLevelRepeat(d, times).Some? && SampleLevelRepeat(d, times).value.Valid()
    ensures Before(times, i) + c < SampleLevelRepeat(d, times).value.size
    ensures Rows(SampleLevelRepeat(d, times).value)[Before(times, i) + c] == Rows(d)[i]
  {
    DeclaredRows(times, d.size);
    SampleLevelRepeatIsRepeatBy(d, times);
    RepeatByAt(Rows(d), times, i, c);
  }

  // ---------------------------------------------------------------- concat, chunk, split

  function TensorColumn<V>(ds: seq<DataProto<V>>, k: string): seq<V>
    requires forall d :: d in ds ==> d.tensors.Some? && k in d.tensors.value
  {
    if ds == [] then [] else ds[0].tensors.value[k] + TensorColumn(ds[1..], k)
  }

  function NonTensorColumn<V>(ds: seq<DataProto<V>>, k: string): seq<V>
    requires forall d :: d in ds ==> k in d.nonTensors
  {
    if ds == [] then [] else ds[0].nonTensors[k] + NonTensorColumn(ds[1..], k)
  }

  function TotalSize<V>(ds: seq<DataProto<V>>): nat {
    if ds == [] then 0 else ds[0].size + TotalSize(ds[1..])
  }

  ghost predicate Alike<V>(ds: seq<DataProto<V>>) {
    && (forall d :: d in ds ==> d.Valid())
    && (forall j :: 0 <= j < |ds| ==> SameColumns(ds[0], ds[j]))
  }

  /** Every column of all parts joined; nothing can be joined to nothing. */
  function Concat<V>(ds: seq<DataProto<V>>): Option<DataProto<V>>
    requires Alike(ds)
  {
    if ds == [] then None
    else Some(DataProto(TotalSize(ds),
      if ds[0].tensors.Some? then Some(map k | k in ds[0].tensors.value :: TensorColumn(ds, k)) else None,
      map k | k in ds[0].nonTensors :: NonTensorColumn(ds, k)))
  }

  ghost function AllRows<V>(ds: seq<DataProto<V>>): seq<Row<V>>
    requires forall d :: d in ds ==> d.Valid()
  {
    if ds == [] then [] else Rows(ds[0]) + AllRows(ds[1..])
  }

  lemma {:induction false} TensorColumnLength<V>(ds: seq<DataProto<V>>, k: string)
    requires forall d :: d in ds ==> d.Valid() && d.tensors.Some? && k in d.tensors.value
    ensures |TensorColumn(ds, k)| == TotalSize(ds)
  {
    if ds != [] { TensorColumnLength(ds[1..], k); }
  }

  lemma {:induction false} NonTensorColumnLength<V>(ds: seq<DataProto<V>>, k: string)
    requires forall d :: d in ds ==> d.Valid() && k in d.nonTensors
    ensures |NonTensorColumn(ds, k)| == TotalSize(ds)
  {
    if ds != [] { NonTensorColumnLength(ds[1..], k); }
  }

  lemma ConcatValid<V>(ds: seq<DataProto<V>>)
    requires Alike(ds) && ds != []
    ensures Concat(ds).value.Valid() && SameColumns(ds[0], Concat(ds).value)
  {
    if ds[0].tensors.Some? {
      forall k | k in ds[0].tensors.value { TensorColumnLength(ds, k); }
    }
    forall k | k in ds[0].nonTensors { NonTensorColumnLength(ds, k); }
    if ds[0].tensors == None && ds[0].nonTensors == map[] { NoColumnsNoRows(ds); }
  }

  lemma {:induction false} NoColumnsNoRows<V>(ds: seq<DataProto<V>>)
    requires forall d :: d in ds ==> d.size == 0
    ensures TotalSize(ds) == 0
  {
    if ds != [] { NoColumnsNoRows(ds[1..]); }
  }

  /** The rows of a joined batch are the rows of its parts, one part after the other. */
  lemma {:induction false} ConcatIsConcat<V>(ds: seq<DataProto<V>>)
    requires Alike(ds)
    ensures Concat(ds).Some? <==> ds != []
    ensures ds != [] ==>
        Concat(ds).value.Valid() && SameColumns(ds[0], Concat(ds).value) && Rows(Concat(ds).value) == AllRows(ds)
  {
    if |ds| == 1 {
      ConcatValid(ds);
      ConcatOne(ds[0]);
      assert ds == [ds[0]];
    } else if ds != [] {
      ConcatValid(ds);
      var rest := ds[1..];
      assert SameColumns(ds[0], ds[1]) && rest[0] == ds[1];
      ConcatIsConcat(rest);
      JoinRows(ds[0], Concat(rest).value, Concat(ds).value);
    }
  }

  lemma ConcatOne<V>(d: DataProto<V>)
    requires d.Valid()
    ensures Alike([d]) && Concat([d]).value == d && AllRows([d]) == Rows(d)
  {
    var r := Concat([d]).value;
    assert [d][1..] == [];
    if d.tensors.Some? {
      assert forall k :: k in d.tensors.value ==> TensorColumn([d], k) == d.tensors.value[k];
      assert r.tensors.value == d.tensors.value;
    }
    assert forall k :: k in d.nonTensors ==> NonTensorColumn([d], k) == d.nonTensors[k];
    assert r.nonTensors == d.nonTensors;
    assert TotalSize([d]) == d.size;
    assert r.tensors == d.tensors;
  }

  /** Row i of r is row j of a part. */
  lemma JoinedRow<V>(part: DataProto<V>, j: nat, r: DataProto<V>, i: nat)
    requires part.Valid() && r.Valid() && SameColumns(part, r) && j < part.size && i < r.size
    requires r.tensors.Some? ==> forall k :: k in r.tensors.value ==> r.tensors.value[k][i] == part.tensors.value[k][j]
    requires forall k :: k in r.nonTensors ==> r.nonTensors[k][i] == part.nonTensors[k][j]
    ensures RowAt(r, i) == RowAt(part, j)
  {
    if r.tensors.Some? { assert RowAt(r, i).tensors.value == RowAt(part, j).tensors.value; }
    assert RowAt(r, i).nonTensors == RowAt(part, j).nonTensors;
  }

  lemma JoinRows<V>(a: DataProto<V>, b: DataProto<V>, r: DataProto<V>)
    requires a.Valid() && b.Valid() && r.Valid() && SameColumns(a, b) && SameColumns(a, r) && r.size == a.size + b.size
    requires r.tensors.Some? ==>
               forall k :: k in r.tensors.value ==> r.tensors.value[k] == a.tensors.value[k] + b.tensors.value[k]
    requires forall k :: k in r.nonTensors ==> r.nonTensors[k] == a.nonTensors[k] + b.nonTensors[k]
    ensures Rows(r) == Rows(a) + Rows(b)
  {
    forall i | 0 <= i < a.size
      ensures Rows(r)[i] == Rows(a)[i]
    {
      JoinedRow(a, i, r, i);
    }
    forall j | 0 <= j < b.size
      ensures Rows(r)[a.size + j] == Rows(b)[j]
    {
      JoinedRow(b, j, r, a.size + j);
    }
    SplitAt(Rows(r), Rows(a), Rows(b));
  }

  lemma SplitAt<T>(r: seq<T>, a: seq<T>, b: seq<T>)
    requires |r| == |a| + |b|
    requires forall i :: 0 <= i < |a| ==> r[i] == a[i]
    requires forall j :: 0 <= j < |b| ==> r[|a| + j] == b[j]
    ensures r == a + b
  {
    forall i | |a| <= i < |r|
      ensures r[i] == (a + b)[i]
    {
      assert r[|a| + (i - |a|)] == b[i - |a|];
    }
  }

  /** The i-th boundary between parts of equal size. */
  function Boundary(size: nat, i: nat): nat {
    if i == 0 then 0 else Boundary(size, i - 1) + size
  }

  function Part<V>(d: DataProto<V>, size: nat, i: nat): DataProto<V> {
    SliceRows(d, Boundary(size, i), Boundary(size, i + 1))
  }

  function Parts<V>(d: DataProto<V>, size: nat, n: nat): (r: seq<DataProto<V>>)
    ensures |r| == n && forall i :: 0 <= i < n ==> r[i] == Part(d, size, i)
  {
    seq(n, i requires 0 <= i => Part(d, size, i))
  }

  /** Parts of equal size; a batch that does not divide evenly is an error. */
  function Chunk<V>(d: DataProto<V>, chunks: nat): Option<seq<DataProto<V>>> {
    if chunks == 0 || d.size % chunks != 0 then None
    else Some(Parts(d, d.size / chunks, chunks))
  }

  lemma {:induction false} BoundaryIs(size: nat, i: nat)
    ensures Boundary(size, i) == i * size
  {
    if i > 0 { BoundaryIs(size, i - 1); }
  }

  lemma {:induction false} BoundaryGrows(size: nat, i: nat, j: nat)
    requires i <= j
    ensures Boundary(size, i) <= Boundary(size, j)
  {
    if i < j { BoundaryGrows(size, i, j - 1); }
  }

  lemma PartRows<V>(d: DataProto<V>, size: nat, i: nat)
    requires d.Valid() && Boundary(size, i + 1) <= d.size
    ensures Part(d, size, i).Valid() && SameColumns(d, Part(d, size, i)) && Part(d, size, i).size == size
    ensures Rows(Part(d, size, i)) == Rows(d)[Boundary(size, i)..Boundary(size, i + 1)]
  {
    SliceIsSlice(d, Boundary(size, i), Boundary(size, i + 1));
  }

  lemma {:induction false} AllRowsAppend<V>(ds: seq<DataProto<V>>, d: DataProto<V>)
    requires d.Valid() && forall x :: x in ds ==> x.Valid()
    ensures AllRows(ds + [d]) == AllRows(ds) + Rows(d)
  {
    if ds == [] {
      assert ds + [d] == [d];
    } else {
      AllRowsAppend(ds[1..], d);
      assert (ds + [d])[1..] == ds[1..] + [d];
    }
  }

  lemma PartsAlike<V>(d: DataProto<V>, size: nat, n: nat)
    requires d.Valid() && Boundary(size, n) <= d.size
    ensures Alike(Parts(d, size, n))
    ensures forall i :: 0 <= i < n ==>
        Part(d, size, i).Valid() && SameColumns(d, Part(d, size, i)) && Part(d, size, i).size == size
  {
    forall i | 0 <= i < n
      ensures Part(d, size, i).Valid() && SameColumns(d, Part(d, size, i)) && Part(d, size, i).size == size
    {
      BoundaryGrows(size, i + 1, n);
      PartRows(d, size, i);
    }
  }

  lemma PrefixGrows<T>(s: seq<T>, a: nat, b: nat)
    requires a <= b <= |s|
    ensures s[..a] + s[a..b] == s[..b]
  {
  }

  lemma OnePartMore<V>(d: DataProto<V>, size: nat, n: nat)
    ensures Parts(d, size, n + 1) == Parts(d, size, n) + [Part(d, size, n)]
  {
  }

  lemma {:induction false} PartsJoin<V>(d: DataProto<V>, size: nat, n: nat)
    requires d.Valid() && Boundary(size, n) <= d.size
    requires forall p :: p in Parts(d, size, n) ==> p.Valid()
    ensures AllRows(Parts(d, size, n)) == Rows(d)[..Boundary(size, n)]
  {
    if n > 0 {
      OnePartMore(d, size, n - 1);
      PartsJoin(d, size, n - 1);
      PartRows(d, size, n - 1);
      AllRowsAppend(Parts(d, size, n - 1), Part(d, size, n - 1));
      PrefixGrows(Rows(d), Boundary(size, n - 1), Boundary(size, n));
    }
  }

  /** A batch can be cut into equal parts exactly when it divides evenly; the parts have the same number of
      rows, and together they are the batch. */
  lemma ChunksJoin<V>(d: DataProto<V>, chunks: nat)
    requires d.Valid()
    ensures Chunk(d, chunks).Some? <==> chunks > 0 && d.size % chunks == 0
    ensures Chunk(d, chunks).Some? ==> var parts := Chunk(d, chunks).value;
      && |parts| == chunks && Alike(parts) && AllRows(parts) == Rows(d)
      && (forall i :: 0 <= i < chunks ==> SameColumns(d, parts[i]) && parts[i].size == d.size / chunks)
  {
    if chunks > 0 && d.size % chunks == 0 {
      EvenBoundary(d.size, chunks);
      PartsAlike(d, d.size / chunks, chunks);
      PartsJoin(d, d.size / chunks, chunks);
      assert Rows(d)[..d.size] == Rows(d);
    }
  }

  lemma EvenBoundary(n: nat, chunks: nat)
    requires chunks > 0 && n % chunks == 0
    ensures Boundary(n / chunks, chunks) == n
  {
    BoundaryIs(n / chunks, chunks);
  }
}
