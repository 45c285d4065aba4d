/** Sequence operations that only move elements about: they commute with any relabelling of the elements, so
    they do the same to every column of a table and to the table's rows. */
module RowOps {
  import opened Options
  import opened Division

  predicate InRange(idx: seq<nat>, n: nat) {
    forall j :: 0 <= j < |idx| ==> idx[j] < n
  }

  function Take<T>(s: seq<T>, idx: seq<nat>): (r: seq<T>)
    requires InRange(idx, |s|)
    ensures |r| == |idx| && forall j :: 0 <= j < |r| ==> r[j] == s[idx[j]]
  {
    seq(|idx|, j requires 0 <= j < |idx| && InRange(idx, |s|) => s[idx[j]])
  }

  function Iota(n: nat): (r: seq<nat>)
    ensures |r| == n && InRange(r, n) && forall j :: 0 <= j < n ==> r[j] == j
  {
    seq(n, j requires 0 <= j => j)
  }

  lemma TakeIota<T>(s: seq<T>)
    ensures Take(s, Iota(|s|)) == s
  {
  }

  lemma Regroup<T>(a: seq<T>, b: seq<T>, c: seq<T>)
    ensures (a + b) + c == a + (b + c)
  {
  }

  // ---------------------------------------------------------------- slices

  /** A slice bound: negative bounds count from the end, and both ends are cut off. */
  function Bound(i: int, n: nat): (r: nat)
    ensures r <= n
  {
    if i < 0 then (if i + n < 0 then 0 else i + n) else if i > n then n else i
  }

  function Slice<T>(s: seq<T>, start: int, stop: int): seq<T> {
    var lo, hi := Bound(start, |s|), Bound(stop, |s|);
    if lo < hi then s[lo..hi] else []
  }

  /** A place counted from the end if it is negative. */
  function FromStart(i: int, n: nat): int {
    if i < 0 then i + n else i
  }

  /** The elements at the places from lo to before hi, as far as there are any, in order. */
  ghost predicate TakesRange<T>(s: seq<T>, lo: int, hi: int, r: seq<T>) {
    var from, to := if lo < 0 then 0 else lo, if hi > |s| then |s| else hi;
    |r| == (if from < to then to - from else 0) && forall j :: 0 <= j < |r| ==> r[j] == s[from + j]
  }

  lemma SliceExactly<T>(s: seq<T>, start: int, stop: int)
    ensures TakesRange(s, FromStart(start, |s|), FromStart(stop, |s|), Slice(s, start, stop))
  {
  }

  lemma RangeMoves<T>(s: seq<T>, lo: nat, hi: nat)
    requires lo <= hi <= |s|
    ensures InRange(Iota(|s|)[lo..hi], |s|) && s[lo..hi] == Take(s, Iota(|s|)[lo..hi])
  {
  }

  lemma SliceMoves<T>(s: seq<T>, start: int, stop: int)
    ensures InRange(Slice(Iota(|s|), start, stop), |s|)
    ensures Slice(s, start, stop) == Take(s, Slice(Iota(|s|), start, stop))
  {
    var lo, hi := Bound(start, |s|), Bound(stop, |s|);
    if lo < hi { RangeMoves(s, lo, hi); } else { assert Take(s, []) == []; }
  }

  /** Every step-th element, from the first on. */
  function Every<T>(s: seq<T>, step: nat): seq<T>
    requires step > 0
    decreases |s|
  {
    if s == [] then [] else [s[0]] + Every(if step < |s| then s[step..] else [], step)
  }

  lemma {:induction false} EveryAt<T>(s: seq<T>, step: nat, j: nat)
    requires step > 0
    ensures j < |Every(s, step)| <==> j * step < |s|
    ensures j * step < |s| ==> Every(s, step)[j] == s[j * step]
    decreases |s|
  {
    if j > 0 {
      Distributes(j, 1, step);
      TimesGrows(1, j, step);
      if step < |s| { EveryAt(s[step..], step, j - 1); }
    }
  }

  lemma {:induction false} EveryMovesFrom<T>(s: seq<T>, idx: seq<nat>, step: nat)
    requires step > 0 && InRange(idx, |s|)
    ensures InRange(Every(idx, step), |s|) && Every(Take(s, idx), step) == Take(s, Every(idx, step))
    decreases |idx|
  {
    if idx != [] {
      var rest := if step < |idx| then idx[step..] else [];
      EveryMovesFrom(s, rest, step);
      assert Take(s, rest) == if step < |idx| then Take(s, idx)[step..] else [];
    }
  }

  function Reversed<T>(s: seq<T>): (r: seq<T>)
    ensures |r| == |s| && forall j :: 0 <= j < |s| ==> r[j] == s[|s| - 1 - j]
  {
    seq(|s|, j requires 0 <= j < |s| => s[|s| - 1 - j])
  }

  /** A bound of a slice that runs downwards: before the first element is -1. */
  function DownBound(i: int, n: nat): (r: int)
    ensures -1 <= r < n
  {
    if i < 0 then (if i + n < 0 then -1 else i + n) else if i >= n then n - 1 else i
  }

  /** From `start` down to the element behind `stop`. */
  function Down<T>(s: seq<T>, start: Option<int>, stop: Option<int>): seq<T> {
    var hi := if start.Some? then DownBound(start.value, |s|) + 1 else |s|;
    var lo := if stop.Some? then DownBound(stop.value, |s|) + 1 else 0;
    Backwards(s, lo, hi)
  }

  function Backwards<T>(s: seq<T>, lo: nat, hi: nat): seq<T>
    requires hi <= |s|
  {
    if lo < hi then Reversed(s[lo..hi]) else []
  }

  lemma BackwardsMoves<T>(s: seq<T>, lo: nat, hi: nat)
    requires hi <= |s|
    ensures InRange(Backwards(Iota(|s|), lo, hi), |s|) && Backwards(s, lo, hi) == Take(s, Backwards(Iota(|s|), lo, hi))
  {
    if lo < hi {
      RangeMoves(s, lo, hi);
      ReversedMoves(s, Iota(|s|)[lo..hi]);
    }
  }

  lemma ReversedMoves<T>(s: seq<T>, idx: seq<nat>)
    requires InRange(idx, |s|)
    ensures InRange(Reversed(idx), |s|) && Reversed(Take(s, idx)) == Take(s, Reversed(idx))
  {
  }

  function Up<T>(s: seq<T>, start: Option<int>, stop: Option<int>): seq<T> {
    Slice(s, if start.Some? then start.value else 0, if stop.Some? then stop.value else |s|)
  }

  /** A slice with a step: upwards from `start` to before `stop`, or downwards. */
  function Strided<T>(s: seq<T>, start: Option<int>, stop: Option<int>, step: int): seq<T>
    requires step != 0
  {
    if step > 0 then Every(Up(s, start, stop), step) else Every(Down(s, start, stop), -step)
  }

  lemma DownMoves<T>(s: seq<T>, start: Option<int>, stop: Option<int>)
    ensures InRange(Down(Iota(|s|), start, stop), |s|)
    ensures Down(s, start, stop) == Take(s, Down(Iota(|s|), start, stop))
  {
    var hi := if start.Some? then DownBound(start.value, |s|) + 1 else |s|;
    var lo := if stop.Some? then DownBound(stop.value, |s|) + 1 else 0;
    BackwardsMoves(s, lo, hi);
  }

  /** Downwards: the places from the first one at or below the start to the one behind the stop, in reverse. */
  lemma DownExactly<T>(s: seq<T>, start: Option<int>, stop: Option<int>)
    ensures var hi := if start.Some? && FromStart(start.value, |s|) < |s| - 1 then FromStart(start.value, |s|)
                      else |s| - 1;
            var lo := if stop.Some? && FromStart(stop.value, |s|) >= 0 then FromStart(stop.value, |s|) else -1;
            && |Down(s, start, stop)| == (if lo < hi then hi - lo else 0)
            && forall j :: 0 <= j < |Down(s, start, stop)| ==> Down(s, start, stop)[j] == s[hi - j]
  {
  }

  lemma StridedMoves<T>(s: seq<T>, start: Option<int>, stop: Option<int>, step: int)
    requires step != 0
    ensures InRange(Strided(Iota(|s|), start, stop, step), |s|)
    ensures Strided(s, start, stop, step) == Take(s, Strided(Iota(|s|), start, stop, step))
  {
    if step > 0 {
      SliceMoves(s, if start.Some? then start.value else 0, if stop.Some? then stop.value else |s|);
      EveryMovesFrom(s, Up(Iota(|s|), start, stop), step);
    } else {
      DownMoves(s, start, stop);
      EveryMovesFrom(s, Down(Iota(|s|), start, stop), -step);
    }
  }

  /** The elements under a true. */
  function Masked<T>(s: seq<T>, mask: seq<bool>): seq<T>
    requires |mask| == |s|
  {
    if s == [] then [] else (if mask[0] then [s[0]] else []) + Masked(s[1..], mask[1..])
  }

  /** The trues among the first n. */
  function Trues(mask: seq<bool>, n: nat): (r: nat)
    requires n <= |mask|
    ensures r <= n
  {
    if n == 0 then 0 else Trues(mask, n - 1) + if mask[n - 1] then 1 else 0
  }

  lemma {:induction false} TruesShift(mask: seq<bool>, n: nat)
    requires 0 < n <= |mask|
    ensures Trues(mask, n) == (if mask[0] then 1 else 0) + Trues(mask[1..], n - 1)
  {
    if n > 1 { TruesShift(mask, n - 1); }
  }

  /** As many elements stay as there are trues, and one under a true goes behind those before it. */
  lemma {:induction false} MaskedExactly<T>(s: seq<T>, mask: seq<bool>)
    requires |mask| == |s|
    ensures |Masked(s, mask)| == Trues(mask, |mask|)
    ensures forall i :: 0 <= i < |s| && mask[i] ==>
              Trues(mask, i) < |Masked(s, mask)| && Masked(s, mask)[Trues(mask, i)] == s[i]
  {
    if s != [] {
      MaskedExactly(s[1..], mask[1..]);
      TruesShift(mask, |mask|);
      forall i | 0 <= i < |s| && mask[i]
        ensures Trues(mask, i) < |Masked(s, mask)| && Masked(s, mask)[Trues(mask, i)] == s[i]
      {
        if i > 0 {
          TruesShift(mask, i);
          assert mask[1..][i - 1] && s[1..][i - 1] == s[i];
        }
      }
    }
  }

  lemma {:induction false} MaskedMovesFrom<T>(s: seq<T>, idx: seq<nat>, mask: seq<bool>)
    requires InRange(idx, |s|) && |mask| == |idx|
    ensures InRange(Masked(idx, mask), |s|) && Masked(Take(s, idx), mask) == Take(s, Masked(idx, mask))
  {
    if idx != [] {
      assert Take(s, idx)[1..] == Take(s, idx[1..]);
      MaskedMovesFrom(s, idx[1..], mask[1..]);
    }
  }

  lemma MaskedMoves<T>(s: seq<T>, mask: seq<bool>)
    requires |mask| == |s|
    ensures InRange(Masked(Iota(|s|), mask), |s|) && Masked(s, mask) == Take(s, Masked(Iota(|s|), mask))
  {
    MaskedMovesFrom(s, Iota(|s|), mask);
    TakeIota(s);
  }

  // ---------------------------------------------------------------- repetition

  function Copies<T>(x: T, times: nat): (r: seq<T>)
    ensures |r| == times && forall j :: 0 <= j < times ==> r[j] == x
  {
    seq(times, _ => x)
  }

  /** Every element times[i] times, in place. */
  function RepeatBy<T>(s: seq<T>, times: seq<nat>): seq<T>
    requires |times| == |s|
  {
    if s == [] then [] else Copies(s[0], times[0]) + RepeatBy(s[1..], times[1..])
  }

  /** Every element `times` times, in place: repeat_interleave. */
  function RepeatEach<T>(s: seq<T>, times: nat): seq<T> {
    RepeatBy(s, Copies(times, |s|))
  }

  /** The whole sequence `times` times: tile. */
  function Tile<T>(s: seq<T>, times: nat): seq<T> {
    if times == 0 then [] else s + Tile(s, times - 1)
  }

  lemma {:induction false} RepeatByMovesFrom<T>(s: seq<T>, idx: seq<nat>, times: seq<nat>)
    requires InRange(idx, |s|) && |times| == |idx|
    ensures InRange(RepeatBy(idx, times), |s|) && RepeatBy(Take(s, idx), times) == Take(s, RepeatBy(idx, times))
  {
    if idx != [] {
      assert Take(s, idx)[1..] == Take(s, idx[1..]);
      RepeatByMovesFrom(s, idx[1..], times[1..]);
      assert Copies(Take(s, idx)[0], times[0]) == Take(s, Copies(idx[0], times[0]));
    }
  }

  lemma RepeatByMoves<T>(s: seq<T>, times: seq<nat>)
    requires |times| == |s|
    ensures InRange(RepeatBy(Iota(|s|), times), |s|) && RepeatBy(s, times) == Take(s, RepeatBy(Iota(|s|), times))
  {
    RepeatByMovesFrom(s, Iota(|s|), times);
    TakeIota(s);
  }

  lemma RepeatEachMoves<T>(s: seq<T>, times: nat)
    ensures InRange(RepeatEach(Iota(|s|), times), |s|) && RepeatEach(s, times) == Take(s, RepeatEach(Iota(|s|), times))
  {
    RepeatByMoves(s, Copies(times, |s|));
  }

  lemma TakeJoin<T>(s: seq<T>, a: seq<nat>, b: seq<nat>)
    requires InRange(a, |s|) && InRange(b, |s|)
    ensures InRange(a + b, |s|) && Take(s, a + b) == Take(s, a) + Take(s, b)
  {
  }

  lemma {:induction false} TileMoves<T>(s: seq<T>, times: nat)
    ensures InRange(Tile(Iota(|s|), times), |s|) && Tile(s, times) == Take(s, Tile(Iota(|s|), times))
  {
    if times > 0 {
      TileMoves(s, times - 1);
      TakeIota(s);
      TakeJoin(s, Iota(|s|), Tile(Iota(|s|), times - 1));
    }
  }

  /** Where the copies of element i start. */
  function Before(times: seq<nat>, i: nat): nat
    requires i <= |times|
  {
    if i == 0 then 0 else Before(times, i - 1) + times[i - 1]
  }

  lemma {:induction false} BeforeShifts(times: seq<nat>, i: nat)
    requires 0 < i <= |times|
    ensures Before(times, i) == times[0] + Before(times[1..], i - 1)
  {
    if i > 1 { BeforeShifts(times, i - 1); }
  }

  /** The copies of element i are the rows from Before(i) to Before(i + 1). */
  lemma {:induction false} RepeatByAt<T>(s: seq<T>, times: seq<nat>, i: nat, c: nat)
    requires |times| == |s| && i < |s| && c < times[i]
    ensures |RepeatBy(s, times)| == Before(times, |s|) && Before(times, i) + c < |RepeatBy(s, times)|
    ensures RepeatBy(s, times)[Before(times, i) + c] == s[i]
  {
    RepeatByLength(s, times);
    if i > 0 {
      BeforeShifts(times, i);
      RepeatByAt(s[1..], times[1..], i - 1, c);
      RepeatByLength(s[1..], times[1..]);
    }
  }

  lemma {:induction false} RepeatByLength<T>(s: seq<T>, times: seq<nat>)
    requires |times| == |s|
    ensures |RepeatBy(s, times)| == Before(times, |s|)
  {
    if s != [] {
      RepeatByLength(s[1..], times[1..]);
      BeforeShifts(times, |s|);
    }
  }

  lemma {:induction false} BeforeCopies(times: nat, n: nat, i: nat)
    requires i <= n
    ensures Before(Copies(times, n), i) == i * times
  {
    if i > 0 { BeforeCopies(times, n, i - 1); }
  }

  /** Row i * times + c of the interleaved repetition is row i. */
  lemma RepeatEachAt<T>(s: seq<T>, times: nat, i: nat, c: nat)
    requires i < |s| && c < times
    ensures |RepeatEach(s, times)| == |s| * times
    ensures i * times + c < |RepeatEach(s, times)| && RepeatEach(s, times)[i * times + c] == s[i]
  {
    RepeatByAt(s, Copies(times, |s|), i, c);
    BeforeCopies(times, |s|, i);
    BeforeCopies(times, |s|, |s|);
  }

  /** Row j of the stacked repetition is row j mod n. */
  lemma {:induction false} TileAt<T>(s: seq<T>, times: nat, j: nat)
    requires j < |Tile(s, times)|
    ensures s != [] && Tile(s, times)[j] == s[j % |s|]
  {
    if j < |s| {
      QuotientIs(j, |s|, 0, j);
    } else {
      TileAt(s, times - 1, j - |s|);
      ModStep(j, |s|);
    }
  }

  lemma {:induction false} TileLength<T>(s: seq<T>, times: nat)
    ensures |Tile(s, times)| == times * |s|
  {
    if times > 0 { TileLength(s, times - 1); }
  }

  // ---------------------------------------------------------------- cutting up and joining

  function Flatten<T>(parts: seq<seq<T>>): seq<T> {
    if parts == [] then [] else parts[0] + Flatten(parts[1..])
  }

  lemma {:induction false} FlattenAppend<T>(parts: seq<seq<T>>, more: seq<seq<T>>)
    ensures Flatten(parts + more) == Flatten(parts) + Flatten(more)
  {
    if parts == [] {
      assert parts + more == more;
    } else {
      FlattenAppend(parts[1..], more);
      assert (parts + more)[1..] == parts[1..] + more;
      Regroup(parts[0], Flatten(parts[1..]), Flatten(more));
    }
  }
}
