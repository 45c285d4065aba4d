/** Sending round-robin over the trainer ranks, and receiving bucket by bucket through the two halves of one
    buffer while every rank broadcasts the buckets it was assigned. */
module KimiSchedule {
  import opened Options
  import opened WeightChunks
  import opened Division
  import opened RowOps

  // ---------------------------------------------------------------- round-robin sending

  datatype Tensor = Tensor(name: string, bytes: seq<byte>)

  /** The tensors whose place in the stream, counted from `idx`, is picked. */
  function Pick(tensors: seq<Tensor>, idx: nat, picked: nat -> bool): seq<Tensor> {
    if tensors == [] then []
    else (if picked(idx) then [tensors[0]] else []) + Pick(tensors[1..], idx + 1, picked)
  }

  /** The tensors of a rank: every world-th one, beginning with the tensor at `idx` of the whole stream. */
  function Mine(tensors: seq<Tensor>, idx: nat, world: nat, rank: nat): seq<Tensor>
    requires world > 0
  {
    Pick(tensors, idx, i => i % world == rank)
  }

  function Size(bucket: seq<Tensor>): nat {
    if bucket == [] then 0 else Size(bucket[..|bucket| - 1]) + |bucket[|bucket| - 1].bytes|
  }

  lemma SizeOfMore(bucket: seq<Tensor>, t: Tensor)
    ensures Size(bucket + [t]) == Size(bucket) + |t.bytes|
  {
    assert (bucket + [t])[..|bucket|] == bucket;
  }

  /** Not empty, and within the limit unless it is one oversized tensor. */
  predicate GoodBucket(bucket: seq<Tensor>, bucketBytes: int) {
    bucket != [] && (Size(bucket) <= bucketBytes || |bucket| == 1)
  }

  /** Bucket j - 1 could not have taken the first tensor of bucket j. */
  predicate Needed(buckets: seq<seq<Tensor>>, j: nat, bucketBytes: int)
    requires 0 < j < |buckets|
  {
    buckets[j] != [] && Size(buckets[j - 1]) + |buckets[j][0].bytes| > bucketBytes
  }

  /** No bucket was begun too early, and all are good. */
  predicate Packed(buckets: seq<seq<Tensor>>, bucketBytes: int) {
    && (forall j :: 0 <= j < |buckets| ==> GoodBucket(buckets[j], bucketBytes))
    && (forall j :: 0 < j < |buckets| ==> Needed(buckets, j, bucketBytes))
  }

  /** The last bucket takes another tensor. */
  lemma FillLast(buckets: seq<seq<Tensor>>, current: seq<Tensor>, t: Tensor, bucketBytes: int)
    requires current != [] && Packed(buckets + [current], bucketBytes) && Size(current) + |t.bytes| <= bucketBytes
    ensures Packed(buckets + [current + [t]], bucketBytes)
  {
    var before, after := buckets + [current], buckets + [current + [t]];
    SizeOfMore(current, t);
    forall j | 0 < j < |after|
      ensures Needed(after, j, bucketBytes)
    {
      assert Needed(before, j, bucketBytes);
    }
    forall j | 0 <= j < |after|
      ensures GoodBucket(after[j], bucketBytes)
    {
      assert GoodBucket(before[j], bucketBytes);
    }
  }

  /** A tensor that does not fit begins a bucket of its own. */
  lemma BeginNew(buckets: seq<seq<Tensor>>, t: Tensor, bucketBytes: int)
    requires Packed(buckets, bucketBytes)
    requires buckets != [] ==> Size(buckets[|buckets| - 1]) + |t.bytes| > bucketBytes
    ensures Packed(buckets + [[t]], bucketBytes)
  {
    var after := buckets + [[t]];
    forall j | 0 < j < |after|
      ensures Needed(after, j, bucketBytes)
    {
      if j < |buckets| { assert Needed(buckets, j, bucketBytes); }
    }
  }

  lemma {:induction false} PickOneMore(tensors: seq<Tensor>, t: Tensor, idx: nat, picked: nat -> bool)
    ensures Pick(tensors + [t], idx, picked)
          == Pick(tensors, idx, picked) + (if picked(idx + |tensors|) then [t] else [])
  {
    if tensors == [] {
      assert [] + [t] == [t] && [t][1..] == [];
    } else {
      assert (tensors + [t])[1..] == tensors[1..] + [t];
      PickOneMore(tensors[1..], t, idx + 1, picked);
      var more := if picked(idx + |tensors|) then [t] else [];
      Regroup(if picked(idx) then [tensors[0]] else [], Pick(tensors[1..], idx + 1, picked), more);
    }
  }

  lemma NextResidue(idx: nat, world: nat)
    requires world > 0
    ensures (idx + 1) % world == if idx % world + 1 == world then 0 else idx % world + 1
  {
    ResidueAfter(idx, world, idx / world, idx % world);
  }

  lemma ResidueAfter(idx: nat, world: nat, q: nat, c: nat)
    requires c < world && idx == q * world + c
    ensures (idx + 1) % world == if c + 1 == world then 0 else c + 1
  {
    if c + 1 == world {
      Distributes(q, -1, world);
      QuotientIs(idx + 1, world, q + 1, 0);
    } else {
      QuotientIs(idx + 1, world, q, c + 1);
    }
  }

  /** The tensor `gap` places away and every world-th from there on. */
  function From(tensors: seq<Tensor>, gap: nat, world: nat): seq<Tensor>
    requires world > 0
  {
    if gap < |tensors| then Every(tensors[gap..], world) else []
  }

  lemma FromHere(tensors: seq<Tensor>, world: nat)
    requires world > 0 && tensors != []
    ensures From(tensors, 0, world) == [tensors[0]] + From(tensors[1..], world - 1, world)
  {
    assert tensors[0..] == tensors;
    if world < |tensors| {
      assert tensors[world..] == tensors[1..][world - 1..];
    } else {
      assert Every(tensors, world) == [tensors[0]] + Every([], world);
    }
  }

  lemma FromLater(tensors: seq<Tensor>, gap: nat, world: nat)
    requires world > 0 && tensors != [] && gap > 0
    ensures From(tensors, gap, world) == From(tensors[1..], gap - 1, world)
  {
    if gap < |tensors| { assert tensors[gap..] == tensors[1..][gap - 1..]; }
  }

  lemma MineStep(tensors: seq<Tensor>, idx: nat, world: nat, rank: nat)
    requires world > 0 && tensors != []
    ensures Mine(tensors, idx, world, rank)
         == (if idx % world == rank then [tensors[0]] else []) + Mine(tensors[1..], idx + 1, world, rank)
  {
  }

  /** From `idx` on, the next tensor of the rank is `gap` places away, and from there on it is every world-th. */
  lemma {:induction false} MineFrom(tensors: seq<Tensor>, idx: nat, world: nat, rank: nat, c: nat, gap: nat)
    requires c < world && rank < world && c == idx % world && gap == if c <= rank then rank - c else rank + world - c
    ensures Mine(tensors, idx, world, rank) == From(tensors, gap, world)
    decreases |tensors|
  {
    if tensors != [] {
      NextResidue(idx, world);
      MineStep(tensors, idx, world, rank);
      var next := if c + 1 == world then 0 else c + 1;
      if gap == 0 {
        MineFrom(tensors[1..], idx + 1, world, rank, next, world - 1);
        FromHere(tensors, world);
      } else {
        MineFrom(tensors[1..], idx + 1, world, rank, next, gap - 1);
        FromLater(tensors, gap, world);
      }
    }
  }

  /** The tensors of a rank are the one at the place of its number and every world-th from there on. */
  lemma MineIsEvery(tensors: seq<Tensor>, world: nat, rank: nat)
    requires rank < world
    ensures Mine(tensors, 0, world, rank) == if rank < |tensors| then Every(tensors[rank..], world) else []
  {
    MineFrom(tensors, 0, world, rank, 0, rank);
  }

  /** All buckets so far: those handed out and the current one. */
  function WithCurrent(buckets: seq<seq<Tensor>>, current: seq<Tensor>): seq<seq<Tensor>> {
    if current == [] then buckets else buckets + [current]
  }

  /** All buckets after one more tensor. */
  function WithTaken(buckets: seq<seq<Tensor>>, current: seq<Tensor>, t: Tensor, bucketBytes: int): seq<seq<Tensor>> {
    if Size(current) + |t.bytes| > bucketBytes && current != [] then WithCurrent(buckets + [current], [t])
    else WithCurrent(buckets, current + [t])
  }

  lemma TakeOne(buckets: seq<seq<Tensor>>, current: seq<Tensor>, t: Tensor, bucketBytes: int)
    requires Packed(WithCurrent(buckets, current), bucketBytes) && (current == [] ==> buckets == [])
    ensures Packed(WithTaken(buckets, current, t, bucketBytes), bucketBytes)
    ensures Flatten(WithTaken(buckets, current, t, bucketBytes)) == Flatten(WithCurrent(buckets, current)) + [t]
  {
    FlattenOneMore(buckets, current);
    FlattenOneMore(buckets, current + [t]);
    FlattenOneMore(buckets + [current], [t]);
    if current == [] {
      BeginNew([], t, bucketBytes);
      assert current + [t] == [t];
    } else if Size(current) + |t.bytes| > bucketBytes {
      BeginNew(buckets + [current], t, bucketBytes);
    } else {
      FillLast(buckets, current, t, bucketBytes);
    }
  }

  /** The buckets of one rank, or None for a limit that is not positive. */
  method NamedTensorBuckets(tensors: seq<Tensor>, bucketBytes: int, world: nat, rank: nat)
    returns (r: Option<seq<seq<Tensor>>>)
    requires world > 0
    ensures r == None <==> bucketBytes <= 0
    ensures r.Some? ==>
      && Flatten(r.value) == Mine(tensors, 0, world, rank)
      && (forall j :: 0 <= j < |r.value| ==>
            r.value[j] != [] && (Size(r.value[j]) <= bucketBytes || |r.value[j]| == 1))
      && (forall j :: 0 < j < |r.value| ==> Size(r.value[j - 1]) + |r.value[j][0].bytes| > bucketBytes)
  {
    if bucketBytes <= 0 { return None; }
    var buckets: seq<seq<Tensor>> := [];
    var current: seq<Tensor> := [];
    var currentSize := 0;
    var idx := 0;
    while idx < |tensors|
      invariant 0 <= idx <= |tensors| && currentSize == Size(current)
      invariant Flatten(WithCurrent(buckets, current)) == Mine(tensors[..idx], 0, world, rank)
      invariant Packed(WithCurrent(buckets, current), bucketBytes) && (current == [] ==> buckets == [])
    {
      var t := tensors[idx];
      assert tensors[..idx + 1] == tensors[..idx] + [t];
      PickOneMore(tensors[..idx], t, 0, i => i % world == rank);
      if idx % world == rank {
        TakeOne(buckets, current, t, bucketBytes);
        if currentSize + |t.bytes| > bucketBytes && current != [] {
          buckets, current, currentSize := buckets + [current], [], 0;
        }
        SizeOfMore(current, t);
        assert [] + [t] == [t];
        current, currentSize := current + [t], currentSize + |t.bytes|;
      }
      idx := idx + 1;
    }
    assert tensors[..idx] == tensors;
    PackedExactly(WithCurrent(buckets, current), bucketBytes);
    return Some(WithCurrent(buckets, current));
  }

  lemma PackedExactly(buckets: seq<seq<Tensor>>, bucketBytes: int)
    requires Packed(buckets, bucketBytes)
    ensures forall j :: 0 <= j < |buckets| ==>
        buckets[j] != [] && (Size(buckets[j]) <= bucketBytes || |buckets[j]| == 1)
    ensures forall j :: 0 < j < |buckets| ==> Size(buckets[j - 1]) + |buckets[j][0].bytes| > bucketBytes
  {
    forall j | 0 < j < |buckets|
      ensures Size(buckets[j - 1]) + |buckets[j][0].bytes| > bucketBytes
    {
      assert Needed(buckets, j, bucketBytes);
    }
  }

  lemma FlattenOneMore<T>(parts: seq<seq<T>>, last: seq<T>)
    ensures Flatten(parts + [last]) == Flatten(parts) + last
  {
    FlattenAppend(parts, [last]);
    assert Flatten([last]) == last + Flatten([last][1..]);
  }

  /** The tensors of the ranks below `ranks`, one rank after the other. */
  function OfRanks(tensors: seq<Tensor>, idx: nat, world: nat, ranks: nat): seq<Tensor>
    requires world > 0
  {
    if ranks == 0 then [] else OfRanks(tensors, idx, world, ranks - 1) + Mine(tensors, idx, world, ranks - 1)
  }

  lemma {:induction false} OfRanksPeel(tensors: seq<Tensor>, idx: nat, world: nat, ranks: nat)
    requires world > 0 && tensors != []
    ensures multiset(OfRanks(tensors, idx, world, ranks))
         == multiset(OfRanks(tensors[1..], idx + 1, world, ranks))
            + (if idx % world < ranks then multiset{tensors[0]} else multiset{})
  {
    if ranks > 0 {
      OfRanksPeel(tensors, idx, world, ranks - 1);
      MineStep(tensors, idx, world, ranks - 1);
    }
  }

  /** Together the ranks send every tensor exactly once. */
  lemma {:induction false} EveryTensorIsSentOnce(tensors: seq<Tensor>, idx: nat, world: nat)
    requires world > 0
    ensures multiset(OfRanks(tensors, idx, world, world)) == multiset(tensors)
  {
    if tensors == [] {
      NothingToSend(idx, world, world);
    } else {
      OfRanksPeel(tensors, idx, world, world);
      EveryTensorIsSentOnce(tensors[1..], idx + 1, world);
      HeadAndTail(tensors);
    }
  }

  lemma HeadAndTail<T>(s: seq<T>)
    requires s != []
    ensures multiset(s) == multiset(s[1..]) + multiset{s[0]}
  {
    assert s == [s[0]] + s[1..];
  }

  lemma {:induction false} NothingToSend(idx: nat, world: nat, ranks: nat)
    requires world > 0
    ensures OfRanks([], idx, world, ranks) == []
  {
    if ranks > 0 { NothingToSend(idx, world, ranks - 1); }
  }

  // ---------------------------------------------------------------- the order of the broadcasts

  /** A bucket and the rank that reads and broadcasts it. */
  datatype Bucket = Bucket(receiver: nat, bytes: seq<byte>)

  datatype Group = Group(rank: nat, buckets: seq<Bucket>)

  /** The buckets by rank, ranks in the order they first occur: a dictionary of lists. */
  function AddTo(groups: seq<Group>, b: Bucket): seq<Group> {
    if groups == [] then [Group(b.receiver, [b])]
    else if groups[0].rank == b.receiver then [Group(b.receiver, groups[0].buckets + [b])] + groups[1..]
    else [groups[0]] + AddTo(groups[1..], b)
  }

  function ByRank(buckets: seq<Bucket>): seq<Group> {
    if buckets == [] then [] else AddTo(ByRank(buckets[..|buckets| - 1]), buckets[|buckets| - 1])
  }

  /** The buckets of one rank, in order. */
  function OfRank(buckets: seq<Bucket>, rank: nat): seq<Bucket> {
    if buckets == [] then []
    else
      var before, b := buckets[..|buckets| - 1], buckets[|buckets| - 1];
      OfRank(before, rank) + (if b.receiver == rank then [b] else [])
  }

  function AllOf(groups: seq<Group>): seq<Bucket> {
    if groups == [] then [] else groups[0].buckets + AllOf(groups[1..])
  }

  function Ranks(groups: seq<Group>): seq<nat> {
    if groups == [] then [] else [groups[0].rank] + Ranks(groups[1..])
  }

  /** The list under a rank. */
  function Lookup(groups: seq<Group>, rank: nat): seq<Bucket> {
    if groups == [] then [] else if groups[0].rank == rank then groups[0].buckets else Lookup(groups[1..], rank)
  }

  lemma {:induction false} AddToLists(groups: seq<Group>, b: Bucket, rank: nat)
    ensures Lookup(AddTo(groups, b), rank) == Lookup(groups, rank) + (if b.receiver == rank then [b] else [])
  {
    if groups != [] && groups[0].rank != b.receiver { AddToLists(groups[1..], b, rank); }
  }

  lemma {:induction false} AddToKeepsAll(groups: seq<Group>, b: Bucket)
    ensures multiset(AllOf(AddTo(groups, b))) == multiset(AllOf(groups)) + multiset{b}
  {
    if groups != [] && groups[0].rank != b.receiver { AddToKeepsAll(groups[1..], b); }
  }

  /** The dictionary holds every bucket once, under its rank, in the order of the list. */
  lemma {:induction false} ByRankIsByRank(buckets: seq<Bucket>, rank: nat)
    ensures Lookup(ByRank(buckets), rank) == OfRank(buckets, rank)
    ensures multiset(AllOf(ByRank(buckets))) == multiset(buckets)
  {
    if buckets != [] {
      var before, b := buckets[..|buckets| - 1], buckets[|buckets| - 1];
      ByRankIsByRank(before, rank);
      AddToLists(ByRank(before), b, rank);
      AddToKeepsAll(ByRank(before), b);
      assert buckets == before + [b];
    }
  }

  ghost predicate Distinct(ranks: seq<nat>) {
    forall i, j :: 0 <= i < j < |ranks| ==> ranks[i] != ranks[j]
  }

  lemma {:induction false} AddToRanks(groups: seq<Group>, b: Bucket)
    ensures Ranks(AddTo(groups, b))
          == if b.receiver in Ranks(groups) then Ranks(groups) else Ranks(groups) + [b.receiver]
  {
    if groups != [] && groups[0].rank != b.receiver { AddToRanks(groups[1..], b); }
  }

  lemma {:induction false} ByRankIsDistinct(buckets: seq<Bucket>)
    ensures Distinct(Ranks(ByRank(buckets)))
  {
    if buckets != [] {
      ByRankIsDistinct(buckets[..|buckets| - 1]);
      AddToRanks(ByRank(buckets[..|buckets| - 1]), buckets[|buckets| - 1]);
    }
  }

  lemma {:induction false} RanksAt(groups: seq<Group>)
    ensures |Ranks(groups)| == |groups| && forall j :: 0 <= j < |groups| ==> Ranks(groups)[j] == groups[j].rank
  {
    if groups != [] { RanksAt(groups[1..]); }
  }

  lemma {:induction false} LookupAt(groups: seq<Group>, j: nat)
    requires j < |groups| && Distinct(Ranks(groups))
    ensures Lookup(groups, groups[j].rank) == groups[j].buckets
  {
    RanksAt(groups);
    if j > 0 {
      assert Ranks(groups)[0] != Ranks(groups)[j];
      assert Ranks(groups)[1..] == Ranks(groups[1..]);
      LookupAt(groups[1..], j - 1);
    }
  }

  /** What a rank copies for round i is what the dictionary has for it in round i. */
  lemma OwnListIsItsGroup(buckets: seq<Bucket>, j: nat)
    requires j < |ByRank(buckets)|
    ensures ByRank(buckets)[j].buckets == OfRank(buckets, ByRank(buckets)[j].rank)
  {
    ByRankIsDistinct(buckets);
    LookupAt(ByRank(buckets), j);
    ByRankIsByRank(buckets, ByRank(buckets)[j].rank);
  }

  /** Round i: the i-th bucket of every rank that has one. */
  function Round(groups: seq<Group>, i: nat): seq<Bucket> {
    if groups == [] then []
    else (if i < |groups[0].buckets| then [groups[0].buckets[i]] else []) + Round(groups[1..], i)
  }

  function Rounds(groups: seq<Group>, n: nat): seq<Bucket> {
    if n == 0 then [] else Rounds(groups, n - 1) + Round(groups, n - 1)
  }

  function MaxLen(groups: seq<Group>): nat {
    if groups == [] then 0
    else if |groups[0].buckets| > MaxLen(groups[1..]) then |groups[0].buckets| else MaxLen(groups[1..])
  }

  /** The order in which all ranks broadcast: it depends on the list of buckets only. */
  function Schedule(buckets: seq<Bucket>): seq<Bucket> {
    Rounds(ByRank(buckets), MaxLen(ByRank(buckets)))
  }

  // How often a bucket occurs: at one place of a list, in its first n places, in a list, a round, n rounds.

  function At(bs: seq<Bucket>, i: nat, b: Bucket): nat {
    if i < |bs| && bs[i] == b then 1 else 0
  }

  function InFirst(bs: seq<Bucket>, n: nat, b: Bucket): nat {
    if n == 0 then 0 else InFirst(bs, n - 1, b) + At(bs, n - 1, b)
  }

  function Times(bs: seq<Bucket>, b: Bucket): nat {
    InFirst(bs, |bs|, b)
  }

  function InRound(groups: seq<Group>, i: nat, b: Bucket): nat {
    if groups == [] then 0 else At(groups[0].buckets, i, b) + InRound(groups[1..], i, b)
  }

  function InRounds(groups: seq<Group>, n: nat, b: Bucket): nat {
    if n == 0 then 0 else InRounds(groups, n - 1, b) + InRound(groups, n - 1, b)
  }

  lemma {:induction false} FirstOfMore(bs: seq<Bucket>, more: seq<Bucket>, n: nat, b: Bucket)
    requires n <= |bs|
    ensures InFirst(bs + more, n, b) == InFirst(bs, n, b)
  {
    if n > 0 { FirstOfMore(bs, more, n - 1, b); }
  }

  lemma {:induction false} BehindFirst(bs: seq<Bucket>, more: seq<Bucket>, n: nat, b: Bucket)
    requires n <= |more|
    ensures InFirst(bs + more, |bs| + n, b) == Times(bs, b) + InFirst(more, n, b)
  {
    if n == 0 { FirstOfMore(bs, more, |bs|, b); } else { BehindFirst(bs, more, n - 1, b); }
  }

  lemma TimesJoin(bs: seq<Bucket>, more: seq<Bucket>, all: seq<Bucket>, b: Bucket)
    requires all == bs + more
    ensures Times(all, b) == Times(bs, b) + Times(more, b)
  {
    BehindFirst(bs, more, |more|, b);
  }

  /** Nothing is counted behind the end. */
  lemma {:induction false} TimesIsAll(bs: seq<Bucket>, n: nat, b: Bucket)
    requires |bs| <= n
    ensures InFirst(bs, n, b) == Times(bs, b)
  {
    if |bs| < n { TimesIsAll(bs, n - 1, b); }
  }

  lemma {:induction false} TimesIsMultiplicity(bs: seq<Bucket>, n: nat, b: Bucket)
    requires n <= |bs|
    ensures InFirst(bs, n, b) == multiset(bs[..n])[b]
  {
    if n > 0 {
      TimesIsMultiplicity(bs, n - 1, b);
      assert bs[..n] == bs[..n - 1] + [bs[n - 1]];
    }
  }

  lemma RoundPeel(groups: seq<Group>, i: nat)
    requires groups != []
    ensures Round(groups, i) == (if i < |groups[0].buckets| then [groups[0].buckets[i]] else []) + Round(groups[1..], i)
  {
  }

  lemma TimesOfOne(bs: seq<Bucket>, i: nat, b: Bucket)
    ensures Times(if i < |bs| then [bs[i]] else [], b) == At(bs, i, b)
  {
    if i < |bs| { assert Times([bs[i]], b) == InFirst([bs[i]], 0, b) + At([bs[i]], 0, b); }
  }

  lemma {:induction false} RoundCounts(groups: seq<Group>, i: nat, b: Bucket)
    ensures InRound(groups, i, b) == Times(Round(groups, i), b)
  {
    if groups != [] {
      var bs := groups[0].buckets;
      var mine := if i < |bs| then [bs[i]] else [];
      RoundPeel(groups, i);
      RoundCounts(groups[1..], i, b);
      TimesJoin(mine, Round(groups[1..], i), Round(groups, i), b);
      TimesOfOne(bs, i, b);
    }
  }

  lemma {:induction false} RoundsCount(groups: seq<Group>, n: nat, b: Bucket)
    ensures InRounds(groups, n, b) == Times(Rounds(groups, n), b)
  {
    if n > 0 {
      RoundsCount(groups, n - 1, b);
      RoundCounts(groups, n - 1, b);
      LastRoundCounts(groups, n, b);
    }
  }

  lemma LastRoundCounts(groups: seq<Group>, n: nat, b: Bucket)
    requires n > 0
    ensures Times(Rounds(groups, n), b) == Times(Rounds(groups, n - 1), b) + Times(Round(groups, n - 1), b)
  {
    TimesJoin(Rounds(groups, n - 1), Round(groups, n - 1), Rounds(groups, n), b);
  }

  lemma {:induction false} RoundsPeel(groups: seq<Group>, n: nat, b: Bucket)
    requires groups != []
    ensures InRounds(groups, n, b) == InFirst(groups[0].buckets, n, b) + InRounds(groups[1..], n, b)
  {
    if n > 0 { RoundsPeel(groups, n - 1, b); }
  }

  lemma {:induction false} NoRounds(n: nat, b: Bucket)
    ensures InRounds([], n, b) == 0
  {
    if n > 0 { NoRounds(n - 1, b); }
  }

  lemma {:induction false} RoundsAreAll(groups: seq<Group>, n: nat, b: Bucket)
    requires MaxLen(groups) <= n
    ensures InRounds(groups, n, b) == Times(AllOf(groups), b)
  {
    if groups == [] {
      NoRounds(n, b);
    } else {
      RoundsPeel(groups, n, b);
      RoundsAreAll(groups[1..], n, b);
      TimesIsAll(groups[0].buckets, n, b);
      TimesJoin(groups[0].buckets, AllOf(groups[1..]), AllOf(groups), b);
    }
  }

  lemma TimesIs(bs: seq<Bucket>, b: Bucket)
    ensures Times(bs, b) == multiset(bs)[b]
  {
    TimesIsMultiplicity(bs, |bs|, b);
    assert bs[..|bs|] == bs;
  }

  /** The groups before the j-th that take part in round i. */
  function Ahead(groups: seq<Group>, i: nat, j: nat): (r: nat)
    requires j <= |groups|
  {
    if j == 0 then 0 else Ahead(groups, i, j - 1) + if i < |groups[j - 1].buckets| then 1 else 0
  }

  lemma {:induction false} AheadShift(groups: seq<Group>, i: nat, j: nat)
    requires 0 < j <= |groups|
    ensures Ahead(groups, i, j) == (if i < |groups[0].buckets| then 1 else 0) + Ahead(groups[1..], i, j - 1)
  {
    if j > 1 { AheadShift(groups, i, j - 1); }
  }

  lemma {:induction false} RoundLength(groups: seq<Group>, i: nat)
    ensures |Round(groups, i)| == Ahead(groups, i, |groups|)
  {
    if groups != [] {
      RoundLength(groups[1..], i);
      AheadShift(groups, i, |groups|);
    }
  }

  /** Round i is the i-th bucket of every group that has one, in the order of the groups. */
  lemma {:induction false} RoundAt(groups: seq<Group>, i: nat, j: nat)
    requires j < |groups| && i < |groups[j].buckets|
    ensures Ahead(groups, i, j) < |Round(groups, i)| && Round(groups, i)[Ahead(groups, i, j)] == groups[j].buckets[i]
  {
    RoundPeel(groups, i);
    if j > 0 {
      RoundAt(groups[1..], i, j - 1);
      AheadShift(groups, i, j);
      assert groups[1..][j - 1] == groups[j];
    }
  }

  /** The broadcasts before round i. */
  function BeforeRound(groups: seq<Group>, i: nat): nat {
    if i == 0 then 0 else BeforeRound(groups, i - 1) + Ahead(groups, i - 1, |groups|)
  }

  lemma {:induction false} RoundsLength(groups: seq<Group>, n: nat)
    ensures |Rounds(groups, n)| == BeforeRound(groups, n)
  {
    if n > 0 {
      RoundsLength(groups, n - 1);
      RoundLength(groups, n - 1);
    }
  }

  lemma {:induction false} LongestIsMax(groups: seq<Group>, j: nat)
    requires j < |groups|
    ensures |groups[j].buckets| <= MaxLen(groups)
  {
    if j > 0 { LongestIsMax(groups[1..], j - 1); }
  }

  /** The i-th bucket of group j is broadcast in round i, behind the earlier rounds and the groups ahead. */
  lemma ScheduleAt(buckets: seq<Bucket>, i: nat, j: nat)
    requires j < |ByRank(buckets)| && i < |ByRank(buckets)[j].buckets|
    ensures var groups := ByRank(buckets);
            && BeforeRound(groups, i) + Ahead(groups, i, j) < |Schedule(buckets)|
            && Schedule(buckets)[BeforeRound(groups, i) + Ahead(groups, i, j)] == groups[j].buckets[i]
  {
    var groups := ByRank(buckets);
    LongestIsMax(groups, j);
    RoundsAt(groups, i, j, MaxLen(groups));
  }

  lemma RoundsAt(groups: seq<Group>, i: nat, j: nat, n: nat)
    requires j < |groups| && i < |groups[j].buckets| && i < n
    ensures BeforeRound(groups, i) + Ahead(groups, i, j) < |Rounds(groups, n)|
    ensures Rounds(groups, n)[BeforeRound(groups, i) + Ahead(groups, i, j)] == groups[j].buckets[i]
  {
    RoundsGrow(groups, i + 1, n);
    RoundsLength(groups, i);
    RoundAt(groups, i, j);
    AtInner(Rounds(groups, i), Round(groups, i), Rounds(groups, n), Ahead(groups, i, j));
  }

  lemma AtInner<T>(front: seq<T>, part: seq<T>, all: seq<T>, k: nat)
    requires front + part <= all && k < |part|
    ensures |front| + k < |all| && all[|front| + k] == part[k]
  {
    assert (front + part)[|front| + k] == part[k];
  }

  /** The groups are in the order in which their ranks appear first: those of a part of the list come first. */
  lemma {:induction false} RanksInOrder(buckets: seq<Bucket>, n: nat)
    requires n <= |buckets|
    ensures Ranks(ByRank(buckets[..n])) <= Ranks(ByRank(buckets))
    ensures forall rank :: rank in Ranks(ByRank(buckets)) <==> exists b :: b in buckets && b.receiver == rank
    decreases |buckets|
  {
    if buckets != [] {
      var before, b := buckets[..|buckets| - 1], buckets[|buckets| - 1];
      assert buckets == before + [b];
      AddToRanks(ByRank(before), b);
      RanksInOrder(before, if n < |buckets| then n else 0);
      if n < |buckets| { assert buckets[..n] == before[..n]; } else { assert buckets[..n] == buckets; }
    }
  }

  /** Every bucket is broadcast exactly once. */
  lemma ScheduleHasEachBucketOnce(buckets: seq<Bucket>)
    ensures multiset(Schedule(buckets)) == multiset(buckets)
  {
    ByRankIsByRank(buckets, 0);
    forall b
      ensures multiset(Schedule(buckets))[b] == multiset(AllOf(ByRank(buckets)))[b]
    {
      RoundsAreAll(ByRank(buckets), MaxLen(ByRank(buckets)), b);
      RoundsCount(ByRank(buckets), MaxLen(ByRank(buckets)), b);
      TimesIs(Schedule(buckets), b);
      TimesIs(AllOf(ByRank(buckets)), b);
    }
  }

  // ---------------------------------------------------------------- receiving

  function BytesOf(bs: seq<Bucket>): (r: seq<seq<byte>>)
    ensures |r| == |bs| && forall i :: 0 <= i < |r| ==> r[i] == bs[i].bytes
  {
    seq(|bs|, i requires 0 <= i < |bs| => bs[i].bytes)
  }

  /** The half of the buffer that the g-th broadcast fills. */
  function Half(g: nat, bucketSize: nat): nat {
    if g % 2 == 0 then 0 else bucketSize
  }

  ghost predicate HalfHolds(buffer: seq<byte>, g: nat, bucketSize: nat, bytes: seq<byte>) {
    && |bytes| <= bucketSize && |buffer| == 2 * bucketSize
    && buffer[Half(g, bucketSize)..Half(g, bucketSize) + |bytes|] == bytes
  }

  lemma OtherHalfStays(buffer: seq<byte>, g: nat, bucketSize: nat, bytes: seq<byte>, written: seq<byte>)
    requires HalfHolds(buffer, g, bucketSize, bytes) && |written| <= bucketSize
    ensures HalfHolds(Overwrite(buffer, Half(g + 1, bucketSize), written), g, bucketSize, bytes)
  {
    assert Half(g + 1, bucketSize) + Half(g, bucketSize) == bucketSize;
  }

  lemma WrittenHalf(buffer: seq<byte>, g: nat, bucketSize: nat, bytes: seq<byte>)
    requires |buffer| == 2 * bucketSize && |bytes| <= bucketSize
    ensures HalfHolds(Overwrite(buffer, Half(g, bucketSize), bytes), g, bucketSize, bytes)
  {
  }

  // What a rank hands out depends on what arrives: `wires[g]` is what the g-th broadcast brings to this rank.

  /** The bucket as this rank gets it: its own one from its host buffer, the others from their owners. */
  function Arrived(b: Bucket, me: nat, wire: seq<byte>): Bucket {
    if b.receiver == me then b else b.(bytes := wire)
  }

  ghost predicate WiresFit(bs: seq<Bucket>, wires: seq<seq<byte>>) {
    |bs| <= |wires| && forall g :: 0 <= g < |bs| ==> |wires[g]| == |bs[g].bytes|
  }

  function AllArrived(bs: seq<Bucket>, me: nat, wires: seq<seq<byte>>): (r: seq<Bucket>)
    requires |bs| <= |wires|
    ensures |r| == |bs| && forall g :: 0 <= g < |bs| ==> r[g] == Arrived(bs[g], me, wires[g])
  {
    seq(|bs|, g requires 0 <= g < |bs| && |bs| <= |wires| => Arrived(bs[g], me, wires[g]))
  }

  lemma OneMoreArrives(past: seq<Bucket>, b: Bucket, rest: seq<Bucket>, all: seq<Bucket>, me: nat,
                       wires: seq<seq<byte>>)
    requires past + [b] + rest == all && WiresFit(all, wires)
    ensures |past| < |wires| && |wires[|past|]| == |b.bytes|
    ensures AllArrived(past + [b], me, wires) == AllArrived(past, me, wires) + [Arrived(b, me, wires[|past|])]
  {
    assert all[|past|] == b;
  }

  /** What a rank launched of its own buckets are their bytes. */
  ghost predicate SendsItsOwn(bs: seq<Bucket>, me: nat, launched: seq<seq<byte>>) {
    |launched| == |bs| && forall g :: 0 <= g < |bs| && bs[g].receiver == me ==> launched[g] == bs[g].bytes
  }

  lemma SendsOneMore(bs: seq<Bucket>, b: Bucket, me: nat, launched: seq<seq<byte>>, sent: seq<byte>)
    requires SendsItsOwn(bs, me, launched) && (b.receiver == me ==> sent == b.bytes)
    ensures SendsItsOwn(bs + [b], me, launched + [sent])
  {
  }

  lemma AllArrivedOwn(bs: seq<Bucket>, me: nat, wires: seq<seq<byte>>, launched: seq<seq<byte>>)
    requires |bs| <= |wires| && SendsItsOwn(AllArrived(bs, me, wires), me, launched)
    ensures SendsItsOwn(bs, me, launched)
  {
  }

  /** One rank's receiver: the buffer of two halves, and how far it is. */
  class Receiver {
    const me: nat
    const bucketSize: nat
    const buffer: array<byte>
    var gidx: nat
    var current: seq<byte>
    var yielded: seq<seq<byte>>
    /** The buckets whose broadcast is complete, as they arrived. */
    ghost var done: seq<Bucket>
    /** What this rank's half held when each broadcast was launched. */
    ghost var launched: seq<seq<byte>>

    ghost predicate Valid()
      reads this, buffer
    {
      && buffer.Length == 2 * bucketSize && gidx == |done| && SendsItsOwn(done, me, launched)
      && (gidx > 0 ==> current == done[gidx - 1].bytes && HalfHolds(buffer[..], gidx - 1, bucketSize, current))
    }

    /** Every bucket but the last one is handed out. */
    ghost predicate OneBehind()
      reads this
    {
      yielded == BytesOf(if done == [] then [] else done[..|done| - 1])
    }

    /** The broadcasts of these buckets are complete. */
    ghost predicate Has(bs: seq<Bucket>, wires: seq<seq<byte>>)
      reads this
    {
      |bs| <= |wires| && done == AllArrived(bs, me, wires)
    }

    constructor (me: nat, bucketSize: nat)
      ensures Valid() && OneBehind() && done == [] && this.me == me && this.bucketSize == bucketSize && fresh(buffer)
    {
      this.me, this.bucketSize := me, bucketSize;
      buffer := new byte[2 * bucketSize](_ => 0);
      gidx, current, yielded, done, launched := 0, [], [], [], [];
    }

    /** Hand out the views of the bucket received last. */
    method Yield()
      requires Valid() && gidx > 0 && OneBehind()
      modifies this`yielded
      ensures yielded == BytesOf(done)
    {
      var start := Half(gidx - 1, bucketSize);
      yielded := yielded + [buffer[start..start + |current|]];
    }

    /** Bytes arrive in the half of the next bucket. */
    method Fill(bytes: seq<byte>)
      requires Valid() && |bytes| <= bucketSize
      modifies buffer
      ensures Valid() && HalfHolds(buffer[..], gidx, bucketSize, bytes)
    {
      if gidx > 0 { OtherHalfStays(buffer[..], gidx - 1, bucketSize, current, bytes); }
      WrittenHalf(buffer[..], gidx, bucketSize, bytes);
      CopyInto(buffer, Half(gidx, bucketSize), bytes);
    }

    /** The awaited bucket is the current one now. */
    method Complete(b: Bucket, ghost sent: seq<byte>)
      requires Valid() && HalfHolds(buffer[..], gidx, bucketSize, b.bytes) && yielded == BytesOf(done)
      requires b.receiver == me ==> sent == b.bytes
      modifies this`current, this`done, this`launched, this`gidx
      ensures Valid() && OneBehind() && done == old(done) + [b]
    {
      SendsOneMore(done, b, me, launched, sent);
      current := b.bytes;
      done, launched := done + [b], launched + [sent];
      gidx := gidx + 1;
      assert done[..|done| - 1] == old(done);
    }

    /** Launch a broadcast: the owner's half is filled; of the others' any part may have arrived already. */
    method Launch(b: Bucket, h2d: seq<byte>, wire: seq<byte>) returns (ghost sent: seq<byte>)
      requires Valid() && |b.bytes| == |wire| <= bucketSize && (b.receiver == me ==> h2d == b.bytes)
      modifies buffer
      ensures Valid()
      ensures b.receiver == me ==> sent == b.bytes && HalfHolds(buffer[..], gidx, bucketSize, b.bytes)
    {
      if b.receiver == me {
        Fill(h2d);
      } else {
        var n: nat :| n <= |wire|;
        Fill(wire[..n]);
      }
      var start := Half(gidx, bucketSize);
      sent := buffer[start..start + |b.bytes|];
    }

    /** One broadcast: launch it, hand out the bucket before, and wait for the rest. */
    method Broadcast(b: Bucket, h2d: seq<byte>, wire: seq<byte>)
      requires Valid() && OneBehind() && |b.bytes| == |wire| <= bucketSize && (b.receiver == me ==> h2d == b.bytes)
      modifies this, buffer
      ensures Valid() && OneBehind() && done == old(done) + [Arrived(b, me, wire)]
    {
      ghost var sent := Launch(b, h2d, wire);
      if gidx > 0 { Yield(); }
      if b.receiver != me {
        Fill(wire);
      }
      Complete(Arrived(b, me, wire), sent);
    }

    method ReceiveNext(b: Bucket, h2d: seq<byte>, wires: seq<seq<byte>>, ghost past: seq<Bucket>,
                       ghost rest: seq<Bucket>)
      requires Valid() && OneBehind() && BucketReady(b, me, bucketSize, h2d)
      requires Has(past, wires) && WiresFit(past + [b] + rest, wires)
      modifies this, buffer
      ensures Valid() && OneBehind() && Has(past + [b], wires)
    {
      OneMoreArrives(past, b, rest, past + [b] + rest, me, wires);
      Broadcast(b, h2d, wires[gidx]);
    }

    /** Round i: every rank that has an i-th bucket broadcasts it. */
    method ReceiveRound(groups: seq<Group>, i: nat, h2d: seq<byte>, wires: seq<seq<byte>>, ghost before: seq<Bucket>)
      requires Valid() && OneBehind() && RoundReady(groups, i, me, bucketSize, h2d)
      requires Has(before, wires) && WiresFit(before + Round(groups, i), wires)
      modifies this, buffer
      ensures Valid() && OneBehind() && Has(before + Round(groups, i), wires)
    {
      ghost var past := before;
      var j := 0;
      while j < |groups|
        invariant 0 <= j <= |groups| && Valid() && OneBehind() && Has(past, wires)
        invariant Splits(past, groups, i, j, before + Round(groups, i))
      {
        RoundAdvances(groups, i, j, past, before + Round(groups, i));
        if i < |groups[j].buckets| {
          assert BucketReady(groups[j].buckets[i], me, bucketSize, h2d);
          ReceiveNext(groups[j].buckets[i], h2d, wires, past, Round(groups[j + 1..], i));
          past := past + [groups[j].buckets[i]];
        }
        j := j + 1;
      }
      RoundEnds(past, groups, i, before + Round(groups, i));
    }

    method ReceiveRoundOf(buckets: seq<Bucket>, i: nat, h2d: seq<byte>, wires: seq<seq<byte>>,
                          ghost before: seq<Bucket>)
      requires Valid() && OneBehind() && forall b :: b in buckets ==> |b.bytes| <= bucketSize
      requires i < |OfRank(buckets, me)| ==> h2d == OfRank(buckets, me)[i].bytes
      requires Has(before, wires) && WiresFit(before + Round(ByRank(buckets), i), wires)
      modifies this, buffer
      ensures Valid() && OneBehind() && Has(before + Round(ByRank(buckets), i), wires)
    {
      RoundIsReady(buckets, i, me, bucketSize, h2d);
      ReceiveRound(ByRank(buckets), i, h2d, wires, before);
    }

    /** The whole reception: None if there is no bucket at all; otherwise the buckets of the schedule, as they
        arrived.  What the rank sends of its own is right in any case. */
    method ReceiveTensors(buckets: seq<Bucket>, wires: seq<seq<byte>>) returns (r: Option<seq<seq<byte>>>)
      requires Valid() && OneBehind() && done == [] && forall b :: b in buckets ==> |b.bytes| <= bucketSize
      requires WiresFit(Schedule(buckets), wires)
      modifies this, buffer
      ensures r == None <==> buckets == []
      ensures r.Some? ==>
        var bs := Schedule(buckets);
        && |r.value| == |bs|
        && forall g :: 0 <= g < |bs| ==> r.value[g] == if bs[g].receiver == me then bs[g].bytes else wires[g]
      ensures |launched| == |Schedule(buckets)|
      ensures forall g :: 0 <= g < |launched| && Schedule(buckets)[g].receiver == me ==>
                launched[g] == Schedule(buckets)[g].bytes
    {
      var groups := ByRank(buckets);
      var own := OfRank(buckets, me);
      var maxLen := MaxLen(groups);
      var h2d: seq<byte> := [];
      var i := 0;
      while i < maxLen
        invariant 0 <= i <= maxLen && Valid() && OneBehind()
        invariant Has(Rounds(groups, i), wires)
      {
        if i < |own| { h2d := own[i].bytes; }
        WiresFitRound(groups, i, maxLen, wires);
        ReceiveRoundOf(buckets, i, h2d, wires, Rounds(groups, i));
        i := i + 1;
      }
      NothingScheduled(buckets);
      AllArrivedOwn(Schedule(buckets), me, wires, launched);
      if gidx == 0 { return None; }
      Yield();
      return Some(yielded);
    }
  }

  lemma WiresFitRound(groups: seq<Group>, i: nat, n: nat, wires: seq<seq<byte>>)
    requires i < n && WiresFit(Rounds(groups, n), wires)
    ensures WiresFit(Rounds(groups, i) + Round(groups, i), wires)
    ensures Rounds(groups, i + 1) == Rounds(groups, i) + Round(groups, i)
  {
    RoundsGrow(groups, i + 1, n);
  }

  lemma {:induction false} RoundsGrow(groups: seq<Group>, i: nat, n: nat)
    requires i <= n
    ensures Rounds(groups, i) <= Rounds(groups, n)
  {
    if i < n { RoundsGrow(groups, i, n - 1); }
  }

  /** A rank's wires bring what the owners launched. */
  ghost predicate BringsWhatWasLaunched(bs: seq<Bucket>, launched: seq<seq<seq<byte>>>, wires: seq<seq<byte>>) {
    && |wires| == |bs|
    && forall g {:trigger bs[g]} :: 0 <= g < |bs| ==>
         && bs[g].receiver < |launched| && |launched[bs[g].receiver]| == |bs|
         && wires[g] == launched[bs[g].receiver][g]
  }

  /** When every broadcast brings what its owner launched, a rank gets all buckets as they are. */
  lemma EveryRankGetsEveryBucket(buckets: seq<Bucket>, launched: seq<seq<seq<byte>>>, me: nat, wires: seq<seq<byte>>)
    requires forall r :: 0 <= r < |launched| ==> SendsItsOwn(Schedule(buckets), r, launched[r])
    requires BringsWhatWasLaunched(Schedule(buckets), launched, wires)
    ensures WiresFit(Schedule(buckets), wires) && AllArrived(Schedule(buckets), me, wires) == Schedule(buckets)
  {
    var bs := Schedule(buckets);
    forall g | 0 <= g < |bs|
      ensures wires[g] == bs[g].bytes
    {
      assert SendsItsOwn(bs, bs[g].receiver, launched[bs[g].receiver]);
    }
  }

  /** What is left of the round are the buckets of the groups from j on. */
  ghost predicate Splits(past: seq<Bucket>, groups: seq<Group>, i: nat, j: nat, all: seq<Bucket>)
    requires j <= |groups|
  {
    past + Round(groups[j..], i) == all
  }

  lemma RoundAdvances(groups: seq<Group>, i: nat, j: nat, past: seq<Bucket>, all: seq<Bucket>)
    requires j < |groups| && Splits(past, groups, i, j, all)
    ensures i < |groups[j].buckets| ==>
              && Splits(past + [groups[j].buckets[i]], groups, i, j + 1, all)
              && past + [groups[j].buckets[i]] + Round(groups[j + 1..], i) == all
    ensures i >= |groups[j].buckets| ==> Splits(past, groups, i, j + 1, all)
  {
    assert groups[j..][1..] == groups[j + 1..];
  }

  lemma RoundEnds(past: seq<Bucket>, groups: seq<Group>, i: nat, all: seq<Bucket>)
    requires Splits(past, groups, i, |groups|, all)
    ensures past == all
  {
    assert groups[|groups|..] == [] && past + [] == past;
  }

  predicate BucketReady(b: Bucket, me: nat, bucketSize: nat, h2d: seq<byte>) {
    |b.bytes| <= bucketSize && (b.receiver == me ==> h2d == b.bytes)
  }

  /** The buckets of round i fit, and the rank's own one is what it copied from the host. */
  ghost predicate RoundReady(groups: seq<Group>, i: nat, me: nat, bucketSize: nat, h2d: seq<byte>) {
    forall j :: 0 <= j < |groups| && i < |groups[j].buckets| ==> BucketReady(groups[j].buckets[i], me, bucketSize, h2d)
  }

  lemma NothingScheduled(buckets: seq<Bucket>)
    ensures Schedule(buckets) == [] <==> buckets == []
  {
    ScheduleHasEachBucketOnce(buckets);
    assert |multiset(Schedule(buckets))| == |Schedule(buckets)| && |multiset(buckets)| == |buckets|;
  }

  lemma {:induction false} OfRankIsOfRank(buckets: seq<Bucket>, rank: nat)
    ensures forall b :: b in OfRank(buckets, rank) ==> b in buckets && b.receiver == rank
  {
    if buckets != [] { OfRankIsOfRank(buckets[..|buckets| - 1], rank); }
  }

  lemma RoundIsReady(buckets: seq<Bucket>, i: nat, me: nat, bucketSize: nat, h2d: seq<byte>)
    requires forall b :: b in buckets ==> |b.bytes| <= bucketSize
    requires i < |OfRank(buckets, me)| ==> h2d == OfRank(buckets, me)[i].bytes
    ensures RoundReady(ByRank(buckets), i, me, bucketSize, h2d)
  {
    var groups := ByRank(buckets);
    forall j | 0 <= j < |groups| && i < |groups[j].buckets|
      ensures BucketReady(groups[j].buckets[i], me, bucketSize, h2d)
    {
      OwnListIsItsGroup(buckets, j);
      OfRankIsOfRank(buckets, groups[j].rank);
      assert groups[j].buckets[i] in OfRank(buckets, groups[j].rank);
    }
  }
}
