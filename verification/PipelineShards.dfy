/** Splitting layers over pipeline ranks: the same number on every middle rank, and at most as many on the
    first and the last. */
module PipelineShards {
  import opened Division
  import opened RowOps

  /** No candidate: the empty list of candidates is indexed. */
  datatype ShardError = TooFewLayers | BadPipelineSize | NoCandidate

  datatype Sharding = Shards(layers: seq<int>) | Failed(error: ShardError)

  datatype Candidate = Candidate(layers: seq<int>, diff: nat)

  // ---------------------------------------------------------------- a stable sort

  function Insert(c: Candidate, sorted: seq<Candidate>): (r: seq<Candidate>)
    ensures r != []
  {
    if sorted == [] || c.diff <= sorted[0].diff then [c] + sorted else [sorted[0]] + Insert(c, sorted[1..])
  }

  function StableSort(cs: seq<Candidate>): (r: seq<Candidate>)
    ensures r == [] <==> cs == []
  {
    if cs == [] then [] else Insert(cs[0], StableSort(cs[1..]))
  }

  predicate Ascending(cs: seq<Candidate>) {
    forall i, j :: 0 <= i < j < |cs| ==> cs[i].diff <= cs[j].diff
  }

  lemma {:induction false} InsertKeeps(c: Candidate, sorted: seq<Candidate>)
    ensures multiset(Insert(c, sorted)) == multiset([c]) + multiset(sorted)
  {
    if sorted != [] && c.diff > sorted[0].diff {
      assert sorted == [sorted[0]] + sorted[1..];
      InsertKeeps(c, sorted[1..]);
    }
  }

  lemma InsertMembers(c: Candidate, sorted: seq<Candidate>)
    ensures forall x :: x in Insert(c, sorted) ==> x == c || x in sorted
  {
    InsertKeeps(c, sorted);
    forall x | x in Insert(c, sorted)
      ensures x == c || x in sorted
    {
      assert x in multiset(Insert(c, sorted));
    }
  }

  lemma {:induction false} InsertSorts(c: Candidate, sorted: seq<Candidate>)
    requires Ascending(sorted)
    ensures Ascending(Insert(c, sorted))
    ensures Insert(c, sorted)[0] == if sorted == [] || c.diff <= sorted[0].diff then c else sorted[0]
  {
    if sorted != [] && c.diff > sorted[0].diff {
      InsertSorts(c, sorted[1..]);
      InsertMembers(c, sorted[1..]);
    }
  }

  /** The sort keeps the candidates, orders them by diff, and puts the first of the smallest first. */
  lemma {:induction false} StableSortSorts(cs: seq<Candidate>)
    ensures Ascending(StableSort(cs)) && multiset(StableSort(cs)) == multiset(cs)
    ensures cs != [] && (forall i :: 0 < i < |cs| ==> cs[0].diff <= cs[i].diff) ==> StableSort(cs)[0] == cs[0]
  {
    if cs != [] {
      StableSortSorts(cs[1..]);
      InsertSorts(cs[0], StableSort(cs[1..]));
      InsertKeeps(cs[0], StableSort(cs[1..]));
      assert cs == [cs[0]] + cs[1..];
      if cs[1..] != [] {
        var head := StableSort(cs[1..])[0];
        assert head in multiset(cs[1..]);
        assert head in cs[1..];
      }
    }
  }

  // ---------------------------------------------------------------- candidates

  /** Layers left for the first and the last rank. */
  function EndLayers(layerNum: int, ppSize: int, m: nat): int {
    layerNum - m * (ppSize - 2)
  }

  /** The layers of the first rank; the last one has the rest. */
  function First(layerNum: int, ppSize: int, m: nat): int {
    EndLayers(layerNum, ppSize, m) / 2
  }

  function Last(layerNum: int, ppSize: int, m: nat): int {
    EndLayers(layerNum, ppSize, m) - EndLayers(layerNum, ppSize, m) / 2
  }

  predicate Fits(layerNum: int, ppSize: int, m: nat) {
    0 < First(layerNum, ppSize, m) <= m && 0 < Last(layerNum, ppSize, m) <= m
  }

  function Layout(layerNum: int, ppSize: int, m: nat): seq<int>
    requires ppSize >= 2
  {
    [First(layerNum, ppSize, m)] + Copies(m as int, ppSize - 2) + [Last(layerNum, ppSize, m)]
  }

  function Abs(x: int): nat {
    if x < 0 then -x else x
  }

  function CandidateFor(layerNum: int, ppSize: int, m: nat): Candidate
    requires ppSize >= 2
  {
    Candidate(Layout(layerNum, ppSize, m), Abs(First(layerNum, ppSize, m) - m))
  }

  function Candidates(layerNum: int, ppSize: int, m: nat): seq<Candidate>
    requires ppSize >= 2
  {
    if m == 0 then []
    else
      Candidates(layerNum, ppSize, m - 1)
      + (if Fits(layerNum, ppSize, m - 1) then [CandidateFor(layerNum, ppSize, m - 1)] else [])
  }

  method DynamicPipelineShards(layerNum: int, ppSize: int) returns (r: Sharding)
    ensures layerNum < ppSize ==> r == Failed(TooFewLayers)
    ensures layerNum >= ppSize && ppSize < 1 ==> r == Failed(BadPipelineSize)
    ensures layerNum >= ppSize == 1 ==> r == Shards([layerNum])
    ensures layerNum >= ppSize == 2 ==> r == Shards([layerNum / 2, layerNum - layerNum / 2])
    ensures layerNum >= ppSize >= 3 ==> var m := Middle(layerNum, ppSize);
      r == if m * (ppSize - 2) + 2 <= layerNum then Shards(Layout(layerNum, ppSize, m)) else Failed(NoCandidate)
  {
    if layerNum < ppSize { return Failed(TooFewLayers); }
    if ppSize < 1 { return Failed(BadPipelineSize); }
    if ppSize == 1 { return Shards([layerNum]); }
    if ppSize == 2 { return Shards([layerNum / 2, layerNum - layerNum / 2]); }
    var strategy := Collect(layerNum, ppSize);
    var sorted := StableSort(strategy);
    SmallestMiddleWins(layerNum, ppSize);
    if sorted == [] { return Failed(NoCandidate); }
    return Shards(sorted[0].layers);
  }

  method Collect(layerNum: int, ppSize: int) returns (strategy: seq<Candidate>)
    requires layerNum >= ppSize >= 3
    ensures strategy == Candidates(layerNum, ppSize, layerNum)
  {
    var middleSize := ppSize - 2;
    strategy := [];
    var m := 0;
    while m < layerNum
      invariant 0 <= m <= layerNum && strategy == Candidates(layerNum, ppSize, m)
    {
      var ends := layerNum - m * middleSize;
      var first, last := ends / 2, ends - ends / 2;
      if 0 < first <= m && 0 < last <= m {
        strategy := strategy + [Candidate([first] + Copies(m, middleSize) + [last], Abs(first - m))];
      }
      m := m + 1;
    }
  }

  // ---------------------------------------------------------------- the closed form

  /** ceil(layerNum / ppSize). */
  function Middle(layerNum: int, ppSize: int): nat
    requires layerNum >= ppSize >= 1
  {
    (layerNum + ppSize - 1) / ppSize
  }

  lemma MiddleIsCeiling(layerNum: int, ppSize: int, m: nat)
    requires layerNum >= ppSize >= 1
    ensures layerNum <= m * ppSize <==> Middle(layerNum, ppSize) <= m
  {
    var q, r := Middle(layerNum, ppSize), (layerNum + ppSize - 1) % ppSize;
    assert layerNum + ppSize - 1 == q * ppSize + r;
    if q <= m {
      TimesGrows(q, m, ppSize);
    } else {
      TimesGrows(m + 1, q, ppSize);
      Distributes(m, -1, ppSize);
    }
  }

  /** A number of middle layers fits just when the ranks can hold all layers and the ends are not empty. */
  lemma FitsExactly(layerNum: int, ppSize: int, m: nat)
    requires layerNum >= ppSize >= 3
    ensures Fits(layerNum, ppSize, m) <==> Middle(layerNum, ppSize) <= m && m * (ppSize - 2) + 2 <= layerNum
  {
    MiddleIsCeiling(layerNum, ppSize, m);
    Halves(EndLayers(layerNum, ppSize, m));
    assert m * ppSize == m * (ppSize - 2) + 2 * m;
  }

  lemma Halves(n: int)
    ensures n / 2 <= n - n / 2 <= n / 2 + 1
  {
  }

  /** More middle layers leave fewer for the ends. */
  lemma FirstShrinks(layerNum: int, ppSize: int, m: nat, m': nat)
    requires ppSize >= 2 && m <= m'
    ensures First(layerNum, ppSize, m') <= First(layerNum, ppSize, m)
    ensures m' * (ppSize - 2) + 2 <= layerNum ==> m * (ppSize - 2) + 2 <= layerNum
  {
    TimesGrows(m, m', ppSize - 2);
  }

  /** Fewer layers in the middle are nearer to those of the first rank. */
  lemma NearestIsSmallest(layerNum: int, ppSize: int, m: nat)
    requires layerNum >= ppSize >= 3 && Fits(layerNum, ppSize, m)
    ensures var q := Middle(layerNum, ppSize);
      && q <= m && Fits(layerNum, ppSize, q)
      && CandidateFor(layerNum, ppSize, q).diff <= CandidateFor(layerNum, ppSize, m).diff
  {
    var q := Middle(layerNum, ppSize);
    FitsExactly(layerNum, ppSize, m);
    FirstShrinks(layerNum, ppSize, q, m);
    FitsExactly(layerNum, ppSize, q);
  }

  /** The first candidate is that one, and no other is nearer. */
  ghost predicate StartsAt(cs: seq<Candidate>, first: Candidate) {
    cs != [] ==> cs[0] == first && forall i :: 0 <= i < |cs| ==> first.diff <= cs[i].diff
  }

  lemma StartsAtStill(cs: seq<Candidate>, c: Candidate, first: Candidate)
    requires StartsAt(cs, first) && first.diff <= c.diff && (cs == [] ==> c == first)
    ensures StartsAt(cs + [c], first)
  {
  }

  lemma {:induction false} CandidatesStartAtMiddle(layerNum: int, ppSize: int, m: nat)
    requires layerNum >= ppSize >= 3
    ensures var q, cs := Middle(layerNum, ppSize), Candidates(layerNum, ppSize, m);
      && (cs != [] <==> q < m && Fits(layerNum, ppSize, q))
      && StartsAt(cs, CandidateFor(layerNum, ppSize, q))
  {
    if m > 0 {
      CandidatesStartAtMiddle(layerNum, ppSize, m - 1);
      if Fits(layerNum, ppSize, m - 1) {
        NearestIsSmallest(layerNum, ppSize, m - 1);
        StartsAtStill(Candidates(layerNum, ppSize, m - 1), CandidateFor(layerNum, ppSize, m - 1),
                      CandidateFor(layerNum, ppSize, Middle(layerNum, ppSize)));
      }
    }
  }

  lemma SmallestMiddleWins(layerNum: int, ppSize: int)
    requires layerNum >= ppSize >= 3
    ensures var q, cs := Middle(layerNum, ppSize), Candidates(layerNum, ppSize, layerNum);
      && (StableSort(cs) != [] <==> q * (ppSize - 2) + 2 <= layerNum)
      && (StableSort(cs) != [] ==> StableSort(cs)[0].layers == Layout(layerNum, ppSize, q))
  {
    var q, cs := Middle(layerNum, ppSize), Candidates(layerNum, ppSize, layerNum);
    CandidatesStartAtMiddle(layerNum, ppSize, layerNum);
    FitsExactly(layerNum, ppSize, q);
    StableSortSorts(cs);
    if q * (ppSize - 2) + 2 <= layerNum { TimesGrows(1, ppSize - 2, q); }
  }

  // ---------------------------------------------------------------- what the split is

  function Sum(xs: seq<int>): int {
    if xs == [] then 0 else xs[0] + Sum(xs[1..])
  }

  lemma {:induction false} SumOfLayout(first: int, m: int, n: nat, last: int)
    ensures Sum([first] + Copies(m, n) + [last]) == first + m * n + last
  {
    var xs := [first] + Copies(m, n) + [last];
    assert xs[1..] == Copies(m, n) + [last];
    SumOfCopies(m, n, last);
  }

  lemma {:induction false} SumOfCopies(m: int, n: nat, last: int)
    ensures Sum(Copies(m, n) + [last]) == m * n + last
  {
    if n == 0 {
      assert Copies(m, n) + [last] == [last] && [last][1..] == [];
    } else {
      assert (Copies(m, n) + [last])[1..] == Copies(m, n - 1) + [last];
      SumOfCopies(m, n - 1, last);
      Distributes(n, 1, m);
    }
  }

  /** Whenever a split is found it uses every layer, leaves no rank empty, and is ordered first <= last <= middle. */
  lemma SplitIsComplete(layerNum: int, ppSize: int)
    requires layerNum >= ppSize >= 3
    requires var m := Middle(layerNum, ppSize); m * (ppSize - 2) + 2 <= layerNum
    ensures var m := Middle(layerNum, ppSize); var r := Layout(layerNum, ppSize, m);
      && |r| == ppSize && Sum(r) == layerNum
      && (forall i :: 0 <= i < ppSize ==> 0 < r[i] <= m)
      && r[0] <= r[ppSize - 1] <= m && (forall i :: 0 < i < ppSize - 1 ==> r[i] == m)
  {
    var m := Middle(layerNum, ppSize);
    FitsExactly(layerNum, ppSize, m);
    Halves(EndLayers(layerNum, ppSize, m));
    SumOfLayout(First(layerNum, ppSize, m), m, ppSize - 2, Last(layerNum, ppSize, m));
    LayoutParts(First(layerNum, ppSize, m), m, ppSize - 2, Last(layerNum, ppSize, m));
  }

  lemma LayoutParts(first: int, m: int, n: nat, last: int)
    ensures var r := [first] + Copies(m, n) + [last];
      |r| == n + 2 && r[0] == first && r[n + 1] == last && forall i :: 0 < i < n + 1 ==> r[i] == m
  {
  }

  /** No split whatever has a smaller largest part. */
  lemma NoSmallerMaximum(layerNum: int, ppSize: int, split: seq<int>, most: nat)
    requires layerNum >= ppSize >= 1 && |split| == ppSize && Sum(split) == layerNum
    requires forall i :: 0 <= i < |split| ==> split[i] <= most
    ensures Middle(layerNum, ppSize) <= most
  {
    SumAtMost(split, most);
    MiddleIsCeiling(layerNum, ppSize, most);
  }

  lemma {:induction false} SumAtMost(xs: seq<int>, most: nat)
    requires forall i :: 0 <= i < |xs| ==> xs[i] <= most
    ensures Sum(xs) <= most * |xs|
  {
    if xs != [] {
      SumAtMost(xs[1..], most);
      Distributes(|xs|, 1, most);
    }
  }

  /** Five layers on four ranks: allowed by both checks, but no candidate is found. */
  lemma FiveLayersOnFourRanks(layerNum: int, ppSize: int)
    requires layerNum == 5 && ppSize == 4
    ensures Middle(layerNum, ppSize) == 2 && Candidates(layerNum, ppSize, layerNum) == []
  {
    SmallestMiddleWins(layerNum, ppSize);
  }
}
