/** Taking apart the rows of a fused query/key/value weight, which lie group by group. */
module QkvSplit {
  import opened Options
  import opened Division
  import opened RowOps

  /** The rows of n blocks of that size. */
  function Blocks(n: nat, size: nat): nat {
    if n == 0 then 0 else Blocks(n - 1, size) + size
  }

  lemma {:induction false} BlocksAre(n: nat, size: nat)
    ensures Blocks(n, size) == n * size
  {
    if n > 0 {
      BlocksAre(n - 1, size);
      Distributes(n, 1, size);
    }
  }

  lemma {:induction false} MoreBlocks(n: nat, m: nat, size: nat)
    requires n < m
    ensures Blocks(n, size) + size <= Blocks(m, size)
  {
    if n < m - 1 { MoreBlocks(n, m - 1, size); }
  }

  /** Groups of qs query rows, ds key rows and ds value rows, one group after the other. */
  function Weave<T>(q: seq<T>, k: seq<T>, v: seq<T>, groups: nat, qs: nat, ds: nat): seq<T>
    requires |q| == Blocks(groups, qs) && |k| == |v| == Blocks(groups, ds)
  {
    if groups == 0 then []
    else q[..qs] + k[..ds] + v[..ds] + Weave(q[qs..], k[ds..], v[ds..], groups - 1, qs, ds)
  }

  lemma BehindHead<T>(head: seq<T>, rest: seq<T>, a: nat, b: nat)
    requires a <= b <= |rest|
    ensures (head + rest)[|head| + a..|head| + b] == rest[a..b]
  {
  }

  lemma OfTail<T>(s: seq<T>, n: nat, a: nat, b: nat)
    requires n + a <= n + b <= |s|
    ensures s[n..][a..b] == s[n + a..n + b]
  {
  }

  /** The three parts of the group whose rows begin at `at`. */
  ghost predicate PartsAt<T>(w: seq<T>, at: nat, q: seq<T>, k: seq<T>, v: seq<T>) {
    && at + |q| + |k| + |v| <= |w| && w[at..at + |q|] == q
    && w[at + |q|..at + |q| + |k|] == k && w[at + |q| + |k|..at + |q| + |k| + |v|] == v
  }

  lemma PartsBehindHead<T>(head: seq<T>, rest: seq<T>, at: nat, q: seq<T>, k: seq<T>, v: seq<T>)
    requires PartsAt(rest, at, q, k, v)
    ensures PartsAt(head + rest, |head| + at, q, k, v)
  {
    BehindHead(head, rest, at, at + |q|);
    BehindHead(head, rest, at + |q|, at + |q| + |k|);
    BehindHead(head, rest, at + |q| + |k|, at + |q| + |k| + |v|);
  }

  lemma PartsFirst<T>(q: seq<T>, k: seq<T>, v: seq<T>, rest: seq<T>)
    ensures PartsAt(q + k + v + rest, 0, q, k, v)
  {
  }

  /** Group g's rows of a separate weight. */
  function Part<T>(s: seq<T>, groups: nat, g: nat, size: nat): seq<T>
    requires |s| == Blocks(groups, size) && g < groups
  {
    MoreBlocks(g, groups, size);
    s[Blocks(g, size)..Blocks(g, size) + size]
  }

  lemma PartOfTail<T>(s: seq<T>, groups: nat, g: nat, size: nat)
    requires |s| == Blocks(groups, size) && 0 < g < groups
    ensures size <= |s| && |s[size..]| == Blocks(groups - 1, size)
    ensures Part(s[size..], groups - 1, g - 1, size) == Part(s, groups, g, size)
  {
    MoreBlocks(g - 1, groups - 1, size);
    OfTail(s, size, Blocks(g - 1, size), Blocks(g - 1, size) + size);
  }

  lemma PartFirst<T>(s: seq<T>, groups: nat, size: nat)
    requires |s| == Blocks(groups, size) && groups > 0
    ensures size <= |s| && Part(s, groups, 0, size) == s[..size]
  {
  }

  /** The rows of group g, in the fused weight and in the separate ones: queries, then keys, then values. */
  lemma {:induction false} WeaveAt<T>(q: seq<T>, k: seq<T>, v: seq<T>, groups: nat, qs: nat, ds: nat, g: nat)
    requires |q| == Blocks(groups, qs) && |k| == |v| == Blocks(groups, ds) && g < groups
    ensures PartsAt(Weave(q, k, v, groups, qs, ds), Blocks(g, qs + 2 * ds),
                    Part(q, groups, g, qs), Part(k, groups, g, ds), Part(v, groups, g, ds))
    decreases groups
  {
    var head, rest := q[..qs] + k[..ds] + v[..ds], Weave(q[qs..], k[ds..], v[ds..], groups - 1, qs, ds);
    if g == 0 {
      PartFirst(q, groups, qs);
      PartFirst(k, groups, ds);
      PartFirst(v, groups, ds);
      PartsFirst(q[..qs], k[..ds], v[..ds], rest);
    } else {
      PartOfTail(q, groups, g, qs);
      PartOfTail(k, groups, g, ds);
      PartOfTail(v, groups, g, ds);
      WeaveAt(q[qs..], k[ds..], v[ds..], groups - 1, qs, ds, g - 1);
      PartsBehindHead(head, rest, Blocks(g - 1, qs + 2 * ds),
                      Part(q, groups, g, qs), Part(k, groups, g, ds), Part(v, groups, g, ds));
    }
  }

  lemma TailOfJoin<T>(a: seq<T>, b: seq<T>, n: nat)
    requires n <= |a|
    ensures (a + b)[..n] == a[..n] && (a + b)[n..] == a[n..] + b
  {
  }

  /** One more group at the end. */
  lemma {:induction false} WeaveMore<T>(q: seq<T>, k: seq<T>, v: seq<T>, groups: nat, qs: nat, ds: nat, q1: seq<T>,
                                        k1: seq<T>, v1: seq<T>)
    requires |q| == Blocks(groups, qs) && |k| == |v| == Blocks(groups, ds) && |q1| == qs && |k1| == |v1| == ds
    ensures |q + q1| == Blocks(groups + 1, qs) && |k + k1| == |v + v1| == Blocks(groups + 1, ds)
    ensures Weave(q + q1, k + k1, v + v1, groups + 1, qs, ds) == Weave(q, k, v, groups, qs, ds) + (q1 + k1 + v1)
    decreases groups
  {
    if groups == 0 {
      assert Weave((q + q1)[qs..], (k + k1)[ds..], (v + v1)[ds..], 0, qs, ds) == [];
    } else {
      WeaveMore(q[qs..], k[ds..], v[ds..], groups - 1, qs, ds, q1, k1, v1);
      TailOfJoin(q, q1, qs);
      TailOfJoin(k, k1, ds);
      TailOfJoin(v, v1, ds);
      Regroup(q[..qs] + k[..ds] + v[..ds], Weave(q[qs..], k[ds..], v[ds..], groups - 1, qs, ds), q1 + k1 + v1);
    }
  }

  lemma SplitHead<T>(a: seq<T>, b: seq<T>, c: seq<T>, rest: seq<T>, a': seq<T>, b': seq<T>, c': seq<T>, rest': seq<T>)
    requires |a| == |a'| && |b| == |b'| && |c| == |c'| && a + b + c + rest == a' + b' + c' + rest'
    ensures a == a' && b == b' && c == c' && rest == rest'
  {
    var s, s' := a + b + c + rest, a' + b' + c' + rest';
    var i, j, k := |a|, |a| + |b|, |a| + |b| + |c|;
    assert a == s[..i] && a' == s'[..i];
    assert b == s[i..j] && b' == s'[i..j];
    assert c == s[j..k] && c' == s'[j..k];
    assert rest == s[k..] && rest' == s'[k..];
  }

  /** The fused rows determine the three weights. */
  lemma {:induction false} WeaveIsInjective<T>(q: seq<T>, k: seq<T>, v: seq<T>, q': seq<T>, k': seq<T>, v': seq<T>,
                                               groups: nat, qs: nat, ds: nat)
    requires |q| == |q'| == Blocks(groups, qs) && |k| == |v| == |k'| == |v'| == Blocks(groups, ds)
    requires Weave(q, k, v, groups, qs, ds) == Weave(q', k', v', groups, qs, ds)
    ensures q == q' && k == k' && v == v'
    decreases groups
  {
    if groups > 0 {
      SplitHead(q[..qs], k[..ds], v[..ds], Weave(q[qs..], k[ds..], v[ds..], groups - 1, qs, ds),
                q'[..qs], k'[..ds], v'[..ds], Weave(q'[qs..], k'[ds..], v'[ds..], groups - 1, qs, ds));
      WeaveIsInjective(q[qs..], k[ds..], v[ds..], q'[qs..], k'[ds..], v'[ds..], groups - 1, qs, ds);
      assert q == q[..qs] + q[qs..] && k == k[..ds] + k[ds..] && v == v[..ds] + v[ds..];
      assert q' == q'[..qs] + q'[qs..] && k' == k'[..ds] + k'[ds..] && v' == v'[..ds] + v'[ds..];
    }
  }

  lemma {:induction false} WeaveNothing<T>(groups: nat)
    ensures Blocks(groups, 0) == 0 && Weave<T>([], [], [], groups, 0, 0) == []
  {
    if groups > 0 { WeaveNothing<T>(groups - 1); }
  }

  /** Rows of one chunk when the rows are cut into at most kvHeads chunks. */
  function ChunkRows(rows: nat, kvHeads: nat): nat
    requires kvHeads > 0
  {
    (rows + kvHeads - 1) / kvHeads
  }

  /** With whole key and value rows every chunk is exactly one group. */
  lemma WholeGroups(kv: nat, perKv: nat, kvHeads: nat)
    requires kvHeads > 0 && kv % kvHeads == 0
    ensures var d := kv / kvHeads;
      && kv * perKv / kvHeads == perKv * d && ChunkRows(kv * (perKv + 2), kvHeads) == perKv * d + 2 * d
      && kv * (perKv + 2) == kvHeads * (perKv * d + 2 * d)
  {
    var d := kv / kvHeads;
    assert kv == d * kvHeads;
    Rearrange(d, kvHeads, perKv);
    Rearrange(d, kvHeads, perKv + 2);
    QuotientIs(kv * perKv, kvHeads, perKv * d, 0);
    QuotientIs(kv * (perKv + 2) + kvHeads - 1, kvHeads, (perKv + 2) * d, kvHeads - 1);
  }

  lemma Rearrange(d: nat, g: nat, m: nat)
    ensures (d * g) * m == (m * d) * g && (m * d) * g == g * (m * d) && (m + 2) * d == m * d + 2 * d
  {
  }

  /** The rows of the three pieces of one group. */
  function Pieces(kv: nat, perKv: nat, kvHeads: nat): nat
    requires kvHeads > 0
  {
    kv * perKv / kvHeads + 2 * (kv / kvHeads)
  }

  lemma PiecesAreFewer(kv: nat, perKv: nat, kvHeads: nat)
    requires kvHeads > 0 && kv % kvHeads != 0
    ensures Blocks(kvHeads, Pieces(kv, perKv, kvHeads)) < kv * (perKv + 2)
  {
    var a, d := kv * perKv / kvHeads, kv / kvHeads;
    QuotientAtMost(kv, kvHeads);
    QuotientAtMost(kv * perKv, kvHeads);
    TwoMore(a, d, kvHeads);
    TwoMore(perKv, 1, kv);
    BlocksAre(kvHeads, a + 2 * d);
  }

  lemma QuotientAtMost(x: nat, n: nat)
    requires n > 0
    ensures (x / n) * n <= x && (x % n != 0 ==> (x / n) * n < x)
  {
    assert x == (x / n) * n + x % n;
  }

  lemma TwoMore(a: nat, d: nat, n: nat)
    ensures (a + 2 * d) * n == a * n + 2 * (d * n) && a * n == n * a
  {
  }

  lemma ChunkRowsSuffice(rows: nat, kvHeads: nat)
    requires kvHeads > 0
    ensures rows <= Blocks(kvHeads, ChunkRows(rows, kvHeads))
  {
    var c, r := ChunkRows(rows, kvHeads), (rows + kvHeads - 1) % kvHeads;
    assert rows + kvHeads - 1 == c * kvHeads + r;
    BlocksAre(kvHeads, c);
  }

  lemma {:induction false} LargerBlocks(n: nat, size: nat, larger: nat)
    requires size <= larger
    ensures Blocks(n, size) <= Blocks(n, larger) && (n > 0 ==> size <= Blocks(n, size))
  {
    if n > 0 { LargerBlocks(n - 1, size, larger); }
  }

  lemma LessTimes(pieces: nat, c: nat, n: nat, rows: nat)
    requires n > 0 && Blocks(n, pieces) < rows <= Blocks(n, c)
    ensures pieces < c && pieces < rows
  {
    if c <= pieces { LargerBlocks(n, c, pieces); }
    LargerBlocks(n, pieces, pieces);
  }

  /** Otherwise the pieces of a group do not add up to the first chunk. */
  lemma BrokenGroups(kv: nat, perKv: nat, kvHeads: nat, rows: nat)
    requires kvHeads > 0 && kv % kvHeads != 0 && rows == kv * (perKv + 2)
    ensures Pieces(kv, perKv, kvHeads) < ChunkRows(rows, kvHeads) && Pieces(kv, perKv, kvHeads) < rows
  {
    PiecesAreFewer(kv, perKv, kvHeads);
    ChunkRowsSuffice(rows, kvHeads);
    LessTimes(Pieces(kv, perKv, kvHeads), ChunkRows(rows, kvHeads), kvHeads, rows);
  }

  /** How the rows are cut: the chunks, and the pieces of each. */
  lemma CutExactly(rows: nat, kv: nat, perKv: nat, kvHeads: nat)
    requires kvHeads > 0 && rows == kv * (perKv + 2)
    ensures var size, qs, ds := ChunkRows(rows, kvHeads), kv * perKv / kvHeads, kv / kvHeads;
      if kv % kvHeads == 0 then size == qs + 2 * ds && rows == Blocks(kvHeads, size) && qs == perKv * ds
      else qs + 2 * ds < size && qs + 2 * ds < rows
  {
    if kv % kvHeads == 0 {
      WholeGroups(kv, perKv, kvHeads);
      BlocksAre(kvHeads, ChunkRows(rows, kvHeads));
    } else {
      BrokenGroups(kv, perKv, kvHeads, rows);
    }
  }

  /** Three rows for two heads of their own: every assertion holds, and no group has a whole key row. */
  lemma IndivisibleKeyRows()
    ensures 2 % 2 == 0 && 3 % (2 / 2 + 2) == 0 && (3 / (2 / 2 + 2)) % 2 != 0
  {
  }

  /** The rows of one group's key. */
  function GroupRows(rows: nat, perKv: nat, kvHeads: nat): nat
    requires kvHeads > 0
  {
    rows / (perKv + 2) / kvHeads
  }

  /** What the sizes are once the assertions hold. */
  lemma SizesExactly(rows: nat, perKv: nat, kv: nat, kvHeads: nat)
    requires kvHeads > 0 && rows % (perKv + 2) == 0 && kv == rows / (perKv + 2)
    ensures var size, qs, ds := ChunkRows(rows, kvHeads), kv * perKv / kvHeads, kv / kvHeads;
      && ds == GroupRows(rows, perKv, kvHeads)
      && if kv % kvHeads == 0 then size == qs + 2 * ds && rows == Blocks(kvHeads, size) && qs == perKv * ds
         else qs + 2 * ds < size && qs + 2 * ds < rows
  {
    assert rows == kv * (perKv + 2);
    CutExactly(rows, kv, perKv, kvHeads);
  }

  method SplitQkv<T>(tensor: seq<T>, heads: nat, kvHeads: nat) returns (r: Option<(seq<T>, seq<T>, seq<T>)>)
    ensures r.Some? <==> && kvHeads > 0 && heads % kvHeads == 0 && |tensor| % (heads / kvHeads + 2) == 0
                         && (|tensor| / (heads / kvHeads + 2)) % kvHeads == 0
    ensures r.Some? ==>
      var (q, k, v) := r.value;
      var d := GroupRows(|tensor|, heads / kvHeads, kvHeads);
      && |q| == Blocks(kvHeads, heads / kvHeads * d) && |k| == |v| == Blocks(kvHeads, d)
      && Weave(q, k, v, kvHeads, heads / kvHeads * d, d) == tensor
  {
    if kvHeads == 0 || heads % kvHeads != 0 { return None; }
    r := SplitGroups(tensor, heads / kvHeads, kvHeads);
  }

  method SplitGroups<T>(tensor: seq<T>, perKv: nat, kvHeads: nat) returns (r: Option<(seq<T>, seq<T>, seq<T>)>)
    requires kvHeads > 0
    ensures r.Some? <==> |tensor| % (perKv + 2) == 0 && (|tensor| / (perKv + 2)) % kvHeads == 0
    ensures r.Some? ==>
      var (q, k, v) := r.value;
      var d := GroupRows(|tensor|, perKv, kvHeads);
      && |q| == Blocks(kvHeads, perKv * d) && |k| == |v| == Blocks(kvHeads, d)
      && Weave(q, k, v, kvHeads, perKv * d, d) == tensor
  {
    if |tensor| % (perKv + 2) != 0 { return None; }
    var kv := |tensor| / (perKv + 2);
    var size, qs, ds := ChunkRows(|tensor|, kvHeads), kv * perKv / kvHeads, kv / kvHeads;
    SizesExactly(|tensor|, perKv, kv, kvHeads);
    r := SplitChunks(tensor, size, qs, ds, kvHeads);
  }

  /** The loop over the chunks: fails at a chunk that the three pieces do not make up. */
  method SplitChunks<T>(tensor: seq<T>, size: nat, qs: nat, ds: nat, ghost groups: nat)
    returns (r: Option<(seq<T>, seq<T>, seq<T>)>)
    requires (size == qs + 2 * ds && |tensor| == Blocks(groups, size)) || (qs + 2 * ds < size && qs + 2 * ds < |tensor|)
    ensures r.Some? <==> size == qs + 2 * ds
    ensures r.Some? ==>
      var (q, k, v) := r.value;
      |q| == Blocks(groups, qs) && |k| == |v| == Blocks(groups, ds) && Weave(q, k, v, groups, qs, ds) == tensor
  {
    var q: seq<T>, k: seq<T>, v: seq<T> := [], [], [];
    var at := 0;
    ghost var g := 0;
    while at < |tensor|
      invariant 0 <= g <= groups && at == Blocks(g, size) <= |tensor| && (g > 0 ==> size == qs + 2 * ds)
      invariant WovenTo(q, k, v, g, qs, ds, tensor[..at])
      decreases |tensor| - at
    {
      var end := if at + size <= |tensor| then at + size else |tensor|;
      var chunk := tensor[at..end];
      if size == qs + 2 * ds { NextBlock(groups, g, size, |tensor|); }
      if |chunk| != qs + 2 * ds { return None; }
      WovenMore(q, k, v, g, qs, ds, tensor[..at], chunk);
      assert tensor[..at + size] == tensor[..at] + chunk;
      q, k, v := q + chunk[..qs], k + chunk[qs..qs + ds], v + chunk[qs + ds..];
      at := at + size;
      g := g + 1;
    }
    assert tensor[..at] == tensor;
    AllBlocks(groups, g, size);
    if size == 0 { WeaveNothing<T>(groups); WeaveNothing<T>(g); }
    return Some((q, k, v));
  }

  lemma NextBlock(groups: nat, g: nat, size: nat, rows: nat)
    requires g <= groups && rows == Blocks(groups, size) && Blocks(g, size) < rows
    ensures g < groups && 0 < size && Blocks(g, size) + size <= rows
  {
    if g < groups { MoreBlocks(g, groups, size); }
    BlocksAre(groups, size);
  }

  /** The pieces taken so far are the rows so far, woven. */
  ghost predicate WovenTo<T>(q: seq<T>, k: seq<T>, v: seq<T>, g: nat, qs: nat, ds: nat, rows: seq<T>) {
    |q| == Blocks(g, qs) && |k| == |v| == Blocks(g, ds) && Weave(q, k, v, g, qs, ds) == rows
  }

  lemma WovenMore<T>(q: seq<T>, k: seq<T>, v: seq<T>, g: nat, qs: nat, ds: nat, rows: seq<T>, chunk: seq<T>)
    requires WovenTo(q, k, v, g, qs, ds, rows) && |chunk| == qs + 2 * ds
    ensures WovenTo(q + chunk[..qs], k + chunk[qs..qs + ds], v + chunk[qs + ds..], g + 1, qs, ds, rows + chunk)
  {
    WeaveMore(q, k, v, g, qs, ds, chunk[..qs], chunk[qs..qs + ds], chunk[qs + ds..]);
    assert chunk == chunk[..qs] + chunk[qs..qs + ds] + chunk[qs + ds..];
  }

  lemma AllBlocks(groups: nat, g: nat, size: nat)
    requires g <= groups && Blocks(g, size) == Blocks(groups, size)
    ensures g == groups || size == 0
  {
    if g < groups { MoreBlocks(g, groups, size); }
  }
}
