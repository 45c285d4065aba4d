/** Loading a checkpoint with every file read by one rank only, and the broadcasts that spread it. */
module SafetensorsLoad {
  import opened Division
  import opened RowOps

  /** What a rank knows of a parameter: the tensor, or the rank that holds it. */
  datatype Entry<T> = Held(tensor: T) | At(rank: nat)

  /** The files in sorted order, the parameters the index lists for each, and what each file contains. */
  datatype Checkpoint<T> = Checkpoint(files: seq<string>, index: map<string, seq<string>>,
                                      contents: map<string, map<string, T>>) {
    /** Every file is indexed and can be read. */
    ghost predicate Complete() {
      forall f :: f in files ==> f in index && f in contents
    }

    /** The index gives each parameter one file. */
    ghost predicate Mapped() {
      && Complete()
      && forall i, j, p :: 0 <= i < j < |files| && p in index[files[i]] ==> p !in index[files[j]]
    }

    predicate Listed(i: nat, p: string)
      requires i < |files| && files[i] in index
    {
      p in index[files[i]]
    }

    predicate Contained(i: nat, p: string)
      requires i < |files| && files[i] in contents
    {
      p in contents[files[i]]
    }

    /** No file twice, no parameter in two files, and the index lists exactly what the files contain. */
    ghost predicate Valid() {
      && Complete()
      && (forall i, j :: 0 <= i < j < |files| ==> files[i] != files[j])
      && (forall f :: f in files ==> contents[f].Keys == set p | p in index[f])
      && (forall i, j, p :: 0 <= i < j < |files| && p in contents[files[i]] ==> p !in contents[files[j]])
    }
  }

  /** ceil(total / world). */
  function ChunkSize(total: nat, world: nat): nat
    requires world > 0
  {
    (total + world - 1) / world
  }

  function FilesOf(files: seq<string>, world: nat, rank: nat): seq<string>
    requires world > 0
  {
    var size := ChunkSize(|files|, world);
    Slice(files, rank * size, rank * size + size)
  }

  function Owner(total: nat, world: nat, i: nat): nat
    requires world > 0 && i < total
  {
    ChunkSizePositive(total, world);
    i / ChunkSize(total, world)
  }

  lemma ChunkSizePositive(total: nat, world: nat)
    requires world > 0
    ensures total <= world * ChunkSize(total, world) && (total > 0 ==> ChunkSize(total, world) > 0)
  {
    var q, r := (total + world - 1) / world, (total + world - 1) % world;
    assert total + world - 1 == world * q + r;
  }

  lemma WholeChunks(total: nat, world: nat)
    requires world > 0
    ensures (total / world) * world <= total
  {
  }

  /** No rank reads more than its share of the files, rounded up. */
  lemma FilesAreShared(files: seq<string>, world: nat, r: nat)
    requires r < world
    ensures |FilesOf(files, world, r)| * world < |files| + world
  {
    var n, size := |FilesOf(files, world, r)|, ChunkSize(|files|, world);
    assert n <= size;
    WholeChunks(|files| + world - 1, world);
    TimesGrows(n, size, world);
  }

  /** Rank r starts at file r * size. */
  lemma OwnerIs(total: nat, world: nat, i: nat, r: nat)
    requires world > 0 && i < total
    ensures var size := ChunkSize(total, world);
      (r * size <= i < r * size + size <==> r == Owner(total, world, i)) && Owner(total, world, i) < world
  {
    ChunkSizePositive(total, world);
    var size, q := ChunkSize(total, world), Owner(total, world, i);
    assert i == q * size + i % size;
    if r * size <= i < r * size + size { QuotientIs(i, size, r, i - r * size); }
    if q >= world { TimesGrows(world, q, size); }
  }

  /** The files of a rank, as a plain slice. */
  lemma FilesOfIs(files: seq<string>, world: nat, r: nat, i: nat)
    requires world > 0 && i < |files|
    ensures exists lo: nat, hi: nat {:trigger files[lo..hi]} ::
      && lo <= hi <= |files| && FilesOf(files, world, r) == files[lo..hi]
      && (lo <= i < hi <==> r == Owner(|files|, world, i))
  {
    OwnerIs(|files|, world, i, r);
    var size := ChunkSize(|files|, world);
    var lo, hi := Bound(r * size, |files|), Bound(r * size + size, |files|);
    assert lo <= hi && FilesOf(files, world, r) == files[lo..hi];
  }

  /** Every file is read by exactly one rank. */
  lemma EveryFileHasOneOwner(files: seq<string>, world: nat, i: nat, r: nat)
    requires world > 0 && i < |files| && forall a, b :: 0 <= a < b < |files| ==> files[a] != files[b]
    ensures Owner(|files|, world, i) < world
    ensures files[i] in FilesOf(files, world, r) <==> r == Owner(|files|, world, i)
  {
    OwnerIs(|files|, world, i, r);
    FilesOfIs(files, world, r, i);
    var lo: nat, hi: nat :| && lo <= hi <= |files| && FilesOf(files, world, r) == files[lo..hi]
                            && (lo <= i < hi <==> r == Owner(|files|, world, i));
    InSlice(files, lo, hi, i);
  }

  lemma InSlice(files: seq<string>, lo: nat, hi: nat, i: nat)
    requires lo <= hi <= |files| && i < |files| && forall a, b :: 0 <= a < b < |files| ==> files[a] != files[b]
    ensures files[i] in files[lo..hi] <==> lo <= i < hi
  {
    if files[i] in files[lo..hi] {
      var j :| 0 <= j < hi - lo && files[lo..hi][j] == files[i];
      assert files[lo + j] == files[i];
    }
    if lo <= i < hi { assert files[lo..hi][i - lo] == files[i]; }
  }

  // ---------------------------------------------------------------- loading

  /** What one file adds to the dictionary of rank `me`. */
  function FileEntries<T>(c: Checkpoint<T>, file: string, owner: nat, me: nat): map<string, Entry<T>>
    requires file in c.contents && file in c.index
  {
    if owner == me then map p | p in c.contents[file] :: Held(c.contents[file][p])
    else map p | p in c.index[file] :: At(owner)
  }

  /** The rank that reads each file. */
  ghost function OwnerList(total: nat, world: nat): (r: seq<nat>)
    requires world > 0
    ensures |r| == total && forall i :: 0 <= i < total ==> r[i] == Owner(total, world, i)
  {
    seq(total, i requires 0 <= i < total => Owner(total, world, i))
  }

  /** The dictionary after the first k files, when file i is read by rank owners[i]. */
  ghost function Entries<T>(c: Checkpoint<T>, owners: seq<nat>, me: nat, k: nat): map<string, Entry<T>>
    requires c.Complete() && |owners| == |c.files| && k <= |c.files|
  {
    if k == 0 then map[]
    else Entries(c, owners, me, k - 1) + FileEntries(c, c.files[k - 1], owners[k - 1], me)
  }

  ghost function Shards<T>(c: Checkpoint<T>, world: nat, me: nat): map<string, Entry<T>>
    requires c.Complete() && world > 0
  {
    Entries(c, OwnerList(|c.files|, world), me, |c.files|)
  }

  method AddFile<T>(c: Checkpoint<T>, file: string, rank: nat, me: nat, before: map<string, Entry<T>>)
    returns (shards: map<string, Entry<T>>)
    requires c.Complete() && file in c.files
    ensures shards == before + FileEntries(c, file, rank, me)
  {
    shards := before;
    if rank == me {
      shards := shards + map p | p in c.contents[file] :: Held(c.contents[file][p]);
    } else {
      var names := c.index[file];
      var j := 0;
      while j < |names|
        invariant 0 <= j <= |names|
        invariant shards == before + map p | p in names[..j] :: At(rank)
      {
        assert names[..j + 1] == names[..j] + [names[j]];
        shards := shards[names[j] := At(rank)];
        j := j + 1;
      }
      assert names[..j] == names;
    }
  }

  /** The number of files of the ranks before. */
  ghost function Start(total: nat, world: nat, rank: nat): (r: nat)
    requires world > 0
    ensures r <= total
  {
    Bound(rank * ChunkSize(total, world), total)
  }

  lemma FirstAndLastStart(total: nat, world: nat)
    requires world > 0
    ensures Start(total, world, 0) == 0 && Start(total, world, world) == total
  {
    ChunkSizePositive(total, world);
  }

  /** The files from k on, n of them, belong to that rank. */
  ghost predicate OwnedFrom(owners: seq<nat>, k: nat, n: nat, rank: nat) {
    k + n <= |owners| && forall i :: k <= i < k + n ==> owners[i] == rank
  }

  /** The chunk of a rank starts where the one before ends. */
  lemma ChunkFollows<T>(c: Checkpoint<T>, world: nat, rank: nat)
    requires rank < world
    ensures var k, n := Start(|c.files|, world, rank), |FilesOf(c.files, world, rank)|;
      && k + n == Start(|c.files|, world, rank + 1) && FilesOf(c.files, world, rank) == c.files[k..k + n]
      && OwnedFrom(OwnerList(|c.files|, world), k, n, rank)
  {
    var size := ChunkSize(|c.files|, world);
    Distributes(rank, -1, size);
    forall i | rank * size <= i < rank * size + size && i < |c.files|
      ensures Owner(|c.files|, world, i) == rank
    {
      OwnerIs(|c.files|, world, i, rank);
    }
  }

  /** The dictionary after some more files of one rank. */
  ghost function WithFiles<T>(c: Checkpoint<T>, files: seq<string>, rank: nat, me: nat,
                              before: map<string, Entry<T>>): map<string, Entry<T>>
    requires c.Complete() && forall f :: f in files ==> f in c.files
  {
    if files == [] then before
    else
      var n := |files| - 1;
      WithFiles(c, files[..n], rank, me, before) + FileEntries(c, files[n], rank, me)
  }

  method AddFiles<T>(c: Checkpoint<T>, rank: nat, me: nat, files: seq<string>, before: map<string, Entry<T>>)
    returns (shards: map<string, Entry<T>>)
    requires c.Complete() && forall f :: f in files ==> f in c.files
    ensures shards == WithFiles(c, files, rank, me, before)
  {
    shards := before;
    var i := 0;
    while i < |files|
      invariant 0 <= i <= |files| && shards == WithFiles(c, files[..i], rank, me, before)
    {
      assert files[..i + 1][..i] == files[..i];
      shards := AddFile(c, files[i], rank, me, shards);
      i := i + 1;
    }
    assert files[..i] == files;
  }

  lemma WithFilesNext<T>(c: Checkpoint<T>, files: seq<string>, f: string, rank: nat, me: nat,
                         before: map<string, Entry<T>>)
    requires c.Complete() && f in c.files && forall g :: g in files ==> g in c.files
    ensures WithFiles(c, files + [f], rank, me, before)
          == WithFiles(c, files, rank, me, before) + FileEntries(c, f, rank, me)
  {
    assert (files + [f])[..|files|] == files;
  }

  lemma {:induction false} ChunkEntries<T>(c: Checkpoint<T>, owners: seq<nat>, rank: nat, me: nat, k: nat, n: nat)
    requires c.Complete() && |owners| == |c.files| && OwnedFrom(owners, k, n, rank)
    ensures WithFiles(c, c.files[k..k + n], rank, me, Entries(c, owners, me, k)) == Entries(c, owners, me, k + n)
  {
    if n > 0 {
      var files, f := c.files[k..k + n - 1], c.files[k + n - 1];
      ChunkEntries(c, owners, rank, me, k, n - 1);
      WithFilesNext(c, files, f, rank, me, Entries(c, owners, me, k));
      assert c.files[k..k + n] == files + [f];
      assert owners[k + n - 1] == rank;
    }
  }

  /** The chunks of all ranks, in rank order. */
  function Chunks(files: seq<string>, world: nat): (r: seq<seq<string>>)
    requires world > 0
    ensures |r| == world && forall rank :: 0 <= rank < world ==> r[rank] == FilesOf(files, world, rank)
  {
    seq(world, rank requires 0 <= rank => FilesOf(files, world, rank))
  }

  ghost predicate AllListed<T>(c: Checkpoint<T>, chunks: seq<seq<string>>) {
    forall r, f :: 0 <= r < |chunks| && f in chunks[r] ==> f in c.files
  }

  /** The dictionary after the chunks of the first `ranks` ranks. */
  ghost function WithChunks<T>(c: Checkpoint<T>, chunks: seq<seq<string>>, me: nat, ranks: nat): map<string, Entry<T>>
    requires c.Complete() && AllListed(c, chunks) && ranks <= |chunks|
  {
    if ranks == 0 then map[]
    else WithFiles(c, chunks[ranks - 1], ranks - 1, me, WithChunks(c, chunks, me, ranks - 1))
  }

  method AddChunks<T>(c: Checkpoint<T>, chunks: seq<seq<string>>, me: nat) returns (shards: map<string, Entry<T>>)
    requires c.Complete() && AllListed(c, chunks)
    ensures shards == WithChunks(c, chunks, me, |chunks|)
  {
    shards := map[];
    var rank := 0;
    while rank < |chunks|
      invariant 0 <= rank <= |chunks| && shards == WithChunks(c, chunks, me, rank)
    {
      shards := AddFiles(c, rank, me, chunks[rank], shards);
      rank := rank + 1;
    }
  }

  lemma ChunksAreListed<T>(c: Checkpoint<T>, world: nat)
    requires world > 0
    ensures AllListed(c, Chunks(c.files, world))
  {
  }

  lemma OneMoreChunk<T>(c: Checkpoint<T>, chunks: seq<seq<string>>, owners: seq<nat>, me: nat, rank: nat, k: nat,
                        n: nat)
    requires c.Complete() && AllListed(c, chunks) && rank < |chunks| && |owners| == |c.files|
    requires OwnedFrom(owners, k, n, rank) && chunks[rank] == c.files[k..k + n]
    requires WithChunks(c, chunks, me, rank) == Entries(c, owners, me, k)
    ensures WithChunks(c, chunks, me, rank + 1) == Entries(c, owners, me, k + n)
  {
    ChunkEntries(c, owners, rank, me, k, n);
  }

  /** Chunk r is the files from starts[r] to starts[r + 1], and rank r owns them. */
  ghost predicate CutAt<T>(c: Checkpoint<T>, chunks: seq<seq<string>>, owners: seq<nat>, starts: seq<nat>) {
    && |starts| == |chunks| + 1 && starts[0] == 0 && starts[|chunks|] == |c.files| == |owners|
    && forall r :: 0 <= r < |chunks| ==>
         && starts[r + 1] == starts[r] + |chunks[r]| <= |c.files|
         && chunks[r] == c.files[starts[r]..starts[r] + |chunks[r]|] && OwnedFrom(owners, starts[r], |chunks[r]|, r)
  }

  lemma {:induction false} ChunksAreEntries<T>(c: Checkpoint<T>, chunks: seq<seq<string>>, owners: seq<nat>,
                                               starts: seq<nat>, me: nat, ranks: nat)
    requires c.Complete() && AllListed(c, chunks) && CutAt(c, chunks, owners, starts) && ranks <= |chunks|
    ensures starts[ranks] <= |c.files| && WithChunks(c, chunks, me, ranks) == Entries(c, owners, me, starts[ranks])
  {
    if ranks > 0 {
      ChunksAreEntries(c, chunks, owners, starts, me, ranks - 1);
      OneMoreChunk(c, chunks, owners, me, ranks - 1, starts[ranks - 1], |chunks[ranks - 1]|);
    }
  }

  lemma ChunksAreCut<T>(c: Checkpoint<T>, world: nat) returns (starts: seq<nat>)
    requires world > 0
    ensures CutAt(c, Chunks(c.files, world), OwnerList(|c.files|, world), starts)
  {
    FirstAndLastStart(|c.files|, world);
    starts := seq(world + 1, r requires 0 <= r => Start(|c.files|, world, r));
    forall r | 0 <= r < world
      ensures starts[r + 1] == starts[r] + |Chunks(c.files, world)[r]| <= |c.files|
      ensures Chunks(c.files, world)[r] == c.files[starts[r]..starts[r] + |Chunks(c.files, world)[r]|]
      ensures OwnedFrom(OwnerList(|c.files|, world), starts[r], |Chunks(c.files, world)[r]|, r)
    {
      ChunkFollows(c, world, r);
    }
  }

  /** What rank `me` of `world` ranks loads. */
  method LoadSafetensors<T>(c: Checkpoint<T>, world: nat, me: nat) returns (shards: map<string, Entry<T>>)
    requires c.Complete() && me < world
    ensures shards == Shards(c, world, me)
  {
    ChunksAreListed(c, world);
    shards := AddChunks(c, Chunks(c.files, world), me);
    ghost var starts := ChunksAreCut(c, world);
    ChunksAreEntries(c, Chunks(c.files, world), OwnerList(|c.files|, world), starts, me, world);
  }

  /** The rank that broadcasts a parameter, as rank `me` sees it. */
  function Source<T>(e: Entry<T>, me: nat): nat {
    match e
    case Held(_) => me
    case At(rank) => rank
  }

  ghost function Sources<T>(shards: map<string, Entry<T>>, me: nat): map<string, nat> {
    map p | p in shards :: Source(shards[p], me)
  }

  /** File i gives rank `me` an entry for the parameter: by what it contains, or by what the index lists. */
  predicate Gives<T>(c: Checkpoint<T>, owners: seq<nat>, me: nat, i: nat, p: string)
    requires |owners| == |c.files| && i < |c.files| && c.files[i] in c.index && c.files[i] in c.contents
  {
    if owners[i] == me then c.Contained(i, p) else c.Listed(i, p)
  }

  /** The last of the first k files that does, or -1. */
  ghost function Latest<T>(c: Checkpoint<T>, owners: seq<nat>, me: nat, k: nat, p: string): (r: int)
    requires c.Complete() && |owners| == |c.files| && k <= |c.files|
    ensures -1 <= r < k && (r >= 0 ==> Gives(c, owners, me, r, p))
    ensures forall i: nat :: r < i < k ==> !Gives(c, owners, me, i, p)
  {
    if k == 0 then -1 else if Gives(c, owners, me, k - 1, p) then k - 1 else Latest(c, owners, me, k - 1, p)
  }

  /** The entry is the one of that file. */
  lemma {:induction false} EntriesAt<T>(c: Checkpoint<T>, owners: seq<nat>, me: nat, k: nat, p: string)
    requires c.Complete() && |owners| == |c.files| && k <= |c.files|
    ensures var i := Latest(c, owners, me, k, p);
      && (p in Entries(c, owners, me, k) <==> i >= 0)
      && (i >= 0 ==>
            Entries(c, owners, me, k)[p] == if owners[i] == me then Held(c.contents[c.files[i]][p]) else At(owners[i]))
  {
    if k > 0 { EntriesAt(c, owners, me, k - 1, p); }
  }

  /** What the index lists for a rank's files these files contain; and what a file contains is listed for a
      file of the same rank, or for a later one, whose entry then replaces the one from here. */
  ghost predicate IndexFits<T>(c: Checkpoint<T>, owners: seq<nat>)
    requires c.Complete() && |owners| == |c.files|
  {
    && (forall i: nat, p :: i < |c.files| && c.Listed(i, p) ==>
          exists j: nat :: j < |c.files| && owners[j] == owners[i] && c.Contained(j, p))
    && (forall j: nat, p :: j < |c.files| && c.Contained(j, p) ==>
          exists i: nat :: i < |c.files| && c.Listed(i, p) && (owners[i] == owners[j] || j < i))
  }

  lemma ValidFits<T>(c: Checkpoint<T>, owners: seq<nat>)
    requires c.Valid() && |owners| == |c.files|
    ensures c.Mapped() && IndexFits(c, owners)
  {
    forall i: nat, p | i < |c.files|
      ensures c.Listed(i, p) <==> c.Contained(i, p)
    {
      assert c.files[i] in c.files && c.contents[c.files[i]].Keys == set q | q in c.index[c.files[i]];
    }
    forall i, j, p | 0 <= i < j < |c.files| && p in c.index[c.files[i]]
      ensures p !in c.index[c.files[j]]
    {
      assert c.Listed(i, p) && c.Contained(i, p);
      assert !c.Contained(j, p) && !c.Listed(j, p);
    }
  }

  /** A listed parameter comes from the rank of the file it is listed for. */
  lemma ListedSource<T>(c: Checkpoint<T>, owners: seq<nat>, me: nat, g: nat, p: string)
    requires c.Mapped() && |owners| == |c.files| && IndexFits(c, owners) && g < |c.files| && c.Listed(g, p)
    ensures var i := Latest(c, owners, me, |c.files|, p); i >= 0 && owners[i] == owners[g]
  {
    var i := Latest(c, owners, me, |c.files|, p);
    assert forall j: nat :: j < |c.files| && c.Listed(j, p) ==> j == g;
    if owners[g] == me {
      var j: nat :| j < |c.files| && owners[j] == owners[g] && c.Contained(j, p);
      assert Gives(c, owners, me, j, p);
    } else {
      assert Gives(c, owners, me, g, p);
    }
  }

  lemma UnlistedIsAbsent<T>(c: Checkpoint<T>, owners: seq<nat>, me: nat, p: string)
    requires c.Mapped() && |owners| == |c.files| && IndexFits(c, owners)
    requires forall g: nat :: g < |c.files| ==> !c.Listed(g, p)
    ensures Latest(c, owners, me, |c.files|, p) == -1
  {
    var i := Latest(c, owners, me, |c.files|, p);
    if i >= 0 { assert false; }
  }

  lemma SourceIsLatest<T>(c: Checkpoint<T>, world: nat, me: nat, p: string)
    requires c.Complete() && world > 0
    ensures var owners := OwnerList(|c.files|, world);
            var i := Latest(c, owners, me, |c.files|, p);
            var sources := Sources(Shards(c, world, me), me);
            (p in sources <==> i >= 0) && (i >= 0 ==> sources[p] == owners[i])
  {
    EntriesAt(c, OwnerList(|c.files|, world), me, |c.files|, p);
  }

  /** If the index fits the files, any two ranks end up with the same parameters and the same idea of who
      broadcasts each of them. */
  lemma AllRanksAgree<T>(c: Checkpoint<T>, world: nat, me: nat, you: nat)
    requires c.Mapped() && me < world && you < world && IndexFits(c, OwnerList(|c.files|, world))
    ensures Sources(Shards(c, world, me), me) == Sources(Shards(c, world, you), you)
  {
    var owners := OwnerList(|c.files|, world);
    var mine, yours := Sources(Shards(c, world, me), me), Sources(Shards(c, world, you), you);
    forall p
      ensures p in mine <==> p in yours
      ensures p in mine && p in yours ==> mine[p] == yours[p]
    {
      SourceIsLatest(c, world, me, p);
      SourceIsLatest(c, world, you, p);
      if g: nat :| g < |c.files| && c.Listed(g, p) {
        ListedSource(c, owners, me, g, p);
        ListedSource(c, owners, you, g, p);
      } else {
        UnlistedIsAbsent(c, owners, me, p);
        UnlistedIsAbsent(c, owners, you, p);
      }
    }
  }

  /** In particular they do if the index lists exactly what each file contains. */
  lemma ValidCheckpointIsAgreedOn<T>(c: Checkpoint<T>, world: nat, me: nat, you: nat)
    requires c.Valid() && me < world && you < world
    ensures Sources(Shards(c, world, me), me) == Sources(Shards(c, world, you), you)
  {
    ValidFits(c, OwnerList(|c.files|, world));
    AllRanksAgree(c, world, me, you);
  }

  ghost predicate Agreed<T>(c: Checkpoint<T>, world: nat) {
    c.Complete() && forall me: nat, you: nat {:trigger Shards(c, world, me), Shards(c, world, you)} ::
      me < world && you < world ==> Sources(Shards(c, world, me), me) == Sources(Shards(c, world, you), you)
  }

  /** Both ranks see the parameter come from the same rank, or neither knows it. */
  lemma AgreedAt<T>(c: Checkpoint<T>, world: nat, me: nat, you: nat, p: string)
    requires c.Complete() && me < world && you < world && Agreed(c, world)
    ensures var owners := OwnerList(|c.files|, world);
            var i, j := Latest(c, owners, me, |c.files|, p), Latest(c, owners, you, |c.files|, p);
            (i >= 0 <==> j >= 0) && (i >= 0 ==> owners[i] == owners[j])
  {
    SourceIsLatest(c, world, me, p);
    SourceIsLatest(c, world, you, p);
    assert Sources(Shards(c, world, me), me) == Sources(Shards(c, world, you), you);
  }

  lemma AgreedContains<T>(c: Checkpoint<T>, world: nat, i: nat, p: string) returns (j: nat)
    requires c.Mapped() && world >= 2 && Agreed(c, world) && i < |c.files| && c.Listed(i, p)
    ensures j < |c.files| && Owner(|c.files|, world, j) == Owner(|c.files|, world, i) && c.Contained(j, p)
  {
    var owners := OwnerList(|c.files|, world);
    OwnerIs(|c.files|, world, i, 0);
    var o := owners[i];
    var other := if o == 0 then 1 else 0;
    AgreedAt(c, world, o, other, p);
    assert Gives(c, owners, other, i, p);
    j := Latest(c, owners, o, |c.files|, p);
    if owners[j] != o { assert false; }
  }

  lemma AgreedLists<T>(c: Checkpoint<T>, world: nat, j: nat, p: string) returns (i: nat)
    requires c.Mapped() && world >= 2 && Agreed(c, world) && j < |c.files| && c.Contained(j, p)
    ensures i < |c.files| && c.Listed(i, p) && (Owner(|c.files|, world, i) == Owner(|c.files|, world, j) || j < i)
  {
    var owners := OwnerList(|c.files|, world);
    OwnerIs(|c.files|, world, j, 0);
    var o := owners[j];
    var last := Latest(c, owners, o, |c.files|, p);
    assert Gives(c, owners, o, j, p);
    if owners[last] == o {
      var other := if o == 0 then 1 else 0;
      AgreedAt(c, world, o, other, p);
      i := Latest(c, owners, other, |c.files|, p);
    } else {
      i := last;
    }
  }

  /** With two ranks or more they agree if and only if the index fits the files. */
  lemma RanksAgreeExactly<T>(c: Checkpoint<T>, world: nat)
    requires c.Mapped() && world >= 2
    ensures Agreed(c, world) <==> IndexFits(c, OwnerList(|c.files|, world))
  {
    if IndexFits(c, OwnerList(|c.files|, world)) {
      forall me: nat, you: nat | me < world && you < world
        ensures Sources(Shards(c, world, me), me) == Sources(Shards(c, world, you), you)
      {
        AllRanksAgree(c, world, me, you);
      }
    }
    if Agreed(c, world) {
      forall i: nat, p | i < |c.files| && c.Listed(i, p)
        ensures exists j: nat :: && j < |c.files| && Owner(|c.files|, world, j) == Owner(|c.files|, world, i)
                                 && c.Contained(j, p)
      {
        var j := AgreedContains(c, world, i, p);
      }
      forall j: nat, p | j < |c.files| && c.Contained(j, p)
        ensures exists i: nat :: i < |c.files| && c.Listed(i, p)
                                 && (Owner(|c.files|, world, i) == Owner(|c.files|, world, j) || j < i)
      {
        var i := AgreedLists(c, world, j, p);
      }
    }
  }

  /** A file with a parameter that the index does not list: the two ranks do not agree. */
  lemma UnlistedParameterSplitsRanks()
    ensures var c := Checkpoint(["f"], map["f" := ["a"]], map["f" := map["a" := 1, "b" := 2]]);
            c.Mapped() && !Agreed(c, 2)
  {
    var c := Checkpoint(["f"], map["f" := ["a"]], map["f" := map["a" := 1, "b" := 2]]);
    assert c.Contained(0, "b");
    assert !c.Listed(0, "b") by { assert "a"[0] != "b"[0]; }
    RanksAgreeExactly(c, 2);
  }

  /** For every listed parameter exactly one rank holds the tensor, it holds what a file of its own contains,
      and all others hold that rank's number.  If the index lists what each file contains, it is that file. */
  lemma OneRankHoldsEach<T>(c: Checkpoint<T>, world: nat, i: nat, p: string) returns (j: nat)
    requires c.Mapped() && world > 0 && IndexFits(c, OwnerList(|c.files|, world)) && i < |c.files| && c.Listed(i, p)
    ensures j < |c.files| && c.Contained(j, p) && Owner(|c.files|, world, j) == Owner(|c.files|, world, i) < world
    ensures c.Valid() ==> j == i
    ensures var owner := Owner(|c.files|, world, i);
      forall me :: 0 <= me < world ==>
        && p in Shards(c, world, me)
        && Shards(c, world, me)[p] == if me == owner then Held(c.contents[c.files[j]][p]) else At(owner)
  {
    var owners := OwnerList(|c.files|, world);
    OwnerIs(|c.files|, world, i, 0);
    ListedSource(c, owners, owners[i], i, p);
    j := Latest(c, owners, owners[i], |c.files|, p);
    if c.Valid() { OnlyFile(c, i, j, p); }
    forall me | 0 <= me < world
      ensures p in Shards(c, world, me)
      ensures Shards(c, world, me)[p] == if me == owners[i] then Held(c.contents[c.files[j]][p]) else At(owners[i])
    {
      ListedSource(c, owners, me, i, p);
      EntriesAt(c, owners, me, |c.files|, p);
    }
  }

  lemma OnlyFile<T>(c: Checkpoint<T>, i: nat, j: nat, p: string)
    requires c.Valid() && i < |c.files| && j < |c.files| && c.Listed(i, p) && c.Contained(j, p)
    ensures i == j
  {
    assert c.files[i] in c.files && c.contents[c.files[i]].Keys == set q | q in c.index[c.files[i]];
    assert c.Contained(i, p);
  }

  /** No rank knows of a parameter that is not listed. */
  lemma NothingElseIsLoaded<T>(c: Checkpoint<T>, world: nat, me: nat, p: string) returns (i: nat)
    requires c.Mapped() && me < world && IndexFits(c, OwnerList(|c.files|, world)) && p in Shards(c, world, me)
    ensures i < |c.files| && c.Listed(i, p)
  {
    var owners := OwnerList(|c.files|, world);
    EntriesAt(c, owners, me, |c.files|, p);
    var last := Latest(c, owners, me, |c.files|, p);
    if c.Listed(last, p) {
      i := last;
    } else {
      i :| i < |c.files| && c.Listed(i, p);
    }
  }
}
