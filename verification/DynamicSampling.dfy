/** Dynamic sampling: generate batches of prompt groups, drop the groups in which every trajectory scored the
    same, and go on until a training batch of prompts is left. */
module DynamicSampling {
  import opened Options
  import opened Division
  import opened RowOps
  import opened Spread

  datatype Traj = Traj(uid: string, metric: real, data: nat)

  /** The trajectories of one prompt, in the order they were generated. */
  type Group = seq<Traj>

  function Metrics(rows: seq<Traj>): seq<real> {
    if rows == [] then [] else [rows[0].metric] + Metrics(rows[1..])
  }

  function WithUid(rows: seq<Traj>, uid: string): seq<Traj> {
    if rows == [] then []
    else (if rows[0].uid == uid then [rows[0]] else []) + WithUid(rows[1..], uid)
  }

  predicate Keep(vals: seq<real>)
    requires vals != []
  {
    Variance(vals) > 0.0 || |vals| == 1
  }

  // ---------------------------------------------------------------- groups

  ghost predicate GroupOf(g: Group, n: nat, uid: string) {
    |g| == n && forall i :: 0 <= i < n ==> g[i].uid == uid
  }

  /** n > 0 consecutive trajectories of every prompt, and no prompt twice. */
  ghost predicate Grouped(groups: seq<Group>, n: nat) {
    && n > 0
    && (forall i :: 0 <= i < |groups| ==> |groups[i]| == n && GroupOf(groups[i], n, groups[i][0].uid))
    && (forall i, j :: 0 <= i < j < |groups| ==>
          |groups[i]| == n == |groups[j]| && groups[i][0].uid != groups[j][0].uid)
  }

  /** A generation batch: fresh uids for the prompts, each repeated n times in place. */
  ghost predicate Generated(uids: seq<string>, n: nat, rows: seq<Traj>) {
    && n > 0 && (forall i, j :: 0 <= i < j < |uids| ==> uids[i] != uids[j])
    && |rows| == |RepeatEach(uids, n)| && forall i :: 0 <= i < |rows| ==> rows[i].uid == RepeatEach(uids, n)[i]
  }

  lemma RepeatEachOfMore(uids: seq<string>, n: nat)
    requires uids != []
    ensures RepeatEach(uids, n) == Copies(uids[0], n) + RepeatEach(uids[1..], n)
  {
    assert Copies(n, |uids|)[1..] == Copies(n, |uids[1..]|);
  }

  /** Such a batch is a group of n consecutive trajectories for every prompt. */
  lemma {:induction false} GeneratedIsGrouped(uids: seq<string>, n: nat, rows: seq<Traj>) returns (groups: seq<Group>)
    requires Generated(uids, n, rows)
    ensures Grouped(groups, n) && Flatten(groups) == rows && |groups| == |uids|
    ensures forall i :: 0 <= i < |groups| ==> groups[i][0].uid == uids[i]
  {
    if uids == [] {
      groups := [];
    } else {
      RepeatEachOfMore(uids, n);
      var first, later := rows[..n], rows[n..];
      assert forall i :: 0 <= i < n ==> RepeatEach(uids, n)[i] == uids[0];
      assert forall i :: 0 <= i < |later| ==> RepeatEach(uids, n)[n + i] == RepeatEach(uids[1..], n)[i];
      var rest := GeneratedIsGrouped(uids[1..], n, later);
      groups := [first] + rest;
      GroupedMore(first, rest, n, uids[0]);
      assert groups[1..] == rest && rows == first + later;
    }
  }

  lemma GroupedMore(first: Group, rest: seq<Group>, n: nat, uid: string)
    requires n > 0 && GroupOf(first, n, uid) && Grouped(rest, n)
    requires forall i :: 0 <= i < |rest| ==> rest[i][0].uid != uid
    ensures Grouped([first] + rest, n)
  {
  }

  /** The trajectories differ in their metric, or there is only one. */
  ghost predicate Useful(g: Group) {
    |g| == 1 || exists i, j :: 0 <= i < |g| && 0 <= j < |g| && g[i].metric != g[j].metric
  }

  ghost function UsefulOnes(groups: seq<Group>): seq<Group> {
    if groups == [] then []
    else (if Useful(groups[0]) then [groups[0]] else []) + UsefulOnes(groups[1..])
  }

  lemma {:induction false} MetricsAt(rows: seq<Traj>)
    ensures |Metrics(rows)| == |rows| && forall i :: 0 <= i < |rows| ==> Metrics(rows)[i] == rows[i].metric
  {
    if rows != [] { MetricsAt(rows[1..]); }
  }

  lemma KeepsUseful(g: Group)
    requires g != []
    ensures Metrics(g) != [] && (Keep(Metrics(g)) <==> Useful(g))
  {
    MetricsAt(g);
    SpreadIsPositive(Metrics(g));
    var vals := Metrics(g);
    if Variance(vals) > 0.0 {
      var i, j :| 0 <= i < |vals| && 0 <= j < |vals| && vals[i] != vals[j];
      assert g[i].metric != g[j].metric;
    }
    if i, j :| 0 <= i < |g| && 0 <= j < |g| && g[i].metric != g[j].metric {
      assert vals[i] != vals[j];
    }
  }

  lemma {:induction false} WithUidJoin(a: seq<Traj>, b: seq<Traj>, uid: string)
    ensures WithUid(a + b, uid) == WithUid(a, uid) + WithUid(b, uid)
  {
    if a == [] {
      assert a + b == b;
    } else {
      WithUidJoin(a[1..], b, uid);
      assert (a + b)[1..] == a[1..] + b;
      Regroup(if a[0].uid == uid then [a[0]] else [], WithUid(a[1..], uid), WithUid(b, uid));
    }
  }

  lemma {:induction false} WithUidOfGroup(g: Group, n: nat, of: string, uid: string)
    requires GroupOf(g, n, of)
    ensures WithUid(g, uid) == if of == uid then g else []
  {
    if g != [] { WithUidOfGroup(g[1..], n - 1, of, uid); }
  }

  lemma {:induction false} NoRowWithUid(groups: seq<Group>, n: nat, uid: string)
    requires Grouped(groups, n) && forall i :: 0 <= i < |groups| ==> groups[i][0].uid != uid
    ensures WithUid(Flatten(groups), uid) == []
  {
    if groups != [] {
      GroupedTail(groups, n);
      WithUidJoin(groups[0], Flatten(groups[1..]), uid);
      WithUidOfGroup(groups[0], n, groups[0][0].uid, uid);
      NoRowWithUid(groups[1..], n, uid);
    }
  }

  lemma GroupedTail(groups: seq<Group>, n: nat)
    requires Grouped(groups, n) && groups != []
    ensures Grouped(groups[1..], n)
    ensures forall i :: 0 <= i < |groups| - 1 ==> groups[1..][i][0].uid != groups[0][0].uid
  {
  }

  /** Collecting by uid gives back each group. */
  lemma {:induction false} CollectedIsGroup(groups: seq<Group>, n: nat, i: nat)
    requires Grouped(groups, n) && i < |groups|
    ensures WithUid(Flatten(groups), groups[i][0].uid) == groups[i]
  {
    GroupedTail(groups, n);
    WithUidJoin(groups[0], Flatten(groups[1..]), groups[i][0].uid);
    WithUidOfGroup(groups[0], n, groups[0][0].uid, groups[i][0].uid);
    if i == 0 {
      NoRowWithUid(groups[1..], n, groups[0][0].uid);
    } else {
      CollectedIsGroup(groups[1..], n, i - 1);
    }
  }

  // ---------------------------------------------------------------- the filter

  function Uids(rows: seq<Traj>): set<string> {
    set r | r in rows :: r.uid
  }

  function KeptUids(rows: seq<Traj>): set<string> {
    set uid | uid in Uids(rows) && Metrics(WithUid(rows, uid)) != [] && Keep(Metrics(WithUid(rows, uid)))
  }

  function OfUids(rows: seq<Traj>, uids: set<string>): seq<Traj> {
    if rows == [] then []
    else (if rows[0].uid in uids then [rows[0]] else []) + OfUids(rows[1..], uids)
  }

  ghost function UsefulUids(groups: seq<Group>): set<string>
    requires forall g :: g in groups ==> g != []
  {
    set g: Group | g in groups && Useful(g) :: g[0].uid
  }

  lemma {:induction false} FlattenUids(groups: seq<Group>, n: nat)
    requires Grouped(groups, n)
    ensures forall uid :: uid in Uids(Flatten(groups)) <==> exists i :: 0 <= i < |groups| && groups[i][0].uid == uid
  {
    if groups != [] {
      GroupedTail(groups, n);
      FlattenUids(groups[1..], n);
      var rest := Flatten(groups[1..]);
      forall uid
        ensures uid in Uids(Flatten(groups)) <==> exists i :: 0 <= i < |groups| && groups[i][0].uid == uid
      {
        if uid == groups[0][0].uid {
          assert groups[0][0] in Flatten(groups);
        }
        if uid in Uids(rest) {
          var i :| 0 <= i < |groups[1..]| && groups[1..][i][0].uid == uid;
          assert groups[i + 1][0].uid == uid;
        }
        if i :| 0 < i < |groups| && groups[i][0].uid == uid {
          assert groups[1..][i - 1][0].uid == uid;
        }
        assert forall r :: r in Flatten(groups) <==> r in groups[0] || r in rest;
      }
    }
  }

  /** The dictionary of metrics keeps exactly the prompts of the useful groups. */
  lemma KeptAreUseful(groups: seq<Group>, n: nat)
    requires Grouped(groups, n)
    ensures KeptUids(Flatten(groups)) == UsefulUids(groups)
  {
    var rows := Flatten(groups);
    FlattenUids(groups, n);
    forall i | 0 <= i < |groups|
      ensures groups[i][0].uid in KeptUids(rows) <==> Useful(groups[i])
    {
      CollectedIsGroup(groups, n, i);
      KeepsUseful(groups[i]);
    }
    forall uid
      ensures uid in KeptUids(rows) <==> uid in UsefulUids(groups)
    {
      if uid in KeptUids(rows) {
        var i :| 0 <= i < |groups| && groups[i][0].uid == uid;
        assert groups[i] in groups;
      }
      if uid in UsefulUids(groups) {
        var g: Group :| g in groups && Useful(g) && g[0].uid == uid;
        var i :| 0 <= i < |groups| && groups[i] == g;
      }
    }
  }

  lemma {:induction false} OfUidsJoin(a: seq<Traj>, b: seq<Traj>, uids: set<string>)
    ensures OfUids(a + b, uids) == OfUids(a, uids) + OfUids(b, uids)
  {
    if a == [] {
      assert a + b == b;
    } else {
      OfUidsJoin(a[1..], b, uids);
      assert (a + b)[1..] == a[1..] + b;
      Regroup(if a[0].uid in uids then [a[0]] else [], OfUids(a[1..], uids), OfUids(b, uids));
    }
  }

  lemma {:induction false} OfUidsOfGroup(g: Group, n: nat, of: string, uids: set<string>)
    requires GroupOf(g, n, of)
    ensures OfUids(g, uids) == if of in uids then g else []
  {
    if g != [] { OfUidsOfGroup(g[1..], n - 1, of, uids); }
  }

  /** Selecting rows by uid never cuts a group: what is left is the useful groups, whole and in order. */
  lemma {:induction false} FilterKeepsWholeGroups(groups: seq<Group>, n: nat, uids: set<string>)
    requires Grouped(groups, n)
    requires forall i :: 0 <= i < |groups| ==> (groups[i][0].uid in uids <==> Useful(groups[i]))
    ensures OfUids(Flatten(groups), uids) == Flatten(UsefulOnes(groups))
  {
    if groups != [] {
      GroupedTail(groups, n);
      OfUidsJoin(groups[0], Flatten(groups[1..]), uids);
      OfUidsOfGroup(groups[0], n, groups[0][0].uid, uids);
      FilterKeepsWholeGroups(groups[1..], n, uids);
      var rest := UsefulOnes(groups[1..]);
      if Useful(groups[0]) {
        assert UsefulOnes(groups) == [groups[0]] + rest && ([groups[0]] + rest)[1..] == rest;
      } else {
        assert UsefulOnes(groups) == rest;
        assert OfUids(groups[0], uids) == [];
      }
    }
  }

  /** As many prompts are counted as groups are kept. */
  lemma {:induction false} CountIsGroups(groups: seq<Group>, n: nat)
    requires Grouped(groups, n)
    ensures |UsefulUids(groups)| == |UsefulOnes(groups)|
  {
    if groups == [] {
      assert UsefulUids(groups) == {};
    } else {
      GroupedTail(groups, n);
      CountIsGroups(groups[1..], n);
      assert groups == [groups[0]] + groups[1..];
      UsefulUidsOfMore(groups[0], groups[1..]);
      FirstUidIsNew(groups, n);
    }
  }

  lemma UsefulUidsOfMore(g: Group, rest: seq<Group>)
    requires g != [] && forall h :: h in rest ==> h != []
    ensures UsefulUids([g] + rest) == UsefulUids(rest) + if Useful(g) then {g[0].uid} else {}
  {
    assert forall h :: h in [g] + rest <==> h == g || h in rest;
  }

  lemma FirstUidIsNew(groups: seq<Group>, n: nat)
    requires Grouped(groups, n) && groups != []
    ensures Grouped(groups[1..], n) && groups[0][0].uid !in UsefulUids(groups[1..])
  {
    GroupedTail(groups, n);
  }

  lemma FilterIsUsefulOnes(groups: seq<Group>, n: nat)
    requires Grouped(groups, n)
    ensures OfUids(Flatten(groups), KeptUids(Flatten(groups))) == Flatten(UsefulOnes(groups))
    ensures |KeptUids(Flatten(groups))| == |UsefulOnes(groups)|
  {
    KeptAreUseful(groups, n);
    forall i | 0 <= i < |groups|
      ensures groups[i][0].uid in UsefulUids(groups) <==> Useful(groups[i])
    {
      UidIsGroups(groups, n, i);
    }
    FilterKeepsWholeGroups(groups, n, UsefulUids(groups));
    CountIsGroups(groups, n);
  }

  lemma UidIsGroups(groups: seq<Group>, n: nat, i: nat)
    requires Grouped(groups, n) && i < |groups|
    ensures groups[i][0].uid in UsefulUids(groups) <==> Useful(groups[i])
  {
    if Useful(groups[i]) { assert groups[i] in groups; }
    if groups[i][0].uid in UsefulUids(groups) {
      var g: Group :| g in groups && Useful(g) && g[0].uid == groups[i][0].uid;
      var j :| 0 <= j < |groups| && groups[j] == g;
    }
  }

  // ---------------------------------------------------------------- the loop

  /** After a generation batch: generate another one, give up, or train. */
  datatype Outcome = Generate | GiveUp | Train

  ghost predicate AllUseful(groups: seq<Group>, n: nat) {
    forall g: Group :: g in groups ==> |g| == n && Useful(g) && GroupOf(g, n, if n > 0 then g[0].uid else "")
  }

  lemma {:induction false} UsefulOnesAreUseful(groups: seq<Group>, n: nat)
    requires Grouped(groups, n)
    ensures AllUseful(UsefulOnes(groups), n)
  {
    if groups != [] {
      GroupedTail(groups, n);
      UsefulOnesAreUseful(groups[1..], n);
    }
  }

  /** The batch with more rows behind it. */
  function Joined(batch: Option<seq<Traj>>, rows: seq<Traj>): (r: seq<Traj>)
    ensures r == (if batch.Some? then batch.value else []) + rows
  {
    if batch == None then rows else batch.value + rows
  }

  lemma JoinUseful(groups: seq<Group>, more: seq<Group>, n: nat)
    requires AllUseful(groups, n) && AllUseful(more, n)
    ensures AllUseful(groups + more, n) && Flatten(groups + more) == Flatten(groups) + Flatten(more)
  {
    FlattenAppend(groups, more);
  }

  lemma {:induction false} FlattenLength(groups: seq<Group>, n: nat)
    requires forall g :: g in groups ==> |g| == n
    ensures |Flatten(groups)| == |groups| * n
  {
    if groups != [] {
      FlattenLength(groups[1..], n);
      Distributes(|groups|, 1, n);
    }
  }

  /** Cutting at a multiple of n cuts between groups. */
  lemma CutBetweenGroups(groups: seq<Group>, n: nat, m: nat)
    requires (forall g :: g in groups ==> |g| == n) && m <= |groups|
    ensures Slice(Flatten(groups), 0, m * n) == Flatten(groups[..m])
    ensures |Flatten(groups[..m])| == m * n
  {
    FlattenLength(groups[..m], n);
    FlattenAppend(groups[..m], groups[m..]);
    assert groups[..m] + groups[m..] == groups;
  }

  /** The variables of the training loop that live across generation batches. */
  class Sampler {
    const rolloutN: nat
    const trainBatchSize: nat
    const maxNumGenBatches: int
    var batch: Option<seq<Traj>>
    var numPromptInBatch: nat
    var numGenBatches: nat
    /** The groups the batch consists of. */
    ghost var groups: seq<Group>

    /** The batch is whole groups of rolloutN trajectories of one prompt, each of them useful, as many as counted. */
    ghost predicate Valid()
      reads this
    {
      && rolloutN > 0 && AllUseful(groups, rolloutN)
      && (if batch.Some? then batch.value else []) == Flatten(groups)
      && numPromptInBatch == |groups| && (batch.Some? <==> numGenBatches > 0)
    }

    constructor (rolloutN: nat, trainBatchSize: nat, maxNumGenBatches: int)
      requires rolloutN > 0
      ensures Valid() && Empty()
      ensures this.rolloutN == rolloutN && this.trainBatchSize == trainBatchSize
      ensures this.maxNumGenBatches == maxNumGenBatches
    {
      this.rolloutN, this.trainBatchSize, this.maxNumGenBatches := rolloutN, trainBatchSize, maxNumGenBatches;
      batch, numPromptInBatch, numGenBatches, groups := None, 0, 0, [];
    }

    ghost predicate Empty()
      reads this
    {
      batch == None && numPromptInBatch == 0 && numGenBatches == 0 && groups == []
    }

    /** The dictionary from uid to the metrics of its trajectories. */
    static method CollectMetrics(rows: seq<Traj>) returns (metrics: map<string, seq<real>>)
      ensures MetricsByUid(rows, metrics)
    {
      metrics := map[];
      var i := 0;
      while i < |rows|
        invariant 0 <= i <= |rows| && MetricsByUid(rows[..i], metrics)
      {
        var row := rows[i];
        assert rows[..i + 1] == rows[..i] + [row];
        AddMetric(rows[..i], row, metrics);
        metrics := WithMetric(metrics, row);
        i := i + 1;
      }
      assert rows[..i] == rows;
    }

    /** The prompts whose metrics have a positive deviation, or that have one trajectory only. */
    static method KeptPrompts(metrics: map<string, seq<real>>) returns (kept: set<string>)
      requires forall uid :: uid in metrics ==> metrics[uid] != []
      ensures kept == set uid | uid in metrics && Keep(metrics[uid])
    {
      kept := {};
      var todo := metrics.Keys;
      while todo != {}
        invariant todo <= metrics.Keys
        invariant kept == set uid | uid in metrics && uid !in todo && Keep(metrics[uid])
      {
        var uid :| uid in todo;
        todo := todo - {uid};
        if Keep(metrics[uid]) { kept := kept + {uid}; }
      }
    }

    /** The trajectories of the kept prompts. */
    static method KeptRows(rows: seq<Traj>, kept: set<string>) returns (result: seq<Traj>)
      ensures result == OfUids(rows, kept)
    {
      result := [];
      var i := 0;
      while i < |rows|
        invariant 0 <= i <= |rows| && result == OfUids(rows[..i], kept)
      {
        assert rows[..i + 1] == rows[..i] + [rows[i]];
        OfUidsJoin(rows[..i], [rows[i]], kept);
        if rows[i].uid in kept { result := result + [rows[i]]; }
        i := i + 1;
      }
      assert rows[..i] == rows;
    }

    /** The useful groups of a generation batch, and their number. */
    static method Filter(newBatch: seq<Traj>, ghost newGroups: seq<Group>, ghost n: nat)
      returns (rows: seq<Traj>, prompts: nat)
      requires Grouped(newGroups, n) && newBatch == Flatten(newGroups)
      ensures rows == Flatten(UsefulOnes(newGroups)) && prompts == |UsefulOnes(newGroups)|
    {
      var metrics := CollectMetrics(newBatch);
      var kept := KeptPrompts(metrics);
      KeptPromptsAreKeptUids(newBatch, metrics, kept);
      FilterIsUsefulOnes(newGroups, n);
      prompts := |kept|;
      rows := KeptRows(newBatch, kept);
    }

    /** Appends the useful groups of a generation batch. */
    method Append(newBatch: seq<Traj>, ghost newGroups: seq<Group>)
      requires Valid() && Grouped(newGroups, rolloutN) && newBatch == Flatten(newGroups)
      modifies this
      ensures Valid() && numGenBatches == old(numGenBatches) + 1 && groups == old(groups) + UsefulOnes(newGroups)
    {
      var rows, prompts := Filter(newBatch, newGroups, rolloutN);
      UsefulOnesAreUseful(newGroups, rolloutN);
      AppendRows(rows, prompts, UsefulOnes(newGroups));
    }

    method AppendRows(rows: seq<Traj>, prompts: nat, ghost more: seq<Group>)
      requires Valid() && AllUseful(more, rolloutN) && rows == Flatten(more) && prompts == |more|
      modifies this
      ensures Valid() && numGenBatches == old(numGenBatches) + 1 && groups == old(groups) + more
    {
      JoinUseful(groups, more, rolloutN);
      numGenBatches := numGenBatches + 1;
      numPromptInBatch := numPromptInBatch + prompts;
      batch := Some(Joined(batch, rows));
      groups := groups + more;
    }

    /** A full training batch: the first trainBatchSize groups, whole. */
    ghost predicate Aligned(total: seq<Group>)
      reads this
    {
      && trainBatchSize <= |total| && batch == Some(Flatten(total[..trainBatchSize]))
      && |batch.value| == trainBatchSize * rolloutN && AllUseful(total[..trainBatchSize], rolloutN)
    }

    /** Cut the batch down to trainBatchSize prompts. */
    method Align()
      requires Valid() && batch.Some? && trainBatchSize <= |groups|
      modifies this`batch
      ensures Aligned(groups)
    {
      CutBetweenGroups(groups, rolloutN, trainBatchSize);
      batch := Some(Slice(batch.value, 0, trainBatchSize * rolloutN));
    }

    /** One generation batch: filter it, append what is left, and decide. */
    method Accumulate(newBatch: seq<Traj>, ghost newGroups: seq<Group>) returns (outcome: Outcome)
      requires Valid() && Grouped(newGroups, rolloutN) && newBatch == Flatten(newGroups)
      modifies this
      ensures numGenBatches == old(numGenBatches) + 1 && groups == old(groups) + UsefulOnes(newGroups)
      ensures outcome == Train <==> |groups| >= trainBatchSize
      ensures outcome == GiveUp <==> |groups| < trainBatchSize && 0 < maxNumGenBatches <= numGenBatches
      ensures if outcome == Train then Aligned(groups) else Valid()
    {
      Append(newBatch, newGroups);
      if numPromptInBatch < trainBatchSize {
        if maxNumGenBatches <= 0 || numGenBatches < maxNumGenBatches {
          return Generate;
        }
        return GiveUp;
      }
      Align();
      return Train;
    }

    /** The reset at the end of a training step. */
    method Reset()
      requires rolloutN > 0
      modifies this
      ensures Valid() && Empty()
    {
      batch, numPromptInBatch, numGenBatches, groups := None, 0, 0, [];
    }

    /** So many batches are taken, and the last of them had this outcome. */
    ghost predicate Taken(allGroups: seq<seq<Group>>, used: nat, outcome: Outcome)
      requires used <= |allGroups|
      reads this
    {
      && numGenBatches == used && groups == UsefulIn(allGroups, used)
      && (outcome == Train <==> used > 0 && |groups| >= trainBatchSize)
      && (outcome == GiveUp <==> used > 0 && |groups| < trainBatchSize && 0 < maxNumGenBatches <= used)
      && (if outcome == Train then Aligned(groups) else Valid())
      && (maxNumGenBatches > 0 ==> used <= maxNumGenBatches)
      && (outcome == Generate && used > 0 ==> GoesOn(allGroups, used, trainBatchSize, maxNumGenBatches))
      && AllGoOn(allGroups, used, trainBatchSize, maxNumGenBatches)
    }

    /** One generation batch out of many. */
    method Take(newBatch: seq<Traj>, ghost allGroups: seq<seq<Group>>, ghost used: nat) returns (outcome: Outcome)
      requires used < |allGroups| && Taken(allGroups, used, Generate)
      requires Grouped(allGroups[used], rolloutN) && newBatch == Flatten(allGroups[used])
      modifies this
      ensures Taken(allGroups, used + 1, outcome)
    {
      OneMoreGoesOn(allGroups, used, trainBatchSize, maxNumGenBatches);
      outcome := Accumulate(newBatch, allGroups[used]);
    }

    /** Generation batches, over however many epochs, until one of them ends the step; `used` of them are taken. */
    method Collect(batches: seq<seq<Traj>>, ghost allGroups: seq<seq<Group>>) returns (outcome: Outcome, used: nat)
      requires Valid() && Empty() && AllGrouped(batches, allGroups, rolloutN)
      modifies this
      ensures used <= |batches| && (outcome == Generate ==> used == |batches|) && (batches != [] ==> used > 0)
      ensures Taken(allGroups, used, outcome)
    {
      outcome, used := Generate, 0;
      while used < |batches| && outcome == Generate
        invariant 0 <= used <= |batches| && Taken(allGroups, used, outcome)
      {
        BatchAt(batches, allGroups, rolloutN, used);
        outcome := Take(batches[used], allGroups, used);
        used := used + 1;
      }
    }

    /** A whole training step; the variables are reset when it trains. */
    method Step(batches: seq<seq<Traj>>, ghost allGroups: seq<seq<Group>>)
      returns (outcome: Outcome, used: nat, rows: seq<Traj>)
      requires Valid() && Empty() && AllGrouped(batches, allGroups, rolloutN)
      modifies this
      ensures used <= |batches| && (outcome == Generate ==> used == |batches|) && (batches != [] ==> used > 0)
      ensures maxNumGenBatches > 0 ==> used <= maxNumGenBatches
      ensures outcome == Train <==> used > 0 && |UsefulIn(allGroups, used)| >= trainBatchSize
      ensures outcome == GiveUp <==>
                used > 0 && |UsefulIn(allGroups, used)| < trainBatchSize && 0 < maxNumGenBatches <= used
      ensures forall b :: 0 < b < used ==>
                |UsefulIn(allGroups, b)| < trainBatchSize && !(0 < maxNumGenBatches <= b)
      ensures outcome == Train ==>
                && rows == Flatten(UsefulIn(allGroups, used)[..trainBatchSize])
                && |rows| == trainBatchSize * rolloutN && Valid() && Empty()
    {
      rows := [];
      outcome, used := Collect(batches, allGroups);
      NoneFilledBefore(allGroups, used, trainBatchSize, maxNumGenBatches);
      if outcome == Train {
        rows := batch.value;
        Reset();
      }
    }
  }

  /** The first b batches neither fill the training batch nor reach the limit. */
  ghost predicate GoesOn(allGroups: seq<seq<Group>>, b: nat, size: nat, limit: int)
    requires b <= |allGroups|
  {
    |UsefulIn(allGroups, b)| < size && !(0 < limit <= b)
  }

  ghost predicate AllGoOn(allGroups: seq<seq<Group>>, n: nat, size: nat, limit: int)
    requires n <= |allGroups|
  {
    forall b :: 0 < b < n ==> GoesOn(allGroups, b, size, limit)
  }

  lemma OneMoreGoesOn(allGroups: seq<seq<Group>>, n: nat, size: nat, limit: int)
    requires n < |allGroups| && AllGoOn(allGroups, n, size, limit) && (n > 0 ==> GoesOn(allGroups, n, size, limit))
    ensures AllGoOn(allGroups, n + 1, size, limit)
  {
  }

  lemma NoneFilledBefore(allGroups: seq<seq<Group>>, n: nat, size: nat, limit: int)
    requires n <= |allGroups| && AllGoOn(allGroups, n, size, limit)
    ensures forall b :: 0 < b < n ==> |UsefulIn(allGroups, b)| < size && !(0 < limit <= b)
  {
    forall b | 0 < b < n
      ensures |UsefulIn(allGroups, b)| < size && !(0 < limit <= b)
    {
      assert GoesOn(allGroups, b, size, limit);
    }
  }

  lemma BatchAt(batches: seq<seq<Traj>>, allGroups: seq<seq<Group>>, n: nat, b: nat)
    requires AllGrouped(batches, allGroups, n) && b < |batches|
    ensures b < |allGroups| && Grouped(allGroups[b], n) && batches[b] == Flatten(allGroups[b])
  {
  }

  ghost predicate AllGrouped(batches: seq<seq<Traj>>, allGroups: seq<seq<Group>>, n: nat) {
    && |allGroups| == |batches|
    && forall b :: 0 <= b < |batches| ==> Grouped(allGroups[b], n) && batches[b] == Flatten(allGroups[b])
  }

  /** All useful groups of the first b batches, in order. */
  ghost function UsefulIn(allGroups: seq<seq<Group>>, b: nat): seq<Group>
    requires b <= |allGroups|
  {
    if b == 0 then [] else UsefulIn(allGroups, b - 1) + UsefulOnes(allGroups[b - 1])
  }

  /** One more metric in the list of the row's prompt. */
  function WithMetric(metrics: map<string, seq<real>>, row: Traj): map<string, seq<real>> {
    metrics[row.uid := (if row.uid in metrics then metrics[row.uid] else []) + [row.metric]]
  }

  ghost predicate MetricsByUid(rows: seq<Traj>, metrics: map<string, seq<real>>) {
    && metrics.Keys == Uids(rows)
    && (forall uid :: uid in metrics ==> metrics[uid] == Metrics(WithUid(rows, uid)) && metrics[uid] != [])
    && (forall uid :: uid !in metrics ==> WithUid(rows, uid) == [])
  }

  lemma OneMoreRow(rows: seq<Traj>, row: Traj, uid: string)
    ensures WithUid(rows + [row], uid) == WithUid(rows, uid) + (if row.uid == uid then [row] else [])
    ensures Metrics(WithUid(rows + [row], uid))
          == Metrics(WithUid(rows, uid)) + (if row.uid == uid then [row.metric] else [])
  {
    WithUidJoin(rows, [row], uid);
    assert WithUid([row], uid) == if row.uid == uid then [row] else [];
    MetricsAt(WithUid(rows, uid));
    MetricsAt(WithUid(rows + [row], uid));
  }

  lemma UidsOneMore(rows: seq<Traj>, row: Traj)
    ensures Uids(rows + [row]) == Uids(rows) + {row.uid}
  {
    assert forall r :: r in rows + [row] <==> r in rows || r == row;
  }

  lemma AddMetric(rows: seq<Traj>, row: Traj, metrics: map<string, seq<real>>)
    requires MetricsByUid(rows, metrics)
    ensures MetricsByUid(rows + [row], WithMetric(metrics, row))
  {
    var added := WithMetric(metrics, row);
    UidsOneMore(rows, row);
    forall uid: string
      ensures uid in added ==> added[uid] == Metrics(WithUid(rows + [row], uid)) && added[uid] != []
      ensures uid !in added ==> WithUid(rows + [row], uid) == []
    {
      OneMoreRow(rows, row, uid);
    }
  }

  lemma KeptPromptsAreKeptUids(rows: seq<Traj>, metrics: map<string, seq<real>>, kept: set<string>)
    requires MetricsByUid(rows, metrics)
    requires kept == set uid | uid in metrics && Keep(metrics[uid])
    ensures kept == KeptUids(rows)
  {
  }
}
