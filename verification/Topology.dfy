/** The topology handed to the workers of the relay chain: who is whose predecessor and successor. */
module Topology {
  import opened Options
  import opened RowOps

  /** What one worker group is given, one list entry per worker. */
  datatype GroupArgs<M> = GroupArgs(rank: seq<int>, worldSize: seq<nat>, prev: seq<Option<M>>, next: seq<Option<M>>)

  function Repeat<T>(x: T, n: int): seq<T> {
    if n <= 0 then [] else seq(n, _ => x)
  }

  function Somes<M>(xs: seq<M>): (r: seq<Option<M>>)
    ensures |r| == |xs| && forall i :: 0 <= i < |xs| ==> r[i] == Some(xs[i])
  {
    seq(|xs|, i requires 0 <= i < |xs| => Some(xs[i]))
  }

  /** `metadata` lists the trainer workers, then the rollout workers. */
  function BuildTopology<M>(trainers: nat, rollouts: nat, metadata: seq<M>): (GroupArgs<M>, GroupArgs<M>)
    requires 1 <= rollouts <= |metadata|
  {
    (GroupArgs([0] + Repeat(-1, trainers - 1),
               Repeat(rollouts + 1, trainers),
               Repeat(None, trainers),
               [Some(metadata[|metadata| - rollouts])] + Repeat(None, trainers - 1)),
     GroupArgs(seq(rollouts, i => i + 1),
               Repeat(rollouts + 1, rollouts),
               [Some(metadata[0])] + Somes(Slice(metadata, 0 - rollouts, -1)),
               Somes(Slice(metadata, 1 - rollouts, |metadata|)) + [None]))
  }

  /** The check made before the arguments are dispatched: one entry per worker. */
  predicate Dispatchable<M>(args: GroupArgs<M>, workers: nat) {
    |args.rank| == workers && |args.worldSize| == workers && |args.prev| == workers && |args.next| == workers
  }

  /** The assertions each worker makes about its neighbours. */
  predicate InitAccepts<M>(rank: int, worldSize: nat, prev: Option<M>, next: Option<M>) {
    if rank < 0 then prev.None? && next.None?
    else if rank == 0 then prev.None? && next.Some?
    else if rank < worldSize - 1 then prev.Some? && next.Some?
    else if rank == worldSize - 1 then prev.Some? && next.None?
    else true
  }

  /** A rank must have a predecessor just behind rank 0, and a successor just before the last rank. */
  lemma InitAcceptsExactly<M>(rank: int, worldSize: nat, prev: Option<M>, next: Option<M>)
    requires worldSize >= 2
    ensures rank < worldSize ==> (InitAccepts(rank, worldSize, prev, next) <==>
              (prev.Some? <==> 0 < rank) && (next.Some? <==> 0 <= rank < worldSize - 1))
    ensures rank >= worldSize ==> InitAccepts(rank, worldSize, prev, next)
  {
  }

  ghost predicate AllAccept<M>(args: GroupArgs<M>, workers: nat)
    requires Dispatchable(args, workers)
  {
    forall i :: 0 <= i < workers ==> InitAccepts(args.rank[i], args.worldSize[i], args.prev[i], args.next[i])
  }

  /** The agent of a rank of the chain: the first trainer worker, then the rollout workers in order. */
  function AgentOf<M>(trainers: nat, metadata: seq<M>, rank: nat): M
    requires trainers >= 1 && trainers + rank - 1 < |metadata|
  {
    if rank == 0 then metadata[0] else metadata[trainers + rank - 1]
  }

  /** The dispatch check passes exactly when there are at least two rollout workers: with one, the slice
      from index -1 + 1 is the whole list. */
  lemma DispatchableExactlyFromTwoRollouts<M>(trainers: nat, rollouts: nat, metadata: seq<M>)
    requires trainers >= 1 && rollouts >= 1 && |metadata| == trainers + rollouts
    ensures Dispatchable(BuildTopology(trainers, rollouts, metadata).0, trainers)
    ensures Dispatchable(BuildTopology(trainers, rollouts, metadata).1, rollouts) <==> rollouts >= 2
    ensures rollouts == 1 ==> |BuildTopology(trainers, rollouts, metadata).1.next| == trainers + 2
  {
    var next := Slice(metadata, 1 - rollouts, |metadata|);
    if rollouts == 1 {
      assert next == metadata;
    } else {
      assert |next| == rollouts - 1;
    }
    assert |Slice(metadata, 0 - rollouts, -1)| == rollouts - 1;
  }

  /** The two slices of the metadata, from two rollout workers on. */
  lemma NeighbourSlices<M>(trainers: nat, rollouts: nat, metadata: seq<M>)
    requires trainers >= 1 && rollouts >= 2 && |metadata| == trainers + rollouts
    ensures Slice(metadata, 0 - rollouts, -1) == metadata[trainers..|metadata| - 1]
    ensures Slice(metadata, 1 - rollouts, |metadata|) == metadata[trainers + 1..]
  {
  }

  /** From two rollout workers on, every worker accepts its arguments and the links form one chain:
      rank r's successor is rank r + 1, whose predecessor is rank r; no other worker has a neighbour. */
  lemma TopologyIsOneChain<M>(trainers: nat, rollouts: nat, metadata: seq<M>)
    requires trainers >= 1 && rollouts >= 2 && |metadata| == trainers + rollouts
    ensures var (t, o) := BuildTopology(trainers, rollouts, metadata);
            && Dispatchable(t, trainers) && Dispatchable(o, rollouts)
            && AllAccept(t, trainers) && AllAccept(o, rollouts)
            && (forall w :: w in t.worldSize || w in o.worldSize ==> w == rollouts + 1)
            && t.rank[0] == 0 && t.prev[0] == None && t.next[0] == Some(AgentOf(trainers, metadata, 1))
            && (forall i :: 0 < i < trainers ==> t.rank[i] == -1 && t.prev[i] == None && t.next[i] == None)
            && (forall i :: 0 <= i < rollouts ==>
                  && o.rank[i] == i + 1
                  && o.prev[i] == Some(AgentOf(trainers, metadata, i))
                  && o.next[i] == if i == rollouts - 1 then None else Some(AgentOf(trainers, metadata, i + 2)))
  {
    DispatchableExactlyFromTwoRollouts(trainers, rollouts, metadata);
    NeighbourSlices(trainers, rollouts, metadata);
  }

  /** With one rollout worker, that worker would even be given a successor: the first trainer itself. */
  lemma SingleRolloutGetsTrainerAsSuccessor<M>(trainers: nat, metadata: seq<M>)
    requires trainers >= 1 && |metadata| == trainers + 1
    ensures var o := BuildTopology(trainers, 1, metadata).1;
            && o.rank == [1] && o.worldSize == [2] && |o.next| > 0 && o.next[0] == Some(metadata[0])
            && !InitAccepts(o.rank[0], o.worldSize[0], o.prev[0], o.next[0])
  {
    assert Slice(metadata, -1 + 1, |metadata|) == metadata;
  }
}
