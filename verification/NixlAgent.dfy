/** The notification queues of one agent.

    `get_notification` waits for a notification of one remote agent, but its inner loop reuses the variable
    that holds the remote agent's name, so after an arrival it looks at the queue of the last agent heard of. */
module NixlAgent {
  import opened Options

  /** The notifications that arrive together, per remote agent, in the order they are iterated. */
  type Arrivals = seq<(string, seq<nat>)>

  type Queues = map<string, seq<nat>>

  /** A defaultdict lookup. */
  function QueueOf(q: Queues, name: string): seq<nat> {
    if name in q then q[name] else []
  }

  function Absorb(q: Queues, batch: Arrivals): Queues
    decreases |batch|
  {
    if batch == [] then q
    else Absorb(q[batch[0].0 := QueueOf(q, batch[0].0) + batch[0].1], batch[1..])
  }

  /** The loop variable after iterating over a batch. */
  function LastName(batch: Arrivals, name: string): string {
    if batch == [] then name else batch[|batch| - 1].0
  }

  /** What a call does, given the batches that arrive while it polls: the agent whose queue it pops, the queues
      before the pop, and the batches not yet seen; None if it is still waiting after the last batch. */
  function Poll(q: Queues, name: string, batches: seq<Arrivals>): Option<(string, Queues, seq<Arrivals>)>
    decreases |batches|
  {
    if QueueOf(q, name) != [] then Some((name, q, batches))
    else if batches == [] then None
    else Poll(Absorb(q, batches[0]), LastName(batches[0], name), batches[1..])
  }

  class Agent {
    var notifications: Queues

    constructor ()
      ensures notifications == map[]
    {
      notifications := map[];
    }

    method GetNotification(remoteName: string, batches: seq<Arrivals>) returns (note: Option<nat>, rest: seq<Arrivals>)
      modifies this
      ensures match Poll(old(notifications), remoteName, batches)
              case None => note == None && rest == []
              case Some((name, q, left)) =>
                && QueueOf(q, name) != [] && note == Some(QueueOf(q, name)[0]) && rest == left
                && notifications == q[name := QueueOf(q, name)[1..]]
    {
      var name := remoteName;
      rest := batches;
      while QueueOf(notifications, name) == []
        invariant Poll(old(notifications), remoteName, batches) == Poll(notifications, name, rest)
        decreases |rest|
      {
        if rest == [] { return None, []; }
        var batch := rest[0];
        rest := rest[1..];
        ghost var before, waiting := notifications, name;
        var i := 0;
        while i < |batch|
          invariant i <= |batch|
          invariant Absorb(before, batch) == Absorb(notifications, batch[i..])
          invariant name == LastName(batch[..i], waiting)
        {
          name := batch[i].0;
          notifications := notifications[name := QueueOf(notifications, name) + batch[i].1];
          assert batch[i..][1..] == batch[i + 1..] && batch[..i + 1][i] == batch[i];
          i := i + 1;
        }
        assert batch[..i] == batch && batch[i..] == [];
      }
      var queue := QueueOf(notifications, name);
      notifications := notifications[name := queue[1..]];
      return Some(queue[0]), rest;
    }
  }

  ghost predicate OnlyFrom(batches: seq<Arrivals>, name: string) {
    forall b, e :: b in batches && e in b ==> e.0 == name
  }

  /** The notifications of a batch, and of all batches, in order of arrival. */
  function NotesIn(batch: Arrivals): seq<nat> {
    if batch == [] then [] else batch[0].1 + NotesIn(batch[1..])
  }

  function AllNotes(batches: seq<Arrivals>): seq<nat> {
    if batches == [] then [] else NotesIn(batches[0]) + AllNotes(batches[1..])
  }

  lemma {:induction false} AbsorbFromOne(q: Queues, batch: Arrivals, name: string)
    requires forall e :: e in batch ==> e.0 == name
    ensures QueueOf(Absorb(q, batch), name) == QueueOf(q, name) + NotesIn(batch)
    decreases |batch|
  {
    if batch != [] {
      assert batch[0] in batch;
      AbsorbFromOne(q[name := QueueOf(q, name) + batch[0].1], batch[1..], name);
    }
  }

  /** The notifications of one agent in a batch, in order of arrival. */
  function NotesFrom(batch: Arrivals, name: string): seq<nat> {
    if batch == [] then [] else (if batch[0].0 == name then batch[0].1 else []) + NotesFrom(batch[1..], name)
  }

  /** A batch goes to the ends of its agents' queues. */
  lemma {:induction false} AbsorbExactly(q: Queues, batch: Arrivals, name: string)
    ensures QueueOf(Absorb(q, batch), name) == QueueOf(q, name) + NotesFrom(batch, name)
    decreases |batch|
  {
    if batch != [] {
      AbsorbExactly(q[batch[0].0 := QueueOf(q, batch[0].0) + batch[0].1], batch[1..], name);
    }
  }

  /** When only the awaited agent sends notifications, a call waits exactly until it has sent one, and takes
      the oldest; what is queued afterwards, and what is yet to arrive, are the others in their order. */
  lemma {:induction false} SingleSourceIsAwaited(q: Queues, name: string, batches: seq<Arrivals>)
    requires OnlyFrom(batches, name)
    ensures Poll(q, name, batches).Some? <==> QueueOf(q, name) + AllNotes(batches) != []
    ensures Poll(q, name, batches).Some? ==>
      var (from, queues, left) := Poll(q, name, batches).value;
      var all := QueueOf(q, name) + AllNotes(batches);
      && from == name && QueueOf(queues, name) != [] && QueueOf(queues, name)[0] == all[0]
      && QueueOf(queues, name)[1..] + AllNotes(left) == all[1..]
    decreases |batches|
  {
    if QueueOf(q, name) == [] && batches != [] {
      var batch := batches[0];
      assert batch in batches;
      if batch != [] {
        assert batch[|batch| - 1] in batch;
      }
      forall b, e | b in batches[1..] && e in b
        ensures e.0 == name
      {
        assert b in batches;
      }
      AbsorbFromOne(q, batch, name);
      SingleSourceIsAwaited(Absorb(q, batch), LastName(batch, name), batches[1..]);
    }
  }

  /** An agent is listed in a batch only if it sent something. */
  ghost predicate NoEmptyEntries(batches: seq<Arrivals>) {
    forall b: Arrivals :: b in batches ==> forall i :: 0 <= i < |b| ==> b[i].1 != []
  }

  /** The agent that the first batch to bring anything lists last. */
  function FirstLast(batches: seq<Arrivals>): Option<string> {
    if batches == [] then None
    else if batches[0] == [] then FirstLast(batches[1..])
    else Some(LastName(batches[0], ""))
  }

  lemma {:induction false} AbsorbFillsLast(q: Queues, batch: Arrivals)
    requires batch != [] && forall i :: 0 <= i < |batch| ==> batch[i].1 != []
    ensures QueueOf(Absorb(q, batch), LastName(batch, "")) != []
    decreases |batch|
  {
    var next := q[batch[0].0 := QueueOf(q, batch[0].0) + batch[0].1];
    if |batch| == 1 {
      assert Absorb(next, batch[1..]) == next;
    } else {
      AbsorbFillsLast(next, batch[1..]);
    }
  }

  /** Which agent's notification a call takes: the awaited one's if one is already queued, otherwise that of the
      agent which the first batch to bring anything lists last. */
  lemma {:induction false} AwaitedAgentServedExactlyIfLast(q: Queues, name: string, batches: seq<Arrivals>)
    requires NoEmptyEntries(batches)
    ensures Poll(q, name, batches).Some? <==> QueueOf(q, name) != [] || FirstLast(batches).Some?
    ensures Poll(q, name, batches).Some? ==>
      && (Poll(q, name, batches).value.0 == name <==> QueueOf(q, name) != [] || FirstLast(batches) == Some(name))
      && (QueueOf(q, name) == [] ==> FirstLast(batches) == Some(Poll(q, name, batches).value.0))
    decreases |batches|
  {
    if QueueOf(q, name) == [] && batches != [] {
      var batch := batches[0];
      assert batch in batches;
      if batch == [] {
        AwaitedAgentServedExactlyIfLast(q, name, batches[1..]);
      } else {
        AbsorbFillsLast(q, batch);
        assert LastName(batch, name) == LastName(batch, "");
      }
    }
  }

  /** A call for "next" that pops the notification of "other", because "other" was listed last. */
  lemma MisdirectedNotification()
    ensures var batches := [[("next", [1]), ("other", [2])]];
            Poll(map[], "next", batches).Some? && Poll(map[], "next", batches).value.0 != "next"
  {
    var batches := [[("next", [1]), ("other", [2])]];
    assert FirstLast(batches) == Some("other");
    assert "next"[0] != "other"[0];
    AwaitedAgentServedExactlyIfLast(map[], "next", batches);
  }
}
