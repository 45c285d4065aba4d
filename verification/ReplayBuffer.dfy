/** The replay buffer: partitions of keys with tags, merged from snapshots, sampled step by step. */
module ReplayBuffer {
  import opened Options

  /** A prompt's own key, or the key of output `index` of session `session` of a prompt. */
  datatype Key = PromptKey(uid: string) | TrajectoryKey(uid: string, session: nat, index: nat)

  datatype Status = Running | Success | Finished | Failure

  /** The tags the buffer looks at; a tag may be absent. */
  datatype Tags = Tags(steps: Option<nat>, status: Option<Status>)

  function Update(old_: Tags, new_: Tags): Tags {
    Tags(if new_.steps.Some? then new_.steps else old_.steps,
         if new_.status.Some? then new_.status else old_.status)
  }

  const NO_TAGS := Tags(None, None)

  /** A dictionary: its keys in insertion order, and its values. */
  datatype Partition = Partition(order: seq<Key>, tags: map<Key, Tags>) {
    ghost predicate Valid() {
      && (forall k :: k in order <==> k in tags)
      && Distinct(order)
    }
  }

  ghost predicate Distinct(order: seq<Key>) {
    forall i, j :: 0 <= i < j < |order| ==> order[i] != order[j]
  }

  function Lookup(tags: map<Key, Tags>, k: Key): Tags {
    if k in tags then tags[k] else NO_TAGS
  }

  function AddItem(p: Partition, k: Key, t: Tags): Partition {
    Partition(if k in p.tags then p.order else p.order + [k], p.tags[k := Update(Lookup(p.tags, k), t)])
  }

  function AddItems(p: Partition, order: seq<Key>, tags: map<Key, Tags>): Partition
    decreases |order|
  {
    if order == [] then p else AddItems(AddItem(p, order[0], Lookup(tags, order[0])), order[1..], tags)
  }

  /** The order without the first occurrence of a key. */
  function Drop(order: seq<Key>, key: Key): seq<Key> {
    if order == [] then [] else if order[0] == key then order[1..] else [order[0]] + Drop(order[1..], key)
  }

  /** `del partition[key]`. */
  function Delete(p: Partition, key: Key): Partition
    requires key in p.tags
  {
    Partition(Drop(p.order, key), map k | k in p.tags && k != key :: p.tags[k])
  }

  // ---------------------------------------------------------------- what is left after a removal

  /** The keys that are not listed, in their order. */
  function Without(order: seq<Key>, keys: seq<Key>): seq<Key> {
    if order == [] then []
    else (if order[0] in keys then [] else [order[0]]) + Without(order[1..], keys)
  }

  lemma {:induction false} WithoutExactly(order: seq<Key>, keys: seq<Key>)
    requires Distinct(order)
    ensures forall k :: k in Without(order, keys) <==> k in order && k !in keys
    ensures Distinct(Without(order, keys))
  {
    if order != [] {
      assert forall k :: k in order <==> k == order[0] || k in order[1..];
      WithoutExactly(order[1..], keys);
    }
  }

  /** Listing a key once more, or one that is not there, leaves out nothing else. */
  lemma {:induction false} WithoutNoMore(order: seq<Key>, keys: seq<Key>, key: Key)
    requires key in keys || key !in order
    ensures Without(order, keys + [key]) == Without(order, keys)
  {
    if order != [] {
      WithoutNoMore(order[1..], keys, key);
    }
  }

  /** Dropping a key is leaving it out. */
  lemma {:induction false} DropIsWithout(order: seq<Key>, keys: seq<Key>, key: Key)
    requires Distinct(order) && key !in keys
    ensures Drop(Without(order, keys), key) == Without(order, keys + [key])
  {
    if order != [] {
      if order[0] == key {
        WithoutNoMore(order[1..], keys, key);
      } else {
        DropIsWithout(order[1..], keys, key);
        var rest := Without(order[1..], keys);
        assert ([order[0]] + rest)[1..] == rest && [] + rest == rest;
        assert order[0] in keys + [key] <==> order[0] in keys;
      }
    }
  }

  lemma {:induction false} WithoutNothing(order: seq<Key>)
    ensures Without(order, []) == order
  {
    if order != [] {
      WithoutNothing(order[1..]);
    }
  }

  /** The tags that are left when the keys are gone. */
  ghost predicate TagsLeft(was: map<Key, Tags>, keys: seq<Key>, tags: map<Key, Tags>) {
    && (forall k :: k in tags <==> k in was && k !in keys)
    && (forall k :: k in tags ==> tags[k] == was[k])
  }

  ghost predicate Left(was: Partition, keys: seq<Key>, p: Partition) {
    p.order == Without(was.order, keys) && TagsLeft(was.tags, keys, p.tags)
  }

  lemma TagsLeftOneMore(was: map<Key, Tags>, keys: seq<Key>, tags: map<Key, Tags>, key: Key)
    requires TagsLeft(was, keys, tags)
    ensures TagsLeft(was, keys + [key], map k | k in tags && k != key :: tags[k])
    ensures key !in tags ==> TagsLeft(was, keys + [key], tags)
  {
    assert forall k :: k in keys + [key] <==> k in keys || k == key;
  }

  lemma DeleteLeaves(was: Partition, keys: seq<Key>, p: Partition, key: Key)
    requires was.Valid() && Left(was, keys, p)
    ensures Left(was, keys + [key], if key in p.tags then Delete(p, key) else p)
  {
    TagsLeftOneMore(was.tags, keys, p.tags, key);
    if key in p.tags {
      DropIsWithout(was.order, keys, key);
    } else {
      assert key in was.order <==> key in was.tags;
      WithoutNoMore(was.order, keys, key);
    }
  }

  lemma LeftIsValid(was: Partition, keys: seq<Key>, p: Partition)
    requires was.Valid() && Left(was, keys, p)
    ensures p.Valid()
  {
    WithoutExactly(was.order, keys);
  }

  // ---------------------------------------------------------------- sampling

  /** One pass over a partition: a missing tag, a running prompt, or the keys of the batch. */
  datatype Scan = MissingTag | StillRunning | Batch(keys: seq<Key>)

  function ScanFor(order: seq<Key>, tags: map<Key, Tags>, g: nat): Scan {
    if order == [] then Batch([])
    else
      var t := Lookup(tags, order[0]);
      if t.steps.None? then MissingTag
      else if t.steps.value != g then ScanFor(order[1..], tags, g)
      else if t.status.None? then MissingTag
      else if t.status.value == Running then StillRunning
      else
        match ScanFor(order[1..], tags, g)
        case Batch(keys) => Batch((if t.status.value == Success then [order[0]] else []) + keys)
        case other => other
  }

  predicate Selected(tags: map<Key, Tags>, g: nat, k: Key) {
    k in tags && tags[k] == Tags(Some(g), Some(Success))
  }

  ghost predicate NoneRunning(tags: map<Key, Tags>, g: nat) {
    forall k :: k in tags && tags[k].steps == Some(g) ==> tags[k].status != Some(Running)
  }

  /** Where every entry has both tags, the scan of a step yields a batch exactly when none of the step's
      entries is running, and then it holds exactly the step's successful keys, each once. */
  lemma {:induction false} ScanIsExact(order: seq<Key>, tags: map<Key, Tags>, g: nat)
    requires forall k :: k in order ==> k in tags && tags[k].steps.Some? && tags[k].status.Some?
    requires forall i, j :: 0 <= i < j < |order| ==> order[i] != order[j]
    ensures ScanFor(order, tags, g).Batch?
       <==> forall k :: k in order && tags[k].steps == Some(g) ==> tags[k].status != Some(Running)
    ensures ScanFor(order, tags, g).Batch? ==>
      var keys := ScanFor(order, tags, g).keys;
      && (forall k :: k in keys <==> k in order && Selected(tags, g, k))
      && (forall i, j :: 0 <= i < j < |keys| ==> keys[i] != keys[j])
  {
    if order != [] {
      assert forall k :: k in order <==> k == order[0] || k in order[1..];
      assert order[0] !in order[1..];
      ScanIsExact(order[1..], tags, g);
    }
  }

  /** Nothing stops the scan exactly if every key has a step, and every key of the step sampled a status that is
      not running; otherwise the first key without them decides. */
  lemma {:induction false} ScanStopsExactly(order: seq<Key>, tags: map<Key, Tags>, g: nat, i: nat)
    requires i <= |order|
    requires forall j :: 0 <= j < i ==>
      && order[j] in tags && tags[order[j]].steps.Some?
      && (tags[order[j]].steps == Some(g) ==> tags[order[j]].status.Some? && tags[order[j]].status != Some(Running))
    ensures i == |order| ==> ScanFor(order, tags, g).Batch?
    ensures i < |order| && (order[i] !in tags || tags[order[i]].steps == None) ==>
      ScanFor(order, tags, g) == MissingTag
    ensures i < |order| && order[i] in tags && tags[order[i]].steps == Some(g) && tags[order[i]].status == None ==>
      ScanFor(order, tags, g) == MissingTag
    ensures i < |order| && order[i] in tags && tags[order[i]] == Tags(Some(g), Some(Running)) ==>
      ScanFor(order, tags, g) == StillRunning
  {
    if i > 0 {
      ScanStopsExactly(order[1..], tags, g, i - 1);
    }
  }

  lemma {:induction false} AddKeepsValid(p: Partition, order: seq<Key>, tags: map<Key, Tags>)
    requires p.Valid()
    ensures AddItems(p, order, tags).Valid()
    decreases |order|
  {
    if order != [] {
      AddItemValid(p, order[0], Lookup(tags, order[0]));
      AddKeepsValid(AddItem(p, order[0], Lookup(tags, order[0])), order[1..], tags);
    }
  }

  lemma AddItemValid(p: Partition, k: Key, t: Tags)
    requires p.Valid()
    ensures AddItem(p, k, t).Valid()
    ensures AddItem(p, k, t).order == if k in p.order then p.order else p.order + [k]
  {
  }

  /** What the first key adds to the keys that are there. */
  lemma AppendNew(had: seq<Key>, order: seq<Key>)
    requires order != [] && order[0] !in order[1..]
    ensures had + Without(order, had) ==
      var have := if order[0] in had then had else had + [order[0]];
      have + Without(order[1..], have)
  {
    var k, rest := order[0], order[1..];
    if k in had {
      assert [] + Without(rest, had) == Without(rest, had);
    } else {
      WithoutNoMore(rest, had, k);
      assert (had + [k]) + Without(rest, had) == had + ([k] + Without(rest, had));
    }
  }

  /** The new keys follow the old ones, in the order of the items. */
  lemma {:induction false} AddOrder(p: Partition, order: seq<Key>, tags: map<Key, Tags>)
    requires p.Valid() && Distinct(order)
    ensures AddItems(p, order, tags).order == p.order + Without(order, p.order)
    decreases |order|
  {
    if order == [] {
      assert p.order + [] == p.order;
    } else {
      var k, rest := order[0], order[1..];
      var q := AddItem(p, k, Lookup(tags, k));
      AddItemValid(p, k, Lookup(tags, k));
      AppendNew(p.order, order);
      AddOrder(q, rest, tags);
    }
  }

  /** Adding one item: the tags it gives, and where it gives none those of before. */
  ghost predicate HasAdded(tags: map<Key, Tags>, k: Key, t: Tags, now: Tags) {
    && now.steps == (if t.steps.Some? then t.steps else if k in tags then tags[k].steps else None)
    && now.status == (if t.status.Some? then t.status else if k in tags then tags[k].status else None)
  }

  lemma {:induction false} AddTags(p: Partition, order: seq<Key>, tags: map<Key, Tags>, k: Key)
    requires Distinct(order) && forall j :: j in order ==> j in tags
    ensures var r := AddItems(p, order, tags).tags;
      && (k in r <==> k in p.tags || k in order)
      && (k in p.tags && k !in order ==> r[k] == p.tags[k])
      && (k in order ==> HasAdded(p.tags, k, tags[k], r[k]))
    decreases |order|
  {
    if order != [] {
      var q := AddItem(p, order[0], tags[order[0]]);
      assert Distinct(order[1..]) && order[0] !in order[1..];
      AddTags(q, order[1..], tags, k);
      assert k in order <==> k == order[0] || k in order[1..];
    }
  }

  /** Adding items: every key listed has the tags its item gives and, where it gives none, the tags of before;
      the other keys keep theirs, and the new keys follow the old ones in the order of the items. */
  lemma AddExactly(p: Partition, items: Partition)
    requires p.Valid() && items.Valid()
    ensures var r := AddItems(p, items.order, items.tags);
      && r.order == p.order + Without(items.order, p.order)
      && (forall k :: k in r.tags <==> k in p.tags || k in items.tags)
      && (forall k :: k in p.tags && k !in items.tags ==> r.tags[k] == p.tags[k])
      && (forall k :: k in items.tags ==>
            var t := items.tags[k];
            && r.tags[k].steps == (if t.steps.Some? then t.steps else if k in p.tags then p.tags[k].steps else None)
            && r.tags[k].status == (if t.status.Some? then t.status
                                    else if k in p.tags then p.tags[k].status else None))
  {
    AddOrder(p, items.order, items.tags);
    var r := AddItems(p, items.order, items.tags);
    forall k
      ensures k in r.tags <==> k in p.tags || k in items.tags
      ensures k in p.tags && k !in items.tags ==> r.tags[k] == p.tags[k]
      ensures k in items.tags ==> HasAdded(p.tags, k, items.tags[k], r.tags[k])
    {
      AddTags(p, items.order, items.tags, k);
    }
  }

  // ---------------------------------------------------------------- the buffer

  lemma AddStep(p: Partition, order: seq<Key>, tags: map<Key, Tags>, i: nat)
    requires i < |order|
    ensures AddItems(p, order[i..], tags)
          == AddItems(AddItem(p, order[i], Lookup(tags, order[i])), order[i + 1..], tags)
  {
    assert order[i..][0] == order[i] && order[i..][1..] == order[i + 1..];
  }

  /** What one key does to the scan of the keys from i on. */
  lemma ScanStep(order: seq<Key>, tags: map<Key, Tags>, g: nat, i: nat, keys: seq<Key>)
    requires i < |order|
    ensures WithKeys(keys, ScanFor(order[i..], tags, g)) ==
      var k := order[i];
      var t := Lookup(tags, k);
      if t.steps.None? || (t.steps.value == g && t.status.None?) then MissingTag
      else if t.steps.value == g && t.status.value == Running then StillRunning
      else WithKeys(if t.steps.value == g && t.status.value == Success then keys + [k] else keys,
                    ScanFor(order[i + 1..], tags, g))
  {
    assert order[i..][0] == order[i] && order[i..][1..] == order[i + 1..];
    var rest := ScanFor(order[i + 1..], tags, g);
    if rest.Batch? { assert (keys + [order[i]]) + rest.keys == keys + ([order[i]] + rest.keys); }
  }

  function WithKeys(keys: seq<Key>, rest: Scan): Scan {
    match rest
    case Batch(more) => Batch(keys + more)
    case other => other
  }

  class Buffer {
    var partitions: map<string, Partition>

    ghost predicate Valid()
      reads this
    {
      forall id :: id in partitions ==> partitions[id].Valid()
    }

    constructor ()
      ensures Valid() && partitions == map[]
    {
      partitions := map[];
    }

    method Add(id: string, items: Partition)
      requires Valid() && items.Valid()
      modifies this
      ensures Valid()
      ensures id in partitions && partitions == old(partitions)[id := partitions[id]]
      ensures id in old(partitions) ==> partitions[id] == AddItems(old(partitions)[id], items.order, items.tags)
      ensures id !in old(partitions) ==>
        partitions[id] == AddItems(Partition([], map[]), items.order, items.tags)
    {
      var p := if id in partitions then partitions[id] else Partition([], map[]);
      ghost var was := p;
      AddKeepsValid(p, items.order, items.tags);
      var i := 0;
      while i < |items.order|
        invariant i <= |items.order| && partitions == old(partitions)
        invariant AddItems(p, items.order[i..], items.tags) == AddItems(was, items.order, items.tags)
      {
        var k := items.order[i];
        AddStep(p, items.order, items.tags, i);
        p := AddItem(p, k, Lookup(items.tags, k));
        i := i + 1;
      }
      partitions := partitions[id := p];
    }

    /** Exactly the listed keys leave, as far as they are there; the others keep their tags and their order. */
    method Remove(id: string, keys: seq<Key>)
      requires Valid()
      modifies this
      ensures Valid() && id in partitions && partitions == old(partitions)[id := partitions[id]]
      ensures id !in old(partitions) ==> partitions[id] == Partition([], map[])
      ensures id in old(partitions) ==>
        var was := old(partitions)[id];
        && Left(was, keys, partitions[id])
        && (forall k :: k in partitions[id].tags <==> k in was.tags && k !in keys)
        && (forall k :: k in partitions[id].tags ==> partitions[id].tags[k] == was.tags[k])
        && partitions[id].order == Without(was.order, keys)
    {
      var p := if id in partitions then partitions[id] else Partition([], map[]);
      ghost var was := p;
      WithoutNothing(was.order);
      var i := 0;
      while i < |keys|
        invariant i <= |keys| && partitions == old(partitions)
        invariant Left(was, keys[..i], p)
      {
        DeleteLeaves(was, keys[..i], p, keys[i]);
        if keys[i] in p.tags {
          p := Delete(p, keys[i]);
        }
        assert keys[..i + 1] == keys[..i] + [keys[i]];
        i := i + 1;
      }
      assert keys[..i] == keys;
      LeftIsValid(was, keys, p);
      partitions := partitions[id := p];
    }

    /** One turn of the polling loop of `sample` for a training step. */
    method Poll(id: string, g: nat) returns (r: Scan)
      requires Valid()
      modifies this
      ensures Valid() && id in partitions && partitions == old(partitions)[id := partitions[id]]
      ensures partitions[id] == if id in old(partitions) then old(partitions)[id] else Partition([], map[])
      ensures r == ScanFor(partitions[id].order, partitions[id].tags, g)
    {
      var p := if id in partitions then partitions[id] else Partition([], map[]);
      partitions := partitions[id := p];
      var keys: seq<Key> := [];
      var i := 0;
      while i < |p.order|
        invariant i <= |p.order| && partitions == old(partitions)[id := p]
        invariant ScanFor(p.order, p.tags, g) == WithKeys(keys, ScanFor(p.order[i..], p.tags, g))
      {
        var k := p.order[i];
        var t := Lookup(p.tags, k);
        ScanStep(p.order, p.tags, g, i, keys);
        if t.steps.None? { return MissingTag; }
        if t.steps.value == g {
          if t.status.None? { return MissingTag; }
          if t.status.value == Running { return StillRunning; }
          if t.status.value == Success {
            keys := keys + [k];
          }
        }
        i := i + 1;
      }
      assert p.order[i..] == [] && keys + [] == keys;
      return Batch(keys);
    }
  }
}
