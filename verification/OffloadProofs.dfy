/** Whole runs of the offload handler: passes of L forward commits and L backward commits, again and again.

    Beside the handler, a run keeps the tensors pushed and not yet popped.  Every legal run goes through
    without a failing assertion or missing key, and every pop returns what was pushed. */
module OffloadProofs {
  import opened Options
  import opened OffloadWindow
  import opened OffloadModel

  /** Where a pass stands: `group` layers lie before the current point, `saved` is what has to come back. */
  datatype Pass = Pass(forward: bool, group: nat, saved: map<Tag, Tensor>)

  datatype System = System(h: Handler, pass: Pass)

  const START := System(INITIAL, Pass(true, 0, map[]))

  datatype Action =
    | PushTensor(t: Tensor, needOffload: bool)
    | PopTensor(handle: Handle)
    | ForwardCommit
    | BackwardCommit
    | NewPass

  /** What the autograd engine and the model do: L layers forward, then back, popping each group's tensors
      between two backward commits; tensors of one layer with the same key have the same elements. */
  ghost predicate Legal(layers: nat, s: System, a: Action) {
    var p := s.pass;
    match a
    case PushTensor(t, _) =>
      && p.forward && p.group < layers && t.Valid()
      && (forall tag :: tag in p.saved && tag.group == p.group && p.saved[tag].key == t.key ==>
            p.saved[tag].flat == t.flat)
    case PopTensor(handle) =>
      handle.Tagged? ==> !p.forward && handle.tag in p.saved && handle.tag.group == p.group
    case ForwardCommit => p.forward && p.group < layers
    case BackwardCommit =>
      && p.group > 0 && (p.forward ==> p.group == layers)
      && (forall tag :: tag in p.saved ==> tag.group < p.group)
    case NewPass => !p.forward && p.group == 0 && p.saved == map[]
  }

  /** The next state and the tensor a pop returns; None if the handler fails. */
  function Next(layers: nat, groups: nat, s: System, a: Action): Option<(System, Option<Tensor>)> {
    var h, p := s.h, s.pass;
    match a
    case PushTensor(t, need) =>
      var r := Push(groups, h, t, need);
      if r.None? then None
      else
        var saved := if r.value.1.Tagged? then p.saved[r.value.1.tag := t] else p.saved;
        Some((System(r.value.0, p.(saved := saved)), None))
    case PopTensor(handle) =>
      var r := Pop(h, handle);
      if r.None? then None
      else
        var saved := if handle.Tagged? then p.saved - {handle.tag} else p.saved;
        Some((System(r.value.0, p.(saved := saved)), Some(r.value.1)))
    case ForwardCommit =>
      var r := CommitForward(layers, groups, h);
      if r.None? then None else Some((System(r.value, p.(group := p.group + 1)), None))
    case BackwardCommit =>
      var r := CommitBackward(layers, groups, h);
      if r.None? || p.group == 0 then None
      else Some((System(r.value, Pass(false, p.group - 1, p.saved)), None))
    case NewPass => Some((System(h, Pass(true, p.group, p.saved)), None))
  }

  // ---------------------------------------------------------------- how many windows lie before a layer

  function Below(layers: nat, groups: nat, g: nat, n: nat): (r: nat)
    requires n <= groups
    ensures r <= n
    ensures r > 0 ==> Window(layers, groups, r - 1) < g
    ensures forall j :: r <= j < n ==> Window(layers, groups, j) >= g
  {
    if n == 0 then 0 else if Window(layers, groups, n - 1) < g then n else Below(layers, groups, g, n - 1)
  }

  function Passed(layers: nat, groups: nat, g: nat): nat {
    Below(layers, groups, g, groups)
  }

  lemma PassedStep(layers: nat, groups: nat, g: nat)
    requires 1 <= groups <= layers
    ensures var m := Passed(layers, groups, g);
            Passed(layers, groups, g + 1) == if m < groups && Window(layers, groups, m) == g then m + 1 else m
  {
    var m, k := Passed(layers, groups, g), Passed(layers, groups, g + 1);
    if m < k - 1 { WindowIncreasing(layers, groups, m, k - 1); }
    if k == m && m < groups {
      assert Window(layers, groups, m) >= g + 1;
    }
  }

  lemma PassedAtEnds(layers: nat, groups: nat)
    requires 1 <= groups <= layers
    ensures Passed(layers, groups, 0) == 0 && Passed(layers, groups, layers) == groups
  {
    if Passed(layers, groups, 0) > 0 { WindowBehindGroup(layers, groups, Passed(layers, groups, 0) - 1); }
    WindowEndsAtLastLayer(layers, groups);
  }

  /** Before the last layer is behind, some window lies ahead. */
  lemma PassedBeforeEnd(layers: nat, groups: nat, g: nat)
    requires 1 <= groups <= layers && g < layers
    ensures Passed(layers, groups, g) < groups
    ensures Passed(layers, groups, g) <= g
  {
    WindowEndsAtLastLayer(layers, groups);
    var m := Passed(layers, groups, g);
    if m > 0 { WindowBehindGroup(layers, groups, m - 1); }
  }

  // ---------------------------------------------------------------- invariant

  /** The groups 0, 1, ... with a host copy. */
  function HostCount(layers: nat, groups: nat, p: Pass): nat {
    var m := Passed(layers, groups, p.group);
    if p.forward && p.group > 0 then if m < groups then m + 1 else m
    else m
  }

  ghost predicate CountersOk(layers: nat, groups: nat, h: Handler, p: Pass) {
    && p.group <= layers && h.current == p.group
    && h.offloaded == (var m := Passed(layers, groups, p.group); if p.forward || p.group == 0 || m > 0 then m else 1)
    && (!p.forward || p.group == layers ==> h.count == 0)
  }

  ghost predicate SavedOk(h: Handler, p: Pass) {
    && (forall tag :: tag in p.saved ==> p.saved[tag].Valid() && tag.group <= p.group)
    && (forall tag :: tag in p.saved && p.forward && tag.group == p.group ==> tag.index < h.count)
    && (forall a, b :: a in p.saved && b in p.saved && a.group == b.group && p.saved[a].key == p.saved[b].key
          ==> p.saved[a].flat == p.saved[b].flat)
  }

  /** The entry stands for the tensor that was pushed. */
  ghost predicate StandsFor(mapping: map<nat, map<int, Tensor>>, forward: bool, e: Entry, t: Tensor) {
    match e.saved
    case OnDevice(u) => u.shape == t.shape && u.flat == t.flat && (forward ==> u == t)
    case OnHost(key, shape) =>
      && key == t.key && shape == t.shape
      && e.tag.group in mapping && key in mapping[e.tag.group] && mapping[e.tag.group][key].flat == t.flat
  }

  ghost predicate EntriesOk(entries: seq<Entry>, mapping: map<nat, map<int, Tensor>>, p: Pass) {
    && (forall i, j :: 0 <= i < j < |entries| ==> entries[i].tag != entries[j].tag)
    && (forall i :: 0 <= i < |entries| ==>
          entries[i].tag in p.saved && StandsFor(mapping, p.forward, entries[i], p.saved[entries[i].tag]))
    && (forall tag {:trigger HasTag(entries, tag)} :: tag in p.saved ==> HasTag(entries, tag))
  }

  /** The groups below n are on the host, whenever there are fewer groups than layers. */
  ghost predicate HostOk(layers: nat, groups: nat, entries: seq<Entry>, n: nat) {
    groups < layers ==> forall i :: 0 <= i < |entries| && entries[i].tag.group < n ==> entries[i].saved.OnHost?
  }

  ghost predicate BufOk(groups: nat, h: Handler, p: Pass) {
    && (forall tag :: tag in h.buf <==> tag in p.saved && tag.group < groups)
    && (forall tag :: tag in h.buf && tag.group < (if p.forward then h.offloaded else groups) ==> h.buf[tag].None?)
  }

  ghost predicate MappingOk(mapping: map<nat, map<int, Tensor>>, n: nat) {
    forall g: nat :: g in mapping <==> g < n
  }

  ghost predicate Inv(layers: nat, groups: nat, s: System) {
    var h, p := s.h, s.pass;
    && CountersOk(layers, groups, h, p) && SavedOk(h, p)
    && EntriesOk(h.entries, h.mapping, p)
    && MappingOk(h.mapping, HostCount(layers, groups, p))
    && HostOk(layers, groups, h.entries, HostCount(layers, groups, p))
    && BufOk(groups, h, p)
  }

  lemma StartOk(layers: nat, groups: nat)
    requires 1 <= groups <= layers
    ensures Inv(layers, groups, START)
  {
    PassedAtEnds(layers, groups);
  }

  // ---------------------------------------------------------------- push and pop

  lemma HasTagExactly(entries: seq<Entry>, tag: Tag)
    ensures HasTag(entries, tag) <==> exists i :: 0 <= i < |entries| && entries[i].tag == tag
  {
  }

  lemma PushEntries(entries: seq<Entry>, mapping: map<nat, map<int, Tensor>>, p: Pass, tag: Tag, t: Tensor)
    requires EntriesOk(entries, mapping, p) && p.forward && tag !in p.saved
    ensures !HasTag(entries, tag)
    ensures EntriesOk(entries + [Entry(tag, OnDevice(t))], mapping, p.(saved := p.saved[tag := t]))
  {
    var after := entries + [Entry(tag, OnDevice(t))];
    forall x | x in p.saved[tag := t]
      ensures HasTag(after, x)
    {
      HasTagExactly(after, x);
      if x == tag { assert after[|entries|].tag == x; }
      else {
        assert HasTag(entries, x);
        assert after[Position(entries, x)].tag == x;
      }
    }
  }

  /** The group being pushed is not among those on the host. */
  lemma CurrentGroupStays(layers: nat, groups: nat, p: Pass)
    requires 1 <= groups <= layers && p.group < layers && p.forward
    ensures groups < layers ==> HostCount(layers, groups, p) <= p.group
    ensures Passed(layers, groups, p.group) <= p.group
  {
    PassedBeforeEnd(layers, groups, p.group);
    var m := Passed(layers, groups, p.group);
    if m > 0 { WindowBehindGroup(layers, groups, m - 1); }
  }

  lemma PushSaved(h: Handler, p: Pass, t: Tensor)
    requires SavedOk(h, p) && p.forward && h.current == p.group && t.Valid()
    requires forall tag :: tag in p.saved && tag.group == p.group && p.saved[tag].key == t.key ==>
        p.saved[tag].flat == t.flat
    ensures Tag(h.current, h.count) !in p.saved
    ensures SavedOk(h.(count := h.count + 1), p.(saved := p.saved[Tag(h.current, h.count) := t]))
  {
  }

  lemma PushKeeps(layers: nat, groups: nat, s: System, t: Tensor, need: bool)
    requires 1 <= groups <= layers && Inv(layers, groups, s) && Legal(layers, s, PushTensor(t, need))
    ensures Next(layers, groups, s, PushTensor(t, need)).Some?
    ensures Inv(layers, groups, Next(layers, groups, s, PushTensor(t, need)).value.0)
  {
    if need {
      var h, p := s.h, s.pass;
      var tag := Tag(h.current, h.count);
      PushSaved(h, p, t);
      PushEntries(h.entries, h.mapping, p, tag, t);
      CurrentGroupStays(layers, groups, p);
      var h' := Push(groups, h, t, need).value.0;
      var p' := p.(saved := p.saved[tag := t]);
      assert SavedOk(h', p') by { assert SavedOk(h.(count := h.count + 1), p'); }
      assert HostOk(layers, groups, h'.entries, HostCount(layers, groups, p));
      assert BufOk(groups, h', p');
    }
  }

  lemma FoundEntry(entries: seq<Entry>, mapping: map<nat, map<int, Tensor>>, p: Pass, tag: Tag)
    requires EntriesOk(entries, mapping, p) && tag in p.saved
    ensures var i := Position(entries, tag);
            i < |entries| && entries[i].tag == tag && StandsFor(mapping, p.forward, entries[i], p.saved[tag])
  {
    assert HasTag(entries, tag);
  }

  lemma RemoveKeepsEach(entries: seq<Entry>, mapping: map<nat, map<int, Tensor>>, p: Pass, k: nat)
    requires EntriesOk(entries, mapping, p) && k < |entries|
    ensures var after := entries[..k] + entries[k + 1..];
            && (forall i, j :: 0 <= i < j < |after| ==> after[i].tag != after[j].tag)
            && (forall i :: 0 <= i < |after| ==> after[i].tag != entries[k].tag)
            && (forall i :: 0 <= i < |after| ==>
                  after[i].tag in p.saved && StandsFor(mapping, p.forward, after[i], p.saved[after[i].tag]))
  {
  }

  lemma PopEntries(entries: seq<Entry>, mapping: map<nat, map<int, Tensor>>, p: Pass, tag: Tag)
    requires EntriesOk(entries, mapping, p) && HasTag(entries, tag)
    ensures var i := Position(entries, tag);
            EntriesOk(entries[..i] + entries[i + 1..], mapping, p.(saved := p.saved - {tag}))
  {
    RemoveKeepsEach(entries, mapping, p, Position(entries, tag));
    RemovedEntry(entries, p.saved, tag);
  }

  lemma RemainingEntry(entries: seq<Entry>, i: nat, k: nat)
    requires i < |entries| && k < |entries| && i != k
    ensures entries[k] in entries[..i] + entries[i + 1..]
  {
    assert (entries[..i] + entries[i + 1..])[if k < i then k else k - 1] == entries[k];
  }

  lemma RemovedEntry(entries: seq<Entry>, saved: map<Tag, Tensor>, tag: Tag)
    requires HasTag(entries, tag) && forall x :: x in saved ==> HasTag(entries, x)
    ensures var i := Position(entries, tag);
            forall x :: x in saved - {tag} ==> HasTag(entries[..i] + entries[i + 1..], x)
  {
    var i := Position(entries, tag);
    var after := entries[..i] + entries[i + 1..];
    forall x | x in saved - {tag}
      ensures HasTag(after, x)
    {
      HasTagExactly(after, x);
      assert HasTag(entries, x);
      var k := Position(entries, x);
      RemainingEntry(entries, i, k);
    }
  }

  lemma PopSaved(groups: nat, h: Handler, h': Handler, p: Pass, tag: Tag)
    requires SavedOk(h, p) && BufOk(groups, h, p) && h'.count == h.count && h'.buf == h.buf - {tag}
    requires h'.offloaded == h.offloaded
    ensures SavedOk(h', p.(saved := p.saved - {tag})) && BufOk(groups, h', p.(saved := p.saved - {tag}))
  {
  }

  /** On the way back no group at or after the current point has a host copy. */
  lemma CurrentGroupIsBack(layers: nat, groups: nat, p: Pass)
    requires 1 <= groups <= layers && !p.forward
    ensures HostCount(layers, groups, p) <= p.group
  {
    var m := Passed(layers, groups, p.group);
    if m > 0 { WindowBehindGroup(layers, groups, m - 1); }
  }

  lemma RemoveKeepsHost(layers: nat, groups: nat, entries: seq<Entry>, n: nat, k: nat)
    requires HostOk(layers, groups, entries, n) && k < |entries|
    ensures HostOk(layers, groups, entries[..k] + entries[k + 1..], n)
  {
  }

  /** The entry of a tensor that is popped is on the device and has its shape and elements. */
  lemma PoppedEntry(layers: nat, groups: nat, s: System, tag: Tag)
    requires 1 <= groups <= layers && Inv(layers, groups, s) && Legal(layers, s, PopTensor(Tagged(tag)))
    ensures var i := Position(s.h.entries, tag);
            && i < |s.h.entries| && s.h.entries[i].saved.OnDevice?
            && s.h.entries[i].saved.tensor.shape == s.pass.saved[tag].shape
            && s.h.entries[i].saved.tensor.flat == s.pass.saved[tag].flat
  {
    FoundEntry(s.h.entries, s.h.mapping, s.pass, tag);
    CurrentGroupIsBack(layers, groups, s.pass);
  }

  /** A pop returns a tensor with the shape and the elements that were pushed under its tag. */
  lemma PopKeeps(layers: nat, groups: nat, s: System, tag: Tag)
    requires 1 <= groups <= layers && Inv(layers, groups, s) && Legal(layers, s, PopTensor(Tagged(tag)))
    ensures var r := Next(layers, groups, s, PopTensor(Tagged(tag)));
            && r.Some? && r.value.1.Some?
            && r.value.1.value.shape == s.pass.saved[tag].shape && r.value.1.value.flat == s.pass.saved[tag].flat
            && Inv(layers, groups, r.value.0)
  {
    PoppedEntry(layers, groups, s, tag);
    PopEntries(s.h.entries, s.h.mapping, s.pass, tag);
    var h' := Pop(s.h, Tagged(tag)).value.0;
    PopSaved(groups, s.h, h', s.pass, tag);
    RemoveKeepsHost(layers, groups, s.h.entries, HostCount(layers, groups, s.pass), Position(s.h.entries, tag));
    var p' := s.pass.(saved := s.pass.saved - {tag});
    Assemble(layers, groups, h', p', HostCount(layers, groups, s.pass));
  }

  // ---------------------------------------------------------------- offloading and reloading one group

  lemma {:induction false} CollectHas(entries: seq<Entry>, group: nat, i: nat)
    requires i < |entries| && entries[i].tag.group == group && entries[i].saved.OnDevice?
    ensures entries[i].saved.tensor.key in Collect(entries, group)
  {
    if i < |entries| - 1 {
      CollectHas(entries[..|entries| - 1], group, i);
    }
  }

  lemma {:induction false} CollectFrom(entries: seq<Entry>, group: nat, key: int) returns (j: nat)
    requires key in Collect(entries, group)
    ensures j < |entries| && entries[j].tag.group == group
    ensures entries[j].saved.OnDevice? && entries[j].saved.tensor.key == key
    ensures Collect(entries, group)[key] == entries[j].saved.tensor
  {
    var n := |entries| - 1;
    if key in Collect(entries[..n], group) {
      j := CollectFrom(entries[..n], group, key);
    } else {
      j := n;
    }
  }

  lemma SameTags(entries: seq<Entry>, after: seq<Entry>, tag: Tag)
    requires |after| == |entries| && forall i :: 0 <= i < |entries| ==> after[i].tag == entries[i].tag
    ensures HasTag(after, tag) == HasTag(entries, tag)
  {
    HasTagExactly(entries, tag);
    HasTagExactly(after, tag);
  }

  /** The host copy under an entry's key has the entry's elements, whichever tensor was copied. */
  lemma CollectedElements(entries: seq<Entry>, mapping: map<nat, map<int, Tensor>>, p: Pass, h: Handler, group: nat,
                          i: nat)
    requires EntriesOk(entries, mapping, p) && SavedOk(h, p) && p.forward
    requires i < |entries| && entries[i].tag.group == group && entries[i].saved.OnDevice?
    ensures var key := entries[i].saved.tensor.key;
            key in Collect(entries, group) && Collect(entries, group)[key].flat == entries[i].saved.tensor.flat
  {
    CollectHas(entries, group, i);
    var j := CollectFrom(entries, group, entries[i].saved.tensor.key);
    assert entries[i].tag in p.saved && entries[j].tag in p.saved;
  }

  lemma OffloadedEntry(entries: seq<Entry>, mapping: map<nat, map<int, Tensor>>, p: Pass, h: Handler, group: nat,
                       i: nat)
    requires EntriesOk(entries, mapping, p) && SavedOk(h, p) && p.forward && group !in mapping && i < |entries|
    ensures entries[i].tag.group == group ==> entries[i].saved.OnDevice?
    ensures StandsFor(mapping[group := Collect(entries, group)], true,
                      ToHost(entries[i], group), p.saved[entries[i].tag])
  {
    assert StandsFor(mapping, true, entries[i], p.saved[entries[i].tag]);
    if entries[i].tag.group == group {
      CollectedElements(entries, mapping, p, h, group, i);
    }
  }

  lemma OffloadEntries(entries: seq<Entry>, mapping: map<nat, map<int, Tensor>>, p: Pass, h: Handler, group: nat)
    requires EntriesOk(entries, mapping, p) && SavedOk(h, p) && p.forward && group !in mapping
    ensures !SomeOnHost(entries, group)
    ensures EntriesOk(AllToHost(entries, group), mapping[group := Collect(entries, group)], p)
  {
    var after := AllToHost(entries, group);
    forall i | 0 <= i < |entries|
      ensures entries[i].tag.group == group ==> entries[i].saved.OnDevice?
      ensures after[i].tag == entries[i].tag && after[i].tag in p.saved
      ensures StandsFor(mapping[group := Collect(entries, group)], true, after[i], p.saved[after[i].tag])
    {
      OffloadedEntry(entries, mapping, p, h, group, i);
    }
    forall tag | tag in p.saved
      ensures HasTag(after, tag)
    {
      assert HasTag(entries, tag);
      SameTags(entries, after, tag);
    }
  }

  lemma RestorableEntry(entries: seq<Entry>, mapping: map<nat, map<int, Tensor>>, p: Pass, h: Handler, group: nat,
                        i: nat)
    requires EntriesOk(entries, mapping, p) && SavedOk(h, p) && group in mapping && i < |entries|
    ensures Restorable(entries[i], group, mapping[group])
    ensures StandsFor(mapping - {group}, false, ToDevice(entries[i], group, mapping[group]), p.saved[entries[i].tag])
  {
    assert entries[i].tag in p.saved && StandsFor(mapping, p.forward, entries[i], p.saved[entries[i].tag]);
  }

  lemma ReloadEntries(entries: seq<Entry>, mapping: map<nat, map<int, Tensor>>, p: Pass, h: Handler, group: nat)
    requires EntriesOk(entries, mapping, p) && SavedOk(h, p) && group in mapping
    ensures forall e :: e in entries ==> Restorable(e, group, mapping[group])
    ensures EntriesOk(AllToDevice(entries, group, mapping[group]), mapping - {group}, p.(forward := false))
  {
    var after := AllToDevice(entries, group, mapping[group]);
    forall i | 0 <= i < |entries|
      ensures Restorable(entries[i], group, mapping[group])
      ensures after[i].tag == entries[i].tag && StandsFor(mapping - {group}, false, after[i], p.saved[after[i].tag])
    {
      RestorableEntry(entries, mapping, p, h, group, i);
    }
    forall tag | tag in p.saved
      ensures HasTag(after, tag)
    {
      assert HasTag(entries, tag);
      SameTags(entries, after, tag);
    }
  }

  lemma ForgetForward(entries: seq<Entry>, mapping: map<nat, map<int, Tensor>>, p: Pass, p': Pass)
    requires EntriesOk(entries, mapping, p) && p'.saved == p.saved && (p'.forward ==> p.forward)
    ensures EntriesOk(entries, mapping, p')
  {
    forall tag | tag in p'.saved
      ensures HasTag(entries, tag)
    {
    }
  }

  lemma OffloadHost(layers: nat, groups: nat, entries: seq<Entry>, n: nat)
    requires HostOk(layers, groups, entries, n)
    ensures HostOk(layers, groups, AllToHost(entries, n), n + 1)
  {
    forall i | groups < layers && 0 <= i < |entries| && entries[i].tag.group < n + 1
      ensures AllToHost(entries, n)[i].saved.OnHost?
    {
    }
  }

  lemma ReloadHost(layers: nat, groups: nat, entries: seq<Entry>, n: nat, copies: map<int, Tensor>)
    requires HostOk(layers, groups, entries, n + 1)
    ensures HostOk(layers, groups, AllToDevice(entries, n, copies), n)
  {
  }

  // ---------------------------------------------------------------- commits

  /** The part of the invariant that moving a group to the host preserves while it extends the host groups. */
  ghost predicate Moved(layers: nat, groups: nat, h: Handler, p: Pass, n: nat) {
    && SavedOk(h, p) && EntriesOk(h.entries, h.mapping, p)
    && MappingOk(h.mapping, n) && HostOk(layers, groups, h.entries, n)
  }

  lemma OffloadNext(layers: nat, groups: nat, h: Handler, p: Pass, n: nat)
    requires Moved(layers, groups, h, p, n) && p.forward
    ensures BulkOffload(h, n).Some? && Moved(layers, groups, BulkOffload(h, n).value, p, n + 1)
  {
    OffloadEntries(h.entries, h.mapping, p, h, n);
    OffloadHost(layers, groups, h.entries, n);
  }

  lemma ReloadLast(layers: nat, groups: nat, h: Handler, p: Pass, n: nat)
    requires Moved(layers, groups, h, p, n + 1) && n < groups
    ensures BulkReload(groups, h, n).Some?
    ensures Moved(layers, groups, BulkReload(groups, h, n).value, p.(forward := false), n)
  {
    ReloadEntries(h.entries, h.mapping, p, h, n);
    ReloadHost(layers, groups, h.entries, n, h.mapping[n]);
  }

  lemma FirstOffload(layers: nat, groups: nat, h: Handler, p: Pass)
    requires 1 <= groups <= layers && p.forward && p.group < layers && CountersOk(layers, groups, h, p)
    requires Moved(layers, groups, h, p, HostCount(layers, groups, p))
    ensures h.current == 0 ==> BulkOffload(h, 0).Some?
    ensures var first := if h.current == 0 then BulkOffload(h, 0).value else h;
            Moved(layers, groups, first, p, Passed(layers, groups, p.group) + 1)
  {
    PassedBeforeEnd(layers, groups, p.group);
    if h.current == 0 {
      PassedAtEnds(layers, groups);
      OffloadNext(layers, groups, h, p, 0);
    }
  }

  lemma SynchronizeKeeps(layers: nat, groups: nat, h: Handler, p: Pass)
    requires 1 <= groups <= layers && p.forward && p.group < layers && CountersOk(layers, groups, h, p)
    requires Moved(layers, groups, h, p, HostCount(layers, groups, p))
    ensures var m, r := Passed(layers, groups, p.group), Synchronize(layers, groups, h);
            && r.Some? && r.value.current == h.current
            && r.value.offloaded == Passed(layers, groups, p.group + 1)
            && Moved(layers, groups, r.value, p, HostCount(layers, groups, p.(group := p.group + 1)))
            && r.value.buf == (if r.value.offloaded > m then Release(h.buf, m) else h.buf)
            && r.value.offloaded <= m + 1
  {
    var m := Passed(layers, groups, p.group);
    FirstOffload(layers, groups, h, p);
    PassedBeforeEnd(layers, groups, p.group);
    PassedStep(layers, groups, p.group);
    var first := if h.current == 0 then BulkOffload(h, 0).value else h;
    if Window(layers, groups, m) == h.current { WindowReached(layers, groups, h, first, p, m); }
  }

  /** The window of group m is reached: its memory is released and the next group, if any, is offloaded. */
  lemma WindowReached(layers: nat, groups: nat, h: Handler, first: Handler, p: Pass, m: nat)
    requires m < groups && p.forward && h.offloaded == m && Window(layers, groups, m) == h.current
    requires if h.current == 0 then BulkOffload(h, 0) == Some(first) else first == h
    requires Moved(layers, groups, first, p, m + 1)
    ensures var r := Synchronize(layers, groups, h);
            && r.Some? && r.value.current == h.current && r.value.offloaded == m + 1
            && Moved(layers, groups, r.value, p, if m + 1 < groups then m + 2 else m + 1)
            && r.value.buf == Release(h.buf, m)
  {
    if m < groups - 1 {
      OffloadNext(layers, groups, first.(buf := Release(h.buf, m)), p, m + 1);
    }
  }

  lemma ForwardKeeps(layers: nat, groups: nat, s: System)
    requires 1 <= groups <= layers && Inv(layers, groups, s) && Legal(layers, s, ForwardCommit)
    ensures Next(layers, groups, s, ForwardCommit).Some?
    ensures Inv(layers, groups, Next(layers, groups, s, ForwardCommit).value.0)
  {
    SynchronizeKeeps(layers, groups, s.h, s.pass);
    var r := Synchronize(layers, groups, s.h).value;
    ForgetForward(r.entries, r.mapping, s.pass, s.pass.(group := s.pass.group + 1));
  }

  lemma BackwardCounts(layers: nat, groups: nat, p: Pass)
    requires 1 <= groups <= layers && 0 < p.group <= layers && (p.forward ==> p.group == layers)
    ensures var m, k := Passed(layers, groups, p.group), Passed(layers, groups, p.group - 1);
            && HostCount(layers, groups, p) == m
            && (m == 0 ==> k == 0 && !p.forward && Window(layers, groups, 0) != p.group - 1)
            && (m > 0 ==> k == if Window(layers, groups, m - 1) == p.group - 1 then m - 1 else m)
            && (p.group == 1 ==> k == 0)
  {
    PassedStep(layers, groups, p.group - 1);
    PassedAtEnds(layers, groups);
  }

  lemma BackwardMoves(layers: nat, groups: nat, h: Handler, p: Pass)
    requires 1 <= groups <= layers && CountersOk(layers, groups, h, p)
    requires Moved(layers, groups, h, p, HostCount(layers, groups, p))
    requires 0 < p.group && (p.forward ==> p.group == layers)
    ensures var r, k := CommitBackward(layers, groups, h), Passed(layers, groups, p.group - 1);
            && r.Some? && Moved(layers, groups, r.value, p.(forward := false), k)
            && r.value.current == p.group - 1 && r.value.count == 0 && r.value.buf == h.buf
            && r.value.offloaded == if p.group == 1 then 0 else if k > 0 then k else 1
  {
    var m := Passed(layers, groups, p.group);
    BackwardCounts(layers, groups, p);
    if m > 0 && Window(layers, groups, m - 1) == p.group - 1 {
      ReloadStep(layers, groups, h, p, m);
    } else {
      WaitStep(layers, groups, h, p, m);
    }
  }

  /** The window of group m - 1 is reached: it comes back. */
  lemma ReloadStep(layers: nat, groups: nat, h: Handler, p: Pass, m: nat)
    requires 0 < m == h.offloaded <= groups && Window(layers, groups, m - 1) == p.group - 1 && h.current == p.group
    requires Moved(layers, groups, h, p, m) && 0 < p.group
    ensures var r := CommitBackward(layers, groups, h);
            && r.Some? && Moved(layers, groups, r.value, p.(forward := false), m - 1)
            && r.value.current == p.group - 1 && r.value.count == h.count && r.value.buf == h.buf
            && r.value.offloaded == if p.group == 1 then 0 else if m > 1 then m - 1 else 1
  {
    ReloadLast(layers, groups, h.(current := h.current - 1), p, m - 1);
  }

  /** No window is reached. */
  lemma WaitStep(layers: nat, groups: nat, h: Handler, p: Pass, m: nat)
    requires 0 < h.offloaded <= groups && Window(layers, groups, h.offloaded - 1) != p.group - 1 && h.current == p.group
    requires Moved(layers, groups, h, p, m) && 0 < p.group
    ensures var r := CommitBackward(layers, groups, h);
            && r.Some? && Moved(layers, groups, r.value, p.(forward := false), m)
            && r.value.current == p.group - 1 && r.value.count == h.count && r.value.buf == h.buf
            && r.value.offloaded == if p.group == 1 then 0 else h.offloaded
  {
    ForgetForward(h.entries, h.mapping, p, p.(forward := false));
  }

  lemma BackwardBuf(groups: nat, h: Handler, h': Handler, p: Pass, p': Pass)
    requires BufOk(groups, h, p) && (p.forward ==> h.offloaded == groups) && h'.buf == h.buf
    requires p'.saved == p.saved && !p'.forward
    ensures BufOk(groups, h', p')
  {
  }

  lemma BackwardSaved(h: Handler, p: Pass, p': Pass)
    requires SavedOk(h, p) && p'.saved == p.saved && !p'.forward && p'.group == p.group - 1
    requires forall tag :: tag in p.saved ==> tag.group < p.group
    ensures SavedOk(h, p')
  {
  }

  lemma BackwardKeeps(layers: nat, groups: nat, s: System)
    requires 1 <= groups <= layers && Inv(layers, groups, s) && Legal(layers, s, BackwardCommit)
    ensures Next(layers, groups, s, BackwardCommit).Some?
    ensures Inv(layers, groups, Next(layers, groups, s, BackwardCommit).value.0)
  {
    var h, p := s.h, s.pass;
    BackwardMoves(layers, groups, h, p);
    var h' := CommitBackward(layers, groups, h).value;
    var p' := Pass(false, p.group - 1, p.saved);
    var k := Passed(layers, groups, p.group - 1);
    BackwardCounters(layers, groups, h', p');
    BackwardMoved(layers, groups, h', p.(forward := false), p', k);
    FinalOffloaded(layers, groups, h, p);
    BackwardBuf(groups, h, h', p, p');
    Assemble(layers, groups, h', p', k);
  }

  lemma Assemble(layers: nat, groups: nat, h: Handler, p: Pass, n: nat)
    requires CountersOk(layers, groups, h, p) && HostCount(layers, groups, p) == n
    requires Moved(layers, groups, h, p, n) && BufOk(groups, h, p)
    ensures Inv(layers, groups, System(h, p))
  {
  }

  lemma BackwardCounters(layers: nat, groups: nat, h': Handler, p': Pass)
    requires 1 <= groups <= layers && !p'.forward && p'.group < layers
    requires h'.current == p'.group && h'.count == 0
    requires var k := Passed(layers, groups, p'.group);
             h'.offloaded == if p'.group == 0 then 0 else if k > 0 then k else 1
    ensures CountersOk(layers, groups, h', p') && HostCount(layers, groups, p') == Passed(layers, groups, p'.group)
  {
    PassedAtEnds(layers, groups);
  }

  lemma BackwardMoved(layers: nat, groups: nat, h': Handler, p: Pass, p': Pass, k: nat)
    requires Moved(layers, groups, h', p, k) && p'.saved == p.saved && !p.forward && !p'.forward
    requires p'.group == p.group - 1 && forall tag :: tag in p.saved ==> tag.group < p.group
    ensures Moved(layers, groups, h', p', k)
  {
    ForgetForward(h'.entries, h'.mapping, p, p');
    BackwardSaved(h', p, p');
  }

  lemma FinalOffloaded(layers: nat, groups: nat, h: Handler, p: Pass)
    requires 1 <= groups <= layers && CountersOk(layers, groups, h, p) && (p.forward ==> p.group == layers)
    ensures p.forward ==> h.offloaded == groups
  {
    PassedAtEnds(layers, groups);
  }

  lemma FirstEntryIsSaved(entries: seq<Entry>, mapping: map<nat, map<int, Tensor>>, p: Pass)
    requires EntriesOk(entries, mapping, p)
    ensures |entries| > 0 ==> entries[0].tag in p.saved
  {
  }

  /** Once a pass is over the handler is back in its initial state. */
  lemma PassEndsInitially(layers: nat, groups: nat, s: System)
    requires 1 <= groups <= layers && Inv(layers, groups, s)
    requires s.pass.group == 0 && s.pass.saved == map[] && !s.pass.forward
    ensures s.h == INITIAL
  {
    PassedAtEnds(layers, groups);
    FirstEntryIsSaved(s.h.entries, s.h.mapping, s.pass);
  }

  // ---------------------------------------------------------------- whole runs

  /** Every legal step succeeds and keeps the invariant. */
  lemma StepKeeps(layers: nat, groups: nat, s: System, a: Action)
    requires 1 <= groups <= layers && Inv(layers, groups, s) && Legal(layers, s, a)
    ensures Next(layers, groups, s, a).Some? && Inv(layers, groups, Next(layers, groups, s, a).value.0)
  {
    match a
    case PushTensor(t, need) => PushKeeps(layers, groups, s, t, need);
    case PopTensor(handle) => if handle.Tagged? { PopKeeps(layers, groups, s, handle.tag); }
    case ForwardCommit => ForwardKeeps(layers, groups, s);
    case BackwardCommit => BackwardKeeps(layers, groups, s);
    case NewPass =>
      PassEndsInitially(layers, groups, s);
      StartOk(layers, groups);
  }
}
