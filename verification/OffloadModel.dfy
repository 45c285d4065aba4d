/** The activation offload handler as a value: its fields, and what each of its methods does to them.
    None stands for a failing assertion or a missing key. */
module OffloadModel {
  import opened Options
  import opened Shapes
  import opened OffloadWindow

  /** `key` stands for the storage address and dtype, `flat` for the elements in row-major order. */
  datatype Tensor = Tensor(key: int, shape: seq<nat>, flat: seq<int>) {
    ghost predicate Valid() {
      |flat| == Numel(shape)
    }
  }

  datatype Tag = Tag(group: nat, index: nat)

  /** A saved tensor: itself, or the key and shape under which the host copy is found. */
  datatype Saved = OnDevice(tensor: Tensor) | OnHost(key: int, shape: seq<nat>)

  /** One item of the dictionary tensor_tag_to_state, which keeps insertion order. */
  datatype Entry = Entry(tag: Tag, saved: Saved)

  /** What the hook keeps in the graph: a tag, or the tensor itself if it is not to be offloaded. */
  datatype Handle = Tagged(tag: Tag) | Direct(tensor: Tensor)

  datatype Handler = Handler(current: nat, count: nat, entries: seq<Entry>, buf: map<Tag, Option<Tensor>>,
                             offloaded: nat, mapping: map<nat, map<int, Tensor>>)

  const INITIAL := Handler(0, 0, [], map[], 0, map[])

  function Position(entries: seq<Entry>, tag: Tag): (r: nat)
    ensures r <= |entries|
    ensures r < |entries| ==> entries[r].tag == tag
    ensures forall i :: 0 <= i < r ==> entries[i].tag != tag
  {
    if entries == [] then 0 else if entries[0].tag == tag then 0 else 1 + Position(entries[1..], tag)
  }

  predicate HasTag(entries: seq<Entry>, tag: Tag) {
    Position(entries, tag) < |entries|
  }

  // ---------------------------------------------------------------- push and pop

  function Push(groups: nat, h: Handler, t: Tensor, needOffload: bool): Option<(Handler, Handle)> {
    if !needOffload then Some((h, Direct(t)))
    else
      var tag := Tag(h.current, h.count);
      if HasTag(h.entries, tag) then None
      else Some((h.(count := h.count + 1,
                    entries := h.entries + [Entry(tag, OnDevice(t))],
                    buf := if h.current < groups then h.buf[tag := Some(t)] else h.buf),
                 Tagged(tag)))
  }

  function Pop(h: Handler, handle: Handle): Option<(Handler, Tensor)> {
    match handle
    case Direct(t) => Some((h, t))
    case Tagged(tag) =>
      var i := Position(h.entries, tag);
      if i == |h.entries| || h.entries[i].saved.OnHost? then None
      else Some((h.(entries := h.entries[..i] + h.entries[i + 1..], buf := h.buf - {tag}), h.entries[i].saved.tensor))
  }

  /** A tensor that is not to be offloaded is its own handle: it passes through, whatever the handler holds. */
  lemma DirectPassesThrough(groups: nat, h: Handler, t: Tensor, later: Handler)
    ensures Push(groups, h, t, false).Some?
    ensures var (h', handle) := Push(groups, h, t, false).value; h' == h && Pop(later, handle) == Some((later, t))
  {
  }

  // ---------------------------------------------------------------- moving one group

  /** The host copies of a group: for each key the first tensor saved under it. */
  function Collect(entries: seq<Entry>, group: nat): map<int, Tensor> {
    if entries == [] then map[]
    else
      var n := |entries| - 1;
      var m, e := Collect(entries[..n], group), entries[n];
      if e.tag.group == group && e.saved.OnDevice? && e.saved.tensor.key !in m
      then m[e.saved.tensor.key := e.saved.tensor] else m
  }

  function ToHost(e: Entry, group: nat): Entry {
    if e.tag.group == group && e.saved.OnDevice?
    then Entry(e.tag, OnHost(e.saved.tensor.key, e.saved.tensor.shape)) else e
  }

  function AllToHost(entries: seq<Entry>, group: nat): (r: seq<Entry>)
    ensures |r| == |entries| && forall i :: 0 <= i < |entries| ==> r[i] == ToHost(entries[i], group)
  {
    seq(|entries|, i requires 0 <= i < |entries| => ToHost(entries[i], group))
  }

  predicate SomeOnHost(entries: seq<Entry>, group: nat) {
    exists e :: e in entries && e.tag.group == group && e.saved.OnHost?
  }

  function BulkOffload(h: Handler, group: nat): Option<Handler> {
    if SomeOnHost(h.entries, group) then None
    else Some(h.(entries := AllToHost(h.entries, group), mapping := h.mapping[group := Collect(h.entries, group)]))
  }

  /** The copy under the entry's key, viewed in the entry's shape, can be put back. */
  predicate Restorable(e: Entry, group: nat, copies: map<int, Tensor>) {
    e.tag.group == group && e.saved.OnHost? ==>
      e.saved.key in copies && |copies[e.saved.key].flat| == Numel(e.saved.shape)
  }

  function ToDevice(e: Entry, group: nat, copies: map<int, Tensor>): Entry {
    if e.tag.group == group && e.saved.OnHost? && e.saved.key in copies
    then Entry(e.tag, OnDevice(Tensor(e.saved.key, e.saved.shape, copies[e.saved.key].flat))) else e
  }

  function AllToDevice(entries: seq<Entry>, group: nat, copies: map<int, Tensor>): (r: seq<Entry>)
    ensures |r| == |entries| && forall i :: 0 <= i < |entries| ==> r[i] == ToDevice(entries[i], group, copies)
  {
    seq(|entries|, i requires 0 <= i < |entries| => ToDevice(entries[i], group, copies))
  }

  function BulkReload(groups: nat, h: Handler, group: nat): Option<Handler> {
    if group >= groups || group !in h.mapping then None
    else
      var copies := h.mapping[group];
      if exists e :: e in h.entries && !Restorable(e, group, copies) then None
      else Some(h.(entries := AllToDevice(h.entries, group, copies), mapping := h.mapping - {group}))
  }

  // ---------------------------------------------------------------- commits

  /** Free the activation memory of a group that has been copied. */
  function Release(buf: map<Tag, Option<Tensor>>, group: nat): map<Tag, Option<Tensor>> {
    map tag | tag in buf :: if tag.group == group then None else buf[tag]
  }

  function Synchronize(layers: nat, groups: nat, h: Handler): Option<Handler> {
    var first := if h.current == 0 then BulkOffload(h, 0) else Some(h);
    if first.None? || h.offloaded >= groups then None
    else if Window(layers, groups, h.offloaded) != h.current then first
    else
      var freed := first.value.(buf := Release(h.buf, h.offloaded));
      var next := if h.offloaded < groups - 1 then BulkOffload(freed, h.offloaded + 1) else Some(freed);
      if next.None? then None else Some(next.value.(offloaded := h.offloaded + 1))
  }

  function CommitForward(layers: nat, groups: nat, h: Handler): Option<Handler> {
    var s := Synchronize(layers, groups, h);
    if s.None? then None else Some(s.value.(current := h.current + 1, count := 0))
  }

  function CommitBackward(layers: nat, groups: nat, h: Handler): Option<Handler> {
    if h.current == 0 || h.offloaded == 0 || h.offloaded > groups then None
    else
      var d := h.(current := h.current - 1);
      var r := if Window(layers, groups, h.offloaded - 1) != d.current then Some(d)
               else
                 var loaded := BulkReload(groups, d, h.offloaded - 1);
                 if loaded.None? then None
                 else Some(loaded.value.(offloaded := if h.offloaded > 1 then h.offloaded - 1 else h.offloaded));
      if r.None? then None
      else if d.current == 0 then Some(r.value.(offloaded := 0)) else r
  }

  /** A forward commit fails exactly if all groups are released already, or a group that is to be offloaded,
      the first or the one behind the window reached, has a tensor on the host. */
  lemma CommitForwardExactly(layers: nat, groups: nat, h: Handler)
    ensures CommitForward(layers, groups, h).Some?
       <==> && h.offloaded < groups
            && (forall e :: e in h.entries && e.saved.OnHost? ==>
                  && (h.current == 0 ==> e.tag.group != 0)
                  && (h.offloaded < groups - 1 && Window(layers, groups, h.offloaded) == h.current ==>
                        e.tag.group != h.offloaded + 1))
  {
    if h.current == 0 && h.offloaded < groups && !SomeOnHost(h.entries, 0) {
      OthersStay(h, 0, h.offloaded + 1);
    }
  }

  /** Offloading a group leaves the other groups' entries where they are. */
  lemma OthersStay(h: Handler, group: nat, other: nat)
    requires !SomeOnHost(h.entries, group) && group != other
    ensures SomeOnHost(BulkOffload(h, group).value.entries, other) <==> SomeOnHost(h.entries, other)
  {
    var after := AllToHost(h.entries, group);
    if SomeOnHost(h.entries, other) {
      var e :| e in h.entries && e.tag.group == other && e.saved.OnHost?;
      var i :| 0 <= i < |h.entries| && h.entries[i] == e;
      assert after[i] == e;
    }
    if SomeOnHost(after, other) {
      var e :| e in after && e.tag.group == other && e.saved.OnHost?;
      var i :| 0 <= i < |after| && after[i] == e;
      assert h.entries[i] == e;
    }
  }

  /** A backward commit fails exactly if there is no group to go back to, none is counted as offloaded, or the
      group whose window it returns to has no host copies that can be put back. */
  lemma CommitBackwardExactly(layers: nat, groups: nat, h: Handler)
    ensures CommitBackward(layers, groups, h).Some?
       <==> && h.current > 0 && 0 < h.offloaded <= groups
            && (Window(layers, groups, h.offloaded - 1) == h.current - 1 ==>
                  && h.offloaded - 1 in h.mapping
                  && forall e :: e in h.entries && e.tag.group == h.offloaded - 1 && e.saved.OnHost? ==>
                       && e.saved.key in h.mapping[h.offloaded - 1]
                       && |h.mapping[h.offloaded - 1][e.saved.key].flat| == Numel(e.saved.shape))
  {
    if h.current > 0 && 0 < h.offloaded <= groups && h.offloaded - 1 in h.mapping {
      var copies := h.mapping[h.offloaded - 1];
      assert forall e :: e in h.entries ==>
        (Restorable(e, h.offloaded - 1, copies) <==>
          (e.tag.group == h.offloaded - 1 && e.saved.OnHost? ==>
             e.saved.key in copies && |copies[e.saved.key].flat| == Numel(e.saved.shape)));
    }
  }
}
