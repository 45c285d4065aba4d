/** The offload handler as an object whose methods update its fields, proved against OffloadModel. */
module OffloadHandler {
  import opened Options
  import opened Shapes
  import opened OffloadWindow
  import opened OffloadModel

  class AsyncOffloadHandler {
    const numOffloadGroup: nat
    const numLayers: nat
    var layerWindowMap: map<nat, int>
    var currentGroup: nat
    var tensorCount: nat
    var tagToState: seq<Entry>
    var tagToBuf: map<Tag, Option<Tensor>>
    var offloadedGroupCount: nat
    var groupOffloadMapping: map<nat, map<int, Tensor>>

    ghost predicate Valid()
      reads this
    {
      && (forall i: nat :: i in layerWindowMap <==> i < numOffloadGroup)
      && (forall i: nat :: i < numOffloadGroup ==> layerWindowMap[i] == Window(numLayers, numOffloadGroup, i))
    }

    ghost function State(): Handler
      reads this
    {
      Handler(currentGroup, tensorCount, tagToState, tagToBuf, offloadedGroupCount, groupOffloadMapping)
    }

    constructor (numOffloadGroup: nat, numLayers: nat)
      ensures Valid() && State() == INITIAL
      ensures this.numOffloadGroup == numOffloadGroup && this.numLayers == numLayers
    {
      this.numOffloadGroup, this.numLayers := numOffloadGroup, numLayers;
      currentGroup, tensorCount, tagToState, tagToBuf := 0, 0, [], map[];
      offloadedGroupCount, groupOffloadMapping := 0, map[];
      new;
      layerWindowMap := BuildWindowMap(numLayers, numOffloadGroup);
    }

    method FindState(tag: Tag) returns (i: nat)
      ensures i == Position(tagToState, tag)
    {
      i := 0;
      while i < |tagToState| && tagToState[i].tag != tag
        invariant i <= |tagToState|
        invariant forall k :: 0 <= k < i ==> tagToState[k].tag != tag
      {
        i := i + 1;
      }
    }

    method TensorPush(tensor: Tensor, needOffload: bool) returns (handle: Option<Handle>)
      requires Valid()
      modifies this
      ensures Valid()
      ensures match Push(numOffloadGroup, old(State()), tensor, needOffload)
              case None => handle == None
              case Some((h, r)) => State() == h && handle == Some(r)
      ensures !needOffload ==> handle == Some(Direct(tensor)) && State() == old(State())
      ensures needOffload ==>
        (handle.Some? <==> forall e :: e in old(tagToState) ==> e.tag != Tag(old(currentGroup), old(tensorCount)))
      ensures needOffload && handle.Some? ==>
        var tag := Tag(old(currentGroup), old(tensorCount));
        && handle.value == Tagged(tag) && tagToState == old(tagToState) + [Entry(tag, OnDevice(tensor))]
        && currentGroup == old(currentGroup) && tensorCount == old(tensorCount) + 1
    {
      if !needOffload { return Some(Direct(tensor)); }
      var tag := Tag(currentGroup, tensorCount);
      var i := FindState(tag);
      if i < |tagToState| { return None; }
      tensorCount := tensorCount + 1;
      tagToState := tagToState + [Entry(tag, OnDevice(tensor))];
      if currentGroup < numOffloadGroup {
        tagToBuf := tagToBuf[tag := Some(tensor)];
      }
      return Some(Tagged(tag));
    }

    method TensorPop(handle: Handle) returns (tensor: Option<Tensor>)
      requires Valid()
      modifies this
      ensures Valid()
      ensures match Pop(old(State()), handle)
              case None => tensor == None
              case Some((h, t)) => State() == h && tensor == Some(t)
      ensures handle.Direct? ==> tensor == Some(handle.tensor) && State() == old(State())
    {
      if handle.Direct? { return Some(handle.tensor); }
      var i := FindState(handle.tag);
      if i == |tagToState| { return None; }
      var saved := tagToState[i].saved;
      tagToState := tagToState[..i] + tagToState[i + 1..];
      tagToBuf := tagToBuf - {handle.tag};
      if saved.OnHost? { return None; }
      return Some(saved.tensor);
    }

    method BulkOffloadGroup(group: nat) returns (ok: bool)
      requires Valid()
      modifies this
      ensures Valid()
      ensures ok <==> BulkOffload(old(State()), group).Some?
      ensures ok ==> State() == BulkOffload(old(State()), group).value
    {
      var offloadMapping: map<int, Tensor> := map[];
      ghost var entries := tagToState;
      var i := 0;
      while i < |tagToState|
        invariant i <= |tagToState| == |entries|
        invariant forall k :: 0 <= k < i ==> tagToState[k] == ToHost(entries[k], group)
        invariant forall k :: i <= k < |entries| ==> tagToState[k] == entries[k]
        invariant forall k :: 0 <= k < i && entries[k].tag.group == group ==> entries[k].saved.OnDevice?
        invariant offloadMapping == Collect(entries[..i], group)
        invariant State() == old(State()).(entries := tagToState) && Valid()
      {
        var e := tagToState[i];
        assert entries[..i + 1][..i] == entries[..i];
        if e.tag.group == group {
          if e.saved.OnHost? {
            assert e in entries;
            return false;
          }
          var t := e.saved.tensor;
          if t.key !in offloadMapping {
            offloadMapping := offloadMapping[t.key := t];
          }
          tagToState := tagToState[i := Entry(e.tag, OnHost(t.key, t.shape))];
        }
        i := i + 1;
      }
      assert entries[..i] == entries;
      assert tagToState == AllToHost(entries, group);
      groupOffloadMapping := groupOffloadMapping[group := offloadMapping];
      return true;
    }

    method BulkReloadGroup(group: nat) returns (ok: bool)
      requires Valid()
      modifies this
      ensures Valid()
      ensures ok <==> BulkReload(numOffloadGroup, old(State()), group).Some?
      ensures ok ==> State() == BulkReload(numOffloadGroup, old(State()), group).value
    {
      if group >= numOffloadGroup || group !in groupOffloadMapping { return false; }
      var copies := groupOffloadMapping[group];
      groupOffloadMapping := groupOffloadMapping - {group};
      ghost var entries := tagToState;
      var i := 0;
      while i < |tagToState|
        invariant i <= |tagToState| == |entries|
        invariant forall k :: 0 <= k < i ==> tagToState[k] == ToDevice(entries[k], group, copies)
        invariant forall k :: 0 <= k < i ==> Restorable(entries[k], group, copies)
        invariant forall k :: i <= k < |entries| ==> tagToState[k] == entries[k]
        invariant State() == old(State()).(entries := tagToState, mapping := old(groupOffloadMapping) - {group})
        invariant Valid()
      {
        var e := tagToState[i];
        if e.tag.group == group && e.saved.OnHost? {
          if e.saved.key !in copies || |copies[e.saved.key].flat| != Numel(e.saved.shape) {
            assert e in entries && !Restorable(e, group, copies);
            return false;
          }
          var recovered := Tensor(e.saved.key, e.saved.shape, copies[e.saved.key].flat);
          tagToState := tagToState[i := Entry(e.tag, OnDevice(recovered))];
        }
        i := i + 1;
      }
      assert tagToState == AllToDevice(entries, group, copies);
      return true;
    }

    method ReleaseGroup(group: nat)
      requires Valid()
      modifies this`tagToBuf
      ensures tagToBuf == Release(old(tagToBuf), group)
    {
      var tags := tagToBuf.Keys;
      ghost var buf := tagToBuf;
      while tags != {}
        invariant tags <= buf.Keys && tagToBuf.Keys == buf.Keys
        invariant forall tag :: tag in tags ==> tagToBuf[tag] == buf[tag]
        invariant forall tag :: tag in buf.Keys - tags ==>
            tagToBuf[tag] == if tag.group == group then None else buf[tag]
        decreases |tags|
      {
        var tag :| tag in tags;
        if tag.group == group {
          tagToBuf := tagToBuf[tag := None];
        }
        tags := tags - {tag};
      }
    }

    method SynchronizeOnForward() returns (ok: bool)
      requires Valid()
      modifies this
      ensures Valid()
      ensures ok <==> Synchronize(numLayers, numOffloadGroup, old(State())).Some?
      ensures ok ==> State() == Synchronize(numLayers, numOffloadGroup, old(State())).value
    {
      if currentGroup == 0 {
        ok := BulkOffloadGroup(0);
        if !ok { return; }
      }
      if offloadedGroupCount !in layerWindowMap { return false; }
      if layerWindowMap[offloadedGroupCount] == currentGroup {
        ReleaseGroup(offloadedGroupCount);
        if offloadedGroupCount < numOffloadGroup - 1 {
          ok := BulkOffloadGroup(offloadedGroupCount + 1);
          if !ok { return; }
        }
        offloadedGroupCount := offloadedGroupCount + 1;
      }
      return true;
    }

    method OnGroupCommitForward() returns (ok: bool)
      requires Valid()
      modifies this
      ensures Valid()
      ensures ok <==> CommitForward(numLayers, numOffloadGroup, old(State())).Some?
      ensures ok ==> State() == CommitForward(numLayers, numOffloadGroup, old(State())).value
    {
      ok := SynchronizeOnForward();
      if !ok { return; }
      currentGroup := currentGroup + 1;
      tensorCount := 0;
    }

    method OnGroupCommitBackward() returns (ok: bool)
      requires Valid()
      modifies this
      ensures Valid()
      ensures ok <==> CommitBackward(numLayers, numOffloadGroup, old(State())).Some?
      ensures ok ==> State() == CommitBackward(numLayers, numOffloadGroup, old(State())).value
    {
      if currentGroup == 0 { return false; }
      currentGroup := currentGroup - 1;
      if offloadedGroupCount == 0 || offloadedGroupCount - 1 !in layerWindowMap { return false; }
      if layerWindowMap[offloadedGroupCount - 1] == currentGroup {
        ok := BulkReloadGroup(offloadedGroupCount - 1);
        if !ok { return; }
        if offloadedGroupCount > 1 {
          offloadedGroupCount := offloadedGroupCount - 1;
        }
      }
      if currentGroup == 0 {
        offloadedGroupCount := 0;
      }
      return true;
    }
  }
}
