/** `NodeInfo`: the bookkeeping of one node over mutable map objects. `Allocatable` starts
    as the very object `Total` is, and later shares inner maps with it. */
module NodeInfos {
  import opened Options
  import opened Boards
  import opened Claims
  import opened Pods
  import opened Iteration
  import opened Topo
  import opened DecimalMaps
  import Strconv
  import Node
  import NodeRebuild

  const DEFAULT_ORIN_START_BIT := 1

  datatype NodeObject = NodeObject(name: string, capacity: map<string, int>)

  /** What a capacity entry says: nothing about boards, or the orins of one board. */
  datatype Entry = Other | BoardEntry(board: int, orins: set<int>)

  function EntryOf(name: string, value: int): Entry {
    var board, orins := BoardIDFromResourceName(name), ParseDecimal(value, DEFAULT_ORIN_START_BIT);
    if Strconv.HasPrefix(name, BOARD_PREFIX) && board.Some? && orins.Some? then BoardEntry(board.value, orins.value)
    else Other
  }

  function Entries(capacity: map<string, int>): map<string, Entry> {
    map name | name in capacity :: EntryOf(name, capacity[name])
  }

  /** The boards the named entries describe; entries naming one board twice add up. */
  function TotalOf(entries: map<string, Entry>, names: set<string>): Boards {
    map b | b in BoardsOf(entries, names) :: OrinsOf(entries, names, b)
  }

  function BoardsOf(entries: map<string, Entry>, names: set<string>): set<int> {
    set name | name in names && name in entries && entries[name].BoardEntry? :: entries[name].board
  }

  function OrinsOf(entries: map<string, Entry>, names: set<string>, b: int): set<int> {
    set name, o | name in names && o in Given(entries, name, b) :: o
  }

  function Given(entries: map<string, Entry>, name: string, b: int): set<int> {
    if name in entries && entries[name].BoardEntry? && entries[name].board == b then entries[name].orins else {}
  }

  function Capacity(node: NodeObject): Boards {
    TotalOf(Entries(node.capacity), node.capacity.Keys)
  }

  function ClaimList(pods: seq<Pod>): (cs: seq<Claim>)
    ensures |cs| == |pods| && forall i :: 0 <= i < |pods| ==> cs[i] == ClaimOf(pods[i])
  {
    if pods == [] then [] else ClaimList(pods[..|pods| - 1]) + [ClaimOf(pods[|pods| - 1])]
  }

  /** The capacity has an entry that is the board prefix, a text for board `b`, and a value
      whose digits are the orins. */
  ghost predicate Describes(node: NodeObject, text: string, b: int, orins: set<int>) {
    && BOARD_PREFIX + text in node.capacity && Strconv.ParseInt(text) == Some(b)
    && ParseDecimal(node.capacity[BOARD_PREFIX + text], DEFAULT_ORIN_START_BIT) == Some(orins)
  }

  lemma EntryText(node: NodeObject, name: string, b: int, orins: set<int>)
    requires name in node.capacity
    ensures EntryOf(name, node.capacity[name]) == BoardEntry(b, orins) <==>
            exists text :: name == BOARD_PREFIX + text && Describes(node, text, b, orins)
  {
    if Strconv.HasPrefix(name, BOARD_PREFIX) {
      var text := name[|BOARD_PREFIX|..];
      assert name == BOARD_PREFIX + text;
      if EntryOf(name, node.capacity[name]) == BoardEntry(b, orins) {
        assert Describes(node, text, b, orins);
      }
    }
    if text :| name == BOARD_PREFIX + text && Describes(node, text, b, orins) {
      assert Strconv.HasPrefix(name, BOARD_PREFIX) && name[|BOARD_PREFIX|..] == text;
    }
  }

  /** A node has exactly the boards and the orins that some entry of its capacity describes. */
  lemma CapacityExactly(node: NodeObject, b: int)
    ensures b in Capacity(node) <==> exists text, orins :: Describes(node, text, b, orins)
    ensures forall o :: o in At(Capacity(node), b) <==> exists text, orins :: Describes(node, text, b, orins) && o in orins
  {
    var entries, names := Entries(node.capacity), node.capacity.Keys;
    forall text, orins | Describes(node, text, b, orins)
      ensures b in Capacity(node) && orins <= At(Capacity(node), b)
    {
      var name := BOARD_PREFIX + text;
      EntryText(node, name, b, orins);
      assert name in names && entries[name].board == b && Given(entries, name, b) == orins;
      forall o | o in orins ensures o in OrinsOf(entries, names, b) {
        assert o in Given(entries, name, b);
      }
    }
    if b in BoardsOf(entries, names) {
      var name :| name in names && name in entries && entries[name].BoardEntry? && entries[name].board == b;
      EntryText(node, name, b, entries[name].orins);
    }
    forall o | o in At(Capacity(node), b) ensures exists text, orins :: Describes(node, text, b, orins) && o in orins {
      var name :| name in names && o in Given(entries, name, b);
      EntryText(node, name, b, entries[name].orins);
    }
  }

  /** A capacity as a node has it: one board whose value reads as orins 1, 3 and 4, one whose
      value is no bitmap, the constant for the resource itself, and something else. */
  lemma ExampleCapacity()
    ensures Capacity(NodeObject("n", map["superedge.io/device-board-2" := 1101, "superedge.io/device-board-3" := 12,
                                         "superedge.io/device-board" := 1024, "cpu" := 8]))
            == map[2 := {1, 3, 4}]
  {
    var node := NodeObject("n", map["superedge.io/device-board-2" := 1101, "superedge.io/device-board-3" := 12,
                                    "superedge.io/device-board" := 1024, "cpu" := 8]);
    assert BOARD_PREFIX + "2" == "superedge.io/device-board-2" && BOARD_PREFIX + "3" == "superedge.io/device-board-3";
    Strconv.OneDigit('2');
    assert Ones(1, 4) == {4} && Ones(11, 3) == {3, 4} && Ones(110, 2) == {3, 4} && Ones(1101, 1) == {1, 3, 4};
    assert Binary(1) && Binary(11) && Binary(110) && Binary(1101) && !Binary(12);
    assert Describes(node, "2", 2, {1, 3, 4});
    forall text, b, orins | Describes(node, text, b, orins) ensures b == 2 && orins == {1, 3, 4} {
      assert BOARD_PREFIX + text != "superedge.io/device-board";
      assert text == (BOARD_PREFIX + text)[|BOARD_PREFIX|..];
    }
    forall b ensures b in Capacity(node) <==> b == 2 {
      CapacityExactly(node, b);
    }
    CapacityExactly(node, 2);
    assert At(Capacity(node), 2) == {1, 3, 4};
  }

  ghost function Extended(v: Boards, e: Entry): Boards {
    if e.BoardEntry? then v[e.board := At(v, e.board) + e.orins] else v
  }

  lemma TotalExtended(entries: map<string, Entry>, names: set<string>, name: string)
    requires name in entries
    ensures TotalOf(entries, names + {name}) == Extended(TotalOf(entries, names), entries[name])
  {
    var before, after, e := TotalOf(entries, names), TotalOf(entries, names + {name}), entries[name];
    assert BoardsOf(entries, names + {name}) == BoardsOf(entries, names) + if e.BoardEntry? then {e.board} else {};
    forall b | b in after ensures after[b] == Extended(before, e)[b] {
      OrinsExtended(entries, names, name, b);
      if b !in before {
        assert OrinsOf(entries, names, b) == {};
      }
    }
  }

  lemma OrinsExtended(entries: map<string, Entry>, names: set<string>, name: string, b: int)
    ensures OrinsOf(entries, names + {name}, b) == OrinsOf(entries, names, b) + Given(entries, name, b)
  {
    forall o | o in OrinsOf(entries, names, b) ensures o in OrinsOf(entries, names + {name}, b) {
      var n :| n in names && o in Given(entries, n, b);
      assert n in names + {name};
    }
    forall o | o in Given(entries, name, b) ensures o in OrinsOf(entries, names + {name}, b) {
      assert name in names + {name};
    }
  }

  /** The total: every capacity entry that describes a board, in any order; the others are
      skipped. */
  method TotalBoards(node: NodeObject) returns (total: BoardDetails)
    ensures fresh(total) && fresh(total.m.Values) && total.Holds(false)
    ensures total.Shows(Capacity(node))
  {
    total := new BoardDetails();
    var left := node.capacity.Keys;
    ghost var entries, v := Entries(node.capacity), map[];
    assert TotalOf(entries, {}) == map[];
    while left != {}
      invariant left <= node.capacity.Keys
      invariant fresh(total) && fresh(total.m.Values) && total.Holds(false) && total.Shows(v)
      invariant v == TotalOf(entries, node.capacity.Keys - left)
      decreases left
    {
      var name := Next(left);
      TotalExtended(entries, node.capacity.Keys - left, name);
      assert node.capacity.Keys - left + {name} == node.capacity.Keys - (left - {name});
      left := left - {name};
      v := AddEntry(total, name, node.capacity[name], v);
    }
    assert node.capacity.Keys - {} == node.capacity.Keys;
  }

  method AddEntry(total: BoardDetails, name: string, value: int, ghost v: Boards) returns (ghost v': Boards)
    requires total.Holds(false) && total.Shows(v)
    modifies total, total.m.Values
    ensures v' == Extended(v, EntryOf(name, value))
    ensures total.Holds(false) && total.Shows(v') && fresh(total.m.Values - old(total.m.Values))
  {
    v' := Extended(v, EntryOf(name, value));
    if Strconv.HasPrefix(name, BOARD_PREFIX) {
      var boardID := BoardIDFromResourceName(name);
      if boardID.Some? {
        var dm := new DecimalMap(value, DEFAULT_ORIN_START_BIT);
        var orinSet := dm.Parse();
        if orinSet.Some? {
          var od := NewOrins(boardID.value, orinSet.value, false);
          total.Add(boardID.value, od);
        }
      }
    }
  }

  /** The details of what a pod gives back: one board with its orins. */
  method NeedRelease(b: int, orinSet: set<int>) returns (od: OrinDetails, bd: BoardDetails)
    ensures fresh(od) && od.board == b && !od.requests && od.m.Keys == orinSet
    ensures fresh(bd) && bd.Shows(map[b := orinSet])
  {
    od := NewOrins(b, orinSet, false);
    bd := new BoardDetails();
    bd.Add(b, od);
  }

  class NodeInfo {
    const node: NodeObject
    var pods: map<string, Pod>
    var allocatable: BoardDetails
    var requested: BoardDetails
    var total: BoardDetails
    ghost var Repr: set<object>
    ghost var state: Node.NodeState

    /** Which map objects may be shared: allocatable and total may be one object while no pod
        was ever placed, and may share the inner map of a board, but only of the same board;
        requested shares nothing. */
    ghost predicate Apart()
      reads this, total, requested, allocatable
    {
      && requested != total && requested != allocatable
      && total.Holds(false) && requested.Holds(true) && allocatable.Holds(false)
    }

    /** The map objects belong to this node alone, and `state` is what they contain. */
    ghost predicate Valid()
      reads this, Repr
      ensures Valid() ==> this in Repr
    {
      && {this, total, requested, allocatable} <= Repr
      && total.m.Values <= Repr && requested.m.Values <= Repr && allocatable.m.Values <= Repr
      && Apart()
      && total.Shows(state.total) && requested.Shows(state.requested) && allocatable.Shows(state.allocatable)
      && (allocatable == total ==> pods == map[])
      && pods.Keys == state.pods.Keys && (forall u :: u in pods ==> ClaimOf(pods[u]) == state.pods[u])
      && (forall b :: b in state.shared <==> b in allocatable.m && b in total.m && allocatable.m[b] == total.m[b])
    }

    /** A node without pods: allocatable is the total itself. */
    constructor (node: NodeObject, t: BoardDetails)
      requires t.Holds(false) && t.Shows(Capacity(node))
      ensures Valid() && fresh(Repr - {t} - t.m.Values) && this.node == node
      ensures state == Node.Fresh(Capacity(node))
    {
      this.node := node;
      this.pods := map[];
      var r := new BoardDetails();
      this.total, this.requested, this.allocatable := t, r, t;
      this.state := Node.Fresh(Capacity(node));
      this.Repr := {this, t, r} + t.m.Values;
    }

    method AddPod(pod: Pod) returns (ok: bool)
      requires Valid()
      modifies Repr
      ensures Valid() && (forall o :: o in Repr ==> o in old(Repr) || fresh(o))
      ensures Node.Outcome(state, ok) == Node.AddPod(old(state), ClaimOf(pod))
    {
      if BIND_BOARD !in pod.annotations {
        return true;
      }
      var bindBoardID := Strconv.ParseInt(pod.annotations[BIND_BOARD]);
      if bindBoardID.None? {
        return true;
      }
      if pod.uid in pods {
        ok := DeletePod(pod);
        if !ok {
          return;
        }
      }
      ok := Place(pod, bindBoardID.value);
    }

    /** The pods a node starts with are added in turn and errors are ignored. */
    method AddPods(ps: seq<Pod>)
      requires Valid() && state == Node.Fresh(Capacity(node))
      modifies Repr
      ensures Valid() && (forall o :: o in Repr ==> o in old(Repr) || fresh(o))
      ensures state == Node.Rebuild(Capacity(node), ClaimList(ps))
    {
      for i := 0 to |ps|
        invariant Valid() && (forall o :: o in Repr ==> o in old(Repr) || fresh(o))
        invariant state == Node.Rebuild(Capacity(node), ClaimList(ps[..i]))
      {
        RebuildNext(Capacity(node), ps, i);
        var ok := AddPod(ps[i]);
      }
      assert ps[..|ps|] == ps;
    }

    method SameTotal(other: NodeInfo) returns (same: bool)
      requires Valid() && other.Valid()
      ensures same <==> state.total == other.state.total
    {
      same := total.Equal(other.total, state.total, other.state.total);
    }

    /** What `UpdateNode` does to the rebuilt node: it takes over the requests object of the
        node rebuilt from the old capacity and computes the allocatable boards from it. */
    method TakeRequested(oldNi: NodeInfo)
      requires Valid() && oldNi.Valid() && Repr !! oldNi.Repr
      modifies this`requested, this`allocatable, this`Repr, this`state
      ensures Valid() && (forall o :: o in Repr ==> o in old(Repr) || o in oldNi.Repr || fresh(o))
      ensures state == NodeRebuild.TakeRequested(old(state), oldNi.state.requested)
    {
      AdoptRequested(oldNi);
      var ok := Renew();
      if !ok {
        Clear();
      }
    }

    method Clear()
      requires Valid()
      modifies this`allocatable, this`Repr, this`state
      ensures Valid() && (forall o :: o in Repr ==> o in old(Repr) || fresh(o))
      ensures state == old(state).(allocatable := map[], shared := {})
    {
      allocatable := new BoardDetails();
      Repr := Repr + {allocatable};
      state := state.(allocatable := map[], shared := {});
    }

    method AdoptRequested(oldNi: NodeInfo)
      requires Valid() && oldNi.Valid() && Repr !! oldNi.Repr
      modifies this`requested, this`Repr, this`state
      ensures Valid() && Repr <= old(Repr) + oldNi.Repr
      ensures state == old(state).(requested := oldNi.state.requested)
    {
      requested := oldNi.requested;
      Repr := Repr + {requested} + requested.m.Values;
      state := state.(requested := oldNi.state.requested);
    }

    /** The request is written down first; then the allocatable boards are computed anew, or
        the error is returned and the request stays. */
    method Place(pod: Pod, b: int) returns (ok: bool)
      requires Valid()
      modifies Repr
      ensures Valid() && (forall o :: o in Repr ==> o in old(Repr) || fresh(o))
      ensures Node.Outcome(state, ok) == Node.Place(old(state), ClaimOf(pod), b)
    {
      hide NodeInfo.Valid;
      var orinSet := BuildRequestOrinSet(pod);
      Record(b, orinSet);
      ok := Recompute(pod);
    }

    /** The orins go into the board's own request map, or into a new one. */
    method Record(b: int, orinSet: set<int>)
      requires Valid()
      modifies Repr
      ensures Valid() && (forall o :: o in Repr ==> o in old(Repr) || fresh(o))
      ensures state == old(state).(requested := old(state).requested[b := At(old(state).requested, b) + orinSet])
    {
      if b in requested.m {
        RecordMore(b, requested.m[b], orinSet);
      } else {
        var od := NewOrins(b, orinSet, true);
        RecordNew(b, od);
        assert od.m.Keys == orinSet == At(old(state).requested, b) + orinSet;
      }
    }

    method RecordMore(b: int, od: OrinDetails, orinSet: set<int>)
      requires Valid() && b in requested.m && od == requested.m[b]
      modifies this`state, od
      ensures Valid()
      ensures state == old(state).(requested := old(state).requested[b := old(state).requested[b] + orinSet])
    {
      od.AddAll(b, orinSet);
      state := state.(requested := state.requested[b := state.requested[b] + orinSet]);
    }

    method RecordNew(b: int, od: OrinDetails)
      requires Valid() && b !in requested.m && od !in Repr && od.board == b && od.requests
      modifies this`Repr, this`state, requested
      ensures Valid() && Repr == old(Repr) + {od}
      ensures state == old(state).(requested := old(state).requested[b := od.m.Keys])
    {
      requested.m := requested.m[b := od];
      Repr := Repr + {od};
      state := state.(requested := state.requested[b := od.m.Keys]);
    }

    method Recompute(pod: Pod) returns (ok: bool)
      requires Valid()
      modifies this`allocatable, this`pods, this`Repr, this`state
      ensures Valid() && (forall o :: o in Repr ==> o in old(Repr) || fresh(o)) && old(Repr) <= Repr
      ensures ok <==> Covers(old(state).total, old(state).requested)
      ensures !ok ==> state == old(state)
      ensures ok ==> state == Node.NodeState(old(state).total, old(state).requested,
                                             Diff(old(state).total, old(state).requested),
                                             old(state).pods[pod.uid := ClaimOf(pod)],
                                             old(state).total.Keys - old(state).requested.Keys)
    {
      ok := Renew();
      if ok {
        pods := pods[pod.uid := pod];
        state := state.(pods := state.pods[pod.uid := ClaimOf(pod)]);
      }
    }

    /** The allocatable boards become the total less the requests, if it covers them. */
    method Renew() returns (ok: bool)
      requires Valid()
      modifies this`allocatable, this`Repr, this`state
      ensures Valid() && (forall o :: o in Repr ==> o in old(Repr) || fresh(o)) && old(Repr) <= Repr
      ensures ok <==> Covers(old(state).total, old(state).requested)
      ensures !ok ==> state == old(state)
      ensures ok ==> state == old(state).(allocatable := Diff(old(state).total, old(state).requested),
                                          shared := old(state).total.Keys - old(state).requested.Keys)
      ensures ok ==> allocatable != total
    {
      var newAllocatable := total.DifferenceFromSuperset(requested, state.total, state.requested, false);
      if newAllocatable.None? {
        return false;
      }
      assert requested.Shows(state.requested) && total.Shows(state.total);
      allocatable := newAllocatable.value;
      Repr := Repr + {allocatable} + allocatable.m.Values;
      state := state.(allocatable := Diff(state.total, state.requested), shared := state.total.Keys - state.requested.Keys);
      return true;
    }

    method DeletePod(pod: Pod) returns (ok: bool)
      requires Valid()
      modifies Repr
      ensures Valid() && (forall o :: o in Repr ==> o in old(Repr) || fresh(o))
      ensures Node.Outcome(state, ok) == Node.DeletePod(old(state), ClaimOf(pod))
    {
      if BIND_BOARD !in pod.annotations {
        return true;
      }
      if pod.uid !in pods {
        return false;
      }
      var bindBoardID := Strconv.ParseInt(pod.annotations[BIND_BOARD]);
      if bindBoardID.None? {
        return true;
      }
      var needReleaseOrinSet := BuildRequestOrinSet(pod);
      ok := Release(pod.uid, bindBoardID.value, needReleaseOrinSet);
    }

    method Release(uid: string, b: int, orinSet: set<int>) returns (ok: bool)
      requires Valid() && uid in pods
      modifies Repr
      ensures Valid() && (forall o :: o in Repr ==> o in old(Repr) || fresh(o))
      ensures ok <==> Covers(old(state).requested, map[b := orinSet])
      ensures state == if ok then Node.Release(old(state), uid, b, orinSet) else old(state)
    {
      hide NodeInfo.Valid, At, Covers, Diff;
      var needReleaseOrinDetails, needReleaseBoardDetails := NeedRelease(b, orinSet);
      ok := ReleaseRequest(needReleaseBoardDetails, map[b := orinSet]);
      if ok {
        Return(uid, b, needReleaseOrinDetails, orinSet);
      }
    }

    /** The orins become allocatable again and the pod is forgotten. */
    method Return(uid: string, b: int, od: OrinDetails, ghost orins: set<int>)
      requires Valid() && uid in pods
      requires od !in Repr && od.board == b && !od.requests && od.m.Keys == orins
      modifies this`pods, this`Repr, this`state, allocatable, if b in allocatable.m then {allocatable.m[b]} else {}
      ensures Valid() && Repr <= old(Repr) + {od}
      ensures state == Node.GiveBack(old(state), uid, b, orins)
    {
      if b in allocatable.m {
        ReturnMore(b, od, orins);
      } else {
        ReturnNew(b, od, orins);
        assert At(old(state).allocatable, b) + orins == orins;
      }
      Remove(uid);
    }

    method Remove(uid: string)
      requires Valid()
      modifies this`pods, this`state
      ensures Valid() && state == old(state).(pods := old(state).pods - {uid})
    {
      pods := pods - {uid};
      state := state.(pods := state.pods - {uid});
    }

    method ReleaseRequest(needRelease: BoardDetails, ghost release: Boards) returns (ok: bool)
      requires Valid() && needRelease.Shows(release)
      modifies this`requested, this`Repr, this`state
      ensures Valid() && (forall o :: o in Repr ==> o in old(Repr) || fresh(o)) && old(Repr) <= Repr
      ensures ok <==> Covers(old(state).requested, release)
      ensures state == if ok then old(state).(requested := Diff(old(state).requested, release)) else old(state)
    {
      var newRequest := requested.DifferenceFromSuperset(needRelease, state.requested, release, true);
      if newRequest.None? {
        return false;
      }
      requested := newRequest.value;
      Repr := Repr + {requested} + requested.m.Values;
      state := state.(requested := Diff(state.requested, release));
      return true;
    }

    /** The orins go back into the board's own map, which may also be the total's. */
    method ReturnMore(b: int, od: OrinDetails, ghost orins: set<int>)
      requires Valid() && b in allocatable.m && od !in Repr && od.m.Keys == orins
      modifies this`state, allocatable, allocatable.m[b]
      ensures Valid()
      ensures state == old(state).(
                total := if b in old(state).shared then old(state).total[b := At(old(state).total, b) + orins] else old(state).total,
                allocatable := old(state).allocatable[b := At(old(state).allocatable, b) + orins])
    {
      allocatable.Add(b, od);
      assert requested.Shows(state.requested);
      assert allocatable.Shows(state.allocatable[b := At(state.allocatable, b) + orins]);
      assert total.Shows(if b in state.shared then state.total[b := At(state.total, b) + orins] else state.total);
      state := state.(
        total := if b in state.shared then state.total[b := At(state.total, b) + orins] else state.total,
        allocatable := state.allocatable[b := At(state.allocatable, b) + orins]);
    }

    method ReturnNew(b: int, od: OrinDetails, ghost orins: set<int>)
      requires Valid() && b !in allocatable.m && pods != map[]
      requires od !in Repr && od.board == b && !od.requests && od.m.Keys == orins
      modifies this`Repr, this`state, allocatable
      ensures Valid() && Repr == old(Repr) + {od}
      ensures state == old(state).(allocatable := old(state).allocatable[b := orins])
    {
      Repr := Repr + {od};
      state := state.(allocatable := state.allocatable[b := orins]);
      allocatable.Add(b, od);
    }
  }

  lemma RebuildNext(total: Boards, ps: seq<Pod>, i: nat)
    requires i < |ps|
    ensures Node.Rebuild(total, ClaimList(ps[..i + 1]))
            == Node.AddPod(Node.Rebuild(total, ClaimList(ps[..i])), ClaimOf(ps[i])).state
  {
    assert ps[..i + 1][..i] == ps[..i];
    assert ClaimList(ps[..i + 1])[..i] == ClaimList(ps[..i]);
  }

  /** `NewNodeInfo`. */
  method NewNodeInfo(node: NodeObject, ps: seq<Pod>) returns (ni: NodeInfo)
    ensures ni.Valid() && fresh(ni.Repr) && ni.node == node
    ensures ni.state == Node.Rebuild(Capacity(node), ClaimList(ps))
  {
    var t := TotalBoards(node);
    ni := new NodeInfo(node, t);
    ni.AddPods(ps);
  }
}
