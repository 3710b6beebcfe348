/** Failing closed: nothing outside a node's capacity is ever offered, whatever goes wrong.
    When a step of a node keeps that, and when a whole run of the cache does. */
module FailsClosed {
  import opened Boards
  import opened Claims
  import opened Node
  import opened NodeRuns
  import opened NodeRebuild
  import opened CacheRuns
  import Allocators
  import Cache

  /** Nothing outside the capacity is ever offered, and every pod lies inside it. */
  ghost predicate FailClosed(s: NodeState) {
    && Sound(s)
    && Covers(s.total, s.allocatable)
    && forall u :: u in s.pods ==>
         s.pods[u].binding.id in s.total && s.pods[u].orins <= s.total[s.pods[u].binding.id]
  }

  /** If the operation releases the request of the pod passed in, the request lies inside the
      capacity of the board that pod names. */
  ghost predicate Inside(s: NodeState, pod: Claim) {
    pod.binding.Board? && pod.uid in s.pods && Covers(s.requested, map[pod.binding.id := pod.orins]) ==>
      pod.binding.id in s.total && pod.orins <= s.total[pod.binding.id]
  }

  /** An operation, failed additions included, keeps the bound and the capacity exactly when
      what it releases lies inside the capacity. */
  lemma StepFailsClosedExactly(s: NodeState, op: Op)
    requires FailClosed(s)
    ensures FailClosed(Apply(s, op).state) && Apply(s, op).state.total == s.total <==> Inside(s, op.pod)
  {
    var pod := op.pod;
    ReleaseFailsClosedExactly(s, pod);
    if op.Add? && pod.binding.Board? {
      var released := if pod.uid in s.pods then DeletePod(s, pod) else Outcome(s, true);
      if Inside(s, pod) {
        PlaceFailsClosed(released.state, pod, pod.binding.id);
      } else {
        ReAddOutside(s, pod, pod.binding.id);
      }
    }
  }

  lemma ReleaseFailsClosedExactly(s: NodeState, pod: Claim)
    requires FailClosed(s)
    ensures FailClosed(DeletePod(s, pod).state) && DeletePod(s, pod).state.total == s.total <==> Inside(s, pod)
  {
    if pod.binding.Board? && pod.uid in s.pods && DeletePod(s, pod).ok {
      var b, t := pod.binding.id, DeletePod(s, pod).state;
      SoundRelease(s, pod);
      assert b in t.allocatable && t.allocatable[b] == At(s.allocatable, b) + pod.orins;
      if Inside(s, pod) {
        assert s.total[b] + pod.orins == s.total[b];
        assert s.total[b := s.total[b]] == s.total;
      }
    }
  }

  lemma PlaceFailsClosed(s: NodeState, pod: Claim, b: int)
    requires FailClosed(s) && pod.binding == Board(b)
    ensures FailClosed(Place(s, pod, b).state) && Place(s, pod, b).state.total == s.total
  {
  }

  lemma ReAddOutside(s: NodeState, pod: Claim, b: int)
    requires FailClosed(s) && pod.binding == Board(b) && !Inside(s, pod)
    ensures !(FailClosed(AddPod(s, pod).state) && AddPod(s, pod).state.total == s.total)
  {
  }

  /** A pod passed with the board and the request it is held with lies inside. */
  lemma StableIsInside(s: NodeState, pod: Claim)
    requires FailClosed(s) && (pod.binding.Board? && pod.uid in s.pods ==> SamePlacement(s, pod))
    ensures Inside(s, pod)
  {
  }

  lemma {:induction false} RebuildFailsClosed(total: Boards, ps: seq<Claim>)
    requires DistinctUIDs(ps)
    ensures FailClosed(Rebuild(total, ps))
    decreases |ps|
  {
    if ps != [] {
      var front, p := ps[..|ps| - 1], ps[|ps| - 1];
      RebuildFailsClosed(total, front);
      NewUID(ps);
      RebuildListed(total, front);
      StepFailsClosedExactly(Rebuild(total, front), Add(p));
    }
  }

  /** A node update fails closed too, whatever the old and the new capacity. One that no
      longer covers the requests leaves the allocator without an answer for any request. */
  lemma UpdateFailsClosed(oldTotal: Boards, newTotal: Boards, ps: seq<Claim>)
    requires DistinctUIDs(ps)
    ensures FailClosed(Updated(oldTotal, newTotal, ps))
    ensures !Covers(newTotal, Rebuild(newTotal, ps).requested) ==>
              forall request, b :: Allocators.Answer(Updated(oldTotal, newTotal, ps).allocatable, request, b)
                <==> b == Allocators.BOARD_NOT_FOUND
  {
    UpdateIsRebuild(oldTotal, newTotal, ps);
    RebuildFailsClosed(newTotal, ps);
    var t := Updated(oldTotal, newTotal, ps);
    if !Covers(newTotal, Rebuild(newTotal, ps).requested) {
      forall request ensures Allocators.Fitting(t.allocatable, request) == {} {
        assert t.allocatable == map[];
      }
    }
  }

  /** A reachable node for which the condition fails: a failed addition has recorded a
      request for an orin board 2 does not have, and deleting another pod, unchanged but for
      its annotation, writes that orin through the shared map into the board's capacity. */
  lemma InsideIsNeeded() returns (s: NodeState, failed: Claim, changed: Claim)
    ensures Conserved(s) && !AddPod(s, failed).ok && FailClosed(AddPod(s, failed).state)
    ensures changed.uid in s.pods && changed == s.pods[changed.uid].(binding := changed.binding)
    ensures var d := DeletePod(AddPod(s, failed).state, changed);
            d.ok && !Covers(s.total, d.state.allocatable) && d.state.total != s.total
  {
    var p := Claim("p", Board(1), {1});
    failed, changed := Claim("q", Board(2), {1}), p.(binding := Board(2));
    s := AddedAlone(p);
    ConservedFailsClosed(s);
    StepFailsClosedExactly(s, Add(failed));
    var f := RecordedOnly(s, failed);
    assert 1 in changed.orins && 1 !in At(f.total, 2);
    ReleasedShared(f, changed, 2);
  }

  lemma AddedAlone(p: Claim) returns (s: NodeState)
    requires p == Claim("p", Board(1), {1})
    ensures Conserved(s) && s.pods == map["p" := p] && s.total == map[1 := {1}, 2 := {2}]
    ensures s.requested == map[1 := {1}] && s.shared == {2}
  {
    var total: Boards := map[1 := {1}, 2 := {2}];
    s := AddPod(Fresh(total), p).state;
    FreshConserved(total);
    AddFits(Fresh(total), p, 1);
    assert At(Fresh(total).requested, 1) + {1} == {1};
  }

  lemma RecordedOnly(s: NodeState, q: Claim) returns (f: NodeState)
    requires s.total == map[1 := {1}, 2 := {2}] && s.requested == map[1 := {1}]
    requires q == Claim("q", Board(2), {1}) && q.uid !in s.pods
    ensures AddPod(s, q) == Outcome(f, false)
    ensures f == s.(requested := map[1 := {1}, 2 := {1}])
  {
    assert At(s.requested, 2) + {1} == {1};
    f := AddPod(s, q).state;
    assert 1 in f.requested[2] && 1 !in s.total[2];
  }

  lemma ReleasedShared(f: NodeState, changed: Claim, b: int)
    requires changed.uid in f.pods && changed.binding == Board(b) && b in f.requested && b in f.shared
    requires changed.orins == f.requested[b] && exists o :: o in changed.orins && o !in At(f.total, b)
    ensures var d := DeletePod(f, changed);
            d.ok && !Covers(f.total, d.state.allocatable) && d.state.total != f.total
  {
  }

  lemma ConservedFailsClosed(s: NodeState)
    requires Conserved(s)
    ensures FailClosed(s)
  {
    ConservedCovers(s);
    forall u | u in s.pods ensures s.pods[u].binding.id in s.total && s.pods[u].orins <= s.total[s.pods[u].binding.id] {
      OtherHeld(s.pods, u, s.pods[u].binding.id);
      assert Balanced(s, s.pods[u].binding.id);
    }
  }

  // ----- Runs of the cache

  /** Every entry fails closed. */
  ghost predicate AllClosed(c: Cache.CacheState) {
    forall n :: n in c.nodes ==> FailClosed(c.nodes[n])
  }

  /** The operation on the node's entry that the call comes down to, if it gets that far. */
  ghost predicate Reaches(c: Cache.CacheState, op: CacheOp) {
    match op
    case AddPodOp(pod, node) => node != "" && !pod.binding.Unbound? && pod.uid !in c.pods && node in c.nodes
    case DeletePodOp(pod, node) => node != "" && !pod.binding.Unbound? && node in c.nodes
    case AssumePodOp(pod, node) => pod.uid !in c.pods && node in c.nodes
    case ForgetPodOp(pod, node) => pod.uid in c.pods && node in c.nodes
    case _ => false
  }

  ghost function NodeOp(op: CacheOp): Op
    requires op.AddPodOp? || op.DeletePodOp? || op.AssumePodOp? || op.ForgetPodOp?
  {
    if op.AddPodOp? || op.AssumePodOp? then Add(op.pod) else Delete(op.pod)
  }

  /** The lists a node is built from name no pod twice. */
  ghost predicate Listable(op: CacheOp) {
    op.AddNodeOp? || op.UpdateNodeOp? ==> DistinctUIDs(op.ps)
  }

  ghost predicate Contained(c: Cache.CacheState, op: CacheOp) {
    Reaches(c, op) ==> Inside(c.nodes[op.node], op.pod)
  }

  /** The entries still fail closed, and a call about a pod has left its node's capacity
      alone. */
  ghost predicate Keeps(c: Cache.CacheState, op: CacheOp) {
    && AllClosed(Perform(c, op))
    && (Reaches(c, op) ==> Perform(c, op).nodes[op.node].total == c.nodes[op.node].total)
  }

  lemma CallFailsClosedExactly(c: Cache.CacheState, op: CacheOp)
    requires AllClosed(c) && Listable(op)
    ensures Keeps(c, op) <==> Contained(c, op)
  {
    if Reaches(c, op) {
      EntryAfter(c, op);
      StepFailsClosedExactly(c.nodes[op.node], NodeOp(op));
    } else {
      OtherCalls(c, op);
    }
  }

  lemma EntryAfter(c: Cache.CacheState, op: CacheOp)
    requires Reaches(c, op)
    ensures Perform(c, op).nodes == c.nodes[op.node := Apply(c.nodes[op.node], NodeOp(op)).state]
  {
  }

  lemma OtherCalls(c: Cache.CacheState, op: CacheOp)
    requires AllClosed(c) && Listable(op) && !Reaches(c, op)
    ensures AllClosed(Perform(c, op))
  {
    if op.AddNodeOp? {
      RebuildFailsClosed(op.total, op.ps);
    } else if op.UpdateNodeOp? {
      UpdateFailsClosed(op.oldTotal, op.total, op.ps);
    }
  }

  ghost predicate AlwaysContained(c: Cache.CacheState, ops: seq<CacheOp>)
    decreases |ops|
  {
    ops == [] || (Contained(c, ops[0]) && AlwaysContained(Perform(c, ops[0]), ops[1..]))
  }

  ghost predicate AlwaysKept(c: Cache.CacheState, ops: seq<CacheOp>)
    decreases |ops|
  {
    ops == [] || (Keeps(c, ops[0]) && AlwaysKept(Perform(c, ops[0]), ops[1..]))
  }

  /** Over every run of cache operations, shrinking updates and failed additions included:
      every state fails closed and no call about a pod touches a capacity exactly when each
      release met lay inside the capacity. */
  lemma {:induction false} RunFailsClosedExactly(c: Cache.CacheState, ops: seq<CacheOp>)
    requires AllClosed(c) && forall op :: op in ops ==> Listable(op)
    ensures AlwaysKept(c, ops) <==> AlwaysContained(c, ops)
    ensures AlwaysContained(c, ops) ==> AllClosed(PerformAll(c, ops))
    decreases |ops|
  {
    if ops != [] {
      assert ops[0] in ops;
      CallFailsClosedExactly(c, ops[0]);
      if Contained(c, ops[0]) {
        RunFailsClosedExactly(Perform(c, ops[0]), ops[1..]);
      }
    }
  }
}
