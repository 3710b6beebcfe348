/** What the cache's own operations do to each other: releasing twice, forgetting, and the
    accounting of known pods over whole runs. */
module CacheRuns {
  import opened Boards
  import opened Claims
  import opened Node
  import opened NodeRuns
  import Cache

  datatype CacheOp =
    | AddPodOp(pod: Claim, node: string)
    | DeletePodOp(pod: Claim, node: string)
    | AssumePodOp(pod: Claim, node: string)
    | ForgetPodOp(pod: Claim, node: string)
    | AddNodeOp(name: string, total: Boards, ps: seq<Claim>)
    | UpdateNodeOp(name: string, oldTotal: Boards, total: Boards, ps: seq<Claim>)
    | DeleteNodeOp(name: string)

  function Perform(c: Cache.CacheState, op: CacheOp): Cache.CacheState {
    match op
    case AddPodOp(pod, node) => Cache.AddPod(c, pod, node).state
    case DeletePodOp(pod, node) => Cache.DeletePod(c, pod, node).state
    case AssumePodOp(pod, node) => Cache.AssumePod(c, pod, node).state
    case ForgetPodOp(pod, node) => Cache.ForgetPod(c, pod, node).state
    case AddNodeOp(name, total, ps) => Cache.AddNode(c, name, total, ps)
    case UpdateNodeOp(name, oldTotal, total, ps) => Cache.UpdateNode(c, name, oldTotal, total, ps)
    case DeleteNodeOp(name) => Cache.DeleteNode(c, name).state
  }

  function PerformAll(c: Cache.CacheState, ops: seq<CacheOp>): Cache.CacheState
    decreases |ops|
  {
    if ops == [] then c else PerformAll(Perform(c, ops[0]), ops[1..])
  }

  // ----- Accounting

  /** How often an event occurs in a run. */
  ghost function Count(c: Cache.CacheState, ops: seq<CacheOp>, event: (Cache.CacheState, CacheOp) -> bool): nat
    decreases |ops|
  {
    if ops == [] then 0
    else (if event(c, ops[0]) then 1 else 0) + Count(Perform(c, ops[0]), ops[1..], event)
  }

  ghost predicate HeldOn(c: Cache.CacheState, node: string, u: string) {
    node in c.nodes && u in c.nodes[node].pods
  }

  /** A `DeletePod` or `ForgetPod` for the annotated pod reached the node and returned no
      error. */
  ghost predicate GaveBack(c: Cache.CacheState, op: CacheOp, node: string, u: string) {
    match op
    case DeletePodOp(pod, n) =>
      n == node && pod.uid == u && pod.binding.Board? && n != "" && n in c.nodes && Cache.DeletePod(c, pod, n).ok
    case ForgetPodOp(pod, n) =>
      n == node && pod.uid == u && pod.binding.Board? && Cache.ForgetPod(c, pod, n).ok
    case _ => false
  }

  /** An `AddPod` or `AssumePod` for the annotated pod reached the node and returned no error,
      or a rebuild replaced the node's entry by one that holds the pod. */
  ghost predicate Took(c: Cache.CacheState, op: CacheOp, node: string, u: string) {
    match op
    case AddPodOp(pod, n) =>
      n == node && pod.uid == u && pod.binding.Board? && n != "" && n in c.nodes && u !in c.pods
      && Cache.AddPod(c, pod, n).ok
    case AssumePodOp(pod, n) =>
      n == node && pod.uid == u && pod.binding.Board? && Cache.AssumePod(c, pod, n).ok
    case AddNodeOp(name, total, ps) => name == node && u in Rebuild(total, ps).pods
    case UpdateNodeOp(name, oldTotal, total, ps) =>
      name == node && Rebuild(oldTotal, ps).total != Rebuild(total, ps).total && u in Rebuild(total, ps).pods
    case _ => false
  }

  /** The entry of the node is replaced by one that does not hold the pod, or removed; or an
      addition of the held pod let it go and then could not place it again, which is an
      error. */
  ghost predicate Lost(c: Cache.CacheState, op: CacheOp, node: string, u: string) {
    match op
    case AddNodeOp(name, total, ps) => name == node && u !in Rebuild(total, ps).pods
    case UpdateNodeOp(name, oldTotal, total, ps) =>
      name == node && Rebuild(oldTotal, ps).total != Rebuild(total, ps).total && u !in Rebuild(total, ps).pods
    case DeleteNodeOp(name) => name == node
    case AddPodOp(pod, n) => n == node && pod.uid == u && !Cache.AddPod(c, pod, n).ok
    case AssumePodOp(pod, n) => n == node && pod.uid == u && !Cache.AssumePod(c, pod, n).ok
    case _ => false
  }

  /** What is given back is the pod's request on its board, taken from a node that held the
      pod and no longer does. A node holds what it took; it holds nothing else that it did not
      hold before, and ceases to hold only what it gave back or lost. */
  lemma GiveMovesOrins(c: Cache.CacheState, op: CacheOp, node: string, u: string)
    ensures GaveBack(c, op, node, u) ==>
              && HeldOn(c, node, u) && !HeldOn(Perform(c, op), node, u)
              && op.pod.binding.id in c.nodes[node].requested && op.pod.orins <= c.nodes[node].requested[op.pod.binding.id]
              && Perform(c, op).nodes[node] == Release(c.nodes[node], u, op.pod.binding.id, op.pod.orins)
    ensures Took(c, op, node, u) ==> HeldOn(Perform(c, op), node, u)
    ensures HeldOn(Perform(c, op), node, u) ==> Took(c, op, node, u) || HeldOn(c, node, u)
    ensures HeldOn(c, node, u) && !HeldOn(Perform(c, op), node, u) ==> GaveBack(c, op, node, u) || Lost(c, op, node, u)
  {
    HoldingChanges(c, op, node, u);
    if GaveBack(c, op, node, u) {
      GiveReleases(c.nodes[node], op.pod);
    }
  }

  lemma HoldingChanges(c: Cache.CacheState, op: CacheOp, node: string, u: string)
    ensures Took(c, op, node, u) ==> HeldOn(Perform(c, op), node, u)
    ensures HeldOn(Perform(c, op), node, u) ==> Took(c, op, node, u) || HeldOn(c, node, u)
    ensures HeldOn(c, node, u) && !HeldOn(Perform(c, op), node, u) ==> GaveBack(c, op, node, u) || Lost(c, op, node, u)
  {
    hide Node.Rebuild, Diff, Covers;
  }

  lemma GiveReleases(n: NodeState, pod: Claim)
    requires pod.binding.Board? && DeletePod(n, pod).ok
    ensures pod.uid in n.pods && pod.binding.id in n.requested && pod.orins <= n.requested[pod.binding.id]
    ensures DeletePod(n, pod).state == Release(n, pod.uid, pod.binding.id, pod.orins)
  {
    assert pod.binding.id in map[pod.binding.id := pod.orins];
  }

  /** Single release: over any run of any operations, a node gives a pod's orins back at most
      once for every time it took the pod in. */
  lemma {:induction false} SingleRelease(c: Cache.CacheState, ops: seq<CacheOp>, node: string, u: string)
    ensures var d := PerformAll(c, ops);
            Count(c, ops, (s, op) => GaveBack(s, op, node, u)) + (if HeldOn(d, node, u) then 1 else 0)
            <= Count(c, ops, (s, op) => Took(s, op, node, u)) + (if HeldOn(c, node, u) then 1 else 0)
    decreases |ops|
  {
    if ops != [] {
      GiveMovesOrins(c, ops[0], node, u);
      SingleRelease(Perform(c, ops[0]), ops[1..], node, u);
    }
  }

  /** A `DeletePod` for the pod, annotated and known, reached a node and returned no error. */
  ghost predicate Freed(c: Cache.CacheState, op: CacheOp, u: string) {
    op.DeletePodOp? && op.pod.uid == u && !op.pod.binding.Unbound? && op.node != "" && op.node in c.nodes
    && u in c.pods && Cache.DeletePod(c, op.pod, op.node).ok
  }

  /** An `AddPod` or `AssumePod` for a pod not known yet reached a node and returned no error. */
  ghost predicate Learned(c: Cache.CacheState, op: CacheOp, u: string) {
    match op
    case AddPodOp(pod, n) =>
      pod.uid == u && !pod.binding.Unbound? && n != "" && n in c.nodes && u !in c.pods && Cache.AddPod(c, pod, n).ok
    case AssumePodOp(pod, n) => pod.uid == u && Cache.AssumePod(c, pod, n).ok
    case _ => false
  }

  /** Only these two events change whether a UID is known, and only the first is recorded as
      a release, for good. A UID counts as assumed, for good, once it was assumed. */
  lemma KnownStep(c: Cache.CacheState, op: CacheOp, u: string)
    ensures u in Perform(c, op).pods <==> Learned(c, op, u) || (u in c.pods && !Freed(c, op, u))
    ensures u in Perform(c, op).released <==> u in c.released || Freed(c, op, u)
    ensures Learned(c, op, u) ==> u !in c.pods
    ensures u in Perform(c, op).assumed <==> u in c.assumed || (op.AssumePodOp? && Learned(c, op, u))
    ensures Learned(c, op, u) ==> u in Perform(c, op).pods && Perform(c, op).pods[u] == op.pod
    ensures u in c.pods && u in Perform(c, op).pods ==> Perform(c, op).pods[u] == c.pods[u]
  {
  }

  /** A known pod is dropped only by a successful `DeletePod` on a node that held it, and
      only a cached node brings a new one in. */
  lemma DropIsRelease(c: Cache.CacheState, op: CacheOp, u: string)
    ensures u in c.pods && u !in Perform(c, op).pods ==>
              && op.DeletePodOp? && op.pod.uid == u && Cache.DeletePod(c, op.pod, op.node).ok
              && op.node in c.nodes && u in c.nodes[op.node].pods
              && u in Perform(c, op).released
    ensures c.released <= Perform(c, op).released
    ensures u !in c.pods && u in Perform(c, op).pods ==>
              (op.AddPodOp? || op.AssumePodOp?) && op.pod.uid == u && op.node in c.nodes
    ensures u in Perform(c, op).released && u !in c.released ==> u in c.pods && u !in Perform(c, op).pods
  {
  }

  /** Over any run of any operations the answers balance: `DeletePod` released a UID exactly
      as often as `AddPod` and `AssumePod` accepted it, up to whether it is known before and
      after, and it counts as released exactly if that ever happened. */
  lemma {:induction false} ReleasesBalance(c: Cache.CacheState, ops: seq<CacheOp>, u: string)
    ensures var d := PerformAll(c, ops);
            Count(c, ops, (s, op) => Freed(s, op, u)) + (if u in d.pods then 1 else 0)
            == Count(c, ops, (s, op) => Learned(s, op, u)) + (if u in c.pods then 1 else 0)
    ensures u in PerformAll(c, ops).released <==> u in c.released || Count(c, ops, (s, op) => Freed(s, op, u)) > 0
    decreases |ops|
  {
    if ops != [] {
      KnownStep(c, ops[0], u);
      ReleasesBalance(Perform(c, ops[0]), ops[1..], u);
    }
  }

  /** A second release of the same pod is an error that changes nothing. */
  lemma DeleteTwice(c: Cache.CacheState, pod: Claim, node: string)
    requires node != "" && node in c.nodes && pod.binding.Board? && Cache.DeletePod(c, pod, node).ok
    ensures var d := Cache.DeletePod(c, pod, node).state;
            Cache.DeletePod(d, pod, node) == Cache.Reply(d, false)
  {
  }

  /** Forgetting undoes an assumption exactly when the pod passed in still carries what was
      assumed; in particular a pod fetched before it was annotated is forgotten in vain. */
  lemma ForgetUndoesExactly(c: Cache.CacheState, pod: Claim, fetched: Claim, node: string, b: int)
    requires node in c.nodes && Conserved(c.nodes[node])
    requires pod.uid !in c.pods && pod.uid !in c.nodes[node].pods && pod.binding == Board(b) && fetched.uid == pod.uid
    requires Fits(c.nodes[node], pod, b)
    ensures var assumed := Cache.AssumePod(c, pod, node);
            var forgotten := Cache.ForgetPod(assumed.state, fetched, node);
            && assumed.ok
            && (SameNode(forgotten.state.nodes[node], c.nodes[node]) <==>
                fetched.binding.Board? && fetched.binding.id in assumed.state.nodes[node].requested && SameHeld(fetched, pod))
            && (!fetched.binding.Board? ==> forgotten == Cache.Reply(assumed.state, true))
  {
    hide Node.Conserved, Node.Place;
    var n := c.nodes[node];
    AddFits(n, pod, b);
    var m, assumed := AddPod(n, pod).state, Cache.AssumePod(c, pod, node).state;
    assert assumed.nodes[node] == m && m.pods[pod.uid] == pod;
    assert assumed.nodes[node := m] == assumed.nodes;
    if fetched.binding.Board? {
      DeleteKeepsConserved(m, fetched);
      if SameHeld(fetched, pod) && fetched.binding.id in m.requested {
        SameHeldReleases(m, fetched);
        ReleaseUndoes(n, m, pod, fetched);
      }
      if SameNode(DeletePod(m, fetched).state, n) {
        UndoneIsSame(n, m, pod, fetched);
      }
    }
  }

  lemma SameHeldReleases(m: NodeState, fetched: Claim)
    requires Conserved(m) && fetched.uid in m.pods && fetched.binding.Board? && fetched.binding.id in m.requested
    requires SameHeld(fetched, m.pods[fetched.uid])
    ensures DeletePod(m, fetched).ok
  {
    var b := fetched.binding.id;
    OtherHeld(m.pods, fetched.uid, b);
    assert Balanced(m, b);
    assert Held(fetched, b) == fetched.orins <= m.requested[b];
  }

  lemma ReleaseUndoes(n: NodeState, m: NodeState, pod: Claim, fetched: Claim)
    requires Conserved(n) && Conserved(m) && m.total == n.total && m.pods == n.pods[pod.uid := pod] && pod.uid !in n.pods
    requires fetched.uid == pod.uid && fetched.binding.Board? && SameHeld(fetched, pod) && DeletePod(m, fetched).ok
    ensures SameNode(DeletePod(m, fetched).state, n)
  {
    hide Node.Conserved;
    DeleteSame(m, fetched);
    ReleasedAt(m, fetched, fetched.binding.id, 0);
    assert m.pods - {pod.uid} == n.pods;
    DeterminedByPods(DeletePod(m, fetched).state, n);
  }

  lemma UndoneIsSame(n: NodeState, m: NodeState, pod: Claim, fetched: Claim)
    requires Conserved(n) && Conserved(m) && m.pods == n.pods[pod.uid := pod] && pod.uid !in n.pods
    requires fetched.uid == pod.uid && fetched.binding.Board? && SameNode(DeletePod(m, fetched).state, n)
    ensures DeletePod(m, fetched).ok && SameHeld(fetched, pod) && fetched.binding.id in m.requested
  {
    assert DeletePod(m, fetched).ok;
    assert fetched.binding.id in map[fetched.binding.id := fetched.orins];
    forall x ensures Held(fetched, x) == Held(pod, x) {
      ReleasedAt(m, fetched, fetched.binding.id, x);
      HeldByPlaced(n.pods, pod, x);
      OverlapFree(n.pods, m.pods, pod, x);
      assert Balanced(n, x) && Balanced(m, x);
      assert At(DeletePod(m, fetched).state.requested, x) == At(n.requested, x);
    }
  }

  /** A pod the node has let go but the cache still knows is stuck: it can neither be
      assumed nor added again, and deleting it is an error. */
  lemma ForgottenIsStuck(c: Cache.CacheState, pod: Claim, again: Claim, node: string)
    requires node != "" && node in c.nodes && pod.uid in c.pods && pod.binding.Board? && again.uid == pod.uid
    requires !again.binding.Unbound? && Cache.ForgetPod(c, pod, node).ok
    ensures var d := Cache.ForgetPod(c, pod, node).state;
            && Cache.AssumePod(d, again, node) == Cache.Reply(d, false)
            && Cache.AddPod(d, again, node) == Cache.Reply(d, true)
            && Cache.DeletePod(d, again, node) == Cache.Reply(d, false)
            && Cache.ForgetPod(d, again, node) == Cache.Reply(d, false)
  {
  }
}
