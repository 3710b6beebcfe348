/** The controller's handlers as far as they drive the cache: what one sync of a pod does, and
    what the restart path, which builds a node from its active pods and then adds one of them
    again, leaves behind. */
module Controllers {
  import opened Options
  import opened Boards
  import opened Claims
  import opened Pods
  import opened NodeInfos
  import opened ScheduleCaches
  import Cache
  import CacheCalls
  import CacheRuns
  import Node
  import NodeRuns
  import NodeRebuild

  /** A pod as the lister returns it, and whether it is deleted, succeeded or failed. */
  datatype Listed = Listed(pod: Pod, completed: bool)

  predicate IsActive(p: Listed, nodeName: string) {
    p.pod.nodeName == nodeName && !p.completed && Annotated(p.pod)
  }

  function Active(podList: seq<Listed>, nodeName: string): seq<Pod> {
    if podList == [] then []
    else
      var last := podList[|podList| - 1];
      Active(podList[..|podList| - 1], nodeName) + if IsActive(last, nodeName) then [last.pod] else []
  }

  /** The lister has the pod on the node, neither completed nor without a board. */
  ghost predicate RunsOn(podList: seq<Listed>, nodeName: string, pod: Pod) {
    Listed(pod, false) in podList && pod.nodeName == nodeName && BIND_BOARD in pod.annotations
  }

  /** Exactly the node's pods that are not completed and name a board, whatever the lists they
      are read from: one list after the other gives one result after the other. */
  lemma {:induction false} ActiveMember(podList: seq<Listed>, nodeName: string, pod: Pod)
    ensures pod in Active(podList, nodeName) <==> RunsOn(podList, nodeName, pod)
  {
    if podList != [] {
      var front, last := podList[..|podList| - 1], podList[|podList| - 1];
      assert podList == front + [last];
      ActiveMember(front, nodeName, pod);
    }
  }

  lemma {:induction false} ActiveConcat(a: seq<Listed>, b: seq<Listed>, nodeName: string)
    ensures Active(a + b, nodeName) == Active(a, nodeName) + Active(b, nodeName)
    ensures |Active(b, nodeName)| <= |b|
  {
    if b == [] {
      assert a + b == a;
    } else {
      var front := b[..|b| - 1];
      ActiveConcat(a, front, nodeName);
      assert (a + b)[..|a + b| - 1] == a + front;
    }
  }

  method GetActivePodInNode(podList: seq<Listed>, nodeName: string) returns (res: seq<Pod>)
    ensures res == Active(podList, nodeName)
  {
    res := [];
    for i := 0 to |podList|
      invariant res == Active(podList[..i], nodeName)
    {
      assert podList[..i + 1][..i] == podList[..i];
      if IsActive(podList[i], nodeName) {
        res := res + [podList[i].pod];
      }
    }
    assert podList[..|podList|] == podList;
  }

  /** `assignPod` on the cache's state. `apiNode` is the API server's answer, if it has one. */
  function Assigned(c: Cache.CacheState, pod: Pod, apiNode: Option<NodeObject>, podList: seq<Listed>): Cache.Reply {
    if !Annotated(pod) then Cache.Reply(c, true)
    else Cache.AddPod(NodeEnsured(c, pod.nodeName, apiNode, podList), ClaimOf(pod), pod.nodeName)
  }

  function NodeEnsured(c: Cache.CacheState, nodeName: string, apiNode: Option<NodeObject>, podList: seq<Listed>): Cache.CacheState {
    if nodeName in c.nodes || apiNode.None? then c
    else
      var node := apiNode.value;
      Cache.AddNode(c, node.name, Capacity(node), ClaimList(Active(podList, node.name)))
  }

  method AssignPod(c: ScheduleCache, pod: Pod, apiNode: Option<NodeObject>, podList: seq<Listed>) returns (ok: bool)
    requires c.Valid()
    modifies c, c.Objects()
    ensures c.Valid() && forall o :: o in c.Objects() ==> o in old(c.Objects()) || fresh(o)
    ensures Cache.Reply(c.State(), ok) == Assigned(old(c.State()), pod, apiNode, podList)
  {
    hide ScheduleCache.Valid, NodeInfo.Valid, NodeInfos.Capacity, NodeInfos.ClaimList, Node.Rebuild;
    if BIND_BOARD !in pod.annotations {
      return true;
    }
    if pod.nodeName !in c.nodeCache && apiNode.Some? {
      var pods := GetActivePodInNode(podList, apiNode.value.name);
      c.AddNode(apiNode.value, pods);
    }
    ok := c.AddPod(pod);
  }

  /** `syncPod`: a completed pod is released, errors ignored; a scheduled one is assigned. */
  function Synced(c: Cache.CacheState, found: Option<Listed>, apiNode: Option<NodeObject>, podList: seq<Listed>): Cache.Reply {
    match found
    case None => Cache.Reply(c, true)
    case Some(p) =>
      if p.completed then Cache.Reply(Cache.DeletePod(c, ClaimOf(p.pod), p.pod.nodeName).state, true)
      else if p.pod.nodeName == "" then Cache.Reply(c, true)
      else Assigned(c, p.pod, apiNode, podList)
  }

  method SyncPod(c: ScheduleCache, found: Option<Listed>, apiNode: Option<NodeObject>, podList: seq<Listed>) returns (ok: bool)
    requires c.Valid()
    modifies c, c.Objects()
    ensures c.Valid() && forall o :: o in c.Objects() ==> o in old(c.Objects()) || fresh(o)
    ensures Cache.Reply(c.State(), ok) == Synced(old(c.State()), found, apiNode, podList)
  {
    hide ScheduleCache.Valid, NodeInfo.Valid;
    if found.None? {
      return true;
    }
    if found.value.completed {
      var released := c.DeletePod(found.value.pod);
      return true;
    }
    if found.value.pod.nodeName == "" {
      return true;
    }
    ok := AssignPod(c, found.value.pod, apiNode, podList);
  }

  // ----- What a sync does

  /** A completed pod is released: the node it ran on, which held it as it is, offers its orins
      again, and the pod is no longer known. */
  lemma SyncReleases(c: Cache.CacheState, p: Listed, apiNode: Option<NodeObject>, podList: seq<Listed>)
    requires p.completed && p.pod.nodeName != "" && CacheCalls.Holding(c, p.pod.nodeName, ClaimOf(p.pod))
    ensures var r := Synced(c, Some(p), apiNode, podList);
            && r.ok && CacheCalls.LetGo(c, r.state, p.pod.nodeName, ClaimOf(p.pod))
            && p.pod.uid !in r.state.nodes[p.pod.nodeName].pods
            && r.state.pods == c.pods - {p.pod.uid}
            && (p.pod.uid in c.pods ==> p.pod.uid in r.state.released)
  {
    CacheCalls.PodLetGo(c, ClaimOf(p.pod), p.pod.nodeName);
  }

  /** A running pod with room on its cached node is taken in and known afterwards. */
  lemma SyncAssigns(c: Cache.CacheState, p: Listed, apiNode: Option<NodeObject>, podList: seq<Listed>)
    requires !p.completed && p.pod.nodeName != "" && p.pod.uid !in c.pods
    requires CacheCalls.Room(c, p.pod.nodeName, ClaimOf(p.pod))
    ensures var r := Synced(c, Some(p), apiNode, podList);
            && r.ok && CacheCalls.TakenIn(c, r.state, p.pod.nodeName, ClaimOf(p.pod))
            && r.state == c.(nodes := r.state.nodes, pods := c.pods[p.pod.uid := ClaimOf(p.pod)])
  {
    CacheCalls.PodTakenIn(c, ClaimOf(p.pod), p.pod.nodeName);
  }

  /** A vanished pod changes nothing, nor does one that is not scheduled or names no board. Nor
      does a running pod that is known already, or whose node is neither cached nor to be had
      from the API server, nor a completed one on a node not cached. No error is returned. */
  lemma SyncIgnores(c: Cache.CacheState, found: Option<Listed>, apiNode: Option<NodeObject>, podList: seq<Listed>)
    requires found.Some? ==>
               var Listed(pod, completed) := found.value;
               pod.nodeName == "" || BIND_BOARD !in pod.annotations
               || if pod.nodeName in c.nodes then !completed && pod.uid in c.pods else completed || apiNode.None?
    ensures Synced(c, found, apiNode, podList) == Cache.Reply(c, true)
  {
  }

  /** The calls a sync makes, one after the other. */
  ghost function Calls(c: Cache.CacheState, found: Option<Listed>, apiNode: Option<NodeObject>, podList: seq<Listed>)
    : seq<CacheRuns.CacheOp>
  {
    if found.None? then []
    else
      var Listed(pod, completed) := found.value;
      if completed then [CacheRuns.DeletePodOp(ClaimOf(pod), pod.nodeName)]
      else if pod.nodeName == "" || BIND_BOARD !in pod.annotations then []
      else if pod.nodeName in c.nodes || apiNode.None? then [CacheRuns.AddPodOp(ClaimOf(pod), pod.nodeName)]
      else
        var node := apiNode.value;
        [CacheRuns.AddNodeOp(node.name, Capacity(node), ClaimList(Active(podList, node.name))),
         CacheRuns.AddPodOp(ClaimOf(pod), pod.nodeName)]
  }

  /** The last of the calls is an addition that returns an error. */
  ghost predicate LastRefused(c: Cache.CacheState, calls: seq<CacheRuns.CacheOp>) {
    calls != [] &&
    var last := calls[|calls| - 1];
    last.AddPodOp? && !Cache.AddPod(CacheRuns.PerformAll(c, calls[..|calls| - 1]), last.pod, last.node).ok
  }

  /** Whatever state the cache is in, a sync is a run of these calls, so that what holds of all
      runs holds of it: a UID it frees was known, a pod's orins are given back at most once for
      every time they were taken, and the entries fail closed exactly when each release met
      lies inside. Only a refused addition is an error. */
  lemma SyncIsRun(c: Cache.CacheState, found: Option<Listed>, apiNode: Option<NodeObject>, podList: seq<Listed>)
    ensures var calls, r := Calls(c, found, apiNode, podList), Synced(c, found, apiNode, podList);
            && r.state == CacheRuns.PerformAll(c, calls)
            && (r.ok <==> !LastRefused(c, calls))
  {
    hide Cache.AddPod, Cache.DeletePod, Cache.AddNode, Node.Rebuild;
    var calls := Calls(c, found, apiNode, podList);
    if |calls| == 1 {
      RunOfOne(c, calls[0]);
      assert calls == [calls[0]] && calls[..0] == [];
    } else if |calls| == 2 {
      RunOfOne(c, calls[0]);
      RunOfOne(CacheRuns.Perform(c, calls[0]), calls[1]);
      assert calls[1..] == [calls[1]] && calls[..1] == [calls[0]];
    }
  }

  lemma RunOfOne(c: Cache.CacheState, op: CacheRuns.CacheOp)
    ensures CacheRuns.PerformAll(c, [op]) == CacheRuns.Perform(c, op)
  {
  }

  // ----- Replay

  lemma ReAddHeld(s: Node.NodeState, p: Claim)
    requires Node.Conserved(s) && p.binding.Board? && p.uid in s.pods && s.pods[p.uid] == p
    ensures Node.AddPod(s, p).ok && Node.Conserved(Node.AddPod(s, p).state)
    ensures NodeRuns.SameNode(Node.AddPod(s, p).state, s)
  {
    Node.DeleteKeepsConserved(s, p);
    NodeRuns.ReAddKeepsConserved(s, p);
    assert s.pods[p.uid := p] == s.pods;
  }

  /** Adding pods again that the node holds as they are changes nothing, in any order and
      however often. */
  lemma {:induction false} ReplayChangesNothing(s: Node.NodeState, again: seq<Claim>)
    requires Node.Conserved(s)
    requires forall p :: p in again ==> p.binding.Board? && p.uid in s.pods && s.pods[p.uid] == p
    ensures Node.Conserved(Added(s, again)) && NodeRuns.SameNode(Added(s, again), s)
  {
    if again != [] {
      var front, p := again[..|again| - 1], again[|again| - 1];
      ReplayChangesNothing(s, front);
      assert p in again;
      ReAddHeld(Added(s, front), p);
    }
  }

  function Added(s: Node.NodeState, ps: seq<Claim>): Node.NodeState {
    if ps == [] then s else Node.AddPod(Added(s, ps[..|ps| - 1]), ps[|ps| - 1]).state
  }

  /** The entry after a rebuild and the addition of one of its pods. */
  ghost predicate Restarted(c: Cache.CacheState, d: Cache.CacheState, name: string, total: Boards, live: seq<Claim>, claim: Claim) {
    && d.pods == c.pods[claim.uid := claim]
    && d.nodes.Keys == c.nodes.Keys + {name}
    && Node.Conserved(d.nodes[name])
    && NodeRuns.SameNode(d.nodes[name], Node.Rebuild(total, live))
    && d.nodes[name].pods == NodeRebuild.Bound(live)
  }

  lemma AddAfterRebuild(c: Cache.CacheState, name: string, total: Boards, live: seq<Claim>, i: nat)
    requires NodeRebuild.DistinctUIDs(live) && NodeRebuild.Compatible(total, live)
    requires i < |live| && live[i].binding.Board? && name != "" && live[i].uid !in c.pods
    ensures var r := Cache.AddPod(Cache.AddNode(c, name, total, live), live[i], name);
            r.ok && Restarted(c, r.state, name, total, live, live[i])
  {
    NodeRebuild.RebuildConserved(total, live);
    BoundHas(live, i);
    ReAddHeld(Node.Rebuild(total, live), live[i]);
  }

  /** After a restart the first pod that is synced on a node brings in all of the node's
      active pods, and its own addition changes the rebuilt entry no more. */
  lemma RestartRebuilds(c: Cache.CacheState, pod: Pod, node: NodeObject, podList: seq<Listed>)
    requires pod.nodeName == node.name && node.name != "" && node.name !in c.nodes && pod.uid !in c.pods
    requires BoardOf(pod).Some? && pod in Active(podList, node.name)
    requires var live := ClaimList(Active(podList, node.name));
             NodeRebuild.DistinctUIDs(live) && NodeRebuild.Compatible(Capacity(node), live)
    ensures var r := Assigned(c, pod, Some(node), podList);
            r.ok && Restarted(c, r.state, node.name, Capacity(node), ClaimList(Active(podList, node.name)), ClaimOf(pod))
  {
    var pods := Active(podList, node.name);
    var i :| 0 <= i < |pods| && pods[i] == pod;
    AddAfterRebuild(c, node.name, Capacity(node), ClaimList(pods), i);
  }

  lemma {:induction false} BoundHas(live: seq<Claim>, i: nat)
    requires NodeRebuild.DistinctUIDs(live) && i < |live| && live[i].binding.Board?
    ensures live[i].uid in NodeRebuild.Bound(live) && NodeRebuild.Bound(live)[live[i].uid] == live[i]
  {
    var n := |live| - 1;
    if i < n {
      NodeRebuild.NewUID(live);
      BoundHas(live[..n], i);
      assert live[..n][i] == live[i];
    }
  }

  // ----- Replay through the cache

  /** `AddPod` of each pod in turn, errors ignored. */
  function AddAll(c: Cache.CacheState, ps: seq<Claim>, node: string): Cache.CacheState {
    if ps == [] then c else Cache.AddPod(AddAll(c, ps[..|ps| - 1], node), ps[|ps| - 1], node).state
  }

  /** Replaying pods the node holds through the cache makes every one of them known and
      changes no entry. */
  lemma {:induction false} ReplayThroughCache(c: Cache.CacheState, ps: seq<Claim>, node: string)
    requires node != "" && node in c.nodes && Node.Conserved(c.nodes[node])
    requires forall p :: p in ps && !p.binding.Unbound? ==> HeldClaim(c.nodes[node], p)
    ensures var d := AddAll(c, ps, node);
            && d.nodes.Keys == c.nodes.Keys && (forall n :: n in c.nodes && n != node ==> d.nodes[n] == c.nodes[n])
            && Node.Conserved(d.nodes[node]) && NodeRuns.SameNode(d.nodes[node], c.nodes[node])
            && forall u :: u in d.pods <==> u in c.pods || u in NodeRebuild.Bound(ps)
  {
    hide Node.AddPod, Node.Conserved;
    if ps != [] {
      var front, p := ps[..|ps| - 1], ps[|ps| - 1];
      ReplayThroughCache(c, front, node);
      assert p in ps;
      if !p.binding.Unbound? {
        ReAddHeld(AddAll(c, front, node).nodes[node], p);
      }
    }
  }

  ghost predicate HeldClaim(n: Node.NodeState, p: Claim) {
    p.binding.Board? && p.uid in n.pods && n.pods[p.uid] == p
  }

  /** The whole restart: the node is rebuilt from its active pods and every one of them is
      then synced. The entry is the rebuild, and exactly those pods have become known. */
  lemma RestartReplays(c: Cache.CacheState, name: string, total: Boards, live: seq<Claim>)
    requires name != "" && NodeRebuild.DistinctUIDs(live) && NodeRebuild.Compatible(total, live)
    requires forall p :: p in live ==> p.binding.Board?
    ensures var d := AddAll(Cache.AddNode(c, name, total, live), live, name);
            && d.nodes.Keys == c.nodes.Keys + {name}
            && Node.Conserved(d.nodes[name]) && NodeRuns.SameNode(d.nodes[name], Node.Rebuild(total, live))
            && forall u :: u in d.pods <==> u in c.pods || exists p :: p in live && p.uid == u
  {
    NodeRebuild.RebuildConserved(total, live);
    var e := Cache.AddNode(c, name, total, live);
    forall p | p in live ensures HeldClaim(e.nodes[name], p) && p.uid in NodeRebuild.Bound(live) {
      var i :| 0 <= i < |live| && live[i] == p;
      BoundHas(live, i);
    }
    ReplayThroughCache(e, live, name);
    assert forall u :: u in NodeRebuild.Bound(live) ==> NodeRebuild.Bound(live)[u] in live;
  }

  /** A sync that returned no error may be repeated: it changes nothing more. */
  lemma SyncIsIdempotent(c: Cache.CacheState, found: Option<Listed>, apiNode: Option<NodeObject>, podList: seq<Listed>)
    requires Synced(c, found, apiNode, podList).ok
    ensures var d := Synced(c, found, apiNode, podList).state;
            Synced(d, found, apiNode, podList) == Cache.Reply(d, true)
  {
    if found.Some? {
      if found.value.completed {
        DeleteIdempotent(c, ClaimOf(found.value.pod), found.value.pod.nodeName);
      } else {
        AssignIdempotent(c, found.value.pod, apiNode, podList);
      }
    }
  }

  lemma DeleteIdempotent(c: Cache.CacheState, pod: Claim, node: string)
    ensures var d := Cache.DeletePod(c, pod, node).state; Cache.DeletePod(d, pod, node).state == d
  {
    if node in c.nodes {
      var d := Cache.DeletePod(c, pod, node).state;
      assert node in d.nodes ==> d.nodes[node := d.nodes[node]] == d.nodes;
    }
  }

  lemma AssignIdempotent(c: Cache.CacheState, pod: Pod, apiNode: Option<NodeObject>, podList: seq<Listed>)
    requires Assigned(c, pod, apiNode, podList).ok
    ensures var d := Assigned(c, pod, apiNode, podList).state;
            Assigned(d, pod, apiNode, podList) == Cache.Reply(d, true)
  {
    var e := NodeEnsured(c, pod.nodeName, apiNode, podList);
    if apiNode.Some? && pod.nodeName !in e.nodes {
      assert e.nodes[apiNode.value.name := e.nodes[apiNode.value.name]] == e.nodes;
    }
  }
}
