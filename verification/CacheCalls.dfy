/** What each call of the cache does to the orins on offer and to the pods known, in terms of
    the entries before and after. */
module CacheCalls {
  import opened Boards
  import opened Claims
  import opened Node
  import opened NodeRuns
  import opened NodeRebuild
  import opened CacheRuns
  import Allocators
  import Cache

  /** Only the entry of one node differs, and its capacity is what it was. */
  ghost predicate OnlyEntry(c: Cache.CacheState, d: Cache.CacheState, node: string) {
    && node in c.nodes && d.nodes.Keys == c.nodes.Keys
    && (forall n :: n in c.nodes && n != node ==> d.nodes[n] == c.nodes[n])
    && d.nodes[node].total == c.nodes[node].total
  }

  /** The node has taken the pod in: its orins are off the offer, on its board alone. */
  ghost predicate TakenIn(c: Cache.CacheState, d: Cache.CacheState, node: string, p: Claim) {
    && OnlyEntry(c, d, node) && Conserved(d.nodes[node])
    && d.nodes[node].pods == c.nodes[node].pods[p.uid := p]
    && forall x :: At(d.nodes[node].allocatable, x) == At(c.nodes[node].allocatable, x) - Held(p, x)
  }

  /** The node has let the pod go: its orins are on offer again, on its board alone. */
  ghost predicate LetGo(c: Cache.CacheState, d: Cache.CacheState, node: string, p: Claim) {
    && OnlyEntry(c, d, node) && Conserved(d.nodes[node])
    && d.nodes[node].pods == c.nodes[node].pods - {p.uid}
    && forall x :: At(d.nodes[node].allocatable, x) == At(c.nodes[node].allocatable, x) + Held(p, x)
  }

  /** The entry is conserved, does not hold the pod, and has its orins free. */
  ghost predicate Room(c: Cache.CacheState, node: string, p: Claim) {
    && node in c.nodes && Conserved(c.nodes[node]) && p.uid !in c.nodes[node].pods
    && p.binding.Board? && p.binding.id in c.nodes[node].allocatable && p.orins <= c.nodes[node].allocatable[p.binding.id]
  }

  /** The entry is conserved and holds the pod as it is. */
  ghost predicate Holding(c: Cache.CacheState, node: string, p: Claim) {
    node in c.nodes && Conserved(c.nodes[node]) && p.uid in c.nodes[node].pods && c.nodes[node].pods[p.uid] == p
  }

  lemma EntryTakes(c: Cache.CacheState, d: Cache.CacheState, node: string, p: Claim)
    requires Room(c, node, p) && d.nodes == c.nodes[node := AddPod(c.nodes[node], p).state]
    ensures AddPod(c.nodes[node], p).ok && TakenIn(c, d, node, p)
  {
    hide Node.AddPod, Node.Place;
    var n := c.nodes[node];
    AddFits(n, p, p.binding.id);
    forall x ensures At(d.nodes[node].allocatable, x) == At(n.allocatable, x) - Held(p, x) {
      HeldByPlaced(n.pods, p, x);
      assert Balanced(n, x) && Balanced(d.nodes[node], x);
      if p.binding == Board(x) { assert Held(p, x) <= At(n.allocatable, x); }
    }
  }

  lemma EntryLetsGo(c: Cache.CacheState, d: Cache.CacheState, node: string, p: Claim)
    requires Holding(c, node, p) && d.nodes == c.nodes[node := DeletePod(c.nodes[node], p).state]
    ensures DeletePod(c.nodes[node], p).ok && LetGo(c, d, node, p)
  {
    hide Node.DeletePod, Node.Release;
    var n := c.nodes[node];
    DeleteHeld(n, p);
    forall x ensures At(d.nodes[node].allocatable, x) == At(n.allocatable, x) + Held(p, x) {
      ReleasedAt(n, p, p.binding.id, x);
    }
  }

  /** A pod with room that the cache does not know is taken in and known afterwards, by a
      report and by an assumption alike; only the latter marks it as assumed. */
  lemma PodTakenIn(c: Cache.CacheState, p: Claim, node: string)
    requires Room(c, node, p) && p.uid !in c.pods
    ensures var r := Cache.AssumePod(c, p, node);
            r.ok && TakenIn(c, r.state, node, p) && r.state.pods == c.pods[p.uid := p]
            && r.state.assumed == c.assumed + {p.uid} && r.state.released == c.released
    ensures node != "" ==>
              var r := Cache.AddPod(c, p, node);
              r.ok && TakenIn(c, r.state, node, p) && r.state.pods == c.pods[p.uid := p]
              && r.state.assumed == c.assumed && r.state.released == c.released
  {
    hide TakenIn, Node.AddPod, Node.Conserved;
    EntryTakes(c, Cache.AssumePod(c, p, node).state, node, p);
    if node != "" { EntryTakes(c, Cache.AddPod(c, p, node).state, node, p); }
  }

  /** A held pod is let go, by a deletion and by a forget alike; only the former makes it
      unknown and records the release of a known pod. */
  lemma PodLetGo(c: Cache.CacheState, p: Claim, node: string)
    requires Holding(c, node, p)
    ensures node != "" ==>
              var r := Cache.DeletePod(c, p, node);
              r.ok && LetGo(c, r.state, node, p) && r.state.pods == c.pods - {p.uid} && r.state.assumed == c.assumed
              && r.state.released == c.released + if p.uid in c.pods then {p.uid} else {}
    ensures p.uid in c.pods ==>
              var r := Cache.ForgetPod(c, p, node);
              r.ok && LetGo(c, r.state, node, p) && r.state == c.(nodes := r.state.nodes)
  {
    hide LetGo, Node.DeletePod;
    if node != "" { EntryLetsGo(c, Cache.DeletePod(c, p, node).state, node, p); }
    if p.uid in c.pods { EntryLetsGo(c, Cache.ForgetPod(c, p, node).state, node, p); }
  }

  /** A call about a pod leaves every entry but one alone, and one about a node every other
      node's; what is known of pods never depends on calls about nodes. */
  lemma OthersUntouched(c: Cache.CacheState, op: CacheOp, n: string)
    ensures var d := Perform(c, op);
            var node := match op
              case AddNodeOp(name, _, _) => name
              case UpdateNodeOp(name, _, _, _) => name
              case DeleteNodeOp(name) => name
              case AddPodOp(_, node) => node
              case DeletePodOp(_, node) => node
              case AssumePodOp(_, node) => node
              case ForgetPodOp(_, node) => node;
            n != node ==> (n in d.nodes <==> n in c.nodes) && (n in c.nodes ==> d.nodes[n] == c.nodes[n])
    ensures op.AddNodeOp? || op.UpdateNodeOp? || op.DeleteNodeOp? ==>
              Perform(c, op) == c.(nodes := Perform(c, op).nodes)
    ensures op.AddPodOp? || op.DeletePodOp? || op.AssumePodOp? || op.ForgetPodOp? ==>
              Perform(c, op).nodes.Keys == c.nodes.Keys
  {
  }

  /** What a node update leaves behind: nothing changes unless the capacities differ. If they
      do, the entry has the new capacity and the requests of all listed pods; while the
      capacity covers them it offers exactly the rest of it, and otherwise nothing. */
  lemma UpdateStores(c: Cache.CacheState, name: string, oldTotal: Boards, newTotal: Boards, ps: seq<Claim>)
    requires DistinctUIDs(ps)
    ensures var d := Cache.UpdateNode(c, name, oldTotal, newTotal, ps);
            if oldTotal == newTotal then d == c
            else
              && d == c.(nodes := d.nodes) && d.nodes.Keys == c.nodes.Keys + {name}
              && (forall n :: n in c.nodes && n != name ==> d.nodes[n] == c.nodes[n])
              && d.nodes[name].total == newTotal && d.nodes[name].pods == Rebuild(newTotal, ps).pods
              && (forall x :: At(d.nodes[name].requested, x) == HeldBy(Bound(ps), x))
              && if Covers(newTotal, d.nodes[name].requested) then
                   && d.nodes[name] == Rebuild(newTotal, ps)
                   && forall x :: At(d.nodes[name].allocatable, x) == At(newTotal, x) - HeldBy(Bound(ps), x)
                 else
                   && d.nodes[name].allocatable == map[]
                   && forall request, b :: Allocators.Answer(d.nodes[name].allocatable, request, b) <==> b == Allocators.BOARD_NOT_FOUND
  {
    RebuildListed(oldTotal, ps);
    RebuildListed(newTotal, ps);
    forall x ensures At(Recorded(ps), x) == HeldBy(Bound(ps), x) {
      RecordedHeld(ps, x);
    }
  }

  /** A deleted node is gone, and nothing else has changed; an unknown one is an error. */
  lemma NodeRemoved(c: Cache.CacheState, name: string)
    ensures var r := Cache.DeleteNode(c, name);
            && (r.ok <==> name in c.nodes) && name !in r.state.nodes && r.state == c.(nodes := r.state.nodes)
            && forall n :: n != name ==> (n in r.state.nodes <==> n in c.nodes) && (n in c.nodes ==> r.state.nodes[n] == c.nodes[n])
  {
  }

  /** A pod whose annotation is no number becomes known on a cached node without any entry
      taking it in; deleting it, under whatever annotation, is then an error. */
  lemma MalformedIsStuck(c: Cache.CacheState, p: Claim, again: Claim, node: string)
    requires node != "" && node in c.nodes && p.binding.Malformed? && p.uid !in c.pods && p.uid !in c.nodes[node].pods
    requires again.uid == p.uid && !again.binding.Unbound?
    ensures var r := Cache.AddPod(c, p, node);
            && r.ok && r.state == c.(pods := c.pods[p.uid := p])
            && Cache.DeletePod(r.state, again, node) == Cache.Reply(r.state, false)
  {
    assert c.nodes[node := c.nodes[node]] == c.nodes;
  }
}
