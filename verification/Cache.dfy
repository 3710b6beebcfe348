/** The scheduler's cache as a value: one bookkeeping per node, and the pods it knows. */
module Cache {
  import opened Boards
  import opened Claims
  import Node
  import NodeRebuild

  datatype CacheState = CacheState(
    nodes: map<string, Node.NodeState>,
    pods: map<string, Claim>,    // podMaps
    assumed: set<string>,        // assumePods
    released: set<string>)       // releasedPod

  /** The state an operation leaves behind, and whether it returned no error. */
  datatype Reply = Reply(state: CacheState, ok: bool)

  const EMPTY := CacheState(map[], map[], {}, {})

  function SetNode(c: CacheState, name: string, n: Node.NodeState): CacheState {
    c.(nodes := c.nodes[name := n])
  }

  /** Ignored unless the pod is scheduled, annotated, not yet known and on a known node. */
  function AddPod(c: CacheState, pod: Claim, nodeName: string): Reply {
    if nodeName == "" || pod.binding.Unbound? || pod.uid in c.pods || nodeName !in c.nodes then Reply(c, true)
    else
      var r := Node.AddPod(c.nodes[nodeName], pod);
      var after := SetNode(c, nodeName, r.state);
      if r.ok then Reply(after.(pods := c.pods[pod.uid := pod]), true) else Reply(after, false)
  }

  function DeletePod(c: CacheState, pod: Claim, nodeName: string): Reply {
    if nodeName == "" || pod.binding.Unbound? || nodeName !in c.nodes then Reply(c, true)
    else
      var r := Node.DeletePod(c.nodes[nodeName], pod);
      var after := SetNode(c, nodeName, r.state);
      if r.ok && pod.uid in c.pods then
        Reply(after.(pods := c.pods - {pod.uid}, released := c.released + {pod.uid}), true)
      else Reply(after, r.ok)
  }

  function AddNode(c: CacheState, name: string, total: Boards, ps: seq<Claim>): CacheState {
    SetNode(c, name, Node.Rebuild(total, ps))
  }

  /** The entry is replaced only when the two capacities differ. */
  function UpdateNode(c: CacheState, name: string, oldTotal: Boards, newTotal: Boards, ps: seq<Claim>): CacheState {
    if Node.Rebuild(oldTotal, ps).total == Node.Rebuild(newTotal, ps).total then c
    else SetNode(c, name, NodeRebuild.Updated(oldTotal, newTotal, ps))
  }

  function DeleteNode(c: CacheState, name: string): Reply {
    if name in c.nodes then Reply(c.(nodes := c.nodes - {name}), true) else Reply(c, false)
  }

  function AssumePod(c: CacheState, pod: Claim, node: string): Reply {
    if node !in c.nodes || pod.uid in c.pods then Reply(c, false)
    else
      var r := Node.AddPod(c.nodes[node], pod);
      var after := SetNode(c, node, r.state);
      if r.ok then Reply(after.(assumed := c.assumed + {pod.uid}, pods := c.pods[pod.uid := pod]), true)
      else Reply(after, false)
  }

  /** The node lets the pod go, but the pod stays known and assumed. */
  function ForgetPod(c: CacheState, pod: Claim, node: string): Reply {
    if node !in c.nodes || pod.uid !in c.pods then Reply(c, false)
    else
      var r := Node.DeletePod(c.nodes[node], pod);
      Reply(SetNode(c, node, r.state), r.ok)
  }
}
