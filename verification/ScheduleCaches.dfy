/** `scheduleCache`: the object the scheduler's handlers and informers update, each call under
    the cache's lock. It maps node names to `NodeInfo` objects, each with map objects of its
    own. */
module ScheduleCaches {
  import opened Options
  import opened Pods
  import opened NodeInfos
  import Cache
  import Node
  import NodeRebuild

  ghost predicate Separate(a: set<object>, b: set<object>) {
    a !! b
  }

  class ScheduleCache {
    var nodeCache: map<string, NodeInfo>
    var assumePods: set<string>
    var podMaps: map<string, Pod>
    var releasedPod: set<string>

    /** The objects of all nodes. */
    ghost function Objects(): set<object>
      reads this`nodeCache, nodeCache.Values
    {
      set name, o | name in nodeCache && o in nodeCache[name].Repr :: o
    }

    /** No two nodes share an object. */
    ghost predicate Valid()
      reads this`nodeCache, nodeCache.Values, Objects()
      ensures Valid() ==> this !in Objects()
    {
      && (forall name :: name in nodeCache ==> nodeCache[name].Valid())
      && (forall m, n :: m in nodeCache && n in nodeCache && m != n ==> Separate(nodeCache[m].Repr, nodeCache[n].Repr))
      && this !in Objects()
    }

    ghost function Nodes(): map<string, Node.NodeState>
      reads this`nodeCache, nodeCache.Values
    {
      map name | name in nodeCache :: nodeCache[name].state
    }

    ghost function State(): Cache.CacheState
      reads this, nodeCache.Values
    {
      Cache.CacheState(Nodes(), map u | u in podMaps :: ClaimOf(podMaps[u]), assumePods, releasedPod)
    }

    constructor ()
      ensures Valid() && State() == Cache.EMPTY && Objects() == {}
    {
      nodeCache, assumePods, podMaps, releasedPod := map[], {}, map[], {};
    }

    /** One node takes a pod; the objects of the others are not reached. */
    method AddTo(node: string, pod: Pod) returns (ok: bool)
      requires Valid() && node in nodeCache
      modifies nodeCache[node].Repr
      ensures Valid() && nodeCache == old(nodeCache)
      ensures forall o :: o in nodeCache[node].Repr ==> o in old(nodeCache[node].Repr) || fresh(o)
      ensures forall name :: name in nodeCache && name != node ==> nodeCache[name].Repr == old(nodeCache[name].Repr)
      ensures Node.Outcome(nodeCache[node].state, ok) == Node.AddPod(old(nodeCache[node].state), ClaimOf(pod))
      ensures forall name :: name in nodeCache && name != node ==> nodeCache[name].state == old(nodeCache[name].state)
    {
      hide NodeInfo.Valid;
      var ni := nodeCache[node];
      ghost var own := ni.Repr;
      ok := ni.AddPod(pod);
      forall name | name in nodeCache && name != node
        ensures nodeCache[name].Valid() && nodeCache[name].state == old(nodeCache[name].state)
        ensures nodeCache[name].Repr == old(nodeCache[name].Repr)
      {
        assert old(Separate(own, nodeCache[name].Repr));
      }
    }

    /** One node lets a pod go; the objects of the others are not reached. */
    method DeleteFrom(node: string, pod: Pod) returns (ok: bool)
      requires Valid() && node in nodeCache
      modifies nodeCache[node].Repr
      ensures Valid() && nodeCache == old(nodeCache)
      ensures forall o :: o in nodeCache[node].Repr ==> o in old(nodeCache[node].Repr) || fresh(o)
      ensures forall name :: name in nodeCache && name != node ==> nodeCache[name].Repr == old(nodeCache[name].Repr)
      ensures Node.Outcome(nodeCache[node].state, ok) == Node.DeletePod(old(nodeCache[node].state), ClaimOf(pod))
      ensures forall name :: name in nodeCache && name != node ==> nodeCache[name].state == old(nodeCache[name].state)
    {
      hide NodeInfo.Valid;
      var ni := nodeCache[node];
      ghost var own := ni.Repr;
      ok := ni.DeletePod(pod);
      forall name | name in nodeCache && name != node
        ensures nodeCache[name].Valid() && nodeCache[name].state == old(nodeCache[name].state)
        ensures nodeCache[name].Repr == old(nodeCache[name].Repr)
      {
        assert old(Separate(own, nodeCache[name].Repr));
      }
    }

    /** The entry of a node becomes a new object. */
    method Install(node: string, ni: NodeInfo)
      requires Valid() && ni.Valid() && this !in ni.Repr && forall o :: o in ni.Repr ==> o !in Objects()
      modifies this`nodeCache
      ensures Valid() && Nodes() == old(Nodes())[node := ni.state]
      ensures forall o :: o in Objects() ==> o in old(Objects()) || o in ni.Repr
    {
      hide NodeInfo.Valid;
      forall name | name in nodeCache ensures Separate(ni.Repr, nodeCache[name].Repr) {
        assert nodeCache[name].Repr <= Objects();
      }
      nodeCache := nodeCache[node := ni];
    }

    /** Notes the pod as known. */
    method Learn(pod: Pod)
      requires Valid()
      modifies this`podMaps
      ensures Valid() && Objects() == old(Objects())
      ensures State() == old(State()).(pods := old(State()).pods[pod.uid := ClaimOf(pod)])
    {
      hide ScheduleCache.Valid, ScheduleCache.Nodes, ScheduleCache.Objects, NodeInfo.Valid;
      podMaps := podMaps[pod.uid := pod];
    }

    method MarkAssumed(uid: string)
      requires Valid()
      modifies this`assumePods
      ensures Valid() && Objects() == old(Objects())
      ensures State() == old(State()).(assumed := old(State()).assumed + {uid})
    {
      hide ScheduleCache.Valid, ScheduleCache.Nodes, ScheduleCache.Objects, NodeInfo.Valid;
      assumePods := assumePods + {uid};
    }

    method Unlearn(uid: string)
      requires Valid()
      modifies this`podMaps, this`releasedPod
      ensures Valid() && Objects() == old(Objects())
      ensures var c := old(State()); State() == c.(pods := c.pods - {uid}, released := c.released + {uid})
    {
      hide ScheduleCache.Valid, ScheduleCache.Nodes, ScheduleCache.Objects, NodeInfo.Valid;
      podMaps := podMaps - {uid};
      releasedPod := releasedPod + {uid};
    }

    method AddPod(pod: Pod) returns (ok: bool)
      requires Valid()
      modifies this, Objects()
      ensures Valid() && forall o :: o in Objects() ==> o in old(Objects()) || fresh(o)
      ensures Cache.Reply(State(), ok) == Cache.AddPod(old(State()), ClaimOf(pod), pod.nodeName)
    {
      hide ScheduleCache.Valid, NodeInfo.Valid, Node.AddPod;
      if pod.nodeName == "" {
        return true;
      }
      if BIND_BOARD !in pod.annotations {
        return true;
      }
      if pod.uid in podMaps {
        return true;
      }
      if pod.nodeName !in nodeCache {
        return true;
      }
      ok := AddTo(pod.nodeName, pod);
      assert Nodes() == old(Nodes())[pod.nodeName := nodeCache[pod.nodeName].state];
      if !ok {
        return false;
      }
      Learn(pod);
      return true;
    }

    method DeletePod(pod: Pod) returns (ok: bool)
      requires Valid()
      modifies this, Objects()
      ensures Valid() && forall o :: o in Objects() ==> o in old(Objects()) || fresh(o)
      ensures Cache.Reply(State(), ok) == Cache.DeletePod(old(State()), ClaimOf(pod), pod.nodeName)
    {
      hide ScheduleCache.Valid, NodeInfo.Valid, Node.DeletePod;
      if pod.nodeName == "" {
        return true;
      }
      if BIND_BOARD !in pod.annotations {
        return true;
      }
      if pod.nodeName !in nodeCache {
        return true;
      }
      ok := DeleteFrom(pod.nodeName, pod);
      assert Nodes() == old(Nodes())[pod.nodeName := nodeCache[pod.nodeName].state];
      if !ok {
        return false;
      }
      if pod.uid in podMaps {
        Unlearn(pod.uid);
      }
      return true;
    }

    method AddNode(node: NodeObject, pods: seq<Pod>)
      requires Valid()
      modifies this`nodeCache
      ensures Valid() && forall o :: o in Objects() ==> o in old(Objects()) || fresh(o)
      ensures State() == Cache.AddNode(old(State()), node.name, Capacity(node), ClaimList(pods))
    {
      hide ScheduleCache.Valid, NodeInfo.Valid, Node.Rebuild, NodeInfos.Capacity, NodeInfos.ClaimList;
      var ni := NewNodeInfo(node, pods);
      Install(node.name, ni);
    }

    method UpdateNode(oldNode: NodeObject, newNode: NodeObject, pods: seq<Pod>)
      requires Valid()
      modifies this`nodeCache
      ensures Valid() && forall o :: o in Objects() ==> o in old(Objects()) || fresh(o)
      ensures State() == Cache.UpdateNode(old(State()), newNode.name, Capacity(oldNode), Capacity(newNode), ClaimList(pods))
    {
      hide ScheduleCache.Valid, NodeInfo.Valid, Node.Rebuild, NodeInfos.Capacity, NodeInfos.ClaimList;
      var newNi := Renewed(oldNode, newNode, pods);
      if newNi.Some? {
        Install(newNode.name, newNi.value);
      }
    }

    /** The node of the new capacity, unless the old one is the same. */
    method Renewed(oldNode: NodeObject, newNode: NodeObject, pods: seq<Pod>) returns (r: Option<NodeInfo>)
      ensures r.None? <==>
              Node.Rebuild(Capacity(oldNode), ClaimList(pods)).total == Node.Rebuild(Capacity(newNode), ClaimList(pods)).total
      ensures r.Some? ==> r.value.Valid() && fresh(r.value.Repr)
      ensures r.Some? ==> r.value.state == NodeRebuild.Updated(Capacity(oldNode), Capacity(newNode), ClaimList(pods))
    {
      hide NodeInfo.Valid, Node.Rebuild, NodeInfos.Capacity, NodeInfos.ClaimList;
      var oldNi := NewNodeInfo(oldNode, pods);
      var newNi := NewNodeInfo(newNode, pods);
      var same := oldNi.SameTotal(newNi);
      if same {
        return None;
      }
      newNi.TakeRequested(oldNi);
      return Some(newNi);
    }

    method DeleteNode(node: NodeObject) returns (ok: bool)
      requires Valid()
      modifies this`nodeCache
      ensures Valid() && forall o :: o in Objects() ==> o in old(Objects())
      ensures Cache.Reply(State(), ok) == Cache.DeleteNode(old(State()), node.name)
    {
      hide NodeInfo.Valid;
      if node.name !in nodeCache {
        return false;
      }
      ghost var before := nodeCache;
      nodeCache := nodeCache - {node.name};
      assert forall name :: name in nodeCache <==> name in before && name != node.name;
      assert forall name :: name in nodeCache ==> nodeCache[name] == before[name];
      assert Nodes() == old(Nodes()) - {node.name};
      return true;
    }

    method AssumePod(pod: Pod, node: string) returns (ok: bool)
      requires Valid()
      modifies this, Objects()
      ensures Valid() && forall o :: o in Objects() ==> o in old(Objects()) || fresh(o)
      ensures Cache.Reply(State(), ok) == Cache.AssumePod(old(State()), ClaimOf(pod), node)
    {
      hide ScheduleCache.Valid, NodeInfo.Valid, Node.AddPod;
      if node !in nodeCache {
        return false;
      }
      if pod.uid in podMaps {
        return false;
      }
      ok := AddTo(node, pod);
      assert Nodes() == old(Nodes())[node := nodeCache[node].state];
      if !ok {
        return false;
      }
      MarkAssumed(pod.uid);
      Learn(pod);
      return true;
    }

    method ForgetPod(pod: Pod, node: string) returns (ok: bool)
      requires Valid()
      modifies Objects()
      ensures Valid() && forall o :: o in Objects() ==> o in old(Objects()) || fresh(o)
      ensures Cache.Reply(State(), ok) == Cache.ForgetPod(old(State()), ClaimOf(pod), node)
    {
      hide ScheduleCache.Valid, NodeInfo.Valid, Node.DeletePod;
      if node !in nodeCache {
        return false;
      }
      if pod.uid !in podMaps {
        return false;
      }
      ok := DeleteFrom(node, pod);
      assert Nodes() == old(Nodes())[node := nodeCache[node].state];
    }

    method KnownPod(pod: Pod) returns (known: bool)
      ensures known <==> pod.uid in State().pods
    {
      known := pod.uid in podMaps;
    }
  }
}
