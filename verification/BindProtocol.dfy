/** `Bind` as a protocol of steps. Any number of binds run at once, between each other's
    steps and those of the pod and node informers: each cache call is atomic, but the
    allocator reads a node's entry outside the cache lock, and the API server's answers to
    the updates may be errors. */
module BindProtocol {
  import opened Boards
  import opened Claims
  import opened Node
  import opened NodeRuns
  import opened NodeRebuild
  import FailsClosed
  import Cache
  import Allocators

  datatype Placement = Placement(node: string, claim: Claim)

  /** Where one bind stands. `Chosen` remembers the entry the allocator looked at. */
  datatype Stage =
    | Idle
    | Chosen(node: string, pod: Claim, seen: NodeState)
    | Assumed(node: string, pod: Claim)
    | Annotated(node: string, pod: Claim)
    | Bound(node: string, pod: Claim)
    | Failed

  /** `live` records which pods really occupy orins: assumed ones until their bind fails, and
      those the pod informer reports until it reports their deletion. */
  datatype Sys = Sys(cache: Cache.CacheState, threads: map<nat, Stage>, live: map<string, Placement>)

  datatype Step =
    | Choose(t: nat, node: string, uid: string, orins: set<int>, board: int, seen: NodeState)
    | Assume(t: nat)
    | Update(t: nat, ok: bool, fetched: Claim)
    | Bind(t: nat, ok: bool)
    | PodAdded(pod: Claim, node: string)
    | PodDeleted(pod: Claim, node: string)
    | NodeAdded(node: string, total: Boards, ps: seq<Claim>)
    | NodeUpdated(node: string, oldTotal: Boards, total: Boards, ps: seq<Claim>)
    | NodeDeleted(node: string)

  function StageOf(s: Sys, t: nat): Stage {
    if t in s.threads then s.threads[t] else Idle
  }

  ghost predicate Enabled(s: Sys, step: Step) {
    match step
    case Choose(t, node, uid, orins, board, seen) =>
      StageOf(s, t).Idle? && board != Allocators.BOARD_NOT_FOUND && Allocators.BestFit(seen.allocatable, orins, board)
    case Assume(t) => StageOf(s, t).Chosen?
    case Update(t, ok, fetched) => StageOf(s, t).Assumed? && fetched.uid == StageOf(s, t).pod.uid
    case Bind(t, ok) => StageOf(s, t).Annotated?
    case _ => true
  }

  /** The effect of a step. A failed update forgets the pod as fetched before the annotation
      was added, a failed bind the pod as annotated. */
  ghost function Next(s: Sys, step: Step): Sys
    requires Enabled(s, step)
  {
    match step
    case Choose(t, node, uid, orins, board, seen) =>
      s.(threads := s.threads[t := Chosen(node, Claim(uid, Board(board), orins), seen)])
    case Assume(t) =>
      var Chosen(node, pod, seen) := StageOf(s, t);
      var r := Cache.AssumePod(s.cache, pod, node);
      if r.ok then Sys(r.state, s.threads[t := Assumed(node, pod)], s.live[pod.uid := Placement(node, pod)])
      else Sys(r.state, s.threads[t := Idle], s.live)
    case Update(t, ok, fetched) =>
      var Assumed(node, pod) := StageOf(s, t);
      if ok then s.(threads := s.threads[t := Annotated(node, pod)])
      else Sys(Cache.ForgetPod(s.cache, fetched, node).state, s.threads[t := Idle], s.live - {pod.uid})
    case Bind(t, ok) =>
      var Annotated(node, pod) := StageOf(s, t);
      if ok then s.(threads := s.threads[t := Bound(node, pod)])
      else Sys(Cache.ForgetPod(s.cache, pod, node).state, s.threads[t := Failed], s.live - {pod.uid})
    case PodAdded(pod, node) =>
      s.(cache := Cache.AddPod(s.cache, pod, node).state,
         live := if pod.binding.Board? && node != "" then s.live[pod.uid := Placement(node, pod)] else s.live)
    case PodDeleted(pod, node) =>
      s.(cache := Cache.DeletePod(s.cache, pod, node).state, live := s.live - {pod.uid})
    case NodeAdded(node, total, ps) => s.(cache := Cache.AddNode(s.cache, node, total, ps))
    case NodeUpdated(node, oldTotal, total, ps) => s.(cache := Cache.UpdateNode(s.cache, node, oldTotal, total, ps))
    case NodeDeleted(node) => s.(cache := Cache.DeleteNode(s.cache, node).state)
  }

  ghost predicate LiveOn(s: Sys, u: string, node: string) {
    u in s.live && s.live[u].node == node
  }

  /** No orin is held by two live pods, every cached entry is conserved, and it holds every
      live pod of its node. */
  ghost predicate Safe(s: Sys) {
    && (forall n :: n in s.cache.nodes ==> Conserved(s.cache.nodes[n]))
    && (forall u :: u in s.live ==> Recorded(s, u))
    && (forall u, v :: u in s.live && v in s.live && u != v ==> NoClash(s.live[u], s.live[v]))
  }

  ghost predicate Recorded(s: Sys, u: string)
    requires u in s.live
  {
    var Placement(node, claim) := s.live[u];
    claim.uid == u && claim.binding.Board?
    && (node in s.cache.nodes ==> u in s.cache.nodes[node].pods && s.cache.nodes[node].pods[u] == claim)
  }

  ghost predicate NoClash(p: Placement, q: Placement) {
    p.node == q.node ==> forall b :: Held(p.claim, b) !! Held(q.claim, b)
  }

  /** If the node's entry would let the pod go, it lets go what it holds: always so when
      annotation and limits are a function of the UID. */
  ghost predicate SameAsHeld(s: Sys, pod: Claim, node: string) {
    node in s.cache.nodes ==> Allowed(s.cache.nodes[node], Delete(pod))
  }

  /** A list of the node's pods for a rebuild: none listed twice, no overlaps, everything
      inside the capacity, and no live pod left out. */
  ghost predicate Complete(s: Sys, node: string, total: Boards, ps: seq<Claim>) {
    && DistinctUIDs(ps) && Compatible(total, ps)
    && forall u :: LiveOn(s, u, node) ==> u in NodeRebuild.Bound(ps) && NodeRebuild.Bound(ps)[u] == s.live[u].claim
  }

  /** A pod the informer may report as running: on a node not cached yet, any pod that
      overlaps no other live one; one the entry already holds, such as a rebuild brought in,
      with what it holds; or one new to the cache that fits. */
  ghost predicate Reportable(s: Sys, pod: Claim, node: string)
    requires pod.binding.Board?
  {
    if node !in s.cache.nodes then
      forall u :: u in s.live && u != pod.uid ==>
        NoClash(s.live[u], Placement(node, pod)) && NoClash(Placement(node, pod), s.live[u])
    else if pod.uid in s.cache.nodes[node].pods then HeldAs(s, pod, s.cache.nodes[node])
    else pod.uid !in s.cache.pods && Fits(s.cache.nodes[node], pod, pod.binding.id)
  }

  ghost predicate HeldAs(s: Sys, pod: Claim, n: NodeState)
    requires pod.uid in n.pods && pod.binding.Board?
  {
    if pod.uid in s.cache.pods then n.pods[pod.uid] == pod
    else SameHeld(pod, n.pods[pod.uid]) && Covers(n.requested, map[pod.binding.id := pod.orins])
  }

  /** The rule of each step. An assumption of a pod new to the cache meets an entry where the
      chosen orins are still free; any other is refused and needs no rule. Whatever lets a pod
      go lets go what the entry holds for it. Reports and rebuilds are as described above. */
  ghost predicate Harmless(s: Sys, step: Step)
    requires Enabled(s, step)
  {
    match step
    case Assume(t) =>
      var Chosen(node, pod, seen) := StageOf(s, t);
      node in s.cache.nodes && pod.uid !in s.cache.pods ==> Allowed(s.cache.nodes[node], Add(pod))
    case Update(t, ok, fetched) => !ok && fetched.uid in s.cache.pods ==> SameAsHeld(s, fetched, StageOf(s, t).node)
    case Bind(t, ok) =>
      !ok && StageOf(s, t).pod.uid in s.cache.pods ==> SameAsHeld(s, StageOf(s, t).pod, StageOf(s, t).node)
    case PodAdded(pod, node) => pod.binding.Board? && node != "" ==> Reportable(s, pod, node)
    case PodDeleted(pod, node) => pod.binding.Board? && node != "" ==> SameAsHeld(s, pod, node)
    case NodeAdded(node, total, ps) => Complete(s, node, total, ps)
    case NodeUpdated(node, oldTotal, total, ps) => oldTotal == total || Complete(s, node, total, ps)
    case _ => true
  }

  /** The pods listed for a rebuild are distinct. */
  ghost predicate Listable(step: Step) {
    step.NodeAdded? || step.NodeUpdated? ==> DistinctUIDs(step.ps)
  }

  /** An entry replaced by another conserved one that holds the node's live pods. */
  lemma EntryReplaced(s: Sys, t: Sys, node: string, n: NodeState)
    requires Safe(s) && Conserved(n)
    requires t.cache.nodes == s.cache.nodes[node := n]
    requires forall u :: u in t.live ==> (u in s.live && t.live[u] == s.live[u]) || t.live[u].node == node
    requires forall u :: LiveOn(t, u, node) ==> u in n.pods && n.pods[u] == t.live[u].claim
    ensures Safe(t)
  {
  }

  /** Fewer live pods over the same entries. */
  lemma FewerLive(s: Sys, t: Sys)
    requires Safe(s) && t.cache.nodes == s.cache.nodes
    requires forall u :: u in t.live ==> u in s.live && t.live[u] == s.live[u]
    ensures Safe(t)
  {
  }

  lemma ForgetSafeExactly(s: Sys, t: Sys, pod: Claim, node: string)
    requires Safe(s)
    requires t.cache == Cache.ForgetPod(s.cache, pod, node).state && t.live == s.live - {pod.uid}
    ensures Safe(t) <==> (pod.uid in s.cache.pods ==> SameAsHeld(s, pod, node))
  {
    if node in s.cache.nodes && pod.uid in s.cache.pods {
      ReleaseSafeExactly(s, t, pod, node);
    } else {
      FewerLive(s, t);
    }
  }

  /** Letting a pod go keeps the system safe exactly when the entry lets go what it holds. */
  lemma ReleaseSafeExactly(s: Sys, t: Sys, pod: Claim, node: string)
    requires Safe(s) && node in s.cache.nodes
    requires t.cache.nodes == s.cache.nodes[node := DeletePod(s.cache.nodes[node], pod).state]
    requires t.live == s.live - {pod.uid}
    ensures Safe(t) <==> SameAsHeld(s, pod, node)
  {
    hide Node.Conserved, Allowed;
    var n := s.cache.nodes[node];
    StepKeepsConserved(n, Delete(pod));
    assert node in t.cache.nodes && t.cache.nodes[node] == DeletePod(n, pod).state;
    if SameAsHeld(s, pod, node) {
      forall u | LiveOn(t, u, node) ensures u in DeletePod(n, pod).state.pods && DeletePod(n, pod).state.pods[u] == t.live[u].claim {
        assert Recorded(s, u);
      }
      EntryReplaced(s, t, node, DeletePod(n, pod).state);
    }
  }

  lemma AddKeepsSafe(s: Sys, t: Sys, pod: Claim, node: string)
    requires Safe(s) && node in s.cache.nodes && pod.binding.Board?
    requires pod.uid !in s.cache.nodes[node].pods && Fits(s.cache.nodes[node], pod, pod.binding.id)
    requires t.cache.nodes == s.cache.nodes[node := AddPod(s.cache.nodes[node], pod).state]
    requires t.live == s.live[pod.uid := Placement(node, pod)]
    ensures Safe(t)
  {
    var n := s.cache.nodes[node];
    AddFits(n, pod, pod.binding.id);
    forall u | LiveOn(t, u, node)
      ensures u in AddPod(n, pod).state.pods && AddPod(n, pod).state.pods[u] == t.live[u].claim
    {
      if u != pod.uid { assert Recorded(s, u); }
    }
    EntryReplaced(s, t, node, AddPod(n, pod).state);
  }

  /** The board in a remembered choice was a best fit when it was made. */
  ghost predicate ChoicesFit(s: Sys) {
    forall t :: t in s.threads && s.threads[t].Chosen? ==>
      s.threads[t].pod.binding.Board? && Fits(s.threads[t].seen, s.threads[t].pod, s.threads[t].pod.binding.id)
  }

  lemma ChoicesStayFit(s: Sys, step: Step)
    requires ChoicesFit(s) && Enabled(s, step)
    ensures ChoicesFit(Next(s, step))
  {
  }

  /** An assumption keeps the system safe exactly when it is harmless, whatever was written in
      between: for a pod new to the cache and to the entry, when its orins are still free. */
  lemma AssumeSafeExactly(s: Sys, t: nat)
    requires Safe(s) && Enabled(s, Assume(t)) && StageOf(s, t).pod.binding.Board?
    ensures Safe(Next(s, Assume(t))) <==> Harmless(s, Assume(t))
    ensures var Chosen(node, pod, seen) := StageOf(s, t);
            node in s.cache.nodes && pod.uid !in s.cache.nodes[node].pods && pod.uid !in s.cache.pods ==>
              (Harmless(s, Assume(t)) <==> Fits(s.cache.nodes[node], pod, pod.binding.id))
  {
    var Chosen(node, pod, seen) := StageOf(s, t);
    if node !in s.cache.nodes || pod.uid in s.cache.pods {
      FewerLive(s, Next(s, Assume(t)));
    } else if pod.uid in s.cache.nodes[node].pods {
      AssumeHeld(s, t);
    } else {
      AssumeNew(s, t);
    }
  }

  lemma AssumeHeld(s: Sys, t: nat)
    requires Safe(s) && Enabled(s, Assume(t)) && StageOf(s, t).pod.binding.Board?
    requires var Chosen(node, pod, seen) := StageOf(s, t);
             node in s.cache.nodes && pod.uid in s.cache.nodes[node].pods && pod.uid !in s.cache.pods
    ensures Safe(Next(s, Assume(t))) <==> Harmless(s, Assume(t))
  {
    hide Node.Conserved, Node.AddPod;
    var Chosen(node, pod, seen) := StageOf(s, t);
    var n, u := s.cache.nodes[node], Next(s, Assume(t));
    ReAddCases(n, pod);
    assert u.cache.nodes == s.cache.nodes[node := AddPod(n, pod).state] && u.cache.nodes[node] == AddPod(n, pod).state;
    if AddPod(n, pod).ok {
      if SameHeld(pod, n.pods[pod.uid]) { EntryStays(s, u, node, AddPod(n, pod).state, pod); }
    } else {
      assert s.cache.nodes[node := n] == s.cache.nodes;
      FewerLive(s, u);
    }
  }

  lemma AssumeNew(s: Sys, t: nat)
    requires Safe(s) && Enabled(s, Assume(t)) && StageOf(s, t).pod.binding.Board?
    requires var Chosen(node, pod, seen) := StageOf(s, t);
             node in s.cache.nodes && pod.uid !in s.cache.nodes[node].pods && pod.uid !in s.cache.pods
    ensures Safe(Next(s, Assume(t))) <==> Harmless(s, Assume(t))
  {
    hide Node.Conserved, Node.AddPod;
    var Chosen(node, pod, seen) := StageOf(s, t);
    var n, u := s.cache.nodes[node], Next(s, Assume(t));
    AddKeepsConserved(n, pod, pod.binding.id);
    assert u.cache.nodes == s.cache.nodes[node := AddPod(n, pod).state] && u.cache.nodes[node] == AddPod(n, pod).state;
    if Fits(n, pod, pod.binding.id) {
      AddKeepsSafe(s, u, pod, node);
    }
  }

  /** With no write to the entry since the allocator's look, an assumption is harmless.
      `AssumePod` then returns an error only for an unknown node or a known pod, and changes
      nothing: so every retry after a failed update ends. */
  lemma AssumeSucceeds(s: Sys, t: nat)
    requires Safe(s) && ChoicesFit(s) && Enabled(s, Assume(t))
    requires var Chosen(node, pod, seen) := StageOf(s, t);
             node in s.cache.nodes && pod.uid !in s.cache.pods ==> s.cache.nodes[node] == seen && pod.uid !in seen.pods
    ensures Harmless(s, Assume(t)) && Safe(Next(s, Assume(t)))
    ensures var Chosen(node, pod, seen) := StageOf(s, t);
            var r := Cache.AssumePod(s.cache, pod, node);
            && (r.ok <==> node in s.cache.nodes && pod.uid !in s.cache.pods)
            && (!r.ok ==> Next(s, Assume(t)) == s.(threads := s.threads[t := Idle]))
  {
    var Chosen(node, pod, seen) := StageOf(s, t);
    AssumeSafeExactly(s, t);
    if node in s.cache.nodes && pod.uid !in s.cache.pods {
      AddFits(seen, pod, pod.binding.id);
    }
  }

  /** Two live pods of one node occupy the same orin of board `b`. */
  ghost predicate HeldTwice(s: Sys, u: string, v: string, b: int) {
    && u != v && u in s.live && v in s.live && s.live[u].node == s.live[v].node
    && !(Held(s.live[u].claim, b) !! Held(s.live[v].claim, b))
  }

  /** Two binds that look before either assumes may both be given the same orin: on a node
      that has just been added to the empty cache both assumptions succeed, and the orin is
      held twice. Only the last step is not harmless. */
  lemma TwoBindsClash() returns (steps: seq<Step>, last: Step)
    ensures Run(Start(), steps) && AlwaysHarmless(Start(), steps)
    ensures var t := End(Start(), steps);
            && last.Assume? && Enabled(t, last)
            && Cache.AssumePod(t.cache, StageOf(t, last.t).pod, StageOf(t, last.t).node).ok
            && HeldTwice(Next(t, last), "p", "q", 1)
  {
    var n, p, q := Fresh(map[1 := {1}]), Claim("p", Board(1), {1}), Claim("q", Board(1), {1});
    var add := NodeAdded("n", map[1 := {1}], []);
    var s := Next(Start(), add);
    assert s == Sys(Cache.CacheState(map["n" := n], map[], {}, {}), map[], map[]);
    var look1, look2 := Choose(1, "n", "p", {1}, 1, n), Choose(2, "n", "q", {1}, 1, n);
    TwoLooks(s, n, p, q);
    var s1 := Next(s, look1);
    var s2 := Next(s1, look2);
    FirstAssume(s2, n, p, q);
    Prepend(s2, Assume(1), []);
    Prepend(s1, look2, [Assume(1)] + []);
    Prepend(s, look1, [look2] + ([Assume(1)] + []));
    steps, last := [add] + ([look1] + ([look2] + ([Assume(1)] + []))), Assume(2);
    Prepend(Start(), add, [look1] + ([look2] + ([Assume(1)] + [])));
    SecondAssume(Next(s2, Assume(1)), n, p, q);
  }

  lemma TwoLooks(s: Sys, n: NodeState, p: Claim, q: Claim)
    requires n == Fresh(map[1 := {1}]) && p == Claim("p", Board(1), {1}) && q == Claim("q", Board(1), {1})
    requires s.threads == map[]
    ensures var look1, look2 := Choose(1, "n", "p", {1}, 1, n), Choose(2, "n", "q", {1}, 1, n);
            && Enabled(s, look1) && Enabled(Next(s, look1), look2)
            && Next(Next(s, look1), look2) == s.(threads := map[1 := Chosen("n", p, n), 2 := Chosen("n", q, n)])
  {
  }

  lemma FirstAssume(s: Sys, n: NodeState, p: Claim, q: Claim)
    requires n == Fresh(map[1 := {1}]) && p == Claim("p", Board(1), {1}) && q == Claim("q", Board(1), {1})
    requires s == Sys(Cache.CacheState(map["n" := n], map[], {}, {}), map[1 := Chosen("n", p, n), 2 := Chosen("n", q, n)], map[])
    ensures Enabled(s, Assume(1)) && Harmless(s, Assume(1))
    ensures var t := Next(s, Assume(1));
            && t.cache.nodes == map["n" := AddPod(n, p).state] && t.cache.pods == map["p" := p]
            && t.live == map["p" := Placement("n", p)] && StageOf(t, 2) == Chosen("n", q, n)
  {
  }

  lemma Prepend(s: Sys, a: Step, rest: seq<Step>)
    requires Enabled(s, a) && Listable(a) && Harmless(s, a) && Run(Next(s, a), rest) && AlwaysHarmless(Next(s, a), rest)
    ensures Run(s, [a] + rest) && AlwaysHarmless(s, [a] + rest) && End(s, [a] + rest) == End(Next(s, a), rest)
  {
  }

  lemma SecondAssume(t: Sys, n: NodeState, p: Claim, q: Claim)
    requires n == Fresh(map[1 := {1}]) && p == Claim("p", Board(1), {1}) && q == Claim("q", Board(1), {1})
    requires t.cache.nodes == map["n" := AddPod(n, p).state] && t.cache.pods == map["p" := p]
    requires t.live == map["p" := Placement("n", p)] && StageOf(t, 2) == Chosen("n", q, n)
    ensures Cache.AssumePod(t.cache, q, "n").ok
    ensures var w := Next(t, Assume(2));
            HeldTwice(w, "p", "q", 1) && !Safe(w)
  {
  }

  /** A report of a board-bound pod keeps the system safe exactly when it is reportable. */
  lemma ReportSafeExactly(s: Sys, pod: Claim, node: string)
    requires Safe(s) && pod.binding.Board? && node != ""
    ensures Safe(Next(s, PodAdded(pod, node))) <==> Reportable(s, pod, node)
  {
    var t := Next(s, PodAdded(pod, node));
    if node !in s.cache.nodes {
      ReportUncached(s, t, pod, node);
    } else if pod.uid in s.cache.nodes[node].pods {
      ReportHeld(s, t, pod, node);
    } else {
      ReportNew(s, t, pod, node);
    }
  }

  lemma ReportUncached(s: Sys, t: Sys, pod: Claim, node: string)
    requires Safe(s) && pod.binding.Board? && node != "" && node !in s.cache.nodes && t == Next(s, PodAdded(pod, node))
    ensures Safe(t) <==> Reportable(s, pod, node)
  {
    assert t.cache == s.cache && t.live == s.live[pod.uid := Placement(node, pod)];
    forall u | u in s.live ensures Recorded(s, u) {
    }
    if Safe(t) {
      forall u | u in s.live && u != pod.uid
        ensures NoClash(s.live[u], Placement(node, pod)) && NoClash(Placement(node, pod), s.live[u])
      {
        assert NoClash(t.live[u], t.live[pod.uid]) && NoClash(t.live[pod.uid], t.live[u]);
      }
    }
  }

  lemma ReportHeld(s: Sys, t: Sys, pod: Claim, node: string)
    requires Safe(s) && pod.binding.Board? && node != "" && node in s.cache.nodes && pod.uid in s.cache.nodes[node].pods
    requires t == Next(s, PodAdded(pod, node))
    ensures Safe(t) <==> Reportable(s, pod, node)
  {
    hide Node.Conserved, Node.AddPod;
    var n := s.cache.nodes[node];
    if pod.uid in s.cache.pods {
      assert s.cache.nodes[node := n] == s.cache.nodes;
      EntryStays(s, t, node, n, pod);
    } else {
      assert t.cache.nodes == s.cache.nodes[node := AddPod(n, pod).state];
      ReportRebuilt(s, t, pod, node, AddPod(n, pod).state);
    }
  }

  lemma ReAddCases(n: NodeState, pod: Claim)
    requires Conserved(n) && pod.binding.Board? && pod.uid in n.pods
    ensures var m, covered := AddPod(n, pod).state, Covers(n.requested, map[pod.binding.id := pod.orins]);
            && (AddPod(n, pod).ok <==> covered)
            && (!covered ==> m == n && n.pods[pod.uid] != pod)
            && (covered && SameHeld(pod, n.pods[pod.uid]) ==> Conserved(m) && m.pods == n.pods[pod.uid := pod])
            && (covered && !SameHeld(pod, n.pods[pod.uid]) ==> !Conserved(m))
  {
    ReAddKeepsConserved(n, pod);
    if DeletePod(n, pod).ok {
      ReAddSucceeds(n, pod, pod.binding.id);
    }
    if n.pods[pod.uid] == pod {
      DeleteHeld(n, pod);
    }
  }

  /** A pod the entry holds though the cache does not know it. */
  lemma ReportRebuilt(s: Sys, t: Sys, pod: Claim, node: string, m: NodeState)
    requires Safe(s) && pod.binding.Board? && node in s.cache.nodes && pod.uid in s.cache.nodes[node].pods
    requires m == AddPod(s.cache.nodes[node], pod).state
    requires t.cache.nodes == s.cache.nodes[node := m] && t.live == s.live[pod.uid := Placement(node, pod)]
    ensures var n := s.cache.nodes[node];
            Safe(t) <==> SameHeld(pod, n.pods[pod.uid]) && Covers(n.requested, map[pod.binding.id := pod.orins])
  {
    hide Node.AddPod;
    ReAddCases(s.cache.nodes[node], pod);
    assert node in t.cache.nodes && t.cache.nodes[node] == m;
    if Conserved(m) {
      EntryStays(s, t, node, m, pod);
    }
  }

  /** The entry of a reported pod it already holds. */
  lemma EntryStays(s: Sys, t: Sys, node: string, m: NodeState, pod: Claim)
    requires Safe(s) && node in s.cache.nodes && pod.uid in s.cache.nodes[node].pods && Conserved(m)
    requires t.cache.nodes == s.cache.nodes[node := m] && t.live == s.live[pod.uid := Placement(node, pod)]
    requires forall u :: u in s.cache.nodes[node].pods && u != pod.uid ==> u in m.pods && m.pods[u] == s.cache.nodes[node].pods[u]
    ensures pod.uid in m.pods && m.pods[pod.uid] == pod && pod.binding.Board? ==> Safe(t)
    ensures Safe(t) ==> pod.uid in m.pods && m.pods[pod.uid] == pod
  {
    if pod.uid in m.pods && m.pods[pod.uid] == pod && pod.binding.Board? {
      forall u | LiveOn(t, u, node) ensures u in m.pods && m.pods[u] == t.live[u].claim {
        if u != pod.uid { assert Recorded(s, u); }
      }
      EntryReplaced(s, t, node, m);
    }
    if Safe(t) {
      assert Recorded(t, pod.uid);
    }
  }

  lemma ReportNew(s: Sys, t: Sys, pod: Claim, node: string)
    requires Safe(s) && pod.binding.Board? && node != "" && node in s.cache.nodes && pod.uid !in s.cache.nodes[node].pods
    requires t == Next(s, PodAdded(pod, node))
    ensures Safe(t) <==> Reportable(s, pod, node)
  {
    hide Node.Conserved, Node.AddPod;
    var n := s.cache.nodes[node];
    if pod.uid in s.cache.pods {
      assert !Recorded(t, pod.uid);
    } else {
      AddKeepsConserved(n, pod, pod.binding.id);
      assert t.cache.nodes == s.cache.nodes[node := AddPod(n, pod).state];
      if Fits(n, pod, pod.binding.id) {
        AddKeepsSafe(s, t, pod, node);
      } else {
        assert node in t.cache.nodes && t.cache.nodes[node] == AddPod(n, pod).state;
      }
    }
  }

  lemma PodAddedSafeExactly(s: Sys, pod: Claim, node: string)
    requires Safe(s)
    ensures Safe(Next(s, PodAdded(pod, node))) <==> Harmless(s, PodAdded(pod, node))
  {
    if pod.binding.Board? && node != "" {
      ReportSafeExactly(s, pod, node);
    } else {
      FewerLive(s, Next(s, PodAdded(pod, node)));
    }
  }

  lemma PodDeletedSafeExactly(s: Sys, pod: Claim, node: string)
    requires Safe(s)
    ensures Safe(Next(s, PodDeleted(pod, node))) <==> Harmless(s, PodDeleted(pod, node))
  {
    var t := Next(s, PodDeleted(pod, node));
    if !pod.binding.Board? || node == "" || node !in s.cache.nodes {
      assert t.cache.nodes == s.cache.nodes;
      FewerLive(s, t);
    } else {
      ReleaseSafeExactly(s, t, pod, node);
    }
  }

  /** A rebuilt entry keeps the system safe exactly when the list is complete and compatible:
      one that drops a live pod, or overlaps, does not. */
  lemma RebuildSafeExactly(s: Sys, t: Sys, node: string, total: Boards, ps: seq<Claim>)
    requires Safe(s) && DistinctUIDs(ps)
    requires t.cache.nodes == s.cache.nodes[node := Rebuild(total, ps)] && t.live == s.live
    ensures Safe(t) <==> Complete(s, node, total, ps)
  {
    RebuildConserved(total, ps);
    if Complete(s, node, total, ps) {
      EntryReplaced(s, t, node, Rebuild(total, ps));
    }
    if Safe(t) {
      assert node in t.cache.nodes && t.cache.nodes[node] == Rebuild(total, ps);
      forall u | LiveOn(s, u, node) ensures u in NodeRebuild.Bound(ps) && NodeRebuild.Bound(ps)[u] == s.live[u].claim {
        assert Recorded(t, u);
      }
    }
  }

  /** The restart path is within the rules: every pod a complete list brought in may be
      reported afterwards, and is live from then on. */
  lemma RebuiltPodsReportable(s: Sys, node: string, total: Boards, ps: seq<Claim>, u: string)
    requires Safe(s) && Complete(s, node, total, ps) && node != ""
    requires u in NodeRebuild.Bound(ps) && u !in s.cache.pods
    ensures var t, pod := Next(s, NodeAdded(node, total, ps)), NodeRebuild.Bound(ps)[u];
            && Harmless(t, PodAdded(pod, node))
            && LiveOn(Next(t, PodAdded(pod, node)), u, node)
  {
    var t, pod, n := Next(s, NodeAdded(node, total, ps)), NodeRebuild.Bound(ps)[u], Rebuild(total, ps);
    RebuildConserved(total, ps);
    DeleteHeld(n, pod);
    HeldReportable(t, pod, node, n);
  }

  lemma HeldReportable(t: Sys, pod: Claim, node: string, n: NodeState)
    requires node in t.cache.nodes && t.cache.nodes[node] == n && pod.binding.Board? && node != ""
    requires pod.uid in n.pods && n.pods[pod.uid] == pod && Covers(n.requested, map[pod.binding.id := pod.orins])
    ensures Harmless(t, PodAdded(pod, node)) && LiveOn(Next(t, PodAdded(pod, node)), pod.uid, node)
  {
  }

  lemma NodeAddedSafeExactly(s: Sys, node: string, total: Boards, ps: seq<Claim>)
    requires Safe(s) && DistinctUIDs(ps)
    ensures Safe(Next(s, NodeAdded(node, total, ps))) <==> Complete(s, node, total, ps)
  {
    RebuildSafeExactly(s, Next(s, NodeAdded(node, total, ps)), node, total, ps);
  }

  /** Likewise an update that changes the capacity; one that does not changes nothing. */
  lemma NodeUpdatedSafeExactly(s: Sys, node: string, oldTotal: Boards, total: Boards, ps: seq<Claim>)
    requires Safe(s) && DistinctUIDs(ps)
    ensures Safe(Next(s, NodeUpdated(node, oldTotal, total, ps))) <==> oldTotal == total || Complete(s, node, total, ps)
  {
    var t := Next(s, NodeUpdated(node, oldTotal, total, ps));
    RebuildListed(oldTotal, ps);
    RebuildListed(total, ps);
    if oldTotal == total {
      FewerLive(s, t);
    } else if Covers(total, NodeRebuild.Recorded(ps)) {
      UpdateIsRebuild(oldTotal, total, ps);
      RebuildSafeExactly(s, t, node, total, ps);
    } else {
      UncoveredUnsafe(s, t, node, oldTotal, total, ps);
    }
  }

  lemma UncoveredUnsafe(s: Sys, t: Sys, node: string, oldTotal: Boards, total: Boards, ps: seq<Claim>)
    requires DistinctUIDs(ps) && !Covers(total, NodeRebuild.Recorded(ps))
    requires t.cache.nodes == s.cache.nodes[node := Updated(oldTotal, total, ps)]
    ensures !Safe(t) && !Complete(s, node, total, ps)
  {
    RebuildListed(oldTotal, ps);
    RebuildListed(total, ps);
    var n := Updated(oldTotal, total, ps);
    if Compatible(total, ps) {
      CompatibleCovers(total, ps);
    }
    if Conserved(n) {
      ConservedCovers(n);
    }
    assert node in t.cache.nodes && t.cache.nodes[node] == n;
  }

  /** Every step, of any thread, keeps the system safe exactly when it is harmless. */
  lemma StepSafeExactly(s: Sys, step: Step)
    requires Safe(s) && ChoicesFit(s) && Enabled(s, step) && Listable(step)
    ensures Safe(Next(s, step)) <==> Harmless(s, step)
    ensures ChoicesFit(Next(s, step))
  {
    ChoicesStayFit(s, step);
    var t := Next(s, step);
    match step
    case Assume(i) => AssumeSafeExactly(s, i);
    case Update(i, ok, fetched) => if ok { FewerLive(s, t); } else { ForgetSafeExactly(s, t, fetched, StageOf(s, i).node); }
    case Bind(i, ok) => if ok { FewerLive(s, t); } else { ForgetSafeExactly(s, t, StageOf(s, i).pod, StageOf(s, i).node); }
    case PodAdded(pod, node) => PodAddedSafeExactly(s, pod, node);
    case PodDeleted(pod, node) => PodDeletedSafeExactly(s, pod, node);
    case NodeAdded(node, total, ps) => NodeAddedSafeExactly(s, node, total, ps);
    case NodeUpdated(node, oldTotal, total, ps) => NodeUpdatedSafeExactly(s, node, oldTotal, total, ps);
    case NodeDeleted(node) => NodeDeletedKeepsSafe(s, t, node);
    case Choose(_, _, _, _, _, _) => FewerLive(s, t);
  }

  lemma NodeDeletedKeepsSafe(s: Sys, t: Sys, node: string)
    requires Safe(s) && t.live == s.live
    requires t.cache.nodes == s.cache.nodes || t.cache.nodes == s.cache.nodes - {node}
    ensures Safe(t)
  {
  }

  // ----- Runs

  /** Any steps of any threads and informers, each enabled where it happens. */
  ghost predicate Run(s: Sys, steps: seq<Step>)
    decreases |steps|
  {
    steps == [] || (Enabled(s, steps[0]) && Listable(steps[0]) && Run(Next(s, steps[0]), steps[1..]))
  }

  ghost function End(s: Sys, steps: seq<Step>): Sys
    requires Run(s, steps)
    decreases |steps|
  {
    if steps == [] then s else End(Next(s, steps[0]), steps[1..])
  }

  ghost predicate AlwaysHarmless(s: Sys, steps: seq<Step>)
    requires Run(s, steps)
    decreases |steps|
  {
    steps == [] || (Harmless(s, steps[0]) && AlwaysHarmless(Next(s, steps[0]), steps[1..]))
  }

  /** Every state of the run, first and last included, is safe. */
  ghost predicate AlwaysSafe(s: Sys, steps: seq<Step>)
    requires Run(s, steps)
    decreases |steps|
  {
    Safe(s) && (steps == [] || AlwaysSafe(Next(s, steps[0]), steps[1..]))
  }

  ghost function Start(): Sys {
    Sys(Cache.EMPTY, map[], map[])
  }

  /** Over every run, however the binds and the informers interleave: it is safe throughout
      exactly when every step was harmless where it happened. */
  lemma {:induction false} RunSafeExactly(s: Sys, steps: seq<Step>)
    requires Safe(s) && ChoicesFit(s) && Run(s, steps)
    ensures AlwaysSafe(s, steps) <==> AlwaysHarmless(s, steps)
    ensures AlwaysHarmless(s, steps) ==> Safe(End(s, steps)) && ChoicesFit(End(s, steps))
    decreases |steps|
  {
    if steps != [] {
      StepSafeExactly(s, steps[0]);
      if Harmless(s, steps[0]) {
        RunSafeExactly(Next(s, steps[0]), steps[1..]);
      } else {
        UnsafeNow(Next(s, steps[0]), steps[1..]);
      }
    }
  }

  lemma UnsafeNow(s: Sys, steps: seq<Step>)
    requires Run(s, steps) && !Safe(s)
    ensures !AlwaysSafe(s, steps)
  {
  }

  /** In particular from the empty cache. At the end of a harmless run no orin is held by two
      live pods, and each live pod of a cached node has all its orins on one board the node
      really has. */
  lemma RunIsSafe(steps: seq<Step>)
    requires Run(Start(), steps)
    ensures AlwaysSafe(Start(), steps) <==> AlwaysHarmless(Start(), steps)
    ensures AlwaysHarmless(Start(), steps) ==>
              var s := End(Start(), steps);
              && Safe(s)
              && (forall u, v, b :: !HeldTwice(s, u, v, b))
              && forall u :: u in s.live && s.live[u].node in s.cache.nodes ==> WithinBoard(s, u)
  {
    RunSafeExactly(Start(), steps);
    if AlwaysHarmless(Start(), steps) {
      var s := End(Start(), steps);
      forall u | u in s.live && s.live[u].node in s.cache.nodes ensures WithinBoard(s, u) {
        assert Recorded(s, u);
        FailsClosed.ConservedFailsClosed(s.cache.nodes[s.live[u].node]);
      }
    }
  }

  /** The pod's board is one of its node's, with all of the pod's orins. */
  ghost predicate WithinBoard(s: Sys, u: string)
    requires u in s.live && s.live[u].node in s.cache.nodes
  {
    var claim, n := s.live[u].claim, s.cache.nodes[s.live[u].node];
    claim.binding.Board? && claim.binding.id in n.total && claim.orins <= n.total[claim.binding.id]
  }
}
