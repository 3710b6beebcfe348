/** Building a node from a list of pods, as `NewNodeInfo` and `UpdateNode` do. */
module NodeRebuild {
  import opened Boards
  import opened Claims
  import opened Node
  import opened NodeRuns

  ghost predicate DistinctUIDs(ps: seq<Claim>) {
    forall i, j :: 0 <= i < j < |ps| ==> ps[i].uid != ps[j].uid
  }

  /** The listed pods that are bound to a board, by UID. */
  function Bound(ps: seq<Claim>): (m: map<string, Claim>)
    ensures forall u :: u in m ==> m[u].uid == u && m[u].binding.Board? && m[u] in ps
  {
    if ps == [] then map[]
    else
      var p := ps[|ps| - 1];
      if p.binding.Board? then Bound(ps[..|ps| - 1])[p.uid := p] else Bound(ps[..|ps| - 1])
  }

  /** The requests written down while the listed pods are added one after the other. */
  function Recorded(ps: seq<Claim>): Boards {
    if ps == [] then map[]
    else
      var p, m := ps[|ps| - 1], Recorded(ps[..|ps| - 1]);
      if p.binding.Board? then m[p.binding.id := At(m, p.binding.id) + p.orins] else m
  }

  lemma NewUID(ps: seq<Claim>)
    requires ps != [] && DistinctUIDs(ps)
    ensures ps[|ps| - 1].uid !in Bound(ps[..|ps| - 1])
    ensures DistinctUIDs(ps[..|ps| - 1])
  {
  }

  lemma {:induction false} RecordedHeld(ps: seq<Claim>, b: int)
    requires DistinctUIDs(ps)
    ensures At(Recorded(ps), b) == HeldBy(Bound(ps), b)
  {
    if ps != [] {
      NewUID(ps);
      RecordedHeld(ps[..|ps| - 1], b);
      if ps[|ps| - 1].binding.Board? {
        HeldByPlaced(Bound(ps[..|ps| - 1]), ps[|ps| - 1], b);
      }
    }
  }

  lemma {:induction false} BoardHolder(ps: seq<Claim>, b: int) returns (u: string)
    requires DistinctUIDs(ps) && b in Recorded(ps)
    ensures u in Bound(ps) && Bound(ps)[u].binding == Board(b)
  {
    var front, p := ps[..|ps| - 1], ps[|ps| - 1];
    NewUID(ps);
    if p.binding == Board(b) {
      u := p.uid;
    } else {
      u := BoardHolder(front, b);
    }
  }

  lemma {:induction false} BoundRecorded(ps: seq<Claim>, u: string)
    requires u in Bound(ps)
    ensures Bound(ps)[u].binding.id in Recorded(ps)
  {
    if u in Bound(ps[..|ps| - 1]) {
      BoundRecorded(ps[..|ps| - 1], u);
    }
  }

  /** The state right after a list of pods was added to an empty node. */
  ghost predicate Listed(t: NodeState, total: Boards, ps: seq<Claim>) {
    && t.total == total
    && t.requested == Recorded(ps)
    && (forall u :: u in t.pods ==> u in Bound(ps) && t.pods[u] == Bound(ps)[u])
    && (Covers(total, t.requested) ==> t.pods == Bound(ps) && t.allocatable == Diff(total, t.requested)
                                       && t.shared == total.Keys - t.requested.Keys)
  }

  lemma DiffNothing(m: Boards)
    ensures Diff(m, map[]) == m
  {
    forall b | b in m ensures Diff(m, map[])[b] == m[b] {
      assert m[b] - {} == m[b];
    }
  }

  /** Requests are recorded before they are checked, so they accumulate whether or not the
      additions succeed, and independently of the node's capacity. */
  lemma {:induction false} RebuildListed(total: Boards, ps: seq<Claim>)
    requires DistinctUIDs(ps)
    ensures Listed(Rebuild(total, ps), total, ps)
    decreases |ps|
  {
    if ps == [] {
      DiffNothing(total);
    } else {
      var front, p := ps[..|ps| - 1], ps[|ps| - 1];
      NewUID(ps);
      RebuildListed(total, front);
      if p.binding.Board? && Covers(total, Recorded(ps)) {
        CoversFewer(total, Recorded(front), p.binding.id, p.orins);
      }
    }
  }

  lemma CoversFewer(total: Boards, m: Boards, b: int, orins: set<int>)
    requires Covers(total, m[b := At(m, b) + orins])
    ensures Covers(total, m)
  {
  }

  /** No listed pod overlaps another, and each fits the node's capacity. */
  ghost predicate Compatible(total: Boards, ps: seq<Claim>) {
    && NoOverlap(Bound(ps))
    && forall u :: u in Bound(ps) ==>
         var p := Bound(ps)[u];
         p.binding.id in total && p.orins <= total[p.binding.id]
  }

  /** A rebuilt node is conserved exactly when the listed pods are compatible; then it holds
      all of them. */
  lemma RebuildConserved(total: Boards, ps: seq<Claim>)
    requires DistinctUIDs(ps)
    ensures Conserved(Rebuild(total, ps)) <==> Compatible(total, ps)
    ensures Compatible(total, ps) ==> Rebuild(total, ps).pods == Bound(ps)
  {
    if Compatible(total, ps) {
      CompatibleConserved(total, ps);
    }
    if Conserved(Rebuild(total, ps)) {
      ConservedCompatible(total, ps);
    }
  }

  lemma CompatibleConserved(total: Boards, ps: seq<Claim>)
    requires DistinctUIDs(ps) && Compatible(total, ps)
    ensures Conserved(Rebuild(total, ps)) && Rebuild(total, ps).pods == Bound(ps)
  {
    var t := Rebuild(total, ps);
    RebuildListed(total, ps);
    CompatibleCovers(total, ps);
    RebuildSound(total, ps);
    forall b ensures Balanced(t, b) {
      RecordedHeld(ps, b);
    }
  }

  lemma ConservedCompatible(total: Boards, ps: seq<Claim>)
    requires DistinctUIDs(ps) && Conserved(Rebuild(total, ps))
    ensures Compatible(total, ps)
  {
    var t := Rebuild(total, ps);
    RebuildListed(total, ps);
    ConservedCovers(t);
    forall u | u in Bound(ps)
      ensures Bound(ps)[u].binding.id in total && Bound(ps)[u].orins <= total[Bound(ps)[u].binding.id]
    {
      BoundRecorded(ps, u);
      OtherHeld(Bound(ps), u, Bound(ps)[u].binding.id);
      RecordedHeld(ps, Bound(ps)[u].binding.id);
    }
  }

  lemma CompatibleCovers(total: Boards, ps: seq<Claim>)
    requires DistinctUIDs(ps) && Compatible(total, ps)
    ensures Covers(total, Recorded(ps))
  {
    forall b | b in Recorded(ps) ensures b in total && Recorded(ps)[b] <= total[b] {
      var u := BoardHolder(ps, b);
      RecordedHeld(ps, b);
      HeldByWithin(Bound(ps), b, total[b]);
    }
  }

  lemma HeldByWithin(pods: map<string, Claim>, b: int, bound: set<int>)
    requires forall u :: u in pods ==> Held(pods[u], b) <= bound
    ensures HeldBy(pods, b) <= bound
  {
  }

  lemma {:induction false} RebuildSound(total: Boards, ps: seq<Claim>)
    ensures Sound(Rebuild(total, ps))
    decreases |ps|
  {
    if ps != [] {
      RebuildSound(total, ps[..|ps| - 1]);
      SoundAlways(Rebuild(total, ps[..|ps| - 1]), ps[|ps| - 1]);
    }
  }

  /** Incremental equals rebuild: after any disciplined run, rebuilding the node from its
      original capacity and its live pods, listed in any order, gives the same node. */
  lemma IncrementalIsRebuild(s: NodeState, ops: seq<Op>, live: seq<Claim>)
    requires Conserved(s) && Disciplined(s, ops)
    requires DistinctUIDs(live) && Bound(live) == Run(s, ops).pods
    ensures SameNode(Run(s, ops), Rebuild(s.total, live))
    ensures Conserved(Rebuild(s.total, live))
  {
    var t := Run(s, ops);
    RunKeepsConserved(s, ops);
    LivePodsCompatible(t, live);
    RebuildConserved(t.total, live);
    RebuildListed(t.total, live);
    DeterminedByPods(t, Rebuild(t.total, live));
  }

  /** In particular for a node as `NewNodeInfo` first makes it, with any parsed capacity. */
  lemma IncrementalFromFresh(total: Boards, ops: seq<Op>, live: seq<Claim>)
    requires Disciplined(Fresh(total), ops)
    requires DistinctUIDs(live) && Bound(live) == Run(Fresh(total), ops).pods
    ensures SameNode(Run(Fresh(total), ops), Rebuild(total, live))
  {
    FreshConserved(total);
    IncrementalIsRebuild(Fresh(total), ops, live);
  }

  lemma LivePodsCompatible(t: NodeState, live: seq<Claim>)
    requires Conserved(t) && Bound(live) == t.pods
    ensures Compatible(t.total, live)
  {
    ConservedCovers(t);
    forall u | u in t.pods ensures t.pods[u].binding.id in t.total && t.pods[u].orins <= t.total[t.pods[u].binding.id] {
      var b := t.pods[u].binding.id;
      assert b in t.requested && Balanced(t, b);
      OtherHeld(t.pods, u, b);
    }
  }

  // ----- UpdateNode

  /** The entry `UpdateNode` stores when the two capacities differ: rebuilt from the new
      node, but with the requests of the rebuild from the old one, and with nothing
      allocatable when the new capacity does not cover those. */
  function Updated(oldTotal: Boards, newTotal: Boards, ps: seq<Claim>): NodeState {
    TakeRequested(Rebuild(newTotal, ps), Rebuild(oldTotal, ps).requested)
  }

  function TakeRequested(n: NodeState, requested: Boards): NodeState {
    if Covers(n.total, requested) then
      NodeState(n.total, requested, Diff(n.total, requested), n.pods, n.total.Keys - requested.Keys)
    else
      NodeState(n.total, requested, map[], n.pods, {})
  }

  /** A node update is a plain rebuild on the new capacity whenever that covers the pods'
      requests; otherwise it is the rebuild with nothing left to allocate. */
  lemma UpdateIsRebuild(oldTotal: Boards, newTotal: Boards, ps: seq<Claim>)
    requires DistinctUIDs(ps)
    ensures var t, n := Updated(oldTotal, newTotal, ps), Rebuild(newTotal, ps);
            if Covers(newTotal, n.requested) then t == n else t == n.(allocatable := map[], shared := {})
  {
    RebuildListed(oldTotal, ps);
    RebuildListed(newTotal, ps);
  }
}
