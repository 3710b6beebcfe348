/** What whole runs of `addPod` and `deletePod` keep, and how an incrementally maintained
    node compares with one rebuilt from the pods it holds. */
module NodeRuns {
  import opened Boards
  import opened Claims
  import opened Node

  /** Two states a caller cannot tell apart: only empty board entries of `requested` and
      the sharing of map objects may differ. */
  ghost predicate SameNode(s: NodeState, t: NodeState) {
    s.total == t.total && s.allocatable == t.allocatable && s.pods == t.pods && SameContents(s.requested, t.requested)
  }

  /** In a conserved state the totals and the pods determine everything else. */
  lemma Determined(s: NodeState, t: NodeState)
    requires Conserved(s) && Conserved(t) && s.total == t.total
    requires forall b :: HeldBy(s.pods, b) == HeldBy(t.pods, b)
    ensures s.allocatable == t.allocatable && SameContents(s.requested, t.requested)
  {
    forall b ensures At(s.requested, b) == At(t.requested, b) && At(s.allocatable, b) == At(t.allocatable, b) {
      assert Balanced(s, b) && Balanced(t, b);
    }
    forall b | b in s.total ensures s.allocatable[b] == t.allocatable[b] {
      assert At(s.allocatable, b) == At(t.allocatable, b);
    }
  }

  lemma DeterminedByPods(s: NodeState, t: NodeState)
    requires Conserved(s) && Conserved(t) && s.total == t.total && s.pods == t.pods
    ensures SameNode(s, t)
  {
    Determined(s, t);
  }

  lemma FreshConserved(total: Boards)
    ensures Conserved(Fresh(total))
  {
  }

  // ----- Adding a pod the node already holds

  lemma ReAddAt(s: NodeState, pod: Claim, b: int, x: int)
    requires Conserved(s) && pod.uid in s.pods && pod.binding == Board(b) && DeletePod(s, pod).ok
    ensures At(Place(DeletePod(s, pod).state, pod, b).state.requested, x) == At(s.requested, x)
    ensures HeldBy(s.pods[pod.uid := pod], x) == HeldBy(s.pods, x) - Held(s.pods[pod.uid], x) + Held(pod, x)
  {
    hide Node.Sound, Node.Balanced, Node.NoOverlap;
    ReleasedAt(s, pod, b, x);
    HeldByPlaced(s.pods - {pod.uid}, pod, x);
    assert (s.pods - {pod.uid})[pod.uid := pod] == s.pods[pod.uid := pod];
  }

  lemma ReAddCovers(s: NodeState, pod: Claim, b: int)
    requires Conserved(s) && pod.uid in s.pods && pod.binding == Board(b) && DeletePod(s, pod).ok
    ensures Covers(s.total, Place(DeletePod(s, pod).state, pod, b).state.requested)
  {
    hide Node.Sound, Node.Balanced, Node.NoOverlap;
    var d := DeletePod(s, pod).state;
    var requested := Place(d, pod, b).state.requested;
    ConservedCovers(s);
    assert d.requested.Keys == s.requested.Keys && b in s.requested by {
      assert b in map[b := pod.orins];
    }
    forall x | x in requested ensures x in s.total && requested[x] <= s.total[x] {
      ReAddAt(s, pod, b, x);
      assert At(requested, x) == At(s.requested, x);
    }
  }

  lemma ReAddSucceeds(s: NodeState, pod: Claim, b: int)
    requires Conserved(s) && pod.uid in s.pods && pod.binding == Board(b) && DeletePod(s, pod).ok
    ensures AddPod(s, pod).ok && AddPod(s, pod).state.total == s.total
    ensures AddPod(s, pod).state.pods == s.pods[pod.uid := pod]
  {
    hide Node.Sound, Node.Balanced, Node.NoOverlap;
    ReleasedAt(s, pod, b, b);
    ReAddCovers(s, pod, b);
    assert (s.pods - {pod.uid})[pod.uid := pod] == s.pods[pod.uid := pod];
  }

  /** Adding a pod again keeps conservation exactly when it occupies what it did before, and
      then it changes nothing; a refusal changes nothing either. */
  lemma ReAddKeepsConserved(s: NodeState, pod: Claim)
    requires Conserved(s) && pod.uid in s.pods && pod.binding.Board?
    ensures !DeletePod(s, pod).ok ==> AddPod(s, pod) == Outcome(s, false)
    ensures DeletePod(s, pod).ok ==> (Conserved(AddPod(s, pod).state) <==> SameHeld(pod, s.pods[pod.uid]))
    ensures DeletePod(s, pod).ok && SameHeld(pod, s.pods[pod.uid]) ==>
              AddPod(s, pod).ok && SameNode(AddPod(s, pod).state, s.(pods := s.pods[pod.uid := pod]))
  {
    DeleteKeepsConserved(s, pod);
    if DeletePod(s, pod).ok {
      var b, d, t, held := pod.binding.id, DeletePod(s, pod).state, AddPod(s, pod).state, s.pods[pod.uid];
      ReAddSucceeds(s, pod, b);
      if SameHeld(pod, held) {
        DeleteSame(s, pod);
        ReleasedAt(s, pod, b, b);
        assert Held(pod, b) == pod.orins;
        assert Fits(d, pod, b);
        AddFits(d, pod, b);
        forall x ensures HeldBy(t.pods, x) == HeldBy(s.pods, x) {
          ReAddAt(s, pod, b, x);
          OtherHeld(s.pods, pod.uid, x);
        }
        Determined(s, t);
      } else if Conserved(t) {
        ReAddSame(s, pod, b);
      }
    }
  }

  lemma ReAddSame(s: NodeState, pod: Claim, b: int)
    requires Conserved(s) && pod.uid in s.pods && pod.binding == Board(b) && DeletePod(s, pod).ok
    requires Conserved(AddPod(s, pod).state)
    ensures SameHeld(pod, s.pods[pod.uid])
  {
    forall x ensures Held(pod, x) == Held(s.pods[pod.uid], x) {
      ReAddSameAt(s, pod, b, x);
    }
  }

  lemma ReAddSameAt(s: NodeState, pod: Claim, b: int, x: int)
    requires Conserved(s) && pod.uid in s.pods && pod.binding == Board(b) && DeletePod(s, pod).ok
    requires Conserved(AddPod(s, pod).state)
    ensures Held(pod, x) == Held(s.pods[pod.uid], x)
  {
    hide Node.Sound, Node.Release, Node.GiveBack, Node.Place, Diff, Covers;
    var t, others := AddPod(s, pod).state, s.pods - {pod.uid};
    ReAddSucceeds(s, pod, b);
    ReAddAt(s, pod, b, x);
    assert Balanced(s, x) && Balanced(t, x);
    OtherHeld(s.pods, pod.uid, x);
    HeldByReleased(s.pods, pod.uid, x);
    OverlapFree(others, t.pods, pod, x);
  }

  // ----- Runs

  datatype Op = Add(pod: Claim) | Delete(pod: Claim)

  ghost function Apply(s: NodeState, op: Op): Outcome {
    match op
    case Add(pod) => AddPod(s, pod)
    case Delete(pod) => DeletePod(s, pod)
  }

  ghost function Run(s: NodeState, ops: seq<Op>): NodeState
    decreases |ops|
  {
    if ops == [] then s else Run(Apply(s, ops[0]).state, ops[1..])
  }

  /** What a caller must see to before an operation: a new pod fits on its board, and a pod
      already held whose request is written down there comes back with what it was added
      with. Operations the node ignores or refuses to start are always allowed. */
  ghost predicate Allowed(s: NodeState, op: Op) {
    var pod := op.pod;
    pod.binding.Board? ==>
      if pod.uid in s.pods then Covers(s.requested, map[pod.binding.id := pod.orins]) ==> SameHeld(pod, s.pods[pod.uid])
      else op.Add? ==> Fits(s, pod, pod.binding.id)
  }

  /** Every operation of the run is allowed in the state it meets. */
  ghost predicate Disciplined(s: NodeState, ops: seq<Op>)
    decreases |ops|
  {
    ops == [] || (Allowed(s, ops[0]) && Disciplined(Apply(s, ops[0]).state, ops[1..]))
  }

  /** Every state of the run, first and last included, is conserved. */
  ghost predicate AlwaysConserved(s: NodeState, ops: seq<Op>)
    decreases |ops|
  {
    Conserved(s) && (ops == [] || AlwaysConserved(Apply(s, ops[0]).state, ops[1..]))
  }

  lemma StepKeepsConserved(s: NodeState, op: Op)
    requires Conserved(s)
    ensures Conserved(Apply(s, op).state) <==> Allowed(s, op)
    ensures Allowed(s, op) ==> Apply(s, op).state.total == s.total
  {
    var pod := op.pod;
    if pod.binding.Board? {
      if pod.uid in s.pods {
        DeleteKeepsConserved(s, pod);
        ReAddKeepsConserved(s, pod);
        if DeletePod(s, pod).ok {
          ReleasedAt(s, pod, pod.binding.id, pod.binding.id);
          ReAddSucceeds(s, pod, pod.binding.id);
        }
      } else if op.Add? {
        AddKeepsConserved(s, pod, pod.binding.id);
      }
    }
  }

  /** Conservation over every run: all states of a run are conserved exactly when every
      operation was allowed where it happened; then the in-place writes of the whole run
      have left the node's capacity alone. */
  lemma {:induction false} RunKeepsConserved(s: NodeState, ops: seq<Op>)
    requires Conserved(s)
    ensures Disciplined(s, ops) <==> AlwaysConserved(s, ops)
    ensures Disciplined(s, ops) ==> Conserved(Run(s, ops)) && Run(s, ops).total == s.total
    decreases |ops|
  {
    if ops != [] {
      var next := Apply(s, ops[0]).state;
      StepKeepsConserved(s, ops[0]);
      if Conserved(next) {
        RunKeepsConserved(next, ops[1..]);
      }
    }
  }

  lemma DeleteHeld(s: NodeState, pod: Claim)
    requires Conserved(s) && pod.binding.Board? && SamePlacement(s, pod)
    ensures DeletePod(s, pod).ok && Conserved(DeletePod(s, pod).state)
    ensures DeletePod(s, pod).state.pods == s.pods - {pod.uid} && DeletePod(s, pod).state.total == s.total
  {
    DeleteKeepsConserved(s, pod);
    ReleasedAt(s, pod, pod.binding.id, 0);
  }

  lemma DeleteUndoes(s: NodeState, t: NodeState, pod: Claim)
    requires Conserved(s) && Conserved(t) && pod.binding.Board?
    requires pod.uid !in s.pods && t.pods == s.pods[pod.uid := pod] && t.total == s.total
    ensures DeletePod(t, pod).ok && Conserved(DeletePod(t, pod).state)
    ensures SameNode(DeletePod(t, pod).state, s)
  {
    assert t.pods[pod.uid] == pod;
    DeleteHeld(t, pod);
    var u := DeletePod(t, pod);
    assert u.state.pods == s.pods by {
      assert t.pods - {pod.uid} == s.pods;
    }
    DeterminedByPods(u.state, s);
  }

  /** Adding a pod and deleting it again is the identity wherever the pod fitted. */
  lemma AddThenDelete(s: NodeState, pod: Claim, b: int)
    requires Conserved(s) && pod.uid !in s.pods && pod.binding == Board(b) && Fits(s, pod, b)
    ensures var added := AddPod(s, pod);
            && added.ok
            && DeletePod(added.state, pod).ok
            && Conserved(DeletePod(added.state, pod).state)
            && SameNode(DeletePod(added.state, pod).state, s)
  {
    AddFits(s, pod, b);
    DeleteUndoes(s, AddPod(s, pod).state, pod);
  }
}
