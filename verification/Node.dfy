/** One node's bookkeeping as a value, and what `NodeInfo.addPod` and `NodeInfo.deletePod`
    do to it. `shared` lists the boards whose allocatable orins are held in the very map
    object that also holds the board's total, so that a write to one is a write to both. */
module Node {
  import opened Boards
  import opened Claims

  datatype NodeState = NodeState(
    total: Boards,
    requested: Boards,
    allocatable: Boards,
    pods: map<string, Claim>,
    shared: set<int>)

  /** The state an operation leaves behind, and whether it returned no error. */
  datatype Outcome = Outcome(state: NodeState, ok: bool)

  function Fresh(total: Boards): NodeState {
    NodeState(total, map[], total, map[], total.Keys)
  }

  /** `deletePod`: works from the claim of the pod it is passed, not the one it stored. */
  function DeletePod(s: NodeState, pod: Claim): Outcome {
    if pod.binding.Unbound? then Outcome(s, true)
    else if pod.uid !in s.pods then Outcome(s, false)
    else match pod.binding
      case Board(b) =>
        if Covers(s.requested, map[b := pod.orins]) then Outcome(Release(s, pod.uid, b, pod.orins), true)
        else Outcome(s, false)
      case _ => Outcome(s, true)
  }

  function Release(s: NodeState, uid: string, b: int, orins: set<int>): NodeState {
    GiveBack(s.(requested := Diff(s.requested, map[b := orins])), uid, b, orins)
  }

  /** The orins are written into the board's allocatable map, through which they also reach
      its total where the two share one. */
  function GiveBack(s: NodeState, uid: string, b: int, orins: set<int>): NodeState {
    s.(total := if b in s.shared then s.total[b := At(s.total, b) + orins] else s.total,
       allocatable := s.allocatable[b := At(s.allocatable, b) + orins],
       pods := s.pods - {uid})
  }

  /** `addPod`: a pod already held is released first; then the request is recorded, and
      only afterwards is it checked against the total. */
  function AddPod(s: NodeState, pod: Claim): Outcome {
    match pod.binding
    case Board(b) =>
      var released := if pod.uid in s.pods then DeletePod(s, pod) else Outcome(s, true);
      if released.ok then Place(released.state, pod, b) else released
    case _ => Outcome(s, true)
  }

  function Place(s: NodeState, pod: Claim, b: int): Outcome {
    var requested := s.requested[b := At(s.requested, b) + pod.orins];
    if Covers(s.total, requested) then
      Outcome(NodeState(s.total, requested, Diff(s.total, requested), s.pods[pod.uid := pod],
                        s.total.Keys - requested.Keys), true)
    else
      Outcome(s.(requested := requested), false)
  }

  /** `NewNodeInfo` after the capacity is parsed: every pod is added, errors ignored. */
  function Rebuild(total: Boards, pods: seq<Claim>): NodeState {
    if pods == [] then Fresh(total)
    else AddPod(Rebuild(total, pods[..|pods| - 1]), pods[|pods| - 1]).state
  }

  // ----- Conservation

  /** The orins of board `b` that the given pods occupy. */
  ghost function HeldBy(pods: map<string, Claim>, b: int): set<int> {
    set u, o | u in pods && o in Held(pods[u], b) :: o
  }

  ghost predicate NoOverlap(pods: map<string, Claim>) {
    forall u, v, b :: u in pods && v in pods && u != v ==> Held(pods[u], b) !! Held(pods[v], b)
  }

  /** Board `b`'s orins are split between requested and allocatable, and the requested
      ones are those of the node's pods. */
  ghost predicate Balanced(s: NodeState, b: int) {
    && At(s.requested, b) !! At(s.allocatable, b)
    && At(s.requested, b) + At(s.allocatable, b) == At(s.total, b)
    && At(s.requested, b) == HeldBy(s.pods, b)
  }

  /** Every board is balanced and no two pods share an orin. */
  ghost predicate Conserved(s: NodeState) {
    && s.allocatable.Keys == s.total.Keys
    && s.requested.Keys <= s.total.Keys
    && (forall b :: Balanced(s, b))
    && NoOverlap(s.pods)
    && Sound(s)
  }

  /** Holds in every state the operations can reach, errors included (see `SoundAlways`). */
  ghost predicate Sound(s: NodeState) {
    && (forall u :: u in s.pods ==> s.pods[u].binding.Board? && s.pods[u].uid == u)
    && (forall u :: u in s.pods ==> s.pods[u].binding.id in s.requested && s.pods[u].binding.id !in s.shared)
    && (forall b :: b in s.shared ==> b in s.total && b in s.allocatable && s.total[b] == s.allocatable[b])
  }

  ghost predicate Fits(s: NodeState, pod: Claim, b: int) {
    b in s.allocatable && pod.orins <= s.allocatable[b]
  }

  /** The pod was last added with the same board and the same request. */
  ghost predicate SamePlacement(s: NodeState, pod: Claim) {
    pod.uid in s.pods && s.pods[pod.uid].binding == pod.binding && s.pods[pod.uid].orins == pod.orins
  }

  lemma SoundAlways(s: NodeState, pod: Claim)
    requires Sound(s)
    ensures Sound(DeletePod(s, pod).state)
    ensures Sound(AddPod(s, pod).state)
  {
    SoundRelease(s, pod);
    if pod.binding.Board? {
      var released := if pod.uid in s.pods then DeletePod(s, pod) else Outcome(s, true);
      SoundPlace(released.state, pod, pod.binding.id);
    }
  }

  /** Which map objects are shared: a deletion writes into those there are and parts none; a
      successful addition leaves just the boards without requests with a common map, and one
      that fails leaves the sharing as it was. */
  lemma SharedAfter(s: NodeState, pod: Claim)
    ensures DeletePod(s, pod).state.shared == s.shared
    ensures var r := AddPod(s, pod);
            r.state.shared == if r.ok && pod.binding.Board? then r.state.total.Keys - r.state.requested.Keys else s.shared
  {
  }

  lemma SoundRelease(s: NodeState, pod: Claim)
    requires Sound(s)
    ensures Sound(DeletePod(s, pod).state)
  {
  }

  lemma SoundPlace(s: NodeState, pod: Claim, b: int)
    requires Sound(s) && pod.binding == Board(b)
    ensures Sound(Place(s, pod, b).state)
  {
  }

  lemma HeldByPlaced(pods: map<string, Claim>, pod: Claim, b: int)
    requires pod.uid !in pods
    ensures HeldBy(pods[pod.uid := pod], b) == HeldBy(pods, b) + Held(pod, b)
  {
    var after := pods[pod.uid := pod];
    forall o | o in HeldBy(pods, b) ensures o in HeldBy(after, b) {
      var u :| u in pods && o in Held(pods[u], b);
      assert after[u] == pods[u];
    }
    forall o | o in Held(pod, b) ensures o in HeldBy(after, b) {
      assert o in Held(after[pod.uid], b);
    }
  }

  lemma HeldByReleased(pods: map<string, Claim>, uid: string, b: int)
    requires uid in pods && NoOverlap(pods)
    ensures HeldBy(pods - {uid}, b) == HeldBy(pods, b) - Held(pods[uid], b)
  {
    var after := pods - {uid};
    forall o | o in HeldBy(pods, b) - Held(pods[uid], b) ensures o in HeldBy(after, b) {
      var u :| u in pods && o in Held(pods[u], b);
      assert u in after && after[u] == pods[u];
    }
    forall o | o in HeldBy(after, b) ensures o in HeldBy(pods, b) && o !in Held(pods[uid], b) {
      var u :| u in after && o in Held(after[u], b);
      assert Held(pods[u], b) !! Held(pods[uid], b);
    }
  }

  lemma OtherHeld(pods: map<string, Claim>, u: string, b: int)
    requires u in pods
    ensures Held(pods[u], b) <= HeldBy(pods, b)
  {
    forall o | o in Held(pods[u], b) ensures o in HeldBy(pods, b) {
    }
  }

  lemma ConservedCovers(s: NodeState)
    requires Conserved(s)
    ensures Covers(s.total, s.requested)
    ensures s.allocatable == Diff(s.total, s.requested)
  {
    forall b | b in s.requested ensures s.requested[b] <= s.total[b] {
      assert Balanced(s, b);
    }
    forall b | b in s.total ensures s.allocatable[b] == s.total[b] - At(s.requested, b) {
      assert Balanced(s, b);
    }
  }

  /** Adding a pod the node does not hold keeps conservation exactly when the board is one
      of the node's and the request is free on it; then it succeeds. */
  lemma AddKeepsConserved(s: NodeState, pod: Claim, b: int)
    requires Conserved(s) && pod.uid !in s.pods && pod.binding == Board(b)
    ensures Conserved(AddPod(s, pod).state) <==> Fits(s, pod, b)
    ensures Fits(s, pod, b) ==> AddPod(s, pod).ok && AddPod(s, pod).state.pods == s.pods[pod.uid := pod]
                                && AddPod(s, pod).state.total == s.total
  {
    if Fits(s, pod, b) {
      AddFits(s, pod, b);
    } else if Conserved(AddPod(s, pod).state) {
      AddFitted(s, pod, b);
    }
  }

  /** What an addition of a new pod answers and leaves: it is refused only for want of
      capacity, overlaps not being looked for, and its request stays written down either
      way. A binding that names no board is ignored. */
  lemma AddAnswers(s: NodeState, pod: Claim)
    requires Conserved(s) && pod.uid !in s.pods
    ensures var r := AddPod(s, pod);
            if !pod.binding.Board? then r == Outcome(s, true)
            else
              && (r.ok <==> pod.binding.id in s.total && pod.orins <= s.total[pod.binding.id])
              && r.state.total == s.total
              && (forall x :: At(r.state.requested, x) == At(s.requested, x) + Held(pod, x))
              && r.state.pods == (if r.ok then s.pods[pod.uid := pod] else s.pods)
              && (forall x :: At(r.state.allocatable, x) == At(s.allocatable, x) - if r.ok then Held(pod, x) else {})
  {
    hide Sound, NoOverlap, HeldBy;
    if pod.binding.Board? {
      var b, t := pod.binding.id, AddPod(s, pod).state;
      ConservedCovers(s);
      forall x ensures At(t.allocatable, x) == At(s.allocatable, x) - if AddPod(s, pod).ok then Held(pod, x) else {} {
        assert Balanced(s, x);
      }
    }
  }

  lemma AddFitted(s: NodeState, pod: Claim, b: int)
    requires Conserved(s) && pod.uid !in s.pods && pod.binding == Board(b)
    requires Conserved(AddPod(s, pod).state)
    ensures Fits(s, pod, b)
  {
    var t := AddPod(s, pod).state;
    ConservedCovers(t);
    assert Balanced(s, b) && Balanced(t, b);
    assert t.pods == s.pods[pod.uid := pod];
    OverlapFree(s.pods, t.pods, pod, b);
  }

  lemma OverlapFree(before: map<string, Claim>, after: map<string, Claim>, pod: Claim, b: int)
    requires pod.uid !in before && after == before[pod.uid := pod] && NoOverlap(after)
    ensures Held(pod, b) !! HeldBy(before, b)
  {
    forall o | o in HeldBy(before, b) ensures o !in Held(pod, b) {
      var u :| u in before && o in Held(before[u], b);
      assert Held(after[u], b) !! Held(after[pod.uid], b);
    }
  }

  lemma AddFits(s: NodeState, pod: Claim, b: int)
    requires Conserved(s) && pod.uid !in s.pods && pod.binding == Board(b) && Fits(s, pod, b)
    ensures AddPod(s, pod).ok && Conserved(AddPod(s, pod).state)
    ensures AddPod(s, pod).state.pods == s.pods[pod.uid := pod] && AddPod(s, pod).state.total == s.total
  {
    var t := AddPod(s, pod).state;
    ConservedCovers(s);
    assert Balanced(s, b);
    assert AddPod(s, pod).ok;
    forall x ensures Balanced(t, x) {
      PlacedBalance(s, pod, b, x);
    }
    PlacedApart(s, pod, b);
    SoundAlways(s, pod);
  }

  lemma PlacedBalance(s: NodeState, pod: Claim, b: int, x: int)
    requires Balanced(s, x) && Balanced(s, b) && pod.uid !in s.pods && pod.binding == Board(b) && Fits(s, pod, b)
    requires AddPod(s, pod).ok
    ensures Balanced(AddPod(s, pod).state, x)
  {
    HeldByPlaced(s.pods, pod, x);
  }

  lemma PlacedApart(s: NodeState, pod: Claim, b: int)
    requires Conserved(s) && pod.uid !in s.pods && pod.binding == Board(b) && Fits(s, pod, b)
    ensures NoOverlap(s.pods[pod.uid := pod])
  {
    var after := s.pods[pod.uid := pod];
    forall u, x | u in s.pods ensures Held(s.pods[u], x) !! Held(pod, x) {
      OtherHeld(s.pods, u, x);
      assert Balanced(s, x);
    }
    forall u, v, x | u in after && v in after && u != v ensures Held(after[u], x) !! Held(after[v], x) {
    }
  }

  lemma ReleasedAt(s: NodeState, pod: Claim, b: int, x: int)
    requires Conserved(s) && pod.uid in s.pods && pod.binding == Board(b) && DeletePod(s, pod).ok
    ensures var t := DeletePod(s, pod).state;
            && t.total == s.total
            && At(t.requested, x) == At(s.requested, x) - Held(pod, x)
            && At(t.allocatable, x) == At(s.allocatable, x) + Held(pod, x)
            && Held(pod, x) <= At(s.requested, x)
            && HeldBy(t.pods, x) == HeldBy(s.pods, x) - Held(s.pods[pod.uid], x)
  {
    assert Balanced(s, b) && Balanced(s, x);
    assert map[b := pod.orins][b] <= s.requested[b];
    HeldByReleased(s.pods, pod.uid, x);
    if b in s.shared {
      assert s.total[b] == s.allocatable[b];
      assert pod.orins == {};
      assert At(s.total, b) + pod.orins == s.total[b];
      assert s.total[b := s.total[b]] == s.total;
    }
  }

  /** A successful release keeps conservation exactly when the pod passed in occupies what
      the pod that was added occupies; an unsuccessful one changes nothing. */
  lemma DeleteKeepsConserved(s: NodeState, pod: Claim)
    requires Conserved(s) && pod.uid in s.pods && pod.binding.Board?
    ensures !DeletePod(s, pod).ok ==> DeletePod(s, pod).state == s
    ensures DeletePod(s, pod).ok ==> (Conserved(DeletePod(s, pod).state) <==> SameHeld(pod, s.pods[pod.uid]))
    ensures SamePlacement(s, pod) ==> DeletePod(s, pod).ok
    ensures DeletePod(s, pod).ok ==> DeletePod(s, pod).state.pods == s.pods - {pod.uid}
  {
    var b := pod.binding.id;
    var held := s.pods[pod.uid];
    if SamePlacement(s, pod) {
      OtherHeld(s.pods, pod.uid, b);
      assert Balanced(s, b);
    }
    if DeletePod(s, pod).ok {
      var t := DeletePod(s, pod).state;
      if SameHeld(pod, held) {
        DeleteSame(s, pod);
      }
      if Conserved(t) {
        forall x ensures Held(pod, x) == Held(held, x) {
          OtherHeld(s.pods, pod.uid, x);
          ReleasedAt(s, pod, b, x);
          assert Balanced(s, x) && Balanced(t, x);
        }
      }
    }
  }

  lemma DeleteSame(s: NodeState, pod: Claim)
    requires Conserved(s) && pod.uid in s.pods && pod.binding.Board? && DeletePod(s, pod).ok
    requires SameHeld(pod, s.pods[pod.uid])
    ensures Conserved(DeletePod(s, pod).state)
  {
    var t, b := DeletePod(s, pod).state, pod.binding.id;
    forall x ensures Balanced(t, x) {
      ReleasedAt(s, pod, b, x);
      assert Balanced(s, x);
    }
    ReleasedAt(s, pod, b, b);
    assert NoOverlap(t.pods);
    SoundAlways(s, pod);
  }
}
