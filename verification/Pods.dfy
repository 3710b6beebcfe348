/** The part of a Kubernetes pod the scheduler reads, and the two things it derives
    from it: the board the pod is bound to and the orins it requests. */
module Pods {
  import opened Options
  import opened Claims
  import opened Iteration
  import Strconv

  const BIND_BOARD := "superedge.io/pod-bind-board"
  const BOARD := "superedge.io/device-board"
  const BOARD_PREFIX := "superedge.io/device-board-"
  const ORIN_PREFIX := "superedge.io/device-orin-"

  datatype Pod = Pod(
    uid: string,
    nodeName: string,
    annotations: map<string, string>,
    labels: map<string, string>,
    containers: seq<map<string, int>>)  // the resource limits of each container

  predicate Annotated(pod: Pod) { BIND_BOARD in pod.annotations }

  /** The board named by the annotation, when there is one and it is a 64-bit number. */
  function BoardOf(pod: Pod): Option<int> {
    if Annotated(pod) then Strconv.ParseInt(pod.annotations[BIND_BOARD]) else None
  }

  function OrinIDFromResourceName(name: string): Option<int> {
    Strconv.ParseInt(Strconv.TrimPrefix(name, ORIN_PREFIX))
  }

  function BoardIDFromResourceName(name: string): Option<int> {
    Strconv.ParseInt(Strconv.TrimPrefix(name, BOARD_PREFIX))
  }

  predicate IsOrinResource(name: string) {
    Strconv.HasPrefix(name, ORIN_PREFIX) && OrinIDFromResourceName(name).Some?
  }

  function RequestOfLimits(limits: map<string, int>): set<int> {
    set name | name in limits && IsOrinResource(name) :: OrinIDFromResourceName(name).value
  }

  /** The orins a pod requests: those named by a limit of any of its containers. */
  function Request(pod: Pod): set<int> {
    RequestOf(pod.containers)
  }

  function RequestOf(containers: seq<map<string, int>>): set<int> {
    if containers == [] then {}
    else RequestOf(containers[..|containers| - 1]) + RequestOfLimits(containers[|containers| - 1])
  }

  function BindingOf(pod: Pod): Binding {
    if !Annotated(pod) then Unbound
    else match BoardOf(pod)
      case None => Malformed
      case Some(b) => Board(b)
  }

  function ClaimOf(pod: Pod): Claim {
    Claim(pod.uid, BindingOf(pod), Request(pod))
  }

  /** The limits have an entry that consists of the orin prefix and a text for the number. */
  ghost predicate NamesOrin(limits: map<string, int>, text: string, o: int) {
    ORIN_PREFIX + text in limits && Strconv.ParseInt(text) == Some(o)
  }

  lemma OrinText(name: string, o: int)
    ensures IsOrinResource(name) && OrinIDFromResourceName(name) == Some(o) <==>
            exists text :: name == ORIN_PREFIX + text && Strconv.ParseInt(text) == Some(o)
  {
    if Strconv.HasPrefix(name, ORIN_PREFIX) {
      assert name == ORIN_PREFIX + name[|ORIN_PREFIX|..];
    }
    forall text | name == ORIN_PREFIX + text ensures Strconv.HasPrefix(name, ORIN_PREFIX) && name[|ORIN_PREFIX|..] == text {
    }
  }

  lemma LimitsMember(limits: map<string, int>, o: int)
    ensures o in RequestOfLimits(limits) <==> exists text :: NamesOrin(limits, text, o)
  {
    if o in RequestOfLimits(limits) {
      var name :| name in limits && IsOrinResource(name) && OrinIDFromResourceName(name).value == o;
      OrinText(name, o);
      var text :| name == ORIN_PREFIX + text && Strconv.ParseInt(text) == Some(o);
      assert NamesOrin(limits, text, o);
    }
    if text :| NamesOrin(limits, text, o) {
      OrinText(ORIN_PREFIX + text, o);
    }
  }

  /** An orin is requested exactly when some container has a limit that is the orin prefix
      followed by its number. */
  lemma {:induction false} RequestMember(containers: seq<map<string, int>>, o: int)
    ensures o in RequestOf(containers) <==> exists c, text :: 0 <= c < |containers| && NamesOrin(containers[c], text, o)
  {
    var n := |containers|;
    if n > 0 {
      var front := containers[..n - 1];
      RequestMember(front, o);
      LimitsMember(containers[n - 1], o);
      if o in RequestOf(front) {
        var c, text :| 0 <= c < |front| && NamesOrin(front[c], text, o);
        assert front[c] == containers[c];
      }
      if o in RequestOfLimits(containers[n - 1]) {
        var text :| NamesOrin(containers[n - 1], text, o);
        assert 0 <= n - 1 < |containers|;
      }
      if c, text :| 0 <= c < |containers| && NamesOrin(containers[c], text, o) && c < n - 1 {
        assert front[c] == containers[c];
      }
    }
  }

  /** A pod with a limit for a 64-bit orin number requests that orin, and one whose limits all
      lack the prefix requests none. */
  lemma NamedIsRequested(pod: Pod, c: nat, o: int)
    requires c < |pod.containers| && Strconv.IsInt64(o) && ORIN_PREFIX + Strconv.FormatInt(o) in pod.containers[c]
    ensures o in Request(pod)
  {
    Strconv.ParseFormat(o);
    assert NamesOrin(pod.containers[c], Strconv.FormatInt(o), o);
    RequestMember(pod.containers, o);
  }

  lemma UnprefixedIsNotRequested(pod: Pod)
    requires forall c, name :: 0 <= c < |pod.containers| && name in pod.containers[c] ==> !Strconv.HasPrefix(name, ORIN_PREFIX)
    ensures Request(pod) == {}
  {
    forall o | o in Request(pod) ensures false {
      RequestMember(pod.containers, o);
      var c, text :| 0 <= c < |pod.containers| && NamesOrin(pod.containers[c], text, o);
      assert Strconv.HasPrefix(ORIN_PREFIX + text, ORIN_PREFIX);
    }
  }

  /** `BuildRequestOrinSet`. */
  method BuildRequestOrinSet(pod: Pod) returns (orinSet: set<int>)
    ensures orinSet == Request(pod)
  {
    orinSet := {};
    for i := 0 to |pod.containers|
      invariant orinSet == RequestOf(pod.containers[..i])
    {
      var limits := pod.containers[i];
      assert pod.containers[..i + 1][..i] == pod.containers[..i];
      var names := limits.Keys;
      ghost var done := {};
      while names != {}
        invariant names + done == limits.Keys && names !! done
        invariant orinSet == RequestOf(pod.containers[..i])
                  + set name | name in done && IsOrinResource(name) :: OrinIDFromResourceName(name).value
        decreases names
      {
        var name := Next(names);
        if Strconv.HasPrefix(name, ORIN_PREFIX) {
          var orinID := OrinIDFromResourceName(name);
          if orinID.Some? {
            orinSet := orinSet + {orinID.value};
          }
        }
        names, done := names - {name}, done + {name};
      }
    }
    assert pod.containers[..|pod.containers|] == pod.containers;
  }

  /** `AddPodBindAnnotation`: a copy that names the board in an annotation and a label. */
  function AddPodBindAnnotation(pod: Pod, board: int): (r: Pod)
    ensures Annotated(r) && r.containers == pod.containers
  {
    var text := Strconv.FormatInt(board);
    pod.(annotations := pod.annotations[BIND_BOARD := text], labels := pod.labels[BIND_BOARD := text])
  }

  /** `RemovePodBindAnnotation`: both entries go, but only when labels and annotations exist. */
  function RemovePodBindAnnotation(pod: Pod): Pod {
    if |pod.labels| == 0 || |pod.annotations| == 0 then pod
    else pod.(annotations := pod.annotations - {BIND_BOARD}, labels := pod.labels - {BIND_BOARD})
  }

  /** The same text is written as annotation and as label, it reads as the board, and nothing
      else of the pod changes; a pod without labels or without annotations keeps what it has
      when they are to be removed. */
  lemma AnnotationWritten(pod: Pod, board: int)
    requires Strconv.IsInt64(board)
    ensures var r := AddPodBindAnnotation(pod, board);
            && BIND_BOARD in r.annotations && BIND_BOARD in r.labels
            && r.annotations[BIND_BOARD] == r.labels[BIND_BOARD] && Strconv.ParseInt(r.labels[BIND_BOARD]) == Some(board)
            && (forall k :: k in r.annotations && k != BIND_BOARD <==> k in pod.annotations && k != BIND_BOARD)
            && (forall k :: k in r.labels && k != BIND_BOARD <==> k in pod.labels && k != BIND_BOARD)
            && (forall k :: k in pod.annotations && k != BIND_BOARD ==> r.annotations[k] == pod.annotations[k])
            && (forall k :: k in pod.labels && k != BIND_BOARD ==> r.labels[k] == pod.labels[k])
            && r == pod.(annotations := r.annotations, labels := r.labels)
    ensures pod.labels == map[] || pod.annotations == map[] ==> RemovePodBindAnnotation(pod) == pod
  {
    hide Strconv.FormatInt, Strconv.ParseInt;
    Strconv.ParseFormat(board);
  }

  /** The annotation written for a board is read back as that board, and the request is
      untouched; removing it again leaves a pod bound to no board. */
  lemma AnnotationRoundTrip(pod: Pod, board: int)
    requires Strconv.IsInt64(board)
    ensures ClaimOf(AddPodBindAnnotation(pod, board)) == Claim(pod.uid, Board(board), Request(pod))
    ensures !Annotated(RemovePodBindAnnotation(AddPodBindAnnotation(pod, board)))
    ensures !Annotated(pod) && BIND_BOARD !in pod.labels ==>
              RemovePodBindAnnotation(AddPodBindAnnotation(pod, board)) == pod
  {
    Strconv.ParseFormat(board);
    var r := AddPodBindAnnotation(pod, board);
    assert BIND_BOARD in r.labels && BIND_BOARD in r.annotations;
    if !Annotated(pod) && BIND_BOARD !in pod.labels {
      assert r.annotations - {BIND_BOARD} == pod.annotations;
      assert r.labels - {BIND_BOARD} == pod.labels;
    }
  }

  /** A pod as its manifest has it: bound to board 2, with limits for orin 3, for something that
      is no orin number, for a board, and for a resource of another kind. */
  lemma ExampleClaim(labels: map<string, string>)
    ensures var limits := map["cpu" := 4, "superedge.io/device-orin-3" := 1, "superedge.io/device-orin-x" := 1,
                              "superedge.io/device-board" := 1];
            ClaimOf(Pod("u", "n", map["superedge.io/pod-bind-board" := "2"], labels, [map[], limits]))
            == Claim("u", Board(2), {3})
  {
    var limits := map["cpu" := 4, "superedge.io/device-orin-3" := 1, "superedge.io/device-orin-x" := 1,
                      "superedge.io/device-board" := 1];
    Strconv.OneDigit('2');
    Strconv.OneDigit('3');
    Strconv.OnlyDigits("x");
    assert ORIN_PREFIX + "3" == "superedge.io/device-orin-3" && ORIN_PREFIX + "x" == "superedge.io/device-orin-x";
    var pod := Pod("u", "n", map["superedge.io/pod-bind-board" := "2"], labels, [map[], limits]);
    forall o ensures o in Request(pod) <==> o == 3 {
      RequestMember(pod.containers, o);
      if o == 3 {
        assert NamesOrin(pod.containers[1], "3", 3);
      }
    }
  }
}
