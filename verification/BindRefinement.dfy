/** `Managers.Bind` is a run of the protocol: what one call does to the cache when nothing comes
    in between is what the steps of one thread do, taken one after the other. */
module BindRefinement {
  import opened Options
  import opened Claims
  import opened Pods
  import Allocators
  import Cache
  import Managers
  import P = BindProtocol
  import Strconv

  lemma {:induction false} RunConcat(s: P.Sys, a: seq<P.Step>, b: seq<P.Step>)
    requires P.Run(s, a) && P.Run(P.End(s, a), b)
    ensures P.Run(s, a + b) && P.End(s, a + b) == P.End(P.End(s, a), b)
    decreases |a|
  {
    if a == [] {
      assert a + b == b;
    } else {
      RunConcat(P.Next(s, a[0]), a[1..], b);
      assert (a + b)[1..] == a[1..] + b;
    }
  }

  lemma OneStep(s: P.Sys, step: P.Step)
    requires P.Enabled(s, step) && P.Listable(step)
    ensures P.Run(s, [step]) && P.End(s, [step]) == P.Next(s, step)
  {
  }

  /** Nothing but the cache, the thread `k` and the live pods may differ. */
  ghost predicate SameThreads(s: P.Sys, t: P.Sys, k: nat) {
    forall i: nat :: i != k ==> P.StageOf(t, i) == P.StageOf(s, i)
  }

  /** Where the thread stands after attempts that left this behind. */
  ghost function StageAfter(p: Managers.Progress, node: string): P.Stage {
    if p.newPod.Some? then P.Annotated(node, ClaimOf(p.newPod.value)) else P.Idle
  }

  lemma SameUID(pod: Pod)
    ensures ClaimOf(pod).uid == pod.uid
  {
  }

  /** The allocator's look at the entry as it is, and the assumption. */
  ghost function Looked(c: Cache.CacheState, k: nat, node: string, claim: Claim): seq<P.Step>
    requires node in c.nodes && claim.binding.Board?
  {
    [P.Choose(k, node, claim.uid, claim.orins, claim.binding.id, c.nodes[node]), P.Assume(k)]
  }

  /** The steps of one attempt: look and assumption if a board was answered, and the update if
      the assumption succeeds. */
  ghost function AttemptSteps(c: Cache.CacheState, k: nat, node: string, t: Managers.Try): seq<P.Step>
    requires t.fetched.Some? ==> Managers.Answers(c, node, t.fetched.value, t.board)
  {
    if !Managers.GotBoard(t) then []
    else
      var pod := t.fetched.value;
      var claim := Claim(pod.uid, Board(t.board), Request(pod));
      Looked(c, k, node, claim)
      + if Cache.AssumePod(c, claim, node).ok then [P.Update(k, t.updateOk, ClaimOf(pod))] else []
  }

  /** Those of all attempts, up to the first that succeeds. */
  ghost function AttemptsSteps(c: Cache.CacheState, k: nat, node: string, tries: seq<Managers.Try>): seq<P.Step>
    requires Managers.Truthful(c, node, tries)
  {
    if tries == [] then []
    else
      var front, before := tries[..|tries| - 1], Managers.Attempts(c, node, tries[..|tries| - 1]);
      AttemptsSteps(c, k, node, front)
      + if before.newPod.Some? then [] else AttemptSteps(before.state, k, node, tries[|tries| - 1])
  }

  /** Those of a whole bind: the binding itself follows a successful attempt. */
  ghost function BindSteps(c: Cache.CacheState, k: nat, node: string, tries: seq<Managers.Try>, bindOk: bool): seq<P.Step>
    requires Managers.Truthful(c, node, tries)
  {
    AttemptsSteps(c, k, node, tries) + if Managers.Attempts(c, node, tries).newPod.Some? then [P.Bind(k, bindOk)] else []
  }

  lemma AttemptIsRun(s: P.Sys, k: nat, node: string, t: Managers.Try)
    requires P.StageOf(s, k).Idle?
    requires t.fetched.Some? ==> Managers.Answers(s.cache, node, t.fetched.value, t.board)
    requires Managers.GotBoard(t) ==> Strconv.IsInt64(t.board)
    ensures P.Run(s, AttemptSteps(s.cache, k, node, t))
    ensures var e, p := P.End(s, AttemptSteps(s.cache, k, node, t)), Managers.AttemptOn(s.cache, node, t);
            e.cache == p.state && P.StageOf(e, k) == StageAfter(p, node) && SameThreads(s, e, k)
  {
    hide ClaimOf, Request, AddPodBindAnnotation, Cache.AssumePod, Cache.ForgetPod, Strconv.IsInt64, Looked;
    if Managers.GotBoard(t) {
      var pod := t.fetched.value;
      AnnotationRoundTrip(pod, t.board);
      SameUID(pod);
      var claim := Claim(pod.uid, Board(t.board), Request(pod));
      LookAndAssume(s, k, node, claim);
      var steps := Looked(s.cache, k, node, claim);
      if Cache.AssumePod(s.cache, claim, node).ok {
        var update := P.Update(k, t.updateOk, ClaimOf(pod));
        OneStep(P.End(s, steps), update);
        RunConcat(s, steps, [update]);
      } else {
        assert steps + [] == steps;
      }
    }
  }

  lemma LookAndAssume(s: P.Sys, k: nat, node: string, claim: Claim)
    requires P.StageOf(s, k).Idle? && node in s.cache.nodes && claim.binding.Board?
    requires claim.binding.id != Allocators.BOARD_NOT_FOUND
    requires Allocators.BestFit(s.cache.nodes[node].allocatable, claim.orins, claim.binding.id)
    ensures P.Run(s, Looked(s.cache, k, node, claim))
    ensures var e, r := P.End(s, Looked(s.cache, k, node, claim)), Cache.AssumePod(s.cache, claim, node);
            && e.cache == r.state && SameThreads(s, e, k)
            && P.StageOf(e, k) == if r.ok then P.Assumed(node, claim) else P.Idle
  {
    hide Cache.AssumePod;
    var look := P.Choose(k, node, claim.uid, claim.orins, claim.binding.id, s.cache.nodes[node]);
    OneStep(s, look);
    OneStep(P.Next(s, look), P.Assume(k));
    RunConcat(s, [look], [P.Assume(k)]);
    assert [look] + [P.Assume(k)] == Looked(s.cache, k, node, claim);
  }

  lemma {:induction false} AttemptsAreRun(s: P.Sys, k: nat, node: string, tries: seq<Managers.Try>)
    requires P.StageOf(s, k).Idle? && Managers.Truthful(s.cache, node, tries)
    requires forall t :: t in tries && Managers.GotBoard(t) ==> Strconv.IsInt64(t.board)
    ensures P.Run(s, AttemptsSteps(s.cache, k, node, tries))
    ensures var e, p := P.End(s, AttemptsSteps(s.cache, k, node, tries)), Managers.Attempts(s.cache, node, tries);
            e.cache == p.state && P.StageOf(e, k) == StageAfter(p, node) && SameThreads(s, e, k)
  {
    hide P.Next, P.Enabled, Managers.AttemptOn, Managers.Answers, ClaimOf, AttemptSteps;
    if tries != [] {
      var front, t := tries[..|tries| - 1], tries[|tries| - 1];
      var steps := AttemptsSteps(s.cache, k, node, front);
      AttemptsAreRun(s, k, node, front);
      if Managers.Attempts(s.cache, node, front).newPod.None? {
        assert t in tries;
        AttemptIsRun(P.End(s, steps), k, node, t);
        RunConcat(s, steps, AttemptSteps(P.End(s, steps).cache, k, node, t));
      } else {
        assert steps + [] == steps;
      }
    }
  }

  /** A whole bind is just these steps of one thread, taken one after the other: they are a run,
      leave the same cache, and end bound exactly when no error is returned. So whatever holds
      of every run of the protocol holds of every call of `Bind`. */
  lemma BindIsRun(s: P.Sys, k: nat, node: string, tries: seq<Managers.Try>, bindOk: bool)
    requires P.StageOf(s, k).Idle? && Managers.Truthful(s.cache, node, tries)
    requires forall t :: t in tries && Managers.GotBoard(t) ==> Strconv.IsInt64(t.board)
    ensures P.Run(s, BindSteps(s.cache, k, node, tries, bindOk))
    ensures var e, r := P.End(s, BindSteps(s.cache, k, node, tries, bindOk)),
                        Managers.Finished(Managers.Attempts(s.cache, node, tries), node, bindOk);
            e.cache == r.state && (r.ok <==> P.StageOf(e, k).Bound?) && SameThreads(s, e, k)
  {
    hide AttemptsSteps;
    var steps := AttemptsSteps(s.cache, k, node, tries);
    AttemptsAreRun(s, k, node, tries);
    var p, e := Managers.Attempts(s.cache, node, tries), P.End(s, steps);
    if p.newPod.Some? {
      OneStep(e, P.Bind(k, bindOk));
      RunConcat(s, steps, [P.Bind(k, bindOk)]);
    } else {
      assert steps + [] == steps;
    }
  }
}
