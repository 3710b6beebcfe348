/** The extender's three calls: `Predicate` as a job for the parallel scan, `Priority`, and
    an uninterrupted `Bind`. */
module Managers {
  import opened Arithmetic
  import opened Options
  import opened Boards
  import opened Claims
  import opened Pods
  import opened NodeInfos
  import opened ScheduleCaches
  import Allocators
  import Cache
  import CacheCalls
  import CacheRuns
  import Node
  import NodeRuns
  import ParallelPredicate
  import Providers
  import Strconv

  const MAX_PRIORITY := 10
  const ATTEMPTS: nat := 3

  // ----- The allocator on a cached node

  /** What the allocator answers for the given free boards. */
  ghost predicate Allocated(free: Boards, orinRequest: set<int>, r: Allocators.AllocatorResult) {
    && Allocators.Answer(free, orinRequest, r.boardID)
    && r.score == if r.boardID == Allocators.BOARD_NOT_FOUND then 0 else 100 - Allocators.FreeOrins(free)
  }

  method AllocateFrom(ni: NodeInfo, orinRequest: set<int>) returns (r: Allocators.AllocatorResult)
    requires ni.Valid()
    ensures Allocated(ni.state.allocatable, orinRequest, r)
  {
    r := Allocators.Allocate(ni.allocatable, orinRequest, ni.state.allocatable);
  }

  /** The allocator on the allocatable boards of a cached node. */
  method AllocateOn(c: ScheduleCache, node: string, orinRequest: set<int>) returns (r: Allocators.AllocatorResult)
    requires c.Valid() && node in c.State().nodes
    ensures Allocated(c.State().nodes[node].allocatable, orinRequest, r)
    ensures c.Valid() && c.Objects() == old(c.Objects()) && c.State() == old(c.State())
  {
    hide NodeInfo.Valid;
    r := AllocateFrom(c.nodeCache[node], orinRequest);
  }

  // ----- Predicate

  predicate HasBoard(c: Cache.CacheState, request: set<int>, name: string) {
    name in c.nodes && Allocators.Fitting(c.nodes[name].allocatable, request) != {}
  }

  /** The node is cached and the allocator may name one of its boards. */
  ghost predicate MayPass(c: Cache.CacheState, request: set<int>, name: string) {
    name in c.nodes && exists b :: b != Allocators.BOARD_NOT_FOUND && Allocators.Answer(c.nodes[name].allocatable, request, b)
  }

  /** The node is not cached or the allocator may answer its sentinel. */
  ghost predicate MayFail(c: Cache.CacheState, request: set<int>, name: string) {
    name in c.nodes ==> Allocators.Answer(c.nodes[name].allocatable, request, Allocators.BOARD_NOT_FOUND)
  }

  function Reason(c: Cache.CacheState, name: string): string {
    if name in c.nodes then name + " has not enough resource" else name + " not found in node cache"
  }

  /** The scan of the named nodes over a snapshot of the cache. */
  ghost function PredicateJob(c: Cache.CacheState, nodes: seq<string>, request: set<int>): ParallelPredicate.Job {
    ParallelPredicate.Job(nodes, name => MayPass(c, request, name), name => MayFail(c, request, name), name => Reason(c, name))
  }

  /** What a worker of `Predicate` finds out about one node. */
  method CheckNode(c: ScheduleCache, nodeName: string, orinRequest: set<int>) returns (fits: bool)
    requires c.Valid()
    ensures var job := PredicateJob(c.State(), [nodeName], orinRequest);
            if fits then job.passes(nodeName) else job.fails(nodeName)
  {
    hide ScheduleCache.Valid, NodeInfo.Valid;
    if nodeName !in c.nodeCache {
      return false;
    }
    var res := AllocateOn(c, nodeName, orinRequest);
    fits := res.boardID != Allocators.BOARD_NOT_FOUND;
  }

  lemma JobAnswered(c: Cache.CacheState, nodes: seq<string>, request: set<int>)
    ensures ParallelPredicate.Answered(PredicateJob(c, nodes, request))
  {
    forall name | name in c.nodes ensures MayPass(c, request, name) || MayFail(c, request, name) {
      var b := Allocators.SomeAnswer(c.nodes[name].allocatable, request);
    }
  }

  /** The moves run the whole scan. */
  ghost predicate Completes(job: ParallelPredicate.Job, moves: seq<(nat, ParallelPredicate.Action)>) {
    && ParallelPredicate.Schedule(job, ParallelPredicate.Start(job), moves)
    && ParallelPredicate.Finished(ParallelPredicate.End(job, ParallelPredicate.Start(job), moves))
  }

  ghost predicate FailsUnder(job: ParallelPredicate.Job, moves: seq<(nat, ParallelPredicate.Action)>, name: string)
    requires Completes(job, moves)
  {
    name in ParallelPredicate.End(job, ParallelPredicate.Start(job), moves).failNodes
  }

  /** A node without a free board for the request fails under every schedule. One with a
      free board passes under every schedule exactly when no best fit of its boards has the
      sentinel's number. */
  lemma PredicateMeansFreeBoard(c: Cache.CacheState, nodes: seq<string>, request: set<int>, name: string)
    requires name in nodes
    ensures var job := PredicateJob(c, nodes, request);
            if HasBoard(c, request, name) then
              (forall moves :: Completes(job, moves) ==> !FailsUnder(job, moves, name))
              <==> !Allocators.BestFit(c.nodes[name].allocatable, request, Allocators.BOARD_NOT_FOUND)
            else forall moves :: Completes(job, moves) ==> FailsUnder(job, moves, name)
  {
    var job := PredicateJob(c, nodes, request);
    forall moves | Completes(job, moves) ensures FailsUnder(job, moves, name) ==> MayFail(c, request, name)
      ensures !FailsUnder(job, moves, name) ==> MayPass(c, request, name)
    {
      FindingsAllowed(c, nodes, request, moves, name);
    }
    if MayFail(c, request, name) {
      var i :| 0 <= i < |nodes| && nodes[i] == name;
      var moves := FailingSchedule(c, nodes, request, i);
    }
  }

  lemma FindingsAllowed(c: Cache.CacheState, nodes: seq<string>, request: set<int>,
                        moves: seq<(nat, ParallelPredicate.Action)>, name: string)
    requires name in nodes && Completes(PredicateJob(c, nodes, request), moves)
    ensures if FailsUnder(PredicateJob(c, nodes, request), moves, name) then MayFail(c, request, name)
            else MayPass(c, request, name)
  {
    var job := PredicateJob(c, nodes, request);
    ParallelPredicate.AnyScheduleMatchesScan(job, moves);
    var t := ParallelPredicate.End(job, ParallelPredicate.Start(job), moves);
    if name in t.failNodes {
      var i: nat :| i in t.failed && ParallelPredicate.NamedAt(job, i, name);
    } else {
      var i :| 0 <= i < |nodes| && nodes[i] == name;
      assert ParallelPredicate.NamedAt(job, i, name);
    }
  }

  lemma FailingSchedule(c: Cache.CacheState, nodes: seq<string>, request: set<int>, i: nat)
    returns (moves: seq<(nat, ParallelPredicate.Action)>)
    requires i < |nodes| && MayFail(c, request, nodes[i])
    ensures Completes(PredicateJob(c, nodes, request), moves) && FailsUnder(PredicateJob(c, nodes, request), moves, nodes[i])
  {
    var job := PredicateJob(c, nodes, request);
    JobAnswered(c, nodes, request);
    ParallelPredicate.StartInv(job);
    moves := ParallelPredicate.SomeScheduleFails(job, ParallelPredicate.Start(job), i);
    ParallelPredicate.AnyScheduleMatchesScan(job, moves);
    assert ParallelPredicate.NamedAt(job, i, nodes[i]);
  }

  /** Every node that failed is listed with the reason that applies to it, and no other. */
  lemma ReasonsGiven(c: Cache.CacheState, nodes: seq<string>, request: set<int>, moves: seq<(nat, ParallelPredicate.Action)>,
                     name: string)
    requires Completes(PredicateJob(c, nodes, request), moves) && FailsUnder(PredicateJob(c, nodes, request), moves, name)
    ensures var job := PredicateJob(c, nodes, request);
            name in nodes
            && ParallelPredicate.End(job, ParallelPredicate.Start(job), moves).failNodes[name]
               == name + if name !in c.nodes then " not found in node cache" else " has not enough resource"
  {
    var job := PredicateJob(c, nodes, request);
    ParallelPredicate.AnyScheduleMatchesScan(job, moves);
    var t := ParallelPredicate.End(job, ParallelPredicate.Start(job), moves);
    var i: nat :| i in t.failed && ParallelPredicate.NamedAt(job, i, name);
  }

  /** A provider file that lists a board -1 is enough: the node it describes has that board
      free, and yet some schedule reports it as full. */
  lemma BoardLikeSentinel() returns (devices: seq<Providers.Device>, node: NodeObject, c: Cache.CacheState,
                                     moves: seq<(nat, ParallelPredicate.Action)>)
    ensures Providers.Published(devices, node.capacity) && c == Cache.AddNode(Cache.EMPTY, node.name, Capacity(node), [])
    ensures HasBoard(c, {1}, node.name)
    ensures var job := PredicateJob(c, [node.name], {1}); Completes(job, moves) && FailsUnder(job, moves, node.name)
  {
    var extra;
    devices, extra := Providers.BoardMinusOne();
    node := NodeObject("n", extra);
    c := Cache.AddNode(Cache.EMPTY, node.name, Capacity(node), []);
    Providers.TotalOfMinusOne(devices, extra, node);
    assert Allocators.BestFit(c.nodes["n"].allocatable, {1}, -1);
    assert [node.name][0] == "n";
    moves := FailingSchedule(c, [node.name], {1}, 0);
  }

  // ----- Priority

  /** Go's integer division truncates toward zero. */
  function Quotient(a: int, b: int): int
    requires b > 0
  {
    if a >= 0 then a / b else -(-a / b)
  }

  function MaxCount(scores: seq<int>): int {
    if scores == [] then 0
    else
      var m, last := MaxCount(scores[..|scores| - 1]), scores[|scores| - 1];
      if last > m then last else m
  }

  function Normalized(maxPriority: int, scores: seq<int>): (r: seq<int>)
    ensures |r| == |scores|
  {
    var m := MaxCount(scores);
    if m <= 0 then scores else seq(|scores|, i requires 0 <= i < |scores| => Quotient(maxPriority * scores[i], m))
  }

  method Normalize(maxPriority: int, scores: array<int>)
    modifies scores
    ensures scores[..] == Normalized(maxPriority, old(scores[..]))
  {
    var maxCount := 0;
    for i := 0 to scores.Length
      invariant maxCount == MaxCount(scores[..i])
    {
      assert scores[..i + 1][..i] == scores[..i];
      if scores[i] > maxCount {
        maxCount := scores[i];
      }
    }
    assert scores[..scores.Length] == scores[..];
    MaxCountAtLeastZero(scores[..]);
    if maxCount == 0 {
      return;
    }
    for i := 0 to scores.Length
      invariant forall k :: 0 <= k < i ==> scores[k] == Quotient(maxPriority * old(scores[k]), maxCount)
      invariant forall k :: i <= k < scores.Length ==> scores[k] == old(scores[k])
    {
      scores[i] := Quotient(maxPriority * scores[i], maxCount);
    }
  }

  lemma {:induction false} MaxCountAtLeastZero(scores: seq<int>)
    ensures MaxCount(scores) >= 0
    ensures forall i :: 0 <= i < |scores| ==> scores[i] <= MaxCount(scores)
    ensures MaxCount(scores) == 0 || MaxCount(scores) in scores
  {
    if scores != [] {
      MaxCountAtLeastZero(scores[..|scores| - 1]);
    }
  }

  lemma QuotientMonotone(a: int, b: int, m: int)
    requires a <= b && m > 0
    ensures Quotient(a, m) <= Quotient(b, m)
  {
    if a >= 0 {
      DivMonotone(a, b, m);
    } else if b < 0 {
      DivMonotone(-b, -a, m);
    } else {
      DivMonotone(0, b, m);
      DivMonotone(0, -a, m);
    }
  }

  lemma DivMonotone(a: int, b: int, m: int)
    requires a <= b && m > 0
    ensures a / m <= b / m
  {
    assert a == m * (a / m) + a % m && b == m * (b / m) + b % m;
    if a / m > b / m {
      TimesMonotone(m, b / m + 1, a / m);
      assert false;
    }
  }

  /** Normalising keeps the order of the scores and sends a positive maximum exactly to the
      maximal priority. */
  lemma NormalizeKeepsOrder(maxPriority: int, scores: seq<int>)
    requires maxPriority >= 0
    ensures var r := Normalized(maxPriority, scores);
            && (forall i, j :: 0 <= i < |scores| && 0 <= j < |scores| && scores[i] <= scores[j] ==> r[i] <= r[j])
            && (forall i :: 0 <= i < |scores| && scores[i] == MaxCount(scores) > 0 ==> r[i] == maxPriority)
            && (MaxCount(scores) > 0 ==> forall i :: 0 <= i < |scores| ==> r[i] <= maxPriority)
  {
    var m, r := MaxCount(scores), Normalized(maxPriority, scores);
    MaxCountAtLeastZero(scores);
    if m > 0 {
      forall i, j | 0 <= i < |scores| && 0 <= j < |scores| && scores[i] <= scores[j] ensures r[i] <= r[j] {
        TimesMonotone(maxPriority, scores[i], scores[j]);
        QuotientMonotone(maxPriority * scores[i], maxPriority * scores[j], m);
      }
      WholeQuotient(maxPriority, m);
      forall i | 0 <= i < |scores| ensures r[i] <= maxPriority {
        TimesMonotone(maxPriority, scores[i], m);
        QuotientMonotone(maxPriority * scores[i], maxPriority * m, m);
      }
    }
  }

  /** What normalising computes: nothing changes without a positive score; otherwise every
      score becomes its share of the largest one, scaled and cut off toward zero. */
  lemma NormalizeScales(maxPriority: int, scores: seq<int>, best: nat)
    requires maxPriority >= 0 && best < |scores| && forall i :: 0 <= i < |scores| ==> scores[i] <= scores[best]
    ensures scores[best] <= 0 ==> Normalized(maxPriority, scores) == scores
    ensures scores[best] > 0 ==>
              forall i :: 0 <= i < |scores| ==> ScaledTo(maxPriority, scores[i], scores[best], Normalized(maxPriority, scores)[i])
  {
    MaxCountAtLeastZero(scores);
    var m := scores[best];
    if m > 0 {
      forall i | 0 <= i < |scores| ensures ScaledTo(maxPriority, scores[i], m, Normalized(maxPriority, scores)[i]) {
        TruncatedQuotient(maxPriority * scores[i], m);
      }
    }
  }

  /** `r` times the largest score is `maxPriority` times the score, up to less than the
      largest score, and `r` is no further from 0. */
  ghost predicate ScaledTo(maxPriority: int, score: int, largest: int, r: int) {
    Truncates(maxPriority * score, largest, r)
  }

  ghost predicate Truncates(a: int, m: int, r: int) {
    if a >= 0 then 0 <= a - m * r < m && r >= 0 else 0 <= m * r - a < m && r <= 0
  }

  lemma TruncatedQuotient(a: int, m: int)
    requires m > 0
    ensures Truncates(a, m, Quotient(a, m))
  {
    if a >= 0 {
      Euclid(a, m);
    } else {
      Euclid(-a, m);
      NegatedProduct(m, -a / m);
    }
  }

  lemma NegatedProduct(x: int, y: int)
    ensures x * -y == -(x * y)
  {
  }

  lemma WholeQuotient(p: int, m: int)
    requires p >= 0 && m > 0
    ensures Quotient(p * m, m) == p
  {
  }

  /** What a node may score before normalising: nothing unless the allocator names a board. */
  ghost predicate MayScore(c: Cache.CacheState, request: set<int>, name: string, score: int) {
    || (MayPass(c, request, name) && score == 100 - Allocators.FreeOrins(c.nodes[name].allocatable))
    || (MayFail(c, request, name) && score == 0)
  }

  ghost predicate RawScores(c: Cache.CacheState, request: set<int>, nodes: seq<string>, raw: seq<int>) {
    |raw| == |nodes| && forall i :: 0 <= i < |nodes| ==> MayScore(c, request, nodes[i], raw[i])
  }

  /** The score of one node before normalising. */
  method ScoreNode(c: ScheduleCache, node: string, orinRequest: set<int>) returns (score: int)
    requires c.Valid()
    ensures MayScore(c.State(), orinRequest, node, score)
    ensures c.Valid() && c.State() == old(c.State())
  {
    hide ScheduleCache.Valid, NodeInfo.Valid;
    if node !in c.nodeCache {
      return 0;
    }
    var res := AllocateOn(c, node, orinRequest);
    return if res.boardID != Allocators.BOARD_NOT_FOUND then res.score else 0;
  }

  method Priority(c: ScheduleCache, nodes: seq<string>, pod: Pod) returns (scores: array<int>, ghost raw: seq<int>)
    requires c.Valid()
    ensures fresh(scores) && RawScores(c.State(), Request(pod), nodes, raw)
    ensures scores[..] == Normalized(MAX_PRIORITY, raw)
  {
    hide ScheduleCache.Valid, ScheduleCache.State, NodeInfo.Valid;
    scores := new int[|nodes|];
    var orinRequest := BuildRequestOrinSet(pod);
    for i := 0 to |nodes|
      invariant c.Valid() && c.State() == old(c.State())
      invariant forall k :: 0 <= k < i ==> MayScore(c.State(), orinRequest, nodes[k], scores[k])
    {
      var score := ScoreNode(c, nodes[i], orinRequest);
      scores[i] := score;
    }
    raw := scores[..];
    Normalize(MAX_PRIORITY, scores);
  }

  /** A node with a free board none of whose best fits has the sentinel's number. */
  ghost predicate Ranked(c: Cache.CacheState, request: set<int>, name: string) {
    HasBoard(c, request, name)
    && !Allocators.BestFit(c.nodes[name].allocatable, request, Allocators.BOARD_NOT_FOUND)
  }

  /** Of two nodes that fit, the one with fewer free orins is never ranked lower, and the best
      one gets the full 10 points if it has fewer than 100 orins free. */
  lemma FullerNodeRanksHigher(c: Cache.CacheState, request: set<int>, nodes: seq<string>, raw: seq<int>, i: nat, j: nat)
    requires RawScores(c, request, nodes, raw) && i < |nodes| && j < |nodes|
    requires Ranked(c, request, nodes[i]) && Ranked(c, request, nodes[j])
    requires Allocators.FreeOrins(c.nodes[nodes[i]].allocatable) <= Allocators.FreeOrins(c.nodes[nodes[j]].allocatable)
    ensures Normalized(MAX_PRIORITY, raw)[i] >= Normalized(MAX_PRIORITY, raw)[j]
    ensures (forall k :: 0 <= k < |raw| ==> raw[k] <= raw[i]) && Allocators.FreeOrins(c.nodes[nodes[i]].allocatable) < 100 ==>
              Normalized(MAX_PRIORITY, raw)[i] == 10
  {
    NormalizeKeepsOrder(MAX_PRIORITY, raw);
    MaxCountAtLeastZero(raw);
  }

  /** A node that cannot run the pod scores nothing, which is more than a node that can, if the
      latter has over 100 orins free. */
  lemma FitBeatsFullExactly(c: Cache.CacheState, request: set<int>, nodes: seq<string>, raw: seq<int>, i: nat, j: nat)
    requires RawScores(c, request, nodes, raw) && i < |nodes| && j < |nodes|
    requires Ranked(c, request, nodes[i]) && !HasBoard(c, request, nodes[j])
    ensures raw[j] == 0
    ensures raw[i] >= raw[j] <==> Allocators.FreeOrins(c.nodes[nodes[i]].allocatable) <= 100
  {
  }

  // ----- Bind

  /** One attempt: the pod as fetched, the allocator's answer, and whether the update of the
      annotated pod succeeded. The board is ignored when nothing was fetched. */
  datatype Try = Try(fetched: Option<Pod>, board: int, updateOk: bool)

  /** The cache after an attempt, and the annotated pod if the attempt returned no error. */
  datatype Progress = Progress(state: Cache.CacheState, newPod: Option<Pod>)

  function AttemptOn(c: Cache.CacheState, node: string, t: Try): Progress {
    if t.fetched.None? || t.board == Allocators.BOARD_NOT_FOUND then Progress(c, None)
    else
      var pod := t.fetched.value;
      var newPod := AddPodBindAnnotation(pod, t.board);
      var assumed := Cache.AssumePod(c, ClaimOf(newPod), node);
      if !assumed.ok then Progress(assumed.state, None)
      else if !t.updateOk then Progress(Cache.ForgetPod(assumed.state, ClaimOf(pod), node).state, None)
      else Progress(assumed.state, Some(newPod))
  }

  /** The attempts one after the other, up to the first that succeeds. */
  function Attempts(c: Cache.CacheState, node: string, tries: seq<Try>): Progress {
    if tries == [] then Progress(c, None)
    else
      var before := Attempts(c, node, tries[..|tries| - 1]);
      if before.newPod.Some? then before else AttemptOn(before.state, node, tries[|tries| - 1])
  }

  /** Every board is what the allocator may answer for the state the attempt met. */
  ghost predicate Truthful(c: Cache.CacheState, node: string, tries: seq<Try>) {
    tries == [] ||
    var front, t := tries[..|tries| - 1], tries[|tries| - 1];
    var before := Attempts(c, node, front).state;
    Truthful(c, node, front) && (t.fetched.Some? ==> Answers(before, node, t.fetched.value, t.board))
  }

  ghost predicate Answers(c: Cache.CacheState, node: string, pod: Pod, board: int) {
    node in c.nodes && Allocators.Answer(c.nodes[node].allocatable, Request(pod), board)
  }

  /** The attempts made follow the API server's answers. */
  ghost predicate Follows(tries: seq<Try>, fetched: seq<Option<Pod>>, updates: seq<bool>) {
    |tries| <= |fetched| == |updates|
    && forall i :: 0 <= i < |tries| ==> tries[i].fetched == fetched[i] && tries[i].updateOk == updates[i]
  }

  /** What is left of the cache once the attempts are over and the API server has answered
      the binding. */
  function Finished(p: Progress, node: string, bindOk: bool): Cache.Reply {
    if p.newPod.None? then Cache.Reply(p.state, false)
    else if bindOk then Cache.Reply(p.state, true)
    else Cache.Reply(Cache.ForgetPod(p.state, ClaimOf(p.newPod.value), node).state, false)
  }

  /** The answers of the API server are parameters: what each of the three attempts fetches,
      whether its update succeeds, and whether the final binding does. No other call comes
      in between. */
  method Bind(c: ScheduleCache, node: string, fetched: seq<Option<Pod>>, updates: seq<bool>, bindOk: bool)
    returns (ok: bool, ghost tries: seq<Try>)
    requires c.Valid() && |fetched| == |updates| == ATTEMPTS
    modifies c, c.Objects()
    ensures c.Valid() && Follows(tries, fetched, updates)
    ensures node !in old(c.State()).nodes ==> !ok && c.State() == old(c.State())
    ensures node in old(c.State()).nodes ==>
              && Truthful(old(c.State()), node, tries)
              && Cache.Reply(c.State(), ok) == Finished(Attempts(old(c.State()), node, tries), node, bindOk)
              && (|tries| == ATTEMPTS || Attempts(old(c.State()), node, tries).newPod.Some?)
  {
    hide ScheduleCache.Valid, ScheduleCache.Objects, NodeInfo.Valid;
    tries, ok := [], false;
    if node !in c.nodeCache {
      return;
    }
    var newPod: Option<Pod> := None;
    var attempt := 0;
    while attempt < ATTEMPTS && newPod.None?
      invariant |tries| == attempt <= ATTEMPTS && Follows(tries, fetched, updates)
      invariant c.Valid() && forall o :: o in c.Objects() ==> o in old(c.Objects()) || fresh(o)
      invariant node in c.State().nodes && Truthful(old(c.State()), node, tries)
      invariant Progress(c.State(), newPod) == Attempts(old(c.State()), node, tries)
    {
      ghost var board := Allocators.BOARD_NOT_FOUND;
      if fetched[attempt].Some? {
        newPod, board := BindPod(c, node, fetched[attempt].value, updates[attempt]);
      }
      ghost var t := Try(fetched[attempt], board, updates[attempt]);
      OneMoreTry(old(c.State()), node, tries, t);
      tries := tries + [t];
      attempt := attempt + 1;
    }
    if newPod.None? {
      return;
    }
    ok := bindOk;
    if !bindOk {
      var forgotten := c.ForgetPod(newPod.value, node);
    }
  }

  lemma OneMoreTry(c: Cache.CacheState, node: string, tries: seq<Try>, t: Try)
    requires Truthful(c, node, tries) && Attempts(c, node, tries).newPod.None?
    requires t.fetched.Some? ==> Answers(Attempts(c, node, tries).state, node, t.fetched.value, t.board)
    ensures Truthful(c, node, tries + [t])
    ensures Attempts(c, node, tries + [t]) == AttemptOn(Attempts(c, node, tries).state, node, t)
  {
  }

  /** One attempt. */
  method BindPod(c: ScheduleCache, node: string, pod: Pod, updateOk: bool) returns (newPod: Option<Pod>, ghost board: int)
    requires c.Valid() && node in c.State().nodes
    modifies c, c.Objects()
    ensures c.Valid() && forall o :: o in c.Objects() ==> o in old(c.Objects()) || fresh(o)
    ensures node in c.State().nodes && Answers(old(c.State()), node, pod, board)
    ensures Progress(c.State(), newPod) == AttemptOn(old(c.State()), node, Try(Some(pod), board, updateOk))
  {
    hide ScheduleCache.Valid, ScheduleCache.State, ScheduleCache.Objects, NodeInfo.Valid;
    var boardID := Choose(c, node, pod);
    board, newPod := boardID, None;
    if boardID == Allocators.BOARD_NOT_FOUND {
      return;
    }
    var annotated := AddPodBindAnnotation(pod, boardID);
    var assumed := c.AssumePod(annotated, node);
    if !assumed {
      return;
    }
    if !updateOk {
      var forgotten := c.ForgetPod(pod, node);
      return;
    }
    newPod := Some(annotated);
  }

  /** The allocator's answer for a pod. */
  method Choose(c: ScheduleCache, node: string, pod: Pod) returns (board: int)
    requires c.Valid() && node in c.State().nodes
    ensures c.Valid() && c.Objects() == old(c.Objects()) && c.State() == old(c.State())
    ensures Answers(c.State(), node, pod, board)
  {
    hide ScheduleCache.Valid, ScheduleCache.State, NodeInfo.Valid;
    var orinRequest := BuildRequestOrinSet(pod);
    var res := AllocateOn(c, node, orinRequest);
    board := res.boardID;
  }

  // ----- What a bind of a pending pod does

  /** How a bind ends: nothing was assumed; the pod was assumed but its update failed, and it
      was then forgotten in vain; the same, but forgotten under an annotation it was fetched
      with, left over from an earlier bind; it is bound; or the API refused the binding and
      the node let the pod go. */
  datatype BindOutcome =
    | NotAssumed
    | Stranded(claim: Claim)
    | ForgottenAs(claim: Claim, fetched: Claim)
    | BoundTo(claim: Claim)
    | GivenBack(claim: Claim)

  /** The claim is the pod's on a best-fitting board, and assuming it succeeds. */
  ghost predicate Assumable(c: Cache.CacheState, node: string, uid: string, claim: Claim) {
    && node in c.nodes && claim.uid == uid && claim.binding.Board?
    && Allocators.BestFit(c.nodes[node].allocatable, claim.orins, claim.binding.id)
    && Cache.AssumePod(c, claim, node).ok
    && Node.Conserved(Cache.AssumePod(c, claim, node).state.nodes[node])
  }

  ghost predicate After(c: Cache.CacheState, d: Cache.CacheState, node: string, uid: string, outcome: BindOutcome) {
    match outcome
    case NotAssumed => d == c
    case Stranded(claim) => Assumable(c, node, uid, claim) && d == Cache.AssumePod(c, claim, node).state
    case ForgottenAs(claim, fetched) =>
      && Assumable(c, node, uid, claim) && fetched.uid == uid && !fetched.binding.Unbound?
      && d == Cache.ForgetPod(Cache.AssumePod(c, claim, node).state, fetched, node).state
      && (SameNode(d, c, node) <==> Undoes(c, node, claim, fetched))
    case BoundTo(claim) => Assumable(c, node, uid, claim) && d == Cache.AssumePod(c, claim, node).state
    case GivenBack(claim) =>
      && Assumable(c, node, uid, claim)
      && d == Cache.ForgetPod(Cache.AssumePod(c, claim, node).state, claim, node).state
      && SameNode(d, c, node)
  }

  ghost predicate SameNode(d: Cache.CacheState, c: Cache.CacheState, node: string) {
    node in d.nodes && node in c.nodes && NodeRuns.SameNode(d.nodes[node], c.nodes[node])
  }

  /** The fetched pod names a board the node has requests on, and occupies there what the
      assumed pod does. */
  ghost predicate Undoes(c: Cache.CacheState, node: string, claim: Claim, fetched: Claim) {
    && node in c.nodes && fetched.binding.Board? && SameHeld(fetched, claim)
    && fetched.binding.id in Node.AddPod(c.nodes[node], claim).state.requested
  }

  /** A pending pod and a conserved node whose board ids are 64-bit numbers. */
  ghost predicate Pending(c: Cache.CacheState, node: string, uid: string, tries: seq<Try>) {
    && node in c.nodes && Node.Conserved(c.nodes[node]) && uid !in c.nodes[node].pods
    && (forall b :: b in c.nodes[node].allocatable ==> Strconv.IsInt64(b))
    && forall t :: t in tries && t.fetched.Some? ==> t.fetched.value.uid == uid
  }

  /** The attempt fetched the pod and was answered a board. */
  ghost predicate GotBoard(t: Try) {
    t.fetched.Some? && t.board != Allocators.BOARD_NOT_FOUND
  }

  /** Attempt `i` is the first to get that far. */
  ghost predicate Decides(tries: seq<Try>, i: nat) {
    i < |tries| && GotBoard(tries[i]) && forall j :: 0 <= j < i ==> !GotBoard(tries[j])
  }

  /** How a bind ends that is decided by the attempt. */
  ghost function Ending(t: Try, bindOk: bool): BindOutcome
    requires GotBoard(t)
  {
    var pod := t.fetched.value;
    var claim := Claim(pod.uid, Board(t.board), Request(pod));
    if t.updateOk then (if bindOk then BoundTo(claim) else GivenBack(claim))
    else if BIND_BOARD in pod.annotations then ForgottenAs(claim, ClaimOf(pod))
    else Stranded(claim)
  }

  /** However the API server answers, the first attempt that fetches a pending pod and is
      answered a board decides how its bind ends; no error is returned exactly when the pod is
      bound. A later attempt never repairs a failed update: the pod stays assumed, or is let go
      under whatever board the fetched pod names. Without such an attempt, or for a pod known
      already, nothing is assumed. */
  lemma BindEnds(c: Cache.CacheState, node: string, uid: string, tries: seq<Try>, bindOk: bool) returns (outcome: BindOutcome)
    requires Pending(c, node, uid, tries) && Truthful(c, node, tries)
    ensures var r := Finished(Attempts(c, node, tries), node, bindOk);
            After(c, r.state, node, uid, outcome) && (r.ok <==> outcome.BoundTo?)
    ensures forall i: nat :: Decides(tries, i) && uid !in c.pods ==> outcome == Ending(tries[i], bindOk)
    ensures uid in c.pods || (forall i :: 0 <= i < |tries| ==> !GotBoard(tries[i])) ==> outcome == NotAssumed
  {
    outcome := AttemptsEnd(c, node, uid, tries);
    if outcome.BoundTo? && !bindOk {
      GiveBackRestores(c, node, uid, tries, outcome.claim);
      outcome := GivenBack(outcome.claim);
    }
  }

  lemma {:induction false} AttemptsEnd(c: Cache.CacheState, node: string, uid: string, tries: seq<Try>)
    returns (outcome: BindOutcome)
    requires Pending(c, node, uid, tries) && Truthful(c, node, tries)
    ensures var p := Attempts(c, node, tries);
            && !outcome.GivenBack? && After(c, p.state, node, uid, outcome)
            && (p.newPod.Some? <==> outcome.BoundTo?)
            && (p.newPod.Some? ==> ClaimOf(p.newPod.value) == outcome.claim)
    ensures forall i: nat :: Decides(tries, i) && uid !in c.pods ==> outcome == Ending(tries[i], true)
    ensures uid in c.pods || (forall i :: 0 <= i < |tries| ==> !GotBoard(tries[i])) ==> outcome == NotAssumed
  {
    if tries == [] {
      outcome := NotAssumed;
    } else {
      var front, t := tries[..|tries| - 1], tries[|tries| - 1];
      outcome := AttemptsEnd(c, node, uid, front);
      assert tries == front + [t];
      DecidedBefore(front, t);
      if !outcome.BoundTo? && GotBoard(t) {
        assert t in tries;
        outcome := AttemptEnds(c, Attempts(c, node, front).state, node, t, tries, outcome);
      }
    }
  }

  /** Nothing happens while no pod is fetched. */
  lemma {:induction false} NothingFetched(c: Cache.CacheState, node: string, tries: seq<Try>)
    requires forall j :: 0 <= j < |tries| ==> tries[j].fetched.None?
    ensures Attempts(c, node, tries) == Progress(c, None)
  {
    if tries != [] {
      NothingFetched(c, node, tries[..|tries| - 1]);
    }
  }

  lemma {:induction false} TruthfulAt(c: Cache.CacheState, node: string, tries: seq<Try>, i: nat)
    requires Truthful(c, node, tries) && i < |tries| && tries[i].fetched.Some?
    ensures Answers(Attempts(c, node, tries[..i]).state, node, tries[i].fetched.value, tries[i].board)
  {
    var front := tries[..|tries| - 1];
    if i < |front| {
      TruthfulAt(c, node, front, i);
      assert front[..i] == tries[..i];
    }
  }

  /** The cache once a bind is decided: the node has taken the pod in, which stays so when the
      pod is bound or when the forget was in vain; or it is as it was before; or the pod was let
      go under the annotation it was fetched with. In every case the pod is known and assumed. */
  ghost predicate Left(c: Cache.CacheState, d: Cache.CacheState, node: string, claim: Claim, pod: Pod, updateOk: bool, bindOk: bool) {
    && d == c.(nodes := d.nodes, pods := c.pods[claim.uid := claim], assumed := c.assumed + {claim.uid})
    && if (updateOk && bindOk) || (!updateOk && BIND_BOARD !in pod.annotations) then CacheCalls.TakenIn(c, d, node, claim)
       else SameNode(d, c, node) <==> updateOk || Undoes(c, node, claim, ClaimOf(pod))
  }

  /** A bind of a pod new to the cache on a node with a board free for it, from the API server's
      answers alone: the first pod fetched is given a best-fitting board, and the bind succeeds
      exactly when its update and the final binding do. */
  lemma BindFollowsAnswers(c: Cache.CacheState, node: string, uid: string, tries: seq<Try>, fetched: seq<Option<Pod>>,
                           updates: seq<bool>, bindOk: bool, i: nat)
    requires Pending(c, node, uid, tries) && uid !in c.pods && Truthful(c, node, tries) && Follows(tries, fetched, updates)
    requires |tries| == |fetched| || Attempts(c, node, tries).newPod.Some?
    requires i < |fetched| && fetched[i].Some? && (forall j :: 0 <= j < i ==> fetched[j].None?)
    requires Ranked(c, Request(fetched[i].value), node)
    ensures i < |tries|
    ensures var pod, r := fetched[i].value, Finished(Attempts(c, node, tries), node, bindOk);
            && Allocators.BestFit(c.nodes[node].allocatable, Request(pod), tries[i].board)
            && (r.ok <==> updates[i] && bindOk)
            && Left(c, r.state, node, Claim(uid, Board(tries[i].board), Request(pod)), pod, updates[i], bindOk)
  {
    hide After, Left, ClaimOf, Request, AttemptOn;
    if |tries| <= i {
      NothingFetched(c, node, tries);
      assert false;
    }
    NothingFetched(c, node, tries[..i]);
    TruthfulAt(c, node, tries, i);
    var outcome := BindEnds(c, node, uid, tries, bindOk);
    assert tries[i] in tries && Decides(tries, i);
    AfterLeft(c, Finished(Attempts(c, node, tries), node, bindOk).state, node, tries[i], bindOk);
  }

  lemma AfterLeft(c: Cache.CacheState, d: Cache.CacheState, node: string, t: Try, bindOk: bool)
    requires GotBoard(t) && node in c.nodes && Node.Conserved(c.nodes[node])
    requires t.fetched.value.uid !in c.pods && t.fetched.value.uid !in c.nodes[node].pods
    requires After(c, d, node, t.fetched.value.uid, Ending(t, bindOk))
    ensures Left(c, d, node, Claim(t.fetched.value.uid, Board(t.board), Request(t.fetched.value)), t.fetched.value, t.updateOk, bindOk)
  {
    hide CacheCalls.TakenIn, NodeRuns.SameNode, Node.Conserved, Node.AddPod, Node.DeletePod, ClaimOf, Request;
    var claim := Claim(t.fetched.value.uid, Board(t.board), Request(t.fetched.value));
    CacheCalls.PodTakenIn(c, claim, node);
  }

  /** What decides among some attempts still decides with one more, and if nothing does, the
      new one may. */
  lemma DecidedBefore(front: seq<Try>, t: Try)
    ensures forall i: nat :: Decides(front + [t], i) <==>
              if i < |front| then Decides(front, i) else i == |front| && GotBoard(t) && forall j :: 0 <= j < |front| ==> !GotBoard(front[j])
    ensures (exists i: nat :: Decides(front, i)) <==> exists j :: 0 <= j < |front| && GotBoard(front[j])
  {
    assert forall j :: 0 <= j < |front| ==> (front + [t])[j] == front[j];
    if j: nat :| j < |front| && GotBoard(front[j]) {
      var i := FirstBoard(front, j);
    }
  }

  lemma {:induction false} FirstBoard(tries: seq<Try>, j: nat) returns (i: nat)
    requires j < |tries| && GotBoard(tries[j])
    ensures Decides(tries, i)
  {
    i := j;
    if k: nat :| k < j && GotBoard(tries[k]) {
      i := FirstBoard(tries, k);
    }
  }

  lemma AttemptEnds(c: Cache.CacheState, d: Cache.CacheState, node: string, t: Try, tries: seq<Try>, before: BindOutcome)
    returns (outcome: BindOutcome)
    requires GotBoard(t) && t in tries
    requires Pending(c, node, t.fetched.value.uid, tries) && Answers(d, node, t.fetched.value, t.board)
    requires !before.BoundTo? && !before.GivenBack? && After(c, d, node, t.fetched.value.uid, before)
    ensures var p := AttemptOn(d, node, t);
            && !outcome.GivenBack? && After(c, p.state, node, t.fetched.value.uid, outcome)
            && (p.newPod.Some? <==> outcome.BoundTo?)
            && (p.newPod.Some? ==> ClaimOf(p.newPod.value) == outcome.claim)
    ensures outcome == if !before.NotAssumed? then before else if t.fetched.value.uid in c.pods then NotAssumed else Ending(t, true)
  {
    var pod := t.fetched.value;
    var claim := ClaimOf(AddPodBindAnnotation(pod, t.board));
    outcome := before;
    if before.NotAssumed? {
      AnnotationRoundTrip(pod, t.board);
      AssumeWorks(c, node, tries, claim, t.board);
      if pod.uid !in c.pods {
        if t.updateOk {
          outcome := BoundTo(claim);
        } else {
          outcome := ForgottenPod(c, node, claim, pod);
        }
      }
    } else {
      StaysKnown(c, node, pod.uid, before, d);
    }
  }

  /** Once assumed, the pod stays known, so no later attempt is accepted. */
  lemma StaysKnown(c: Cache.CacheState, node: string, uid: string, before: BindOutcome, d: Cache.CacheState)
    requires After(c, d, node, uid, before) && (before.Stranded? || before.ForgottenAs?)
    ensures uid in d.pods && node in d.nodes
  {
  }

  lemma ForgottenPod(c: Cache.CacheState, node: string, claim: Claim, pod: Pod) returns (outcome: BindOutcome)
    requires Assumable(c, node, pod.uid, claim) && pod.uid !in c.pods
    requires Node.Conserved(c.nodes[node]) && pod.uid !in c.nodes[node].pods
    ensures outcome == if Annotated(pod) then ForgottenAs(claim, ClaimOf(pod)) else Stranded(claim)
    ensures After(c, Cache.ForgetPod(Cache.AssumePod(c, claim, node).state, ClaimOf(pod), node).state, node, pod.uid, outcome)
  {
    if Annotated(pod) {
      outcome := ForgottenAs(claim, ClaimOf(pod));
      CacheRuns.ForgetUndoesExactly(c, claim, ClaimOf(pod), node, claim.binding.id);
    } else {
      outcome := Stranded(claim);
      ForgetInVain(Cache.AssumePod(c, claim, node).state, pod, node);
    }
  }

  /** A pod without the annotation is never let go. */
  lemma ForgetInVain(c: Cache.CacheState, pod: Pod, node: string)
    requires !Annotated(pod)
    ensures Cache.ForgetPod(c, ClaimOf(pod), node).state == c
  {
  }

  lemma AssumeWorks(c: Cache.CacheState, node: string, tries: seq<Try>, claim: Claim, b: int)
    requires Pending(c, node, claim.uid, tries) && claim.binding == Board(b)
    requires Allocators.BestFit(c.nodes[node].allocatable, claim.orins, b)
    ensures if claim.uid in c.pods then Cache.AssumePod(c, claim, node) == Cache.Reply(c, false)
            else Assumable(c, node, claim.uid, claim)
  {
    Node.AddFits(c.nodes[node], claim, b);
  }

  lemma GiveBackRestores(c: Cache.CacheState, node: string, uid: string, tries: seq<Try>, claim: Claim)
    requires Pending(c, node, uid, tries) && Assumable(c, node, uid, claim)
    ensures var d := Cache.ForgetPod(Cache.AssumePod(c, claim, node).state, claim, node).state;
            node in d.nodes && NodeRuns.SameNode(d.nodes[node], c.nodes[node])
  {
    NodeRuns.AddThenDelete(c.nodes[node], claim, claim.binding.id);
  }
}
