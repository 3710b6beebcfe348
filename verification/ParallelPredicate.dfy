/** `Predicate` under `Parallelize`: worker goroutines take node indices from a closed
    channel, reserve result slots with an atomic counter and write them, or record a failed
    node under a lock. A schedule is any sequence of worker steps; the cache is a fixed
    snapshot meanwhile. */
module ParallelPredicate {
  const WORKERS: nat := 16

  datatype Worker = Waiting | Working(i: nat) | Writing(i: nat, slot: nat) | Exited

  /** `next` is the head of the channel; `slots` remembers which index reserved which slot
      and `failed` which indices failed. */
  datatype Scan = Scan(
    next: nat,
    workers: seq<Worker>,
    filtered: seq<string>,
    failNodes: map<string, string>,
    slots: seq<nat>,
    failed: set<nat>)

  datatype Action = Take | Exit | Fail | Reserve | Write

  /** What is scanned: the node names, and for each whether the allocator may name a board
      and whether it may name none. Where both may happen, a worker's finding depends on the
      order in which the allocator meets equally good boards. */
  datatype Job = Job(nodes: seq<string>, passes: string -> bool, fails: string -> bool, reason: string -> string)

  /** The allocator always answers. */
  ghost predicate Answered(job: Job) {
    forall name :: name in job.nodes ==> job.passes(name) || job.fails(name)
  }

  /** Its answer never depends on the order. */
  ghost predicate Decided(job: Job) {
    forall name :: name in job.nodes ==> (job.fails(name) <==> !job.passes(name))
  }

  function Start(job: Job): Scan {
    var n := |job.nodes|;
    Scan(0, seq(if n < WORKERS then n else WORKERS, _ => Waiting), seq(n, _ => ""), map[], [], {})
  }

  ghost predicate Enabled(job: Job, s: Scan, w: nat, a: Action) {
    w < |s.workers| &&
    match a
    case Take => s.workers[w].Waiting? && s.next < |job.nodes|
    case Exit => s.workers[w].Waiting? && s.next >= |job.nodes|
    case Fail => s.workers[w].Working? && s.workers[w].i < |job.nodes| && job.fails(job.nodes[s.workers[w].i])
    case Reserve => s.workers[w].Working? && s.workers[w].i < |job.nodes| && job.passes(job.nodes[s.workers[w].i])
    case Write => s.workers[w].Writing? && s.workers[w].i < |job.nodes| && s.workers[w].slot < |s.filtered|
  }

  ghost function Step(job: Job, s: Scan, w: nat, a: Action): Scan
    requires Enabled(job, s, w, a)
  {
    match a
    case Take => s.(next := s.next + 1, workers := s.workers[w := Working(s.next)])
    case Exit => s.(workers := s.workers[w := Exited])
    case Fail =>
      var i := s.workers[w].i;
      s.(failNodes := s.failNodes[job.nodes[i] := job.reason(job.nodes[i])], failed := s.failed + {i},
         workers := s.workers[w := Waiting])
    case Reserve =>
      var i := s.workers[w].i;
      s.(slots := s.slots + [i], workers := s.workers[w := Writing(i, |s.slots|)])
    case Write =>
      var Writing(i, slot) := s.workers[w];
      s.(filtered := s.filtered[slot := job.nodes[i]], workers := s.workers[w := Waiting])
  }

  /** Index `i` was taken and is being examined by worker `w`. */
  ghost predicate Examines(s: Scan, w: nat, i: nat) {
    w < |s.workers| && s.workers[w] == Working(i)
  }

  ghost predicate Fills(s: Scan, w: nat, slot: nat) {
    w < |s.workers| && s.workers[w].Writing? && s.workers[w].slot == slot
  }

  /** Every index taken so far is with exactly one worker, or has a slot, or has failed. */
  ghost predicate Accounted(job: Job, s: Scan) {
    && s.next <= |job.nodes|
    && (forall i: nat :: i < s.next ==> i in s.slots || i in s.failed || exists w: nat :: Examines(s, w, i))
    && (forall i :: i in s.slots ==> i < s.next && job.passes(job.nodes[i]) && i !in s.failed)
    && (forall i :: i in s.failed ==> i < s.next && job.fails(job.nodes[i]))
    && (forall w: nat, i: nat :: Examines(s, w, i) ==> i < s.next && i !in s.slots && i !in s.failed)
    && (forall v: nat, w: nat, i: nat :: Examines(s, v, i) && Examines(s, w, i) ==> v == w)
    && (forall j, k :: 0 <= j < k < |s.slots| ==> s.slots[j] != s.slots[k])
  }

  /** Slots are written at most once, each by the worker that reserved it. */
  ghost predicate Written(job: Job, s: Scan) {
    && |s.filtered| == |job.nodes| && |s.slots| <= |s.filtered|
    && (forall w :: 0 <= w < |s.workers| && s.workers[w].Writing? ==>
          s.workers[w].slot < |s.slots| && s.slots[s.workers[w].slot] == s.workers[w].i)
    && (forall v: nat, w: nat, slot: nat :: Fills(s, v, slot) && Fills(s, w, slot) ==> v == w)
    && (forall k :: 0 <= k < |s.slots| && s.slots[k] < |job.nodes| ==>
          s.filtered[k] == job.nodes[s.slots[k]] || (s.filtered[k] == "" && exists w: nat :: Fills(s, w, k)))
    && (forall k :: |s.slots| <= k < |s.filtered| ==> s.filtered[k] == "")
  }

  ghost predicate FailedAs(job: Job, s: Scan, i: nat, name: string) {
    i in s.failed && i < |job.nodes| && job.nodes[i] == name
  }

  ghost predicate FailuresRecorded(job: Job, s: Scan) {
    && (forall i :: i in s.failed ==> i < |job.nodes| && job.nodes[i] in s.failNodes)
    && (forall name :: name in s.failNodes ==> s.failNodes[name] == job.reason(name) && exists i :: FailedAs(job, s, i, name))
  }

  ghost predicate Inv(job: Job, s: Scan) {
    && Accounted(job, s) && Written(job, s) && FailuresRecorded(job, s)
    && |s.workers| == (if |job.nodes| < WORKERS then |job.nodes| else WORKERS)
    && (forall w :: 0 <= w < |s.workers| && s.workers[w].Exited? ==> s.next == |job.nodes|)
  }

  lemma StartInv(job: Job)
    ensures Inv(job, Start(job))
  {
  }

  lemma {:induction false} DistinctBelow(slots: seq<nat>, n: nat)
    requires forall j, k :: 0 <= j < k < |slots| ==> slots[j] != slots[k]
    requires forall i :: i in slots ==> i < n
    ensures |slots| <= n
  {
    assert |slots| > 0 ==> slots[0] in slots;
    if n > 0 {
      if k :| 0 <= k < |slots| && slots[k] == n - 1 {
        var rest := slots[..k] + slots[k + 1..];
        forall i | i in rest ensures i < n - 1 {
          assert i in slots;
        }
        DistinctBelow(rest, n - 1);
      } else {
        forall i | i in slots ensures i < n - 1 {
        }
        DistinctBelow(slots, n - 1);
      }
    }
  }

  lemma TakeKeepsInv(job: Job, s: Scan, w: nat)
    requires Inv(job, s) && Enabled(job, s, w, Take)
    ensures Inv(job, Step(job, s, w, Take))
  {
    var t := Step(job, s, w, Take);
    forall v: nat, i: nat ensures Examines(t, v, i) <==> if v == w then i == s.next else Examines(s, v, i) {
    }
    assert Examines(t, w, s.next);
    forall v: nat, slot: nat ensures Fills(t, v, slot) <==> Fills(s, v, slot) {
    }
    forall name, i: nat ensures FailedAs(job, t, i, name) <==> FailedAs(job, s, i, name) {
    }
  }

  lemma ExitKeepsInv(job: Job, s: Scan, w: nat)
    requires Inv(job, s) && Enabled(job, s, w, Exit)
    ensures Inv(job, Step(job, s, w, Exit))
  {
    var t := Step(job, s, w, Exit);
    forall v: nat, i: nat ensures Examines(t, v, i) <==> Examines(s, v, i) {
    }
    forall v: nat, slot: nat ensures Fills(t, v, slot) <==> Fills(s, v, slot) {
    }
    forall name, i: nat ensures FailedAs(job, t, i, name) <==> FailedAs(job, s, i, name) {
    }
  }

  lemma FailKeepsInv(job: Job, s: Scan, w: nat)
    requires Inv(job, s) && Enabled(job, s, w, Fail)
    ensures Inv(job, Step(job, s, w, Fail))
  {
    var t, j := Step(job, s, w, Fail), s.workers[w].i;
    assert Examines(s, w, j);
    forall v: nat, i: nat ensures Examines(t, v, i) <==> v != w && Examines(s, v, i) {
    }
    forall v: nat, slot: nat ensures Fills(t, v, slot) <==> Fills(s, v, slot) {
    }
    forall name | name in t.failNodes ensures exists i :: FailedAs(job, t, i, name) {
      if name == job.nodes[j] {
        assert FailedAs(job, t, j, name);
      } else {
        var i :| FailedAs(job, s, i, name);
        assert FailedAs(job, t, i, name);
      }
    }
  }

  lemma ReserveKeepsInv(job: Job, s: Scan, w: nat)
    requires Inv(job, s) && Enabled(job, s, w, Reserve)
    ensures Inv(job, Step(job, s, w, Reserve))
  {
    var t, j := Step(job, s, w, Reserve), s.workers[w].i;
    assert Examines(s, w, j);
    forall v: nat, i: nat ensures Examines(t, v, i) <==> v != w && Examines(s, v, i) {
    }
    forall v: nat, slot: nat ensures Fills(t, v, slot) <==> if v == w then slot == |s.slots| else Fills(s, v, slot) {
    }
    assert Fills(t, w, |s.slots|);
    DistinctBelow(t.slots, |job.nodes|);
    forall name, i: nat ensures FailedAs(job, t, i, name) <==> FailedAs(job, s, i, name) {
    }
  }

  lemma WriteKeepsInv(job: Job, s: Scan, w: nat)
    requires Inv(job, s) && Enabled(job, s, w, Write)
    ensures Inv(job, Step(job, s, w, Write))
  {
    var t := Step(job, s, w, Write);
    assert Fills(s, w, s.workers[w].slot);
    forall v: nat, i: nat ensures Examines(t, v, i) <==> Examines(s, v, i) {
    }
    forall v: nat, slot: nat ensures Fills(t, v, slot) <==> v != w && Fills(s, v, slot) {
    }
    forall name, i: nat ensures FailedAs(job, t, i, name) <==> FailedAs(job, s, i, name) {
    }
  }

  lemma StepKeepsInv(job: Job, s: Scan, w: nat, a: Action)
    requires Inv(job, s) && Enabled(job, s, w, a)
    ensures Inv(job, Step(job, s, w, a))
  {
    match a
    case Take => TakeKeepsInv(job, s, w);
    case Exit => ExitKeepsInv(job, s, w);
    case Fail => FailKeepsInv(job, s, w);
    case Reserve => ReserveKeepsInv(job, s, w);
    case Write => WriteKeepsInv(job, s, w);
  }

  // ----- Schedules

  ghost predicate Schedule(job: Job, s: Scan, moves: seq<(nat, Action)>)
    decreases |moves|
  {
    moves == [] || (Enabled(job, s, moves[0].0, moves[0].1)
                    && Schedule(job, Step(job, s, moves[0].0, moves[0].1), moves[1..]))
  }

  ghost function End(job: Job, s: Scan, moves: seq<(nat, Action)>): Scan
    requires Schedule(job, s, moves)
    decreases |moves|
  {
    if moves == [] then s else End(job, Step(job, s, moves[0].0, moves[0].1), moves[1..])
  }

  /** All goroutines are done and `Wait` returns. */
  ghost predicate Finished(s: Scan) {
    forall w :: 0 <= w < |s.workers| ==> s.workers[w].Exited?
  }

  /** The loop that visits the first `n` nodes one after the other and drops the given
      indices. */
  function Passing(job: Job, failed: set<nat>, n: nat): seq<string>
    requires n <= |job.nodes|
  {
    if n == 0 then [] else Passing(job, failed, n - 1) + if n - 1 in failed then [] else [job.nodes[n - 1]]
  }

  /** The indices whose nodes do not pass. */
  function Failing(job: Job): set<nat> {
    set i: nat | i < |job.nodes| && !job.passes(job.nodes[i])
  }

  lemma {:induction false} EndInv(job: Job, s: Scan, moves: seq<(nat, Action)>)
    requires Inv(job, s) && Schedule(job, s, moves)
    ensures Inv(job, End(job, s, moves))
    decreases |moves|
  {
    if moves != [] {
      StepKeepsInv(job, s, moves[0].0, moves[0].1);
      EndInv(job, Step(job, s, moves[0].0, moves[0].1), moves[1..]);
    }
  }

  ghost function Names(job: Job, slots: seq<nat>): seq<string> {
    seq(|slots|, k requires 0 <= k < |slots| => if slots[k] < |job.nodes| then job.nodes[slots[k]] else "")
  }

  ghost predicate StaysAt(job: Job, failed: set<nat>, i: nat, n: nat) {
    i < n <= |job.nodes| && i !in failed
  }

  ghost predicate Distinct(slots: seq<nat>) {
    forall j, k :: 0 <= j < k < |slots| ==> slots[j] != slots[k]
  }

  lemma {:induction false} SlotsPermute(job: Job, failed: set<nat>, slots: seq<nat>, n: nat)
    requires n <= |job.nodes| && Distinct(slots)
    requires forall i: nat :: i in slots <==> StaysAt(job, failed, i, n)
    ensures multiset(Names(job, slots)) == multiset(Passing(job, failed, n))
    decreases n
  {
    if n == 0 {
      assert slots == [] by { FirstMember(slots); }
      assert Names(job, slots) == [];
    } else if StaysAt(job, failed, n - 1, n) {
      var rest := Without(job, slots, n - 1);
      SlotsPermute(job, failed, rest, n - 1);
    } else {
      SlotsPermute(job, failed, slots, n - 1);
    }
  }

  lemma FirstMember(slots: seq<nat>)
    ensures slots == [] || slots[0] in slots
  {
  }

  lemma Without(job: Job, slots: seq<nat>, x: nat) returns (rest: seq<nat>)
    requires Distinct(slots) && x in slots && x < |job.nodes|
    ensures Distinct(rest) && forall i: nat :: i in rest <==> i in slots && i != x
    ensures multiset(Names(job, slots)) == multiset(Names(job, rest)) + multiset{job.nodes[x]}
  {
    var k :| 0 <= k < |slots| && slots[k] == x;
    rest := slots[..k] + slots[k + 1..];
    WithoutMembers(slots, k);
    NamesWithout(job, slots, k);
  }

  lemma WithoutMembers(slots: seq<nat>, k: nat)
    requires Distinct(slots) && k < |slots|
    ensures var rest := slots[..k] + slots[k + 1..];
            Distinct(rest) && forall i: nat :: i in rest <==> i in slots && i != slots[k]
  {
  }

  lemma NamesWithout(job: Job, slots: seq<nat>, k: nat)
    requires k < |slots| && slots[k] < |job.nodes|
    ensures multiset(Names(job, slots))
            == multiset(Names(job, slots[..k] + slots[k + 1..])) + multiset{job.nodes[slots[k]]}
  {
    var names, front, back := Names(job, slots), Names(job, slots[..k]), Names(job, slots[k + 1..]);
    assert Names(job, slots[..k] + slots[k + 1..]) == front + back;
    assert names == front + [job.nodes[slots[k]]] + back;
    OneOut(front, job.nodes[slots[k]], back);
  }

  lemma OneOut(front: seq<string>, x: string, back: seq<string>)
    ensures multiset(front + [x] + back) == multiset(front + back) + multiset{x}
  {
  }

  /** The result of a scan in which the given indices failed: the first slots are a
      permutation of the other nodes in their order, the rest are empty strings, and the
      failed nodes are recorded with their reasons. */
  ghost predicate ResultOf(job: Job, t: Scan, failed: set<nat>) {
    && |t.filtered| == |job.nodes| && |t.slots| <= |t.filtered|
    && multiset(t.filtered[..|t.slots|]) == multiset(Passing(job, failed, |job.nodes|))
    && (forall k :: |t.slots| <= k < |t.filtered| ==> t.filtered[k] == "")
    && (forall name :: name in t.failNodes <==> exists i: nat :: i in failed && NamedAt(job, i, name))
    && (forall name :: name in t.failNodes ==> t.failNodes[name] == job.reason(name))
  }

  ghost predicate NamedAt(job: Job, i: nat, name: string) {
    i < |job.nodes| && job.nodes[i] == name
  }

  /** Under every schedule, once all workers are done, each index was processed exactly once
      and the result is that of a sequential scan with the same findings: every index either
      failed, as the allocator may have it, or passed, as it may. */
  lemma AnyScheduleMatchesScan(job: Job, moves: seq<(nat, Action)>)
    requires Schedule(job, Start(job), moves) && Finished(End(job, Start(job), moves))
    ensures var t := End(job, Start(job), moves);
            && ResultOf(job, t, t.failed)
            && (forall i: nat :: i < |job.nodes| ==> if i in t.failed then job.fails(job.nodes[i]) else job.passes(job.nodes[i]))
    ensures Decided(job) ==> ResultOf(job, End(job, Start(job), moves), Failing(job))
  {
    var t := End(job, Start(job), moves);
    StartInv(job);
    EndInv(job, Start(job), moves);
    AllTaken(job, t);
    FinishedResult(job, t);
    if Decided(job) {
      assert t.failed == Failing(job);
    }
  }

  lemma FinishedResult(job: Job, t: Scan)
    requires Inv(job, t) && Finished(t)
    ensures ResultOf(job, t, t.failed)
  {
    AllTaken(job, t);
    SlotsPermute(job, t.failed, t.slots, |job.nodes|);
    assert t.filtered[..|t.slots|] == Names(job, t.slots);
    FailuresNamed(job, t);
  }

  lemma FailuresNamed(job: Job, t: Scan)
    requires FailuresRecorded(job, t)
    ensures forall name :: name in t.failNodes <==> exists i: nat :: i in t.failed && NamedAt(job, i, name)
  {
    forall name | name in t.failNodes ensures exists i: nat :: i in t.failed && NamedAt(job, i, name) {
      var i :| FailedAs(job, t, i, name);
      assert i in t.failed && NamedAt(job, i, name);
    }
  }

  lemma AllTaken(job: Job, t: Scan)
    requires Inv(job, t) && Finished(t)
    ensures forall i: nat :: i in t.slots <==> i < |job.nodes| && i !in t.failed
    ensures forall i :: i in t.failed ==> i < |job.nodes|
    ensures forall k :: 0 <= k < |t.slots| ==> t.slots[k] < |job.nodes| && t.filtered[k] == job.nodes[t.slots[k]]
  {
    assert t.next == |job.nodes| by {
      if |job.nodes| > 0 { assert t.workers[0].Exited?; }
    }
    assert forall w: nat, i: nat :: !Examines(t, w, i) && !Fills(t, w, i);
    forall k | 0 <= k < |t.slots| ensures t.slots[k] < |job.nodes| {
      assert t.slots[k] in t.slots;
    }
  }

  // ----- Progress

  function Weight(w: Worker): nat {
    match w
    case Waiting => 1
    case Working(_) => 3
    case Writing(_, _) => 2
    case Exited => 0
  }

  function TotalWeight(ws: seq<Worker>): nat {
    if ws == [] then 0 else TotalWeight(ws[..|ws| - 1]) + Weight(ws[|ws| - 1])
  }

  lemma {:induction false} WeightUpdated(ws: seq<Worker>, w: nat, x: Worker)
    requires w < |ws|
    ensures TotalWeight(ws[w := x]) == TotalWeight(ws) - Weight(ws[w]) + Weight(x)
  {
    var n := |ws| - 1;
    if w < n {
      WeightUpdated(ws[..n], w, x);
      assert ws[w := x][..n] == ws[..n][w := x];
    } else {
      assert ws[w := x][..n] == ws[..n];
    }
  }

  ghost function Remaining(job: Job, s: Scan): int {
    4 * (|job.nodes| - s.next) + TotalWeight(s.workers)
  }

  /** Every step brings the end nearer, and there is a step until all workers are done: the
      scan terminates under every schedule and never blocks. */
  lemma Progress(job: Job, s: Scan)
    requires Inv(job, s) && Answered(job)
    ensures forall w: nat, a :: Enabled(job, s, w, a) ==> 0 <= Remaining(job, Step(job, s, w, a)) < Remaining(job, s)
    ensures Finished(s) || exists w: nat, a :: Enabled(job, s, w, a)
  {
    forall w: nat, a | Enabled(job, s, w, a) ensures 0 <= Remaining(job, Step(job, s, w, a)) < Remaining(job, s) {
      WeightUpdated(s.workers, w, Step(job, s, w, a).workers[w]);
      assert Step(job, s, w, a).workers == s.workers[w := Step(job, s, w, a).workers[w]];
    }
    if w :| 0 <= w < |s.workers| && !s.workers[w].Exited? {
      match s.workers[w]
      case Waiting => assert Enabled(job, s, w, Take) || Enabled(job, s, w, Exit);
      case Working(i) =>
        assert Examines(s, w, i);
        assert Enabled(job, s, w, Fail) || Enabled(job, s, w, Reserve);
      case Writing(i, slot) =>
        assert s.slots[slot] in s.slots;
        assert Enabled(job, s, w, Write);
    }
  }

  /** No schedule is longer than four steps a node and one a worker. */
  lemma {:induction false} ScheduleBounded(job: Job, s: Scan, moves: seq<(nat, Action)>)
    requires Inv(job, s) && Answered(job) && Schedule(job, s, moves)
    ensures |moves| <= Remaining(job, s)
    decreases |moves|
  {
    if moves != [] {
      var (w, a) := moves[0];
      Progress(job, s);
      StepKeepsInv(job, s, w, a);
      ScheduleBounded(job, Step(job, s, w, a), moves[1..]);
    }
  }

  /** Whatever the allocator may answer for one index, some schedule gets that answer and
      comes to its end. */
  lemma {:induction false} SomeScheduleFails(job: Job, s: Scan, i: nat) returns (moves: seq<(nat, Action)>)
    requires Inv(job, s) && Answered(job) && i < |job.nodes| && job.fails(job.nodes[i]) && i !in s.slots
    ensures Schedule(job, s, moves) && Finished(End(job, s, moves)) && i in End(job, s, moves).failed
    decreases Remaining(job, s)
  {
    Progress(job, s);
    if Finished(s) {
      AllTaken(job, s);
      moves := [];
    } else {
      var w: nat, a :| Enabled(job, s, w, a);
      if a.Reserve? && s.workers[w].i == i {
        a := Fail;
      }
      StepKeepsInv(job, s, w, a);
      var rest := SomeScheduleFails(job, Step(job, s, w, a), i);
      moves := [(w, a)] + rest;
      assert moves[1..] == rest;
    }
  }
}
