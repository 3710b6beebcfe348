/** `BinpackAllocator`: the board that covers a request with the fewest orins to spare. */
module Allocators {
  import opened Options
  import opened Boards
  import opened Iteration
  import opened Topo

  const BOARD_NOT_FOUND := -1

  datatype AllocatorResult = AllocatorResult(score: int, boardID: int)

  /** The boards whose free orins include the request. */
  function Fitting(canAlloc: Boards, request: set<int>): set<int> {
    set b | b in canAlloc && request <= canAlloc[b]
  }

  /** No other fitting board has fewer free orins. */
  ghost predicate BestFit(canAlloc: Boards, request: set<int>, b: int) {
    b in Fitting(canAlloc, request) && forall c :: c in Fitting(canAlloc, request) ==> |canAlloc[b]| <= |canAlloc[c]|
  }

  /** The board id that may be answered for a request. */
  ghost predicate Answer(v: Boards, request: set<int>, b: int) {
    if Fitting(v, request) == {} then b == BOARD_NOT_FOUND else BestFit(v, request, b)
  }

  /** The free orins of the given boards, as (board, orin) pairs. */
  ghost function PairsOf(m: Boards, boards: set<int>): set<(int, int)> {
    set b, o | b in boards && b in m && o in m[b] :: (b, o)
  }

  /** How many orins are free on the whole node. */
  ghost function FreeOrins(m: Boards): nat {
    |PairsOf(m, m.Keys)|
  }

  lemma {:induction false} PairCount(b: int, orins: set<int>)
    ensures |set o | o in orins :: (b, o)| == |orins|
    decreases |orins|
  {
    if orins == {} {
      assert (set o | o in orins :: (b, o)) == {};
    } else {
      var x := Pick(orins);
      PairCount(b, orins - {x});
      assert (set o | o in orins :: (b, o)) == (set o | o in orins - {x} :: (b, o)) + {(b, x)};
    }
  }

  lemma OneMoreBoard(m: Boards, boards: set<int>, b: int)
    requires b in m && b !in boards
    ensures |PairsOf(m, boards + {b})| == |PairsOf(m, boards)| + |m[b]|
  {
    PairCount(b, m[b]);
    var own := set o | o in m[b] :: (b, o);
    assert PairsOf(m, boards + {b}) == PairsOf(m, boards) + own;
    assert PairsOf(m, boards) !! own;
  }

  /** The free orins of a node are counted board by board. */
  lemma FreeOrinsAddUp(m: Boards, b: int, orins: set<int>)
    ensures FreeOrins(map[]) == 0
    ensures b !in m ==> FreeOrins(m[b := orins]) == FreeOrins(m) + |orins|
  {
    assert PairsOf(map[], {}) == {};
    if b !in m {
      OneMoreBoard(m[b := orins], m.Keys, b);
      assert PairsOf(m[b := orins], m.Keys) == PairsOf(m, m.Keys);
      assert m[b := orins].Keys == m.Keys + {b};
    }
  }

  /** Packing: a board all of whose free orins are requested is preferred to any with orins to
      spare, and in general a smaller board to a larger one that contains it. */
  lemma TightestFirst(v: Boards, request: set<int>, b: int, c: int)
    requires BestFit(v, request, b) && c in v && request <= v[c]
    ensures v[c] == request ==> v[b] == request
    ensures !(v[c] < v[b])
  {
    assert c in Fitting(v, request);
    if v[c] == request {
      SubsetSize(request, v[b]);
    }
    if v[c] < v[b] {
      SubsetSize(v[c], v[b]);
    }
  }

  lemma SubsetSize(a: set<int>, b: set<int>)
    requires a <= b
    ensures |a| <= |b| && (|a| == |b| ==> a == b)
  {
    assert b == a + (b - a);
  }

  /** The best board among those seen so far. */
  ghost predicate Leading(v: Boards, request: set<int>, seen: set<int>, boardID: int, score: Option<int>) {
    match score
    case None => boardID == BOARD_NOT_FOUND && forall b :: b in seen && b in v ==> !(request <= v[b])
    case Some(n) =>
      && boardID in v && request <= v[boardID] && |v[boardID]| == n
      && forall b :: b in seen && b in v && request <= v[b] ==> n <= |v[b]|
  }

  lemma LeadingIsBest(v: Boards, request: set<int>, boardID: int, score: Option<int>)
    requires Leading(v, request, v.Keys, boardID, score)
    ensures Answer(v, request, boardID)
  {
    assert score.Some? ==> boardID in Fitting(v, request);
    if Fitting(v, request) != {} {
      var b := Pick(Fitting(v, request));
      assert b in v.Keys;
    }
  }

  /** For any order in which the boards are visited: a best fit and a score that depends only
      on how many orins the node has free, or the sentinel and 0. A best-fitting board whose
      id is itself -1 is taken for the sentinel. `v` is what `canAlloc` contains. */
  method Allocate(canAlloc: BoardDetails, orinRequest: set<int>, ghost v: Boards) returns (r: AllocatorResult)
    requires canAlloc.Shows(v)
    ensures Answer(v, orinRequest, r.boardID)
    ensures r.score == if r.boardID == BOARD_NOT_FOUND then 0 else 100 - FreeOrins(v)
  {
    var bestFitBoardID := BOARD_NOT_FOUND;
    var bestFitBoardScore: Option<int> := None;  // math.MaxInt: above the size of any map
    var left := canAlloc.m.Keys;
    while left != {}
      invariant left <= v.Keys
      invariant Leading(v, orinRequest, v.Keys - left, bestFitBoardID, bestFitBoardScore)
      decreases left
    {
      var boardID := Next(left);
      var availOrinSet := canAlloc.m[boardID].OrinSet();
      if availOrinSet >= orinRequest {
        var tmpScore := |availOrinSet|;
        if bestFitBoardScore.None? || tmpScore < bestFitBoardScore.value {
          bestFitBoardScore := Some(tmpScore);
          bestFitBoardID := boardID;
        }
      }
      left := left - {boardID};
    }
    LeadingIsBest(v, orinRequest, bestFitBoardID, bestFitBoardScore);
    var nodeScore := 0;
    if bestFitBoardID != BOARD_NOT_FOUND {
      nodeScore := NodeScore(canAlloc, v);
    }
    return AllocatorResult(nodeScore, bestFitBoardID);
  }

  method NodeScore(canAlloc: BoardDetails, ghost v: Boards) returns (nodeScore: int)
    requires canAlloc.Shows(v)
    ensures nodeScore == 100 - FreeOrins(v)
  {
    nodeScore := 100;
    var left := canAlloc.m.Keys;
    ghost var seen: set<int> := {};
    assert PairsOf(v, {}) == {};
    while left != {}
      invariant left + seen == v.Keys && left !! seen
      invariant nodeScore == 100 - |PairsOf(v, seen)|
      decreases left
    {
      var boardID := Next(left);
      OneMoreBoard(v, seen, boardID);
      nodeScore := nodeScore - |canAlloc.m[boardID].m.Keys|;
      left, seen := left - {boardID}, seen + {boardID};
    }
    assert seen == v.Keys;
  }

  /** The allocator always has an answer. */
  lemma SomeAnswer(v: Boards, request: set<int>) returns (b: int)
    ensures Answer(v, request, b)
  {
    b := BOARD_NOT_FOUND;
    if Fitting(v, request) != {} {
      b := SmallestOf(v, Fitting(v, request));
    }
  }

  lemma {:induction false} SmallestOf(v: Boards, boards: set<int>) returns (b: int)
    requires boards != {} && boards <= v.Keys
    ensures b in boards && forall c :: c in boards ==> |v[b]| <= |v[c]|
    decreases boards
  {
    b := Pick(boards);
    if boards != {b} {
      var other := SmallestOf(v, boards - {b});
      b := if |v[other]| < |v[b]| then other else b;
    }
  }

  /** The sentinel means that no board fits exactly when no best-fitting board has its
      number. */
  lemma SentinelMeansNoFit(v: Boards, request: set<int>)
    ensures (forall b :: Answer(v, request, b) ==> (b == BOARD_NOT_FOUND <==> forall c :: c in v ==> !(request <= v[c])))
            <==> !BestFit(v, request, BOARD_NOT_FOUND)
  {
    if Fitting(v, request) == {} {
      forall b | b in v ensures !(request <= v[b]) {
        assert b !in Fitting(v, request);
      }
    } else {
      var c := Pick(Fitting(v, request));
      assert c in v && request <= v[c];
      if BestFit(v, request, BOARD_NOT_FOUND) {
        assert Answer(v, request, BOARD_NOT_FOUND);
      }
    }
  }
}
