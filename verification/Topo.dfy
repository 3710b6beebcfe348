/** `topo.BoardDetails` and `topo.OrinDetails`: mutable map objects, the outer one holding
    references to the inner ones. */
module Topo {
  import opened Options
  import opened Boards
  import opened Iteration

  datatype OrinInfo = OrinInfo(boardID: int)

  /** A map object is made for one board and stays with it, on the side of the requests or
      on the side of what the node has; the two ghost constants say which. */
  class OrinDetails {
    var m: map<int, OrinInfo>
    ghost const board: int
    ghost const requests: bool

    constructor (ghost board: int, ghost requests: bool)
      ensures m == map[] && this.board == board && this.requests == requests
    {
      m := map[];
      this.board, this.requests := board, requests;
    }

    /** The keys of the map, collected in whatever order the map yields them. */
    method OrinSet() returns (s: set<int>)
      ensures s == m.Keys
    {
      s := {};
      var left := m.Keys;
      while left != {}
        invariant s + left == m.Keys
        decreases left
      {
        var k := Next(left);
        s, left := s + {k}, left - {k};
      }
    }

    method Add(boardID: int, orinID: int)
      modifies this
      ensures m == old(m)[orinID := OrinInfo(boardID)]
    {
      m := m[orinID := OrinInfo(boardID)];
    }

    /** The loop in which callers add the members of a set one after the other. */
    method AddAll(boardID: int, orins: set<int>)
      modifies this
      ensures m == old(m) + map o | o in orins :: OrinInfo(boardID)
    {
      var left := orins;
      while left != {}
        invariant left <= orins
        invariant m == old(m) + map o | o in orins && o !in left :: OrinInfo(boardID)
        decreases left
      {
        var o := Next(left);
        Add(boardID, o);
        left := left - {o};
      }
    }
  }

  class BoardDetails {
    var m: map<int, OrinDetails>

    constructor ()
      ensures m == map[]
    {
      m := map[];
    }

    /** `v` is the set-level contents. */
    ghost predicate Shows(v: Boards)
      reads this, m.Values
    {
      m.Keys == v.Keys && forall b :: b in m ==> m[b].m.Keys == v[b]
    }

    /** Every inner map is held under its own board only, and on one side. */
    ghost predicate Holds(requests: bool)
      reads this
    {
      forall b :: b in m ==> m[b].board == b && m[b].requests == requests
    }

    method BoardSet() returns (s: set<int>)
      ensures s == m.Keys
    {
      s := {};
      var left := m.Keys;
      while left != {}
        invariant s + left == m.Keys
        decreases left
      {
        var k := Next(left);
        s, left := s + {k}, left - {k};
      }
    }

    method Equal(dst: BoardDetails, ghost v: Boards, ghost w: Boards) returns (eq: bool)
      requires Shows(v) && dst.Shows(w)
      ensures eq <==> v == w
    {
      var srcMSet := BoardSet();
      var dstMSet := dst.BoardSet();
      if srcMSet != dstMSet {
        return false;
      }
      var left := m.Keys;
      while left != {}
        invariant left <= m.Keys
        invariant forall b :: b in m && b !in left ==> m[b].m.Keys == dst.m[b].m.Keys
        decreases left
      {
        var mid := Next(left);
        var srcOSet := m[mid].OrinSet();
        var dstOSet := dst.m[mid].OrinSet();
        if srcOSet != dstOSet {
          assert v[mid] != w[mid];
          return false;
        }
        left := left - {mid};
      }
      assert forall b :: b in v ==> v[b] == w[b];
      return true;
    }

    /** Succeeds exactly when `this` covers `sub`, and then returns the difference without
        touching either. Boards that `sub` does not list keep their inner map object: the
        result shares those with `this`, while the others get new maps of their own. */
    method DifferenceFromSuperset(sub: BoardDetails, ghost v: Boards, ghost s: Boards, ghost requests: bool)
      returns (r: Option<BoardDetails>)
      requires Shows(v) && sub.Shows(s) && Holds(requests)
      ensures r.Some? <==> Covers(v, s)
      ensures r.Some? ==> fresh(r.value) && r.value.Shows(Diff(v, s)) && r.value.Holds(requests)
      ensures r.Some? ==> forall b :: b in m && b !in sub.m ==> r.value.m[b] == m[b]
      ensures r.Some? ==> forall b :: b in sub.m ==> fresh(r.value.m[b])
    {
      var srcMSet := BoardSet();
      var subMSet := sub.BoardSet();
      if !(srcMSet >= subMSet) {
        ghost var b := Missing(subMSet, srcMSet);
        assert b in s && b !in v;
        return None;
      }
      var md := CopyRest(srcMSet - subMSet);
      var ok := SubtractInto(sub, md, requests);
      if !ok {
        return None;
      }
      md.ShowsDifference(this, sub, v, s);
      return Some(md);
    }

    lemma ShowsDifference(src: BoardDetails, sub: BoardDetails, v: Boards, s: Boards)
      requires src.Shows(v) && sub.Shows(s) && m.Keys == src.m.Keys && sub.m.Keys <= src.m.Keys
      requires forall b :: b in src.m && b !in sub.m ==> m[b] == src.m[b]
      requires forall b :: b in sub.m ==> Remaining(src.m[b].m.Keys, sub.m[b].m.Keys, m[b].m.Keys)
      ensures Covers(v, s) && Shows(Diff(v, s))
    {
    }

    /** First loop: boards outside the subset are copied by reference. */
    method CopyRest(boards: set<int>) returns (md: BoardDetails)
      requires boards <= m.Keys
      ensures fresh(md) && md.m == map b | b in boards :: m[b]
    {
      md := new BoardDetails();
      var left := boards;
      while left != {}
        invariant left <= boards
        invariant md.m == map b | b in boards - left :: m[b]
        decreases left
      {
        var b := Next(left);
        md.Add(b, m[b]);
        left := left - {b};
      }
    }

    /** Second loop: each board of the subset gets a new map of what remains, until one is
        found that has too few orins. */
    method SubtractInto(sub: BoardDetails, md: BoardDetails, ghost requests: bool) returns (ok: bool)
      requires md != this && md != sub && sub.m.Keys <= m.Keys && md.m.Keys == m.Keys - sub.m.Keys
      modifies md
      ensures ok <==> forall b :: b in sub.m ==> sub.m[b].m.Keys <= m[b].m.Keys
      ensures ok ==> md.m.Keys == m.Keys
      ensures ok ==> forall b :: b in old(md.m) ==> md.m[b] == old(md.m)[b]
      ensures ok ==> forall b :: b in sub.m ==>
                Remaining(m[b].m.Keys, sub.m[b].m.Keys, md.m[b].m.Keys) && fresh(md.m[b])
                && md.m[b].board == b && md.m[b].requests == requests
    {
      var left := sub.m.Keys;
      while left != {}
        invariant left <= sub.m.Keys
        invariant md.m.Keys == m.Keys - left
        invariant forall b :: b in old(md.m) ==> md.m[b] == old(md.m)[b]
        invariant forall b :: b in sub.m && b !in left ==>
                    Remaining(m[b].m.Keys, sub.m[b].m.Keys, md.m[b].m.Keys) && fresh(md.m[b])
                    && md.m[b].board == b && md.m[b].requests == requests
        decreases left
      {
        var subMID := Next(left);
        var newOd := Subtract(m[subMID], sub.m[subMID], subMID, requests);
        if newOd.None? {
          return false;
        }
        md.Add(subMID, newOd.value);
        left := left - {subMID};
      }
      return true;
    }

    /** Stores `od` itself under a new board; merges it into the map already there otherwise. */
    method Add(boardID: int, od: OrinDetails)
      modifies this, if boardID in m then {m[boardID]} else {}
      ensures boardID !in old(m) ==> m == old(m)[boardID := od]
      ensures boardID in old(m) ==> m == old(m) && m[boardID].m == old(m[boardID].m) + old(od.m)
    {
      if boardID !in m {
        m := m[boardID := od];
      } else {
        var md := m[boardID];
        var entries := od.m;
        var left := entries.Keys;
        while left != {}
          invariant left <= entries.Keys && m == old(m) && md == m[boardID]
          invariant md.m == old(md.m) + (map k | k in entries && k !in left :: entries[k])
          decreases left
        {
          var k := Next(left);
          md.m := md.m[k := entries[k]];
          left := left - {k};
        }
        assert (map k | k in entries && k !in left :: entries[k]) == entries;
      }
    }
  }

  /** Taking a covered subset away and adding each of its boards back: the result shows the
      original contents, and neither the original nor the subset was written to, although the
      result shares inner maps with the original. */
  method TakeAndRestore(src: BoardDetails, sub: BoardDetails, ghost v: Boards, ghost s: Boards, ghost requests: bool)
    returns (r: Option<BoardDetails>)
    requires src.Shows(v) && sub.Shows(s) && src.Holds(requests)
    ensures r.Some? <==> Covers(v, s)
    ensures r.Some? ==> fresh(r.value) && r.value.Shows(v)
    ensures src.Shows(v) && sub.Shows(s)
  {
    r := src.DifferenceFromSuperset(sub, v, s, requests);
    if r.None? {
      return;
    }
    AddBack(r.value, sub, v, s, requests);
  }

  /** Adds each board of `sub` to a difference whose maps for those boards are its own. */
  method AddBack(diff: BoardDetails, sub: BoardDetails, ghost v: Boards, ghost s: Boards, ghost requests: bool)
    requires diff != sub && diff.Holds(requests) && diff.Shows(Diff(v, s)) && sub.Shows(s) && Covers(v, s)
    requires forall b :: b in sub.m ==> diff.m[b] !in sub.m.Values
    modifies diff, set b | b in sub.m :: diff.m[b]
    ensures diff.m == old(diff.m) && diff.Shows(v)
  {
    hide Diff, Covers, Union, Restored, At;
    DiffRestore(v, s);
    ghost var before := Diff(v, s);
    CoveredKeys(v, s);
    var left := sub.m.Keys;
    while left != {}
      invariant left <= sub.m.Keys && diff.m == old(diff.m) && sub.m == old(sub.m) && sub.Shows(s)
      invariant diff.Shows(Restored(before, s, left))
      decreases left
    {
      var b := Next(left);
      RestoredNext(before, s, left, b);
      AddOne(diff, b, sub.m[b], Restored(before, s, left), requests);
      left := left - {b};
    }
    RestoredAll(before, s);
  }

  /** The difference with the boards of `s` back that are not left. */
  ghost function Restored(before: Boards, s: Boards, left: set<int>): Boards {
    map b | b in before :: if b in s && b !in left then before[b] + s[b] else before[b]
  }

  lemma CoveredKeys(v: Boards, s: Boards)
    requires Covers(v, s)
    ensures s.Keys <= Diff(v, s).Keys && Restored(Diff(v, s), s, s.Keys) == Diff(v, s)
  {
    assert forall b :: b in s ==> b in v;
  }

  lemma RestoredNext(before: Boards, s: Boards, left: set<int>, b: int)
    requires b in left && b in s && b in before
    ensures var now := Restored(before, s, left); Restored(before, s, left - {b}) == now[b := now[b] + s[b]]
  {
  }

  lemma RestoredAll(before: Boards, s: Boards)
    requires s.Keys <= before.Keys
    ensures Restored(before, s, {}) == Union(before, s)
  {
    forall b | b in before ensures Restored(before, s, {})[b] == Union(before, s)[b] {
      assert before[b] + {} == before[b];
    }
  }

  method AddOne(diff: BoardDetails, b: int, od: OrinDetails, ghost now: Boards, ghost requests: bool)
    requires diff.Holds(requests) && diff.Shows(now) && b in diff.m && od != diff.m[b]
    modifies diff, diff.m[b]
    ensures diff.m == old(diff.m) && diff.Shows(now[b := now[b] + old(od.m.Keys)])
  {
    diff.Add(b, od);
  }

  /** One board: a new map of the orins that remain, if there are enough. */
  method Subtract(src: OrinDetails, sub: OrinDetails, boardID: int, ghost requests: bool) returns (r: Option<OrinDetails>)
    ensures r.Some? <==> sub.m.Keys <= src.m.Keys
    ensures r.Some? ==> fresh(r.value) && Remaining(src.m.Keys, sub.m.Keys, r.value.m.Keys)
                        && r.value.board == boardID && r.value.requests == requests
  {
    var srcOSet := src.OrinSet();
    var subOSet := sub.OrinSet();
    if !(srcOSet >= subOSet) {
      return None;
    }
    var newOd := NewOrins(boardID, srcOSet - subOSet, requests);
    return Some(newOd);
  }

  ghost predicate Remaining(src: set<int>, sub: set<int>, rest: set<int>) {
    sub <= src && rest == src - sub
  }

  /** A new map of the given orins of one board. */
  method NewOrins(boardID: int, orins: set<int>, ghost requests: bool) returns (od: OrinDetails)
    ensures fresh(od) && od.m == map o | o in orins :: OrinInfo(boardID)
    ensures od.board == boardID && od.requests == requests
  {
    od := new OrinDetails(boardID, requests);
    od.AddAll(boardID, orins);
  }
}
