/** Board contents as values: which orins each board holds. The set-level meaning of
    `topo.BoardDetails`, with the algebra of `DifferenceFromSuperset`. */
module Boards {
  type Boards = map<int, set<int>>

  /** The orins of board `b`, none when the board is not listed. */
  function At(m: Boards, b: int): set<int> {
    if b in m then m[b] else {}
  }

  /** What `DifferenceFromSuperset` checks: every listed board is in `src` with all its orins. */
  predicate Covers(src: Boards, sub: Boards) {
    forall b :: b in sub ==> b in src && sub[b] <= src[b]
  }

  function Diff(src: Boards, sub: Boards): Boards {
    map b | b in src :: src[b] - At(sub, b)
  }

  function Union(m: Boards, n: Boards): Boards {
    map b | b in m.Keys + n.Keys :: At(m, b) + At(n, b)
  }

  /** Equality up to boards listed with no orins. */
  ghost predicate SameContents(m: Boards, n: Boards) {
    forall b :: At(m, b) == At(n, b)
  }

  ghost predicate Disjoint(m: Boards, n: Boards) {
    forall b :: At(m, b) !! At(n, b)
  }

  /** Taking `b` away and then `c` is possible exactly when the two do not overlap and
      `a` covers both, and equals taking their union away. */
  lemma DiffCompose(a: Boards, b: Boards, c: Boards)
    requires Covers(a, b)
    ensures Covers(Diff(a, b), c) <==> Covers(a, c) && Disjoint(b, c)
    ensures Diff(Diff(a, b), c) == Diff(a, Union(b, c))
  {
    if Covers(Diff(a, b), c) {
      forall x ensures At(b, x) !! At(c, x) {
        if x in c { assert c[x] <= Diff(a, b)[x]; }
      }
    }
    if Covers(a, c) && Disjoint(b, c) {
      forall x | x in c ensures x in Diff(a, b) && c[x] <= Diff(a, b)[x] {
        assert At(b, x) !! At(c, x);
      }
    }
    forall x | x in a ensures Diff(Diff(a, b), c)[x] == Diff(a, Union(b, c))[x] {
      assert At(Union(b, c), x) == At(b, x) + At(c, x);
    }
  }

  /** Giving back what was taken restores the original, boards and orins alike. */
  lemma DiffRestore(a: Boards, b: Boards)
    requires Covers(a, b)
    ensures Union(Diff(a, b), b) == a
    ensures Disjoint(Diff(a, b), b)
    ensures Covers(a, Diff(a, b))
  {
    assert Union(Diff(a, b), b).Keys == a.Keys;
    forall x | x in a ensures Union(Diff(a, b), b)[x] == a[x] {
      assert At(b, x) <= a[x];
    }
  }
}
