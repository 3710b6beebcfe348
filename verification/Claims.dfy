/** What the bookkeeping needs to know of a pod: which board its annotation names, and
    which orins its containers ask for. */
module Claims {
  /** No annotation, one that is not a number, or a board. */
  datatype Binding = Unbound | Malformed | Board(id: int)

  datatype Claim = Claim(uid: string, binding: Binding, orins: set<int>)

  /** The orins of board `b` that the claim occupies. */
  function Held(c: Claim, b: int): set<int> {
    if c.binding == Board(b) then c.orins else {}
  }

  ghost predicate SameHeld(p: Claim, q: Claim) {
    forall b :: Held(p, b) == Held(q, b)
  }
}
