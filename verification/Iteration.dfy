/** Go visits the keys of a map, and the members of a set, in an order it leaves open. */
module Iteration {
  /** The key visited next among those left: any of them. */
  method Next<T>(left: set<T>) returns (k: T)
    requires left != {}
    ensures k in left
  {
    k :| k in left;
  }

  lemma Missing<T>(sub: set<T>, src: set<T>) returns (x: T)
    requires !(sub <= src)
    ensures x in sub && x !in src
  {
    x :| x in sub && x !in src;
  }

  lemma Pick<T>(s: set<T>) returns (x: T)
    requires s != {}
    ensures x in s
  {
    x :| x in s;
  }
}
