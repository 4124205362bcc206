/** Conditions on the history of a run: something began and nothing has ended it since. */
module Histories {

  ghost predicate Unended(i: nat, n: nat, ends: nat -> bool) { forall k: nat :: i < k < n ==> !ends(k) }

  /** Something began at one of the first `n` steps, and no later one of them ended it. */
  ghost predicate Since(n: nat, begins: nat -> bool, ends: nat -> bool) {
    exists i: nat :: i < n && begins(i) && Unended(i, n, ends)
  }

  ghost predicate Agree(n: nat, f: nat -> bool, g: nat -> bool) { forall k: nat :: k < n ==> f(k) == g(k) }

  /** One step more, with the history before it. */
  lemma SinceOneMore(n: nat, m: nat, begins: nat -> bool, ends: nat -> bool, began: nat -> bool, ended: nat -> bool)
    requires m == n + 1 && Agree(n, begins, began) && Agree(n, ends, ended)
    ensures Since(m, begins, ends) <==> begins(n) || (!ends(n) && Since(n, began, ended))
  {
    if begins(n) { assert Unended(n, m, ends); }
    if i: nat :| i < n && began(i) && Unended(i, n, ended) { UnendedOneMore(i, n, m, ends, ended); }
    if i: nat :| i < n && begins(i) && Unended(i, m, ends) { UnendedOneMore(i, n, m, ends, ended); }
  }

  lemma UnendedOneMore(i: nat, n: nat, m: nat, ends: nat -> bool, ended: nat -> bool)
    requires i < n && m == n + 1 && Agree(n, ends, ended)
    ensures Unended(i, m, ends) <==> Unended(i, n, ended) && !ends(n)
  {
  }
}
