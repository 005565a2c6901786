/** Positions on a ring of `n` items, moved one step at a time with wrap-around, as both the
    music widget and the photo carousel do with `(i + 1) % n` and `(i - 1 + n) % n`. */
module Cyclic {
  /** Euclidean division has one remainder: `a = q * n + b` with `0 <= b < n` fixes `a % n`. */
  lemma ModUnique(a: int, q: int, b: int, n: int)
    requires n > 0 && 0 <= b < n && a == q * n + b
    ensures a % n == b
  {
    var k := q - a / n;
    assert k * n == a % n - b;
  }

  /** One step forward: `(i + 1) % n`. */
  function Succ(i: nat, n: nat): (r: nat)
    requires n > 0
    ensures r < n
    ensures i + 1 < n ==> r == i + 1
    ensures i + 1 == n ==> r == 0
  {
    if i + 1 < n then ModUnique(i + 1, 0, i + 1, n); (i + 1) % n
    else if i + 1 == n then ModUnique(n, 1, 0, n); (i + 1) % n
    else (i + 1) % n
  }

  /** One step back: `(i - 1 + n) % n`. */
  function Pred(i: nat, n: nat): (r: nat)
    requires n > 0
    ensures r < n
    ensures 0 < i <= n ==> r == i - 1
    ensures i == 0 ==> r == n - 1
  {
    if 0 < i <= n then ModUnique(i - 1 + n, 1, i - 1, n); (i - 1 + n) % n
    else if i == 0 then ModUnique(n - 1, 0, n - 1, n); (i - 1 + n) % n
    else (i - 1 + n) % n
  }

  /** On the ring, a step back undoes a step forward and vice versa. */
  lemma PredSuccInverse(i: nat, n: nat)
    requires n > 0 && i < n
    ensures Pred(Succ(i, n), n) == i
    ensures Succ(Pred(i, n), n) == i
  {
  }

  /** Wrapping and then stepping is stepping and then wrapping. */
  lemma SuccOfWrapped(i: nat, n: nat)
    requires n > 0
    ensures Succ(i % n, n) == (i + 1) % n
  {
    var q, r := i / n, i % n;
    assert i == q * n + r;
    if r + 1 < n {
      ModUnique(i + 1, q, r + 1, n);
    } else {
      assert i + 1 == (q + 1) * n + 0;
      ModUnique(i + 1, q + 1, 0, n);
    }
  }

  /** `k` steps forward from `i`. */
  function SuccN(i: nat, n: nat, k: nat): nat
    requires n > 0
  {
    if k == 0 then i else Succ(SuccN(i, n, k - 1), n)
  }

  /** `k` steps forward from a position on the ring land `k` places on, modulo `n`; in
      particular `n` steps come back to the start. */
  lemma {:induction false} SuccNMoves(i: nat, n: nat, k: nat)
    requires n > 0 && i < n
    ensures SuccN(i, n, k) == (i + k) % n
  {
    if k == 0 {
      ModUnique(i, 0, i, n);
    } else {
      SuccNMoves(i, n, k - 1);
      SuccOfWrapped(i + k - 1, n);
    }
  }

  lemma FullTurn(i: nat, n: nat)
    requires n > 0 && i < n
    ensures SuccN(i, n, n) == i
  {
    SuccNMoves(i, n, n);
    ModUnique(i + n, 1, i, n);
  }
}
