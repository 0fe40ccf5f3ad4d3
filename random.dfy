/** The random source of the tournament, injected instead of `Math.random`.

    A run reads one sequential stream of draws, each a real in [0, 1) like the
    value `Math.random()` returns; `rng(k)` is the k-th draw and every operation
    takes the index of its first unread draw and returns the index after its last
    one. Fixing the stream fixes the whole run. */
module Random {

  type Draw = r: real | 0.0 <= r < 1.0

  type Rng = nat -> Draw

  /** `r * n`, written as repeated addition so that the solver sees linear
      arithmetic only; `ScaleIsProduct` shows it is the product. */
  function Scale(r: Draw, n: nat): (s: real)
    ensures 0.0 <= s && (n > 0 ==> s < n as real)
  {
    if n == 0 then 0.0 else Scale(r, n - 1) + r
  }

  lemma {:induction false} ScaleIsProduct(r: Draw, n: nat)
    ensures Scale(r, n) == r * n as real
  {
    if n > 0 {
      ScaleIsProduct(r, n - 1);
    }
  }

  /** `Math.floor(r * n)`: a uniformly drawn index below `n`. */
  function Pick(r: Draw, n: nat): (k: nat)
    requires n > 0
    ensures k < n
  {
    Scale(r, n).Floor
  }

  /** Every index below `n` is the outcome of some draw, so the injected stream
      can reproduce any choice the original generator could make. */
  lemma PickReaches(n: nat, k: nat)
    requires k < n
    ensures 0.0 <= k as real / n as real < 1.0
    ensures Pick(k as real / n as real, n) == k
  {
    var r := k as real / n as real;
    assert r * n as real == k as real;
    ScaleIsProduct(r, n);
  }
}
