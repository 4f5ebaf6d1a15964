/**
 * `Math.floor(Math.random() * n)`, the index both chat components use to
 * pick a reply. `Math.random()` is a value `r` with `0 <= r < 1`, passed
 * in by the caller: the model says which replies can be chosen, not how
 * likely each one is.
 */
module JsMath {

  /** `Math.floor(r * n)` for a draw `r` of `Math.random()`. */
  function RandomIndex(r: real, n: nat): (i: nat)
    requires 0.0 <= r < 1.0
    requires n > 0
    ensures i < n
  {
    var x := r * (n as real);
    assert 0.0 <= x < n as real by {
      assert r * (n as real) < 1.0 * (n as real);
    }
    x.Floor
  }

  /** Every index can come out: the draw `k / n` gives `k`. */
  lemma EveryIndexReachable(k: nat, n: nat)
    requires k < n
    ensures 0.0 <= (k as real) / (n as real) < 1.0
    ensures RandomIndex((k as real) / (n as real), n) == k
  {
    var r := (k as real) / (n as real);
    assert r * (n as real) == k as real;
  }

  /** `items[Math.floor(r * items.length)]`: an element of a non-empty list chosen by the draw `r`. */
  function RandomElement<T>(items: seq<T>, r: real): (x: T)
    requires 0.0 <= r < 1.0
    requires |items| > 0
    ensures x in items
  {
    items[RandomIndex(r, |items|)]
  }
}
