/** Two facts about products that the rate limiter and the circuit breaker share. */
module Arithmetic {

  lemma MulKeepsOrder(a: int, b: int, c: nat)
    requires a <= b
    ensures a * c <= b * c
  {
    assert 0 <= (b - a) * c;
  }

  lemma DivideBound(a: int, every: nat, elapsed: nat)
    requires every > 0 && a * every <= elapsed
    ensures a <= elapsed / every
  {
    var q := elapsed / every;
    assert elapsed < (q + 1) * every by {
      assert elapsed == q * every + elapsed % every;
    }
    if q + 1 <= a {
      MulKeepsOrder(q + 1, a, every);
    }
  }
}
