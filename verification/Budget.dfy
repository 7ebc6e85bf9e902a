/** How many fixed steps fit below a budget. */
module Budget {
  function CeilDiv(a: nat, b: nat): nat
    requires b > 0
  {
    (a + b - 1) / b
  }

  /** The ceiling of a / b exceeds k exactly when k steps of b stay below a. */
  lemma CeilDivExceeds(k: nat, a: nat, b: nat)
    requires b > 0
    ensures k + 1 <= CeilDiv(a, b) <==> k * b < a
  {
    var q, r := (a + b - 1) / b, (a + b - 1) % b;
    assert q * b + r == a + b - 1;
    if k + 1 <= q {
      assert (k + 1) * b <= q * b;
    } else {
      assert q * b <= k * b;
    }
  }
}
