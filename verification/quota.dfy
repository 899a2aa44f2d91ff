/** The call-rate budget both workflows keep: `handle_quota` counts one more
    model call and pauses the whole run for a fixed time whenever the count
    reaches a multiple of the quota. The pause is modelled as a count of
    cooldowns, not as time. */
module Quota {

  /** Length of one cooldown, in seconds, as `asyncio.sleep` takes them. */
  const TimeToWait: nat := 30

  /** Whether the call that brought the counter to `calls` triggers a cooldown. */
  predicate CooldownDue(calls: nat, maxQuota: nat)
    requires maxQuota > 0
  {
    calls % maxQuota == 0
  }

  lemma {:induction false} MulAtLeast(k: int, q: int)
    requires k >= 1 && q > 0
    ensures k * q >= q
  {
    if k > 1 {
      MulAtLeast(k - 1, q);
      assert k * q == (k - 1) * q + q;
    }
  }

  /** Euclidean division has one quotient and one remainder. */
  lemma DivModUnique(x: int, q: int, a: int, b: int)
    requires q > 0 && 0 <= b < q && x == a * q + b
    ensures x / q == a && x % q == b
  {
    var a', b' := x / q, x % q;
    assert x == a' * q + b';
    if a > a' {
      MulAtLeast(a - a', q);
      assert false;
    } else if a < a' {
      MulAtLeast(a' - a, q);
      assert false;
    }
  }

  /** One more call adds one cooldown exactly when the new count is a multiple
      of the quota; so after n calls from zero there have been n / q cooldowns. */
  lemma CooldownCountStep(n: nat, q: nat)
    requires q > 0
    ensures (n + 1) / q == n / q + (if CooldownDue(n + 1, q) then 1 else 0)
  {
    var a, b := n / q, n % q;
    if b + 1 < q {
      DivModUnique(n + 1, q, a, b + 1);
    } else {
      assert n + 1 == (a + 1) * q + 0;
      DivModUnique(n + 1, q, a + 1, 0);
    }
  }

  /** With a quota above one, the calls just before and just after a cooldown
      are not delayed. */
  lemma CooldownSpacing(n: nat, q: nat)
    requires q > 1 && n >= 1 && CooldownDue(n, q)
    ensures !CooldownDue(n - 1, q) && !CooldownDue(n + 1, q)
  {
    var a := n / q;
    assert n == a * q;
    assert a >= 1;
    DivModUnique(n - 1, q, a - 1, q - 1);
    DivModUnique(n + 1, q, a, 1);
  }
}
