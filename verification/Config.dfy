/** The client's configuration: timeouts and their ceilings. Durations are in nanoseconds. */
module Config {

  const SECOND := 1_000_000_000
  const DEFAULT_TIMEOUT := 500_000_000
  const MAX_TIMEOUT := 30 * SECOND
  const MAX_HOLD_TIMEOUT := 570 * SECOND
  const HOLD_MARGIN := 5 * SECOND
  const ATTEST_TIMEOUT := 5 * SECOND

  datatype Config = Config(addr: string, tokenFile: string, timeout: int, holdTimeout: int)

  /** The timeouts clamped to their ceilings; an unset or negative one gets its default. */
  function Normalized(c: Config): (r: Config)
    ensures 0 < r.timeout <= MAX_TIMEOUT && 0 <= r.holdTimeout <= MAX_HOLD_TIMEOUT
    ensures c.timeout <= 0 ==> r.timeout == 500_000_000
    ensures c.timeout > 30 * SECOND ==> r.timeout == 30 * SECOND
    ensures 0 < c.timeout <= 30 * SECOND ==> r.timeout == c.timeout
    ensures c.holdTimeout < 0 ==> r.holdTimeout == 0
    ensures c.holdTimeout > 570 * SECOND ==> r.holdTimeout == 570 * SECOND
    ensures 0 <= c.holdTimeout <= 570 * SECOND ==> r.holdTimeout == c.holdTimeout
    ensures r.addr == c.addr && r.tokenFile == c.tokenFile
  {
    var timeout := if c.timeout <= 0 then DEFAULT_TIMEOUT else c.timeout;
    var timeout := if timeout > MAX_TIMEOUT then MAX_TIMEOUT else timeout;
    var hold := if c.holdTimeout < 0 then 0 else c.holdTimeout;
    var hold := if hold > MAX_HOLD_TIMEOUT then MAX_HOLD_TIMEOUT else hold;
    c.(timeout := timeout, holdTimeout := hold)
  }

  /** Whole seconds of a duration; Go's division truncates toward zero. */
  function WholeSeconds(d: int): int {
    if d >= 0 then d / SECOND else -(-d / SECOND)
  }

  /** The hold budget of one call: the caller's, never above the configured one, never negative. */
  function HoldBudget(c: Config, budget: int): int {
    var budget := if budget < 0 then 0 else budget;
    if budget < c.holdTimeout then budget else c.holdTimeout
  }

  /** Whole seconds are the nearest second toward zero. */
  lemma WholeSecondsExactly(d: int)
    ensures var n := WholeSeconds(d);
            && (d >= 0 ==> n * 1_000_000_000 <= d < (n + 1) * 1_000_000_000)
            && (d < 0 ==> (n - 1) * 1_000_000_000 < d <= n * 1_000_000_000)
  {
  }

  /** The whole seconds of a call's hold budget: as many as both the caller's and the configured budget hold, and none
      for a negative one. */
  lemma HoldSecondsExactly(c: Config, budget: int)
    requires c.holdTimeout >= 0
    ensures var n := WholeSeconds(HoldBudget(c, budget));
            && n >= 0 && n * SECOND <= c.holdTimeout
            && (budget < 0 ==> n == 0)
            && (budget >= 0 ==>
                  n * SECOND <= budget && forall m: int :: m * SECOND <= budget && m * SECOND <= c.holdTimeout ==> m <= n)
  {
    WholeSecondsExactly(HoldBudget(c, budget));
  }
}
