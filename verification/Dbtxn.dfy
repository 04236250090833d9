/** How often and how long one transaction is tried against a locked database. */
module Dbtxn {
  const MAX_ATTEMPTS: nat := 10

  const MILLISECOND := 1_000_000
  const BASE_PAUSE := 100 * MILLISECOND
  const MAX_PAUSE := 5000 * MILLISECOND
  /** The busy timeout of every connection: what one attempt may itself wait for the lock. */
  const BUSY_TIMEOUT := 5000 * MILLISECOND

  function Doubled(pause: int, times: nat): int {
    if times == 0 then pause else 2 * Doubled(pause, times - 1)
  }

  /** retryPause: doubled for every attempt, capped, and up to a fifth longer by chance. */
  method RetryPause(attempt: nat, jitter: nat) returns (pause: int)
    requires 1 <= attempt
    ensures LongestPause(attempt) * 5 / 6 <= pause <= LongestPause(attempt)
    ensures jitter >= MAX_PAUSE ==> pause == LongestPause(attempt)
  {
    pause := Doubled(BASE_PAUSE, attempt - 1);
    if pause > MAX_PAUSE {
      pause := MAX_PAUSE;
    }
    DoublingGrows(BASE_PAUSE, attempt - 1);
    pause := pause + (if jitter <= pause / 5 then jitter else pause / 5);
  }

  lemma {:induction false} DoublingGrows(pause: int, times: nat)
    requires pause >= 5
    ensures Doubled(pause, times) >= pause
  {
    if times > 0 {
      DoublingGrows(pause, times - 1);
    }
  }

  function LongestPause(attempt: nat): int
    requires 1 <= attempt
  {
    var pause := Doubled(BASE_PAUSE, attempt - 1);
    var capped := if pause > MAX_PAUSE then MAX_PAUSE else pause;
    capped + capped / 5
  }

  /** Everything the first attempts and the pauses between them may take. */
  function LongestWait(attempts: nat): int {
    if attempts == 0 then 0
    else if attempts == 1 then BUSY_TIMEOUT
    else LongestWait(attempts - 1) + LongestPause(attempts - 1) + BUSY_TIMEOUT
  }

  lemma PausesUpToTheCap()
    ensures LongestPause(1) == 120 * MILLISECOND && LongestPause(2) == 240 * MILLISECOND
    ensures LongestPause(3) == 480 * MILLISECOND && LongestPause(4) == 960 * MILLISECOND
    ensures LongestPause(5) == 1920 * MILLISECOND && LongestPause(6) == 3840 * MILLISECOND
    ensures LongestPause(7) == LongestPause(8) == LongestPause(9) == 6000 * MILLISECOND
  {
    assert Doubled(BASE_PAUSE, 1) == 2 * BASE_PAUSE;
    assert Doubled(BASE_PAUSE, 2) == 4 * BASE_PAUSE;
    assert Doubled(BASE_PAUSE, 4) == 16 * BASE_PAUSE;
    assert Doubled(BASE_PAUSE, 6) == 64 * BASE_PAUSE;
    assert Doubled(BASE_PAUSE, 8) == 256 * BASE_PAUSE;
  }

  /**
   * A transaction that meets the lock on every attempt but the last commits up to 75.56 seconds
   * after it was asked for.
   */
  lemma RetryBudget()
    ensures LongestWait(MAX_ATTEMPTS) == 75_560 * MILLISECOND
  {
    PausesUpToTheCap();
    assert LongestWait(3) == 15_360 * MILLISECOND;
    assert LongestWait(5) == 26_800 * MILLISECOND;
    assert LongestWait(7) == 42_560 * MILLISECOND;
    assert LongestWait(9) == 64_560 * MILLISECOND;
  }
}
