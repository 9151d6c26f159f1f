/**
 The module variables of frontend/lib/api.ts and the stretches of code that run between two awaits.

 `ApiModule` holds the variables and changes them in place; each method is proved against a function on
 their values.  `RefreshAccessToken` is the retry loop.  Instants are milliseconds; a token's expiry is
 the whole number of seconds its payload carries, if it carries one.
 */
module ApiModule {
  import opened Options

  datatype Token = Token(text: string, exp: Option<int>)

  // A refresh in flight and a probe in flight are known by number, and so is a timer.  `scheduled` belongs to
  // the browser: the timers it will still fire, with their due times; `timer` is the handle the code holds.
  datatype Shared = Shared(
    accessToken: Option<Token>,
    accessTokenExp: Option<int>,
    timer: Option<nat>,
    refreshPromise: Option<nat>,
    refreshAwaiters: int,
    mePromise: Option<nat>,
    scheduled: map<nat, int>,
    nextTimer: nat)

  const PROACTIVE_REFRESH_LEAD_SECONDS := 60
  const CLOCK_SKEW_TOLERANCE_SECONDS := 5

  // An empty string is a token that counts as none.
  predicate Usable(token: Option<Token>) {
    token.Some? && token.value.text != ""
  }

  function DecodedExp(token: Option<Token>): Option<int> {
    if Usable(token) then token.value.exp else None
  }

  // The whole seconds left to `exp` at an instant.
  function SecondsLeft(exp: int, now: nat): int {
    exp - now / 1000
  }

  predicate NearExpiry(exp: Option<int>, now: nat) {
    exp.Some? && SecondsLeft(exp.value, now) <= PROACTIVE_REFRESH_LEAD_SECONDS + CLOCK_SKEW_TOLERANCE_SECONDS
  }

  function DueAt(inBrowser: bool, exp: Option<int>, now: nat): Option<int> {
    if inBrowser && exp.Some? && SecondsLeft(exp.value, now) > PROACTIVE_REFRESH_LEAD_SECONDS
    then Some(now + (SecondsLeft(exp.value, now) - PROACTIVE_REFRESH_LEAD_SECONDS) * 1000)
    else None
  }

  // Clear the timer whose handle is held; set a new one if the expiry calls for it.
  function Rescheduled(v: Shared, inBrowser: bool, now: nat): Shared {
    var kept := if v.timer.Some? then v.scheduled - {v.timer.value} else v.scheduled;
    var due := DueAt(inBrowser, v.accessTokenExp, now);
    if due.None? then v.(timer := None, scheduled := kept)
    else v.(timer := Some(v.nextTimer), scheduled := kept[v.nextTimer := due.value], nextTimer := v.nextTimer + 1)
  }

  function WithToken(v: Shared, inBrowser: bool, now: nat, token: Option<Token>): Shared {
    Rescheduled(v.(accessToken := token, accessTokenExp := DecodedExp(token)), inBrowser, now)
  }

  // The browser takes a timer off its list and runs the callback, which drops the handle, whichever it is.
  function Fired(v: Shared, id: nat): Shared {
    v.(scheduled := v.scheduled - {id}, timer := None)
  }

  predicate WantsRefresh(v: Shared, now: nat) {
    Usable(v.accessToken) && NearExpiry(v.accessTokenExp, now)
  }

  function Joined(v: Shared, newPromise: nat): Shared {
    v.(refreshPromise := if v.refreshPromise.None? then Some(newPromise) else v.refreshPromise,
       refreshAwaiters := v.refreshAwaiters + 1)
  }

  function Left(v: Shared, promise: nat): Shared {
    var awaiters := v.refreshAwaiters - 1;
    v.(refreshAwaiters := awaiters,
       refreshPromise := if awaiters == 0 && v.refreshPromise == Some(promise) then None else v.refreshPromise)
  }

  // A timer set for a token is due in the second that leaves the whole lead, whatever the fraction of a
  // second it was set in; fired then or later, the near-expiry test of the refresh it starts holds.
  lemma TimerIsNeverEarly(inBrowser: bool, exp: Option<int>, setAt: nat, firedAt: nat)
    requires DueAt(inBrowser, exp, setAt).Some? && DueAt(inBrowser, exp, setAt).value <= firedAt
    ensures setAt < DueAt(inBrowser, exp, setAt).value
    ensures SecondsLeft(exp.value, DueAt(inBrowser, exp, setAt).value) == PROACTIVE_REFRESH_LEAD_SECONDS
    ensures SecondsLeft(exp.value, firedAt) <= PROACTIVE_REFRESH_LEAD_SECONDS && NearExpiry(exp, firedAt)
  {
    var due := DueAt(inBrowser, exp, setAt).value;
    assert due == (exp.value - PROACTIVE_REFRESH_LEAD_SECONDS) * 1000 + setAt % 1000;
  }

  class ApiState {
    const inBrowser: bool
    var accessToken: Option<Token>
    var accessTokenExp: Option<int>
    var proactiveRefreshTimer: Option<nat>
    var refreshPromise: Option<nat>
    var refreshAwaiters: int
    var mePromise: Option<nat>
    var scheduled: map<nat, int>
    var nextTimer: nat

    constructor (inBrowser: bool)
      ensures this.inBrowser == inBrowser && Values() == Shared(None, None, None, None, 0, None, map[], 0)
    {
      this.inBrowser := inBrowser;
      accessToken, accessTokenExp, proactiveRefreshTimer := None, None, None;
      refreshPromise, refreshAwaiters, mePromise := None, 0, None;
      scheduled, nextTimer := map[], 0;
    }

    function Values(): Shared
      reads this
    {
      Shared(accessToken, accessTokenExp, proactiveRefreshTimer, refreshPromise, refreshAwaiters, mePromise,
             scheduled, nextTimer)
    }

    // What the browser does for setTimeout and clearTimeout.
    method SetTimeout(due: int) returns (id: nat)
      modifies this`scheduled, this`nextTimer
      ensures id == old(nextTimer) && nextTimer == id + 1 && scheduled == old(scheduled)[id := due]
    {
      id := nextTimer;
      scheduled, nextTimer := scheduled[id := due], nextTimer + 1;
    }

    method ClearTimeout(id: nat)
      modifies this`scheduled
      ensures scheduled == old(scheduled) - {id}
    {
      scheduled := scheduled - {id};
    }

    method ScheduleProactiveRefresh(now: nat)
      modifies this`proactiveRefreshTimer, this`scheduled, this`nextTimer
      ensures Values() == Rescheduled(old(Values()), inBrowser, now)
    {
      if proactiveRefreshTimer.Some? {
        ClearTimeout(proactiveRefreshTimer.value);
        proactiveRefreshTimer := None;
      }
      if !inBrowser {
        return;
      }
      if accessTokenExp.None? {
        return;
      }
      var nowSec := now / 1000;
      var refreshAtSec := accessTokenExp.value - PROACTIVE_REFRESH_LEAD_SECONDS;
      var delayMs := (refreshAtSec - nowSec) * 1000;
      if delayMs <= 0 {
        return;
      }
      var id := SetTimeout(now + delayMs);
      proactiveRefreshTimer := Some(id);
    }

    // The callback of a timer, up to the refresh it starts.
    method TimerCallback(id: nat)
      modifies this`proactiveRefreshTimer, this`scheduled
      ensures Values() == Fired(old(Values()), id)
    {
      scheduled := scheduled - {id};
      proactiveRefreshTimer := None;
    }

    method SetAccessToken(now: nat, token: Option<Token>)
      modifies this
      ensures Values() == WithToken(old(Values()), inBrowser, now, token)
    {
      accessToken := token;
      accessTokenExp := if Usable(token) then token.value.exp else None;
      ScheduleProactiveRefresh(now);
    }

    // Start a refresh unless one is held, and count in as a waiter before awaiting it.
    method JoinRefresh(newPromise: nat) returns (sharedPromise: nat, started: bool)
      modifies this
      ensures Values() == Joined(old(Values()), newPromise)
      ensures Values().refreshPromise == Some(sharedPromise) && started == old(refreshPromise).None?
    {
      started := refreshPromise.None?;
      if started {
        refreshPromise := Some(newPromise);
      }
      sharedPromise := refreshPromise.value;
      refreshAwaiters := refreshAwaiters + 1;
    }

    // Count out; the last one out forgets the promise it waited for.
    method LeaveRefresh(sharedPromise: nat)
      modifies this
      ensures Values() == Left(old(Values()), sharedPromise)
    {
      refreshAwaiters := refreshAwaiters - 1;
      if refreshAwaiters == 0 && refreshPromise == Some(sharedPromise) {
        refreshPromise := None;
      }
    }

    // The first stretch of ensureFreshAccessToken.
    method EnsureFreshAccessToken(now: nat, newPromise: nat) returns (waitsFor: Option<nat>)
      modifies this
      ensures waitsFor.Some? <==> WantsRefresh(old(Values()), now)
      ensures Values() == if waitsFor.Some? then Joined(old(Values()), newPromise) else old(Values())
      ensures waitsFor.Some? ==> Values().refreshPromise == waitsFor
    {
      if !Usable(accessToken) || !NearExpiry(accessTokenExp, now) {
        return None;
      }
      var promise, _ := JoinRefresh(newPromise);
      return Some(promise);
    }
  }

  // ---------- the retry loop ----------

  datatype Outcome = Refreshed(token: Token) | Terminal(status: int) | Transient

  const REFRESH_TRANSIENT_RETRIES: nat := 2
  const REFRESH_BACKOFF_BASE_MS: nat := 250

  function Pow2(n: nat): (p: nat)
    ensures 1 <= p
  {
    if n == 0 then 1 else 2 * Pow2(n - 1)
  }

  // The retry rule: stop at the first outcome that is not transient, or after `retries` more attempts than
  // one, and answer with the last outcome.
  predicate EndsAfter(outcomes: seq<Outcome>, retries: nat, last: Outcome) {
    && 1 <= |outcomes| <= retries + 1 && last == outcomes[|outcomes| - 1]
    && (forall k :: 0 <= k < |outcomes| - 1 ==> outcomes[k].Transient?)
    && (last.Transient? ==> |outcomes| == retries + 1)
  }

  // The outcomes the attempts would meet are a stream: `outcome(k)` is that of the k-th attempt, from 1.
  // The loop follows the rule, and has slept base * (2^(attempts-1) - 1) milliseconds.
  method RefreshAccessToken(outcome: nat -> Outcome, retries: nat := REFRESH_TRANSIENT_RETRIES,
                            baseMs: nat := REFRESH_BACKOFF_BASE_MS)
    returns (last: Outcome, attempts: nat, sleptMs: nat)
    ensures 1 <= attempts <= retries + 1 && last == outcome(attempts)
    ensures forall k :: 1 <= k < attempts ==> outcome(k).Transient?
    ensures last.Transient? ==> attempts == retries + 1
    ensures EndsAfter(seq(attempts, k requires 0 <= k < attempts => outcome(k + 1)), retries, last)
    ensures sleptMs == baseMs * (Pow2(attempts - 1) - 1)
  {
    last, attempts, sleptMs := outcome(1), 1, 0;
    for attempt := 1 to retries + 1
      invariant attempts == attempt && last == outcome(attempt)
      invariant forall k :: 1 <= k < attempt ==> outcome(k).Transient?
      invariant sleptMs == baseMs * (Pow2(attempt - 1) - 1)
    {
      if !last.Transient? {
        return;
      }
      var delay := baseMs * Pow2(attempt - 1);
      SleepSum(baseMs, attempt);
      sleptMs := sleptMs + delay;
      last := outcome(attempt + 1);
      attempts := attempt + 1;
    }
  }

  // By default a refresh that keeps failing makes its attempts 250 ms and 500 ms apart.
  lemma DefaultBackoffs()
    ensures REFRESH_TRANSIENT_RETRIES == 2
    ensures REFRESH_BACKOFF_BASE_MS * (Pow2(1) - 1) == 250 && REFRESH_BACKOFF_BASE_MS * (Pow2(2) - 1) == 250 + 500
  {
  }

  lemma SleepSum(baseMs: nat, attempt: nat)
    requires 1 <= attempt
    ensures baseMs * (Pow2(attempt - 1) - 1) + baseMs * Pow2(attempt - 1) == baseMs * (Pow2(attempt) - 1)
  {
    var p := Pow2(attempt - 1);
    assert Pow2(attempt) == 2 * p;
    assert baseMs * (p - 1) + baseMs * p == baseMs * ((p - 1) + p);
  }
}
