/**
 What the runs of the refresh machine come to, told by the server's replies alone: how a refresh chain ends,
 why a token is lost and a logout announced, and how a caller ends.
 */
module ApiOutcomes {
  import opened Options
  import opened ApiModule
  import opened ApiMachine
  import opened ApiRuns

  // ---------- refresh chains ----------

  // The replies the attempts of chain p have met in the first j steps.
  function Replies(actions: seq<Action>, j: nat, p: nat): seq<Outcome>
    requires j <= |actions|
    decreases j
  {
    if j == 0 then []
    else if actions[j - 1].AttemptEnds? && actions[j - 1].promise == p
    then Replies(actions, j - 1, p) + [actions[j - 1].outcome]
    else Replies(actions, j - 1, p)
  }

  predicate AllTransient(outcomes: seq<Outcome>) {
    forall k :: 0 <= k < |outcomes| ==> outcomes[k].Transient?
  }

  // A chain under way has met transient replies only, one for each attempt it is past; a settled one has
  // followed the retry rule.
  predicate ChainFits(chain: Chain, replies: seq<Outcome>) {
    match chain
    case Fetching(k) => k == |replies| + 1 && AllTransient(replies) && |replies| <= REFRESH_TRANSIENT_RETRIES
    case Received(k, outcome) =>
      k == |replies| && 0 < k <= REFRESH_TRANSIENT_RETRIES + 1 && outcome == replies[k - 1]
        && AllTransient(replies[..k - 1])
    case BackingOff(k) => k == |replies| && AllTransient(replies) && 0 < k <= REFRESH_TRANSIENT_RETRIES
    case Settled(result) => EndsAfter(replies, REFRESH_TRANSIENT_RETRIES, result)
  }

  ghost predicate ChainsFit(s: State, actions: seq<Action>, j: nat)
    requires j <= |actions|
  {
    forall p :: if p in s.chains then ChainFits(s.chains[p], Replies(actions, j, p)) else Replies(actions, j, p) == []
  }

  lemma StepKeepsFit(s: State, a: Action, p: nat, replies: seq<Outcome>)
    requires Enabled(s, a)
    requires if p in s.chains then ChainFits(s.chains[p], replies) else replies == []
    ensures var replies' := if a.AttemptEnds? && a.promise == p then replies + [a.outcome] else replies;
            if p in Apply(s, a).chains then ChainFits(Apply(s, a).chains[p], replies') else replies' == []
  {
    if a.AttemptEnds? && a.promise == p {
      assert (replies + [a.outcome])[..|replies|] == replies;
    } else if a.Decide? && a.promise == p {
      var k := s.chains[p].attempt;
      assert forall i :: 0 <= i < k - 1 ==> replies[i] == replies[..k - 1][i];
    } else if !(a.Wake? && a.promise == p) {
      OthersLeaveChain(s, a, p);
    }
  }

  lemma OthersLeaveChain(s: State, a: Action, p: nat)
    requires Enabled(s, a) && !OwnStretch(a, p)
    ensures p in s.chains ==> p in Apply(s, a).chains && Apply(s, a).chains[p] == s.chains[p]
    ensures p !in s.chains && p in Apply(s, a).chains ==> Apply(s, a).chains[p] == Fetching(1)
  {
  }

  lemma {:induction false} ReachableChainsFit(states: seq<State>, actions: seq<Action>, j: nat)
    requires IsRun(states, actions) && j < |states|
    ensures ChainsFit(states[j], actions, j)
  {
    if 0 < j {
      ReachableChainsFit(states, actions, j - 1);
      assert StepsTo(states[j - 1], actions[j - 1], states[j]);
      forall p
        ensures if p in states[j].chains then ChainFits(states[j].chains[p], Replies(actions, j, p))
                else Replies(actions, j, p) == []
      {
        StepKeepsFit(states[j - 1], actions[j - 1], p, Replies(actions, j - 1, p));
      }
    }
  }

  // A chain that has settled has met just the replies after which the retry loop stops, and its result is
  // the last of them: terminal or refreshed at the first such reply, transient after three transient ones.
  lemma SettledChainsFollowTheRule(states: seq<State>, actions: seq<Action>, j: nat, p: nat)
    requires IsRun(states, actions) && j < |states| && p in states[j].chains && states[j].chains[p].Settled?
    ensures EndsAfter(Replies(actions, j, p), REFRESH_TRANSIENT_RETRIES, states[j].chains[p].result)
    ensures states[j].chains[p].result.Transient? ==>
              |Replies(actions, j, p)| == 3 && AllTransient(Replies(actions, j, p))
  {
    ReachableChainsFit(states, actions, j);
  }

  lemma {:induction false} RepliesArrive(actions: seq<Action>, j: nat, p: nat, n: nat) returns (k: nat)
    requires j <= |actions| && n < |Replies(actions, j, p)|
    ensures k < j && actions[k] == AttemptEnds(p, Replies(actions, j, p)[n])
    decreases j
  {
    k := j - 1;
    if n < |Replies(actions, j - 1, p)| {
      k := RepliesArrive(actions, j - 1, p, n);
    }
  }

  // Some attempt of chain p was refused for good.
  predicate RefusedAt(actions: seq<Action>, p: nat, k: nat)
    requires k < |actions|
  {
    actions[k].AttemptEnds? && actions[k].promise == p && actions[k].outcome.Terminal?
  }

  lemma TerminalChainsWereRefused(states: seq<State>, actions: seq<Action>, j: nat, p: nat) returns (k: nat)
    requires IsRun(states, actions) && j < |states| && EndedTerminally(states[j].chains, p)
    ensures k < j && RefusedAt(actions, p, k)
  {
    SettledChainsFollowTheRule(states, actions, j, p);
    k := RepliesArrive(actions, j, p, |Replies(actions, j, p)| - 1);
  }

  // ---------- probes ----------

  // The answer of probe q did not confirm the session, or it had no token to ask with.
  ghost predicate UnconfirmedAt(states: seq<State>, actions: seq<Action>, q: nat, l: nat)
    requires l < |actions| && l < |states|
  {
    && actions[l].ProbeEnds? && actions[l].probe == q && q in states[l].probes
    && (!actions[l].alive || !Usable(states[l].probes[q].token))
  }

  lemma ProbeStep(s: State, a: Action, q: nat)
    requires Enabled(s, a) && q in Apply(s, a).probes && Apply(s, a).probes[q].Answer?
    ensures (q in s.probes && s.probes[q] == Apply(s, a).probes[q])
            || (a.ProbeEnds? && a.probe == q && q in s.probes
                && Apply(s, a).probes[q].alive == (a.alive && Usable(s.probes[q].token)))
  {
    StepTouchesProbes(s, a);
  }

  lemma {:induction false} UnconfirmedProbesWereAnswered(states: seq<State>, actions: seq<Action>, j: nat, q: nat)
    returns (l: nat)
    requires IsRun(states, actions) && j < |states|
    requires q in states[j].probes && states[j].probes[q].Answer? && !states[j].probes[q].alive
    ensures l < j && UnconfirmedAt(states, actions, q, l)
    decreases j
  {
    l := 0;
    if 0 < j {
      assert StepsTo(states[j - 1], actions[j - 1], states[j]);
      ProbeStep(states[j - 1], actions[j - 1], q);
      l := j - 1;
      if q in states[j - 1].probes && states[j - 1].probes[q] == states[j].probes[q] {
        l := UnconfirmedProbesWereAnswered(states, actions, j - 1, q);
      }
    }
  }

  // ---------- why a logout is announced and a token lost ----------

  // An announced logout names a refresh one of whose attempts was refused for good, and a probe that did not
  // confirm the session.
  lemma LogoutsWereRefused(states: seq<State>, actions: seq<Action>, i: nat, n: nat) returns (k: nat, l: nat)
    requires IsRun(states, actions) && i < |states|
    requires n < |states[i].log| && states[i].log[n].Unauthenticated?
    ensures k < i && RefusedAt(actions, states[i].log[n].promise, k)
    ensures l < i && UnconfirmedAt(states, actions, states[i].log[n].probe, l)
  {
    LogoutsAreJustified(states, actions, i, n);
    k := TerminalChainsWereRefused(states, actions, i, states[i].log[n].promise);
    l := UnconfirmedProbesWereAnswered(states, actions, i, states[i].log[n].probe);
  }

  // A step takes the token away only from outside, or for a caller whose refresh was refused for good and
  // whose probe did not confirm the session.  Failing to reach the server never does.
  lemma LostTokensWereRefused(states: seq<State>, actions: seq<Action>, j: nat)
    requires IsRun(states, actions) && j < |actions|
    requires states[j].v.accessToken.Some? && states[j + 1].v.accessToken.None?
    ensures actions[j] == SetToken(None)
            || (actions[j].ResumeProbe? && actions[j].caller in states[j].callers
                && states[j].callers[actions[j].caller].AwaitingProbe?
                && var at := states[j].callers[actions[j].caller];
                   && (exists k :: 0 <= k < j && RefusedAt(actions, at.promise, k))
                   && (exists l :: 0 <= l < j && UnconfirmedAt(states, actions, at.probe, l)))
  {
    ReachableIsSound(states, actions, j);
    assert StepsTo(states[j], actions[j], states[j + 1]);
    OnlyLogoutClearsTheToken(states[j], actions[j]);
    if actions[j] != SetToken(None) {
      var at := states[j].callers[actions[j].caller];
      var k := TerminalChainsWereRefused(states, actions, j, at.promise);
      var l := UnconfirmedProbesWereAnswered(states, actions, j, at.probe);
    }
  }

  // ---------- what a caller does ----------

  // A usable token whose expiry is known and at most 65 whole seconds away.
  predicate Expiring(token: Option<Token>, now: nat) {
    token.Some? && token.value.text != "" && token.value.exp.Some? && token.value.exp.value - now / 1000 <= 65
  }

  // A step of a caller that leaves tokens, timers, chains, probes and history alone.
  predicate OnlyMoves(s: State, s': State, c: nat, to: Caller) {
    s' == s.(callers := s.callers[c := to])
  }

  // A caller that shares the refresh in flight, or starts the first attempt of a new one.
  predicate Refreshes(s: State, s': State, c: nat, purpose: Purpose, newPromise: nat) {
    var p := if s.v.refreshPromise.Some? then s.v.refreshPromise.value else newPromise;
    && s'.callers == s.callers[c := AwaitingRefresh(p, purpose)]
    && s'.v.refreshPromise == Some(p) && s'.v.refreshAwaiters == s.v.refreshAwaiters + 1
    && s'.chains == (if s.v.refreshPromise.Some? then s.chains else s.chains[newPromise := Fetching(1)])
    && s'.v.accessToken == s.v.accessToken && s'.v.scheduled == s.v.scheduled && s'.v.timer == s.v.timer
    && s'.probes == s.probes && s'.v.mePromise == s.v.mePromise && s'.log == s.log
  }

  // A request refreshes before it is sent exactly when it is not for an auth endpoint and the token in place
  // is expiring; a focus handler refreshes exactly when the token is.
  lemma CallersStartSo(states: seq<State>, actions: seq<Action>, j: nat)
    requires IsRun(states, actions) && j < |actions|
    ensures var s, s', a := states[j], states[j + 1], actions[j];
            && (a.Fetch? ==>
                  if !a.authEndpoint && Expiring(s.v.accessToken, s.now)
                  then Refreshes(s, s', a.caller, Preflight(a.credentialCheck), a.newPromise)
                  else OnlyMoves(s, s', a.caller, Sending(a.credentialCheck)))
            && (a.Ensure? ==>
                  if Expiring(s.v.accessToken, s.now) then Refreshes(s, s', a.caller, Proactive, a.newPromise)
                  else OnlyMoves(s, s', a.caller, Done(Silent)))
  {
    ReachableIsSound(states, actions, j);
    assert StepsTo(states[j], actions[j], states[j + 1]);
  }

  // A reply makes the caller refresh exactly when it is a 401 and not to a credential check; every other reply
  // is handed to the caller, and so is that of the request sent again.
  lemma RepliesAreTakenSo(states: seq<State>, actions: seq<Action>, j: nat)
    requires IsRun(states, actions) && j < |actions|
    ensures var s, s', a := states[j], states[j + 1], actions[j];
            && (a.Respond? ==>
                  if a.unauthorized && s.callers[a.caller] == Sending(false)
                  then Refreshes(s, s', a.caller, Reactive, a.newPromise)
                  else OnlyMoves(s, s', a.caller, Done(Responded)))
            && (a.RetryEnds? ==> OnlyMoves(s, s', a.caller, Done(Responded)))
  {
    assert StepsTo(states[j], actions[j], states[j + 1]);
  }

  // The token in place is the one last handed over from outside or brought by a refresh, and so it is logged.
  lemma TokensAreStoredSo(states: seq<State>, actions: seq<Action>, j: nat)
    requires IsRun(states, actions) && j < |actions|
    ensures var s, s', a := states[j], states[j + 1], actions[j];
            && (a.SetToken? ==> s'.v.accessToken == a.token && s'.log == s.log + [TokenSet(a.token)])
            && (a.AttemptEnds? && a.outcome.Refreshed? ==>
                  s'.v.accessToken == Some(a.outcome.token) && s'.log == s.log + [TokenSet(Some(a.outcome.token))])
            && (a.AttemptEnds? && !a.outcome.Refreshed? ==> s'.v == s.v && s'.log == s.log)
            && (a.SetToken? || a.AttemptEnds? ==> s'.callers == s.callers && s'.probes == s.probes)
            && (a.Tick? || a.Decide? || a.Wake? ==> s'.v == s.v && s'.log == s.log && s'.callers == s.callers)
            && s'.now == s.now + (if a.Tick? then a.elapsed else 0) && s'.inBrowser == s.inBrowser
  {
    assert StepsTo(states[j], actions[j], states[j + 1]);
  }

  // When its refresh has ended a caller goes on by the replies the refresh met: a proactive one is done and a
  // held-up request is sent, whatever they were; a refused one is sent again with the new token, asks for a
  // probe when the server refused for good, and fails as unavailable after three failures to reach it.  No
  // token is lost and nothing announced at that step.
  lemma WaitersGoOnSo(states: seq<State>, actions: seq<Action>, j: nat, replies: seq<Outcome>)
    requires IsRun(states, actions) && j < |actions| && actions[j].Resume?
    requires actions[j].caller in states[j].callers && states[j].callers[actions[j].caller].AwaitingRefresh?
    requires replies == Replies(actions, j, states[j].callers[actions[j].caller].promise)
    ensures var s, s', c := states[j], states[j + 1], actions[j].caller;
            var at, to := s.callers[c], s'.callers[c];
            && replies != [] && s'.callers == s.callers[c := to] && s'.chains == s.chains && s'.log == s.log
            && s'.v.accessToken == s.v.accessToken && s'.v.scheduled == s.v.scheduled && s'.v.timer == s.v.timer
            && s'.v.refreshAwaiters == s.v.refreshAwaiters - 1
            && match at.purpose
               case Proactive => to == Done(Silent)
               case Preflight(check) => to == Sending(check)
               case Reactive =>
                 match replies[|replies| - 1]
                 case Refreshed(_) => to == Retrying
                 case Terminal(_) =>
                   var probe := if s.v.mePromise.Some? then s.v.mePromise.value else actions[j].newProbe;
                   to == AwaitingProbe(at.promise, probe)
                 case Transient => |replies| == 3 && AllTransient(replies) && to == Done(RefreshUnavailable)
  {
    assert StepsTo(states[j], actions[j], states[j + 1]);
    SettledChainsFollowTheRule(states, actions, j, states[j].callers[actions[j].caller].promise);
  }

  // A probe's answer ends its caller: with the first reply when the session was confirmed, and otherwise
  // logged out.  Then a token still in place is taken away, and the logout announced in a browser.
  lemma ProbesAreConcludedSo(states: seq<State>, actions: seq<Action>, j: nat)
    requires IsRun(states, actions) && j < |actions| && actions[j].ResumeProbe?
    requires actions[j].caller in states[j].callers && states[j].callers[actions[j].caller].AwaitingProbe?
    requires states[j].callers[actions[j].caller].probe in states[j].probes
    requires states[j].probes[states[j].callers[actions[j].caller].probe].Answer?
    ensures var s, s', c := states[j], states[j + 1], actions[j].caller;
            var at := s.callers[c];
            && (s.probes[at.probe].alive ==> OnlyMoves(s, s', c, Done(Responded)))
            && (!s.probes[at.probe].alive && s.v.accessToken.None? ==> OnlyMoves(s, s', c, Done(LoggedOut)))
            && (!s.probes[at.probe].alive && s.v.accessToken.Some? ==>
                  && s'.callers == s.callers[c := Done(LoggedOut)]
                  && s'.v.accessToken.None? && s'.v.timer.None? && s'.v.scheduled == map[]
                  && s'.log == s.log + [TokenSet(None)]
                               + (if s.inBrowser then [Unauthenticated(at.promise, at.probe)] else []))
  {
    assert StepsTo(states[j], actions[j], states[j + 1]);
    ReachableIsSound(states, actions, j);
  }

  // ---------- nobody is stuck ----------

  // Every caller that is not done has a step to take or to wait for, whatever the server's next reply is.
  lemma CallersAreNeverStuck(states: seq<State>, actions: seq<Action>, i: nat, c: nat, reply: bool)
    returns (next: Action)
    requires IsRun(states, actions) && i < |states|
    requires c in states[i].callers && !states[i].callers[c].Done?
    ensures Enabled(states[i], next)
    ensures var at := states[i].callers[c];
            match at
            case Sending(_) => next.Respond? && next.caller == c && next.unauthorized == reply
            case Retrying => next == RetryEnds(c)
            case AwaitingRefresh(p, _) => OwnStretch(next, p) || (next.Resume? && next.caller == c)
            case AwaitingProbe(_, q) => next == ProbeEnds(q, reply) || next == ResumeProbe(c)
            case Done(_) => true
  {
    var s := states[i];
    ReachableIsSound(states, actions, i);
    match s.callers[c] {
      case Sending(_) =>
        var p := Bound(s.chains.Keys);
        next := Respond(c, reply, p);
      case Retrying => next := RetryEnds(c);
      case AwaitingRefresh(_, _) => next := WaitersAreServed(states, actions, i, c);
      case AwaitingProbe(_, q) => next := if s.probes[q].Asking? then ProbeEnds(q, reply) else ResumeProbe(c);
    }
  }

  // An attempt under way may meet any reply; a timer that is due may fire; and requests, focus handlers and
  // tokens may come at any time.
  lemma TheWorldIsFree(states: seq<State>, actions: seq<Action>, i: nat, outcome: Outcome, token: Option<Token>,
                       authEndpoint: bool, check: bool, elapsed: nat)
    returns (c: nat, p: nat)
    requires IsRun(states, actions) && i < |states| && (outcome.Refreshed? ==> outcome.token.text != "")
    ensures var s := states[i];
            && Enabled(s, Fetch(c, authEndpoint, check, p)) && Enabled(s, Ensure(c, p))
            && Enabled(s, SetToken(token)) && Enabled(s, Tick(elapsed))
            && (forall k :: k in s.chains && s.chains[k].Fetching? ==> Enabled(s, AttemptEnds(k, outcome)))
            && (forall id :: id in s.v.scheduled && s.v.scheduled[id] <= s.now ==> Enabled(s, TimerFires(id, c, p)))
  {
    c := Bound(states[i].callers.Keys);
    p := Bound(states[i].chains.Keys);
  }

  // ---------- the timer ----------

  // Storing a token leaves a timer pending exactly in a browser, for a usable token whose expiry is known and
  // more than 60 whole seconds away; it is due 60 seconds before that.
  lemma StoringSchedulesIff(v: Shared, inBrowser: bool, now: nat, token: Option<Token>)
    ensures var v' := WithToken(v, inBrowser, now, token);
            && v'.accessToken == token
            && (v'.timer.Some? <==>
                  && inBrowser && token.Some? && token.value.text != "" && token.value.exp.Some?
                  && token.value.exp.value - now / 1000 > 60)
            && (v'.timer.Some? ==>
                  && v'.timer.value in v'.scheduled
                  && v'.scheduled[v'.timer.value] == 1000 * (token.value.exp.value - 60) + now % 1000)
  {
  }
}
