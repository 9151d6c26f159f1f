/**
 Theorems about every run of the client-side refresh machine: any number of callers, any interleaving of
 their stretches, any replies from the server.
 */
module ApiRuns {
  import opened Options
  import opened ApiModule
  import opened ApiMachine

  predicate StepsTo(s: State, a: Action, s': State) {
    Enabled(s, a) && s' == Apply(s, a)
  }

  ghost predicate IsRun(states: seq<State>, actions: seq<Action>) {
    && |states| == |actions| + 1
    && (states[0] == Start(true) || states[0] == Start(false))
    && forall i :: 0 <= i < |actions| ==> StepsTo(states[i], actions[i], states[i + 1])
  }

  ghost predicate Inv(s: State) {
    && Singleflight(s) && ProbesOk(s) && AskersOk(s) && AnnouncementsOk(s)
    && TimerOk(s.v, s.inBrowser) && AttemptsOk(s) && LogOk(s)
  }

  lemma StepKeepsInv(s: State, a: Action)
    requires Inv(s) && Enabled(s, a)
    ensures Inv(Apply(s, a))
  {
    StepKeepsSingleflight(s, a);
    StepKeepsProbes(s, a);
    StepKeepsAskers(s, a);
    StepKeepsAnnouncements(s, a);
    StepKeepsTimer(s, a);
    StepKeepsAttempts(s, a);
    StepKeepsLog(s, a);
  }

  lemma {:induction false} ReachableIsSound(states: seq<State>, actions: seq<Action>, i: nat)
    requires IsRun(states, actions) && i < |states|
    ensures Inv(states[i])
  {
    if i > 0 {
      ReachableIsSound(states, actions, i - 1);
      assert StepsTo(states[i - 1], actions[i - 1], states[i]);
      StepKeepsInv(states[i - 1], actions[i - 1]);
    }
  }

  // The counter counts the callers between their increment and their decrement, a promise is held exactly
  // while there are any, all of them hold it, and no two refresh chains are ever under way together.
  lemma RefreshesAreSingleflight(states: seq<State>, actions: seq<Action>, i: nat)
    requires IsRun(states, actions) && i < |states|
    ensures var s := states[i];
            && s.v.refreshAwaiters == |Waiting(s.callers)|
            && (s.v.refreshPromise.Some? <==> s.v.refreshAwaiters > 0)
            && (forall c :: c in Waiting(s.callers) ==> s.v.refreshPromise == Some(s.callers[c].promise))
            && (forall p, q :: p in s.chains && q in s.chains && !s.chains[p].Settled? && !s.chains[q].Settled? ==>
                p == q)
  {
    ReachableIsSound(states, actions, i);
    assert Waiting(states[i].callers) == {} <==> |Waiting(states[i].callers)| == 0;
  }

  // ---------- nobody waits in vain ----------

  // How many of its own stretches a chain still has before it, at most.
  function StretchesLeft(chain: Chain): int {
    match chain
    case Fetching(k) => 3 * (REFRESH_TRANSIENT_RETRIES + 1 - k) + 2
    case Received(k, _) => 3 * (REFRESH_TRANSIENT_RETRIES + 1 - k) + 1
    case BackingOff(k) => 3 * (REFRESH_TRANSIENT_RETRIES + 1 - k)
    case Settled(_) => 0
  }

  predicate OwnStretch(a: Action, p: nat) {
    (a.AttemptEnds? || a.Decide? || a.Wake?) && a.promise == p
  }

  // The measure is between 0 and 8 and is 0 exactly when the chain is settled.  Each of the chain's own
  // stretches, whatever its outcome, lowers it, and no stretch of anybody raises it.
  lemma StretchesRunOut(s: State, a: Action, p: nat)
    requires Singleflight(s) && AttemptsOk(s) && Enabled(s, a) && p in s.chains
    ensures 0 <= StretchesLeft(s.chains[p]) <= 8 && (StretchesLeft(s.chains[p]) == 0 <==> s.chains[p].Settled?)
    ensures p in Apply(s, a).chains
    ensures OwnStretch(a, p) ==> StretchesLeft(Apply(s, a).chains[p]) < StretchesLeft(s.chains[p])
    ensures !OwnStretch(a, p) ==> Apply(s, a).chains[p] == s.chains[p]
  {
    assert s.chains[p].Settled? || AttemptInBudget(s.chains[p]);
  }

  function OwnStretches(actions: seq<Action>, i: nat, j: nat, p: nat): nat
    requires i <= j <= |actions|
    decreases j
  {
    if i == j then 0 else OwnStretches(actions, i, j - 1, p) + if OwnStretch(actions[j - 1], p) then 1 else 0
  }

  // In every run a chain has at most eight stretches, and at most as many as its measure leaves it.
  lemma {:induction false} ChainsEnd(states: seq<State>, actions: seq<Action>, i: nat, j: nat, p: nat)
    requires IsRun(states, actions) && i <= j < |states| && p in states[i].chains
    ensures p in states[j].chains && 0 <= StretchesLeft(states[j].chains[p])
    ensures OwnStretches(actions, i, j, p) + StretchesLeft(states[j].chains[p])
            <= StretchesLeft(states[i].chains[p]) <= 8
    decreases j
  {
    if i < j {
      ChainsEnd(states, actions, i, j - 1, p);
      ReachableIsSound(states, actions, j - 1);
      ReachableIsSound(states, actions, j);
      assert StepsTo(states[j - 1], actions[j - 1], states[j]);
      StretchesRunOut(states[j - 1], actions[j - 1], p);
      StretchesRunOut(states[j], Tick(0), p);
    } else {
      ReachableIsSound(states, actions, i);
      StretchesRunOut(states[i], Tick(0), p);
    }
  }

  // Whoever waits has something enabled to wait for: a stretch of the chain, so at most eight of them, or
  // its own resumption once the chain is settled.
  lemma WaitersAreServed(states: seq<State>, actions: seq<Action>, i: nat, c: nat) returns (next: Action)
    requires IsRun(states, actions) && i < |states|
    requires c in Waiting(states[i].callers)
    ensures Enabled(states[i], next)
    ensures var s, p := states[i], states[i].callers[c].promise;
            && p in s.chains && 0 <= StretchesLeft(s.chains[p]) <= 8
            && (s.chains[p].Settled? ==> next.Resume? && next.caller == c)
            && (!s.chains[p].Settled? ==> OwnStretch(next, p))
    ensures forall a :: Enabled(states[i], a) && OwnStretch(a, states[i].callers[c].promise) ==>
              && states[i].callers[c].promise in Apply(states[i], a).chains
              && 0 <= StretchesLeft(Apply(states[i], a).chains[states[i].callers[c].promise])
                   < StretchesLeft(states[i].chains[states[i].callers[c].promise])
  {
    ReachableIsSound(states, actions, i);
    var s, p := states[i], states[i].callers[c].promise;
    assert c in Waiting(s.callers);
    forall a | Enabled(s, a) && OwnStretch(a, p)
      ensures p in Apply(s, a).chains
      ensures 0 <= StretchesLeft(Apply(s, a).chains[p]) < StretchesLeft(s.chains[p])
    {
      StepKeepsInv(s, a);
      StretchesRunOut(s, a, p);
      StretchesRunOut(Apply(s, a), Tick(0), p);
    }
    StretchesRunOut(s, Tick(0), p);
    match s.chains[p] {
      case Fetching(_) => next := AttemptEnds(p, Transient);
      case Received(_, _) => next := Decide(p);
      case BackingOff(_) => next := Wake(p);
      case Settled(_) =>
        var q := FreshProbe(s.probes);
        next := Resume(c, q);
    }
  }

  lemma FreshProbe(probes: map<nat, Probe>) returns (q: nat)
    ensures q !in probes
  {
    q := Bound(probes.Keys);
  }

  lemma {:induction false} Bound(used: set<nat>) returns (q: nat)
    ensures forall x :: x in used ==> x < q
    decreases |used|
  {
    if used == {} {
      q := 0;
    } else {
      var x :| x in used;
      var rest := Bound(used - {x});
      q := if rest <= x then x + 1 else rest;
      assert forall y :: y in used ==> y == x || y in used - {x};
    }
  }

  // Over a whole run: a logout is announced only for a refresh that ended terminally and a probe that did
  // not confirm the session.
  lemma LogoutsAreJustified(states: seq<State>, actions: seq<Action>, i: nat, n: nat)
    requires IsRun(states, actions) && i < |states|
    requires n < |states[i].log| && states[i].log[n].Unauthenticated?
    ensures Justified(states[i], states[i].log[n])
  {
    ReachableIsSound(states, actions, i);
  }

  // Between two announcements a token was stored.
  lemma LogoutsAreSpaced(states: seq<State>, actions: seq<Action>, i: nat, m: nat, n: nat)
    requires IsRun(states, actions) && i < |states|
    requires m < n < |states[i].log| && states[i].log[m].Unauthenticated? && states[i].log[n].Unauthenticated?
    ensures exists k :: m < k < n && states[i].log[k].TokenSet? && states[i].log[k].token.Some?
  {
    ReachableIsSound(states, actions, i);
    assert StoredBetween(states[i].log, m, n);
    var k :| m <= k < n && states[i].log[k].TokenSet? && states[i].log[k].token.Some?;
    assert m < k;
  }

  // In every reachable state the browser has at most one timer pending: that of the handle, for the token in
  // place, due in the second that leaves it the lead; so no token that was replaced ever fires one.
  lemma OnlyTheHandlesTimerIsPending(states: seq<State>, actions: seq<Action>, i: nat, id: nat)
    requires IsRun(states, actions) && i < |states|
    ensures id in states[i].v.scheduled <==> states[i].v.timer == Some(id)
    ensures id in states[i].v.scheduled ==>
              && DecodedExp(states[i].v.accessToken).Some?
              && states[i].v.scheduled[id] / 1000
                 == DecodedExp(states[i].v.accessToken).value - PROACTIVE_REFRESH_LEAD_SECONDS
  {
    ReachableIsSound(states, actions, i);
    assert id in states[i].v.scheduled <==> id in states[i].v.scheduled.Keys;
  }

  // Whenever the timer fires in a run it starts or joins a refresh.
  lemma TimersAreNeverIdle(states: seq<State>, actions: seq<Action>, i: nat)
    requires IsRun(states, actions) && i < |actions| && actions[i].TimerFires?
    ensures actions[i].caller in Waiting(states[i + 1].callers)
    ensures SecondsLeft(states[i].v.accessTokenExp.value, states[i].now) <= PROACTIVE_REFRESH_LEAD_SECONDS
  {
    ReachableIsSound(states, actions, i);
    assert StepsTo(states[i], actions[i], states[i + 1]);
    FiringIsNeverIdle(states[i], actions[i].timer, actions[i].caller, actions[i].newPromise);
  }

  // ---------- which token a logout throws away ----------

  // The position of the last token event, or -1.
  function LastStore(log: seq<Event>): (k: int)
    ensures -1 <= k < |log|
    ensures forall i :: k < i < |log| ==> log[i].Unauthenticated?
    ensures 0 <= k ==> log[k].TokenSet? && LastToken(log) == log[k].token
    ensures k == -1 ==> LastToken(log) == None
  {
    if log == [] then -1
    else if log[|log| - 1].TokenSet? then |log| - 1
    else LastStore(log[..|log| - 1])
  }

  // The steps that store a token or take it away.
  predicate Stores(s: State, a: Action)
    requires Enabled(s, a)
  {
    || a.SetToken?
    || (a.AttemptEnds? && a.outcome.Refreshed?)
    || (a.ResumeProbe? && !s.probes[s.callers[a.caller].probe].alive && s.v.accessToken.Some?)
  }

  ghost predicate StoresAt(states: seq<State>, actions: seq<Action>, k: nat)
    requires k < |actions| && k < |states|
  {
    Enabled(states[k], actions[k]) && Stores(states[k], actions[k])
  }

  lemma StepStores(s: State, a: Action)
    requires Enabled(s, a)
    ensures !Stores(s, a) ==> Apply(s, a).v.accessToken == s.v.accessToken && Apply(s, a).log == s.log
    ensures Stores(s, a) ==> |s.log| <= LastStore(Apply(s, a).log)
  {
    if Stores(s, a) {
      assert Apply(s, a).log[|s.log|].TokenSet?;
    }
  }

  // Between two states of a run the last store moves exactly when some step between them stores.
  lemma {:induction false} StoresBetween(states: seq<State>, actions: seq<Action>, i: nat, j: nat)
    requires IsRun(states, actions) && i <= j < |states|
    ensures LastStore(states[i].log) <= LastStore(states[j].log)
    ensures LastStore(states[j].log) == LastStore(states[i].log) <==>
              forall k :: i <= k < j ==> !StoresAt(states, actions, k)
    ensures states[j].v.accessToken == states[i].v.accessToken
            || exists k :: i <= k < j && StoresAt(states, actions, k)
                && states[k + 1].v.accessToken == states[j].v.accessToken
    decreases j
  {
    if i < j {
      StoresBetween(states, actions, i, j - 1);
      assert StepsTo(states[j - 1], actions[j - 1], states[j]);
      StepStores(states[j - 1], actions[j - 1]);
      assert StoresAt(states, actions, j - 1) <==> Stores(states[j - 1], actions[j - 1]);
    }
  }

  // The token a probe was asked about stays with it.
  lemma {:induction false} ProbesKeepTheirToken(states: seq<State>, actions: seq<Action>, i: nat, j: nat, q: nat)
    requires IsRun(states, actions) && i <= j < |states| && q in states[i].probes
    ensures q in states[j].probes && states[j].probes[q].token == states[i].probes[q].token
    decreases j
  {
    if i < j {
      ProbesKeepTheirToken(states, actions, i, j - 1, q);
      assert StepsTo(states[j - 1], actions[j - 1], states[j]);
      StepTouchesProbes(states[j - 1], actions[j - 1]);
    }
  }

  // The step with which a caller of probe q takes the token away.
  predicate Discards(s: State, a: Action, q: nat) {
    && a.ResumeProbe? && Enabled(s, a) && s.callers[a.caller].probe == q
    && !s.probes[q].alive && s.v.accessToken.Some?
  }

  // Step i sends a probe out and step j, on its answer, discards the token in place.  The last store is
  // still the one of step i exactly when no step between them stored or cleared a token, and then the
  // discarded token is the one the probe was asked about.  When it is another one, a step between the two
  // put it there, and comparing it with the probe's token would have shown it.
  lemma LogoutDiscardsTheProbedTokenIff(states: seq<State>, actions: seq<Action>, i: nat, j: nat)
    requires IsRun(states, actions) && i < j < |actions|
    requires actions[i].Resume? && actions[i].newProbe in states[i + 1].probes
    requires Discards(states[j], actions[j], actions[i].newProbe)
    ensures states[j + 1].v.accessToken == None
    ensures states[j].probes[actions[i].newProbe].token == states[i].v.accessToken
    ensures LastStore(states[j].log) == LastStore(states[i].log) <==>
              forall k :: i < k < j ==> !StoresAt(states, actions, k)
    ensures (forall k :: i < k < j ==> !StoresAt(states, actions, k)) ==>
              states[j].v.accessToken == states[j].probes[actions[i].newProbe].token
    ensures states[j].v.accessToken != states[j].probes[actions[i].newProbe].token ==>
              exists k :: i < k < j && StoresAt(states, actions, k)
                && states[k + 1].v.accessToken == states[j].v.accessToken
  {
    assert StepsTo(states[i], actions[i], states[i + 1]) && StepsTo(states[j], actions[j], states[j + 1]);
    StepTouchesProbes(states[i], actions[i]);
    StepStores(states[i], actions[i]);
    ProbesKeepTheirToken(states, actions, i + 1, j, actions[i].newProbe);
    StoresBetween(states, actions, i + 1, j);
  }

  // It can be another one: while a caller's probe is under way a second caller's refresh succeeds, the
  // probe then fails to answer, and the token just obtained is discarded and the logout announced.
  lemma AFreshTokenCanBeDiscarded(oldText: string, newText: string) returns (states: seq<State>, actions: seq<Action>)
    requires oldText != "" && newText != ""
    ensures IsRun(states, actions) && |actions| == 11
    ensures var s, old', new' := states[10], Some(Token(oldText, None)), Some(Token(newText, None));
            && actions[10] == ResumeProbe(0) && s.v.accessToken == new'
            && s.callers == map[0 := AwaitingProbe(0, 0), 1 := AwaitingRefresh(1, Reactive)]
            && s.probes == map[0 := Answer(old', false)] && s.log == [TokenSet(old'), TokenSet(new')]
            && states[11].v.accessToken == None && states[11].log == s.log + [TokenSet(None), Unauthenticated(0, 0)]
  {
    var old', new' := Token(oldText, None), Token(newText, None);
    forall k | 0 <= k < 11
      ensures StepsTo(Scene(old', new', k), Move(old', new', k), Scene(old', new', k + 1))
    {
      if k < 6 {
        FirstRefreshFails(old', new', k);
      } else {
        SecondRefreshSucceeds(old', new', k);
      }
    }
    states := seq(12, k requires 0 <= k < 12 => Scene(old', new', k));
    actions := seq(11, k requires 0 <= k < 11 => Move(old', new', k));
    assert states[10] == Scene(old', new', 10) && states[11] == Scene(old', new', 11)
      && actions[10] == Move(old', new', 10);
  }

  function Move(old': Token, new': Token, k: nat): Action {
    if k == 0 then SetToken(Some(old'))
    else if k == 1 then Fetch(0, false, false, 0)
    else if k == 2 then Fetch(1, false, false, 0)
    else if k == 3 then Respond(0, true, 0)
    else if k == 4 then AttemptEnds(0, Terminal(401))
    else if k == 5 then Decide(0)
    else if k == 6 then Resume(0, 0)
    else if k == 7 then Respond(1, true, 1)
    else if k == 8 then AttemptEnds(1, Refreshed(new'))
    else if k == 9 then ProbeEnds(0, false)
    else ResumeProbe(0)
  }

  function Scene(old': Token, new': Token, k: nat): State {
    var v := Shared(if k == 0 || k == 11 then None else if k < 9 then Some(old') else Some(new'), None, None,
                    if 4 <= k <= 6 then Some(0) else if 8 <= k then Some(1) else None,
                    if 4 <= k <= 6 || 8 <= k then 1 else 0,
                    if 7 <= k <= 9 then Some(0) else None, map[], 0);
    var first := if k <= 3 then Sending(false) else if k <= 6 then AwaitingRefresh(0, Reactive)
                 else if k <= 10 then AwaitingProbe(0, 0) else Done(LoggedOut);
    var second := if k <= 7 then Sending(false) else AwaitingRefresh(1, Reactive);
    var failed := if k == 4 then Fetching(1) else if k == 5 then Received(1, Terminal(401)) else Settled(Terminal(401));
    var gained := if k == 8 then Fetching(1) else Received(1, Refreshed(new'));
    State(v, true, 0,
          if k <= 3 then map[] else if k <= 7 then map[0 := failed] else map[0 := failed, 1 := gained],
          if k <= 6 then map[]
          else if k <= 9 then map[0 := Asking(Some(old'))]
          else map[0 := Answer(Some(old'), false)],
          if k <= 1 then map[] else if k == 2 then map[0 := first] else map[0 := first, 1 := second],
          if k == 0 then [] else if k <= 8 then [TokenSet(Some(old'))]
          else if k <= 10 then [TokenSet(Some(old')), TokenSet(Some(new'))]
          else [TokenSet(Some(old')), TokenSet(Some(new'))] + [TokenSet(None)] + [Unauthenticated(0, 0)])
  }

  lemma FirstRefreshFails(old': Token, new': Token, k: nat)
    requires old'.text != "" && new'.text != "" && old'.exp == new'.exp == None && k < 6
    ensures StepsTo(Scene(old', new', k), Move(old', new', k), Scene(old', new', k + 1))
  {
  }

  lemma SecondRefreshSucceeds(old': Token, new': Token, k: nat)
    requires old'.text != "" && new'.text != "" && old'.exp == new'.exp == None && 6 <= k < 11
    ensures StepsTo(Scene(old', new', k), Move(old', new', k), Scene(old', new', k + 1))
  {
    var s, s' := Scene(old', new', k), Scene(old', new', k + 1);
    if k == 8 {
      assert s.log + [TokenSet(Some(new'))] == s'.log;
    }
  }
}
