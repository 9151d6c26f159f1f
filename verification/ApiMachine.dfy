/**
 The client-side refresh machine of frontend/lib/api.ts as a single-threaded event loop.

 A caller of `apiFetch` or `ensureFreshAccessToken` is a small program that stops at its awaits; between
 two of its stretches every other caller, every refresh chain, the probe and the timer may run.  `Apply`
 performs one stretch.  `log` is history: the tokens set and the logouts announced, in order.
 */
module ApiMachine {
  import opened Options
  import opened ApiModule

  // A refresh chain: an attempt in flight, its outcome received, a backoff sleep, or settled.
  datatype Chain =
    | Fetching(attempt: nat)
    | Received(attempt: nat, outcome: Outcome)
    | BackingOff(attempt: nat)
    | Settled(result: Outcome)

  // The liveness probe, in flight or answered, with the token it was asked about.
  datatype Probe = Asking(token: Option<Token>) | Answer(token: Option<Token>, alive: bool)

  datatype Purpose = Proactive | Preflight(credentialCheck: bool) | Reactive

  datatype Caller =
    | Sending(credentialCheck: bool)
    | AwaitingRefresh(promise: nat, purpose: Purpose)
    | Retrying
    | AwaitingProbe(promise: nat, probe: nat)
    | Done(end: End)

  datatype End = Silent | Responded | LoggedOut | RefreshUnavailable

  datatype Event = TokenSet(token: Option<Token>) | Unauthenticated(promise: nat, probe: nat)

  datatype State = State(
    v: Shared,
    inBrowser: bool,
    now: nat,
    chains: map<nat, Chain>,
    probes: map<nat, Probe>,
    callers: map<nat, Caller>,
    log: seq<Event>)

  datatype Action =
    | Tick(elapsed: nat)
    | SetToken(token: Option<Token>)                         // sign-in, sign-out, session restore
    | Fetch(caller: nat, authEndpoint: bool, credentialCheck: bool, newPromise: nat)
    | Ensure(caller: nat, newPromise: nat)                   // focus or visibility handler
    | TimerFires(timer: nat, caller: nat, newPromise: nat)
    | Respond(caller: nat, unauthorized: bool, newPromise: nat)
    | AttemptEnds(promise: nat, outcome: Outcome)
    | Decide(promise: nat)
    | Wake(promise: nat)
    | Resume(caller: nat, newProbe: nat)
    | ProbeEnds(probe: nat, alive: bool)
    | ResumeProbe(caller: nat)
    | RetryEnds(caller: nat)

  function Start(inBrowser: bool): State {
    State(Shared(None, None, None, None, 0, None, map[], 0), inBrowser, 0, map[], map[], map[], [])
  }

  predicate Enabled(s: State, a: Action) {
    match a
    case Tick(_) => true
    case SetToken(_) => true
    case Fetch(c, _, _, p) => c !in s.callers && p !in s.chains
    case Ensure(c, p) => c !in s.callers && p !in s.chains
    case TimerFires(t, c, p) => c !in s.callers && p !in s.chains && t in s.v.scheduled && s.v.scheduled[t] <= s.now
    case Respond(c, _, p) => c in s.callers && s.callers[c].Sending? && p !in s.chains
    case AttemptEnds(p, outcome) =>
      p in s.chains && s.chains[p].Fetching? && (outcome.Refreshed? ==> outcome.token.text != "")
    case Decide(p) => p in s.chains && s.chains[p].Received?
    case Wake(p) => p in s.chains && s.chains[p].BackingOff?
    case Resume(c, q) =>
      && c in s.callers && s.callers[c].AwaitingRefresh?
      && s.callers[c].promise in s.chains && s.chains[s.callers[c].promise].Settled? && q !in s.probes
    case ProbeEnds(q, _) => q in s.probes && s.probes[q].Asking?
    case ResumeProbe(c) =>
      && c in s.callers && s.callers[c].AwaitingProbe?
      && s.callers[c].probe in s.probes && s.probes[s.callers[c].probe].Answer?
    case RetryEnds(c) => c in s.callers && s.callers[c].Retrying?
  }

  // setAccessToken, from anywhere.
  function Store(s: State, token: Option<Token>): State {
    s.(v := WithToken(s.v, s.inBrowser, s.now, token), log := s.log + [TokenSet(token)])
  }

  // A caller shares the refresh in flight, or starts one.
  function Join(s: State, c: nat, purpose: Purpose, newPromise: nat): State {
    var v' := Joined(s.v, newPromise);
    s.(v := v', callers := s.callers[c := AwaitingRefresh(v'.refreshPromise.value, purpose)],
       chains := if s.v.refreshPromise.None? then s.chains[newPromise := Fetching(1)] else s.chains)
  }

  // ensureFreshAccessToken: nothing when the token is not near its expiry.
  function EnsureFresh(s: State, c: nat, purpose: Purpose, newPromise: nat, otherwise: Caller): State {
    if WantsRefresh(s.v, s.now) then Join(s, c, purpose, newPromise) else s.(callers := s.callers[c := otherwise])
  }

  // A terminal refresh asks /me once, sharing a probe already in flight.
  function Ask(s: State, c: nat, promise: nat, newProbe: nat): State {
    if s.v.mePromise.Some? then s.(callers := s.callers[c := AwaitingProbe(promise, s.v.mePromise.value)])
    else s.(v := s.v.(mePromise := Some(newProbe)),
            probes := s.probes[newProbe := Asking(s.v.accessToken)],
            callers := s.callers[c := AwaitingProbe(promise, newProbe)])
  }

  function AfterRefresh(s: State, c: nat, promise: nat, purpose: Purpose, result: Outcome, newProbe: nat): State {
    match purpose
    case Proactive => s.(callers := s.callers[c := Done(Silent)])
    case Preflight(check) => s.(callers := s.callers[c := Sending(check)])
    case Reactive =>
      match result
      case Refreshed(_) => s.(callers := s.callers[c := Retrying])
      case Terminal(_) => Ask(s, c, promise, newProbe)
      case Transient => s.(callers := s.callers[c := Done(RefreshUnavailable)])
  }

  // Only a caller that finds a token still in place announces the logout.
  function Conclude(s: State, c: nat, promise: nat, probe: nat, alive: bool): State {
    var ended := s.(callers := s.callers[c := Done(if alive then Responded else LoggedOut)]);
    if alive || s.v.accessToken.None? then ended
    else
      var cleared := Store(ended, None);
      if s.inBrowser then cleared.(log := cleared.log + [Unauthenticated(promise, probe)]) else cleared
  }

  function Apply(s: State, a: Action): State
    requires Enabled(s, a)
  {
    match a
    case Tick(elapsed) => s.(now := s.now + elapsed)
    case SetToken(token) => Store(s, token)
    case Fetch(c, authEndpoint, check, p) =>
      if authEndpoint then s.(callers := s.callers[c := Sending(check)])
      else EnsureFresh(s, c, Preflight(check), p, Sending(check))
    case Ensure(c, p) => EnsureFresh(s, c, Proactive, p, Done(Silent))
    case TimerFires(t, c, p) => EnsureFresh(s.(v := Fired(s.v, t)), c, Proactive, p, Done(Silent))
    case Respond(c, unauthorized, p) =>
      if unauthorized && !s.callers[c].credentialCheck then Join(s, c, Reactive, p)
      else s.(callers := s.callers[c := Done(Responded)])
    case AttemptEnds(p, outcome) =>
      var s' := s.(chains := s.chains[p := Received(s.chains[p].attempt, outcome)]);
      if outcome.Refreshed? then Store(s', Some(outcome.token)) else s'
    case Decide(p) =>
      var k, outcome := s.chains[p].attempt, s.chains[p].outcome;
      var again := outcome.Transient? && k <= REFRESH_TRANSIENT_RETRIES;
      s.(chains := s.chains[p := if again then BackingOff(k) else Settled(outcome)])
    case Wake(p) => s.(chains := s.chains[p := Fetching(s.chains[p].attempt + 1)])
    case Resume(c, q) =>
      var p, purpose := s.callers[c].promise, s.callers[c].purpose;
      AfterRefresh(s.(v := Left(s.v, p)), c, p, purpose, s.chains[p].result, q)
    case ProbeEnds(q, alive) =>
      s.(v := s.v.(mePromise := None),
          probes := s.probes[q := Answer(s.probes[q].token, alive && Usable(s.probes[q].token))])
    case ResumeProbe(c) =>
      Conclude(s, c, s.callers[c].promise, s.callers[c].probe, s.probes[s.callers[c].probe].alive)
    case RetryEnds(c) => s.(callers := s.callers[c := Done(Responded)])
  }

  // ---------- singleflight ----------

  function Waiting(callers: map<nat, Caller>): set<nat> {
    set c | c in callers && callers[c].AwaitingRefresh?
  }

  ghost predicate Singleflight(s: State) {
    && s.v.refreshAwaiters == |Waiting(s.callers)|
    && (s.v.refreshPromise.Some? <==> Waiting(s.callers) != {})
    && (forall c :: c in Waiting(s.callers) ==> s.v.refreshPromise == Some(s.callers[c].promise))
    && (s.v.refreshPromise.Some? ==> s.v.refreshPromise.value in s.chains)
    && (forall p :: p in s.chains && !s.chains[p].Settled? ==> s.v.refreshPromise == Some(p))
  }

  // A waiting caller that joins, or one that leaves, moves the count and the set together.
  lemma WaitingChanges(callers: map<nat, Caller>, c: nat, to: Caller)
    ensures Waiting(callers[c := to]) == if to.AwaitingRefresh? then Waiting(callers) + {c} else Waiting(callers) - {c}
  {
  }

  lemma JoinKeepsSingleflight(s: State, c: nat, purpose: Purpose, newPromise: nat)
    requires Singleflight(s) && c !in Waiting(s.callers) && newPromise !in s.chains
    ensures Singleflight(Join(s, c, purpose, newPromise))
  {
    WaitingChanges(s.callers, c, AwaitingRefresh(Joined(s.v, newPromise).refreshPromise.value, purpose));
  }

  lemma LeaveKeepsSingleflight(s: State, c: nat, to: Caller)
    requires Singleflight(s) && c in Waiting(s.callers) && !to.AwaitingRefresh?
    requires s.callers[c].promise in s.chains && s.chains[s.callers[c].promise].Settled?
    ensures Singleflight(s.(v := Left(s.v, s.callers[c].promise), callers := s.callers[c := to]))
  {
    WaitingChanges(s.callers, c, to);
    var rest := Waiting(s.callers) - {c};
    assert |rest| == |Waiting(s.callers)| - 1;
    assert rest == {} <==> |rest| == 0;
  }

  lemma OthersKeepSingleflight(s: State, c: nat, to: Caller)
    requires Singleflight(s) && c !in Waiting(s.callers) && !to.AwaitingRefresh?
    ensures Singleflight(s.(callers := s.callers[c := to]))
  {
    WaitingChanges(s.callers, c, to);
    assert Waiting(s.callers) - {c} == Waiting(s.callers);
  }

  predicate BeginsACall(a: Action) {
    a.Fetch? || a.Ensure? || a.TimerFires? || a.Respond?
  }

  predicate EndsAWait(a: Action) {
    a.Resume? || a.ResumeProbe? || a.RetryEnds?
  }

  lemma BeginningKeepsSingleflight(s: State, a: Action)
    requires Singleflight(s) && Enabled(s, a) && BeginsACall(a)
    ensures Singleflight(Apply(s, a))
  {
    match a {
      case Fetch(c, _, check, p) =>
        JoinKeepsSingleflight(s, c, Preflight(check), p);
        OthersKeepSingleflight(s, c, Sending(check));
      case Ensure(c, p) =>
        JoinKeepsSingleflight(s, c, Proactive, p);
        OthersKeepSingleflight(s, c, Done(Silent));
      case TimerFires(t, c, p) =>
        var quiet := s.(v := Fired(s.v, t));
        JoinKeepsSingleflight(quiet, c, Proactive, p);
        OthersKeepSingleflight(quiet, c, Done(Silent));
      case Respond(c, _, p) =>
        JoinKeepsSingleflight(s, c, Reactive, p);
        OthersKeepSingleflight(s, c, Done(Responded));
    }
  }

  lemma ResumingKeepsSingleflight(s: State, a: Action)
    requires Singleflight(s) && a.Resume? && Enabled(s, a)
    ensures Singleflight(Apply(s, a))
  {
    LeaveKeepsSingleflight(s, a.caller, Apply(s, a).callers[a.caller]);
  }

  lemma EndingKeepsSingleflight(s: State, a: Action)
    requires Singleflight(s) && (a.ResumeProbe? || a.RetryEnds?) && Enabled(s, a)
    ensures Singleflight(Apply(s, a))
  {
    OthersKeepSingleflight(s, a.caller, Apply(s, a).callers[a.caller]);
  }

  lemma QuietStepKeepsSingleflight(s: State, a: Action)
    requires Singleflight(s) && Enabled(s, a) && !BeginsACall(a) && !EndsAWait(a)
    ensures Singleflight(Apply(s, a))
  {
    assert Apply(s, a).callers == s.callers;
  }

  lemma StepKeepsSingleflight(s: State, a: Action)
    requires Singleflight(s) && Enabled(s, a)
    ensures Singleflight(Apply(s, a))
  {
    if BeginsACall(a) {
      BeginningKeepsSingleflight(s, a);
    } else if a.Resume? {
      ResumingKeepsSingleflight(s, a);
    } else if EndsAWait(a) {
      EndingKeepsSingleflight(s, a);
    } else {
      QuietStepKeepsSingleflight(s, a);
    }
  }

  // ---------- one probe at a time, asked only after a terminal refresh ----------

  ghost predicate ProbesOk(s: State) {
    && (s.v.mePromise.Some? ==> s.v.mePromise.value in s.probes && s.probes[s.v.mePromise.value].Asking?)
    && (forall q :: q in s.probes && s.probes[q].Asking? ==> s.v.mePromise == Some(q))
  }

  predicate EndedTerminally(chains: map<nat, Chain>, p: nat) {
    p in chains && chains[p].Settled? && chains[p].result.Terminal?
  }

  ghost predicate AskersOk(s: State) {
    forall c :: c in s.callers && s.callers[c].AwaitingProbe? ==>
      EndedTerminally(s.chains, s.callers[c].promise) && s.callers[c].probe in s.probes
  }

  // An announced logout names a refresh that ended terminally and a probe that did not confirm.
  predicate Justified(s: State, e: Event)
    requires e.Unauthenticated?
  {
    EndedTerminally(s.chains, e.promise) && e.probe in s.probes && s.probes[e.probe].Answer? && !s.probes[e.probe].alive
  }

  ghost predicate AnnouncementsOk(s: State) {
    forall i :: 0 <= i < |s.log| && s.log[i].Unauthenticated? ==> Justified(s, s.log[i])
  }

  lemma ResumingTouchesProbes(s: State, a: Action)
    requires a.Resume? && Enabled(s, a)
    ensures var s' := Apply(s, a);
            || (s'.v.mePromise == s.v.mePromise && s'.probes == s.probes)
            || (s.v.mePromise.None? && s'.v.mePromise == Some(a.newProbe)
                && s'.probes == s.probes[a.newProbe := Asking(s.v.accessToken)])
  {
  }

  lemma OthersLeaveProbes(s: State, a: Action)
    requires !a.Resume? && !a.ProbeEnds? && Enabled(s, a)
    ensures Apply(s, a).v.mePromise == s.v.mePromise && Apply(s, a).probes == s.probes
  {
  }

  // Only a caller's question and the probe's answer touch the probes.
  lemma StepTouchesProbes(s: State, a: Action)
    requires Enabled(s, a)
    ensures var s' := Apply(s, a);
            || (s'.v.mePromise == s.v.mePromise && s'.probes == s.probes)
            || (a.Resume? && s.v.mePromise.None? && s'.v.mePromise == Some(a.newProbe)
                && s'.probes == s.probes[a.newProbe := Asking(s.v.accessToken)])
            || (a.ProbeEnds? && s'.v.mePromise.None?
                && s'.probes == s.probes[a.probe := Answer(s.probes[a.probe].token,
                                                           a.alive && Usable(s.probes[a.probe].token))])
  {
    if a.Resume? {
      ResumingTouchesProbes(s, a);
    } else if !a.ProbeEnds? {
      OthersLeaveProbes(s, a);
    }
  }

  lemma StepKeepsProbes(s: State, a: Action)
    requires ProbesOk(s) && Enabled(s, a)
    ensures ProbesOk(Apply(s, a))
  {
    StepTouchesProbes(s, a);
  }

  // What is settled stays settled, and an answer stays the answer.
  lemma StepKeepsVerdicts(s: State, a: Action, p: nat, q: nat)
    requires Enabled(s, a)
    ensures EndedTerminally(s.chains, p) ==> EndedTerminally(Apply(s, a).chains, p)
    ensures q in s.probes ==> q in Apply(s, a).probes && (s.probes[q].Answer? ==> Apply(s, a).probes[q] == s.probes[q])
  {
  }

  lemma ResumingAsks(s: State, a: Action, c: nat)
    requires ProbesOk(s) && a.Resume? && Enabled(s, a)
    requires c in Apply(s, a).callers && Apply(s, a).callers[c].AwaitingProbe?
    ensures (c in s.callers && s.callers[c] == Apply(s, a).callers[c])
            || (EndedTerminally(s.chains, Apply(s, a).callers[c].promise)
                && Apply(s, a).callers[c].probe in Apply(s, a).probes)
  {
  }

  lemma OthersDoNotAsk(s: State, a: Action, c: nat)
    requires !a.Resume? && Enabled(s, a)
    requires c in Apply(s, a).callers && Apply(s, a).callers[c].AwaitingProbe?
    ensures c in s.callers && s.callers[c] == Apply(s, a).callers[c]
  {
  }

  // A caller asks only after its refresh ended terminally.
  lemma NewAskers(s: State, a: Action, c: nat)
    requires ProbesOk(s) && Enabled(s, a)
    requires c in Apply(s, a).callers && Apply(s, a).callers[c].AwaitingProbe?
    ensures (c in s.callers && s.callers[c] == Apply(s, a).callers[c])
            || (EndedTerminally(s.chains, Apply(s, a).callers[c].promise)
                && Apply(s, a).callers[c].probe in Apply(s, a).probes)
  {
    if a.Resume? {
      ResumingAsks(s, a, c);
    } else {
      OthersDoNotAsk(s, a, c);
    }
  }

  lemma StepKeepsAskers(s: State, a: Action)
    requires ProbesOk(s) && AskersOk(s) && Enabled(s, a)
    ensures AskersOk(Apply(s, a))
  {
    var s' := Apply(s, a);
    forall c | c in s'.callers && s'.callers[c].AwaitingProbe?
      ensures EndedTerminally(s'.chains, s'.callers[c].promise) && s'.callers[c].probe in s'.probes
    {
      NewAskers(s, a, c);
      StepKeepsVerdicts(s, a, s'.callers[c].promise, s'.callers[c].probe);
    }
  }

  lemma StepAppendsToLog(s: State, a: Action)
    requires Enabled(s, a)
    ensures s.log <= Apply(s, a).log
    ensures forall i :: |s.log| <= i < |Apply(s, a).log| && Apply(s, a).log[i].Unauthenticated? ==>
              a.ResumeProbe? && !s.probes[s.callers[a.caller].probe].alive
              && Apply(s, a).log[i] == Unauthenticated(s.callers[a.caller].promise, s.callers[a.caller].probe)
  {
  }

  lemma StepKeepsAnnouncements(s: State, a: Action)
    requires AskersOk(s) && AnnouncementsOk(s) && Enabled(s, a)
    ensures AnnouncementsOk(Apply(s, a))
  {
    var s' := Apply(s, a);
    StepAppendsToLog(s, a);
    forall i | 0 <= i < |s'.log| && s'.log[i].Unauthenticated?
      ensures Justified(s', s'.log[i])
    {
      StepKeepsVerdicts(s, a, s'.log[i].promise, s'.log[i].probe);
      if i < |s.log| {
        assert Justified(s, s.log[i]);
      }
    }
  }

  // ---------- the proactive timer ----------

  // The browser's list holds the timer whose handle the code holds and no other, and that one belongs to the
  // token in place: it is due in the second that leaves it the lead.
  predicate TimerOk(v: Shared, inBrowser: bool) {
    && v.accessTokenExp == DecodedExp(v.accessToken)
    && v.scheduled.Keys == (if v.timer.Some? then {v.timer.value} else {})
    && (v.timer.Some? ==>
          && inBrowser && Usable(v.accessToken) && v.accessTokenExp.Some?
          && v.scheduled[v.timer.value] / 1000 == v.accessTokenExp.value - PROACTIVE_REFRESH_LEAD_SECONDS)
  }

  lemma StoringKeepsTimer(v: Shared, inBrowser: bool, now: nat, token: Option<Token>)
    requires TimerOk(v, inBrowser)
    ensures TimerOk(WithToken(v, inBrowser, now, token), inBrowser)
  {
    if DueAt(inBrowser, DecodedExp(token), now).Some? {
      TimerIsNeverEarly(inBrowser, DecodedExp(token), now, DueAt(inBrowser, DecodedExp(token), now).value);
    }
  }

  lemma FiringKeepsTimer(v: Shared, inBrowser: bool, id: nat)
    requires TimerOk(v, inBrowser) && id in v.scheduled
    ensures v.timer == Some(id) && Fired(v, id).scheduled == map[] && TimerOk(Fired(v, id), inBrowser)
  {
  }

  predicate SameTokenAndTimer(v: Shared, v': Shared) {
    && v'.accessToken == v.accessToken && v'.accessTokenExp == v.accessTokenExp
    && v'.timer == v.timer && v'.scheduled == v.scheduled
  }

  // Apart from storing a token and firing a timer, a step leaves token, expiry and timers alone.
  lemma StepTouchesTimer(s: State, a: Action)
    requires Enabled(s, a)
    ensures var v, v' := s.v, Apply(s, a).v;
            || SameTokenAndTimer(v, v')
            || (a.TimerFires? && SameTokenAndTimer(Fired(v, a.timer), v'))
            || (exists token :: v' == WithToken(v, s.inBrowser, s.now, token))
  {
    match a {
      case SetToken(token) => assert Apply(s, a).v == WithToken(s.v, s.inBrowser, s.now, token);
      case AttemptEnds(_, outcome) =>
        if outcome.Refreshed? {
          assert Apply(s, a).v == WithToken(s.v, s.inBrowser, s.now, Some(outcome.token));
        }
      case ResumeProbe(_) =>
        assert Apply(s, a).v == s.v || Apply(s, a).v == WithToken(s.v, s.inBrowser, s.now, None);
      case _ =>
    }
  }

  lemma StepKeepsTimer(s: State, a: Action)
    requires TimerOk(s.v, s.inBrowser) && Enabled(s, a)
    ensures TimerOk(Apply(s, a).v, Apply(s, a).inBrowser)
  {
    StepTouchesTimer(s, a);
    assert Apply(s, a).inBrowser == s.inBrowser;
    if a.TimerFires? {
      FiringKeepsTimer(s.v, s.inBrowser, a.timer);
    } else if exists token :: Apply(s, a).v == WithToken(s.v, s.inBrowser, s.now, token) {
      var token :| Apply(s, a).v == WithToken(s.v, s.inBrowser, s.now, token);
      StoringKeepsTimer(s.v, s.inBrowser, s.now, token);
    }
  }

  // A timer that fires, on time or late, is the one of the handle and always finds work: it starts a refresh
  // or joins the one in flight, and leaves no timer behind.  Fired in the very second it is due, it leaves
  // the whole lead.
  lemma FiringIsNeverIdle(s: State, timer: nat, caller: nat, newPromise: nat)
    requires TimerOk(s.v, s.inBrowser) && Singleflight(s) && Enabled(s, TimerFires(timer, caller, newPromise))
    ensures s.v.timer == Some(timer)
    ensures var s' := Apply(s, TimerFires(timer, caller, newPromise));
            && s'.v.timer == None && s'.v.scheduled == map[]
            && caller in s'.callers && s'.callers[caller].AwaitingRefresh?
            && s'.v.refreshPromise == Some(s'.callers[caller].promise)
            && (s.v.refreshPromise.None? ==> s'.chains == s.chains[newPromise := Fetching(1)])
    ensures s.now / 1000 == s.v.scheduled[timer] / 1000 ==>
              SecondsLeft(s.v.accessTokenExp.value, s.now) == PROACTIVE_REFRESH_LEAD_SECONDS
  {
    FiringKeepsTimer(s.v, s.inBrowser, timer);
  }

  // ---------- who may take the token away ----------

  // The token in place disappears only when somebody outside signs out, or when a caller concludes a
  // terminal refresh whose probe did not confirm the session: no proactive caller, no transient outcome.
  lemma OnlyLogoutClearsTheToken(s: State, a: Action)
    requires AskersOk(s) && Enabled(s, a)
    requires s.v.accessToken.Some? && Apply(s, a).v.accessToken.None?
    ensures || a == SetToken(None)
            || (a.ResumeProbe? && Justified(s, Unauthenticated(s.callers[a.caller].promise, s.callers[a.caller].probe)))
  {
  }

  // Retries never exceed their budget.
  predicate AttemptInBudget(chain: Chain)
    requires !chain.Settled?
  {
    1 <= chain.attempt <= REFRESH_TRANSIENT_RETRIES + (if chain.BackingOff? then 0 else 1)
  }

  predicate AttemptsOk(s: State) {
    forall p :: p in s.chains && !s.chains[p].Settled? ==> AttemptInBudget(s.chains[p])
  }

  // A chain begins with its first attempt and otherwise changes only by its own stretches.
  lemma StepTouchesChain(s: State, a: Action, p: nat)
    requires Enabled(s, a) && p in Apply(s, a).chains
    ensures var chain := Apply(s, a).chains[p];
            || chain == Fetching(1)
            || (p in s.chains && chain == s.chains[p])
            || (p in s.chains && s.chains[p].Fetching? && chain.Received? && chain.attempt == s.chains[p].attempt)
            || (p in s.chains && s.chains[p].Received? && chain.BackingOff?
                && chain.attempt == s.chains[p].attempt <= REFRESH_TRANSIENT_RETRIES)
            || (p in s.chains && s.chains[p].BackingOff? && chain == Fetching(s.chains[p].attempt + 1))
            || chain.Settled?
  {
  }

  lemma StepKeepsAttempts(s: State, a: Action)
    requires AttemptsOk(s) && Enabled(s, a)
    ensures AttemptsOk(Apply(s, a))
  {
    forall p | p in Apply(s, a).chains
      ensures Apply(s, a).chains[p].Settled? || AttemptInBudget(Apply(s, a).chains[p])
    {
      StepTouchesChain(s, a, p);
    }
  }

  // ---------- the history of tokens and logouts ----------

  function LastToken(log: seq<Event>): Option<Token> {
    if log == [] then None
    else if log[|log| - 1].TokenSet? then log[|log| - 1].token
    else LastToken(log[..|log| - 1])
  }

  // Between two announcements somebody stored a token.
  ghost predicate Spaced(log: seq<Event>) {
    forall i, j :: 0 <= i < j < |log| && log[i].Unauthenticated? && log[j].Unauthenticated? ==> StoredBetween(log, i, j)
  }

  ghost predicate StoredBetween(log: seq<Event>, i: nat, j: nat)
    requires i <= j <= |log|
  {
    exists k :: i <= k < j && log[k].TokenSet? && log[k].token.Some?
  }

  ghost predicate LogOk(s: State) {
    && s.v.accessToken == LastToken(s.log)
    && Spaced(s.log)
    && (forall i :: 0 <= i < |s.log| && s.log[i].Unauthenticated? && s.v.accessToken.Some? ==>
        StoredBetween(s.log, i, |s.log|))
  }

  lemma LogGrows(s: State, token: Option<Token>)
    requires LogOk(s)
    ensures LogOk(Store(s, token))
  {
    var log' := s.log + [TokenSet(token)];
    assert log'[..|s.log|] == s.log;
    forall i, j | 0 <= i < j < |log'| && log'[i].Unauthenticated? && log'[j].Unauthenticated?
      ensures StoredBetween(log', i, j)
    {
      assert StoredBetween(s.log, i, j);
      var k :| i <= k < j && s.log[k].TokenSet? && s.log[k].token.Some?;
      assert log'[k] == s.log[k];
    }
    forall i | 0 <= i < |log'| && log'[i].Unauthenticated? && token.Some?
      ensures StoredBetween(log', i, |log'|)
    {
      assert log'[|s.log|] == TokenSet(token);
    }
  }

  lemma AnnouncementKeepsLog(s: State, e: Event)
    requires LogOk(s) && s.v.accessToken.Some? && e.Unauthenticated?
    ensures LogOk(Store(s, None).(log := Store(s, None).log + [e]))
  {
    LogGrows(s, None);
    var log1 := s.log + [TokenSet(None)];
    var log2 := log1 + [e];
    assert log2[..|log1|] == log1 && log1[..|s.log|] == s.log;
    forall i, j | 0 <= i < j < |log2| && log2[i].Unauthenticated? && log2[j].Unauthenticated?
      ensures StoredBetween(log2, i, j)
    {
      assert i < |s.log|;
      if j < |s.log| {
        assert StoredBetween(s.log, i, j);
        var k :| i <= k < j && s.log[k].TokenSet? && s.log[k].token.Some?;
        assert log2[k] == s.log[k];
      } else {
        assert StoredBetween(s.log, i, |s.log|);
        var k :| i <= k < |s.log| && s.log[k].TokenSet? && s.log[k].token.Some?;
        assert log2[k] == s.log[k];
      }
    }
  }

  lemma StepKeepsLog(s: State, a: Action)
    requires LogOk(s) && Enabled(s, a)
    ensures LogOk(Apply(s, a))
  {
    match a {
      case SetToken(token) => LogGrows(s, token);
      case AttemptEnds(p, outcome) =>
        if outcome.Refreshed? {
          LogGrows(s.(chains := s.chains[p := Received(s.chains[p].attempt, outcome)]), Some(outcome.token));
        }
      case ResumeProbe(c) =>
        var alive := s.probes[s.callers[c].probe].alive;
        var ended := s.(callers := s.callers[c := Done(if alive then Responded else LoggedOut)]);
        LogGrows(ended, None);
        if s.v.accessToken.Some? {
          AnnouncementKeepsLog(ended, Unauthenticated(s.callers[c].promise, s.callers[c].probe));
        }
      case _ =>
    }
  }
}
