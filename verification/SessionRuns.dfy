/**
 Theorems about whole runs of the session protocol: any number of clients, any interleaving of their
 store calls, any passage of time, lost replies and abandoned logouts included.
 */
module SessionRuns {
  import opened Options
  import opened SessionStore
  import opened SessionWorld
  import opened SessionProtocol

  ghost predicate IsRun(states: seq<State>, actions: seq<Action>) {
    && |states| == |actions| + 1
    && states[0] == Start()
    && forall i :: 0 <= i < |actions| ==> StepsTo(states[i], actions[i], states[i + 1])
  }

  predicate StepsTo(st: State, a: Action, st': State) {
    Enabled(st, a) && st' == Apply(st, a)
  }

  // At every point of every run the whole store is a function of the session chains.
  lemma {:induction false} EveryReachableStoreIsItsChains(states: seq<State>, actions: seq<Action>, i: nat)
    requires IsRun(states, actions) && i < |states|
    ensures Inv(states[i])
  {
    if i == 0 {
      EmptyRefines(0);
    } else {
      EveryReachableStoreIsItsChains(states, actions, i - 1);
      assert StepsTo(states[i - 1], actions[i - 1], states[i]);
      StepKeepsInv(states[i - 1], actions[i - 1]);
    }
  }

  ghost predicate Before(st: State, st': State) {
    Grows(st.world, st'.world) && st.now <= st'.now
  }

  lemma BeforeTransitive(st: State, st': State, st'': State)
    requires Before(st, st') && Before(st', st'')
    ensures Before(st, st'')
  {
    forall s | s in st.world.sessions
      ensures st.world.sessions[s].chain <= st''.world.sessions[s].chain
    {
      assert st.world.sessions[s].chain <= st'.world.sessions[s].chain <= st''.world.sessions[s].chain;
    }
  }

  lemma StepGrows(states: seq<State>, actions: seq<Action>, k: nat)
    requires IsRun(states, actions) && k < |actions|
    ensures Before(states[k], states[k + 1])
  {
    EveryReachableStoreIsItsChains(states, actions, k);
    assert StepsTo(states[k], actions[k], states[k + 1]);
    StepKeepsInv(states[k], actions[k]);
  }

  ghost predicate OrderedAt(states: seq<State>, k: nat)
    requires k + 1 < |states|
  {
    Before(states[k], states[k + 1])
  }

  lemma {:induction false} StepsCompose(states: seq<State>, i: nat, j: nat)
    requires i <= j < |states|
    requires forall k :: i <= k < j ==> OrderedAt(states, k)
    ensures Before(states[i], states[j])
    decreases j
  {
    if i < j {
      StepsCompose(states, i, j - 1);
      assert OrderedAt(states, j - 1);
      BeforeTransitive(states[i], states[j - 1], states[j]);
    }
  }

  lemma HistoryGrows(states: seq<State>, actions: seq<Action>, i: nat, j: nat)
    requires IsRun(states, actions) && i <= j < |states|
    ensures Before(states[i], states[j])
  {
    forall k | i <= k < j
      ensures OrderedAt(states, k)
    {
      StepGrows(states, actions, k);
    }
    StepsCompose(states, i, j);
  }

  // Only the clock's own steps move it, and only the calls that write touch the store.
  lemma ClockAndStoreMoveSo(states: seq<State>, actions: seq<Action>, i: nat)
    requires IsRun(states, actions) && i < |actions|
    ensures states[i + 1].now == states[i].now + (if actions[i].Tick? then actions[i].elapsed else 0)
    ensures actions[i].Tick? || actions[i].Begin? || actions[i].ReadStep? || actions[i].Stop? ==>
              states[i + 1].store == states[i].store
    ensures !actions[i].RoundA? && !actions[i].RoundB? ==> states[i + 1].pending == states[i].pending
  {
    assert StepsTo(states[i], actions[i], states[i + 1]);
  }

  // ---------- logout ----------

  lemma LoggedOutStaysOut(states: seq<State>, actions: seq<Action>, i: nat, j: nat)
    requires IsRun(states, actions) && i < j < |states|
    requires actions[i].RoundA? && actions[i].sid in states[i].world.sessions
    ensures Inv(states[j])
    ensures actions[i].sid in states[j].world.sessions && states[j].world.sessions[actions[i].sid].phase != Active
  {
    EveryReachableStoreIsItsChains(states, actions, i);
    EveryReachableStoreIsItsChains(states, actions, j);
    HistoryGrows(states, actions, i + 1, j);
  }

  // Once Round A has landed the family is gone for good: every probe fails at every later instant, and
  // no primary or grace row of the session appears that was not there when it landed.
  lemma RevocationIsFinal(states: seq<State>, actions: seq<Action>, i: nat, j: nat, sid: Sid, jti: Jti)
    requires IsRun(states, actions) && i < j < |states|
    requires actions[i] == RoundA(sid) && sid in states[i].world.sessions
    ensures var before, after := states[i], states[j];
            && !FamilyExists(after.store, after.now, sid) && !FamilyMember(after.store, after.now, sid, jti)
            && (var row := Validate(after.store, after.now, jti);
                row.Some? && row.value.sid == sid ==> Validate(before.store, before.now, jti) == row)
            && (var row := Grace(after.store, after.now, jti);
                row.Some? && row.value.sid == sid ==> Grace(before.store, before.now, jti) == row)
  {
    LoggedOutStaysOut(states, actions, i, j);
    EveryReachableStoreIsItsChains(states, actions, i + 1);
    HistoryGrows(states, actions, i + 1, j);
    assert states[i + 1].store == RevokeRoundA(states[i].store, sid);
    LoggedOutRowsOnlyVanish(states[i + 1], states[j], sid, jti);
  }

  lemma LoggedOutRowsOnlyVanish(before: State, after: State, sid: Sid, jti: Jti)
    requires Refines(before.store, before.world, before.now) && Refines(after.store, after.world, after.now)
    requires Grows(before.world, after.world) && before.now <= after.now
    requires sid in before.world.sessions && before.world.sessions[sid].phase != Active
    ensures !FamilyExists(after.store, after.now, sid)
    ensures var row := Validate(after.store, after.now, jti);
            row.Some? && row.value.sid == sid ==> Validate(before.store, before.now, jti) == row
    ensures var row := Grace(after.store, after.now, jti);
            row.Some? && row.value.sid == sid ==> Grace(before.store, before.now, jti) == row
  {
    var w, w' := before.world, after.world;
    assert FamilyRefines(after.store, w', after.now, sid);
    if jti in w'.place && w'.place[jti].sid == sid {
      SamePlace(w, before.now, w', after.now, sid, jti);
    }
    assert RowsRefine(after.store, w', after.now, jti);
    assert RowsRefine(before.store, w, before.now, jti);
    ExpectedRowsOnlyVanish(w, before.now, w', after.now, sid, jti);
  }

  lemma ExpectedRowsOnlyVanish(w: World, now: nat, w': World, now': nat, sid: Sid, jti: Jti)
    requires now <= now' && sid in w.sessions && sid in w'.sessions
    requires w'.sessions[sid] == w.sessions[sid].(phase := w'.sessions[sid].phase)
    requires Rank(w.sessions[sid].phase) <= Rank(w'.sessions[sid].phase)
    requires jti in w'.place && w'.place[jti].sid == sid ==> jti in w.place && w.place[jti] == w'.place[jti]
    ensures var row := ExpectedPrimary(w', now', jti);
            row.Some? && row.value.sid == sid ==> ExpectedPrimary(w, now, jti) == row
    ensures var row := ExpectedGrace(w', now', jti);
            row.Some? && row.value.sid == sid ==> ExpectedGrace(w, now, jti) == row
  {
  }

  lemma SamePlace(w: World, now: nat, w': World, now': nat, sid: Sid, jti: Jti)
    requires WellFormed(w, now) && WellFormed(w', now') && Grows(w, w')
    requires sid in w.sessions && w.sessions[sid].phase != Active
    requires jti in w'.place && w'.place[jti].sid == sid
    ensures jti in w.place && w.place[jti] == w'.place[jti]
  {
    assert w.sessions[sid].chain[w'.place[jti].index] == jti;
  }

  // Once Round B has landed too, no row of the session is visible at any later instant.
  lemma CleanupIsComplete(states: seq<State>, actions: seq<Action>, i: nat, j: nat, sid: Sid, jti: Jti)
    requires IsRun(states, actions) && i < j < |states|
    requires actions[i] == RoundB(sid)
    ensures var st := states[j];
            && (Validate(st.store, st.now, jti).Some? ==> Validate(st.store, st.now, jti).value.sid != sid)
            && (Grace(st.store, st.now, jti).Some? ==> Grace(st.store, st.now, jti).value.sid != sid)
  {
    EveryReachableStoreIsItsChains(states, actions, i);
    EveryReachableStoreIsItsChains(states, actions, j);
    HistoryGrows(states, actions, i + 1, j);
    assert states[i + 1].world.sessions[sid].phase == Closed;
    assert RowsRefine(states[j].store, states[j].world, states[j].now, jti);
  }

  // The stages a request is let through to: to rotate or to read the successor, which is where `/verify`
  // accepts it, and to its cookie.
  predicate Admitted(stage: Stage) {
    stage.Rotating? || stage.ReadingSuccessor? || stage.Accepted?
  }

  // Letting a request through takes the family at that very step.
  lemma AdmissionNeedsTheFamily(st: State, a: Action, id: nat)
    requires Enabled(st, a)
    requires id in Apply(st, a).requests && Admitted(Apply(st, a).requests[id].stage)
    ensures id in st.requests && st.requests[id].claims == Apply(st, a).requests[id].claims
    ensures st.requests[id] == Apply(st, a).requests[id]
            || (!a.RoundA? && FamilyExists(st.store, st.now, st.requests[id].claims.sid))
  {
  }

  // After Round A no request of the session is let through any further, neither one begun later nor one in
  // flight: not by the validator, not by the rotation and not by the catch-up.
  lemma {:induction false} NothingIsAdmittedAfterLogout(states: seq<State>, actions: seq<Action>, i: nat, j: nat,
                                                        sid: Sid, id: nat)
    requires IsRun(states, actions) && i < j < |states|
    requires actions[i] == RoundA(sid) && sid in states[i].world.sessions
    requires id in states[j].requests && states[j].requests[id].claims.sid == sid
             && Admitted(states[j].requests[id].stage)
    ensures id in states[i].requests && states[i].requests[id] == states[j].requests[id]
    decreases j
  {
    assert StepsTo(states[j - 1], actions[j - 1], states[j]);
    AdmissionNeedsTheFamily(states[j - 1], actions[j - 1], id);
    if i + 1 < j {
      RevocationIsFinal(states, actions, i, j - 1, sid, Jti(""));
      NothingIsAdmittedAfterLogout(states, actions, i, j - 1, sid, id);
    }
  }

  // Of all the logouts of one session, at most one is handed a list to clean.
  lemma OneLogoutGetsTheList(states: seq<State>, actions: seq<Action>, i: nat, j: nat, sid: Sid)
    requires IsRun(states, actions) && i < j < |actions|
    requires actions[i] == RoundA(sid) && actions[j] == RoundA(sid)
    requires FamilyExists(states[i].store, states[i].now, sid)
    ensures !FamilyExists(states[j].store, states[j].now, sid)
  {
    EveryReachableStoreIsItsChains(states, actions, i);
    RoundAReadsTheWholeChain(states[i].store, states[i].world, states[i].now, sid);
    RevocationIsFinal(states, actions, i, j, sid, Jti(""));
  }

  // ---------- rotation ----------

  // The token a step rotates out, if its script answered ok (whether or not the reply arrived).
  predicate Wins(st: State, a: Action, jti: Jti) {
    && a.RotateStep? && Enabled(st, a)
    && st.requests[a.id].claims.jti == jti
    && RotateVerdict(st.store, st.now, jti, a.newJti, st.requests[a.id].claims.sid) == RotateOk
  }

  lemma WinnerExtendsTheChain(st: State, a: Action, jti: Jti)
    requires Inv(st) && Wins(st, a, jti)
    ensures jti in st.world.place && st.world.place[jti].sid in st.world.sessions
    ensures var sess := st.world.sessions[st.world.place[jti].sid];
            && st.world.place[jti].index + 1 == |sess.chain|
            && Apply(st, a).world.sessions[st.world.place[jti].sid].chain == sess.chain + [a.newJti]
  {
    var c := st.requests[a.id].claims;
    assert RequestOk(st.world, st.requests[a.id]);
    VerdictIsChainVerdict(st.store, st.world, st.now, jti, a.newJti, c.sid);
    LastPlace(st.world, st.now, c.sid);
  }

  // Over a whole run a token is rotated successfully at most once.
  lemma SingleWinner(states: seq<State>, actions: seq<Action>, i: nat, j: nat, jti: Jti)
    requires IsRun(states, actions) && i < j < |actions|
    requires Wins(states[i], actions[i], jti)
    ensures !Wins(states[j], actions[j], jti)
  {
    EveryReachableStoreIsItsChains(states, actions, i);
    EveryReachableStoreIsItsChains(states, actions, j);
    HistoryGrows(states, actions, i, i + 1);
    HistoryGrows(states, actions, i + 1, j);
    WinnerExtendsTheChain(states[i], actions[i], jti);
    if Wins(states[j], actions[j], jti) {
      WinnerExtendsTheChain(states[j], actions[j], jti);
      assert false;
    }
  }

  // However many requests present one token, and whichever of them win, lose or come back for the grace
  // row, every accepted one leaves with the same cookie, for the user the session was issued to.
  lemma AcceptedRefreshesConverge(states: seq<State>, actions: seq<Action>, i: nat, j: nat, a: nat, b: nat)
    requires IsRun(states, actions) && i <= j < |states|
    requires a in states[i].requests && states[i].requests[a].stage.Accepted?
    requires b in states[j].requests && states[j].requests[b].stage.Accepted?
    requires states[i].requests[a].claims.jti == states[j].requests[b].claims.jti
    ensures states[i].requests[a] == states[j].requests[b]
  {
    EveryReachableStoreIsItsChains(states, actions, i);
    EveryReachableStoreIsItsChains(states, actions, j);
    HistoryGrows(states, actions, i, j);
    AcceptedAgree(states[i].world, states[j].world, states[i].requests[a], states[j].requests[b]);
  }

  lemma AcceptedAgree(w: World, w': World, r: Request, r': Request)
    requires Grows(w, w') && RequestOk(w, r) && RequestOk(w', r')
    requires r.stage.Accepted? && r'.stage.Accepted? && r.claims.jti == r'.claims.jti
    ensures r == r'
  {
    GrowthKeepsRequests(w, w', r);
  }

  // ---------- coverage ----------

  // A visible row belongs to a family that is visible too, now and for as long as the row is; otherwise
  // it is on the list of a logout whose second round is still to come.
  lemma EveryRowIsCovered(states: seq<State>, actions: seq<Action>, i: nat, t: nat, jti: Jti)
    requires IsRun(states, actions) && i < |states| && states[i].now <= t
    ensures var st := states[i];
            && (Validate(st.store, t, jti).Some? ==> Accounted(st, t, Validate(st.store, t, jti).value.sid, jti))
            && (Grace(st.store, t, jti).Some? ==> Accounted(st, t, Grace(st.store, t, jti).value.sid, jti))
  {
    EveryReachableStoreIsItsChains(states, actions, i);
    OrphansArePending(states, actions, i);
    RowsNeverOutliveTheirFamily(states[i].store, states[i].world, states[i].now, jti, t);
  }

  predicate Accounted(st: State, t: nat, sid: Sid, jti: Jti) {
    FamilyMember(st.store, t, sid, jti) || (sid in st.pending && jti in st.pending[sid])
  }

  lemma {:induction false} OrphansArePending(states: seq<State>, actions: seq<Action>, i: nat)
    requires IsRun(states, actions) && i < |states|
    ensures OrphansPending(states[i].world, states[i].pending)
  {
    if i > 0 {
      OrphansArePending(states, actions, i - 1);
      EveryReachableStoreIsItsChains(states, actions, i - 1);
      assert StepsTo(states[i - 1], actions[i - 1], states[i]);
      OrphansStayPending(states[i - 1], actions[i - 1]);
    }
  }

  ghost predicate OrphansPending(w: World, pending: map<Sid, set<Jti>>) {
    forall s :: s in w.sessions && w.sessions[s].phase == Orphaned ==>
      s in pending && pending[s] == Tokens(w.sessions[s].chain)
  }

  lemma RotatingLeavesOrphans(st: State, a: Action)
    requires Inv(st) && a.RotateStep? && Enabled(st, a) && OrphansPending(st.world, st.pending)
    ensures OrphansPending(Apply(st, a).world, Apply(st, a).pending)
  {
    var c := st.requests[a.id].claims;
    VerdictIsChainVerdict(st.store, st.world, st.now, c.jti, a.newJti, c.sid);
  }

  lemma RoundAListsItsOrphan(st: State, sid: Sid)
    requires Inv(st) && OrphansPending(st.world, st.pending)
    ensures OrphansPending(Apply(st, RoundA(sid)).world, Apply(st, RoundA(sid)).pending)
  {
    RoundAReadsTheWholeChain(st.store, st.world, st.now, sid);
  }

  // Anybody may sign in, begin a request, log out or wait at any time, and an orphaned session can be cleaned.
  lemma TheWorldIsFree(states: seq<State>, actions: seq<Action>, i: nat, jti: Jti, sid: Sid, id: nat, c: Claims,
                       userId: int, days: nat, elapsed: nat)
    requires IsRun(states, actions) && i < |states| && 1 <= days <= 365
    ensures var st := states[i];
            && Enabled(st, RoundA(sid)) && Enabled(st, Tick(elapsed))
            && (jti !in st.world.place && sid !in st.world.sessions ==> Enabled(st, Login(jti, sid, userId, days)))
            && (id !in st.requests ==> Enabled(st, Begin(id, c)))
            && (sid in st.world.sessions && st.world.sessions[sid].phase == Orphaned ==> Enabled(st, RoundB(sid)))
  {
    OrphansArePending(states, actions, i);
  }

  lemma OrphansStayPending(st: State, a: Action)
    requires Inv(st) && Enabled(st, a) && OrphansPending(st.world, st.pending)
    ensures OrphansPending(Apply(st, a).world, Apply(st, a).pending)
  {
    match a {
      case RotateStep(_, _, _, _) => RotatingLeavesOrphans(st, a);
      case RoundA(sid) => RoundAListsItsOrphan(st, sid);
      case _ =>
    }
  }
}
