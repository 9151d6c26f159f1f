/**
 What a logout that returns normally leaves behind (backend/app/redis_client.py).  Round A hands the member
 list to one caller only.  When its reply is lost and the client library sends it again, or when another
 logout was faster, the list comes back empty and there is no Round B.
 */
module SessionLogout {
  import opened Options
  import opened SessionStore
  import opened SessionWorld
  import opened SessionProtocol
  import opened SessionRuns

  // The Round A of step k found the family: it took the members with it.
  ghost predicate TakesTheList(states: seq<State>, actions: seq<Action>, sid: Sid, k: nat)
    requires k < |actions| && k < |states|
  {
    actions[k] == RoundA(sid) && FamilyExists(states[k].store, states[k].now, sid)
  }

  ghost predicate UncleanedSince(actions: seq<Action>, sid: Sid, k: nat, j: nat)
    requires j <= |actions|
  {
    forall b :: k < b < j ==> actions[b] != RoundB(sid)
  }

  predicate Orphan(w: World, sid: Sid) {
    sid in w.sessions && w.sessions[sid].phase == Orphaned
  }

  lemma RotatingOrphansNobody(st: State, a: Action, sid: Sid)
    requires Inv(st) && a.RotateStep? && Enabled(st, a)
    ensures Orphan(Apply(st, a).world, sid) <==> Orphan(st.world, sid)
  {
    var c := st.requests[a.id].claims;
    VerdictIsChainVerdict(st.store, st.world, st.now, c.jti, a.newJti, c.sid);
  }

  lemma LogoutOrphansIff(st: State, a: Action, sid: Sid)
    requires Refines(st.store, st.world, st.now) && (a.RoundA? || a.RoundB?) && Enabled(st, a)
    ensures Orphan(Apply(st, a).world, sid) <==>
              || (a == RoundA(sid) && FamilyExists(st.store, st.now, sid))
              || (Orphan(st.world, sid) && a != RoundB(sid))
  {
    RoundAReadsTheWholeChain(st.store, st.world, st.now, sid);
  }

  lemma StepOrphansIff(st: State, a: Action, sid: Sid)
    requires Inv(st) && Enabled(st, a)
    ensures Orphan(Apply(st, a).world, sid) <==>
              || (a == RoundA(sid) && FamilyExists(st.store, st.now, sid))
              || (Orphan(st.world, sid) && a != RoundB(sid))
  {
    match a {
      case RotateStep(_, _, _, _) => RotatingOrphansNobody(st, a, sid);
      case RoundA(_) => LogoutOrphansIff(st, a, sid);
      case RoundB(_) => LogoutOrphansIff(st, a, sid);
      case _ =>
    }
  }

  ghost predicate OrphansAt(states: seq<State>, actions: seq<Action>, sid: Sid, j: nat)
    requires j < |actions| && j + 1 < |states|
  {
    Orphan(states[j + 1].world, sid) <==>
      TakesTheList(states, actions, sid, j) || (Orphan(states[j].world, sid) && actions[j] != RoundB(sid))
  }

  lemma RunOrphansIff(states: seq<State>, actions: seq<Action>, sid: Sid, j: nat)
    requires IsRun(states, actions) && j < |actions|
    ensures OrphansAt(states, actions, sid, j)
  {
    EveryReachableStoreIsItsChains(states, actions, j);
    assert StepsTo(states[j], actions[j], states[j + 1]);
    StepOrphansIff(states[j], actions[j], sid);
  }

  // Some Round A before step `before` took the list, and no Round B has come since.
  ghost predicate TakenAndUncleaned(states: seq<State>, actions: seq<Action>, sid: Sid, before: nat, j: nat)
    requires before <= j <= |actions| && j <= |states|
  {
    exists k: nat :: k < before && TakesTheList(states, actions, sid, k) && UncleanedSince(actions, sid, k, j)
  }

  lemma TakenStep(states: seq<State>, actions: seq<Action>, sid: Sid, j: nat)
    requires j < |actions| && j < |states|
    ensures TakenAndUncleaned(states, actions, sid, j + 1, j + 1) <==>
              || TakesTheList(states, actions, sid, j)
              || (TakenAndUncleaned(states, actions, sid, j, j) && actions[j] != RoundB(sid))
  {
    forall k: nat | k < j
      ensures UncleanedSince(actions, sid, k, j + 1) <==>
                UncleanedSince(actions, sid, k, j) && actions[j] != RoundB(sid)
    {
    }
    assert UncleanedSince(actions, sid, j, j + 1);
  }

  lemma {:induction false} OrphansCompose(states: seq<State>, actions: seq<Action>, sid: Sid, j: nat)
    requires |states| == |actions| + 1 && j < |states| && !Orphan(states[0].world, sid)
    requires forall k: nat :: k < j ==> OrphansAt(states, actions, sid, k)
    ensures Orphan(states[j].world, sid) <==> TakenAndUncleaned(states, actions, sid, j, j)
  {
    if 0 < j {
      OrphansCompose(states, actions, sid, j - 1);
      assert OrphansAt(states, actions, sid, j - 1);
      TakenStep(states, actions, sid, j - 1);
    }
  }

  // A session is orphaned exactly when a Round A has taken its list and no Round B has come since.
  lemma OrphanedIff(states: seq<State>, actions: seq<Action>, sid: Sid, j: nat)
    requires IsRun(states, actions) && j < |states|
    ensures Orphan(states[j].world, sid) <==> TakenAndUncleaned(states, actions, sid, j, j)
  {
    forall k: nat | k < j
      ensures OrphansAt(states, actions, sid, k)
    {
      RunOrphansIff(states, actions, sid, k);
    }
    OrphansCompose(states, actions, sid, j);
  }

  // A visible row of the session.
  predicate HasRow(st: State, sid: Sid, jti: Jti) {
    || (Validate(st.store, st.now, jti).Some? && Validate(st.store, st.now, jti).value.sid == sid)
    || (Grace(st.store, st.now, jti).Some? && Grace(st.store, st.now, jti).value.sid == sid)
  }

  lemma RowsRemainIff(st: State, sid: Sid)
    requires Inv(st) && sid in st.world.sessions
    ensures (exists jti :: HasRow(st, sid, jti)) <==>
              st.world.sessions[sid].phase != Closed && st.now < st.world.sessions[sid].deadline
  {
    var sess := st.world.sessions[sid];
    if jti :| HasRow(st, sid, jti) {
      assert RowsRefine(st.store, st.world, st.now, jti);
      assert sess.Valid(st.now);
    }
    LastPlace(st.world, st.now, sid);
    assert RowsRefine(st.store, st.world, st.now, sess.Last());
    if sess.phase != Closed && st.now < sess.deadline {
      assert HasRow(st, sid, sess.Last());
    }
  }

  // A logout whose answered Round A is step m and which returns normally at step n: at once with an empty
  // list, else after its Round B.
  ghost predicate ReturnsNormally(states: seq<State>, actions: seq<Action>, sid: Sid, m: nat, n: nat)
    requires |states| == |actions| + 1
  {
    && m <= n < |actions| && actions[m] == RoundA(sid)
    && if FamilyExists(states[m].store, states[m].now, sid) then m < n && actions[n] == RoundB(sid) else n == m
  }

  // At any later state rows of the session are left exactly when its deadline has not passed and an earlier
  // Round A, this logout's own unanswered one or another's, had taken the list without a Round B since.
  lemma LogoutLeavesRowsIff(states: seq<State>, actions: seq<Action>, sid: Sid, m: nat, n: nat, j: nat)
    requires IsRun(states, actions) && ReturnsNormally(states, actions, sid, m, n) && n < j < |states|
    requires sid in states[m].world.sessions
    ensures sid in states[j].world.sessions
    ensures (exists jti :: HasRow(states[j], sid, jti)) <==>
              && states[j].now < states[j].world.sessions[sid].deadline
              && TakenAndUncleaned(states, actions, sid, m, j)
  {
    LoggedOutStaysOut(states, actions, m, j);
    RowsRemainIff(states[j], sid);
    OrphanedIff(states, actions, sid, j);
    forall k: nat | k < j && TakesTheList(states, actions, sid, k) && UncleanedSince(actions, sid, k, j)
      ensures k < m
    {
      if m < k {
        RevocationIsFinal(states, actions, m, k, sid, Jti(""));
      }
    }
  }

  // The smallest instance: a login, a Round A that lands unanswered, and the same Round A sent again.  The
  // logout returns normally with an empty list, and the session's row stays.
  lemma ALostReplyLeavesTheRow(jti: Jti, sid: Sid, userId: int) returns (states: seq<State>, actions: seq<Action>)
    ensures IsRun(states, actions) && actions == [Login(jti, sid, userId, 1), RoundA(sid), RoundA(sid)]
    ensures TakesTheList(states, actions, sid, 1) && ReturnsNormally(states, actions, sid, 2, 2)
    ensures HasRow(states[3], sid, jti)
  {
    actions := [Login(jti, sid, userId, 1), RoundA(sid), RoundA(sid)];
    var s1 := Apply(Start(), actions[0]);
    var s2 := Apply(s1, actions[1]);
    states := [Start(), s1, s2, Apply(s2, actions[2])];
    assert FamilyExists(s1.store, 0, sid) && !FamilyExists(s2.store, 0, sid);
    assert Validate(states[3].store, 0, jti) == Some(PrimaryRow(userId, sid));
  }
}
