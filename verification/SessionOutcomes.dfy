/**
 When an interleaved request is accepted: a request that presents a cookie of its session and runs to its
 end is turned away by exactly one of its own store calls, and by nothing else.
 */
module SessionOutcomes {
  import opened Options
  import opened SessionStore
  import opened SessionWorld
  import opened SessionProtocol
  import opened SessionHandlers
  import opened SessionRuns

  // Rotated out, its own grace row still there: the session may be logged out, but is not cleaned up.
  predicate InGrace(w: World, now: nat, c: Claims) {
    && Bound(w, c) && w.sessions[c.sid].phase != Closed && 1 <= Lag(w, c)
    && w.place[c.jti].index < |w.sessions[c.sid].rotatedAt|
    && now < Deadline(w.sessions[c.sid].rotatedAt[w.place[c.jti].index], GRACE_TTL_SECONDS)
  }

  predicate Open(w: World, now: nat, c: Claims) {
    Bound(w, c) && w.sessions[c.sid].phase != Closed && now < w.sessions[c.sid].deadline
  }

  // The grace row of the token, which names the next token of the chain.
  function RowOfNext(w: World, c: Claims): Option<GraceRow> {
    if Bound(w, c) && w.place[c.jti].index + 1 < |w.sessions[c.sid].chain|
    then Some(GraceRow(c.userId, c.sid, w.sessions[c.sid].chain[w.place[c.jti].index + 1])) else None
  }

  // Where a store call takes a request of a session, told by the session's chain alone.
  function ChainStage(w: World, now: nat, r: Request, newJti: Jti): Stage {
    var c := r.claims;
    match r.stage
    case ReadingPrimary => if Open(w, now, c) && Lag(w, c) == 0 then CheckingMember else ReadingGrace
    case ReadingGrace =>
      if InGrace(w, now, c) && RowOfNext(w, c).Some? then CheckingFamily(RowOfNext(w, c).value) else Unauthorized
    case CheckingFamily(row) => if Alive(w, now, c) then ReadingSuccessor(row.successor) else Unauthorized
    case CheckingMember => if Alive(w, now, c) then Rotating(false) else Unauthorized
    case Rotating(lastTry) =>
      if !Alive(w, now, c) then Unauthorized
      else if 1 <= Lag(w, c) then ReadingGraceAgain
      else if newJti !in w.place then Accepted(newJti)
      else if lastTry then Unavailable
      else Rotating(true)
    case ReadingGraceAgain => CheckingFamilyAgain(if InGrace(w, now, c) then RowOfNext(w, c) else None)
    case CheckingFamilyAgain(again) =>
      if again.Some? && Alive(w, now, c) then ReadingSuccessor(again.value.successor) else Unauthorized
    case ReadingSuccessor(j) => if Open(w, now, c) && Lag(w, c) == 1 then CheckingSuccessor(j) else Unauthorized
    case CheckingSuccessor(j) => if Alive(w, now, c) then Accepted(j) else Unauthorized
    case _ => r.stage
  }

  // A store call of the request whose reply arrived.
  predicate OwnCall(a: Action, id: nat) {
    (a.ReadStep? && a.id == id) || (a.RotateStep? && a.id == id && !a.replyLost)
  }

  function MintedBy(a: Action): Jti {
    if a.RotateStep? then a.newJti else Jti("")
  }

  lemma RowReadFollowsTheChain(st: State, r: Request)
    requires Inv(st) && RequestOk(st.world, r) && Bound(st.world, r.claims)
    requires r.stage.ReadingPrimary? || r.stage.ReadingGrace? || r.stage.ReadingGraceAgain?
    ensures Read(st.store, st.now, r.claims, r.stage) == ChainStage(st.world, st.now, r, Jti(""))
  {
    assert RowsRefine(st.store, st.world, st.now, r.claims.jti);
  }

  lemma CheckFollowsTheChain(st: State, r: Request)
    requires Inv(st) && RequestOk(st.world, r) && Bound(st.world, r.claims)
    requires r.stage.CheckingFamily? || r.stage.CheckingMember? || r.stage.CheckingFamilyAgain?
             || r.stage.ReadingSuccessor? || r.stage.CheckingSuccessor?
    ensures Read(st.store, st.now, r.claims, r.stage) == ChainStage(st.world, st.now, r, Jti(""))
  {
    var c, w := r.claims, st.world;
    assert FamilyRefines(st.store, w, st.now, c.sid);
    assert w.sessions[c.sid].chain[w.place[c.jti].index] == c.jti;
    if r.stage.ReadingSuccessor? {
      assert w.place[r.stage.successor] == Place(c.sid, w.place[c.jti].index + 1);
      assert RowsRefine(st.store, w, st.now, r.stage.successor);
    } else if r.stage.CheckingSuccessor? {
      assert r.stage.successor in Tokens(w.sessions[c.sid].chain);
    }
  }

  lemma RotateFollowsTheChain(st: State, a: Action)
    requires Inv(st) && a.RotateStep? && Enabled(st, a) && !a.replyLost
    ensures Bound(st.world, st.requests[a.id].claims)
    ensures Apply(st, a).requests[a.id].stage == ChainStage(st.world, st.now, st.requests[a.id], a.newJti)
  {
    var r := st.requests[a.id];
    assert RequestOk(st.world, r);
    VerdictIsChainVerdict(st.store, st.world, st.now, r.claims.jti, a.newJti, r.claims.sid);
    LastPlace(st.world, st.now, r.claims.sid);
    assert st.world.sessions[r.claims.sid].chain[st.world.place[r.claims.jti].index] == r.claims.jti;
  }

  // One step of anybody: a request of a session that nobody stops moves only by its own calls, and then to
  // the stage the chain tells.
  lemma StepFollowsTheChain(st: State, a: Action, id: nat)
    requires Inv(st) && Enabled(st, a) && id in st.requests && !(a.Stop? && a.id == id)
    requires Bound(st.world, st.requests[id].claims)
    ensures id in Apply(st, a).requests && Apply(st, a).requests[id].claims == st.requests[id].claims
    ensures Apply(st, a).requests[id].stage
            == if OwnCall(a, id) then ChainStage(st.world, st.now, st.requests[id], MintedBy(a))
               else st.requests[id].stage
  {
    var r := st.requests[id];
    assert RequestOk(st.world, r);
    if a == ReadStep(id) {
      if r.stage.ReadingPrimary? || r.stage.ReadingGrace? || r.stage.ReadingGraceAgain? {
        RowReadFollowsTheChain(st, r);
      } else {
        CheckFollowsTheChain(st, r);
      }
    } else if OwnCall(a, id) {
      RotateFollowsTheChain(st, a);
    } else {
      assert Apply(st, a).requests[id] == r;
    }
  }

  // A cookie that names no session, or not its user, gets no further than its grace row: it is refused.
  lemma UnboundIsRefused(st: State, a: Action, id: nat)
    requires Inv(st) && Enabled(st, a) && id in st.requests && OwnCall(a, id)
    requires !Bound(st.world, st.requests[id].claims)
    ensures var before, after := st.requests[id].stage, Apply(st, a).requests[id].stage;
            if before.ReadingPrimary? && Validate(st.store, st.now, st.requests[id].claims.jti).None? then
              after == ReadingGrace
            else if before.ReadingGrace? && Grace(st.store, st.now, st.requests[id].claims.jti).Some? then
              after.CheckingFamily?
            else after == Unauthorized
  {
    var r := st.requests[id];
    assert RequestOk(st.world, r);
    assert RowsRefine(st.store, st.world, st.now, r.claims.jti);
  }

  // ---------- how a request ends ----------

  // What gets a request a 401 at its next store call: no grace row left when it looks for one, and none found
  // when it looked again; the session logged out or run out when it checks the family or rotates; or a
  // successor that is not the newest token when it looks that up.
  predicate Thwarted(w: World, now: nat, r: Request) {
    match r.stage
    case ReadingPrimary => false
    case ReadingGrace => !InGrace(w, now, r.claims)
    case CheckingFamily(_) => !Alive(w, now, r.claims)
    case CheckingMember => !Alive(w, now, r.claims)
    case Rotating(_) => !Alive(w, now, r.claims)
    case ReadingGraceAgain => false
    case CheckingFamilyAgain(again) => again.None? || !Alive(w, now, r.claims)
    case ReadingSuccessor(_) => !Open(w, now, r.claims) || Lag(w, r.claims) != 1
    case CheckingSuccessor(_) => !Alive(w, now, r.claims)
    case _ => false
  }

  // A read answers 401 exactly when it is thwarted, and never 503.
  lemma ReadThwartedIff(st: State, r: Request)
    requires Inv(st) && RequestOk(st.world, r) && Bound(st.world, r.claims)
    requires !r.stage.Rotating? && !r.stage.Over()
    ensures Read(st.store, st.now, r.claims, r.stage) == Unauthorized <==> Thwarted(st.world, st.now, r)
    ensures Read(st.store, st.now, r.claims, r.stage) != Unavailable
  {
    assert RowsRefine(st.store, st.world, st.now, r.claims.jti);
    if r.stage.ReadingPrimary? || r.stage.ReadingGrace? || r.stage.ReadingGraceAgain? {
      RowReadFollowsTheChain(st, r);
    } else {
      CheckFollowsTheChain(st, r);
    }
  }

  // A rotation answers 401 exactly when the session is logged out or run out, and 503 exactly when its second
  // try collides on a live session's newest token.
  lemma RotateThwartedIff(st: State, a: Action)
    requires Inv(st) && a.RotateStep? && Enabled(st, a) && !a.replyLost
    ensures Apply(st, a).requests[a.id].stage == Unauthorized <==> !Alive(st.world, st.now, st.requests[a.id].claims)
    ensures Apply(st, a).requests[a.id].stage == Unavailable <==>
              && st.requests[a.id].stage.lastTry && Current(st.world, st.now, st.requests[a.id].claims)
              && a.newJti in st.world.place
  {
    RotateFollowsTheChain(st, a);
  }

  // The re-probe comes back empty-handed exactly when the grace row has gone.
  lemma ReprobeFindsGraceIff(st: State, id: nat)
    requires Inv(st) && Enabled(st, ReadStep(id)) && st.requests[id].stage == ReadingGraceAgain
    ensures Apply(st, ReadStep(id)).requests[id].stage.CheckingFamilyAgain?
    ensures Apply(st, ReadStep(id)).requests[id].stage.again.Some? <==>
              InGrace(st.world, st.now, st.requests[id].claims)
  {
    assert RequestOk(st.world, st.requests[id]);
    RowReadFollowsTheChain(st, st.requests[id]);
    assert RowsRefine(st.store, st.world, st.now, st.requests[id].claims.jti);
  }

  ghost predicate ThwartedAt(states: seq<State>, actions: seq<Action>, id: nat, k: nat)
    requires k < |states| && k < |actions|
  {
    && OwnCall(actions[k], id) && id in states[k].requests
    && Thwarted(states[k].world, states[k].now, states[k].requests[id])
  }

  // A rotation of a live session's newest token that meets its own minted token in the store.
  ghost predicate CollidesAt(states: seq<State>, actions: seq<Action>, id: nat, k: nat)
    requires k < |states| && k < |actions|
  {
    && OwnCall(actions[k], id) && actions[k].RotateStep? && id in states[k].requests
    && states[k].requests[id].stage.Rotating?
    && Current(states[k].world, states[k].now, states[k].requests[id].claims)
    && actions[k].newJti in states[k].world.place
  }

  ghost function Collisions(states: seq<State>, actions: seq<Action>, id: nat, i: nat, j: nat): nat
    requires i <= j <= |actions| && j <= |states|
    decreases j
  {
    if i == j then 0
    else Collisions(states, actions, id, i, j - 1) + if CollidesAt(states, actions, id, j - 1) then 1 else 0
  }

  lemma BeginsReading(states: seq<State>, actions: seq<Action>, i: nat, id: nat, c: Claims)
    requires IsRun(states, actions) && i < |actions| && actions[i] == Begin(id, c)
    ensures id in states[i + 1].requests && states[i + 1].requests[id] == Request(c, ReadingPrimary)
  {
    assert StepsTo(states[i], actions[i], states[i + 1]);
  }

  lemma RunFollowsTheChain(states: seq<State>, actions: seq<Action>, k: nat, id: nat, c: Claims)
    requires IsRun(states, actions) && k < |actions|
    requires id in states[k].requests && states[k].requests[id].claims == c && Bound(states[k].world, c)
    requires !(actions[k].Stop? && actions[k].id == id)
    ensures id in states[k + 1].requests && states[k + 1].requests[id].claims == c
    ensures states[k + 1].requests[id].stage
            == if OwnCall(actions[k], id)
               then ChainStage(states[k].world, states[k].now, states[k].requests[id], MintedBy(actions[k]))
               else states[k].requests[id].stage
    ensures OwnCall(actions[k], id) ==>
              !states[k].requests[id].stage.Over()
                && (actions[k].RotateStep? <==> states[k].requests[id].stage.Rotating?)
  {
    EveryReachableStoreIsItsChains(states, actions, k);
    assert StepsTo(states[k], actions[k], states[k + 1]);
    StepFollowsTheChain(states[k], actions[k], id);
  }

  // What a stage tells of the collisions behind it.
  predicate CollisionsFit(stage: Stage, n: nat) {
    && (stage.Unavailable? <==> n == 2)
    && (stage.ReadingPrimary? || stage.CheckingMember? || stage == Rotating(false) ==> n == 0)
    && (stage == Rotating(true) ==> n == 1)
    && n <= 2
  }

  lemma RefusalsAt(states: seq<State>, actions: seq<Action>, k: nat, id: nat, c: Claims, n: nat)
    requires IsRun(states, actions) && k < |actions|
    requires id in states[k].requests && states[k].requests[id].claims == c && Bound(states[k].world, c)
    requires !(actions[k].Stop? && actions[k].id == id) && CollisionsFit(states[k].requests[id].stage, n)
    ensures id in states[k + 1].requests && states[k + 1].requests[id].claims == c
    ensures states[k + 1].requests[id].stage == Unauthorized <==>
              states[k].requests[id].stage == Unauthorized || ThwartedAt(states, actions, id, k)
    ensures CollisionsFit(states[k + 1].requests[id].stage, n + if CollidesAt(states, actions, id, k) then 1 else 0)
  {
    RunFollowsTheChain(states, actions, k, id, c);
    if OwnCall(actions[k], id) {
      EveryReachableStoreIsItsChains(states, actions, k);
      NextStage(states[k].world, states[k].now, states[k].requests[id], MintedBy(actions[k]), n);
    }
  }

  lemma NextStage(w: World, now: nat, r: Request, newJti: Jti, n: nat)
    requires Bound(w, r.claims) && !r.stage.Over() && CollisionsFit(r.stage, n)
    requires w.place[r.claims.jti].index < |w.sessions[r.claims.sid].chain|
    ensures ChainStage(w, now, r, newJti) == Unauthorized <==> Thwarted(w, now, r)
    ensures CollisionsFit(ChainStage(w, now, r, newJti),
                          n + if r.stage.Rotating? && Current(w, now, r.claims) && newJti in w.place then 1 else 0)
  {
  }

  lemma BoundStays(states: seq<State>, actions: seq<Action>, i: nat, j: nat, c: Claims)
    requires IsRun(states, actions) && i <= j < |states| && Bound(states[i].world, c)
    ensures Bound(states[j].world, c)
  {
    HistoryGrows(states, actions, i, j);
  }

  ghost predicate EverThwarted(states: seq<State>, actions: seq<Action>, id: nat, i: nat, j: nat)
    requires i < j <= |actions| && j <= |states|
  {
    exists k :: i < k < j && ThwartedAt(states, actions, id, k)
  }

  // How a request that began at step i stands at state j.
  ghost predicate Standing(states: seq<State>, actions: seq<Action>, i: nat, j: nat, id: nat, c: Claims)
    requires i < j <= |actions| && j < |states|
  {
    && id in states[j].requests && states[j].requests[id].claims == c && Bound(states[j].world, c)
    && (states[j].requests[id].stage == Unauthorized <==> EverThwarted(states, actions, id, i, j))
    && CollisionsFit(states[j].requests[id].stage, Collisions(states, actions, id, i + 1, j))
  }

  lemma EverThwartedStep(states: seq<State>, actions: seq<Action>, id: nat, i: nat, j: nat)
    requires i < j < |actions| && j < |states|
    ensures EverThwarted(states, actions, id, i, j + 1) <==>
              EverThwarted(states, actions, id, i, j) || ThwartedAt(states, actions, id, j)
    ensures Collisions(states, actions, id, i + 1, j + 1)
            == Collisions(states, actions, id, i + 1, j) + if CollidesAt(states, actions, id, j) then 1 else 0
  {
  }

  lemma StandingStep(states: seq<State>, actions: seq<Action>, i: nat, j: nat, id: nat, c: Claims)
    requires IsRun(states, actions) && i < j < |actions| && Standing(states, actions, i, j, id, c)
    requires !(actions[j].Stop? && actions[j].id == id)
    ensures Standing(states, actions, i, j + 1, id, c)
  {
    BoundStays(states, actions, j, j + 1, c);
    RefusalsAt(states, actions, j, id, c, Collisions(states, actions, id, i + 1, j));
    EverThwartedStep(states, actions, id, i, j);
  }

  // A request begun with a cookie of a session, and never stopped from outside, ends with a 401 in a run
  // exactly when one of its calls was thwarted, and with a 503 exactly when two of its rotations collided.
  lemma {:induction false} TurnedAwayIff(states: seq<State>, actions: seq<Action>, i: nat, j: nat, id: nat, c: Claims)
    requires IsRun(states, actions) && i < j < |states|
    requires actions[i] == Begin(id, c) && Bound(states[i].world, c)
    requires forall k :: i < k < j ==> !(actions[k].Stop? && actions[k].id == id)
    ensures Standing(states, actions, i, j, id, c)
    ensures states[j].requests[id].stage == Unauthorized <==>
              exists k :: i < k < j && ThwartedAt(states, actions, id, k)
    ensures states[j].requests[id].stage == Unavailable <==> Collisions(states, actions, id, i + 1, j) == 2
    decreases j
  {
    if i + 1 < j {
      TurnedAwayIff(states, actions, i, j - 1, id, c);
      StandingStep(states, actions, i, j - 1, id, c);
    } else {
      BeginsReading(states, actions, i, id, c);
      BoundStays(states, actions, i, j, c);
    }
  }

  // So a request that presents its session's newest token and runs to its end is accepted exactly when none
  // of its calls was thwarted and its rotations did not collide twice, whatever else happens in between.
  lemma NewestTokenIsAcceptedIff(states: seq<State>, actions: seq<Action>, i: nat, j: nat, id: nat, c: Claims)
    requires IsRun(states, actions) && i < j < |states|
    requires actions[i] == Begin(id, c) && Current(states[i].world, states[i].now, c)
    requires forall k :: i < k < j ==> !(actions[k].Stop? && actions[k].id == id)
    requires id in states[j].requests && states[j].requests[id].stage.Over()
    ensures states[j].requests[id].stage.Accepted? <==>
              && (forall k :: i < k < j ==> !ThwartedAt(states, actions, id, k))
              && Collisions(states, actions, id, i + 1, j) < 2
    ensures states[j].requests[id].stage.Accepted? ==>
              Successor(states[j].world, c, states[j].requests[id].stage.cookie)
  {
    TurnedAwayIff(states, actions, i, j, id, c);
    EveryReachableStoreIsItsChains(states, actions, j);
    assert RequestOk(states[j].world, states[j].requests[id]);
  }

  // ---------- how long it takes ----------

  // How many store calls a stage has before it at most, collisions apart.
  function CallsLeft(stage: Stage): nat {
    match stage
    case ReadingPrimary => 7
    case CheckingMember => 6
    case Rotating(_) => 5
    case ReadingGrace => 4
    case ReadingGraceAgain => 4
    case CheckingFamily(_) => 3
    case CheckingFamilyAgain(_) => 3
    case ReadingSuccessor(_) => 2
    case CheckingSuccessor(_) => 1
    case _ => 0
  }

  ghost function OwnCalls(actions: seq<Action>, id: nat, i: nat, j: nat): nat
    requires i <= j <= |actions|
    decreases j
  {
    if i == j then 0 else OwnCalls(actions, id, i, j - 1) + if OwnCall(actions[j - 1], id) then 1 else 0
  }

  lemma RunCallsLeft(states: seq<State>, actions: seq<Action>, k: nat, id: nat, c: Claims)
    requires IsRun(states, actions) && k < |actions|
    requires id in states[k].requests && states[k].requests[id].claims == c && Bound(states[k].world, c)
    requires !(actions[k].Stop? && actions[k].id == id)
    ensures id in states[k + 1].requests && states[k + 1].requests[id].claims == c
    ensures CallsLeft(states[k + 1].requests[id].stage) + (if OwnCall(actions[k], id) then 1 else 0)
            <= CallsLeft(states[k].requests[id].stage) + (if CollidesAt(states, actions, id, k) then 1 else 0)
  {
    RunFollowsTheChain(states, actions, k, id, c);
    if OwnCall(actions[k], id) {
      EveryReachableStoreIsItsChains(states, actions, k);
      NextCallsLeft(states[k].world, states[k].now, states[k].requests[id], MintedBy(actions[k]));
    }
  }

  lemma NextCallsLeft(w: World, now: nat, r: Request, newJti: Jti)
    requires Bound(w, r.claims) && !r.stage.Over()
    requires w.place[r.claims.jti].index < |w.sessions[r.claims.sid].chain|
    ensures CallsLeft(ChainStage(w, now, r, newJti)) + 1
            <= CallsLeft(r.stage)
               + (if r.stage.Rotating? && Current(w, now, r.claims) && newJti in w.place then 1 else 0)
  {
  }

  ghost predicate WithinCalls(states: seq<State>, actions: seq<Action>, i: nat, j: nat, id: nat, c: Claims)
    requires i < j <= |actions| && j < |states|
  {
    && id in states[j].requests && states[j].requests[id].claims == c && Bound(states[j].world, c)
    && OwnCalls(actions, id, i + 1, j) + CallsLeft(states[j].requests[id].stage)
       <= 7 + Collisions(states, actions, id, i + 1, j)
  }

  lemma CountsStep(states: seq<State>, actions: seq<Action>, id: nat, i: nat, j: nat)
    requires i < j < |actions| && j < |states|
    ensures OwnCalls(actions, id, i + 1, j + 1)
            == OwnCalls(actions, id, i + 1, j) + if OwnCall(actions[j], id) then 1 else 0
    ensures Collisions(states, actions, id, i + 1, j + 1)
            == Collisions(states, actions, id, i + 1, j) + if CollidesAt(states, actions, id, j) then 1 else 0
  {
  }

  lemma WithinCallsStep(states: seq<State>, actions: seq<Action>, i: nat, j: nat, id: nat, c: Claims)
    requires IsRun(states, actions) && i < j < |actions| && WithinCalls(states, actions, i, j, id, c)
    requires !(actions[j].Stop? && actions[j].id == id)
    ensures WithinCalls(states, actions, i, j + 1, id, c)
  {
    BoundStays(states, actions, j, j + 1, c);
    RunCallsLeft(states, actions, j, id, c);
    CountsStep(states, actions, id, i, j);
  }

  // A request of a session makes at most seven store calls that are answered, and one more for a collision.
  lemma {:induction false} RequestsMakeSevenCalls(states: seq<State>, actions: seq<Action>, i: nat, j: nat,
                                                  id: nat, c: Claims)
    requires IsRun(states, actions) && i < j < |states|
    requires actions[i] == Begin(id, c) && Bound(states[i].world, c)
    requires forall k :: i < k < j ==> !(actions[k].Stop? && actions[k].id == id)
    ensures WithinCalls(states, actions, i, j, id, c)
    ensures OwnCalls(actions, id, i + 1, j) <= 7 + Collisions(states, actions, id, i + 1, j)
    decreases j
  {
    if i + 1 < j {
      RequestsMakeSevenCalls(states, actions, i, j - 1, id, c);
      WithinCallsStep(states, actions, i, j - 1, id, c);
    } else {
      BeginsReading(states, actions, i, id, c);
      BoundStays(states, actions, i, j, c);
    }
  }

  // A token no session has.
  lemma FreshJti(place: map<Jti, Place>) returns (j: Jti)
    ensures j !in place
  {
    var n := LongerThan(place.Keys);
    j := Jti(seq(n, _ => 'x'));
  }

  lemma {:induction false} LongerThan(used: set<Jti>) returns (n: nat)
    ensures forall j :: j in used ==> |j.text| < n
    decreases |used|
  {
    n := 0;
    if used != {} {
      var j :| j in used;
      var rest := LongerThan(used - {j});
      n := if rest <= |j.text| then |j.text| + 1 else rest;
      assert forall k :: k in used ==> k == j || k in used - {j};
    }
  }

  // And it is never stuck: until it is over it can make its next call, and that call be answered.
  lemma RequestsAreNeverStuck(states: seq<State>, actions: seq<Action>, i: nat, id: nat) returns (next: Action)
    requires IsRun(states, actions) && i < |states|
    requires id in states[i].requests && !states[i].requests[id].stage.Over()
    ensures Enabled(states[i], next) && OwnCall(next, id)
    ensures next.RotateStep? ==>
              forall days, lost :: 1 <= days <= 365 ==> Enabled(states[i], RotateStep(id, next.newJti, days, lost))
  {
    if states[i].requests[id].stage.Rotating? {
      var j := FreshJti(states[i].world.place);
      next := RotateStep(id, j, 1, false);
    } else {
      next := ReadStep(id);
    }
  }

  // A refusal from outside, or a store that does not answer, ends it at any point as told.
  lemma StoppedRequestsEnd(states: seq<State>, actions: seq<Action>, i: nat, id: nat, unavailable: bool)
    requires IsRun(states, actions) && i < |actions| && actions[i] == Stop(id, unavailable)
    ensures id in states[i + 1].requests
    ensures states[i + 1].requests[id].stage == if unavailable then Unavailable else Unauthorized
    ensures states[i + 1].store == states[i].store
  {
    assert StepsTo(states[i], actions[i], states[i + 1]);
  }

  // Its session lives, at most one token has come after its own, and then its grace row is still there.
  predicate WithinReach(w: World, now: nat, c: Claims) {
    Alive(w, now, c) && Lag(w, c) <= 1 && (Lag(w, c) == 1 ==> InGrace(w, now, c))
  }

  // The race the grace window exists for.  Whoever rotates the token, this request, another one or this one
  // with its reply lost: while the session lives, its chain grows by at most one token, the request ends
  // within the grace window of that rotation and the tokens minted for it repeat none, it is accepted with
  // the token's successor.
  lemma RaceWithinGraceIsAccepted(states: seq<State>, actions: seq<Action>, i: nat, j: nat, id: nat, c: Claims)
    requires IsRun(states, actions) && i < j < |states|
    requires actions[i] == Begin(id, c)
    requires forall k :: i <= k < j ==> WithinReach(states[k].world, states[k].now, c)
    requires forall k :: i < k < j ==> !(actions[k].Stop? && actions[k].id == id)
    requires forall k :: i < k < j && actions[k].RotateStep? && actions[k].id == id ==>
               actions[k].newJti !in states[k].world.place
    requires id in states[j].requests && states[j].requests[id].stage.Over()
    ensures states[j].requests[id].stage.Accepted?
    ensures Successor(states[j].world, c, states[j].requests[id].stage.cookie)
  {
    StaysOnCourse(states, actions, i, j, id, c);
    EveryReachableStoreIsItsChains(states, actions, j);
    assert RequestOk(states[j].world, states[j].requests[id]);
  }

  // While its token stays the newest a request is accepted whatever else others do.
  lemma UndisturbedRequestIsAccepted(states: seq<State>, actions: seq<Action>, i: nat, j: nat, id: nat, c: Claims)
    requires IsRun(states, actions) && i < j < |states|
    requires actions[i] == Begin(id, c)
    requires forall k :: i <= k < j ==> Current(states[k].world, states[k].now, c)
    requires forall k :: i < k < j ==> !(actions[k].Stop? && actions[k].id == id)
    requires forall k :: i < k < j && actions[k].RotateStep? && actions[k].id == id ==>
               actions[k].newJti !in states[k].world.place
    requires id in states[j].requests && states[j].requests[id].stage.Over()
    ensures states[j].requests[id].stage.Accepted?
  {
    RaceWithinGraceIsAccepted(states, actions, i, j, id, c);
  }

  // The stages such a request passes through: the grace ones only once its token has been rotated out.
  predicate OnCourse(w: World, c: Claims, stage: Stage) {
    match stage
    case ReadingPrimary => true
    case CheckingMember => true
    case Rotating(lastTry) => !lastTry
    case ReadingGrace => 1 <= Lag(w, c)
    case CheckingFamily(_) => 1 <= Lag(w, c)
    case ReadingGraceAgain => 1 <= Lag(w, c)
    case CheckingFamilyAgain(again) => 1 <= Lag(w, c) && again.Some?
    case ReadingSuccessor(_) => 1 <= Lag(w, c)
    case CheckingSuccessor(_) => true
    case Accepted(_) => true
    case _ => false
  }

  lemma {:induction false} StaysOnCourse(states: seq<State>, actions: seq<Action>, i: nat, k: nat, id: nat, c: Claims)
    requires IsRun(states, actions) && i < k < |states|
    requires actions[i] == Begin(id, c)
    requires forall n :: i <= n < k ==> WithinReach(states[n].world, states[n].now, c)
    requires forall n :: i < n < k ==> !(actions[n].Stop? && actions[n].id == id)
    requires forall n :: i < n < k && actions[n].RotateStep? && actions[n].id == id ==>
               actions[n].newJti !in states[n].world.place
    ensures id in states[k].requests && states[k].requests[id].claims == c
    ensures OnCourse(states[k].world, c, states[k].requests[id].stage)
    decreases k
  {
    if i + 1 < k {
      StaysOnCourse(states, actions, i, k - 1, id, c);
      RunStaysOnCourse(states, actions, k - 1, id, c);
    } else {
      BeginsReading(states, actions, i, id, c);
    }
  }

  lemma RunStaysOnCourse(states: seq<State>, actions: seq<Action>, k: nat, id: nat, c: Claims)
    requires IsRun(states, actions) && k < |actions|
    requires id in states[k].requests && states[k].requests[id].claims == c
    requires WithinReach(states[k].world, states[k].now, c)
    requires !(actions[k].Stop? && actions[k].id == id)
    requires actions[k].RotateStep? && actions[k].id == id ==> actions[k].newJti !in states[k].world.place
    requires OnCourse(states[k].world, c, states[k].requests[id].stage)
    ensures id in states[k + 1].requests && states[k + 1].requests[id].claims == c
    ensures OnCourse(states[k + 1].world, c, states[k + 1].requests[id].stage)
  {
    EveryReachableStoreIsItsChains(states, actions, k);
    assert StepsTo(states[k], actions[k], states[k + 1]);
    StepGrows(states, actions, k);
    LagGrows(states[k].world, states[k + 1].world, c);
    CourseStep(states[k], actions[k], id);
  }

  lemma LagGrows(w: World, w': World, c: Claims)
    requires Grows(w, w')
    ensures 1 <= Lag(w, c) ==> 1 <= Lag(w', c)
  {
  }

  lemma CourseStep(st: State, a: Action, id: nat)
    requires Inv(st) && Enabled(st, a) && id in st.requests && !(a.Stop? && a.id == id)
    requires WithinReach(st.world, st.now, st.requests[id].claims)
    requires a.RotateStep? && a.id == id ==> a.newJti !in st.world.place
    requires OnCourse(st.world, st.requests[id].claims, st.requests[id].stage)
    requires 1 <= Lag(st.world, st.requests[id].claims) ==> 1 <= Lag(Apply(st, a).world, st.requests[id].claims)
    ensures id in Apply(st, a).requests && Apply(st, a).requests[id].claims == st.requests[id].claims
    ensures OnCourse(Apply(st, a).world, st.requests[id].claims, Apply(st, a).requests[id].stage)
  {
    var r := st.requests[id];
    assert RequestOk(st.world, r);
    StepFollowsTheChain(st, a, id);
    if OwnCall(a, id) {
      CourseContinues(st.world, st.now, r, MintedBy(a));
    }
  }

  lemma CourseContinues(w: World, now: nat, r: Request, newJti: Jti)
    requires WithinReach(w, now, r.claims) && OnCourse(w, r.claims, r.stage) && !r.stage.Over()
    requires w.place[r.claims.jti].index < |w.sessions[r.claims.sid].chain|
    requires r.stage.Rotating? ==> newJti !in w.place
    ensures var stage := ChainStage(w, now, r, newJti);
            && OnCourse(w, r.claims, stage)
            && (stage.ReadingGrace? || stage.CheckingFamily? || stage.ReadingGraceAgain? ==> 1 <= Lag(w, r.claims))
            && (stage.CheckingFamilyAgain? || stage.ReadingSuccessor? ==> 1 <= Lag(w, r.claims))
  {
  }
}
